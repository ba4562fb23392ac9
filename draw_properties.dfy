/** What one pass of AutoDrawer.draw guarantees about its trace of events:
    every write is backed by a fresh read that still needed it, a pacing
    sleep only follows a write, each listed coordinate is written at most
    once, a stale animation frame ends the pass, and a static target never
    touches the template. */
module DrawProperties {
  import opened Wrappers
  import opened Images
  import opened AutoDraw
  import opened DrawLoop

  // ---------------------------------------------------------------------------
  // Trace predicates

  /** The snapshot cv still calls for a write at c: the live pixel and the
      frame's pixel there can both be read, and they differ in every channel
      by at least the lenience. */
  predicate Due(d: Drawer, image: Frame, cv: Canvas, c: Coord)
  {
    && GetPixel(cv, c.x, c.y).Ok?
    && GetFramePixel(image, c.x - d.startX, c.y - d.startY).Ok?
    && ShouldChangePixel(GetPixel(cv, c.x, c.y).value, GetFramePixel(image, c.x - d.startX, c.y - d.startY).value)
  }

  /** The colour a write at c sends: the frame pixel's first three channels in hex. */
  function TargetHex(d: Drawer, image: Frame, c: Coord): string
    requires GetFramePixel(image, c.x - d.startX, c.y - d.startY).Ok?
  {
    RgbToHex(GetFramePixel(image, c.x - d.startX, c.y - d.startY).value.Opaque())
  }

  /** The write of colour at `at` is what the snapshot `read` calls for. */
  predicate WriteJustified(d: Drawer, image: Frame, read: Event, at: Coord, colour: string)
  {
    read.CanvasRead? && Due(d, image, read.canvas, at) && colour == TargetHex(d, image, at)
  }

  /** Event i of a trace is preceded by what it needs. */
  predicate Justifies(d: Drawer, image: Frame, events: seq<Event>, i: nat)
    requires i < |events|
  {
    match events[i]
    case CanvasRead(_, _) => true
    case CycleCheck(_) => true
    case PixelWrite(at, colour, _) => 0 < i && WriteJustified(d, image, events[i - 1], at, colour)
    case Sleep(_) => 0 < i && events[i - 1].PixelWrite?
  }

  predicate Justified(d: Drawer, image: Frame, events: seq<Event>)
  {
    forall i :: 0 <= i < |events| ==> Justifies(d, image, events, i)
  }

  /** A trace that starts with a read or a frame check, never a write or sleep. */
  predicate Opens(events: seq<Event>)
  {
    |events| > 0 ==> events[0].CanvasRead? || events[0].CycleCheck?
  }

  predicate WritesAmong(events: seq<Event>, cs: seq<Coord>)
  {
    forall i :: 0 <= i < |events| && events[i].PixelWrite? ==> events[i].at in cs
  }

  /** No coordinate is written twice. */
  predicate WritesDistinct(events: seq<Event>)
  {
    forall i, j :: 0 <= i < j < |events| && events[i].PixelWrite? && events[j].PixelWrite? ==>
      events[i].at != events[j].at
  }

  predicate NoCycleChecks(events: seq<Event>)
  {
    forall i :: 0 <= i < |events| ==> !events[i].CycleCheck?
  }

  /** A failed frame check can only be the last event, and only of a stale run. */
  predicate StaleOnlyLast(events: seq<Event>, status: Status)
  {
    && (forall i :: 0 <= i < |events| && events[i] == CycleCheck(false) ==> i == |events| - 1 && status == Stale)
    && (status == Stale ==> |events| > 0 && events[|events| - 1] == CycleCheck(false))
  }

  lemma JustifiedConcat(d: Drawer, image: Frame, a: seq<Event>, b: seq<Event>)
    requires Justified(d, image, a) && Justified(d, image, b) && Opens(b)
    ensures Justified(d, image, a + b)
  {
    var ab := a + b;
    forall i | 0 <= i < |ab| ensures Justifies(d, image, ab, i) {
      if i < |a| {
        assert ab[i] == a[i];
        if 0 < i { assert ab[i - 1] == a[i - 1]; }
        assert Justifies(d, image, a, i);
      } else {
        assert ab[i] == b[i - |a|];
        if i > |a| { assert ab[i - 1] == b[i - |a| - 1]; }
        assert Justifies(d, image, b, i - |a|);
      }
    }
  }

  lemma WritesAmongConcat(a: seq<Event>, b: seq<Event>, cs: seq<Coord>, c: Coord)
    requires WritesAmong(a, cs) && WritesAmong(b, [c])
    ensures WritesAmong(a + b, cs + [c])
  {
    var ab := a + b;
    forall i | 0 <= i < |ab| && ab[i].PixelWrite? ensures ab[i].at in cs + [c] {
      if i < |a| {
        assert ab[i] == a[i];
      } else {
        assert ab[i] == b[i - |a|];
      }
    }
  }

  /** Appending the writes to a fresh coordinate keeps the writes distinct. */
  lemma WritesDistinctConcat(a: seq<Event>, b: seq<Event>, cs: seq<Coord>, c: Coord)
    requires WritesDistinct(a) && WritesDistinct(b) && WritesAmong(a, cs) && WritesAmong(b, [c]) && c !in cs
    ensures WritesDistinct(a + b)
  {
    var ab := a + b;
    forall i, j | 0 <= i < j < |ab| && ab[i].PixelWrite? && ab[j].PixelWrite? ensures ab[i].at != ab[j].at {
      if j < |a| {
        assert ab[i] == a[i] && ab[j] == a[j];
      } else if i >= |a| {
        assert ab[i] == b[i - |a|] && ab[j] == b[j - |a|];
      } else {
        assert ab[i] == a[i] && ab[j] == b[j - |a|];
      }
    }
  }

  lemma NoCycleChecksConcat(a: seq<Event>, b: seq<Event>)
    requires NoCycleChecks(a) && NoCycleChecks(b)
    ensures NoCycleChecks(a + b)
  {
    var ab := a + b;
    forall i | 0 <= i < |ab| ensures !ab[i].CycleCheck? {
      if i < |a| { assert ab[i] == a[i]; } else { assert ab[i] == b[i - |a|]; }
    }
  }

  lemma StaleConcat(a: seq<Event>, b: seq<Event>, status: Status)
    requires StaleOnlyLast(a, Running) && StaleOnlyLast(b, status)
    ensures StaleOnlyLast(a + b, status)
  {
    var ab := a + b;
    forall i | 0 <= i < |ab| && ab[i] == CycleCheck(false) ensures i == |ab| - 1 && status == Stale {
      if i >= |a| {
        assert b[i - |a|] == CycleCheck(false);
      }
    }
    if status == Stale {
      assert ab[|ab| - 1] == b[|b| - 1];
    }
  }

  // ---------------------------------------------------------------------------
  // One coordinate

  /** Redraw's trace: at most a read, a write to c and a sleep, in that order. */
  predicate RedrawLayout(e: seq<Event>, c: Coord)
  {
    && |e| <= 3
    && (|e| > 0 ==> e[0].CanvasRead?)
    && (|e| > 1 ==> e[1].PixelWrite? && e[1].at == c)
    && (|e| > 2 ==> e[2].Sleep?)
  }

  /** ... and the write is the one the read calls for. */
  predicate RedrawShaped(d: Drawer, image: Frame, e: seq<Event>, c: Coord)
  {
    RedrawLayout(e, c) && (|e| > 1 ==> WriteJustified(d, image, e[0], c, e[1].colour))
  }

  lemma WriteLayout(read: Event, w: seq<Event>, c: Coord)
    requires read.CanvasRead?
    requires 1 <= |w| <= 2 && w[0].PixelWrite? && w[0].at == c && (|w| == 2 ==> w[1].Sleep?)
    ensures RedrawLayout([read] + w, c)
  {
  }

  lemma RedrawShape(d: Drawer, env: Env, image: Frame, c: Coord, k: Counters)
    ensures var p := Redraw(d, env, image, c, k);
      && RedrawLayout(p.events, c)
      && p.status != Stale
      && p.counters.current == k.current && p.counters.queries == k.queries
  {
    var p := Redraw(d, env, image, c, k);
    match env.canvasRead(k.snapshots)
    case Err(e) =>
      assert p.events == [] && p.status == Failed(e);
    case Ok(cv) =>
      match GetPixel(cv, c.x, c.y)
      case Err(e) =>
        assert p.events == [CanvasRead(cv, env.readPauses(k.snapshots))] && p.status == Failed(e);
      case Ok(live) =>
        match GetFramePixel(image, c.x - d.startX, c.y - d.startY)
        case Err(e) =>
          assert p.events == [CanvasRead(cv, env.readPauses(k.snapshots))] && p.status == Failed(e);
        case Ok(target) =>
          if !ShouldChangePixel(live, target) {
            assert p.events == [CanvasRead(cv, env.readPauses(k.snapshots))] && p.status == Running;
          } else {
            var w := SetPixel(c, RgbToHex(target.Opaque()), env.setPixelCall(k.writes));
            assert p.events == [CanvasRead(cv, env.readPauses(k.snapshots))] + w.0 && p.status != Stale;
            WriteLayout(CanvasRead(cv, env.readPauses(k.snapshots)), w.0, c);
          }
  }

  /** A write in the loop body is what the fresh snapshot just before it
      calls for, and a snapshot that calls for a write gets one. */
  lemma RedrawWriteJustified(d: Drawer, env: Env, image: Frame, c: Coord, k: Counters)
    ensures var p := Redraw(d, env, image, c, k);
      var read := env.canvasRead(k.snapshots);
      && RedrawShaped(d, image, p.events, c)
      && (p.events != [] ==> read == Ok(p.events[0].canvas))
      && (read.Ok? && Due(d, image, read.value, c) ==> |p.events| > 1)
  {
    RedrawShape(d, env, image, c, k);
    var p := Redraw(d, env, image, c, k);
    if |p.events| > 1 {
      var cv := env.canvasRead(k.snapshots).value;
      var target := GetFramePixel(image, c.x - d.startX, c.y - d.startY);
      var written := SetPixel(c, RgbToHex(target.value.Opaque()), env.setPixelCall(k.writes)).0;
      assert p.events == [CanvasRead(cv, env.readPauses(k.snapshots))] + written;
    }
  }

  /** The loop body writes exactly when its fresh snapshot still calls for
      it: then its events are the read followed by setPixel's, with the
      target colour and the next set_pixel call; otherwise they are the read
      alone (or nothing, when the snapshot fails) and no write is counted. */
  lemma RedrawWrites(d: Drawer, env: Env, image: Frame, c: Coord, k: Counters)
    ensures var p := Redraw(d, env, image, c, k);
      var read := env.canvasRead(k.snapshots);
      && (read.Ok? && Due(d, image, read.value, c) ==>
            && p.events == [CanvasRead(read.value, env.readPauses(k.snapshots))] + SetPixel(c, TargetHex(d, image, c), env.setPixelCall(k.writes)).0
            && p.counters.writes == k.writes + 1
            && (p.status.Failed? <==> SetPixel(c, TargetHex(d, image, c), env.setPixelCall(k.writes)).1.Err?))
      && (!(read.Ok? && Due(d, image, read.value, c)) ==>
            && p.events == (if read.Ok? then [CanvasRead(read.value, env.readPauses(k.snapshots))] else [])
            && p.counters.writes == k.writes)
  {
  }

  lemma ShapedJustified(d: Drawer, image: Frame, e: seq<Event>, c: Coord)
    requires RedrawShaped(d, image, e, c)
    ensures Justified(d, image, e) && Opens(e)
  {
    forall i | 0 <= i < |e| ensures Justifies(d, image, e, i) {
    }
  }

  lemma ShapedWrites(e: seq<Event>, c: Coord)
    requires RedrawLayout(e, c)
    ensures WritesAmong(e, [c]) && WritesDistinct(e) && NoCycleChecks(e)
  {
    forall i | 0 <= i < |e| && e[i].PixelWrite? ensures i == 1 {
    }
  }

  /** A leading event that is not a write leaves the writes as they were. */
  lemma WritesAfter(x: Event, e: seq<Event>, cs: seq<Coord>)
    requires !x.PixelWrite? && WritesAmong(e, cs) && WritesDistinct(e)
    ensures WritesAmong([x] + e, cs) && WritesDistinct([x] + e)
  {
    var xe := [x] + e;
    forall i | 0 < i < |xe| ensures xe[i] == e[i - 1] {
    }
  }

  /** Every event of the loop body has what it needs before it. */
  lemma RedrawJustified(d: Drawer, env: Env, image: Frame, c: Coord, k: Counters)
    ensures var p := Redraw(d, env, image, c, k);
      Justified(d, image, p.events) && Opens(p.events)
  {
    RedrawWriteJustified(d, env, image, c, k);
    ShapedJustified(d, image, Redraw(d, env, image, c, k).events, c);
  }

  /** An animated step: a stale or failed check ends with no write, a current
      one is followed by the loop body, so the frame check comes first. */
  lemma CheckedStepJustified(d: Drawer, t: TemplateView, env: Env, image: Frame, c: Coord, k: Counters)
    requires d.isAnimated
    ensures var s := Step(d, t, env, image, c, k);
      && Justified(d, image, s.events) && Opens(s.events)
      && (CycleQuery(t, env, k).Ok? ==> s.events != [])
      && (s.events != [] ==> s.events[0].CycleCheck?)
  {
    if CycleQuery(t, env, k).Ok? && !CycleQuery(t, env, k).value.1 {
      var p := Redraw(d, env, image, c, AfterQuery(t, env, k));
      RedrawJustified(d, env, image, c, AfterQuery(t, env, k));
      JustifiedConcat(d, image, [CycleCheck(true)], p.events);
    }
  }

  /** An animated step follows its frame query: a failed query ends the loop
      with its error and no events, a successful one is reported first, and
      the step is stale exactly when the query saw a new frame, in which case
      the report is all it does. */
  lemma CheckedStepFollowsQuery(d: Drawer, t: TemplateView, env: Env, image: Frame, c: Coord, k: Counters)
    requires d.isAnimated
    ensures var s := Step(d, t, env, image, c, k);
      var q := CycleQuery(t, env, k);
      && (q.Err? ==> s.events == [] && s.status == Failed(q.error))
      && (q.Ok? ==> s.events != [] && s.events[0] == CycleCheck(!q.value.1))
      && (s.status == Stale <==> q.Ok? && q.value.1)
      && (q.Ok? && q.value.1 ==> s.events == [CycleCheck(false)])
      && (q.Ok? && !q.value.1 ==>
            s.events == [CycleCheck(true)] + Redraw(d, env, image, c, AfterQuery(t, env, k)).events)
      && s.counters.current == AfterQuery(t, env, k).current
  {
    RedrawShape(d, env, image, c, AfterQuery(t, env, k));
  }

  lemma StepJustified(d: Drawer, t: TemplateView, env: Env, image: Frame, c: Coord, k: Counters)
    ensures var s := Step(d, t, env, image, c, k);
      Justified(d, image, s.events) && Opens(s.events)
  {
    if d.isAnimated {
      CheckedStepJustified(d, t, env, image, c, k);
    } else {
      RedrawJustified(d, env, image, c, k);
    }
  }

  lemma StepWrites(d: Drawer, t: TemplateView, env: Env, image: Frame, c: Coord, k: Counters)
    ensures var s := Step(d, t, env, image, c, k);
      WritesAmong(s.events, [c]) && WritesDistinct(s.events)
  {
    if !d.isAnimated {
      RedrawShape(d, env, image, c, k);
      ShapedWrites(Redraw(d, env, image, c, k).events, c);
    } else {
      var k1 := AfterQuery(t, env, k);
      if CycleQuery(t, env, k).Ok? && !CycleQuery(t, env, k).value.1 {
        var p := Redraw(d, env, image, c, k1);
        RedrawShape(d, env, image, c, k1);
        ShapedWrites(p.events, c);
        WritesAfter(CycleCheck(true), p.events, [c]);
      }
    }
  }

  lemma NotStale(e: seq<Event>, status: Status)
    requires NoCycleChecks(e) && status != Stale
    ensures StaleOnlyLast(e, status)
  {
  }

  /** A passed frame check before a trace without checks. */
  lemma CheckedNotStale(e: seq<Event>, status: Status)
    requires NoCycleChecks(e) && status != Stale
    ensures StaleOnlyLast([CycleCheck(true)] + e, status)
  {
    var ce := [CycleCheck(true)] + e;
    forall i | 0 < i < |ce| ensures ce[i] == e[i - 1] {
    }
  }

  /** An iteration is stale exactly when it is animated and its frame query
      saw a new frame, and then the failed check is its last event. */
  lemma StepStale(d: Drawer, t: TemplateView, env: Env, image: Frame, c: Coord, k: Counters)
    ensures var s := Step(d, t, env, image, c, k);
      && StaleOnlyLast(s.events, s.status)
      && (s.status == Stale <==> d.isAnimated && CycleQuery(t, env, k).Ok? && CycleQuery(t, env, k).value.1)
  {
    var s := Step(d, t, env, image, c, k);
    if !d.isAnimated {
      var p := Redraw(d, env, image, c, k);
      assert s == p;
      RedrawShape(d, env, image, c, k);
      ShapedWrites(p.events, c);
      NotStale(p.events, p.status);
    } else {
      var k1 := AfterQuery(t, env, k);
      match CycleQuery(t, env, k)
      case Err(_) =>
        assert s.events == [];
      case Ok(q) =>
        if q.1 {
          assert s.events == [CycleCheck(false)] && s.status == Stale;
        } else {
          var p := Redraw(d, env, image, c, k1);
          assert s.events == [CycleCheck(true)] + p.events && s.status == p.status;
          RedrawShape(d, env, image, c, k1);
          ShapedWrites(p.events, c);
          CheckedNotStale(p.events, p.status);
        }
    }
  }

  /** A static target's step is a plain Redraw: no frame check, and the
      stored frame index is untouched. */
  lemma StaticStep(d: Drawer, t: TemplateView, env: Env, image: Frame, c: Coord, k: Counters)
    requires !d.isAnimated
    ensures var s := Step(d, t, env, image, c, k);
      NoCycleChecks(s.events) && s.counters.current == k.current && s.status != Stale
  {
    RedrawShape(d, env, image, c, k);
    ShapedWrites(Redraw(d, env, image, c, k).events, c);
  }

  // ---------------------------------------------------------------------------
  // The loop over the listed coordinates

  lemma {:induction false} RunJustified(d: Drawer, t: TemplateView, env: Env, image: Frame,
                                        coords: seq<Coord>, n: nat, start: Counters)
    requires n <= |coords|
    ensures var p := Run(d, t, env, image, coords, n, start);
      Justified(d, image, p.events) && Opens(p.events)
  {
    if n > 0 {
      var p := Run(d, t, env, image, coords, n - 1, start);
      RunJustified(d, t, env, image, coords, n - 1, start);
      if p.status.Running? {
        var s := Step(d, t, env, image, coords[n - 1], p.counters);
        StepJustified(d, t, env, image, coords[n - 1], p.counters);
        JustifiedConcat(d, image, p.events, s.events);
        if |p.events| == 0 {
          assert p.events + s.events == s.events;
        } else {
          assert (p.events + s.events)[0] == p.events[0];
        }
      }
    }
  }

  /** Over coordinates listed in increasing order, writes go only to listed
      coordinates, each at most once. */
  lemma {:induction false} RunWritesOnce(d: Drawer, t: TemplateView, env: Env, image: Frame,
                                         coords: seq<Coord>, n: nat, start: Counters)
    requires n <= |coords| && StrictlyIncreasing(coords)
    ensures var p := Run(d, t, env, image, coords, n, start);
      WritesAmong(p.events, coords[..n]) && WritesDistinct(p.events)
  {
    if n > 0 {
      var p := Run(d, t, env, image, coords, n - 1, start);
      RunWritesOnce(d, t, env, image, coords, n - 1, start);
      var c := coords[n - 1];
      assert coords[..n] == coords[..n - 1] + [c];
      if p.status.Running? {
        var s := Step(d, t, env, image, c, p.counters);
        StepWrites(d, t, env, image, c, p.counters);
        forall i | 0 <= i < n - 1 ensures coords[i] != c {
          assert CoordBefore(coords[i], coords[n - 1]);
        }
        WritesAmongConcat(p.events, s.events, coords[..n - 1], c);
        WritesDistinctConcat(p.events, s.events, coords[..n - 1], c);
      } else {
        forall i | 0 <= i < |p.events| && p.events[i].PixelWrite? ensures p.events[i].at in coords[..n] {
          assert p.events[i].at in coords[..n - 1];
        }
      }
    }
  }

  /** isCycleCurrent's `break`: the first failed frame check ends the loop as
      the last event. */
  lemma {:induction false} RunStaleLast(d: Drawer, t: TemplateView, env: Env, image: Frame,
                                        coords: seq<Coord>, n: nat, start: Counters)
    requires n <= |coords|
    ensures var p := Run(d, t, env, image, coords, n, start);
      StaleOnlyLast(p.events, p.status)
  {
    if n > 0 {
      var p := Run(d, t, env, image, coords, n - 1, start);
      RunStaleLast(d, t, env, image, coords, n - 1, start);
      if p.status.Running? {
        var s := Step(d, t, env, image, coords[n - 1], p.counters);
        StepStale(d, t, env, image, coords[n - 1], p.counters);
        StaleConcat(p.events, s.events, s.status);
      }
    }
  }

  /** A step whose frame query sees a new frame only reports it. */
  lemma StaleStep(d: Drawer, t: TemplateView, env: Env, image: Frame, c: Coord, k: Counters)
    requires d.isAnimated && CycleQuery(t, env, k).Ok? && CycleQuery(t, env, k).value.1
    ensures Step(d, t, env, image, c, k) == Progress([CycleCheck(false)], AfterQuery(t, env, k), Stale)
  {
  }

  /** ... so the loop stops right after that report. */
  lemma {:induction false} StaleRunStep(d: Drawer, t: TemplateView, env: Env, image: Frame,
                                        coords: seq<Coord>, i: nat, p: Progress, start: Counters)
    requires d.isAnimated && i < |coords| && Run(d, t, env, image, coords, i, start) == p && p.status.Running?
    requires CycleQuery(t, env, p.counters).Ok? && CycleQuery(t, env, p.counters).value.1
    ensures Run(d, t, env, image, coords, i + 1, start)
      == Progress(p.events + [CycleCheck(false)], AfterQuery(t, env, p.counters), Stale)
  {
    StaleStep(d, t, env, image, coords[i], p.counters);
  }

  /** isCycleCurrent's `break`: once the frame query made for coordinate i
      reports a new frame, the report is the loop's last event, so nothing
      is read or written for coords[i..] and the loop ends stale. */
  lemma {:induction false} StaleQueryEndsRun(d: Drawer, t: TemplateView, env: Env, image: Frame,
                                             coords: seq<Coord>, i: nat, start: Counters)
    requires d.isAnimated && i < |coords|
    requires Run(d, t, env, image, coords, i, start).status.Running?
    requires var q := CycleQuery(t, env, Run(d, t, env, image, coords, i, start).counters); q.Ok? && q.value.1
    ensures var p := Run(d, t, env, image, coords, i, start);
      Run(d, t, env, image, coords, |coords|, start)
        == Progress(p.events + [CycleCheck(false)], AfterQuery(t, env, p.counters), Stale)
  {
    var p := Run(d, t, env, image, coords, i, start);
    StaleRunStep(d, t, env, image, coords, i, p, start);
    RunStopped(d, t, env, image, coords, i + 1, |coords|, start);
  }

  /** A static target never asks the template anything. */
  lemma {:induction false} RunStaticKeepsFrame(d: Drawer, t: TemplateView, env: Env, image: Frame,
                                               coords: seq<Coord>, n: nat, start: Counters)
    requires n <= |coords| && !d.isAnimated
    ensures var p := Run(d, t, env, image, coords, n, start);
      NoCycleChecks(p.events) && p.counters.current == start.current && p.status != Stale
  {
    if n > 0 {
      var p := Run(d, t, env, image, coords, n - 1, start);
      RunStaticKeepsFrame(d, t, env, image, coords, n - 1, start);
      if p.status.Running? {
        var s := Step(d, t, env, image, coords[n - 1], p.counters);
        assert Run(d, t, env, image, coords, n, start) == Progress(p.events + s.events, s.counters, s.status);
        StaticStep(d, t, env, image, coords[n - 1], p.counters);
        NoCycleChecksConcat(p.events, s.events);
      }
    }
  }

  // ---------------------------------------------------------------------------
  // A whole pass

  /** Writes confined to coordinates that a snapshot showed needing a change,
      after that snapshot's read: each written coordinate needed the change,
      and no coordinate is written twice. */
  lemma WritesOfListedNeeded(cv: Canvas, pauses: seq<real>, image: Frame, startX: int, startY: int, rows: nat,
                             coords: seq<Coord>, events: seq<Event>)
    requires AllNeeded(cv, image, startX, startY, rows, coords)
    requires WritesAmong(events, coords) && WritesDistinct(events)
    ensures var e := [CanvasRead(cv, pauses)] + events;
      && WritesDistinct(e)
      && forall i :: 0 <= i < |e| && e[i].PixelWrite? ==>
           ChangeNeeded(cv, image, startX, startY, e[i].at.x - startX, e[i].at.y - startY)
  {
    var e := [CanvasRead(cv, pauses)] + events;
    forall i | 0 <= i < |e| && e[i].PixelWrite?
      ensures ChangeNeeded(cv, image, startX, startY, e[i].at.x - startX, e[i].at.y - startY)
    {
      assert e[i] == events[i - 1];
      var j :| 0 <= j < |coords| && coords[j] == e[i].at;
    }
    forall i, j | 0 <= i < j < |e| && e[i].PixelWrite? && e[j].PixelWrite? ensures e[i].at != e[j].at {
      assert e[i] == events[i - 1] && e[j] == events[j - 1];
    }
  }

  /** The loop over a scan's coordinates, after the snapshot the scan read:
      its writes are backed by fresh snapshots. */
  lemma ScannedRunJustified(d: Drawer, t: TemplateView, env: Env, image: Frame, cv: Canvas, pauses: seq<real>,
                            coords: seq<Coord>, start: Counters)
    ensures Justified(d, image, [CanvasRead(cv, pauses)] + Run(d, t, env, image, coords, |coords|, start).events)
  {
    var p := Run(d, t, env, image, coords, |coords|, start);
    RunJustified(d, t, env, image, coords, |coords|, start);
    JustifiedConcat(d, image, [CanvasRead(cv, pauses)], p.events);
  }

  /** ... and go to coordinates that snapshot showed needing a change, each
      at most once. */
  lemma ScannedRunListed(d: Drawer, t: TemplateView, env: Env, image: Frame, cv: Canvas, pauses: seq<real>,
                         coords: seq<Coord>, start: Counters)
    requires ScanCoords(cv, image, d.startX, d.startY, image.height, image.width) == Ok(coords)
    ensures var e := [CanvasRead(cv, pauses)] + Run(d, t, env, image, coords, |coords|, start).events;
      && WritesDistinct(e)
      && forall i :: 0 <= i < |e| && e[i].PixelWrite? ==>
           ChangeNeeded(cv, image, d.startX, d.startY, e[i].at.x - d.startX, e[i].at.y - d.startY)
  {
    var p := Run(d, t, env, image, coords, |coords|, start);
    ScanOrdered(cv, image, d.startX, d.startY, image.height, image.width);
    ScanNeeded(cv, image, d.startX, d.startY, image.height, image.width);
    RunWritesOnce(d, t, env, image, coords, |coords|, start);
    assert coords[..|coords|] == coords;
    WritesOfListedNeeded(cv, pauses, image, d.startX, d.startY, image.height, coords, p.events);
  }

  /** ... and a failed frame check, which only an animated target makes, is
      their last event and ends the loop as stale. */
  lemma ScannedRunStale(d: Drawer, t: TemplateView, env: Env, image: Frame, cv: Canvas, pauses: seq<real>,
                        coords: seq<Coord>, start: Counters)
    ensures var p := Run(d, t, env, image, coords, |coords|, start);
      StaleOnlyLast([CanvasRead(cv, pauses)] + p.events, p.status) && (p.status == Stale ==> d.isAnimated)
  {
    var p := Run(d, t, env, image, coords, |coords|, start);
    RunStaleLast(d, t, env, image, coords, |coords|, start);
    if !d.isAnimated {
      RunStaticKeepsFrame(d, t, env, image, coords, |coords|, start);
    }
    StaleConcat([CanvasRead(cv, pauses)], p.events, p.status);
  }

  /** Every write of a pass is backed by a fresh snapshot that still needed
      it, and every sleep follows a write. */
  lemma PassWritesJustified(d: Drawer, t: TemplateView, env: Env, isGuarded: bool, current: Option<nat>)
    ensures var r := Pass(d, t, env, isGuarded, current);
      var loaded := LoadFrame(d, t, env, current).0;
      r.events != [] ==> loaded.Ok? && r.events[0].CanvasRead? && Justified(d, loaded.value, r.events)
  {
    var r := Pass(d, t, env, isGuarded, current);
    var (loaded, k) := LoadFrame(d, t, env, current);
    if loaded.Ok? && env.canvasRead(0).Ok? {
      var image := loaded.value;
      var cv := env.canvasRead(0).value;
      match ScanCoords(cv, image, d.startX, d.startY, image.height, image.width)
      case Ok(coords) =>
        var start := k.(snapshots := 1);
        assert r.events == [CanvasRead(cv, env.readPauses(0))] + Run(d, t, env, image, coords, |coords|, start).events;
        ScannedRunJustified(d, t, env, image, cv, env.readPauses(0), coords, start);
      case Err(_) =>
        assert r.events == [CanvasRead(cv, env.readPauses(0))];
        assert Justifies(d, image, r.events, 0);
    } else {
      assert r.events == [];
    }
  }

  /** Every write of a pass goes to a coordinate the pass's first snapshot
      showed needing a change, and no coordinate is written twice. */
  lemma PassWritesListed(d: Drawer, t: TemplateView, env: Env, isGuarded: bool, current: Option<nat>)
    ensures var r := Pass(d, t, env, isGuarded, current);
      var loaded := LoadFrame(d, t, env, current).0;
      r.events != [] ==>
        && loaded.Ok? && r.events[0].CanvasRead?
        && WritesDistinct(r.events)
        && forall i :: 0 <= i < |r.events| && r.events[i].PixelWrite? ==>
             ChangeNeeded(r.events[0].canvas, loaded.value, d.startX, d.startY,
                          r.events[i].at.x - d.startX, r.events[i].at.y - d.startY)
  {
    var r := Pass(d, t, env, isGuarded, current);
    var (loaded, k) := LoadFrame(d, t, env, current);
    if loaded.Ok? && env.canvasRead(0).Ok? {
      var image := loaded.value;
      var cv := env.canvasRead(0).value;
      match ScanCoords(cv, image, d.startX, d.startY, image.height, image.width)
      case Ok(coords) =>
        var start := k.(snapshots := 1);
        assert r.events == [CanvasRead(cv, env.readPauses(0))] + Run(d, t, env, image, coords, |coords|, start).events;
        ScannedRunListed(d, t, env, image, cv, env.readPauses(0), coords, start);
      case Err(_) =>
        assert r.events == [CanvasRead(cv, env.readPauses(0))];
    } else {
      assert r.events == [];
    }
  }

  /** draw() returns after one pass exactly when the target is static and
      unguarded; a stale frame check is the pass's last event and sends draw()
      round again. */
  lemma PassOutcome(d: Drawer, t: TemplateView, env: Env, isGuarded: bool, current: Option<nat>)
    ensures var r := Pass(d, t, env, isGuarded, current);
      && (r.outcome == Ok(Return) <==> r.outcome.Ok? && !d.isAnimated && !isGuarded)
      && (forall i :: 0 <= i < |r.events| && r.events[i] == CycleCheck(false) ==>
            i == |r.events| - 1 && r.outcome == Ok(Repeat))
  {
    var r := Pass(d, t, env, isGuarded, current);
    var (loaded, k) := LoadFrame(d, t, env, current);
    if loaded.Ok? && env.canvasRead(0).Ok? {
      var image := loaded.value;
      var cv := env.canvasRead(0).value;
      match ScanCoords(cv, image, d.startX, d.startY, image.height, image.width)
      case Ok(coords) =>
        var start := k.(snapshots := 1);
        var p := Run(d, t, env, image, coords, |coords|, start);
        assert r.events == [CanvasRead(cv, env.readPauses(0))] + p.events;
        assert r.outcome == if p.status.Failed? then Err(p.status.error)
                            else Ok(if !d.isAnimated && !isGuarded then Return else Repeat);
        ScannedRunStale(d, t, env, image, cv, env.readPauses(0), coords, start);
        assert StaleOnlyLast(r.events, p.status);
      case Err(e) =>
        assert r == PassResult([CanvasRead(cv, env.readPauses(0))], k.current, Err(e));
    } else {
      assert r.events == [] && r.outcome.Err?;
    }
  }

  /** A static target's pass leaves the template's stored frame index alone
      and makes no frame checks. */
  lemma PassStaticKeepsFrame(d: Drawer, t: TemplateView, env: Env, isGuarded: bool, current: Option<nat>)
    requires !d.isAnimated
    ensures var r := Pass(d, t, env, isGuarded, current);
      r.current == current && NoCycleChecks(r.events)
  {
    var r := Pass(d, t, env, isGuarded, current);
    if env.canvasRead(0).Ok? {
      var cv := env.canvasRead(0).value;
      var scan := ScanCoords(cv, d.image, d.startX, d.startY, d.image.height, d.image.width);
      if scan.Ok? {
        var coords := scan.value;
        var start := Counters(1, 0, 0, current);
        var p := Run(d, t, env, d.image, coords, |coords|, start);
        RunStaticKeepsFrame(d, t, env, d.image, coords, |coords|, start);
        assert r.events == [CanvasRead(cv, env.readPauses(0))] + p.events;
        forall i | 0 <= i < |r.events| ensures !r.events[i].CycleCheck? {
          if i > 0 { assert r.events[i] == p.events[i - 1]; }
        }
      }
    }
  }

  /** Guarding a canvas that already shows the static image: the pass reads
      the canvas once and writes nothing. */
  lemma MatchingCanvasPassWritesNothing(d: Drawer, t: TemplateView, env: Env, isGuarded: bool,
                                        current: Option<nat>, cv: Canvas)
    requires !d.isAnimated && env.canvasRead(0) == Ok(cv)
    requires forall x, y :: 0 <= x < d.image.width && 0 <= y < d.image.height ==>
      Readable(cv, d.image, d.startX, d.startY, x, y)
      && GetPixel(cv, x + d.startX, y + d.startY).value == GetFramePixel(d.image, x, y).value.Opaque()
    ensures Pass(d, t, env, isGuarded, current)
      == PassResult([CanvasRead(cv, env.readPauses(0))], current, Ok(if isGuarded then Repeat else Return))
  {
    MatchingCanvasNeedsNothing(cv, d.image, d.startX, d.startY, d.image.height);
  }
}
