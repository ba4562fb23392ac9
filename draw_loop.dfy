/** One pass of AutoDrawer.draw. Everything the pass gets from outside is a
    parameter: the k-th canvas snapshot getPixels returns and the 429 pauses
    its get_pixels and get_size calls slept through, the elapsed seconds
    at the k-th frame query, what the k-th client.set_pixel call did, the
    frame directory's listing and the decoding of frame files. What the pass
    does is recorded as a trace of events. */
module DrawLoop {
  import opened Wrappers
  import opened Images
  import opened AutoDraw
  import TemplateManager
  import PixelsClient

  /** What a pass does that can be observed. */
  datatype Event =
    | CanvasRead(canvas: Canvas, pauses: seq<real>)             // getPixels, with its 429 pauses
    | CycleCheck(current: bool)                                  // isCycleCurrent, animated targets only
    | PixelWrite(at: Coord, colour: string, pauses: seq<real>)  // client.set_pixel, with its 429 pauses
    | Sleep(seconds: real)                                       // the pacing sleep in setPixel

  /** What one client.set_pixel call did: the limiter pauses it slept through
      on 429 responses before its last attempt, whether that attempt returned
      or raised (HTTPError from raise_for_status(), ValueError from the
      limiter's update), and the /set_pixel limiter's fields afterwards. */
  datatype WriteCall = WriteCall(pauses: seq<real>, outcome: Result<()>, limiter: PixelsClient.LimiterState)

  /** The world outside the pass. `readPauses(k)` are the sleeps of
      RateLimitter.pause() inside the k-th getPixels: those of get_pixels on
      its 429 responses, then those of get_size on its own. */
  datatype Env = Env(
    canvasRead: nat -> Result<Canvas>,
    readPauses: nat -> seq<real>,
    clock: nat -> nat,
    setPixelCall: nat -> WriteCall,
    listing: seq<string>,
    open: string -> Frame)

  /** The AutoDrawer's fields: anchor, animation flag and, for a static target,
      its image. */
  datatype Drawer = Drawer(startX: int, startY: int, isAnimated: bool, image: Frame)

  /** The fields of the Template a pass consults and does not change. */
  datatype TemplateView = TemplateView(directory: string, singleDuration: int, length: int)

  /** How many snapshots, frame queries and writes the pass has used so far,
      and the template's stored frame index. */
  datatype Counters = Counters(snapshots: nat, queries: nat, writes: nat, current: Option<nat>)

  datatype Status = Running | Stale | Failed(error: PyError)

  datatype Progress = Progress(events: seq<Event>, counters: Counters, status: Status)

  /** Whether draw() goes round its `while True` again or returns. */
  datatype PassEnd = Repeat | Return

  datatype PassResult = PassResult(events: seq<Event>, current: Option<nat>, outcome: Result<PassEnd>)

  /** setPixel: the write, then the pacing sleep when calculateCooldownPeriod
      gives a delay. An exception from the write ends setPixel before the
      delay is computed; a ValueError from the delay comes after the write. */
  function SetPixel(at: Coord, colour: string, call: WriteCall): (r: (seq<Event>, Result<()>))
    ensures 1 <= |r.0| <= 2 && r.0[0] == PixelWrite(at, colour, call.pauses)
    ensures |r.0| == 2 ==> r.0[1].Sleep?
    ensures call.outcome.Err? ==> r == ([PixelWrite(at, colour, call.pauses)], call.outcome)
    ensures var cd := CalculateCooldownPeriod(call.limiter.requestsReset, call.limiter.requestsRemaining);
      call.outcome.Ok? ==>
      && (r.1.Err? <==> cd.Err?)
      && (r.1.Err? ==> r.1.error == cd.error)
      && (cd.Ok? && cd.value.Some? ==> r.0 == [PixelWrite(at, colour, call.pauses), Sleep(cd.value.value)])
      && (!(cd.Ok? && cd.value.Some?) ==> r.0 == [PixelWrite(at, colour, call.pauses)])
  {
    var write := PixelWrite(at, colour, call.pauses);
    if call.outcome.Err? then ([write], Err(call.outcome.error))
    else
      match CalculateCooldownPeriod(call.limiter.requestsReset, call.limiter.requestsRemaining)
      case Err(e) => ([write], Err(e))
      case Ok(None) => ([write], Ok(()))
      case Ok(Some(p)) => ([write, Sleep(p)], Ok(()))
  }

  /** The loop body after the staleness check: a fresh snapshot, the live
      pixel, the target pixel, and a write if one is still needed. */
  function Redraw(d: Drawer, env: Env, image: Frame, c: Coord, k: Counters): Progress
  {
    var k1 := k.(snapshots := k.snapshots + 1);
    match env.canvasRead(k.snapshots)
    case Err(e) => Progress([], k1, Failed(e))
    case Ok(cv) =>
      match GetPixel(cv, c.x, c.y)
      case Err(e) => Progress([CanvasRead(cv, env.readPauses(k.snapshots))], k1, Failed(e))
      case Ok(live) =>
        match GetFramePixel(image, c.x - d.startX, c.y - d.startY)
        case Err(e) => Progress([CanvasRead(cv, env.readPauses(k.snapshots))], k1, Failed(e))
        case Ok(target) =>
          if !ShouldChangePixel(live, target) then Progress([CanvasRead(cv, env.readPauses(k.snapshots))], k1, Running)
          else
            var (written, done) := SetPixel(c, RgbToHex(target.Opaque()), env.setPixelCall(k.writes));
            Progress([CanvasRead(cv, env.readPauses(k.snapshots))] + written, k1.(writes := k.writes + 1),
                     if done.Err? then Failed(done.error) else Running)
  }

  /** The frame query isCycleCurrent makes. */
  function CycleQuery(t: TemplateView, env: Env, k: Counters): Result<(string, bool)>
  {
    TemplateManager.CurrentFramePath(t.directory, env.listing, k.current, t.singleDuration, t.length, env.clock(k.queries))
  }

  /** The template's stored index after the query CycleQuery makes. */
  function AfterQuery(t: TemplateView, env: Env, k: Counters): Counters
  {
    k.(queries := k.queries + 1,
       current := TemplateManager.StoredAfter(k.current,
         TemplateManager.CurrentFrameIndex(k.current, t.singleDuration, t.length, env.clock(k.queries))))
  }

  /** One iteration of `for coords in pixels`. */
  function Step(d: Drawer, t: TemplateView, env: Env, image: Frame, c: Coord, k: Counters): Progress
  {
    if !d.isAnimated then Redraw(d, env, image, c, k)
    else
      var k1 := AfterQuery(t, env, k);
      match CycleQuery(t, env, k)
      case Err(e) => Progress([], k1, Failed(e))
      case Ok(q) =>
        if q.1 then Progress([CycleCheck(false)], k1, Stale)
        else
          var p := Redraw(d, env, image, c, k1);
          Progress([CycleCheck(true)] + p.events, p.counters, p.status)
  }

  /** The loop over the first n coordinates, stopping at a stale frame or an error. */
  function Run(d: Drawer, t: TemplateView, env: Env, image: Frame, coords: seq<Coord>, n: nat, start: Counters): Progress
    requires n <= |coords|
  {
    if n == 0 then Progress([], start, Running)
    else
      var p := Run(d, t, env, image, coords, n - 1, start);
      if !p.status.Running? then p
      else
        var s := Step(d, t, env, image, coords[n - 1], p.counters);
        Progress(p.events + s.events, s.counters, s.status)
  }

  /** The frame a pass draws, and the counters after loading it. */
  function LoadFrame(d: Drawer, t: TemplateView, env: Env, current: Option<nat>): (Result<Frame>, Counters)
  {
    var k := Counters(0, 0, 0, current);
    if !d.isAnimated then (Ok(d.image), k)
    else
      match CycleQuery(t, env, k)
      case Err(e) => (Err(e), AfterQuery(t, env, k))
      case Ok(q) => (Ok(env.open(q.0)), AfterQuery(t, env, k))
  }

  /** One pass of draw(is_guarded): load the frame, diff it against a
      snapshot, correct the listed coordinates, then return or go round again. */
  function Pass(d: Drawer, t: TemplateView, env: Env, isGuarded: bool, current: Option<nat>): PassResult
  {
    var (loaded, k) := LoadFrame(d, t, env, current);
    match loaded
    case Err(e) => PassResult([], k.current, Err(e))
    case Ok(image) =>
      match env.canvasRead(0)
      case Err(e) => PassResult([], k.current, Err(e))
      case Ok(cv) =>
        match ScanCoords(cv, image, d.startX, d.startY, image.height, image.width)
        case Err(e) => PassResult([CanvasRead(cv, env.readPauses(0))], k.current, Err(e))
        case Ok(coords) =>
          var p := Run(d, t, env, image, coords, |coords|, k.(snapshots := 1));
          PassResult([CanvasRead(cv, env.readPauses(0))] + p.events, p.counters.current,
                     if p.status.Failed? then Err(p.status.error)
                     else Ok(if !d.isAnimated && !isGuarded then Return else Repeat))
  }

  /** Once the loop has stopped, later coordinates add nothing. */
  lemma {:induction false} RunStopped(d: Drawer, t: TemplateView, env: Env, image: Frame, coords: seq<Coord>,
                                      m: nat, n: nat, start: Counters)
    requires m <= n <= |coords| && !Run(d, t, env, image, coords, m, start).status.Running?
    ensures Run(d, t, env, image, coords, n, start) == Run(d, t, env, image, coords, m, start)
  {
    if m < n {
      RunStopped(d, t, env, image, coords, m, n - 1, start);
    }
  }

  // ---------------------------------------------------------------------------
  // The imperative pass

  function View(template: TemplateManager.Template): TemplateView
    reads template
  {
    TemplateView(template.directory, template.singleDuration, template.length)
  }

  /** isCycleCurrent: query the template's current frame and report whether
      it is unchanged. The query stores the new index in the template. */
  method IsCycleCurrent(template: TemplateManager.Template, elapsed: nat, listing: seq<string>) returns (r: Result<bool>)
    modifies template`currentFrame
    ensures var q := TemplateManager.CurrentFramePath(template.directory, listing, old(template.currentFrame),
                                                     template.singleDuration, template.length, elapsed);
      r == (if q.Ok? then Ok(!q.value.1) else Err(q.error))
    ensures template.currentFrame == TemplateManager.StoredAfter(old(template.currentFrame),
      TemplateManager.CurrentFrameIndex(old(template.currentFrame), template.singleDuration, template.length, elapsed))
  {
    var q := template.GetCurrentFramePath(elapsed, listing);
    if q.Err? {
      return Err(q.error);
    }
    r := Ok(!q.value.1);
  }

  /** The loop body after the staleness check: re-read the canvas, and write
      the target colour if the live pixel still needs it. */
  method RedrawCoordinate(d: Drawer, env: Env, image: Frame, c: Coord, k: Counters) returns (p: Progress)
    ensures p == Redraw(d, env, image, c, k)
  {
    var counters := k.(snapshots := k.snapshots + 1);
    var snapshot := env.canvasRead(k.snapshots);
    if snapshot.Err? {
      return Progress([], counters, Failed(snapshot.error));
    }
    var events := [CanvasRead(snapshot.value, env.readPauses(k.snapshots))];
    var live := GetPixel(snapshot.value, c.x, c.y);
    if live.Err? {
      return Progress(events, counters, Failed(live.error));
    }
    var target := GetFramePixel(image, c.x - d.startX, c.y - d.startY);
    if target.Err? {
      return Progress(events, counters, Failed(target.error));
    }
    if !ShouldChangePixel(live.value, target.value) {
      return Progress(events, counters, Running);
    }
    var (written, done) := SetPixel(c, RgbToHex(target.value.Opaque()), env.setPixelCall(k.writes));
    events := events + written;
    counters := counters.(writes := k.writes + 1);
    if done.Err? {
      return Progress(events, counters, Failed(done.error));
    }
    p := Progress(events, counters, Running);
  }

  /** The body of `for coords in pixels` for coordinate c. */
  method DrawCoordinate(d: Drawer, template: TemplateManager.Template, env: Env, image: Frame, c: Coord, k: Counters)
    returns (p: Progress)
    requires k.current == template.currentFrame
    modifies template`currentFrame
    ensures p == Step(d, View(template), env, image, c, k)
    ensures template.currentFrame == p.counters.current
  {
    if !d.isAnimated {
      p := RedrawCoordinate(d, env, image, c, k);
      return;
    }
    ghost var view := View(template);
    var current := IsCycleCurrent(template, env.clock(k.queries), env.listing);
    var counters := k.(queries := k.queries + 1, current := template.currentFrame);
    assert counters == AfterQuery(view, env, k);
    if current.Err? {
      return Progress([], counters, Failed(current.error));
    }
    if !current.value {
      return Progress([CycleCheck(false)], counters, Stale);
    }
    var rest := RedrawCoordinate(d, env, image, c, counters);
    p := Progress([CycleCheck(true)] + rest.events, rest.counters, rest.status);
  }

  /** The start of a pass: the frame to draw. An animated target asks the
      template for the current frame's file, which stores the frame index. */
  method LoadTargetFrame(d: Drawer, template: TemplateManager.Template, env: Env)
    returns (loaded: Result<Frame>, k: Counters)
    modifies template`currentFrame
    ensures (loaded, k) == LoadFrame(d, View(template), env, old(template.currentFrame))
    ensures template.currentFrame == k.current
  {
    k := Counters(0, 0, 0, template.currentFrame);
    if !d.isAnimated {
      return Ok(d.image), k;
    }
    var q := template.GetCurrentFramePath(env.clock(0), env.listing);
    k := k.(queries := 1, current := template.currentFrame);
    if q.Err? {
      return Err(q.error), k;
    }
    loaded := Ok(env.open(q.value.0));
  }

  /** `for coords in pixels`, stopping at a stale frame or an error. */
  method DrawCoordinates(d: Drawer, template: TemplateManager.Template, env: Env, image: Frame,
                         coords: seq<Coord>, start: Counters) returns (p: Progress)
    requires start.current == template.currentFrame
    modifies template`currentFrame
    ensures p == Run(d, old(View(template)), env, image, coords, |coords|, start)
    ensures template.currentFrame == p.counters.current
  {
    ghost var view := View(template);
    var events: seq<Event> := [];
    var k := start;
    var i := 0;
    while i < |coords|
      invariant 0 <= i <= |coords|
      invariant View(template) == view
      invariant template.currentFrame == k.current
      invariant Run(d, view, env, image, coords, i, start) == Progress(events, k, Running)
    {
      var s := DrawCoordinate(d, template, env, image, coords[i], k);
      events := events + s.events;
      k := s.counters;
      i := i + 1;
      if !s.status.Running? {
        RunStopped(d, view, env, image, coords, i, |coords|, start);
        return Progress(events, k, s.status);
      }
    }
    p := Progress(events, k, Running);
  }

  /** One pass of draw(is_guarded) against the given template (consulted only
      when the target is animated). */
  method DrawPass(d: Drawer, template: TemplateManager.Template, env: Env, isGuarded: bool)
    returns (events: seq<Event>, outcome: Result<PassEnd>)
    modifies template`currentFrame
    ensures var r := Pass(d, View(template), env, isGuarded, old(template.currentFrame));
      events == r.events && outcome == r.outcome && template.currentFrame == r.current
  {
    var loaded, k := LoadTargetFrame(d, template, env);
    if loaded.Err? {
      return [], Err(loaded.error);
    }
    var image := loaded.value;
    var snapshot := env.canvasRead(0);
    if snapshot.Err? {
      return [], Err(snapshot.error);
    }
    var diff := GetCoordsToDraw(snapshot.value, image, d.startX, d.startY, image.height);
    if diff.Err? {
      return [CanvasRead(snapshot.value, env.readPauses(0))], Err(diff.error);
    }
    var p := DrawCoordinates(d, template, env, image, diff.value, k.(snapshots := 1));
    events := [CanvasRead(snapshot.value, env.readPauses(0))] + p.events;
    outcome := if p.status.Failed? then Err(p.status.error)
               else Ok(if !d.isAnimated && !isGuarded then Return else Repeat);
  }
}
