/** Animated templates: a directory holding canvas.json and one image per
    frame. A Template remembers the last frame index it reported so that it can
    say whether the frame changed; a cache keyed by absolute path keeps one
    Template per directory. The directory listing, the manifest's fields and the
    seconds elapsed since the canvas epoch are parameters. */
module TemplateManager {
  import opened Wrappers
  import StringOrder

  const ManifestName := "canvas.json"

  /** The fields read from canvas.json. */
  datatype Manifest = Manifest(minutesPerFrame: int, left: int, top: int)

  /** What a frame query returns: the index and whether it differs from the
      index the previous query stored. */
  datatype Query = Query(index: nat, changed: bool)

  // ---------------------------------------------------------------------------
  // Arithmetic of the frame clock

  /** Integer division is pinned down by the multiples of d around e. */
  lemma DivFromBounds(e: int, d: int, k: int)
    requires d > 0 && k * d <= e < (k + 1) * d
    ensures e / d == k && e % d == e - k * d
  {
    var q := e / d;
    assert e == q * d + e % d && 0 <= e % d < d;
    if q < k {
      MulMonotone(q + 1, k, d);
      assert false;
    } else if q > k {
      MulMonotone(k + 1, q, d);
      assert false;
    }
  }

  lemma MulMonotone(a: int, b: int, d: int)
    requires a <= b && d > 0
    ensures a * d <= b * d
  {
    assert b * d - a * d == (b - a) * d;
  }

  /** The index of the frame shown elapsed seconds after the epoch: the number
      of whole frame durations elapsed, modulo the frame count. A non-positive
      duration means a static template, always frame 0. */
  function FrameIndexAt(singleDuration: int, length: int, elapsed: nat): (r: Result<nat>)
    ensures singleDuration <= 0 ==> r == Ok(0)
    ensures singleDuration > 0 && length > 0 ==> r.Ok? && r.value < length
    ensures singleDuration > 0 && length <= 0 ==> r == Err(ZeroDivisionError)
  {
    if singleDuration <= 0 then Ok(0)
    else if length <= 0 then Err(ZeroDivisionError)
    else Ok((elapsed / singleDuration) % length)
  }

  /** Any instant inside the j-th frame slot of any cycle shows frame j. */
  lemma FrameIndexOfSlot(singleDuration: int, length: int, elapsed: nat, cycle: nat, j: nat)
    requires singleDuration > 0 && j < length
    requires (cycle * length + j) * singleDuration <= elapsed < (cycle * length + j + 1) * singleDuration
    ensures FrameIndexAt(singleDuration, length, elapsed) == Ok(j)
  {
    DivFromBounds(elapsed, singleDuration, cycle * length + j);
    DivFromBounds(cycle * length + j, length, cycle);
  }

  /** Adding d to the dividend adds one to the quotient. */
  lemma DivStep(e: nat, d: int)
    requires d > 0
    ensures (e + d) / d == e / d + 1
  {
    var q := e / d;
    assert e == q * d + e % d;
    assert (q + 1) * d == q * d + d && (q + 2) * d == q * d + d + d;
    DivFromBounds(e + d, d, q + 1);
  }

  /** The remainder of a successor is the successor of the remainder, wrapped. */
  lemma ModStep(q: nat, n: int)
    requires n > 0
    ensures (q + 1) % n == (q % n + 1) % n
  {
    var c, i := q / n, q % n;
    assert q == c * n + i;
    assert (c + 1) * n == c * n + n && (c + 2) * n == c * n + n + n;
    if i + 1 < n {
      DivFromBounds(q + 1, n, c);
      DivFromBounds(i + 1, n, 0);
    } else {
      DivFromBounds(q + 1, n, c + 1);
      DivFromBounds(i + 1, n, 1);
    }
  }

  /** One frame duration later the animation shows the next frame, wrapping
      from the last frame to the first. */
  lemma FrameIndexAdvances(singleDuration: int, length: int, elapsed: nat)
    requires singleDuration > 0 && length > 0
    ensures FrameIndexAt(singleDuration, length, elapsed + singleDuration)
         == Ok((FrameIndexAt(singleDuration, length, elapsed).value + 1) % length)
  {
    DivStep(elapsed, singleDuration);
    ModStep(elapsed / singleDuration, length);
  }

  /** get_current_frame_index on the stored index `current`. */
  function CurrentFrameIndex(current: Option<nat>, singleDuration: int, length: int, elapsed: nat): (r: Result<Query>)
    ensures r.Ok? <==> FrameIndexAt(singleDuration, length, elapsed).Ok?
    ensures r.Ok? ==> r.value.index == FrameIndexAt(singleDuration, length, elapsed).value
    ensures r.Ok? ==> r.value.changed == (current != Some(r.value.index))
    ensures r.Err? ==> r.error == FrameIndexAt(singleDuration, length, elapsed).error
  {
    match FrameIndexAt(singleDuration, length, elapsed)
    case Ok(i) => Ok(Query(i, current != Some(i)))
    case Err(e) => Err(e)
  }

  /** The index a template stores after a query. */
  function StoredAfter(current: Option<nat>, r: Result<Query>): Option<nat>
  {
    if r.Ok? then Some(r.value.index) else current
  }

  /** A static template reports frame 0, and a change exactly when the stored
      index was not 0, which includes the very first query. */
  lemma StaticTemplateQuery(current: Option<nat>, singleDuration: int, length: int, elapsed: nat)
    requires singleDuration <= 0
    ensures CurrentFrameIndex(current, singleDuration, length, elapsed) == Ok(Query(0, current != Some(0)))
    ensures CurrentFrameIndex(None, singleDuration, length, elapsed).value.changed
  {
  }

  /** Asking twice at the same instant: the second answer reports no change. */
  lemma RepeatedQueryUnchanged(current: Option<nat>, singleDuration: int, length: int, elapsed: nat)
    requires CurrentFrameIndex(current, singleDuration, length, elapsed).Ok?
    ensures var first := CurrentFrameIndex(current, singleDuration, length, elapsed);
      CurrentFrameIndex(StoredAfter(current, first), singleDuration, length, elapsed)
        == Ok(Query(first.value.index, false))
  {
  }

  /** get_previous_frame_index after the query stored `index`: one step back,
      modulo the frame count (Python's % never returns a negative here). */
  function PreviousIndex(index: nat, length: int): (r: Result<nat>)
    ensures length <= 0 ==> r == Err(ZeroDivisionError)
    ensures length > 0 && index < length ==>
      (r.Ok? && r.value < length && r.value == (if index == 0 then length - 1 else index - 1))
  {
    if length <= 0 then Err(ZeroDivisionError) else Ok((index - 1) % length)
  }

  // ---------------------------------------------------------------------------
  // Frame files

  /** The listing without canvas.json. */
  function WithoutManifest(listing: seq<string>): (r: seq<string>)
    ensures ManifestName !in r
    ensures forall x :: x != ManifestName ==> multiset(r)[x] == multiset(listing)[x]
    ensures |r| == |listing| - multiset(listing)[ManifestName]
  {
    if |listing| == 0 then []
    else
      assert listing == [listing[0]] + listing[1..];
      if listing[0] == ManifestName then WithoutManifest(listing[1..])
      else [listing[0]] + WithoutManifest(listing[1..])
  }

  /** sorted(i for i in listing if i != 'canvas.json'): the frame file names. */
  function FrameNames(listing: seq<string>): (r: seq<string>)
    ensures StringOrder.Sorted(r)
    ensures ManifestName !in r
    ensures forall x :: x != ManifestName ==> multiset(r)[x] == multiset(listing)[x]
  {
    var files := WithoutManifest(listing);
    var r := StringOrder.SortStrings(files);
    assert forall x :: x in r <==> x in files by {
      forall x ensures x in r <==> x in files {
        assert x in r <==> x in multiset(r);
        assert x in files <==> x in multiset(files);
      }
    }
    r
  }

  /** A listing that holds canvas.json once has exactly `length` frame files,
      so every index a timed query returns names a file. */
  lemma FrameCountMatchesLength(listing: seq<string>)
    requires multiset(listing)[ManifestName] == 1
    ensures |FrameNames(listing)| == |listing| - 1
  {
    var files := WithoutManifest(listing);
    assert |multiset(StringOrder.SortStrings(files))| == |multiset(files)|;
  }

  /** os.path.join(directory, name) for a relative name. */
  function Join(directory: string, name: string): (p: string)
    ensures |p| >= |name| && p[|p| - |name|..] == name
    ensures (|name| == 0 || name[0] != '/') && |directory| > 0 && directory[|directory| - 1] != '/' ==>
      p == directory + "/" + name
  {
    if |name| > 0 && name[0] == '/' then name
    else if |directory| == 0 || directory[|directory| - 1] == '/' then directory + name
    else directory + "/" + name
  }

  /** Python list indexing: negative indices count from the end. */
  function PyIndex<T>(s: seq<T>, i: int): (r: Result<T>)
    ensures r.Ok? <==> -|s| <= i < |s|
    ensures 0 <= i < |s| ==> r == Ok(s[i])
  {
    if 0 <= i < |s| then Ok(s[i]) else if -|s| <= i < 0 then Ok(s[|s| + i]) else Err(IndexError)
  }

  /** get_frame_path(index): the index-th frame file in sorted order. */
  function FramePath(directory: string, listing: seq<string>, index: int): (r: Result<string>)
    ensures r.Ok? <==> -|FrameNames(listing)| <= index < |FrameNames(listing)|
    ensures 0 <= index < |FrameNames(listing)| ==> r == Ok(Join(directory, FrameNames(listing)[index]))
  {
    match PyIndex(FrameNames(listing), index)
    case Ok(name) => Ok(Join(directory, name))
    case Err(e) => Err(e)
  }

  /** get_current_frame_path: the query, then the file of the index it returned. */
  function CurrentFramePath(directory: string, listing: seq<string>, current: Option<nat>,
                            singleDuration: int, length: int, elapsed: nat): (r: Result<(string, bool)>)
  {
    match CurrentFrameIndex(current, singleDuration, length, elapsed)
    case Err(e) => Err(e)
    case Ok(q) =>
      match FramePath(directory, listing, q.index)
      case Err(e) => Err(e)
      case Ok(p) => Ok((p, q.changed))
  }

  /** On the listing the template was opened with, a timed query always finds
      its file: the path is the index-th sorted frame name. */
  lemma CurrentFramePathFound(directory: string, listing: seq<string>, current: Option<nat>,
                              singleDuration: int, elapsed: nat)
    requires multiset(listing)[ManifestName] == 1 && singleDuration > 0 && |listing| > 1
    ensures var q := CurrentFrameIndex(current, singleDuration, |listing| - 1, elapsed);
      q.Ok? && CurrentFramePath(directory, listing, current, singleDuration, |listing| - 1, elapsed)
        == Ok((Join(directory, FrameNames(listing)[q.value.index]), q.value.changed))
  {
    FrameCountMatchesLength(listing);
  }

  // ---------------------------------------------------------------------------
  // The Template object

  class Template {
    const directory: string
    var singleDuration: int
    var left: int
    var top: int
    var currentFrame: Option<nat>
    var length: int

    /** Field initialisation once the manifest has been found. */
    constructor Init(directory: string, manifest: Manifest, entries: nat)
      ensures this.directory == directory
      ensures singleDuration == manifest.minutesPerFrame * 60
      ensures left == manifest.left && top == manifest.top
      ensures currentFrame == None && length == entries - 1
    {
      this.directory := directory;
      singleDuration := manifest.minutesPerFrame * 60;
      left := manifest.left;
      top := manifest.top;
      currentFrame := None;
      length := entries - 1;
    }

    /** get_current_frame_index: answer the query at `elapsed` and store the
        index; a failed query (no frames) stores nothing. */
    method GetCurrentFrameIndex(elapsed: nat) returns (r: Result<Query>)
      modifies this`currentFrame
      ensures r == CurrentFrameIndex(old(currentFrame), singleDuration, length, elapsed)
      ensures currentFrame == StoredAfter(old(currentFrame), r)
      ensures r.Ok? ==> currentFrame == Some(r.value.index)
    {
      if singleDuration <= 0 {
        var changed := currentFrame != Some(0);
        currentFrame := Some(0);
        return Ok(Query(0, changed));
      }
      if length <= 0 {
        return Err(ZeroDivisionError);
      }
      var index := (elapsed / singleDuration) % length;
      var changed := currentFrame != Some(index);
      currentFrame := Some(index);
      r := Ok(Query(index, changed));
    }

    /** get_previous_frame_index: a query at `elapsed`, then one index back. */
    method GetPreviousFrameIndex(elapsed: nat) returns (r: Result<nat>)
      modifies this`currentFrame
      ensures var q := CurrentFrameIndex(old(currentFrame), singleDuration, length, elapsed);
        currentFrame == StoredAfter(old(currentFrame), q)
        && r == (if q.Ok? then PreviousIndex(q.value.index, length) else Err(q.error))
    {
      var q := GetCurrentFrameIndex(elapsed);
      if q.Err? {
        return Err(q.error);
      }
      if length <= 0 {
        return Err(ZeroDivisionError);
      }
      r := Ok((currentFrame.value - 1) % length);
    }

    /** get_current_frame_path: the query, then the path of its index. */
    method GetCurrentFramePath(elapsed: nat, listing: seq<string>) returns (r: Result<(string, bool)>)
      modifies this`currentFrame
      ensures r == CurrentFramePath(directory, listing, old(currentFrame), singleDuration, length, elapsed)
      ensures currentFrame == StoredAfter(old(currentFrame), CurrentFrameIndex(old(currentFrame), singleDuration, length, elapsed))
    {
      var q := GetCurrentFrameIndex(elapsed);
      if q.Err? {
        return Err(q.error);
      }
      var p := FramePath(directory, listing, q.value.index);
      if p.Err? {
        return Err(p.error);
      }
      r := Ok((p.value, q.value.changed));
    }
  }

  /** Template(directory): ValueError unless the listing holds canvas.json;
      otherwise the manifest's fields, no frame shown yet, and one frame per
      entry besides the manifest. */
  method OpenTemplate(directory: string, listing: seq<string>, manifest: Manifest) returns (r: Result<Template>)
    ensures r.Err? <==> ManifestName !in listing
    ensures r.Err? ==> r.error == ValueError
    ensures r.Ok? ==>
      (fresh(r.value) && r.value.directory == directory
       && r.value.singleDuration == manifest.minutesPerFrame * 60
       && r.value.left == manifest.left && r.value.top == manifest.top
       && r.value.currentFrame == None && r.value.length == |listing| - 1)
  {
    if ManifestName !in listing {
      return Err(ValueError);
    }
    var t := new Template.Init(directory, manifest, |listing|);
    r := Ok(t);
  }

  /** The process-wide `templates` dictionary. */
  class TemplateCache {
    var templates: map<string, Template>

    constructor ()
      ensures templates == map[]
    {
      templates := map[];
    }

    /** get_template_for(directory) with `absPath` its absolute path. The new
        Template is built before the lookup, so a directory without canvas.json
        fails even when it is cached; otherwise the cached Template, frame state
        and all, is returned, and a missing one is added. */
    method GetTemplateFor(absPath: string, listing: seq<string>, manifest: Manifest) returns (r: Result<Template>)
      modifies this
      ensures ManifestName !in listing ==> r == Err(ValueError) && templates == old(templates)
      ensures ManifestName in listing && absPath in old(templates) ==>
        r == Ok(old(templates)[absPath]) && templates == old(templates)
      ensures ManifestName in listing && absPath !in old(templates) ==>
        r.Ok? && fresh(r.value) && templates == old(templates)[absPath := r.value]
        && r.value.directory == absPath && r.value.currentFrame == None
        && r.value.singleDuration == manifest.minutesPerFrame * 60
        && r.value.length == |listing| - 1
    {
      var made := OpenTemplate(absPath, listing, manifest);
      if made.Err? {
        return made;
      }
      if absPath !in templates {
        templates := templates[absPath := made.value];
      }
      r := Ok(templates[absPath]);
    }

    /** reset_templates_cache: forget every template. */
    method ResetTemplatesCache()
      modifies this
      ensures templates == map[]
    {
      templates := map[];
    }
  }
}
