/** Persisted window bounds: what is saved, what survives being maximized, and what is restored. */
module WindowState {
  import opened Sequences
  import opened Options
  import opened Json

  const DEFAULT_WIDTH := 1400.0
  const DEFAULT_HEIGHT := 900.0
  const MIN_VISIBLE := 100.0

  datatype Rect = Rect(x: real, y: real, width: real, height: real)

  datatype Loaded = Loaded(position: Option<(real, real)>, width: real, height: real, isMaximized: bool)

  function Max(a: real, b: real): real { if a > b then a else b }
  function Min(a: real, b: real): real { if a < b then a else b }

  // -------------------------------------------------------------------- loading

  /** A property read on a parsed value; null stands for an absent property. */
  function Property(v: Json, key: string): Json { if v.Obj? then Get(v, key) else Null }

  function Size(v: Json, least: real, default: real): real {
    if v.Num? && v.n >= least then v.n else default
  }

  /** How much the intervals [a, a+m) and [b, b+n) overlap. */
  function Overlap(a: real, m: real, b: real, n: real): real {
    Max(0.0, Min(a + m, b + n) - Max(a, b))
  }

  /** The file content, if it parses, against the work area of the best matching display. */
  function Load(file: Option<Json>, workArea: Rect -> Rect): Loaded {
    if file.None? || file.value == Null then Loaded(None, DEFAULT_WIDTH, DEFAULT_HEIGHT, false)
    else
      var state := file.value;
      var width := Size(Property(state, "width"), 400.0, DEFAULT_WIDTH);
      var height := Size(Property(state, "height"), 300.0, DEFAULT_HEIGHT);
      var isMaximized := Property(state, "isMaximized") == Bool(true);
      var x, y := Property(state, "x"), Property(state, "y");
      if !x.Num? || !y.Num? then Loaded(None, width, height, isMaximized)
      else
        var wa := workArea(Rect(x.n, y.n, width, height));
        if Overlap(x.n, width, wa.x, wa.width) < MIN_VISIBLE || Overlap(y.n, height, wa.y, wa.height) < MIN_VISIBLE
        then Loaded(None, width, height, isMaximized)
        else Loaded(Some((x.n, y.n)), width, height, isMaximized)
  }

  /** The interval [p, p+len) lies in both [a, a+m) and [b, b+n). */
  ghost predicate InBoth(p: real, len: real, a: real, m: real, b: real, n: real) {
    a <= p && p + len <= a + m && b <= p && p + len <= b + n
  }

  lemma OverlapMeaning(len: real, a: real, m: real, b: real, n: real)
    requires len > 0.0
    ensures Overlap(a, m, b, n) >= len <==> exists p :: InBoth(p, len, a, m, b, n)
  {
    if Overlap(a, m, b, n) >= len {
      assert InBoth(Max(a, b), len, a, m, b, n);
    }
  }

  /** The whole coordinates from `lo` up to but not including `hi`. */
  function Coordinates(lo: int, hi: int): (s: set<int>)
    ensures forall i :: i in s <==> lo <= i < hi
    ensures |s| == if lo < hi then hi - lo else 0
    decreases hi - lo
  {
    if lo < hi then Coordinates(lo, hi - 1) + {hi - 1} else {}
  }

  lemma SharedCoordinates(a: int, m: int, b: int, n: int)
    ensures var lo, hi := if a > b then a else b, if a + m < b + n then a + m else b + n;
            |Coordinates(a, a + m) * Coordinates(b, b + n)| == if lo < hi then hi - lo else 0
  {
    var lo, hi := if a > b then a else b, if a + m < b + n then a + m else b + n;
    assert Coordinates(a, a + m) * Coordinates(b, b + n) == Coordinates(lo, hi);
  }

  /** For whole coordinates the overlap is the number of coordinates the two intervals share. */
  lemma OverlapCounts(a: int, m: int, b: int, n: int)
    ensures Overlap(a as real, m as real, b as real, n as real)
         == |Coordinates(a, a + m) * Coordinates(b, b + n)| as real
  {
    SharedCoordinates(a, m, b, n);
  }

  ghost predicate ShowsBlock(r: Rect, wa: Rect) {
    && (exists p :: InBoth(p, 100.0, r.x, r.width, wa.x, wa.width))
    && (exists q :: InBoth(q, 100.0, r.y, r.height, wa.y, wa.height))
  }

  /** A stored length, as long as it is not too short. */
  predicate Stored(file: Option<Json>, key: string, least: real) {
    file.Some? && Property(file.value, key).Num? && Property(file.value, key).n >= least
  }

  /** Width and height come from the file, each by itself, unless it is missing or too small, and then
      from the default; the maximized flag only from a true `isMaximized`. */
  lemma LoadedSize(file: Option<Json>, workArea: Rect -> Rect)
    ensures var r := Load(file, workArea);
            && r.width == (if Stored(file, "width", 400.0) then Property(file.value, "width").n else 1400.0)
            && r.height == (if Stored(file, "height", 300.0) then Property(file.value, "height").n else 900.0)
            && (r.isMaximized <==> file.Some? && Property(file.value, "isMaximized") == Bool(true))
  {
  }

  /** The restored size is never too small, and a position is restored exactly when the file holds
      one whose window shows at least a 100 by 100 block on the display. */
  lemma LoadMeaning(file: Option<Json>, workArea: Rect -> Rect)
    ensures var r := Load(file, workArea);
            && r.width >= 400.0 && r.height >= 300.0
            && (r.position.Some? <==>
                  && file.Some? && Property(file.value, "x").Num? && Property(file.value, "y").Num?
                  && var rect := Rect(Property(file.value, "x").n, Property(file.value, "y").n, r.width, r.height);
                     ShowsBlock(rect, workArea(rect)))
            && (r.position.Some? ==> r.position == Some((Property(file.value, "x").n, Property(file.value, "y").n)))
  {
    var r := Load(file, workArea);
    if file.Some? && Property(file.value, "x").Num? && Property(file.value, "y").Num? {
      var rect := Rect(Property(file.value, "x").n, Property(file.value, "y").n, r.width, r.height);
      var wa := workArea(rect);
      OverlapMeaning(MIN_VISIBLE, rect.x, rect.width, wa.x, wa.width);
      OverlapMeaning(MIN_VISIBLE, rect.y, rect.height, wa.y, wa.height);
    }
  }

  // --------------------------------------------------------------------- saving

  /** The window as `doSave` finds it when it runs; a destroyed window makes it throw. */
  datatype Window = Destroyed | Open(bounds: Rect, isMaximized: bool)

  function BoundsFields(bounds: Option<Rect>): map<string, Json> {
    match bounds
    case Some(b) => map["x" := Num(b.x), "y" := Num(b.y), "width" := Num(b.width), "height" := Num(b.height)]
    case None => map["width" := Num(DEFAULT_WIDTH), "height" := Num(DEFAULT_HEIGHT)]
  }

  /** The bounds properties of the existing file, or the default size when there is none to read. */
  function Preserved(file: Option<Json>): map<string, Json> {
    if file.None? || file.value == Null then BoundsFields(None)
    else if !file.value.Obj? then map[]
    else map k | k in {"x", "y", "width", "height"} && k in file.value.fields :: file.value.fields[k]
  }

  /** `doSave`: the file after one save. */
  function Save(file: Option<Json>, win: Window): Option<Json> {
    match win
    case Destroyed => file
    case Open(bounds, isMaximized) =>
      var kept := if isMaximized then Preserved(file) else BoundsFields(Some(bounds));
      Some(Obj(kept["isMaximized" := Bool(isMaximized)]))
  }

  function SaveAll(history: seq<Window>): Option<Json> {
    if history == [] then None else Save(SaveAll(Init(history)), Last(history))
  }

  /** The bounds at the latest save that found the window un-maximized. */
  function LastNormal(history: seq<Window>): Option<Rect> {
    if history == [] then None
    else if Last(history).Open? && !Last(history).isMaximized then Some(Last(history).bounds)
    else LastNormal(Init(history))
  }

  /** Whether the latest effective save found the window maximized; nothing if no save had effect. */
  function LastMaximized(history: seq<Window>): Option<bool> {
    if history == [] then None
    else if Last(history).Open? then Some(Last(history).isMaximized)
    else LastMaximized(Init(history))
  }

  /** Saving incrementally, reading back only the previous file, remembers across any stretch of
      maximized saves: the file always holds the last normal bounds, or the default size. */
  lemma {:induction false} SavedIsLastNormal(history: seq<Window>)
    ensures SaveAll(history)
         == match LastMaximized(history)
            case None => None
            case Some(m) => Some(Obj(BoundsFields(LastNormal(history))["isMaximized" := Bool(m)]))
    ensures LastMaximized(history).None? ==> LastNormal(history).None?
  {
    if history != [] {
      SavedIsLastNormal(Init(history));
      var win := Last(history);
      if win.Open? && win.isMaximized && LastMaximized(Init(history)).Some? {
        PreservedKeepsBounds(LastNormal(Init(history)), LastMaximized(Init(history)).value);
      }
    }
  }

  lemma PreservedKeepsBounds(bounds: Option<Rect>, m: bool)
    ensures Preserved(Some(Obj(BoundsFields(bounds)["isMaximized" := Bool(m)]))) == BoundsFields(bounds)
  {
  }

  /** Round trip: after any saves from a fresh start, loading gives the last normal bounds whenever
      they are large enough and visible, drops only the position when they are not visible, and
      gives the default size without a position when the window was never seen un-maximized. */
  lemma RestoresLastNormal(history: seq<Window>, workArea: Rect -> Rect)
    ensures var r, last := Load(SaveAll(history), workArea), LastNormal(history);
            && (r.isMaximized <==> LastMaximized(history) == Some(true))
            && (last.None? ==> r == Loaded(None, DEFAULT_WIDTH, DEFAULT_HEIGHT, r.isMaximized))
            && (last.Some? && last.value.width >= 400.0 && last.value.height >= 300.0 ==>
                  var b := last.value;
                  r == Loaded(if ShowsBlock(b, workArea(b)) then Some((b.x, b.y)) else None,
                              b.width, b.height, r.isMaximized))
  {
    SavedIsLastNormal(history);
    LoadMeaning(SaveAll(history), workArea);
    if LastNormal(history).Some? {
      var b := LastNormal(history).value;
      var saved := SaveAll(history).value;
      assert Property(saved, "x") == Num(b.x) && Property(saved, "y") == Num(b.y);
      assert Property(saved, "width") == Num(b.width) && Property(saved, "height") == Num(b.height);
    }
  }

  // ------------------------------------------------------------------ debouncing

  /** The module: its file, its timer variable, and the timers the event loop still holds. */
  class Store {
    var file: Option<Json>
    var saveTimer: Option<nat>
    var pending: set<nat>
    var nextTimer: nat
    ghost var history: seq<Window>  // the windows found by the saves that have run

    ghost predicate Valid()
      reads this
    {
      && file == SaveAll(history)
      && pending <= (if saveTimer.Some? then {saveTimer.value} else {})
      && forall t | t in pending :: t < nextTimer
    }

    constructor ()
      ensures Valid() && history == [] && pending == {}
    {
      file, saveTimer, pending, nextTimer, history := None, None, {}, 0, [];
    }

    method DoSave(win: Window)
      requires Valid()
      modifies this`file, this`history
      ensures Valid() && history == old(history) + [win]
      ensures file == Save(old(file), win)
    {
      file := Save(file, win);
      history := history + [win];
      assert Init(history) == old(history);
    }

    /** A resize, a move or a close. At most one save is ever waiting, the newest request wins, and
        an immediate save leaves none behind. */
    method SaveWindowState(win: Window, immediate: bool)
      requires Valid()
      modifies this
      ensures Valid() && |pending| == if immediate then 0 else 1
      ensures history == if immediate then old(history) + [win] else old(history)
      ensures !immediate ==> file == old(file) && pending !! old(pending)
    {
      if saveTimer.Some? {
        pending := pending - {saveTimer.value};
        saveTimer := None;
      }
      if immediate {
        DoSave(win);
      } else {
        saveTimer := Some(nextTimer);
        pending := pending + {nextTimer};
        nextTimer := nextTimer + 1;
        assert pending == {saveTimer.value};
      }
    }

    /** The debounce delay is over; `saveTimer` keeps its stale value, as in the source. */
    method TimerFires(timer: nat, win: Window)
      requires Valid() && timer in pending
      modifies this
      ensures Valid() && pending == {} && saveTimer == old(saveTimer)
      ensures history == old(history) + [win]
    {
      pending := pending - {timer};
      DoSave(win);
    }

    method LoadWindowState(workArea: Rect -> Rect) returns (r: Loaded)
      requires Valid()
      ensures r == Load(SaveAll(history), workArea)
    {
      r := Load(file, workArea);
    }
  }
}
