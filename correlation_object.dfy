/**
 * `VMAutocorrelationObject`: the correlations of one simulation, keyed by
 * observable name, with the file they are kept in derived from the
 * simulation's file name, and the save/load mapping of that file.
 */
module CorrelationObject {
  import opened Wrappers
  import opened Masked
  import opened Dispatch

  /** Index of the last `c` in `s`, or -1: `str.rfind`. */
  function RFind(s: string, c: char): (r: int)
    ensures -1 <= r < |s|
    ensures r >= 0 ==> s[r] == c
    ensures forall k :: r < k < |s| ==> s[k] != c
  {
    if |s| == 0 then -1
    else if s[|s| - 1] == c then |s| - 1
    else RFind(s[..|s| - 1], c)
  }

  /** `s[lo..hi]` holds a character other than a dot. */
  predicate HasNonDot(s: string, lo: nat, hi: nat)
    requires lo <= hi <= |s|
  {
    exists k :: lo <= k < hi && s[k] != '.'
  }

  /**
   * `os.path.splitext`: the extension is the text from the last dot on,
   * provided that dot comes after the last slash and the final path
   * component has something other than dots before it; otherwise there is
   * no extension.
   */
  function SplitExt(p: string): (string, string)
  {
    var sep, dot := RFind(p, '/'), RFind(p, '.');
    if dot > sep && HasNonDot(p, sep + 1, dot) then (p[..dot], p[dot..]) else (p, "")
  }

  /**
   * The root and the extension put back together give the file name; an
   * extension is a single dot and what follows it, with no further dot or
   * slash; and there is one exactly when the final path component has a
   * dot that is preceded by something other than dots.
   */
  lemma SplitExtProperties(p: string)
    ensures SplitExt(p).0 + SplitExt(p).1 == p
    ensures SplitExt(p).1 != [] ==>
              SplitExt(p).1[0] == '.'
              && (forall k :: 1 <= k < |SplitExt(p).1| ==> SplitExt(p).1[k] != '.')
              && (forall k :: 0 <= k < |SplitExt(p).1| ==> SplitExt(p).1[k] != '/')
    ensures SplitExt(p).1 != [] <==>
              exists d, k :: 0 <= k < d < |p| && p[d] == '.' && p[k] != '.'
                             && forall j :: k <= j < |p| ==> p[j] != '/'
  {
    var sep, dot := RFind(p, '/'), RFind(p, '.');
    var (root, ext) := SplitExt(p);
    if dot > sep && HasNonDot(p, sep + 1, dot) {
      var k :| sep + 1 <= k < dot && p[k] != '.';
      assert 0 <= k < dot < |p| && p[dot] == '.' && p[k] != '.' && forall j :: k <= j < |p| ==> p[j] != '/';
      assert p[..dot] + p[dot..] == p;
    }
  }

  const PathPrefix := "data/simulated/obj/autocorrelation_"
  const PathSuffix := ".obj"

  /** Where the correlations of the simulation file `filename` are kept. */
  function ObjectPath(filename: string): (r: string)
  {
    PathPrefix + SplitExt(filename).0 + PathSuffix
  }

  /**
   * The object path is the fixed directory and prefix, the file name without
   * its extension, and `.obj`; file names that differ only in their
   * extension share a path.
   */
  lemma ObjectPathShape(filename: string, other: string)
    ensures ObjectPath(filename)[..|PathPrefix|] == PathPrefix
    ensures ObjectPath(filename)[|ObjectPath(filename)| - |PathSuffix|..] == PathSuffix
    ensures ObjectPath(filename)[|PathPrefix|..|ObjectPath(filename)| - |PathSuffix|] + SplitExt(filename).1 == filename
    ensures SplitExt(filename).0 == SplitExt(other).0 ==> ObjectPath(filename) == ObjectPath(other)
  {
    SplitExtProperties(filename);
    var root := SplitExt(filename).0;
    assert ObjectPath(filename)[|PathPrefix|..|ObjectPath(filename)| - |PathSuffix|] == root;
  }

  /** The four dictionaries and the log of a `VMAutocorrelationObject`, as one value. */
  datatype State = State(
    temporal: map<string, seq<real>>,
    spatial: map<string, seq<real>>,
    tArray: map<string, seq<real>>,
    rArray: map<string, seq<real>>,
    log: map<string, map<string, string>>)

  /** Empty dictionaries, and a log with empty "t" and "r" entries. */
  const FreshState := State(map[], map[], map[], map[], map["t" := map[], "r" := map[]])

  /**
   * The dictionary kept in an object file; `None` is a key the file does
   * not have.
   */
  datatype Saved = Saved(
    fname: Option<string>,
    temporal: Option<map<string, seq<real>>>,
    spatial: Option<map<string, seq<real>>>,
    tArray: Option<map<string, seq<real>>>,
    rArray: Option<map<string, seq<real>>>,
    log: Option<map<string, map<string, string>>>)

  /** `save_pickle`: the file name and the five fields. */
  function SaveState(fname: string, st: State): (r: Saved)
    ensures r.fname == Some(fname)
  {
    Saved(Some(fname), Some(st.temporal), Some(st.spatial), Some(st.tArray), Some(st.rArray), Some(st.log))
  }

  /**
   * `load_state` on the dictionary `saved`: an AssertionError unless its
   * file name (empty when missing) is `fname`, otherwise the five fields,
   * each empty when missing.
   */
  function Restore(fname: string, saved: Saved): Result<State>
  {
    if saved.fname.GetOr("") != fname then Err(AssertionError)
    else Ok(State(saved.temporal.GetOr(map[]), saved.spatial.GetOr(map[]), saved.tArray.GetOr(map[]),
                  saved.rArray.GetOr(map[]), saved.log.GetOr(map[])))
  }

  /**
   * Saving then loading under the same file name gives back exactly the
   * saved state; loading what was saved under another name fails.
   */
  lemma SaveLoadRoundTrip(fname: string, other: string, st: State)
    ensures Restore(fname, SaveState(fname, st)) == Ok(st)
    ensures other != fname ==> Restore(other, SaveState(fname, st)) == Err(AssertionError)
  {
  }

  /** A file without a file name only loads into an object whose file name is empty. */
  lemma LoadWithoutName(fname: string, saved: Saved)
    requires saved.fname.None?
    ensures Restore(fname, saved).Ok? <==> fname == ""
  {
  }

  /** A spatial routine's output that the object keeps: `C_norm` and `r_bin_centers`, masked. */
  datatype SpatialResult = SpatialResult(cNorm: Grid, rBinCenters: seq<Option<real>>)

  /**
   * The spatial correlation routine, from the x and y coordinates of every
   * entity in every frame, the observable, `dr`, `r_max` and `t_avrg`; it is
   * not part of this model and may raise.
   */
  type SpatialRoutine = (seq<seq<real>>, seq<seq<real>>, Observable, real, real, bool) -> Result<SpatialResult>

  /** `positions[:, :, c]`: coordinate `c` of every entity in every frame; an IndexError if some entity has none. */
  function Coordinate(positions: seq<seq<seq<real>>>, c: nat): (r: Result<seq<seq<real>>>)
    ensures r.Ok? <==> forall f, e :: 0 <= f < |positions| && 0 <= e < |positions[f]| ==> c < |positions[f][e]|
    ensures r.Err? ==> r.error == IndexError
    ensures r.Ok? ==> |r.value| == |positions|
    ensures r.Ok? ==> forall f :: 0 <= f < |positions| ==> |r.value[f]| == |positions[f]|
    ensures r.Ok? ==> forall f, e :: 0 <= f < |positions| && 0 <= e < |positions[f]| ==> r.value[f][e] == positions[f][e][c]
  {
    if forall f, e :: 0 <= f < |positions| && 0 <= e < |positions[f]| ==> c < |positions[f][e]| then
      Ok(seq(|positions|, f requires 0 <= f < |positions| =>
               seq(|positions[f]|, e requires 0 <= e < |positions[f]| => positions[f][e][c])))
    else Err(IndexError)
  }

  /**
   * `compute_spatial` on the state `st`, at date `now`: there is no guard,
   * so the compressed results always replace what the name held; a log
   * without an "r" entry raises after the two stores.
   */
  function SpatialStep(st: State, positions: seq<seq<seq<real>>>, variable: Observable, dr: real, rMax: real,
                       name: string, tAvrg: bool, now: string, correlate: SpatialRoutine): (Outcome, State)
  {
    match Coordinate(positions, 0)
    case Err(e) => (Fail(e), st)
    case Ok(x) =>
      match Coordinate(positions, 1)
      case Err(e) => (Fail(e), st)
      case Ok(y) =>
        match correlate(x, y, variable, dr, rMax, tAvrg)
        case Err(e) => (Fail(e), st)
        case Ok(cr) =>
          var stored := st.(spatial := st.spatial[name := CompressGrid(cr.cNorm)],
                            rArray := st.rArray[name := Unmasked(cr.rBinCenters)]);
          if "r" in st.log then (Pass, stored.(log := st.log["r" := st.log["r"][name := now]]))
          else (Fail(KeyError), stored)
  }

  /**
   * `compute_spatial` never touches `temporal`, `t_array` or the log's "t"
   * entry; when the routine returns and the log has an "r" entry it stores
   * the compressed results under the name, whether or not the name was
   * there before, and logs `now`.
   */
  lemma SpatialAlwaysStores(st: State, positions: seq<seq<seq<real>>>, variable: Observable, dr: real, rMax: real,
                            name: string, tAvrg: bool, now: string, correlate: SpatialRoutine,
                            x: seq<seq<real>>, y: seq<seq<real>>, cr: SpatialResult)
    requires Coordinate(positions, 0) == Ok(x) && Coordinate(positions, 1) == Ok(y)
    requires correlate(x, y, variable, dr, rMax, tAvrg) == Ok(cr) && "r" in st.log
    ensures SpatialStep(st, positions, variable, dr, rMax, name, tAvrg, now, correlate).0 == Pass
    ensures SpatialStep(st, positions, variable, dr, rMax, name, tAvrg, now, correlate).1.spatial[name] == CompressGrid(cr.cNorm)
    ensures SpatialStep(st, positions, variable, dr, rMax, name, tAvrg, now, correlate).1.rArray[name] == Unmasked(cr.rBinCenters)
    ensures "r" in SpatialStep(st, positions, variable, dr, rMax, name, tAvrg, now, correlate).1.log
    ensures SpatialStep(st, positions, variable, dr, rMax, name, tAvrg, now, correlate).1.log["r"] == st.log["r"][name := now]
  {
  }

  /** `compute_spatial` leaves the temporal side alone, whatever happens. */
  lemma SpatialKeepsTemporal(st: State, positions: seq<seq<seq<real>>>, variable: Observable, dr: real, rMax: real,
                             name: string, tAvrg: bool, now: string, correlate: SpatialRoutine)
    ensures SpatialStep(st, positions, variable, dr, rMax, name, tAvrg, now, correlate).1.temporal == st.temporal
    ensures SpatialStep(st, positions, variable, dr, rMax, name, tAvrg, now, correlate).1.tArray == st.tArray
    ensures "t" in st.log ==>
              "t" in SpatialStep(st, positions, variable, dr, rMax, name, tAvrg, now, correlate).1.log
              && SpatialStep(st, positions, variable, dr, rMax, name, tAvrg, now, correlate).1.log["t"] == st.log["t"]
  {
  }

  /** The correlations of one simulation file. */
  class VMAutocorrelationObject {
    var fname: string
    var path: string
    var temporal: map<string, seq<real>>
    var spatial: map<string, seq<real>>
    var tArray: map<string, seq<real>>
    var rArray: map<string, seq<real>>
    var log: map<string, map<string, string>>

    /** The five fields that are saved, as one value. */
    function Contents(): State
      reads this
    {
      State(temporal, spatial, tArray, rArray, log)
    }

    /** The object for `filename` before any file is consulted: fresh state. */
    constructor (filename: string)
      ensures fname == filename && path == ObjectPath(filename) && Contents() == FreshState
    {
      fname := filename;
      path := ObjectPath(filename);
      temporal, spatial, tArray, rArray := map[], map[], map[], map[];
      log := map["t" := map[], "r" := map[]];
    }

    /** `save_pickle`: the dictionary written to the object file. */
    function SavePickle(): (r: Saved)
      reads this
      ensures Restore(fname, r) == Ok(Contents())
    {
      SaveState(fname, Contents())
    }

    /** `load_state`, from the dictionary kept in the object file. */
    method LoadState(saved: Saved) returns (r: Outcome)
      modifies this
      ensures fname == old(fname) && path == old(path)
      ensures Restore(fname, saved).Err? ==> r == Fail(AssertionError) && Contents() == old(Contents())
      ensures Restore(fname, saved).Ok? ==> r == Pass && Contents() == Restore(fname, saved).value
    {
      if saved.fname.GetOr("") != fname {
        return Fail(AssertionError);
      }
      temporal := saved.temporal.GetOr(map[]);
      spatial := saved.spatial.GetOr(map[]);
      tArray := saved.tArray.GetOr(map[]);
      rArray := saved.rArray.GetOr(map[]);
      log := saved.log.GetOr(map[]);
      r := Pass;
    }

    /** `compute_spatial(positions, variable, dr, r_max, name, t_avrg)`. */
    method ComputeSpatial(positions: seq<seq<seq<real>>>, variable: Observable, dr: real, rMax: real, name: string,
                          tAvrg: bool, now: string, correlate: SpatialRoutine)
      returns (r: Outcome)
      modifies this
      ensures fname == old(fname) && path == old(path)
      ensures (r, Contents()) == SpatialStep(old(Contents()), positions, variable, dr, rMax, name, tAvrg, now, correlate)
    {
      var x := Coordinate(positions, 0);
      if x.Err? {
        return Fail(x.error);
      }
      var y := Coordinate(positions, 1);
      if y.Err? {
        return Fail(y.error);
      }
      var cr := correlate(x.value, y.value, variable, dr, rMax, tAvrg);
      if cr.Err? {
        return Fail(cr.error);
      }
      spatial := spatial[name := CompressGrid(cr.value.cNorm)];
      rArray := rArray[name := Unmasked(cr.value.rBinCenters)];
      if "r" !in log {
        return Fail(KeyError);
      }
      log := log["r" := log["r"][name := now]];
      r := Pass;
    }
  }

  /**
   * `VMAutocorrelationObject(filename)`: a `None` file name fails the
   * assertion; otherwise the object starts fresh and, when its object file
   * exists (`stored`), loads it, which fails the assertion when the file
   * belongs to another file name.
   */
  method Open(filename: Option<string>, stored: Option<Saved>) returns (r: Result<VMAutocorrelationObject>)
    ensures filename.None? ==> r == Err(AssertionError)
    ensures filename.Some? && stored.None? ==>
              r.Ok? && fresh(r.value) && r.value.fname == filename.value && r.value.Contents() == FreshState
    ensures filename.Some? && stored.Some? ==>
              match Restore(filename.value, stored.value)
              case Err(e) => r == Err(e)
              case Ok(st) => r.Ok? && fresh(r.value) && r.value.fname == filename.value && r.value.Contents() == st
    ensures r.Ok? ==> r.value.path == ObjectPath(r.value.fname)
  {
    if filename.None? {
      return Err(AssertionError);
    }
    var obj := new VMAutocorrelationObject(filename.value);
    if stored.Some? {
      var loaded := obj.LoadState(stored.value);
      if loaded.Fail? {
        return Err(loaded.error);
      }
    }
    r := Ok(obj);
  }
}
