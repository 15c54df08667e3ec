/**
 * `decompose_input_path`: the part of a file path after the data directory,
 * split by POSIX path rules into its parent directory (with a trailing
 * `/`) and its file name.
 */
module Paths {
  import opened Wrappers

  // ---------------------------------------------------------------------
  // str.split(sep)[-1]
  // ---------------------------------------------------------------------

  /** `d` occurs in `s` at index `j`. */
  predicate OccursAt(s: string, d: string, j: int)
  {
    0 <= j && j + |d| <= |s| && s[j..j + |d|] == d
  }

  /** The leftmost occurrence of `d` in `s`. */
  function Find(s: string, d: string): (r: Option<nat>)
    ensures r.Some? ==> OccursAt(s, d, r.value) && forall j :: 0 <= j < r.value ==> !OccursAt(s, d, j)
    ensures r.None? ==> forall j :: 0 <= j <= |s| ==> !OccursAt(s, d, j)
    decreases |s|
  {
    if |s| < |d| then None
    else if s[..|d|] == d then Some(0)
    else
      var rest := Find(s[1..], d);
      OccursShiftAll(s, d, 1);
      if rest.None? then None
      else
        Some(rest.value + 1)
  }

  /**
   * Where the last piece of `s.split(d)` starts: the pieces are cut at the
   * leftmost occurrence, then again in what follows it, so the last piece
   * begins just after the last cut.
   */
  function LastPieceStart(s: string, d: string): (k: nat)
    requires |d| > 0
    ensures k <= |s|
    decreases |s|
  {
    match Find(s, d)
    case None => 0
    case Some(i) => i + |d| + LastPieceStart(s[i + |d|..], d)
  }

  /** No occurrence of `d` starts at or after the start of the last piece. */
  lemma {:induction false} NothingAfterStart(s: string, d: string)
    requires |d| > 0
    ensures forall j :: LastPieceStart(s, d) <= j <= |s| ==> !OccursAt(s, d, j)
    decreases |s|
  {
    if Find(s, d).Some? {
      var off := Find(s, d).value + |d|;
      var k := LastPieceStart(s[off..], d);
      assert LastPieceStart(s, d) == off + k;
      NothingAfterStart(s[off..], d);
      forall j | off + k <= j <= |s| ensures !OccursAt(s, d, j) {
        OccursShift(s, d, off, j - off);
      }
    }
  }

  /**
   * The last piece starts at 0 exactly when `d` does not occur, and
   * otherwise directly after an occurrence.
   */
  lemma {:induction false} StartFollowsOccurrence(s: string, d: string)
    requires |d| > 0
    ensures LastPieceStart(s, d) == 0 <==> Find(s, d).None?
    ensures LastPieceStart(s, d) > 0 ==> OccursAt(s, d, LastPieceStart(s, d) - |d|)
    decreases |s|
  {
    if Find(s, d).Some? {
      var i := Find(s, d).value;
      var off := i + |d|;
      var k := LastPieceStart(s[off..], d);
      assert LastPieceStart(s, d) == off + k;
      StartFollowsOccurrence(s[off..], d);
      if k > 0 {
        OccursShift(s, d, off, k - |d|);
      } else {
        assert off + k - |d| == i;
      }
    }
  }

  /** `s.split(d)[-1]`: the empty separator is a ValueError. */
  function LastPiece(s: string, d: string): (r: Result<string>)
    ensures r.Err? <==> |d| == 0
    ensures r.Err? ==> r.error == ValueError
  {
    if |d| == 0 then Err(ValueError) else Ok(s[LastPieceStart(s, d)..])
  }

  /**
   * The last piece is a suffix of `s` holding no occurrence of `d`; it is
   * all of `s` when `d` does not occur, and otherwise follows an occurrence.
   */
  lemma LastPieceProperties(s: string, d: string)
    requires |d| > 0
    ensures exists k :: 0 <= k <= |s| && LastPiece(s, d).value == s[k..]
    ensures forall j :: 0 <= j <= |LastPiece(s, d).value| ==> !OccursAt(LastPiece(s, d).value, d, j)
    ensures Find(s, d).None? ==> LastPiece(s, d).value == s
    ensures Find(s, d).Some? ==> exists i :: OccursAt(s, d, i) && LastPiece(s, d).value == s[i + |d|..]
  {
    var k := LastPieceStart(s, d);
    NothingAfterStart(s, d);
    StartFollowsOccurrence(s, d);
    assert LastPiece(s, d).value == s[k..];
    forall j | 0 <= j <= |s[k..]| ensures !OccursAt(s[k..], d, j) {
      OccursShift(s, d, k, j);
    }
    if k > 0 {
      assert s[k..] == s[(k - |d|) + |d|..];
    }
  }

  /** An occurrence in `s[off..]` is an occurrence in `s`, `off` further on. */
  lemma OccursShift(s: string, d: string, off: nat, j: int)
    requires off <= |s|
    ensures OccursAt(s[off..], d, j) <==> j >= 0 && OccursAt(s, d, off + j)
  {
    if 0 <= j && j + |d| <= |s| - off {
      assert s[off..][j..j + |d|] == s[off + j..off + j + |d|];
    }
  }

  lemma OccursShiftAll(s: string, d: string, off: nat)
    requires off <= |s|
    ensures forall j :: off <= j && OccursAt(s, d, j) ==> OccursAt(s[off..], d, j - off)
    ensures forall j :: OccursAt(s[off..], d, j) ==> OccursAt(s, d, off + j)
  {
    forall j | off <= j && OccursAt(s, d, j) ensures OccursAt(s[off..], d, j - off) {
      OccursShift(s, d, off, j - off);
    }
    forall j | OccursAt(s[off..], d, j) ensures OccursAt(s, d, off + j) {
      OccursShift(s, d, off, j);
    }
  }

  // ---------------------------------------------------------------------
  // pathlib.PurePosixPath
  // ---------------------------------------------------------------------

  /** The pieces of `p` between its `/` characters, empty pieces included. */
  function SplitOnSlash(p: string): (r: seq<string>)
    ensures |r| >= 1 && forall i :: 0 <= i < |r| ==> '/' !in r[i]
  {
    if |p| == 0 then [""]
    else
      var rest := SplitOnSlash(p[1..]);
      if p[0] == '/' then [""] + rest else [[p[0]] + rest[0]] + rest[1..]
  }

  /** The pieces that are path components: not empty and not `.`. */
  function Keep(pieces: seq<string>): (r: seq<string>)
    ensures forall i :: 0 <= i < |r| ==> r[i] != "" && r[i] != "." && exists j :: 0 <= j < |pieces| && r[i] == pieces[j]
    ensures |r| <= |pieces|
  {
    if |pieces| == 0 then []
    else
      var rest := Keep(pieces[1..]);
      assert forall i :: 0 <= i < |rest| ==> exists j :: 0 <= j < |pieces| && rest[i] == pieces[j] by {
        forall i | 0 <= i < |rest| ensures exists j :: 0 <= j < |pieces| && rest[i] == pieces[j] {
          var j :| 0 <= j < |pieces[1..]| && rest[i] == pieces[1..][j];
          assert rest[i] == pieces[j + 1];
        }
      }
      if pieces[0] == "" || pieces[0] == "." then rest else [pieces[0]] + rest
  }

  /** The path's components: no empty component, no `.`, no `/` inside one. */
  function Components(p: string): (r: seq<string>)
    ensures forall i :: 0 <= i < |r| ==> r[i] != "" && r[i] != "." && '/' !in r[i]
  {
    var r := Keep(SplitOnSlash(p));
    assert forall i :: 0 <= i < |r| ==> '/' !in r[i] by {
      forall i | 0 <= i < |r| ensures '/' !in r[i] {
        var j :| 0 <= j < |SplitOnSlash(p)| && r[i] == SplitOnSlash(p)[j];
      }
    }
    r
  }

  /**
   * The root of a POSIX path: `//` for exactly two leading slashes, `/` for
   * one or more than two, none for a relative path.
   */
  function Anchor(p: string): (r: string)
    ensures r == "" <==> |p| == 0 || p[0] != '/'
  {
    if |p| >= 2 && p[0] == '/' && p[1] == '/' && (|p| == 2 || p[2] != '/') then "//"
    else if |p| >= 1 && p[0] == '/' then "/"
    else ""
  }

  /** Components joined with `/`. */
  function Join(parts: seq<string>): string
  {
    if |parts| == 0 then ""
    else if |parts| == 1 then parts[0]
    else parts[0] + "/" + Join(parts[1..])
  }

  /** `str()` of a path with this anchor and these components: `.` for the empty path. */
  function Render(anchor: string, parts: seq<string>): (r: string)
    requires forall i :: 0 <= i < |parts| ==> parts[i] != ""
    ensures r != ""
  {
    if anchor == "" && |parts| == 0 then "." else anchor + Join(parts)
  }

  /** `Path(p).name`: the last component, empty when there is none. */
  function Name(p: string): (r: string)
    ensures '/' !in r
  {
    var cs := Components(p);
    if |cs| == 0 then "" else cs[|cs| - 1]
  }

  /** `str(Path(p).parent)`: the path without its last component; a path without components is its own parent. */
  function ParentText(p: string): (r: string)
    ensures r != ""
  {
    var cs := Components(p);
    if |cs| == 0 then Render(Anchor(p), []) else Render(Anchor(p), cs[..|cs| - 1])
  }

  /**
   * `decompose_input_path(filepath, data_dir)`: the parent directory of the
   * part after `data_dir`, with a `/` appended, and that part's file name.
   * An empty `data_dir` is the ValueError of `split`.
   */
  function DecomposeInputPath(filepath: string, dataDir: string): (r: Result<(string, string)>)
    ensures r.Err? <==> dataDir == ""
    ensures r.Err? ==> r.error == ValueError
    ensures r.Ok? ==> |r.value.0| >= 2 && r.value.0[|r.value.0| - 1] == '/' && '/' !in r.value.1
  {
    match LastPiece(filepath, dataDir)
    case Err(e) => Err(e)
    case Ok(tail) => Ok((ParentText(tail) + "/", Name(tail)))
  }

  /** A path tail without any `/` has `./` for parent and is its own file name, unless it is empty or `.`. */
  lemma NoDirectory(tail: string)
    requires '/' !in tail
    ensures ParentText(tail) + "/" == "./"
    ensures Name(tail) == (if tail == "" || tail == "." then "" else tail)
  {
    NoSlashPieces(tail);
    assert SplitOnSlash(tail)[1..] == [];
  }

  /** A string without `/` is a single piece. */
  lemma {:induction false} NoSlashPieces(w: string)
    requires '/' !in w
    ensures SplitOnSlash(w) == [w]
  {
    if |w| > 0 {
      assert '/' !in w[1..] by {
        forall i | 0 <= i < |w[1..]| ensures w[1..][i] != '/' { assert w[1..][i] == w[i + 1]; }
      }
      NoSlashPieces(w[1..]);
      assert [w[0]] + w[1..] == w;
    }
  }

  /** `w + "/" + rest` splits into `w` followed by the pieces of `rest`. */
  lemma {:induction false} SplitAfterPiece(w: string, rest: string)
    requires '/' !in w
    ensures SplitOnSlash(w + "/" + rest) == [w] + SplitOnSlash(rest)
  {
    if |w| == 0 {
      assert w + "/" + rest == "/" + rest;
      assert ("/" + rest)[1..] == rest;
    } else {
      assert '/' !in w[1..] by {
        forall i | 0 <= i < |w[1..]| ensures w[1..][i] != '/' { assert w[1..][i] == w[i + 1]; }
      }
      SplitAfterPiece(w[1..], rest);
      assert (w + "/" + rest)[1..] == w[1..] + "/" + rest;
      assert [w[0]] + w[1..] == w;
    }
  }

  /** Components that are clean pieces: not empty, not `.`, no `/`. */
  predicate Clean(parts: seq<string>)
  {
    forall i :: 0 <= i < |parts| ==> parts[i] != "" && parts[i] != "." && '/' !in parts[i]
  }

  /** Clean components joined with `/` split back into the same components. */
  lemma {:induction false} ComponentsOfJoin(parts: seq<string>)
    requires |parts| > 0 && Clean(parts)
    ensures SplitOnSlash(Join(parts)) == parts
    ensures Components(Join(parts)) == parts
  {
    if |parts| == 1 {
      NoSlashPieces(parts[0]);
    } else {
      ComponentsOfJoin(parts[1..]);
      SplitAfterPiece(parts[0], Join(parts[1..]));
      assert [parts[0]] + parts[1..] == parts;
    }
    KeepClean(parts);
  }

  /** Clean pieces are all kept. */
  lemma {:induction false} KeepClean(parts: seq<string>)
    requires Clean(parts)
    ensures Keep(parts) == parts
  {
    if |parts| > 0 {
      KeepClean(parts[1..]);
      assert [parts[0]] + parts[1..] == parts;
    }
  }

  /**
   * For a relative tail made of clean components, the parent and the file
   * name put back together give the tail again, behind `./` when there is
   * a single component.
   */
  lemma ParentAndNameRebuild(parts: seq<string>)
    requires |parts| > 0 && Clean(parts)
    ensures ParentText(Join(parts)) + "/" + Name(Join(parts)) == (if |parts| == 1 then "./" else "") + Join(parts)
  {
    ParentAndNameOfJoin(parts);
    var name := parts[|parts| - 1];
    if |parts| == 1 {
      assert Join(parts) == name;
      var pt := ParentText(Join(parts));
      assert pt == ".";
      assert pt + "/" == "./";
    } else {
      JoinSnoc(parts);
      var init := Join(parts[..|parts| - 1]);
      assert ParentText(Join(parts)) == init;
      assert Join(parts) == init + "/" + name;
    }
  }

  /** The parent and the name of clean components joined with `/`. */
  lemma ParentAndNameOfJoin(parts: seq<string>)
    requires |parts| > 0 && Clean(parts)
    ensures Name(Join(parts)) == parts[|parts| - 1]
    ensures ParentText(Join(parts)) == if |parts| == 1 then "." else Join(parts[..|parts| - 1])
  {
    ComponentsOfJoin(parts);
    RelativeJoin(parts);
    var cs := Components(Join(parts));
    assert cs == parts;
  }

  /** Clean components joined with `/` make a relative path. */
  lemma RelativeJoin(parts: seq<string>)
    requires |parts| > 0 && Clean(parts)
    ensures Anchor(Join(parts)) == ""
  {
    JoinStart(parts);
    assert parts[0][0] in parts[0];
  }

  /** A join of clean components begins with the first component. */
  lemma JoinStart(parts: seq<string>)
    requires |parts| > 0 && Clean(parts)
    ensures |Join(parts)| > 0 && Join(parts)[0] == parts[0][0]
  {
  }

  /** `Join(parts) == Join(init) + "/" + last`. */
  lemma {:induction false} JoinSnoc(parts: seq<string>)
    requires |parts| > 1
    ensures Join(parts) == Join(parts[..|parts| - 1]) + "/" + parts[|parts| - 1]
  {
    if |parts| > 2 {
      JoinSnoc(parts[1..]);
      assert parts[1..][..|parts| - 2] == parts[..|parts| - 1][1..];
    }
  }

  /** The tail after `data/simulated/raw/` of a typical input path. */
  lemma TypicalInput()
    ensures LastPiece("data/simulated/raw/run1/out.h5", "data/simulated/raw/") == Ok("run1/out.h5")
  {
    var s, d := "data/simulated/raw/run1/out.h5", "data/simulated/raw/";
    assert OccursAt(s, d, 0);
    assert Find(s, d) == Some(0);
    var rest := s[|d|..];
    assert rest == "run1/out.h5";
    assert Find(rest, d).None?;
  }

  /**
   * Cuts do not overlap: in `"aaa"` split on `"aa"` the cut is at the first
   * occurrence, so the last piece is `"a"`, although another occurrence
   * starts at index 1.
   */
  lemma SplitDoesNotOverlap()
    ensures LastPiece("aaa", "aa") == Ok("a")
    ensures OccursAt("aaa", "aa", 1)
  {
    var s, d := "aaa", "aa";
    assert OccursAt(s, d, 0);
    assert Find(s, d) == Some(0);
    assert s[2..] == "a";
    assert Find("a", d).None?;
    assert s[1..3] == d;
  }
}
