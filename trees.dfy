/**
 * A directory on disk as the files below it: relative path (a sequence of
 * names) to file. Directories are implied by the paths of their files, so an
 * empty sub-directory is not represented.
 */
module Trees {

  newtype Byte = x: int | 0 <= x < 256

  type Path = seq<string>

  /** File bytes and the modification time (`os.path.getmtime`) in whole seconds. */
  datatype File = File(data: seq<Byte>, mtime: int)

  type Tree = map<Path, File>

  /** A tree that `os.walk` could produce: no empty path, and no file also used as a directory. */
  predicate WellFormed(t: Tree)
  {
    (forall p :: p in t ==> |p| > 0)
    && (forall p, q :: p in t && q in t && |p| < |q| ==> q[..|p|] != p)
  }

  /** `filecmp.DEFAULT_IGNORES` together with `os.curdir` and `os.pardir`, which `dircmp` hides. */
  const Ignored: set<string> := {"RCS", "CVS", "tags", ".git", ".hg", ".bzr", "_darcs", "__pycache__", ".", ".."}

  predicate Shown(p: Path)
  {
    forall i :: 0 <= i < |p| ==> p[i] !in Ignored
  }

  predicate NoIgnoredNames(t: Tree)
  {
    forall p :: p in t ==> Shown(p)
  }

  /**
   * What `dircmp` gets to see: it skips a hidden name at every level, so a
   * file counts only when no name on its path is hidden.
   */
  function Visible(t: Tree): (v: Tree)
    ensures NoIgnoredNames(v)
    ensures forall p :: p in v <==> p in t && Shown(p)
    ensures forall p :: p in v ==> v[p] == t[p]
    ensures NoIgnoredNames(t) ==> v == t
  {
    map p | p in t && Shown(p) :: t[p]
  }

  lemma VisibleWellFormed(t: Tree)
    requires WellFormed(t)
    ensures WellFormed(Visible(t))
  {
  }

  predicate Below(p: Path, d: Path) { |p| > |d| && p[..|d|] == d }

  /** The names listed in directory `d` of `t`. */
  function Entries(t: Tree, d: Path): set<string>
  {
    set p | p in t && Below(p, d) :: p[|d|]
  }

  predicate IsDir(t: Tree, q: Path)
  {
    exists p :: p in t && Below(p, q)
  }

  /** The length of the longest path in `t`, which bounds how deep a comparison can go. */
  ghost function Height(t: Tree): (h: nat)
    ensures forall q :: q in t ==> |q| <= h
  {
    if t == map[] then 0
    else
      var p :| p in t;
      var rest := Height(t - {p});
      if |p| > rest then |p| else rest
  }

  lemma DirBelowHeight(t: Tree, q: Path)
    requires IsDir(t, q)
    ensures |q| < Height(t)
  {
  }

  /**
   * `compare_dirs` on the `dircmp` of directory `d`: the listings differ, a
   * name that is a file on both sides differs in content, or a name that is a
   * directory on both sides differs below. A name that is a file on one
   * side and a directory on the other (`common_funny`) is not looked at.
   */
  predicate MismatchAt(l: Tree, r: Tree, d: Path)
    decreases Height(l) - |d|
  {
    Entries(l, d) != Entries(r, d)
    || (exists n :: n in Entries(l, d) && d + [n] in l && d + [n] in r && l[d + [n]].data != r[d + [n]].data)
    || (exists n :: n in Entries(l, d) && IsDir(l, d + [n]) && IsDir(r, d + [n]) &&
          (DirBelowHeight(l, d + [n]); MismatchAt(l, r, d + [n])))
  }

  /** `check_folder_mismatch(a, b)`: the comparison of what `dircmp` sees of both folders. */
  predicate CheckFolderMismatch(l: Tree, r: Tree)
  {
    MismatchAt(Visible(l), Visible(r), [])
  }

  /** The listings agree at `d`, and every name that is a file on both sides has the same bytes. */
  predicate LevelAgrees(l: Tree, r: Tree, d: Path)
  {
    Entries(l, d) == Entries(r, d)
    && forall n :: n in Entries(l, d) && d + [n] in l && d + [n] in r ==> l[d + [n]].data == r[d + [n]].data
  }

  /** `d + e` is reached from `d` by descending only into names that are directories on both sides. */
  predicate Descends(l: Tree, r: Tree, d: Path, e: Path)
    decreases |e|
  {
    e == [] ||
    (e[0] in Entries(l, d) && IsDir(l, d + [e[0]]) && IsDir(r, d + [e[0]]) && Descends(l, r, d + [e[0]], e[1..]))
  }

  lemma NoMismatchStep(l: Tree, r: Tree, d: Path, n: string)
    requires !MismatchAt(l, r, d)
    ensures LevelAgrees(l, r, d)
    ensures n in Entries(l, d) && IsDir(l, d + [n]) && IsDir(r, d + [n]) ==> !MismatchAt(l, r, d + [n])
  {
    if IsDir(l, d + [n]) { DirBelowHeight(l, d + [n]); }
  }

  /** A path below `d` is `d`, its first step, and the rest. */
  lemma StepPath(d: Path, e: Path)
    requires e != []
    ensures d + [e[0]] + e[1..] == d + e
  {
    assert e == [e[0]] + e[1..];
  }

  lemma {:induction false} LevelsFromNoMismatch(l: Tree, r: Tree, d: Path, e: Path)
    requires !MismatchAt(l, r, d) && Descends(l, r, d, e)
    ensures LevelAgrees(l, r, d + e)
    decreases |e|
  {
    if e == [] {
      NoMismatchStep(l, r, d, "");
      assert d + e == d;
    } else {
      var n := e[0];
      NoMismatchStep(l, r, d, n);
      LevelsFromNoMismatch(l, r, d + [n], e[1..]);
      StepPath(d, e);
    }
  }

  lemma {:induction false} NoMismatchFromLevels(l: Tree, r: Tree, d: Path)
    requires forall e :: Descends(l, r, d, e) ==> LevelAgrees(l, r, d + e)
    ensures !MismatchAt(l, r, d)
    decreases Height(l) - |d|
  {
    assert Descends(l, r, d, []);
    assert d + [] == d;
    assert LevelAgrees(l, r, d);
    forall n | n in Entries(l, d) && IsDir(l, d + [n]) && IsDir(r, d + [n])
      ensures !MismatchAt(l, r, d + [n])
    {
      forall e' | Descends(l, r, d + [n], e') ensures LevelAgrees(l, r, d + [n] + e') {
        var e := [n] + e';
        assert e[0] == n && e[1..] == e';
        assert Descends(l, r, d, e);
        StepPath(d, e);
      }
      DirBelowHeight(l, d + [n]);
      NoMismatchFromLevels(l, r, d + [n]);
    }
  }

  /** No mismatch at `d` exactly when every level the comparison reaches from `d` agrees. */
  lemma MismatchLevels(l: Tree, r: Tree, d: Path)
    ensures !MismatchAt(l, r, d) <==> forall e :: Descends(l, r, d, e) ==> LevelAgrees(l, r, d + e)
  {
    if !MismatchAt(l, r, d) {
      forall e | Descends(l, r, d, e) ensures LevelAgrees(l, r, d + e) {
        LevelsFromNoMismatch(l, r, d, e);
      }
    } else if forall e :: Descends(l, r, d, e) ==> LevelAgrees(l, r, d + e) {
      NoMismatchFromLevels(l, r, d);
    }
  }

  /** Both trees hold the same files with the same bytes (times may differ). */
  predicate SameData(l: Tree, r: Tree)
  {
    l.Keys == r.Keys && forall p :: p in l ==> l[p].data == r[p].data
  }

  /** A name that is a file on one side and a directory on the other. */
  predicate KindClash(l: Tree, r: Tree, q: Path)
  {
    (q in l && IsDir(r, q)) || (IsDir(l, q) && q in r)
  }

  /** The comparison with the `common_funny` names counted as a mismatch. */
  predicate MismatchOrClashAt(l: Tree, r: Tree, d: Path)
    decreases Height(l) - |d|
  {
    Entries(l, d) != Entries(r, d)
    || (exists n :: n in Entries(l, d) && KindClash(l, r, d + [n]))
    || (exists n :: n in Entries(l, d) && d + [n] in l && d + [n] in r && l[d + [n]].data != r[d + [n]].data)
    || (exists n :: n in Entries(l, d) && IsDir(l, d + [n]) && IsDir(r, d + [n]) &&
          (DirBelowHeight(l, d + [n]); MismatchOrClashAt(l, r, d + [n])))
  }

  predicate CheckFolderMismatchFixed(l: Tree, r: Tree)
  {
    MismatchOrClashAt(Visible(l), Visible(r), [])
  }

  /** Every mismatch the source reports is also reported by the corrected comparison. */
  lemma {:induction false} MismatchImpliesFixed(l: Tree, r: Tree, d: Path)
    requires MismatchAt(l, r, d)
    ensures MismatchOrClashAt(l, r, d)
    decreases Height(l) - |d|
  {
    if Entries(l, d) == Entries(r, d)
      && !(exists n :: n in Entries(l, d) && d + [n] in l && d + [n] in r && l[d + [n]].data != r[d + [n]].data) {
      var n :| n in Entries(l, d) && IsDir(l, d + [n]) && IsDir(r, d + [n]) && MismatchAt(l, r, d + [n]);
      DirBelowHeight(l, d + [n]);
      MismatchImpliesFixed(l, r, d + [n]);
    }
  }

  lemma EntriesOfSameKeys(l: Tree, r: Tree, d: Path)
    requires l.Keys == r.Keys
    ensures Entries(l, d) == Entries(r, d)
  {
  }

  /** Trees with the same files and bytes never mismatch, in the corrected comparison. */
  lemma {:induction false} SameDataNoClash(l: Tree, r: Tree, d: Path)
    requires WellFormed(l) && SameData(l, r)
    ensures !MismatchOrClashAt(l, r, d)
    decreases Height(l) - |d|
  {
    EntriesOfSameKeys(l, r, d);
    forall n | n in Entries(l, d) ensures !KindClash(l, r, d + [n]) {
      var q := d + [n];
      forall p | p in l && Below(p, q) ensures q !in l {
        assert |q| < |p| && p[..|q|] == q;
      }
    }
    forall n | n in Entries(l, d) && IsDir(l, d + [n]) && IsDir(r, d + [n])
      ensures !MismatchOrClashAt(l, r, d + [n])
    {
      DirBelowHeight(l, d + [n]);
      SameDataNoClash(l, r, d + [n]);
    }
  }

  /** Hiding the ignored names keeps two trees with the same files alike. */
  lemma VisibleSameData(l: Tree, r: Tree)
    requires SameData(l, r)
    ensures SameData(Visible(l), Visible(r))
  {
    var vl, vr := Visible(l), Visible(r);
    forall p ensures p in vl <==> p in vr {
      assert p in vl <==> p in l && Shown(p);
      assert p in vr <==> p in r && Shown(p);
    }
    assert vl.Keys == vr.Keys;
  }

  /** ... and never in the source's comparison either, so a completed copy never reads as a mismatch. */
  lemma SameDataNoMismatch(l: Tree, r: Tree)
    requires WellFormed(l) && SameData(l, r)
    ensures !CheckFolderMismatch(l, r)
  {
    var vl, vr := Visible(l), Visible(r);
    VisibleWellFormed(l);
    VisibleSameData(l, r);
    SameDataNoClash(vl, vr, []);
    if MismatchAt(vl, vr, []) { MismatchImpliesFixed(vl, vr, []); }
  }

  /** The names of `t` that lie directly in `d`, whichever kind they are. */
  lemma EntryWitness(t: Tree, d: Path, n: string) returns (p: Path)
    requires n in Entries(t, d)
    ensures p in t && Below(p, d) && p[|d|] == n
    ensures |p| == |d| + 1 ==> p == d + [n]
    ensures |p| > |d| + 1 ==> IsDir(t, d + [n])
  {
    p :| p in t && Below(p, d) && p[|d|] == n;
    assert p[..|d| + 1] == d + [n];
    if |p| == |d| + 1 { assert p == p[..|d| + 1]; }
    if |p| > |d| + 1 { assert Below(p, d + [n]); }
  }

  /** What the corrected comparison finding nothing at `d` says about the listing there. */
  lemma FixedListing(l: Tree, r: Tree, d: Path)
    requires !MismatchOrClashAt(l, r, d)
    ensures Entries(l, d) == Entries(r, d)
  {
  }

  /** ... and about one name listed there. */
  lemma FixedHere(l: Tree, r: Tree, d: Path, n: string)
    requires !MismatchOrClashAt(l, r, d) && n in Entries(l, d)
    ensures !KindClash(l, r, d + [n])
    ensures d + [n] in l && d + [n] in r ==> l[d + [n]].data == r[d + [n]].data
  {
  }

  /** ... and about a name that is a directory on both sides. */
  lemma FixedBelow(l: Tree, r: Tree, d: Path, n: string)
    requires !MismatchOrClashAt(l, r, d) && n in Entries(l, d)
    requires IsDir(l, d + [n]) && IsDir(r, d + [n])
    ensures !MismatchOrClashAt(l, r, d + [n])
  {
    DirBelowHeight(l, d + [n]);
  }

  /** A file of `l` inside `d` is in `r` with the same bytes when the corrected comparison finds nothing at `d`. */
  lemma {:induction false} NoClashLeftFile(l: Tree, r: Tree, d: Path, p: Path)
    requires !MismatchOrClashAt(l, r, d)
    requires p in l && Below(p, d)
    ensures p in r && r[p].data == l[p].data
    decreases |p| - |d|
  {
    var n := p[|d|];
    var q := d + [n];
    assert p[..|d| + 1] == q;
    assert n in Entries(l, d);
    FixedListing(l, r, d);
    FixedHere(l, r, d, n);
    var s := EntryWitness(r, d, n);
    if |p| == |d| + 1 {
      assert p == q;
      assert |s| == |d| + 1;
    } else {
      assert Below(p, q);
      assert |s| > |d| + 1;
      FixedBelow(l, r, d, n);
      NoClashLeftFile(l, r, q, p);
    }
  }

  /** A file of `r` inside `d` is in `l` when the corrected comparison finds nothing at `d`. */
  lemma {:induction false} NoClashRightFile(l: Tree, r: Tree, d: Path, p: Path)
    requires !MismatchOrClashAt(l, r, d)
    requires p in r && Below(p, d)
    ensures p in l
    decreases |p| - |d|
  {
    var n := p[|d|];
    var q := d + [n];
    assert p[..|d| + 1] == q;
    assert n in Entries(r, d);
    FixedListing(l, r, d);
    FixedHere(l, r, d, n);
    var s := EntryWitness(l, d, n);
    if |p| == |d| + 1 {
      assert p == q;
      assert |s| == |d| + 1;
    } else {
      assert Below(p, q);
      assert |s| > |d| + 1;
      FixedBelow(l, r, d, n);
      NoClashRightFile(l, r, q, p);
    }
  }

  /**
   * For trees `os.walk` could produce, whose names `dircmp` does not hide, the
   * corrected comparison finds nothing exactly when both hold the same files
   * with the same bytes.
   */
  lemma NoClashSameData(l: Tree, r: Tree)
    requires WellFormed(l) && WellFormed(r)
    requires !MismatchOrClashAt(l, r, [])
    ensures SameData(l, r)
  {
    forall p | p in l ensures p in r && r[p].data == l[p].data {
      assert Below(p, []);
      NoClashLeftFile(l, r, [], p);
    }
    forall p | p in r ensures p in l {
      assert Below(p, []);
      NoClashRightFile(l, r, [], p);
    }
  }

  lemma FixedMismatchExact(l: Tree, r: Tree)
    requires WellFormed(l) && WellFormed(r) && NoIgnoredNames(l) && NoIgnoredNames(r)
    ensures !CheckFolderMismatchFixed(l, r) <==> SameData(l, r)
  {
    assert Visible(l) == l && Visible(r) == r;
    if !MismatchOrClashAt(l, r, []) {
      NoClashSameData(l, r);
    } else if SameData(l, r) {
      SameDataNoClash(l, r, []);
    }
  }

  /**
   * The source's comparison misses a file on one side that is a directory on
   * the other: a save holding file `a` and one holding `a/x` compare equal.
   */
  lemma FileVersusDirectoryUnnoticed()
    ensures var l := map[["a"] := File([1], 0)];
            var r := map[["a", "x"] := File([2], 0)];
            !CheckFolderMismatch(l, r) && CheckFolderMismatchFixed(l, r) && !SameData(l, r)
  {
    var l := map[["a"] := File([1], 0)];
    var r := map[["a", "x"] := File([2], 0)];
    assert Shown(["a"]) && Shown(["a", "x"]);
    assert Visible(l) == l && Visible(r) == r;
    var d: Path := [];
    assert ["a"][..0] == d && ["a", "x"][..0] == d;
    assert Below(["a"], d) && Below(["a", "x"], d);
    assert "a" in Entries(l, d);
    assert "a" in Entries(r, d);
    assert forall p :: p in l ==> p == ["a"];
    assert forall p :: p in r ==> p == ["a", "x"];
    assert Entries(l, d) == {"a"};
    assert Entries(r, d) == {"a"};
    assert d + ["a"] == ["a"];
    assert ["a", "x"][..1] == ["a"];
    assert IsDir(r, ["a"]);
    assert !IsDir(l, ["a"]);
    assert ["a"] !in r;
    assert KindClash(l, r, d + ["a"]);
    assert !MismatchAt(l, r, d);
  }

  /** A tree never mismatches itself, whatever its shape. */
  lemma {:induction false} NoSelfMismatch(t: Tree, d: Path)
    ensures !MismatchAt(t, t, d)
    decreases Height(t) - |d|
  {
    forall n | n in Entries(t, d) && IsDir(t, d + [n])
      ensures !MismatchAt(t, t, d + [n])
    {
      DirBelowHeight(t, d + [n]);
      NoSelfMismatch(t, d + [n]);
    }
  }

  /** `check_folder_mismatch` of a folder and an exact copy of it is false. */
  lemma CopyNeverMismatches(l: Tree, r: Tree)
    requires l == r
    ensures !CheckFolderMismatch(l, r)
  {
    NoSelfMismatch(Visible(l), []);
  }

  // ---- the quantities the sync decision reads ----

  /** The names `os.listdir` returns for the top of the tree. */
  function TopNames(t: Tree): set<string>
  {
    set p | p in t && |p| > 0 :: p[0]
  }

  /** Every file of `local` has a file at the same relative path in `remote` with the same bytes. */
  predicate Covers(local: Tree, remote: Tree)
  {
    forall p :: p in local ==> p in remote && remote[p].data == local[p].data
  }

  /** `datetime(1900, 1, 1)` as seconds since the Unix epoch. */
  const Floor: int := -2208988800

  /** The largest modification time in `t`, or `Floor` when no file is newer. */
  ghost function Latest(t: Tree): (time: int)
    ensures time >= Floor
    ensures forall p :: p in t ==> t[p].mtime <= time
    ensures time == Floor || exists p :: p in t && t[p].mtime == time
  {
    if t == map[] then Floor
    else
      var p :| p in t;
      var rest := Latest(t - {p});
      assert forall q :: q in t && q != p ==> q in t - {p} && (t - {p})[q] == t[q];
      if t[p].mtime > rest then t[p].mtime else rest
  }

  /** The three properties of `Latest` determine it. */
  lemma LatestUnique(t: Tree, time: int)
    requires time >= Floor
    requires forall p :: p in t ==> t[p].mtime <= time
    requires time == Floor || exists p :: p in t && t[p].mtime == time
    ensures time == Latest(t)
  {
  }
}
