/**
 * The string operations of Python that the modelled code relies on
 * (`str.lower`, `str.replace`, `str.split`, `str.join`, `str.strip`,
 * `str.rsplit(sep, 1)`, `int()`/`str()` on integers, `str.isdigit`) and the
 * POSIX flavour of `os.path.join` and `os.path.basename`.
 * Only ASCII letters and digits are given their Python meaning.
 */
module Text {

  import opened Wrappers

  predicate IsUpper(c: char) { 'A' <= c <= 'Z' }

  function LowerChar(c: char): (r: char)
    ensures !IsUpper(r)
    ensures IsUpper(c) ==> r as int == c as int + 32
    ensures !IsUpper(c) ==> r == c
  {
    if IsUpper(c) then (c as int + 32) as char else c
  }

  /** `s.lower()` restricted to ASCII. */
  function Lower(s: string): (r: string)
    ensures |r| == |s|
    ensures forall i :: 0 <= i < |s| ==> r[i] == LowerChar(s[i])
  {
    seq(|s|, i requires 0 <= i < |s| => LowerChar(s[i]))
  }

  lemma LowerIdempotent(s: string)
    ensures Lower(Lower(s)) == Lower(s)
  {
    assert forall i :: 0 <= i < |s| ==> LowerChar(LowerChar(s[i])) == LowerChar(s[i]);
  }

  /** A string with no upper-case letter is its own lower-case form. */
  lemma LowerPlain(s: string)
    requires forall i :: 0 <= i < |s| ==> !IsUpper(s[i])
    ensures Lower(s) == s
  {
  }

  predicate StartsWith(s: string, p: string) { |p| <= |s| && s[..|p|] == p }

  /**
   * `s.replace(pat, rep)`: every non-overlapping occurrence of `pat`, scanning
   * from the left, is replaced; an empty `pat` inserts `rep` around every character.
   */
  function ReplaceAll(s: string, pat: string, rep: string): (r: string)
    decreases |s|
  {
    if |pat| == 0 then
      if s == [] then rep else rep + [s[0]] + ReplaceAll(s[1..], pat, rep)
    else if |s| < |pat| then s
    else if s[..|pat|] == pat then rep + ReplaceAll(s[|pat|..], pat, rep)
    else [s[0]] + ReplaceAll(s[1..], pat, rep)
  }

  /** `s.replace(pat, rep, 1)` for a non-empty `pat`. */
  function ReplaceFirst(s: string, pat: string, rep: string): (r: string)
    requires |pat| > 0
    decreases |s|
  {
    if |s| < |pat| then s
    else if s[..|pat|] == pat then rep + s[|pat|..]
    else [s[0]] + ReplaceFirst(s[1..], pat, rep)
  }

  lemma {:induction false} ReplaceAllAbsent(s: string, pat: string, rep: string)
    requires |pat| > 0
    requires forall i :: 0 <= i < |s| ==> s[i] != pat[0]
    ensures ReplaceAll(s, pat, rep) == s
    decreases |s|
  {
    if |s| >= |pat| {
      assert s[..|pat|][0] == s[0];
      ReplaceAllAbsent(s[1..], pat, rep);
    }
  }

  predicate IsDigit(c: char) { '0' <= c <= '9' }

  /** `s.isdigit()` restricted to ASCII: non-empty and all digits. */
  predicate AllDigits(s: string) { |s| > 0 && forall i :: 0 <= i < |s| ==> IsDigit(s[i]) }

  /** Since a slot number has no letters, `("save" + n).replace("save", "")` gives `n` back. */
  lemma StripSavePrefix(n: string)
    requires forall i :: 0 <= i < |n| ==> IsDigit(n[i])
    ensures ReplaceAll("save" + n, "save", "") == n
  {
    var s := "save" + n;
    assert s[..4] == "save";
    assert s[4..] == n;
    ReplaceAllAbsent(n, "save", "");
  }

  // ---- split and join on one separator character ----

  /** `s.split(c)`: never empty; `""` splits into `[""]`. */
  function Split(s: string, c: char): (r: seq<string>)
    ensures |r| >= 1
  {
    if s == [] then [""]
    else
      var rest := Split(s[1..], c);
      if s[0] == c then [""] + rest else [[s[0]] + rest[0]] + rest[1..]
  }

  /** `c.join(xs)`. */
  function JoinWith(xs: seq<string>, c: char): string
  {
    if |xs| == 0 then "" else if |xs| == 1 then xs[0] else xs[0] + [c] + JoinWith(xs[1..], c)
  }

  lemma {:induction false} JoinCons(xs: seq<string>, c: char)
    requires |xs| >= 2
    ensures JoinWith(xs, c) == xs[0] + [c] + JoinWith(xs[1..], c)
  {
  }

  /** Joining the pieces of a split gives the string back. */
  lemma {:induction false} JoinSplit(s: string, c: char)
    ensures JoinWith(Split(s, c), c) == s
  {
    if s != [] {
      var rest := Split(s[1..], c);
      JoinSplit(s[1..], c);
      if s[0] == c {
        assert Split(s, c) == [""] + rest;
        assert ([""] + rest)[1..] == rest;
      } else {
        var r := [[s[0]] + rest[0]] + rest[1..];
        assert Split(s, c) == r;
        if |rest| >= 2 {
          assert r[1..] == rest[1..];
          assert JoinWith(rest, c) == rest[0] + [c] + JoinWith(rest[1..], c);
        }
      }
    }
  }

  lemma {:induction false} SplitNoSep(s: string, c: char)
    requires c !in s
    ensures Split(s, c) == [s]
  {
    if s != [] {
      SplitNoSep(s[1..], c);
      assert [s[0]] + s[1..] == s;
    }
  }

  lemma {:induction false} SplitAppend(a: string, b: string, c: char)
    requires c !in a
    ensures Split(a + [c] + b, c) == [a] + Split(b, c)
  {
    if a == [] {
      assert a + [c] + b == [c] + b;
      assert ([c] + b)[1..] == b;
    } else {
      var s := a + [c] + b;
      assert s[0] == a[0];
      assert s[1..] == a[1..] + [c] + b;
      SplitAppend(a[1..], b, c);
      assert [a[0]] + a[1..] == a;
    }
  }

  /** A last piece without the separator splits off as the last piece. */
  lemma {:induction false} SplitSnoc(a: string, b: string, c: char)
    requires c !in b
    ensures Split(a + [c] + b, c) == Split(a, c) + [b]
    decreases |a|
  {
    var s := a + [c] + b;
    if a == [] {
      assert s == [c] + b;
      assert s[1..] == b;
      SplitNoSep(b, c);
    } else {
      assert s[0] == a[0];
      assert s[1..] == a[1..] + [c] + b;
      SplitSnoc(a[1..], b, c);
    }
  }

  /** No piece of a split holds the separator. */
  lemma {:induction false} SplitPieces(s: string, c: char)
    ensures forall i :: 0 <= i < |Split(s, c)| ==> c !in Split(s, c)[i]
  {
    if s != [] {
      SplitPieces(s[1..], c);
    }
  }

  /** Splitting a join gives the pieces back when no piece holds the separator. */
  lemma {:induction false} SplitJoin(xs: seq<string>, c: char)
    requires |xs| >= 1
    requires forall i :: 0 <= i < |xs| ==> c !in xs[i]
    ensures Split(JoinWith(xs, c), c) == xs
  {
    if |xs| == 1 {
      SplitNoSep(xs[0], c);
    } else {
      SplitJoin(xs[1..], c);
      SplitAppend(xs[0], JoinWith(xs[1..], c), c);
      assert [xs[0]] + xs[1..] == xs;
    }
  }

  /** The number of times `c` occurs in `s`. */
  function Count(s: string, c: char): (n: nat)
    ensures n <= |s|
    ensures n == 0 <==> c !in s
  {
    if s == [] then 0 else (if s[0] == c then 1 else 0) + Count(s[1..], c)
  }

  lemma {:induction false} SplitLength(s: string, c: char)
    ensures |Split(s, c)| == Count(s, c) + 1
  {
    if s != [] { SplitLength(s[1..], c); }
  }

  lemma {:induction false} CountAppend(a: string, b: string, c: char)
    ensures Count(a + b, c) == Count(a, c) + Count(b, c)
  {
    if a == [] {
      assert a + b == b;
    } else {
      assert (a + b)[1..] == a[1..] + b;
      CountAppend(a[1..], b, c);
    }
  }

  /** The separators of a join: one between each pair of pieces, plus the ones inside them. */
  function CountAll(xs: seq<string>, c: char): nat
  {
    if xs == [] then 0 else Count(xs[0], c) + CountAll(xs[1..], c)
  }

  lemma {:induction false} CountJoin(xs: seq<string>, c: char)
    requires |xs| >= 1
    ensures Count(JoinWith(xs, c), c) == |xs| - 1 + CountAll(xs, c)
  {
    if |xs| >= 2 {
      CountJoin(xs[1..], c);
      CountAppend(xs[0] + [c], JoinWith(xs[1..], c), c);
      CountAppend(xs[0], [c], c);
      assert xs[0] + [c] + JoinWith(xs[1..], c) == (xs[0] + [c]) + JoinWith(xs[1..], c);
    }
  }

  lemma {:induction false} CountAllZero(xs: seq<string>, c: char)
    ensures CountAll(xs, c) == 0 <==> forall i :: 0 <= i < |xs| ==> c !in xs[i]
  {
    if xs != [] {
      CountAllZero(xs[1..], c);
      assert forall i :: 1 <= i < |xs| ==> xs[i] == xs[1..][i - 1];
    }
  }

  // ---- other string helpers ----

  /** `s.strip(c)`: every leading and trailing `c` removed. */
  function Strip(s: string, c: char): (r: string)
    ensures |r| <= |s|
    ensures r != [] ==> r[0] != c && r[|r| - 1] != c
    decreases |s|
  {
    if s == [] then []
    else if s[0] == c then Strip(s[1..], c)
    else if s[|s| - 1] == c then Strip(s[..|s| - 1], c)
    else s
  }

  /** The index of the last `c` in `s`, which must hold one. */
  function LastIndex(s: string, c: char): (i: nat)
    requires c in s
    ensures i < |s| && s[i] == c && c !in s[i + 1..]
  {
    if s[|s| - 1] == c then |s| - 1
    else
      assert c in s[..|s| - 1] by { var k :| 0 <= k < |s| && s[k] == c; assert s[..|s| - 1][k] == c; }
      var i := LastIndex(s[..|s| - 1], c);
      assert s[i + 1..] == s[..|s| - 1][i + 1..] + [s[|s| - 1]];
      i
  }

  /** `s.rsplit(c, 1)[0]`: everything before the last `c`, or all of `s` when it has none. */
  function RSplitHead(s: string, c: char): (r: string)
    ensures c !in s ==> r == s
    ensures c in s ==> exists t :: s == r + [c] + t && c !in t
  {
    if c in s then
      var i := LastIndex(s, c);
      assert s == s[..i] + [c] + s[i + 1..];
      s[..i]
    else s
  }

  // ---- integers ----

  function DigitChar(d: nat): (c: char)
    requires d < 10
    ensures IsDigit(c)
  {
    ('0' as int + d) as char
  }

  function DigitValue(c: char): (d: nat)
    requires IsDigit(c)
    ensures d < 10
  {
    c as int - '0' as int
  }

  /** `str(n)` for a natural number. */
  function NatToString(n: nat): (s: string)
    ensures AllDigits(s)
  {
    if n < 10 then [DigitChar(n)] else NatToString(n / 10) + [DigitChar(n % 10)]
  }

  /** The value of a string of decimal digits. */
  function DigitsValue(s: string): nat
    requires forall i :: 0 <= i < |s| ==> IsDigit(s[i])
  {
    if s == [] then 0 else DigitsValue(s[..|s| - 1]) * 10 + DigitValue(s[|s| - 1])
  }

  lemma {:induction false} DigitsOfNat(n: nat)
    ensures DigitsValue(NatToString(n)) == n
  {
    var s := NatToString(n);
    if n >= 10 {
      DigitsOfNat(n / 10);
      assert s[..|s| - 1] == NatToString(n / 10);
    }
  }

  /** `str(i)`. */
  function IntToString(i: int): string
  {
    if i < 0 then "-" + NatToString(-i) else NatToString(i)
  }

  /** `int(s)` for an optional sign followed by decimal digits; anything else is a `ValueError`, here `None`. */
  function ParseInt(s: string): (r: Option<int>)
    ensures r.Some? ==> |s| > 0
    ensures AllDigits(s) ==> r == Some(DigitsValue(s) as int)
  {
    if |s| > 0 && (s[0] == '-' || s[0] == '+') && AllDigits(s[1..]) then
      var m: int := DigitsValue(s[1..]);
      var v: int := if s[0] == '-' then -m else m;
      Some(v)
    else if AllDigits(s) then Some(DigitsValue(s))
    else None
  }

  /** `int(str(i)) == i`. */
  lemma ParseIntToString(i: int)
    ensures ParseInt(IntToString(i)) == Some(i)
  {
    if i < 0 {
      var s := IntToString(i);
      assert s[1..] == NatToString(-i);
      DigitsOfNat(-i);
    } else {
      DigitsOfNat(i);
    }
  }

  // ---- paths ----

  /** `os.path.join(a, b)` on POSIX: an absolute `b` replaces `a`; a `/` is added only when `a` lacks one. */
  function PathJoin(a: string, b: string): string
  {
    if StartsWith(b, "/") then b
    else if a == [] || a[|a| - 1] == '/' then a + b
    else a + "/" + b
  }

  /** `os.path.basename(p)` on POSIX: what follows the last `/`. */
  function Basename(p: string): (r: string)
    ensures '/' !in r
    ensures '/' in p ==> exists h :: p == h + r && h[|h| - 1] == '/'
    ensures '/' !in p ==> r == p
  {
    if '/' in p then
      var i := LastIndex(p, '/');
      assert p == p[..i + 1] + p[i + 1..];
      p[i + 1..]
    else p
  }

  /**
   * The two spellings of a slot folder agree, `join(root, pid + "/save" + n)` and
   * `join(root, pid, "save" + n)`, provided the id neither starts nor ends with `/`.
   */
  lemma SlotPathSpellings(root: string, pid: string, n: string)
    requires pid != [] && pid[0] != '/' && pid[|pid| - 1] != '/'
    ensures PathJoin(root, pid + "/save" + n) == PathJoin(PathJoin(root, pid), "save" + n)
  {
    var b := pid + "/save" + n;
    assert b[..1] == [pid[0]];
    assert pid[..1] == [pid[0]];
    var inner := PathJoin(root, pid);
    assert inner[|inner| - 1] == pid[|pid| - 1];
    assert ("save" + n)[..1] == "s";
  }
}
