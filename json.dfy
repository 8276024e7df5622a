/**
 * The JSON documents the config editor reads with `json.load`, what its
 * `flatten_json` makes of them, and the in-place assignment its save uses
 * (components/config_editor.py). Numbers are integers only.
 */
module Json {

  import opened Wrappers
  import Text

  datatype Json =
    | Obj(members: seq<Member>)
    | Arr(items: seq<Json>)
    | Str(s: string)
    | Num(n: int)
    | Bool(b: bool)
    | Null

  datatype Member = Member(key: string, value: Json)

  /** Everything but an object or a list: the values `flatten` stores. */
  predicate IsLeaf(j: Json) { !j.Obj? && !j.Arr? }

  /** The position of the member named `k`; in a document `json.load` built there is at most one. */
  function Find(ms: seq<Member>, k: string): (r: Option<nat>)
    ensures r.Some? ==> r.value < |ms| && ms[r.value].key == k
    ensures r.Some? ==> forall j :: 0 <= j < r.value ==> ms[j].key != k
    ensures r.None? ==> forall j :: 0 <= j < |ms| ==> ms[j].key != k
  {
    if ms == [] then None
    else if ms[0].key == k then Some(0)
    else match Find(ms[1..], k)
      case None => None
      case Some(i) => Some(i + 1)
  }

  /** Where no key repeats, each member is the one found under its key. */
  lemma FindDistinct(ms: seq<Member>, i: nat)
    requires i < |ms|
    requires forall a, b :: 0 <= a < b < |ms| ==> ms[a].key != ms[b].key
    ensures Find(ms, ms[i].key) == Some(i)
  {
    var f := Find(ms, ms[i].key);
    assert f.Some? && !(f.value < i) && !(i < f.value);
  }

  /** What `json.load` produces: no object repeats a key. */
  predicate WellFormed(j: Json)
  {
    match j
    case Obj(ms) =>
      (forall a, b :: 0 <= a < b < |ms| ==> ms[a].key != ms[b].key)
      && forall i :: 0 <= i < |ms| ==> WellFormed(ms[i].value)
    case Arr(xs) => forall i :: 0 <= i < |xs| ==> WellFormed(xs[i])
    case _ => true
  }

  /** No object key holds a `/`, so joined keys can be split back into steps. */
  predicate SlashFree(j: Json)
  {
    match j
    case Obj(ms) => forall i :: 0 <= i < |ms| ==> '/' !in ms[i].key && SlashFree(ms[i].value)
    case Arr(xs) => forall i :: 0 <= i < |xs| ==> SlashFree(xs[i])
    case _ => true
  }

  // ---- paths into a document ----

  datatype Step = Field(name: string) | Index(i: nat)

  /** A dict key as itself, a list position as `str(i)`. */
  function StepText(s: Step): string
  {
    match s
    case Field(k) => k
    case Index(i) => Text.IntToString(i)
  }

  function Texts(p: seq<Step>): (ts: seq<string>)
    ensures |ts| == |p|
    ensures forall i :: 0 <= i < |p| ==> ts[i] == StepText(p[i])
  {
    seq(|p|, i requires 0 <= i < |p| => StepText(p[i]))
  }

  /** The key `flatten` gives the value at `p`: the steps joined by `/`. */
  function KeyOf(p: seq<Step>): string { Text.JoinWith(Texts(p), '/') }

  /** The value found by following `p`, if every step exists. */
  function At(j: Json, p: seq<Step>): Option<Json>
    decreases |p|
  {
    if p == [] then Some(j)
    else match p[0]
      case Field(k) =>
        if j.Obj? && Find(j.members, k).Some? then At(j.members[Find(j.members, k).value].value, p[1..]) else None
      case Index(i) =>
        if j.Arr? && i < |j.items| then At(j.items[i], p[1..]) else None
  }

  predicate LeafPath(j: Json, p: seq<Step>) { At(j, p).Some? && IsLeaf(At(j, p).value) }

  // ---- Python dicts, which keep insertion order ----

  datatype Entry = Entry(key: string, value: Json)

  type Dict = seq<Entry>

  function KeySet(d: Dict): set<string> { set i | 0 <= i < |d| :: d[i].key }

  predicate Distinct(d: Dict) { forall a, b :: 0 <= a < b < |d| ==> d[a].key != d[b].key }

  lemma KeySetCons(e: Entry, d: Dict)
    ensures KeySet([e] + d) == {e.key} + KeySet(d)
  {
    var l := [e] + d;
    assert l[0] == e;
    forall x | x in KeySet(l) ensures x in {e.key} + KeySet(d) {
      var i :| 0 <= i < |l| && l[i].key == x;
      if i > 0 { assert d[i - 1] == l[i]; }
    }
    forall x | x in KeySet(d) ensures x in KeySet(l) {
      var i :| 0 <= i < |d| && d[i].key == x;
      assert l[i + 1] == d[i];
    }
  }

  /** `d.get(k)`. */
  function Lookup(d: Dict, k: string): (r: Option<Json>)
    ensures r.Some? <==> k in KeySet(d)
    ensures r.Some? ==> Entry(k, r.value) in d
  {
    if d == [] then None
    else if d[0].key == k then Some(d[0].value)
    else
      var r := Lookup(d[1..], k);
      assert d == [d[0]] + d[1..];
      KeySetCons(d[0], d[1..]);
      r
  }

  /** What a dict with `e` in front of `d` holds. */
  lemma ConsFacts(e: Entry, d: Dict)
    ensures KeySet([e] + d) == {e.key} + KeySet(d)
    ensures forall k :: Lookup([e] + d, k) == if e.key == k then Some(e.value) else Lookup(d, k)
    ensures Distinct([e] + d) <==> e.key !in KeySet(d) && Distinct(d)
    ensures forall x :: x in [e] + d <==> x == e || x in d
  {
    var l := [e] + d;
    assert l[0] == e && l[1..] == d;
    KeySetCons(e, d);
    assert forall i :: 0 <= i < |d| ==> l[i + 1] == d[i];
    if Distinct(l) {
      forall a, b | 0 <= a < b < |d| ensures d[a].key != d[b].key {
        assert l[a + 1].key != l[b + 1].key;
      }
    }
  }

  /** What `d[k] = v` promises of the dict `r` it leaves. */
  ghost predicate PutResult(d: Dict, k: string, v: Json, r: Dict)
  {
    && KeySet(r) == KeySet(d) + {k}
    && Lookup(r, k) == Some(v)
    && (forall k' :: k' != k ==> Lookup(r, k') == Lookup(d, k'))
    && (Distinct(d) ==> Distinct(r))
    && (forall i :: 0 <= i < |r| ==> r[i] in d || r[i] == Entry(k, v))
  }

  lemma PutInto(k: string, v: Json)
    ensures PutResult([], k, v, [Entry(k, v)])
  {
    ConsFacts(Entry(k, v), []);
    assert [Entry(k, v)] + [] == [Entry(k, v)];
  }

  lemma PutOver(e: Entry, tail: Dict, k: string, v: Json)
    requires e.key == k
    ensures PutResult([e] + tail, k, v, [Entry(k, v)] + tail)
  {
    ConsFacts(e, tail);
    ConsFacts(Entry(k, v), tail);
  }

  lemma PutBehind(e: Entry, tail: Dict, k: string, v: Json, rest: Dict)
    requires e.key != k && PutResult(tail, k, v, rest)
    ensures PutResult([e] + tail, k, v, [e] + rest)
  {
    ConsFacts(e, tail);
    ConsFacts(e, rest);
  }

  /** `d[k] = v`: an existing key keeps its place, a new one goes last. */
  function Put(d: Dict, k: string, v: Json): (r: Dict)
    ensures KeySet(r) == KeySet(d) + {k}
    ensures Lookup(r, k) == Some(v)
    ensures forall k' :: k' != k ==> Lookup(r, k') == Lookup(d, k')
    ensures Distinct(d) ==> Distinct(r)
    ensures forall i :: 0 <= i < |r| ==> r[i] in d || r[i] == Entry(k, v)
  {
    if d == [] then
      PutInto(k, v);
      [Entry(k, v)]
    else
      var e, tail := d[0], d[1..];
      assert d == [e] + tail;
      if e.key == k then
        PutOver(e, tail, k, v);
        [Entry(k, v)] + tail
      else
        var rest := Put(tail, k, v);
        PutBehind(e, tail, k, v, rest);
        [e] + rest
  }

  /** The entries `es` assigned into `d` one after the other. */
  function PutAll(d: Dict, es: seq<Entry>): Dict
    decreases |es|
  {
    if es == [] then d else PutAll(Put(d, es[0].key, es[0].value), es[1..])
  }

  lemma {:induction false} PutAllAppend(d: Dict, a: seq<Entry>, b: seq<Entry>)
    ensures PutAll(d, a + b) == PutAll(PutAll(d, a), b)
    decreases |a|
  {
    if a == [] {
      assert a + b == b;
    } else {
      assert (a + b)[0] == a[0];
      assert (a + b)[1..] == a[1..] + b;
      PutAllAppend(Put(d, a[0].key, a[0].value), a[1..], b);
    }
  }

  /** Every key assigned is present afterwards, and nothing else. */
  lemma {:induction false} PutAllKeys(d: Dict, es: seq<Entry>)
    ensures KeySet(PutAll(d, es)) == KeySet(d) + KeySet(es)
    decreases |es|
  {
    if es != [] {
      var d' := Put(d, es[0].key, es[0].value);
      assert PutAll(d, es) == PutAll(d', es[1..]);
      PutAllKeys(d', es[1..]);
      KeySetFirst(es);
    }
  }

  lemma KeySetFirst(es: seq<Entry>)
    requires es != []
    ensures KeySet(es) == {es[0].key} + KeySet(es[1..])
  {
    assert es == [es[0]] + es[1..];
    KeySetCons(es[0], es[1..]);
  }

  /** Every entry of the result was already in `d` or is one of those assigned. */
  lemma {:induction false} PutAllFrom(d: Dict, es: seq<Entry>)
    ensures forall i :: 0 <= i < |PutAll(d, es)| ==> PutAll(d, es)[i] in d || PutAll(d, es)[i] in es
    decreases |es|
  {
    if es != [] {
      var d' := Put(d, es[0].key, es[0].value);
      PutAllFrom(d', es[1..]);
      forall i | 0 <= i < |PutAll(d, es)| ensures PutAll(d, es)[i] in d || PutAll(d, es)[i] in es {
        var e := PutAll(d, es)[i];
        if e in es[1..] {
          var j :| 0 <= j < |es[1..]| && es[1..][j] == e;
          assert es[j + 1] == e;
        }
      }
    }
  }

  lemma {:induction false} PutAllDistinct(d: Dict, es: seq<Entry>)
    requires Distinct(d)
    ensures Distinct(PutAll(d, es))
    decreases |es|
  {
    if es != [] {
      PutAllDistinct(Put(d, es[0].key, es[0].value), es[1..]);
    }
  }

  // ---- flatten_json ----

  /** `name[:-1]`. */
  function Chop(s: string): string { if s == [] then s else s[..|s| - 1] }

  /** The name `flatten` has built after the steps `ts`: each followed by a `/`. */
  function Slashed(ts: seq<string>): string
  {
    if ts == [] then "" else ts[0] + "/" + Slashed(ts[1..])
  }

  lemma {:induction false} ChopSlashed(ts: seq<string>)
    ensures Chop(Slashed(ts)) == Text.JoinWith(ts, '/')
  {
    if |ts| == 1 {
      assert Slashed(ts) == ts[0] + "/";
    } else if |ts| >= 2 {
      ChopSlashed(ts[1..]);
      var rest := Slashed(ts[1..]);
      assert rest != [];
      assert Chop(ts[0] + "/" + rest) == ts[0] + "/" + Chop(rest);
      Text.JoinCons(ts, '/');
    }
  }

  /**
   * The assignments `flatten(x, name)` makes, in the order it makes them:
   * dict members and list items in order, one leaf at a time.
   */
  function Leaves(x: Json, name: string): seq<Entry>
    decreases x, 1
  {
    match x
    case Obj(_) => FieldLeaves(x, 0, name)
    case Arr(_) => ItemLeaves(x, 0, name)
    case _ => [Entry(Chop(name), x)]
  }

  function FieldLeaves(x: Json, i: nat, name: string): seq<Entry>
    requires x.Obj? && i <= |x.members|
    decreases x, 0, |x.members| - i
  {
    if i == |x.members| then []
    else Leaves(x.members[i].value, name + x.members[i].key + "/") + FieldLeaves(x, i + 1, name)
  }

  function ItemLeaves(x: Json, i: nat, name: string): seq<Entry>
    requires x.Arr? && i <= |x.items|
    decreases x, 0, |x.items| - i
  {
    if i == |x.items| then []
    else Leaves(x.items[i], name + Text.IntToString(i) + "/") + ItemLeaves(x, i + 1, name)
  }

  /** `flatten_json(y)`. */
  function Flattened(y: Json): Dict { PutAll([], Leaves(y, "")) }

  /** Lines 202-212: the inner `flatten`, filling `out` as it recurses. */
  method Flatten(x: Json, name: string, out: Dict) returns (r: Dict)
    ensures r == PutAll(out, Leaves(x, name))
    decreases x
  {
    match x
    case Obj(ms) =>
      r := out;
      for i := 0 to |ms|
        invariant PutAll(out, Leaves(x, name)) == PutAll(r, FieldLeaves(x, i, name))
      {
        PutAllAppend(r, Leaves(ms[i].value, name + ms[i].key + "/"), FieldLeaves(x, i + 1, name));
        r := Flatten(ms[i].value, name + ms[i].key + "/", r);
      }
    case Arr(xs) =>
      r := out;
      for i := 0 to |xs|
        invariant PutAll(out, Leaves(x, name)) == PutAll(r, ItemLeaves(x, i, name))
      {
        PutAllAppend(r, Leaves(xs[i], name + Text.IntToString(i) + "/"), ItemLeaves(x, i + 1, name));
        r := Flatten(xs[i], name + Text.IntToString(i) + "/", r);
      }
    case _ =>
      r := Put(out, Chop(name), x);
  }

  /** Lines 199-215. */
  method FlattenJson(y: Json) returns (out: Dict)
    ensures out == Flattened(y)
  {
    out := Flatten(y, "", []);
  }

  // ---- what the flattened dict holds ----

  /** Every assignment `flatten` makes stores a leaf under the name of a path that reaches it. */
  lemma {:induction false} LeavesSound(x: Json, name: string, k: nat)
    requires WellFormed(x)
    requires k < |Leaves(x, name)|
    ensures IsLeaf(Leaves(x, name)[k].value)
    ensures exists p :: At(x, p) == Some(Leaves(x, name)[k].value) && Leaves(x, name)[k].key == Chop(name + Slashed(Texts(p)))
    decreases x, 1
  {
    match x
    case Obj(_) => FieldLeavesSound(x, 0, name, k);
    case Arr(_) => ItemLeavesSound(x, 0, name, k);
    case _ =>
      var p: seq<Step> := [];
      assert At(x, p) == Some(x);
      assert name + Slashed(Texts(p)) == name;
  }

  /** One step from `x` to its child `c`, then on along `q`. */
  lemma StepDown(x: Json, c: Json, st: Step, q: seq<Step>, name: string)
    requires At(x, [st]) == Some(c)
    ensures At(x, [st] + q) == At(c, q)
    ensures name + Slashed(Texts([st] + q)) == name + StepText(st) + "/" + Slashed(Texts(q))
  {
    StepDownAt(x, c, st, q);
    StepDownName(st, q);
  }

  lemma StepDownAt(x: Json, c: Json, st: Step, q: seq<Step>)
    requires At(x, [st]) == Some(c)
    ensures At(x, [st] + q) == At(c, q)
  {
    var p := [st] + q;
    assert p[0] == st && p[1..] == q;
    assert [st][1..] == [];
  }

  lemma StepDownName(st: Step, q: seq<Step>)
    ensures Slashed(Texts([st] + q)) == StepText(st) + "/" + Slashed(Texts(q))
  {
    var ts := Texts([st] + q);
    assert ts[0] == StepText(st);
    assert ts[1..] == Texts(q);
  }

  lemma {:induction false} FieldLeavesSound(x: Json, i: nat, name: string, k: nat)
    requires x.Obj? && i <= |x.members| && WellFormed(x)
    requires k < |FieldLeaves(x, i, name)|
    ensures IsLeaf(FieldLeaves(x, i, name)[k].value)
    ensures exists p :: At(x, p) == Some(FieldLeaves(x, i, name)[k].value) && FieldLeaves(x, i, name)[k].key == Chop(name + Slashed(Texts(p)))
    decreases x, 0, |x.members| - i
  {
    var m := x.members[i];
    var inner := name + m.key + "/";
    var head, rest := Leaves(m.value, inner), FieldLeaves(x, i + 1, name);
    var all := FieldLeaves(x, i, name);
    assert all == head + rest;
    if k < |head| {
      assert all[k] == head[k];
      LeavesSound(m.value, inner, k);
      var q :| At(m.value, q) == Some(head[k].value) && head[k].key == Chop(inner + Slashed(Texts(q)));
      FindDistinct(x.members, i);
      StepDown(x, m.value, Field(m.key), q, name);
      var p := [Field(m.key)] + q;
      assert At(x, p) == Some(all[k].value) && all[k].key == Chop(name + Slashed(Texts(p)));
    } else {
      assert all[k] == rest[k - |head|];
      FieldLeavesSound(x, i + 1, name, k - |head|);
    }
  }

  lemma {:induction false} ItemLeavesSound(x: Json, i: nat, name: string, k: nat)
    requires x.Arr? && i <= |x.items| && WellFormed(x)
    requires k < |ItemLeaves(x, i, name)|
    ensures IsLeaf(ItemLeaves(x, i, name)[k].value)
    ensures exists p :: At(x, p) == Some(ItemLeaves(x, i, name)[k].value) && ItemLeaves(x, i, name)[k].key == Chop(name + Slashed(Texts(p)))
    decreases x, 0, |x.items| - i
  {
    var inner := name + Text.IntToString(i) + "/";
    var head, rest := Leaves(x.items[i], inner), ItemLeaves(x, i + 1, name);
    var all := ItemLeaves(x, i, name);
    assert all == head + rest;
    if k < |head| {
      assert all[k] == head[k];
      LeavesSound(x.items[i], inner, k);
      var q :| At(x.items[i], q) == Some(head[k].value) && head[k].key == Chop(inner + Slashed(Texts(q)));
      StepDown(x, x.items[i], Index(i), q, name);
      var p := [Index(i)] + q;
      assert At(x, p) == Some(all[k].value) && all[k].key == Chop(name + Slashed(Texts(p)));
    } else {
      assert all[k] == rest[k - |head|];
      ItemLeavesSound(x, i + 1, name, k - |head|);
    }
  }

  /** Every leaf of the document is assigned, under the name of its path. */
  lemma {:induction false} LeavesComplete(x: Json, name: string, p: seq<Step>)
    requires LeafPath(x, p)
    ensures Entry(Chop(name + Slashed(Texts(p))), At(x, p).value) in Leaves(x, name)
    decreases x, 1
  {
    if p == [] {
      assert name + Slashed(Texts(p)) == name;
    } else {
      match p[0]
      case Field(k) => FieldLeavesComplete(x, 0, name, p);
      case Index(i) => ItemLeavesComplete(x, 0, name, p);
    }
  }

  lemma {:induction false} FieldLeavesComplete(x: Json, j: nat, name: string, p: seq<Step>)
    requires LeafPath(x, p) && p != [] && p[0].Field? && x.Obj?
    requires j <= Find(x.members, p[0].name).value
    ensures Entry(Chop(name + Slashed(Texts(p))), At(x, p).value) in FieldLeaves(x, j, name)
    decreases x, 0, |x.members| - j
  {
    var m := x.members[j];
    var inner := name + m.key + "/";
    assert FieldLeaves(x, j, name) == Leaves(m.value, inner) + FieldLeaves(x, j + 1, name);
    if j == Find(x.members, p[0].name).value {
      var q := p[1..];
      assert At(x, p) == At(m.value, q);
      LeavesComplete(m.value, inner, q);
      assert Texts(p)[1..] == Texts(q);
      assert name + Slashed(Texts(p)) == inner + Slashed(Texts(q));
    } else {
      FieldLeavesComplete(x, j + 1, name, p);
    }
  }

  lemma {:induction false} ItemLeavesComplete(x: Json, j: nat, name: string, p: seq<Step>)
    requires LeafPath(x, p) && p != [] && p[0].Index? && x.Arr?
    requires j <= p[0].i
    ensures Entry(Chop(name + Slashed(Texts(p))), At(x, p).value) in ItemLeaves(x, j, name)
    decreases x, 0, |x.items| - j
  {
    var inner := name + Text.IntToString(j) + "/";
    assert ItemLeaves(x, j, name) == Leaves(x.items[j], inner) + ItemLeaves(x, j + 1, name);
    if j == p[0].i {
      var q := p[1..];
      assert At(x, p) == At(x.items[j], q);
      LeavesComplete(x.items[j], inner, q);
      assert Texts(p)[1..] == Texts(q);
      assert name + Slashed(Texts(p)) == inner + Slashed(Texts(q));
    } else {
      ItemLeavesComplete(x, j + 1, name, p);
    }
  }

  /** Containers make no entries: every flattened value is a leaf reached by the path its key names. */
  lemma FlattenedSound(y: Json, i: nat)
    requires WellFormed(y)
    requires i < |Flattened(y)|
    ensures IsLeaf(Flattened(y)[i].value)
    ensures exists p :: At(y, p) == Some(Flattened(y)[i].value) && Flattened(y)[i].key == KeyOf(p)
  {
    var es := Leaves(y, "");
    PutAllFrom([], es);
    var k :| 0 <= k < |es| && es[k] == Flattened(y)[i];
    LeavesSound(y, "", k);
    var p :| At(y, p) == Some(es[k].value) && es[k].key == Chop("" + Slashed(Texts(p)));
    assert "" + Slashed(Texts(p)) == Slashed(Texts(p));
    ChopSlashed(Texts(p));
  }

  /** Every leaf of the document is a key of the flattened dict. */
  lemma FlattenedComplete(y: Json, p: seq<Step>)
    requires LeafPath(y, p)
    ensures KeyOf(p) in KeySet(Flattened(y))
  {
    var es := Leaves(y, "");
    LeavesComplete(y, "", p);
    assert "" + Slashed(Texts(p)) == Slashed(Texts(p));
    ChopSlashed(Texts(p));
    var k :| 0 <= k < |es| && es[k] == Entry(KeyOf(p), At(y, p).value);
    PutAllKeys([], es);
  }

  /** A flattened key has no duplicate. */
  lemma FlattenedDistinct(y: Json)
    ensures Distinct(Flattened(y))
  {
    PutAllDistinct([], Leaves(y, ""));
  }

  // ---- the keys of a slash-free document name one leaf each ----

  lemma {:induction false} TextsOfReachable(x: Json, p: seq<Step>)
    requires SlashFree(x) && At(x, p).Some?
    ensures forall i :: 0 <= i < |p| ==> '/' !in Texts(p)[i]
    decreases |p|
  {
    if p != [] {
      var child := match p[0] case Field(k) => x.members[Find(x.members, k).value].value case Index(i) => x.items[i];
      assert At(x, p) == At(child, p[1..]);
      TextsOfReachable(child, p[1..]);
      forall i | 0 <= i < |p| ensures '/' !in Texts(p)[i] {
        if i > 0 {
          assert Texts(p)[i] == Texts(p[1..])[i - 1];
        } else if p[0].Index? {
          var s := Text.NatToString(p[0].i);
          assert forall c :: 0 <= c < |s| ==> s[c] != '/';
        }
      }
    }
  }

  lemma {:induction false} TextsDetermine(x: Json, p: seq<Step>, q: seq<Step>)
    requires LeafPath(x, p) && LeafPath(x, q) && Texts(p) == Texts(q)
    ensures p == q
    decreases |p|
  {
    if p != [] {
      assert StepText(p[0]) == StepText(q[0]);
      var child: Json;
      if x.Obj? {
        assert p[0].Field? && q[0].Field?;
        child := x.members[Find(x.members, p[0].name).value].value;
      } else {
        assert x.Arr? && p[0].Index? && q[0].Index?;
        Text.ParseIntToString(p[0].i);
        Text.ParseIntToString(q[0].i);
        child := x.items[p[0].i];
      }
      assert p[0] == q[0];
      assert At(x, p) == At(child, p[1..]) && At(x, q) == At(child, q[1..]);
      assert Texts(p[1..]) == Texts(p)[1..] == Texts(q)[1..] == Texts(q[1..]);
      TextsDetermine(child, p[1..], q[1..]);
      assert p == [p[0]] + p[1..] && q == [q[0]] + q[1..];
    }
  }

  /** In a slash-free document two leaves never share a flattened key. */
  lemma KeyDetermines(x: Json, p: seq<Step>, q: seq<Step>)
    requires SlashFree(x) && LeafPath(x, p) && LeafPath(x, q) && KeyOf(p) == KeyOf(q)
    ensures p == q
  {
    if p == [] || q == [] {
      // a leaf has nothing below it
    } else {
      TextsOfReachable(x, p);
      TextsOfReachable(x, q);
      Text.SplitJoin(Texts(p), '/');
      Text.SplitJoin(Texts(q), '/');
      TextsDetermine(x, p, q);
    }
  }

  /** In a slash-free document, `flatten_json` maps the name of every leaf's path to that leaf. */
  lemma FlattenedValue(y: Json, p: seq<Step>)
    requires WellFormed(y) && SlashFree(y) && LeafPath(y, p)
    ensures Lookup(Flattened(y), KeyOf(p)) == At(y, p)
  {
    var f := Flattened(y);
    FlattenedComplete(y, p);
    var v := Lookup(f, KeyOf(p)).value;
    var i :| 0 <= i < |f| && f[i] == Entry(KeyOf(p), v);
    FlattenedSound(y, i);
    var q :| At(y, q) == Some(v) && KeyOf(p) == KeyOf(q);
    KeyDetermines(y, p, q);
  }

  // ---- sections ----

  /** `key.rsplit('/', 1)[0]`. */
  function Section(key: string): string { Text.RSplitHead(key, '/') }

  /** Line 236: the section list of a JSON file. */
  function Sections(f: Dict): set<string> { set i | 0 <= i < |f| :: Section(f[i].key) }

  /** The key of the container holding the leaf at `p`, or the leaf's own key at the top level. */
  function ParentKey(p: seq<Step>): string
  {
    if |p| <= 1 then KeyOf(p) else KeyOf(p[..|p| - 1])
  }

  lemma {:induction false} JoinSnoc(xs: seq<string>, x: string)
    requires |xs| >= 1
    ensures Text.JoinWith(xs + [x], '/') == Text.JoinWith(xs, '/') + "/" + x
    decreases |xs|
  {
    if |xs| == 1 {
      assert Text.JoinWith(xs + [x], '/') == (xs + [x])[0] + ['/'] + Text.JoinWith((xs + [x])[1..], '/');
      assert (xs + [x])[1..] == [x];
    } else {
      JoinSnoc(xs[1..], x);
      assert (xs + [x])[1..] == xs[1..] + [x];
      Text.JoinCons(xs + [x], '/');
      Text.JoinCons(xs, '/');
    }
  }

  lemma RSplitHeadOf(a: string, b: string)
    requires '/' !in b
    ensures Text.RSplitHead(a + "/" + b, '/') == a
  {
    var s := a + "/" + b;
    assert s[|a|] == '/';
    var i := Text.LastIndex(s, '/');
    forall k | i < k < |s| ensures s[k] != '/' {
      assert s[i + 1..][k - i - 1] == s[k];
    }
    assert forall k :: |a| < k < |s| ==> s[k] == b[k - |a| - 1];
    assert i == |a|;
    assert s[..|a|] == a;
  }

  /** The section of a leaf is the key of the container that holds it. */
  lemma SectionOfLeaf(y: Json, p: seq<Step>)
    requires SlashFree(y) && LeafPath(y, p)
    ensures Section(KeyOf(p)) == ParentKey(p)
  {
    TextsOfReachable(y, p);
    var ts := Texts(p);
    if |p| == 0 {
      assert KeyOf(p) == "";
    } else if |p| == 1 {
      assert KeyOf(p) == ts[0];
    } else {
      var init := p[..|p| - 1];
      assert ts == Texts(init) + [ts[|p| - 1]];
      JoinSnoc(Texts(init), ts[|p| - 1]);
      RSplitHeadOf(KeyOf(init), ts[|p| - 1]);
    }
  }

  /**
   * The section list of a slash-free document is exactly the set of
   * containers holding a leaf, plus the top-level leaves themselves.
   */
  lemma SectionsAreParents(y: Json, s: string)
    requires WellFormed(y) && SlashFree(y)
    ensures s in Sections(Flattened(y)) <==> exists p :: LeafPath(y, p) && ParentKey(p) == s
  {
    var f := Flattened(y);
    if s in Sections(f) {
      var i :| 0 <= i < |f| && Section(f[i].key) == s;
      FlattenedSound(y, i);
      var p :| At(y, p) == Some(f[i].value) && f[i].key == KeyOf(p);
      SectionOfLeaf(y, p);
    }
    if exists p :: LeafPath(y, p) && ParentKey(p) == s {
      var p :| LeafPath(y, p) && ParentKey(p) == s;
      FlattenedComplete(y, p);
      SectionOfLeaf(y, p);
      var i :| 0 <= i < |f| && f[i].key == KeyOf(p);
    }
  }

  // ---- assigning an edited value (save_changes) ----

  /** Lines 358-360: `sub_data = sub_data[sub_key]` for each key; a list or a scalar is a `TypeError`, a missing key a `KeyError`. */
  function Navigate(j: Json, ks: seq<string>): Result<Json>
    decreases |ks|
  {
    if ks == [] then Ok(j)
    else match j
      case Obj(ms) =>
        (match Find(ms, ks[0])
         case Some(i) => Navigate(ms[i].value, ks[1..])
         case None => Err(KeyError))
      case _ => Err(TypeError)
  }

  /** `ms[k] = v` on a dict: an existing member keeps its place, a new one goes last. */
  function Upsert(ms: seq<Member>, k: string, v: Json): seq<Member>
  {
    match Find(ms, k)
    case Some(i) => ms[i := Member(k, v)]
    case None => ms + [Member(k, v)]
  }

  /** Line 379: `sub_data[keys[-1]] = value` on the dict reached by the other keys; the document is otherwise left alone. */
  function Update(j: Json, ks: seq<string>, v: Json): Json
    requires |ks| >= 1
    decreases |ks|
  {
    match j
    case Obj(ms) =>
      if |ks| == 1 then Obj(Upsert(ms, ks[0], v))
      else
        (match Find(ms, ks[0])
         case Some(i) => Obj(ms[i := Member(ks[0], Update(ms[i].value, ks[1..], v))])
         case None => j)
    case _ => j
  }

  lemma FindUpsert(ms: seq<Member>, k: string, v: Json, k': string)
    ensures Find(Upsert(ms, k, v), k) == Some(if Find(ms, k).Some? then Find(ms, k).value else |ms|)
    ensures k' != k ==> Find(Upsert(ms, k, v), k') == Find(ms, k')
  {
    var r := Upsert(ms, k, v);
    assert forall j :: 0 <= j < |ms| ==> r[j].key == ms[j].key;
    var a := Find(r, k);
    match Find(ms, k)
    case Some(i) =>
      assert r[i].key == k;
      assert a.Some? && !(a.value < i) && !(i < a.value);
    case None =>
      assert r[|ms|].key == k;
      assert a.Some? && !(a.value < |ms|);
    if k' != k {
      var b := Find(r, k');
      var c := Find(ms, k');
      if b.Some? && c.Some? {
        assert !(b.value < c.value) && !(c.value < b.value);
      }
    }
  }

  /** After the assignment, the keys lead to the new value. */
  lemma {:induction false} UpdateSets(j: Json, ks: seq<string>, v: Json)
    requires |ks| >= 1
    requires Navigate(j, ks[..|ks| - 1]).Ok? && Navigate(j, ks[..|ks| - 1]).value.Obj?
    ensures Navigate(Update(j, ks, v), ks) == Ok(v)
    decreases |ks|
  {
    var ms := j.members;
    if |ks| == 1 {
      FindUpsert(ms, ks[0], v, ks[0]);
    } else {
      assert ks[..|ks| - 1][0] == ks[0];
      var i := Find(ms, ks[0]).value;
      var ms' := ms[i := Member(ks[0], Update(ms[i].value, ks[1..], v))];
      assert forall m :: 0 <= m < |ms| ==> ms'[m].key == ms[m].key;
      assert Find(ms', ks[0]) == Some(i) by {
        var f := Find(ms', ks[0]);
        assert f.Some? && !(f.value < i) && !(i < f.value);
      }
      assert ks[..|ks| - 1][1..] == ks[1..][..|ks[1..]| - 1];
      UpdateSets(ms[i].value, ks[1..], v);
    }
  }

  /** Replacing a member's value keeps every lookup pointing where it did. */
  lemma FindReplaced(ms: seq<Member>, i: nat, c: Json, k': string)
    requires i < |ms|
    ensures Find(ms[i := Member(ms[i].key, c)], k') == Find(ms, k')
  {
    var ms' := ms[i := Member(ms[i].key, c)];
    assert forall m :: 0 <= m < |ms| ==> ms'[m].key == ms[m].key;
    var f := Find(ms', k');
    var g := Find(ms, k');
    if f.Some? && g.Some? { assert !(f.value < g.value) && !(g.value < f.value); }
  }

  /** Every path that leaves the assigned keys at some step reads the same before and after. */
  lemma {:induction false} UpdateElsewhere(j: Json, ks: seq<string>, v: Json, other: seq<string>, at: nat)
    requires |ks| >= 1
    requires at < |ks| && at < |other| && other[..at] == ks[..at] && other[at] != ks[at]
    ensures Navigate(Update(j, ks, v), other) == Navigate(j, other)
    decreases |ks|
  {
    if j.Obj? && Find(j.members, ks[0]).Some? {
      var ms := j.members;
      var i := Find(ms, ks[0]).value;
      if |ks| == 1 {
        FindUpsert(ms, ks[0], v, other[0]);
      } else if at == 0 {
        FindReplaced(ms, i, Update(ms[i].value, ks[1..], v), other[0]);
      } else {
        assert other[0] == ks[0];
        FindReplaced(ms, i, Update(ms[i].value, ks[1..], v), ks[0]);
        assert other[1..][..at - 1] == ks[1..][..at - 1];
        UpdateElsewhere(ms[i].value, ks[1..], v, other[1..], at - 1);
      }
    } else if j.Obj? && |ks| == 1 {
      FindUpsert(j.members, ks[0], v, other[0]);
    }
  }

  /** Assigning the value a path already holds leaves the document as it was. */
  lemma {:induction false} UpdateSame(j: Json, ks: seq<string>, v: Json)
    requires |ks| >= 1 && Navigate(j, ks) == Ok(v)
    ensures Update(j, ks, v) == j
    decreases |ks|
  {
    assert j.Obj? && Find(j.members, ks[0]).Some?;
    var ms := j.members;
    var i := Find(ms, ks[0]).value;
    if |ks| == 1 {
      assert ms[i := Member(ks[0], v)] == ms;
    } else {
      UpdateSame(ms[i].value, ks[1..], v);
      assert ms[i := Member(ks[0], ms[i].value)] == ms;
    }
  }

  // ---- the text of a value and back ----

  /** `str(value)` for a leaf; flattened values are never containers, which show as nothing here. */
  function Render(v: Json): string
  {
    match v
    case Str(s) => s
    case Num(n) => Text.IntToString(n)
    case Bool(b) => if b then "True" else "False"
    case Null => "None"
    case _ => ""
  }

  /** `isinstance(v, (int, float))`: a `bool` is an `int` in Python. */
  predicate Numeric(v: Json) { v.Num? || v.Bool? }

  /**
   * Lines 362-377: the value an edited text is saved as. For a numeric
   * original an integer text becomes that number, a text that is digits
   * with one `.` is refused (`None`), and any other text is kept as a
   * string; any other original takes the text verbatim.
   */
  function Coerce(original: Json, text: string): Option<Json>
  {
    if !Numeric(original) then Some(Str(text))
    else match Text.ParseInt(text)
      case Some(n) => Some(Num(n))
      case None => if Text.AllDigits(Text.ReplaceFirst(text, ".", "")) then None else Some(Str(text))
  }

  lemma ReplaceFirstAbsent(s: string, pat: string, rep: string)
    requires |pat| > 0 && pat[0] !in s
    ensures Text.ReplaceFirst(s, pat, rep) == s
    decreases |s|
  {
    if |s| >= |pat| {
      assert s[..|pat|][0] == s[0];
      ReplaceFirstAbsent(s[1..], pat, rep);
    }
  }

  /**
   * Saving a value's own text gives it back for strings and numbers, while
   * a `true`, `false` or `null` comes back as the string "True", "False" or
   * "None".
   */
  lemma CoerceRender(v: Json)
    requires IsLeaf(v)
    ensures v.Str? || v.Num? ==> Coerce(v, Render(v)) == Some(v)
    ensures v.Bool? || v.Null? ==> Coerce(v, Render(v)) == Some(Str(Render(v)))
  {
    match v
    case Num(n) => Text.ParseIntToString(n);
    case Bool(b) =>
      var t := Render(v);
      assert t[0] == 'T' || t[0] == 'F';
      assert Text.ParseInt(t).None?;
      ReplaceFirstAbsent(t, ".", "");
      assert !Text.IsDigit(t[0]);
    case _ =>
  }
}
