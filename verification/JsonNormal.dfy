/**
 Canonical JSON over heap graphs (`src/controllers/json.ts`). Objects and arrays are
 heap nodes that may be shared or cyclic; the result is a fresh tree.
 */
module JsonNormal {
  import opened Options
  import opened StringOrder

  type Ref = nat

  /** The JSON scalars of section 3 of RFC 8259; numbers are finite. */
  datatype Leaf = Null | Bool(b: bool) | Str(s: string) | Num(n: real)

  /** Any JavaScript value: a scalar, a number that is not finite, a value outside JSON, or an object or array. */
  datatype Value = Scalar(leaf: Leaf) | NotFinite | NotJson | Obj(ref: Ref)

  datatype Proto = Plain | NoProto | Custom

  datatype Node = ArrayNode(items: seq<Value>) | ObjectNode(proto: Proto, keys: seq<string>, values: map<string, Value>)

  type Heap = map<Ref, Node>

  datatype Json = Atom(leaf: Leaf) | Arr(items: seq<Json>) | Dict(proto: Proto, keys: seq<string>, items: seq<Json>)

  datatype Error = NonFinite | NotSerializable | Cycle | NotPlain

  datatype Result<T> = Ok(value: T) | Err(error: Error)

  /** Assigning this key on an ordinary object sets its prototype instead. */
  const PROTO: string := "__proto__"

  predicate Distinct(keys: seq<string>) {
    forall i, j :: 0 <= i < j < |keys| ==> keys[i] != keys[j]
  }

  predicate NodeOk(n: Node) {
    n.ObjectNode? ==> Distinct(n.keys) && (forall k <- n.keys :: k in n.values) && forall k <- n.values :: k in n.keys
  }

  /** Every child of a node, in the order of the visit: array order, or sorted keys. */
  function Kids(n: Node): seq<Value>
    requires NodeOk(n)
  {
    if n.ArrayNode? then n.items else Looked(Sorted(n.keys), n.values)
  }

  function Looked(keys: seq<string>, values: map<string, Value>): seq<Value> {
    seq(|keys|, i requires 0 <= i < |keys| => if keys[i] in values then values[keys[i]] else NotJson)
  }

  predicate Closed(h: Heap) {
    forall r <- h :: NodeOk(h[r]) && forall v <- Kids(h[r]) :: In(h, v)
  }

  predicate In(h: Heap, v: Value) { v.Obj? ==> v.ref in h }

  // -------------------------------------------------------------- normalization

  /** The prototype of the result after all assignments. */
  function ProtoOf(keys: seq<string>, items: seq<Json>): Proto
    requires |keys| == |items|
  {
    if keys == [] then Plain
    else if keys[0] == PROTO then
      if items[0].Atom? then (if items[0].leaf.Null? then NoProto else Plain) else Custom
    else ProtoOf(keys[1..], items[1..])
  }

  function KeptKeys(keys: seq<string>): seq<string> {
    if keys == [] then [] else (if keys[0] == PROTO then [] else [keys[0]]) + KeptKeys(keys[1..])
  }

  function KeptItems(keys: seq<string>, items: seq<Json>): (r: seq<Json>)
    requires |keys| == |items|
    ensures |r| == |KeptKeys(keys)|
  {
    if keys == [] then [] else (if keys[0] == PROTO then [] else [items[0]]) + KeptItems(keys[1..], items[1..])
  }

  /** The object that assigning `items` to `keys` in order leaves. */
  function Assigned(keys: seq<string>, items: seq<Json>): Json
    requires |keys| == |items|
  {
    Dict(ProtoOf(keys, items), KeptKeys(keys), KeptItems(keys, items))
  }

  /** `normalizeJson`, with the set of objects on the path. */
  function Norm(h: Heap, v: Value, seen: set<Ref>): Result<Json>
    requires Closed(h) && In(h, v)
    decreases |h.Keys - seen|, 0
  {
    match v
    case Scalar(leaf) => Ok(Atom(leaf))
    case NotFinite => Err(NonFinite)
    case NotJson => Err(NotSerializable)
    case Obj(r) =>
      if r in seen then Err(Cycle)
      else if h[r].ObjectNode? && h[r].proto.Custom? then Err(NotPlain)
      else
        FewerLeft(h, seen, r);
        var kids := NormAll(h, Kids(h[r]), seen + {r});
        if kids.Err? then Err(kids.error)
        else if h[r].ArrayNode? then Ok(Arr(kids.value))
        else
          SortedLength(h[r].keys);
          Ok(Assigned(Sorted(h[r].keys), kids.value))
  }

  function NormAll(h: Heap, vs: seq<Value>, seen: set<Ref>): (r: Result<seq<Json>>)
    requires Closed(h) && forall v <- vs :: In(h, v)
    ensures r.Ok? ==> |r.value| == |vs|
    decreases |h.Keys - seen|, |vs| + 1
  {
    if vs == [] then Ok([])
    else
      var head := Norm(h, vs[0], seen);
      if head.Err? then Err(head.error)
      else
        var tail := NormAll(h, vs[1..], seen);
        if tail.Err? then tail else Ok([head.value] + tail.value)
  }

  lemma FewerLeft(h: Heap, seen: set<Ref>, r: Ref)
    requires r in h && r !in seen
    ensures |h.Keys - (seen + {r})| < |h.Keys - seen|
  {
    assert h.Keys - (seen + {r}) == (h.Keys - seen) - {r};
  }

  lemma SortedLength(keys: seq<string>)
    ensures |Sorted(keys)| == |keys|
  {
    assert |multiset(Sorted(keys))| == |multiset(keys)|;
  }

  // ------------------------------------------------------ the recursion as it is written

  /** The `seen` set that all calls share. */
  class Path {
    var refs: set<Ref>
    constructor ()
      ensures refs == {}
    {
      refs := {};
    }
  }

  /** Adds itself to the path, visits its children, and takes itself off again on every exit. */
  method NormalizeJson(h: Heap, v: Value, seen: Path) returns (r: Result<Json>)
    requires Closed(h) && In(h, v)
    modifies seen
    ensures seen.refs == old(seen.refs)
    ensures r == Norm(h, v, old(seen.refs))
    decreases |h.Keys - seen.refs|, 0
  {
    match v
    case Scalar(leaf) => return Ok(Atom(leaf));
    case NotFinite => return Err(NonFinite);
    case NotJson => return Err(NotSerializable);
    case Obj(ref) =>
      if ref in seen.refs { return Err(Cycle); }
      FewerLeft(h, seen.refs, ref);
      ghost var before := seen.refs;
      seen.refs := seen.refs + {ref};
      if h[ref].ObjectNode? && h[ref].proto.Custom? {
        r := Err(NotPlain);
      } else {
        var kids := NormalizeChildren(h, Kids(h[ref]), seen);
        if kids.Err? {
          r := Err(kids.error);
        } else if h[ref].ArrayNode? {
          r := Ok(Arr(kids.value));
        } else {
          SortedLength(h[ref].keys);
          r := Ok(Assigned(Sorted(h[ref].keys), kids.value));
        }
      }
      seen.refs := seen.refs - {ref};
      assert seen.refs == before;
  }

  /** `map` over the items, or the loop over the sorted keys: the first error ends it. */
  method NormalizeChildren(h: Heap, vs: seq<Value>, seen: Path) returns (r: Result<seq<Json>>)
    requires Closed(h) && forall v <- vs :: In(h, v)
    modifies seen
    ensures seen.refs == old(seen.refs)
    ensures r == NormAll(h, vs, old(seen.refs))
    decreases |h.Keys - seen.refs|, |vs| + 1
  {
    var done: seq<Json> := [];
    ghost var all := NormAll(h, vs, seen.refs);
    assert vs[0..] == vs;
    NothingPrefixed(all, done);
    for i := 0 to |vs|
      invariant seen.refs == old(seen.refs)
      invariant all == Prefixed(done, NormAll(h, vs[i..], seen.refs))
    {
      ChildStep(h, vs, i, seen.refs, done);
      var item := NormalizeJson(h, vs[i], seen);
      if item.Err? { return Err(item.error); }
      done := done + [item.value];
    }
    NothingPrefixed(all, done);
    return Ok(done);
  }

  lemma NothingPrefixed(rest: Result<seq<Json>>, done: seq<Json>)
    ensures Prefixed([], rest) == rest
    ensures Prefixed(done, Ok([])) == Ok(done)
  {
    if rest.Ok? { assert [] + rest.value == rest.value; }
    assert done + [] == done;
  }

  lemma ChildStep(h: Heap, vs: seq<Value>, i: nat, seen: set<Ref>, done: seq<Json>)
    requires Closed(h) && (forall v <- vs :: In(h, v)) && i < |vs|
    ensures vs[i] in vs
    ensures var item := Norm(h, vs[i], seen);
      Prefixed(done, NormAll(h, vs[i..], seen))
      == if item.Err? then Err(item.error) else Prefixed(done + [item.value], NormAll(h, vs[i + 1..], seen))
  {
    assert vs[i..][0] == vs[i] && vs[i..][1..] == vs[i + 1..];
    var item, rest := Norm(h, vs[i], seen), NormAll(h, vs[i + 1..], seen);
    if item.Ok? && rest.Ok? { assert (done + [item.value]) + rest.value == done + ([item.value] + rest.value); }
  }

  function Prefixed(done: seq<Json>, rest: Result<seq<Json>>): Result<seq<Json>> {
    if rest.Err? then rest else Ok(done + rest.value)
  }

  // --------------------------------------------------------------- when it succeeds

  /** A way down from `v`. */
  ghost predicate Descends(h: Heap, v: Value, p: seq<Ref>)
    requires Closed(h)
  {
    && p != [] && v == Obj(p[0]) && (forall r <- p :: r in h)
    && forall i :: 0 <= i < |p| - 1 ==> Obj(p[i + 1]) in Kids(h[p[i]])
  }

  /** A node that holds something outside JSON, or has a prototype of its own. */
  predicate BadNode(h: Heap, r: Ref)
    requires Closed(h) && r in h
  {
    (h[r].ObjectNode? && h[r].proto.Custom?) || NotFinite in Kids(h[r]) || NotJson in Kids(h[r])
  }

  /** The way down meets the path above it, a bad node, or itself. */
  ghost predicate Fault(h: Heap, v: Value, seen: set<Ref>, p: seq<Ref>)
    requires Closed(h)
  {
    && Descends(h, v, p)
    && (p[|p| - 1] in seen || BadNode(h, p[|p| - 1]) || p[|p| - 1] in p[..|p| - 1])
  }

  ghost predicate Faulty(h: Heap, v: Value, seen: set<Ref>)
    requires Closed(h)
  {
    v.NotFinite? || v.NotJson? || exists p :: Fault(h, v, seen, p)
  }

  lemma {:induction false} FirstBadChild(h: Heap, vs: seq<Value>, seen: set<Ref>) returns (k: nat)
    requires Closed(h) && (forall v <- vs :: In(h, v)) && NormAll(h, vs, seen).Err?
    ensures k < |vs| && Norm(h, vs[k], seen).Err?
    decreases |vs|
  {
    if Norm(h, vs[0], seen).Err? {
      k := 0;
    } else {
      k := FirstBadChild(h, vs[1..], seen);
      k := k + 1;
    }
  }

  lemma {:induction false} BadChildFails(h: Heap, vs: seq<Value>, seen: set<Ref>, v: Value)
    requires Closed(h) && (forall x <- vs :: In(h, x)) && v in vs && Norm(h, v, seen).Err?
    ensures NormAll(h, vs, seen).Err?
    decreases |vs|
  {
    if v != vs[0] { BadChildFails(h, vs[1..], seen, v); }
  }

  lemma {:induction false} ErrorHasFault(h: Heap, v: Value, seen: set<Ref>)
    requires Closed(h) && In(h, v) && Norm(h, v, seen).Err?
    ensures Faulty(h, v, seen)
    decreases |h.Keys - seen|
  {
    if v.Obj? {
      var r := v.ref;
      if r in seen || BadNode(h, r) {
        assert Fault(h, v, seen, [r]);
      } else {
        FewerLeft(h, seen, r);
        var kids := Kids(h[r]);
        var k := FirstBadChild(h, kids, seen + {r});
        assert kids[k] in kids;
        ErrorHasFault(h, kids[k], seen + {r});
        var p :| Fault(h, kids[k], seen + {r}, p);
        var q := [r] + p;
        assert q[|q| - 1] == p[|p| - 1] && q[..|q| - 1] == [r] + p[..|p| - 1];
        assert Fault(h, v, seen, q);
      }
    }
  }

  lemma {:induction false} FaultIsError(h: Heap, v: Value, seen: set<Ref>, p: seq<Ref>)
    requires Closed(h) && In(h, v) && Fault(h, v, seen, p)
    ensures Norm(h, v, seen).Err?
    decreases |p|
  {
    var r := p[0];
    if r !in seen && !(h[r].ObjectNode? && h[r].proto.Custom?) {
      FewerLeft(h, seen, r);
      var kids := Kids(h[r]);
      if NotFinite in kids {
        BadChildFails(h, kids, seen + {r}, NotFinite);
      } else if NotJson in kids {
        BadChildFails(h, kids, seen + {r}, NotJson);
      } else {
        var rest := p[1..];
        var last := p[|p| - 1];
        assert rest != [] && rest[|rest| - 1] == last;
        assert last in p[..|p| - 1] ==> last == r || last in rest[..|rest| - 1] by {
          assert p[..|p| - 1] == [r] + rest[..|rest| - 1];
        }
        assert Fault(h, Obj(p[1]), seen + {r}, rest);
        FaultIsError(h, Obj(p[1]), seen + {r}, rest);
        BadChildFails(h, kids, seen + {r}, Obj(p[1]));
      }
    }
  }

  /** It fails exactly when a cycle, a value outside JSON or an object of some class can be reached; sharing is fine. */
  lemma FailsExactly(h: Heap, v: Value)
    requires Closed(h) && In(h, v)
    ensures Norm(h, v, {}).Err? <==> Faulty(h, v, {})
  {
    if Norm(h, v, {}).Err? { ErrorHasFault(h, v, {}); }
    if v.Obj? && Faulty(h, v, {}) {
      var p :| Fault(h, v, {}, p);
      FaultIsError(h, v, {}, p);
    }
  }

  /** The end of this way down shows the fault. */
  predicate ShowsAt(h: Heap, seen: set<Ref>, e: Error, p: seq<Ref>)
    requires Closed(h) && p != [] && forall r <- p :: r in h
  {
    var last := p[|p| - 1];
    match e
    case NonFinite => NotFinite in Kids(h[last])
    case NotSerializable => NotJson in Kids(h[last])
    case NotPlain => h[last].ObjectNode? && h[last].proto.Custom?
    case Cycle => last in seen || last in p[..|p| - 1]
  }

  /** What an error says: which kind of fault can be reached. */
  ghost predicate Shows(h: Heap, v: Value, seen: set<Ref>, e: Error)
    requires Closed(h)
  {
    || (e == NonFinite && v == NotFinite) || (e == NotSerializable && v == NotJson)
    || exists p :: Descends(h, v, p) && ShowsAt(h, seen, e, p)
  }

  lemma {:induction false} FirstBadChildShows(h: Heap, vs: seq<Value>, seen: set<Ref>) returns (k: nat)
    requires Closed(h) && (forall v <- vs :: In(h, v)) && NormAll(h, vs, seen).Err?
    ensures k < |vs| && Norm(h, vs[k], seen).Err? && Norm(h, vs[k], seen).error == NormAll(h, vs, seen).error
    decreases |vs|
  {
    if Norm(h, vs[0], seen).Err? {
      k := 0;
    } else {
      k := FirstBadChildShows(h, vs[1..], seen);
      k := k + 1;
    }
  }

  lemma ShowsFurther(h: Heap, r: Ref, seen: set<Ref>, child: Value, e: Error)
    requires Closed(h) && r in h && child in Kids(h[r]) && Shows(h, child, seen + {r}, e)
    ensures Shows(h, Obj(r), seen, e)
  {
    if child.Obj? {
      var p :| Descends(h, child, p) && ShowsAt(h, seen + {r}, e, p);
      PathShows(h, r, seen, child, e, p);
    } else {
      assert Descends(h, Obj(r), [r]) && ShowsAt(h, seen, e, [r]);
    }
  }

  lemma PathShows(h: Heap, r: Ref, seen: set<Ref>, child: Value, e: Error, p: seq<Ref>)
    requires Closed(h) && r in h && child in Kids(h[r]) && Descends(h, child, p) && ShowsAt(h, seen + {r}, e, p)
    ensures Shows(h, Obj(r), seen, e)
  {
    var q := [r] + p;
    assert q[|q| - 1] == p[|p| - 1] && q[..|q| - 1] == [r] + p[..|p| - 1];
    assert Descends(h, Obj(r), q) && ShowsAt(h, seen, e, q);
  }

  /** The error that is thrown names a fault that is there: the wrong kind of error is never reported. */
  lemma {:induction false} ErrorShows(h: Heap, v: Value, seen: set<Ref>)
    requires Closed(h) && In(h, v) && Norm(h, v, seen).Err?
    ensures Shows(h, v, seen, Norm(h, v, seen).error)
    decreases |h.Keys - seen|
  {
    if v.Obj? {
      var r := v.ref;
      if r in seen || (h[r].ObjectNode? && h[r].proto.Custom?) {
        assert Descends(h, v, [r]) && ShowsAt(h, seen, Norm(h, v, seen).error, [r]);
      } else {
        FewerLeft(h, seen, r);
        var kids := Kids(h[r]);
        var k := FirstBadChildShows(h, kids, seen + {r});
        assert kids[k] in kids;
        ErrorShows(h, kids[k], seen + {r});
        ShowsFurther(h, r, seen, kids[k], Norm(h, v, seen).error);
      }
    }
  }

  // --------------------------------------------------------------- blind to key order

  predicate SameNode(a: Node, b: Node) {
    if a.ArrayNode? then a == b
    else b.ObjectNode? && a.proto == b.proto && a.values == b.values && multiset(a.keys) == multiset(b.keys)
  }

  predicate SameButOrder(h: Heap, g: Heap) {
    h.Keys == g.Keys && forall r <- h :: SameNode(h[r], g[r])
  }

  /** Two heaps that differ in the order of keys only give the same tree, and so the same text and fingerprint. */
  lemma {:induction false} BlindToKeyOrder(h: Heap, g: Heap, v: Value, seen: set<Ref>)
    requires Closed(h) && Closed(g) && SameButOrder(h, g) && In(h, v)
    ensures Norm(h, v, seen) == Norm(g, v, seen)
    decreases |h.Keys - seen|, 0
  {
    if v.Obj? && v.ref !in seen {
      var r := v.ref;
      FewerLeft(h, seen, r);
      if h[r].ObjectNode? { SortedForgetsOrder(h[r].keys, g[r].keys); }
      assert Kids(h[r]) == Kids(g[r]);
      AllBlindToKeyOrder(h, g, Kids(h[r]), seen + {r});
    }
  }

  lemma {:induction false} AllBlindToKeyOrder(h: Heap, g: Heap, vs: seq<Value>, seen: set<Ref>)
    requires Closed(h) && Closed(g) && SameButOrder(h, g) && forall v <- vs :: In(h, v)
    ensures NormAll(h, vs, seen) == NormAll(g, vs, seen)
    decreases |h.Keys - seen|, |vs| + 1
  {
    if vs != [] {
      BlindToKeyOrder(h, g, vs[0], seen);
      AllBlindToKeyOrder(h, g, vs[1..], seen);
    }
  }
}
