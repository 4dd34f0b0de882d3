/**
 Normalizing a second time: the same text again, except where an own key "__proto__"
 turned into a prototype; then the second pass refuses its own result.
 */
module JsonAgain {
  import opened Options
  import opened StringOrder
  import opened JsonNormal

  // --------------------------------------------------------------------- elementwise

  lemma {:induction false} AllElementwise(h: Heap, vs: seq<Value>, seen: set<Ref>)
    requires Closed(h) && (forall v <- vs :: In(h, v)) && NormAll(h, vs, seen).Ok?
    ensures forall i :: 0 <= i < |vs| ==> Norm(h, vs[i], seen) == Ok(NormAll(h, vs, seen).value[i])
    decreases |vs|
  {
    if vs != [] { AllElementwise(h, vs[1..], seen); }
  }

  lemma {:induction false} ProtoOfFinds(keys: seq<string>, items: seq<Json>)
    requires |keys| == |items| && Distinct(keys)
    ensures PROTO !in keys ==>
      ProtoOf(keys, items) == Plain && KeptKeys(keys) == keys && KeptItems(keys, items) == items
    ensures forall i :: 0 <= i < |keys| && keys[i] == PROTO ==>
      (ProtoOf(keys, items) == Custom <==> !items[i].Atom?)
  {
    if keys != [] {
      ProtoOfFinds(keys[1..], items[1..]);
      assert keys == [keys[0]] + keys[1..] && items == [items[0]] + items[1..];
    }
  }

  lemma {:induction false} KeptItemsAre(keys: seq<string>, items: seq<Json>, j: Json)
    requires |keys| == |items|
    ensures j in KeptItems(keys, items) <==> exists i :: 0 <= i < |keys| && keys[i] != PROTO && items[i] == j
  {
    if keys != [] {
      KeptItemsAre(keys[1..], items[1..], j);
      if i :| 0 <= i < |keys| && keys[i] != PROTO && items[i] == j {
        if i != 0 { assert keys[1..][i - 1] != PROTO && items[1..][i - 1] == j; }
      }
      if i :| 0 <= i < |keys[1..]| && keys[1..][i] != PROTO && items[1..][i] == j {
        assert keys[i + 1] != PROTO && items[i + 1] == j;
      }
    }
  }

  /** An object took the place of somebody's prototype. */
  predicate HasCustom(j: Json) {
    match j
    case Atom(_) => false
    case Arr(items) => exists i :: 0 <= i < |items| && HasCustom(items[i])
    case Dict(proto, _, items) => proto.Custom? || exists i :: 0 <= i < |items| && HasCustom(items[i])
  }

  /** An object that has an own key "__proto__" with an object or array under it. */
  predicate ProtoNode(h: Heap, r: Ref)
    requires Closed(h) && r in h
  {
    h[r].ObjectNode? && PROTO in h[r].values && h[r].values[PROTO].Obj?
  }

  ghost predicate ReachesProto(h: Heap, v: Value)
    requires Closed(h)
  {
    exists p :: Descends(h, v, p) && ProtoNode(h, p[|p| - 1])
  }

  lemma SortedHas(keys: seq<string>, k: string)
    ensures k in Sorted(keys) <==> k in keys
    ensures Distinct(keys) ==> Distinct(Sorted(keys))
  {
    assert k in multiset(Sorted(keys)) <==> k in multiset(keys);
    if Distinct(keys) {
      forall x ensures multiset(keys)[x] <= 1 { DistinctCounts(keys, x); }
      CountsDistinct(Sorted(keys));
    }
  }

  lemma {:induction false} DistinctCounts(keys: seq<string>, x: string)
    requires Distinct(keys)
    ensures multiset(keys)[x] <= 1
  {
    if keys != [] {
      TailCounts(keys);
      DistinctCounts(keys[1..], x);
      if x == keys[0] { assert x !in keys[1..]; }
    }
  }

  lemma CountsDistinct(keys: seq<string>)
    requires forall x :: multiset(keys)[x] <= 1
    ensures Distinct(keys)
  {
    forall i, j | 0 <= i < j < |keys| ensures keys[i] != keys[j] {
      assert keys == keys[..j] + keys[j..];
      assert keys[i] == keys[..j][i] && keys[j] == keys[j..][0];
      assert keys[i] == keys[j] ==> multiset(keys)[keys[i]] >= 2;
    }
  }

  /** The shape of a successful pass over one object or array. */
  lemma NormOfNode(h: Heap, r: Ref, seen: set<Ref>, j: Json) returns (items: seq<Json>)
    requires Closed(h) && r in h && Norm(h, Obj(r), seen) == Ok(j)
    ensures r !in seen && |items| == |Kids(h[r])|
    ensures forall i :: 0 <= i < |items| ==> Norm(h, Kids(h[r])[i], seen + {r}) == Ok(items[i])
    ensures h[r].ArrayNode? ==> j == Arr(items)
    ensures h[r].ObjectNode? ==> |items| == |Sorted(h[r].keys)| && j == Assigned(Sorted(h[r].keys), items)
  {
    FewerLeft(h, seen, r);
    items := NormAll(h, Kids(h[r]), seen + {r}).value;
    AllElementwise(h, Kids(h[r]), seen + {r});
  }

  lemma AtomFromScalar(h: Heap, v: Value, seen: set<Ref>, j: Json)
    requires Closed(h) && In(h, v) && Norm(h, v, seen) == Ok(j)
    ensures j.Atom? <==> v.Scalar?
  {
  }

  /** A result object that changed its prototype came from a node with an object under "__proto__". */
  lemma ProtoSource(h: Heap, r: Ref, seen: set<Ref>, items: seq<Json>)
    requires Closed(h) && r in h && h[r].ObjectNode? && |items| == |Kids(h[r])| == |Sorted(h[r].keys)|
    requires forall i :: 0 <= i < |items| ==> In(h, Kids(h[r])[i]) && Norm(h, Kids(h[r])[i], seen + {r}) == Ok(items[i])
    requires ProtoOf(Sorted(h[r].keys), items) == Custom
    ensures ProtoNode(h, r)
  {
    var sorted := Sorted(h[r].keys);
    SortedHas(h[r].keys, PROTO);
    ProtoOfFinds(sorted, items);
    var i :| 0 <= i < |sorted| && sorted[i] == PROTO;
    AtomFromScalar(h, Kids(h[r])[i], seen + {r}, items[i]);
    KidOf(h[r], i);
  }

  /**
   The i-th child of an object is the value of its i-th key in order, and it is not what a missing key
   would read as.
   */
  lemma KidOf(n: Node, i: nat)
    requires NodeOk(n) && n.ObjectNode? && i < |Sorted(n.keys)|
    ensures Sorted(n.keys)[i] in n.values && Kids(n)[i] == n.values[Sorted(n.keys)[i]]
  {
    assert Sorted(n.keys)[i] in Sorted(n.keys);
    SortedHas(n.keys, Sorted(n.keys)[i]);
  }

  lemma ReachesFurther(h: Heap, r: Ref, child: Value)
    requires Closed(h) && r in h && child in Kids(h[r]) && ReachesProto(h, child)
    ensures ReachesProto(h, Obj(r))
  {
    var p :| Descends(h, child, p) && ProtoNode(h, p[|p| - 1]);
    OneFurther(h, r, child, p);
  }

  lemma OneFurther(h: Heap, r: Ref, child: Value, p: seq<Ref>)
    requires Closed(h) && r in h && child in Kids(h[r]) && Descends(h, child, p)
    ensures Descends(h, Obj(r), [r] + p) && ([r] + p)[|p|] == p[|p| - 1]
  {
  }

  lemma {:induction false} CustomIsReached(h: Heap, v: Value, seen: set<Ref>, j: Json)
    requires Closed(h) && In(h, v) && Norm(h, v, seen) == Ok(j) && HasCustom(j)
    ensures ReachesProto(h, v)
    decreases |h.Keys - seen|
  {
    var r := v.ref;
    var items := NormOfNode(h, r, seen, j);
    FewerLeft(h, seen, r);
    if h[r].ObjectNode? && j.proto.Custom? {
      ProtoSource(h, r, seen, items);
      assert Descends(h, v, [r]);
    } else {
      var k := CustomChild(h, r, j, items);
      assert Kids(h[r])[k] in Kids(h[r]);
      CustomIsReached(h, Kids(h[r])[k], seen + {r}, items[k]);
      ReachesFurther(h, r, Kids(h[r])[k]);
    }
  }

  lemma CustomChild(h: Heap, r: Ref, j: Json, items: seq<Json>) returns (k: nat)
    requires Closed(h) && r in h && HasCustom(j)
    requires h[r].ArrayNode? ==> j == Arr(items)
    requires h[r].ObjectNode? ==>
      && |items| == |Sorted(h[r].keys)| && j == Assigned(Sorted(h[r].keys), items) && !j.proto.Custom?
    ensures k < |items| && HasCustom(items[k])
  {
    if h[r].ArrayNode? {
      k :| 0 <= k < |items| && HasCustom(items[k]);
    } else {
      var i :| 0 <= i < |j.items| && HasCustom(j.items[i]);
      KeptItemsAre(Sorted(h[r].keys), items, j.items[i]);
      k :| 0 <= k < |items| && items[k] == j.items[i];
    }
  }

  lemma {:induction false} ReachedIsCustom(h: Heap, v: Value, seen: set<Ref>, j: Json, p: seq<Ref>)
    requires Closed(h) && In(h, v) && Norm(h, v, seen) == Ok(j)
    requires Descends(h, v, p) && ProtoNode(h, p[|p| - 1])
    ensures HasCustom(j)
    decreases |p|
  {
    var r := p[0];
    var items := NormOfNode(h, r, seen, j);
    var kids := Kids(h[r]);
    if |p| == 1 {
      ProtoChildIsCustom(h, r, seen, j, items);
    } else {
      var i :| 0 <= i < |kids| && kids[i] == Obj(p[1]);
      var rest := p[1..];
      assert Descends(h, kids[i], rest) && rest[|rest| - 1] == p[|p| - 1];
      ReachedIsCustom(h, kids[i], seen + {r}, items[i], rest);
      if h[r].ObjectNode? {
        SortedHas(h[r].keys, PROTO);
        CustomChildShows(Sorted(h[r].keys), items, i, j);
      }
    }
  }

  /** Whatever key holds a result with a foreign prototype, the object around it has one in it or of its own. */
  lemma CustomChildShows(sorted: seq<string>, items: seq<Json>, i: nat, j: Json)
    requires |items| == |sorted| && i < |items| && HasCustom(items[i]) && j == Assigned(sorted, items)
    requires Distinct(sorted)
    ensures HasCustom(j)
  {
    if sorted[i] == PROTO {
      ProtoOfFinds(sorted, items);
    } else {
      KeptItemsAre(sorted, items, items[i]);
      var k :| 0 <= k < |j.items| && j.items[k] == items[i];
    }
  }

  lemma ProtoChildIsCustom(h: Heap, r: Ref, seen: set<Ref>, j: Json, items: seq<Json>)
    requires Closed(h) && r in h && ProtoNode(h, r) && |items| == |Kids(h[r])| == |Sorted(h[r].keys)|
    requires forall i :: 0 <= i < |items| ==> In(h, Kids(h[r])[i]) && Norm(h, Kids(h[r])[i], seen + {r}) == Ok(items[i])
    requires j == Assigned(Sorted(h[r].keys), items)
    ensures HasCustom(j)
  {
    var sorted := Sorted(h[r].keys);
    SortedHas(h[r].keys, PROTO);
    ProtoOfFinds(sorted, items);
    var i :| 0 <= i < |sorted| && sorted[i] == PROTO;
    AtomFromScalar(h, Kids(h[r])[i], seen + {r}, items[i]);
  }

  /** The result holds an object with a foreign prototype exactly when such a "__proto__" key can be reached. */
  lemma CustomExactly(h: Heap, v: Value, j: Json)
    requires Closed(h) && In(h, v) && Norm(h, v, {}) == Ok(j)
    ensures HasCustom(j) <==> ReachesProto(h, v)
  {
    if HasCustom(j) { CustomIsReached(h, v, {}, j); }
    if p :| Descends(h, v, p) && ProtoNode(h, p[|p| - 1]) { ReachedIsCustom(h, v, {}, j, p); }
  }

  // ------------------------------------------------------------- the second pass

  /**
   The tree as the first pass left it in memory: `v` denotes `j` in the heap `g`. The object lists
   its keys in an order of its own, as JavaScript does with keys that look like integers.
   */
  predicate Denotes(g: Heap, v: Value, j: Json)
    decreases j
  {
    match j
    case Atom(leaf) => v == Scalar(leaf)
    case Arr(items) =>
      && v.Obj? && v.ref in g && g[v.ref].ArrayNode? && |items| == |g[v.ref].items|
      && forall i :: 0 <= i < |items| ==> Denotes(g, g[v.ref].items[i], items[i])
    case Dict(proto, keys, items) =>
      && v.Obj? && v.ref in g && g[v.ref].ObjectNode? && g[v.ref].proto == proto
      && |keys| == |items| && multiset(g[v.ref].keys) == multiset(keys)
      && forall i :: 0 <= i < |items| ==> keys[i] in g[v.ref].values && Denotes(g, g[v.ref].values[keys[i]], items[i])
  }

  /** Sorted, distinct keys, none of them "__proto__". */
  predicate Tidy(j: Json) {
    match j
    case Atom(_) => true
    case Arr(items) => forall i :: 0 <= i < |items| ==> Tidy(items[i])
    case Dict(_, keys, items) =>
      && |keys| == |items| && Ascending(keys) && Distinct(keys) && PROTO !in keys
      && forall i :: 0 <= i < |items| ==> Tidy(items[i])
  }

  /** What `JSON.stringify` shows of a result: everything but prototypes. */
  function Shown(j: Json): Json {
    match j
    case Atom(_) => j
    case Arr(items) => Arr(ShownAll(items))
    case Dict(_, keys, items) => Dict(Plain, keys, ShownAll(items))
  }

  function ShownAll(items: seq<Json>): (r: seq<Json>)
    ensures |r| == |items|
    ensures forall i :: 0 <= i < |items| ==> r[i] == Shown(items[i])
  {
    if items == [] then [] else [Shown(items[0])] + ShownAll(items[1..])
  }

  lemma {:induction false} KeptKeysTidy(keys: seq<string>)
    requires Ascending(keys) && Distinct(keys)
    ensures Ascending(KeptKeys(keys)) && Distinct(KeptKeys(keys)) && PROTO !in KeptKeys(keys)
    ensures forall k <- KeptKeys(keys) :: k in keys
  {
    if keys != [] {
      KeptKeysTidy(keys[1..]);
      var rest := KeptKeys(keys[1..]);
      forall k <- rest ensures StringLe(keys[0], k) && k != keys[0] {
        assert k in keys[1..];
      }
    }
  }

  lemma {:induction false} NormIsTidy(h: Heap, v: Value, seen: set<Ref>, j: Json)
    requires Closed(h) && In(h, v) && Norm(h, v, seen) == Ok(j)
    ensures Tidy(j)
    decreases |h.Keys - seen|
  {
    if v.Obj? {
      var r := v.ref;
      var items := NormOfNode(h, r, seen, j);
      FewerLeft(h, seen, r);
      forall i | 0 <= i < |items| ensures Tidy(items[i]) {
        assert Kids(h[r])[i] in Kids(h[r]);
        NormIsTidy(h, Kids(h[r])[i], seen + {r}, items[i]);
      }
      if h[r].ObjectNode? {
        var sorted := Sorted(h[r].keys);
        SortedAscends(h[r].keys);
        SortedHas(h[r].keys, PROTO);
        KeptKeysTidy(sorted);
        forall i | 0 <= i < |j.items| ensures Tidy(j.items[i]) {
          KeptItemsAre(sorted, items, j.items[i]);
        }
      }
    }
  }

  function Height(j: Json): nat {
    match j
    case Atom(_) => 0
    case Arr(items) => 1 + HighestOf(items)
    case Dict(_, _, items) => 1 + HighestOf(items)
  }

  function HighestOf(items: seq<Json>): (n: nat)
    ensures forall i :: 0 <= i < |items| ==> Height(items[i]) <= n
  {
    if items == [] then 0
    else Max(Height(items[0]), HighestOf(items[1..]))
  }

  lemma {:induction false} DenotesOne(g: Heap, v: Value, a: Json, b: Json)
    requires Denotes(g, v, a) && Tidy(a) && Denotes(g, v, b) && Tidy(b)
    ensures a == b
    decreases a
  {
    match a
    case Atom(_) =>
    case Arr(items) =>
      assert b.Arr?;
      forall i | 0 <= i < |items| ensures items[i] == b.items[i] {
        DenotesOne(g, g[v.ref].items[i], items[i], b.items[i]);
      }
      assert items == b.items;
    case Dict(_, keys, items) =>
      assert b.Dict?;
      AscendingIsUnique(keys, b.keys);
      forall i | 0 <= i < |items| ensures items[i] == b.items[i] {
        DenotesOne(g, g[v.ref].values[keys[i]], items[i], b.items[i]);
      }
      assert items == b.items;
  }

  ghost predicate TallerAt(g: Heap, r: Ref, n: nat) {
    exists j :: Denotes(g, Obj(r), j) && Tidy(j) && n < Height(j)
  }

  /** Everything on the path denotes something taller. */
  ghost predicate Above(g: Heap, seen: set<Ref>, n: nat) {
    forall r <- seen :: TallerAt(g, r, n)
  }

  lemma NotOnPath(g: Heap, r: Ref, seen: set<Ref>, j: Json)
    requires Denotes(g, Obj(r), j) && Tidy(j) && Above(g, seen, Height(j))
    ensures r !in seen
  {
    if r in seen {
      assert TallerAt(g, r, Height(j));
      var k :| Denotes(g, Obj(r), k) && Tidy(k) && Height(j) < Height(k);
      DenotesOne(g, Obj(r), j, k);
    }
  }

  lemma Lower(g: Heap, seen: set<Ref>, r: Ref, j: Json, n: nat)
    requires Denotes(g, Obj(r), j) && Tidy(j) && Above(g, seen, Height(j)) && n < Height(j)
    ensures Above(g, seen + {r}, n)
  {
    forall s <- seen + {r} ensures TallerAt(g, s, n) {
      if s in seen {
        assert TallerAt(g, s, Height(j));
        var k :| Denotes(g, Obj(s), k) && Tidy(k) && Height(j) < Height(k);
        assert Denotes(g, Obj(s), k) && Tidy(k) && n < Height(k);
      }
    }
  }

  /** The children of a node that denotes a tidy result, in the order of the visit. */
  lemma KidsDenote(g: Heap, r: Ref, j: Json)
    requires Closed(g) && Denotes(g, Obj(r), j) && Tidy(j)
    ensures |Kids(g[r])| == |j.items|
    ensures forall i :: 0 <= i < |j.items| ==> Denotes(g, Kids(g[r])[i], j.items[i])
    ensures j.Dict? ==> Sorted(g[r].keys) == j.keys
  {
    if j.Dict? {
      SortedForgetsOrder(g[r].keys, j.keys);
      SortedKeeps(j.keys);
    }
  }

  /** A second pass over a result without foreign prototypes gives what the first one shows. */
  lemma {:induction false} SecondPass(g: Heap, w: Value, seen: set<Ref>, j: Json)
    requires Closed(g) && In(g, w) && Denotes(g, w, j) && Tidy(j) && !HasCustom(j) && Above(g, seen, Height(j))
    ensures Norm(g, w, seen) == Ok(Shown(j))
    decreases j, 1
  {
    if !j.Atom? {
      var r := w.ref;
      NotOnPath(g, r, seen, j);
      FewerLeft(g, seen, r);
      KidsDenote(g, r, j);
      Lower(g, seen, r, j, HighestOf(j.items));
      SecondPassAll(g, Kids(g[r]), seen + {r}, j.items, j);
      if j.Dict? { ProtoOfFinds(j.keys, ShownAll(j.items)); }
    }
  }

  lemma {:induction false} SecondPassAll(g: Heap, vs: seq<Value>, seen: set<Ref>, items: seq<Json>, j: Json)
    requires Closed(g) && (forall v <- vs :: In(g, v)) && |vs| == |items|
    requires forall i :: 0 <= i < |items| ==>
      Denotes(g, vs[i], items[i]) && Tidy(items[i]) && !HasCustom(items[i]) && items[i] < j
    requires Above(g, seen, HighestOf(items))
    ensures NormAll(g, vs, seen) == Ok(ShownAll(items))
    decreases j, 0, |items|
  {
    if items != [] {
      AboveLower(g, seen, HighestOf(items), Height(items[0]));
      AboveLower(g, seen, HighestOf(items), HighestOf(items[1..]));
      SecondPass(g, vs[0], seen, items[0]);
      SecondPassAll(g, vs[1..], seen, items[1..], j);
    }
  }

  lemma AboveLower(g: Heap, seen: set<Ref>, n: nat, m: nat)
    requires Above(g, seen, n) && m <= n
    ensures Above(g, seen, m)
  {
    forall s <- seen ensures TallerAt(g, s, m) {
      assert TallerAt(g, s, n);
      var k :| Denotes(g, Obj(s), k) && Tidy(k) && n < Height(k);
      assert Denotes(g, Obj(s), k) && Tidy(k) && m < Height(k);
    }
  }

  /** A foreign prototype anywhere in the result is an object that the second pass refuses. */
  lemma {:induction false} CustomIsFault(g: Heap, w: Value, j: Json) returns (p: seq<Ref>)
    requires Closed(g) && Denotes(g, w, j) && Tidy(j) && HasCustom(j)
    ensures Descends(g, w, p) && BadNode(g, p[|p| - 1])
    decreases j
  {
    var r := w.ref;
    if j.Dict? && j.proto.Custom? {
      p := [r];
    } else {
      KidsDenote(g, r, j);
      var i :| 0 <= i < |j.items| && HasCustom(j.items[i]);
      var rest := CustomIsFault(g, Kids(g[r])[i], j.items[i]);
      assert Kids(g[r])[i] in Kids(g[r]);
      OneFurther(g, r, Kids(g[r])[i], rest);
      p := [r] + rest;
    }
  }

  /**
   Normalizing the result again succeeds, and then shows the same text, exactly when the
   original reaches no object with an object or array under an own key "__proto__".
   */
  lemma IdempotentExactly(h: Heap, v: Value, j: Json, g: Heap, w: Value)
    requires Closed(h) && In(h, v) && Norm(h, v, {}) == Ok(j)
    requires Closed(g) && In(g, w) && Denotes(g, w, j)
    ensures Norm(g, w, {}) == Ok(Shown(j)) <==> !ReachesProto(h, v)
    ensures Norm(g, w, {}).Err? <==> ReachesProto(h, v)
    ensures Shown(Shown(j)) == Shown(j)
  {
    NormIsTidy(h, v, {}, j);
    CustomExactly(h, v, j);
    if HasCustom(j) {
      var p := CustomIsFault(g, w, j);
      assert Fault(g, w, {}, p);
      FaultIsError(g, w, {}, p);
    } else {
      SecondPass(g, w, {}, j);
    }
    ShownTwice(j);
  }

  lemma {:induction false} ShownTwice(j: Json)
    ensures Shown(Shown(j)) == Shown(j)
  {
    if !j.Atom? {
      forall i | 0 <= i < |j.items|
        ensures Shown(ShownAll(j.items)[i]) == ShownAll(j.items)[i]
      {
        ShownTwice(j.items[i]);
      }
      assert ShownAll(ShownAll(j.items)) == ShownAll(j.items);
    }
  }

  lemma OneChild(h: Heap, v: Value, seen: set<Ref>, j: Json)
    requires Closed(h) && In(h, v) && Norm(h, v, seen) == Ok(j)
    ensures NormAll(h, [v], seen) == Ok([j])
  {
    var vs := [v];
    assert vs[1..] == [];
    assert NormAll(h, vs[1..], seen) == Ok([]);
    assert [j] + [] == [j];
  }

  lemma OnlyProtoKept(item: Json)
    ensures KeptKeys([PROTO]) == [] && KeptItems([PROTO], [item]) == []
  {
    assert [PROTO][1..] == [] && [item][1..] == [];
  }

  /** So two different JSON values share their canonical text: one with a "__proto__" number and one that is empty. */
  lemma ProtoKeyIsLost()
    ensures var h: Heap := map[0 := ObjectNode(Plain, [PROTO], map[PROTO := Scalar(Num(1.0))]),
                               1 := ObjectNode(Plain, [], map[])];
      Closed(h) && Norm(h, Obj(0), {}) == Norm(h, Obj(1), {}) == Ok(Dict(Plain, [], []))
  {
    var h: Heap := map[0 := ObjectNode(Plain, [PROTO], map[PROTO := Scalar(Num(1.0))]),
                       1 := ObjectNode(Plain, [], map[])];
    assert Sorted([PROTO]) == [PROTO] && Sorted([]) == [];
    assert Kids(h[0]) == [Scalar(Num(1.0))] && Kids(h[1]) == [];
    var none: set<Ref> := {};
    assert none + {0} == {0} && none + {1} == {1};
    var one := [Scalar(Num(1.0))];
    OneChild(h, one[0], {0}, Atom(Num(1.0)));
    assert NormAll(h, [], {1}) == Ok([]);
    OnlyProtoKept(Atom(Num(1.0)));
  }
}
