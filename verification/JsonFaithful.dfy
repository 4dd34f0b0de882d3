/**
 When the canonical text of a value tells it apart from all others: exactly when no
 object with an own key "__proto__" can be reached from it.
 */
module JsonFaithful {
  import opened Options
  import opened StringOrder
  import opened JsonNormal
  import opened JsonAgain

  /** `v` is the JSON value `j`: the same scalars, items in order, and own keys in any order. */
  predicate Represents(h: Heap, v: Value, j: Json)
    decreases j
  {
    match j
    case Atom(leaf) => v == Scalar(leaf)
    case Arr(items) =>
      && v.Obj? && v.ref in h && h[v.ref].ArrayNode? && |items| == |h[v.ref].items|
      && forall i :: 0 <= i < |items| ==> Represents(h, h[v.ref].items[i], items[i])
    case Dict(_, keys, items) =>
      && v.Obj? && v.ref in h && h[v.ref].ObjectNode? && |keys| == |items| && multiset(h[v.ref].keys) == multiset(keys)
      && forall i :: 0 <= i < |items| ==>
          keys[i] in h[v.ref].values && Represents(h, h[v.ref].values[keys[i]], items[i])
  }

  /** Two values in two heaps are one JSON value. */
  ghost predicate SameValue(h: Heap, v: Value, g: Heap, w: Value) {
    exists j :: Represents(h, v, j) && Represents(g, w, j)
  }

  /** An object with an own key "__proto__", whatever is under it. */
  predicate KeyedNode(h: Heap, r: Ref)
    requires r in h
  {
    h[r].ObjectNode? && PROTO in h[r].keys
  }

  ghost predicate ReachesKey(h: Heap, v: Value)
    requires Closed(h)
  {
    exists p :: Descends(h, v, p) && KeyedNode(h, p[|p| - 1])
  }

  predicate HasKey(j: Json) {
    match j
    case Atom(_) => false
    case Arr(items) => exists i :: 0 <= i < |items| && HasKey(items[i])
    case Dict(_, keys, items) => PROTO in keys || exists i :: 0 <= i < |items| && HasKey(items[i])
  }

  // ------------------------------------------------------ the key, in the heap and in the value

  lemma KeyFurther(h: Heap, r: Ref, child: Value)
    requires Closed(h) && r in h && child in Kids(h[r]) && ReachesKey(h, child)
    ensures ReachesKey(h, Obj(r))
  {
    var p :| Descends(h, child, p) && KeyedNode(h, p[|p| - 1]);
    OneFurther(h, r, child, p);
  }

  /** A child of an object is the value of one of its keys, and the other way round. */
  lemma ChildHasKey(n: Node, child: Value) returns (k: string)
    requires NodeOk(n) && n.ObjectNode? && child in Kids(n)
    ensures k in n.keys && k in n.values && n.values[k] == child
  {
    var i :| 0 <= i < |Kids(n)| && Kids(n)[i] == child;
    KidOf(n, i);
    k := Sorted(n.keys)[i];
    SortedHas(n.keys, k);
  }

  lemma KeyHasChild(n: Node, k: string)
    requires NodeOk(n) && n.ObjectNode? && k in n.keys
    ensures k in n.values && n.values[k] in Kids(n)
  {
    SortedHas(n.keys, k);
    var i :| 0 <= i < |Sorted(n.keys)| && Sorted(n.keys)[i] == k;
    KidOf(n, i);
    assert Kids(n)[i] == n.values[k];
  }

  lemma SameMembers(a: seq<string>, b: seq<string>, k: string)
    requires multiset(a) == multiset(b)
    ensures k in a <==> k in b
  {
    assert k in multiset(a) <==> k in multiset(b);
  }

  lemma {:induction false} KeyBelow(h: Heap, v: Value, j: Json, p: seq<Ref>)
    requires Closed(h) && Represents(h, v, j) && Descends(h, v, p) && KeyedNode(h, p[|p| - 1])
    ensures HasKey(j)
    decreases |p|
  {
    var r := p[0];
    if |p| == 1 {
      SameMembers(h[r].keys, j.keys, PROTO);
    } else {
      var rest := p[1..];
      assert Descends(h, Obj(p[1]), rest) && rest[|rest| - 1] == p[|p| - 1];
      if h[r].ArrayNode? {
        var i :| 0 <= i < |h[r].items| && h[r].items[i] == Obj(p[1]);
        KeyBelow(h, Obj(p[1]), j.items[i], rest);
      } else {
        var k := ChildHasKey(h[r], Obj(p[1]));
        SameMembers(h[r].keys, j.keys, k);
        var i :| 0 <= i < |j.keys| && j.keys[i] == k;
        KeyBelow(h, Obj(p[1]), j.items[i], rest);
      }
    }
  }

  lemma {:induction false} KeyAbove(h: Heap, v: Value, j: Json)
    requires Closed(h) && Represents(h, v, j) && HasKey(j)
    ensures ReachesKey(h, v)
    decreases j
  {
    var r := v.ref;
    if j.Arr? {
      var i :| 0 <= i < |j.items| && HasKey(j.items[i]);
      KeyAbove(h, h[r].items[i], j.items[i]);
      assert h[r].items[i] in Kids(h[r]);
      KeyFurther(h, r, h[r].items[i]);
    } else if PROTO in j.keys {
      SameMembers(h[r].keys, j.keys, PROTO);
      assert Descends(h, v, [r]);
    } else {
      var i :| 0 <= i < |j.items| && HasKey(j.items[i]);
      var k := j.keys[i];
      SameMembers(h[r].keys, j.keys, k);
      KeyHasChild(h[r], k);
      KeyAbove(h, h[r].values[k], j.items[i]);
      KeyFurther(h, r, h[r].values[k]);
    }
  }

  lemma KeyMeans(h: Heap, v: Value, j: Json)
    requires Closed(h) && Represents(h, v, j)
    ensures ReachesKey(h, v) <==> HasKey(j)
  {
    if HasKey(j) { KeyAbove(h, v, j); }
    if p :| Descends(h, v, p) && KeyedNode(h, p[|p| - 1]) { KeyBelow(h, v, j, p); }
  }

  lemma {:induction false} TidyHasNoKey(j: Json)
    requires Tidy(j)
    ensures !HasKey(j)
    decreases j
  {
    if !j.Atom? {
      forall i | 0 <= i < |j.items| ensures !HasKey(j.items[i]) { TidyHasNoKey(j.items[i]); }
    }
  }

  // ---------------------------------------------------------------- what the result represents

  lemma {:induction false} ResultRepresents(h: Heap, v: Value, seen: set<Ref>, j: Json)
    requires Closed(h) && In(h, v) && Norm(h, v, seen) == Ok(j) && !ReachesKey(h, v)
    ensures Represents(h, v, j)
    decreases |h.Keys - seen|
  {
    if v.Obj? {
      var r := v.ref;
      var kids := Kids(h[r]);
      var items := NormOfNode(h, r, seen, j);
      FewerLeft(h, seen, r);
      forall i | 0 <= i < |items| ensures Represents(h, kids[i], items[i]) {
        assert kids[i] in kids;
        if ReachesKey(h, kids[i]) { KeyFurther(h, r, kids[i]); }
        ResultRepresents(h, kids[i], seen + {r}, items[i]);
      }
      if h[r].ObjectNode? { ObjectRepresents(h, r, j, items); }
    }
  }

  lemma ObjectRepresents(h: Heap, r: Ref, j: Json, items: seq<Json>)
    requires Closed(h) && r in h && h[r].ObjectNode? && !ReachesKey(h, Obj(r))
    requires |items| == |Kids(h[r])| == |Sorted(h[r].keys)| && j == Assigned(Sorted(h[r].keys), items)
    requires forall i :: 0 <= i < |items| ==> Represents(h, Kids(h[r])[i], items[i])
    ensures Represents(h, Obj(r), j)
  {
    var sorted := Sorted(h[r].keys);
    NoKeyHere(h, r);
    SortedHas(h[r].keys, PROTO);
    ProtoOfFinds(sorted, items);
    forall i | 0 <= i < |items| ensures sorted[i] in h[r].values && Represents(h, h[r].values[sorted[i]], items[i]) {
      KidOf(h[r], i);
    }
  }

  lemma NoKeyHere(h: Heap, r: Ref)
    requires Closed(h) && r in h && !ReachesKey(h, Obj(r))
    ensures !KeyedNode(h, r)
  {
    if KeyedNode(h, r) { assert Descends(h, Obj(r), [r]); }
  }

  /** Main result: the result is the value that was given exactly when no own key "__proto__" can be reached. */
  lemma RepresentsExactly(h: Heap, v: Value, j: Json)
    requires Closed(h) && In(h, v) && Norm(h, v, {}) == Ok(j)
    ensures Represents(h, v, j) <==> !ReachesKey(h, v)
  {
    if Represents(h, v, j) {
      NormIsTidy(h, v, {}, j);
      TidyHasNoKey(j);
      KeyMeans(h, v, j);
    } else if !ReachesKey(h, v) {
      ResultRepresents(h, v, {}, j);
    }
  }

  // --------------------------------------------------------------------- what the text tells

  lemma {:induction false} ShownRepresents(h: Heap, v: Value, j: Json)
    ensures Represents(h, v, Shown(j)) <==> Represents(h, v, j)
    decreases j
  {
    match j
    case Atom(_) =>
    case Arr(items) =>
      if v.Obj? && v.ref in h && h[v.ref].ArrayNode? && |items| == |h[v.ref].items| {
        forall i | 0 <= i < |items|
          ensures Represents(h, h[v.ref].items[i], Shown(items[i])) <==> Represents(h, h[v.ref].items[i], items[i])
        { ShownRepresents(h, h[v.ref].items[i], items[i]); }
      }
    case Dict(_, keys, items) =>
      if v.Obj? && v.ref in h && h[v.ref].ObjectNode? && |keys| == |items| {
        forall i | 0 <= i < |items| && keys[i] in h[v.ref].values
          ensures Represents(h, h[v.ref].values[keys[i]], Shown(items[i]))
             <==> Represents(h, h[v.ref].values[keys[i]], items[i])
        { ShownRepresents(h, h[v.ref].values[keys[i]], items[i]); }
      }
  }

  /** One JSON value in two heaps, without the key, gives one text. */
  lemma {:induction false} OneText(h: Heap, v: Value, s: set<Ref>, a: Json, g: Heap, w: Value, t: set<Ref>, b: Json,
                                   j: Json)
    requires Closed(h) && In(h, v) && Norm(h, v, s) == Ok(a) && Represents(h, v, j)
    requires Closed(g) && In(g, w) && Norm(g, w, t) == Ok(b) && Represents(g, w, j)
    requires !HasKey(j)
    ensures Shown(a) == Shown(b)
    decreases j, 2
  {
    if !j.Atom? {
      var x, y := v.ref, w.ref;
      var left := NormOfNode(h, x, s, a);
      var right := NormOfNode(g, y, t, b);
      if j.Arr? {
        OneArray(h, x, s, left, g, y, t, right, j);
      } else {
        OneObject(h, x, s, left, g, y, t, right, j);
        SortedForgetsOrder(h[x].keys, g[y].keys);
        KeptWhole(h[x].keys, j.keys, left);
        KeptWhole(g[y].keys, j.keys, right);
      }
    }
  }

  /** The results of a node's children. */
  predicate Results(h: Heap, r: Ref, s: set<Ref>, items: seq<Json>)
    requires Closed(h) && r in h
  {
    && |items| == |Kids(h[r])|
    && forall i :: 0 <= i < |items| ==> In(h, Kids(h[r])[i]) && Norm(h, Kids(h[r])[i], s + {r}) == Ok(items[i])
  }

  lemma {:induction false} OneArray(h: Heap, x: Ref, s: set<Ref>, left: seq<Json>, g: Heap, y: Ref, t: set<Ref>,
                                    right: seq<Json>, j: Json)
    requires Closed(h) && x in h && Results(h, x, s, left) && Represents(h, Obj(x), j)
    requires Closed(g) && y in g && Results(g, y, t, right) && Represents(g, Obj(y), j)
    requires j.Arr? && !HasKey(j)
    ensures ShownAll(left) == ShownAll(right)
    decreases j, 1
  {
    forall i | 0 <= i < |j.items| ensures Shown(left[i]) == Shown(right[i]) {
      OneText(h, Kids(h[x])[i], s + {x}, left[i], g, Kids(g[y])[i], t + {y}, right[i], j.items[i]);
    }
  }

  lemma {:induction false} OneObject(h: Heap, x: Ref, s: set<Ref>, left: seq<Json>, g: Heap, y: Ref, t: set<Ref>,
                                     right: seq<Json>, j: Json)
    requires Closed(h) && x in h && Results(h, x, s, left) && Represents(h, Obj(x), j)
    requires Closed(g) && y in g && Results(g, y, t, right) && Represents(g, Obj(y), j)
    requires j.Dict? && !HasKey(j)
    ensures ShownAll(left) == ShownAll(right)
    decreases j, 1
  {
    SortedForgetsOrder(h[x].keys, g[y].keys);
    forall i | 0 <= i < |left| ensures Shown(left[i]) == Shown(right[i]) {
      OneKey(h, x, s, left[i], g, y, t, right[i], j, i);
    }
  }

  lemma {:induction false} OneKey(h: Heap, x: Ref, s: set<Ref>, a: Json, g: Heap, y: Ref, t: set<Ref>, b: Json, j: Json,
                                  i: nat)
    requires Closed(h) && x in h && i < |Kids(h[x])| && Represents(h, Obj(x), j)
    requires Closed(g) && y in g && i < |Kids(g[y])| && Represents(g, Obj(y), j)
    requires In(h, Kids(h[x])[i]) && Norm(h, Kids(h[x])[i], s + {x}) == Ok(a)
    requires In(g, Kids(g[y])[i]) && Norm(g, Kids(g[y])[i], t + {y}) == Ok(b)
    requires j.Dict? && !HasKey(j) && Sorted(h[x].keys) == Sorted(g[y].keys)
    ensures Shown(a) == Shown(b)
    decreases j, 0
  {
    var k := Sorted(h[x].keys)[i];
    KidOf(h[x], i);
    KidOf(g[y], i);
    SortedHas(h[x].keys, k);
    SameMembers(h[x].keys, j.keys, k);
    var m :| 0 <= m < |j.keys| && j.keys[m] == k;
    OneText(h, h[x].values[k], s + {x}, a, g, g[y].values[k], t + {y}, b, j.items[m]);
  }

  lemma KeptWhole(keys: seq<string>, others: seq<string>, items: seq<Json>)
    requires multiset(keys) == multiset(others) && PROTO !in others && Distinct(keys) && |items| == |Sorted(keys)|
    ensures Assigned(Sorted(keys), items) == Dict(Plain, Sorted(keys), items)
  {
    SameMembers(keys, others, PROTO);
    SortedHas(keys, PROTO);
    ProtoOfFinds(Sorted(keys), items);
  }

  /** Main result: among values that reach no such key, the text is the same exactly for the same JSON value. */
  lemma TextTellsApart(h: Heap, v: Value, a: Json, g: Heap, w: Value, b: Json)
    requires Closed(h) && In(h, v) && Norm(h, v, {}) == Ok(a) && !ReachesKey(h, v)
    requires Closed(g) && In(g, w) && Norm(g, w, {}) == Ok(b) && !ReachesKey(g, w)
    ensures Shown(a) == Shown(b) <==> SameValue(h, v, g, w)
  {
    if Shown(a) == Shown(b) {
      RepresentsExactly(h, v, a);
      RepresentsExactly(g, w, b);
      ShownRepresents(h, v, a);
      ShownRepresents(g, w, b);
      assert Represents(h, v, Shown(a)) && Represents(g, w, Shown(a));
    }
    if j :| Represents(h, v, j) && Represents(g, w, j) {
      KeyMeans(h, v, j);
      OneText(h, v, {}, a, g, w, {}, b, j);
    }
  }

  lemma {:induction false} ShownIsTidy(j: Json)
    requires Tidy(j)
    ensures Tidy(Shown(j)) && !HasCustom(Shown(j))
    decreases j
  {
    if !j.Atom? {
      forall i | 0 <= i < |j.items| ensures Tidy(ShownAll(j.items)[i]) && !HasCustom(ShownAll(j.items)[i]) {
        ShownIsTidy(j.items[i]);
      }
    }
  }

  lemma {:induction false} DenotedIsRepresented(g: Heap, w: Value, j: Json)
    requires Denotes(g, w, j)
    ensures Represents(g, w, j)
    decreases j
  {
    match j
    case Atom(_) =>
    case Arr(items) =>
      forall i | 0 <= i < |items| ensures Represents(g, g[w.ref].items[i], items[i]) {
        DenotedIsRepresented(g, g[w.ref].items[i], items[i]);
      }
    case Dict(_, keys, items) =>
      forall i | 0 <= i < |items|
        ensures keys[i] in g[w.ref].values && Represents(g, g[w.ref].values[keys[i]], items[i])
      {
        DenotedIsRepresented(g, g[w.ref].values[keys[i]], items[i]);
      }
  }

  /**
   Main result: take the value `w` that the text of `v` spells. It has the same text, and it is a
   different JSON value exactly when `v` reaches an own key "__proto__".
   */
  lemma TextIsSharedExactly(h: Heap, v: Value, j: Json, g: Heap, w: Value)
    requires Closed(h) && In(h, v) && Norm(h, v, {}) == Ok(j)
    requires Closed(g) && In(g, w) && Denotes(g, w, Shown(j))
    ensures Norm(g, w, {}) == Ok(Shown(j)) && Shown(Shown(j)) == Shown(j)
    ensures !SameValue(h, v, g, w) <==> ReachesKey(h, v)
  {
    var text := Shown(j);
    NormIsTidy(h, v, {}, j);
    ShownIsTidy(j);
    SecondPass(g, w, {}, text);
    ShownTwice(j);
    DenotedIsRepresented(g, w, text);
    if ReachesKey(h, v) {
      TidyHasNoKey(text);
      KeyMeans(g, w, text);
      if k :| Represents(h, v, k) && Represents(g, w, k) {
        KeyMeans(h, v, k);
        KeyMeans(g, w, k);
      }
    } else {
      RepresentsExactly(h, v, j);
      ShownRepresents(h, v, j);
    }
  }
}
