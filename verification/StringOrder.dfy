/**
 The order of strings, and sorting by it: `ORDER BY` in the stores, `sort()` elsewhere. Characters are compared
 by code point, as SQLite compares UTF-8. JavaScript compares UTF-16 units, which puts characters beyond the
 basic plane before some others; no theorem depends on which of the two total orders is meant.
 */
module StringOrder {
  predicate StringLe(a: string, b: string) {
    a == [] || (b != [] && (a[0] < b[0] || (a[0] == b[0] && StringLe(a[1..], b[1..]))))
  }

  lemma {:induction false} StringLeTotal(a: string, b: string)
    ensures StringLe(a, b) || StringLe(b, a)
    ensures StringLe(a, b) && StringLe(b, a) ==> a == b
  {
    if a != [] && b != [] && a[0] == b[0] {
      StringLeTotal(a[1..], b[1..]);
      assert a == [a[0]] + a[1..] && b == [b[0]] + b[1..];
    }
  }

  lemma {:induction false} StringLeTransitive(a: string, b: string, c: string)
    requires StringLe(a, b) && StringLe(b, c)
    ensures StringLe(a, c)
  {
    if a != [] && a[0] == b[0] == c[0] {
      StringLeTransitive(a[1..], b[1..], c[1..]);
    }
  }

  predicate Ascending(keys: seq<string>) {
    forall i, j :: 0 <= i < j < |keys| ==> StringLe(keys[i], keys[j])
  }

  function Insert(key: string, keys: seq<string>): (r: seq<string>)
    ensures multiset(r) == multiset{key} + multiset(keys)
  {
    if keys == [] then [key]
    else if StringLe(key, keys[0]) then [key] + keys
    else
      assert keys == [keys[0]] + keys[1..];
      [keys[0]] + Insert(key, keys[1..])
  }

  function Sorted(keys: seq<string>): (r: seq<string>)
    ensures multiset(r) == multiset(keys)
  {
    if keys == [] then []
    else
      assert keys == [keys[0]] + keys[1..];
      Insert(keys[0], Sorted(keys[1..]))
  }

  lemma HeadIsLeast(keys: seq<string>, key: string)
    requires Ascending(keys) && key in keys
    ensures StringLe(keys[0], key)
  {
    StringLeTotal(key, key);
  }

  lemma {:induction false} InsertAscends(key: string, keys: seq<string>)
    requires Ascending(keys)
    ensures Ascending(Insert(key, keys))
  {
    if keys != [] {
      StringLeTotal(key, keys[0]);
      if StringLe(key, keys[0]) {
        forall j | 0 <= j < |keys| ensures StringLe(key, keys[j]) {
          HeadIsLeast(keys, keys[j]);
          StringLeTransitive(key, keys[0], keys[j]);
        }
      } else {
        InsertAscends(key, keys[1..]);
        var rest := Insert(key, keys[1..]);
        forall j | 0 <= j < |rest| ensures StringLe(keys[0], rest[j]) {
          assert rest[j] in multiset(rest);
          assert rest[j] == key || rest[j] in keys[1..];
        }
      }
    }
  }

  lemma {:induction false} SortedAscends(keys: seq<string>)
    ensures Ascending(Sorted(keys))
  {
    if keys != [] {
      SortedAscends(keys[1..]);
      InsertAscends(keys[0], Sorted(keys[1..]));
    }
  }

  lemma SameHead(a: seq<string>, b: seq<string>)
    requires Ascending(a) && Ascending(b) && multiset(a) == multiset(b) && a != []
    ensures b != [] && a[0] == b[0]
  {
    assert a[0] in multiset(a);
    assert a[0] in b;
    assert b[0] in multiset(b);
    assert b[0] in a;
    HeadIsLeast(a, b[0]);
    HeadIsLeast(b, a[0]);
    StringLeTotal(a[0], b[0]);
  }

  lemma TailCounts(keys: seq<string>)
    requires keys != []
    ensures multiset(keys[1..]) == multiset(keys) - multiset{keys[0]}
  {
    assert keys == [keys[0]] + keys[1..];
  }

  lemma {:induction false} AscendingIsUnique(a: seq<string>, b: seq<string>)
    requires Ascending(a) && Ascending(b) && multiset(a) == multiset(b)
    ensures a == b
    decreases |a|
  {
    if a != [] {
      SameHead(a, b);
      TailCounts(a);
      TailCounts(b);
      AscendingIsUnique(a[1..], b[1..]);
      assert a == [a[0]] + a[1..] && b == [b[0]] + b[1..];
    } else {
      assert |multiset(b)| == 0;
    }
  }

  /** Sorting forgets the order its input came in. */
  lemma SortedForgetsOrder(a: seq<string>, b: seq<string>)
    requires multiset(a) == multiset(b)
    ensures Sorted(a) == Sorted(b)
  {
    SortedAscends(a);
    SortedAscends(b);
    AscendingIsUnique(Sorted(a), Sorted(b));
  }

  lemma SortedKeeps(keys: seq<string>)
    requires Ascending(keys)
    ensures Sorted(keys) == keys
  {
    SortedAscends(keys);
    AscendingIsUnique(Sorted(keys), keys);
  }
}
