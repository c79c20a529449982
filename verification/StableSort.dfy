/** Python's `sorted(ids, key=...)`: an ordered rearrangement that keeps ties in their original order.

`IsStableSort` is the contract; `UniqueStableSort` shows that it determines the result, so nothing
depends on the sorting algorithm used here.
 */
module StableSort {

  type Key = int -> real

  ghost predicate Ordered(s: seq<int>, key: Key) {
    forall i, j :: 0 <= i < j < |s| ==> key(s[i]) <= key(s[j])
  }

  // The elements with key v, in order.
  function WithKey(s: seq<int>, key: Key, v: real): seq<int> {
    if s == [] then []
    else (if key(s[0]) == v then [s[0]] else []) + WithKey(s[1..], key, v)
  }

  ghost predicate IsStableSort(input: seq<int>, output: seq<int>, key: Key) {
    && multiset(output) == multiset(input)
    && Ordered(output, key)
    && forall v :: WithKey(output, key, v) == WithKey(input, key, v)
  }

  function Insert(x: int, s: seq<int>, key: Key): seq<int> {
    if s == [] || key(x) <= key(s[0]) then [x] + s else [s[0]] + Insert(x, s[1..], key)
  }

  function Sorted(s: seq<int>, key: Key): seq<int> {
    if s == [] then [] else Insert(s[0], Sorted(s[1..], key), key)
  }

  lemma {:induction false} InsertAdds(x: int, s: seq<int>, key: Key)
    ensures multiset(Insert(x, s, key)) == multiset{x} + multiset(s)
  {
    if s != [] && key(x) > key(s[0]) {
      InsertAdds(x, s[1..], key);
      assert s == [s[0]] + s[1..];
    }
  }

  lemma {:induction false} InsertOrdered(x: int, s: seq<int>, key: Key)
    requires Ordered(s, key)
    ensures Ordered(Insert(x, s, key), key)
  {
    if s != [] && key(x) > key(s[0]) {
      InsertOrdered(x, s[1..], key);
      forall y | y in Insert(x, s[1..], key)
        ensures key(s[0]) <= key(y)
      {
        InsertedFrom(x, s[1..], key, y);
      }
      OrderedCons(s[0], Insert(x, s[1..], key), key);
    }
  }

  lemma InsertedFrom(x: int, s: seq<int>, key: Key, y: int)
    requires y in Insert(x, s, key)
    ensures y == x || y in s
  {
    InsertAdds(x, s, key);
    assert y in multiset(Insert(x, s, key));
  }

  lemma OrderedCons(x: int, s: seq<int>, key: Key)
    requires Ordered(s, key) && forall y :: y in s ==> key(x) <= key(y)
    ensures Ordered([x] + s, key)
  {
    var all := [x] + s;
    forall i, j | 0 <= i < j < |all|
      ensures key(all[i]) <= key(all[j])
    {
      assert all[j] == s[j - 1] && s[j - 1] in s;
    }
  }

  lemma WithKeyCons(x: int, s: seq<int>, key: Key, v: real)
    ensures key(x) == v ==> WithKey([x] + s, key, v) == [x] + WithKey(s, key, v)
    ensures key(x) != v ==> WithKey([x] + s, key, v) == WithKey(s, key, v)
  {
    assert ([x] + s)[1..] == s;
  }

  lemma {:induction false} InsertKeepsTies(x: int, s: seq<int>, key: Key, v: real)
    requires Ordered(s, key)
    ensures WithKey(Insert(x, s, key), key, v) == WithKey([x] + s, key, v)
  {
    if s != [] && key(x) > key(s[0]) {
      var tail := s[1..];
      InsertKeepsTies(x, tail, key, v);
      WithKeyCons(x, s, key, v);
      WithKeyCons(x, tail, key, v);
      WithKeyCons(s[0], tail, key, v);
      WithKeyCons(s[0], Insert(x, tail, key), key, v);
      assert s == [s[0]] + tail;
    }
  }

  lemma {:induction false} SortedIsStable(s: seq<int>, key: Key)
    ensures IsStableSort(s, Sorted(s, key), key)
  {
    if s != [] {
      SortedIsStable(s[1..], key);
      var rest := Sorted(s[1..], key);
      InsertAdds(s[0], rest, key);
      InsertOrdered(s[0], rest, key);
      assert s == [s[0]] + s[1..];
      forall v
        ensures WithKey(Sorted(s, key), key, v) == WithKey(s, key, v)
      {
        InsertKeepsTies(s[0], rest, key, v);
        WithKeyCons(s[0], rest, key, v);
        WithKeyCons(s[0], s[1..], key, v);
      }
    }
  }

  lemma {:induction false} KeyOccurs(s: seq<int>, key: Key, i: nat)
    requires i < |s|
    ensures WithKey(s, key, key(s[i])) != []
  {
    if i > 0 {
      KeyOccurs(s[1..], key, i - 1);
    }
  }

  lemma {:induction false} WithKeyHasKey(s: seq<int>, key: Key, v: real)
    ensures forall i :: 0 <= i < |WithKey(s, key, v)| ==> key(WithKey(s, key, v)[i]) == v && WithKey(s, key, v)[i] in s
  {
    if s != [] {
      WithKeyHasKey(s[1..], key, v);
    }
  }

  // Two stable sorts of one list have heads with the same key.
  lemma HeadAtMost(a: seq<int>, b: seq<int>, key: Key)
    requires a != [] && Ordered(b, key)
    requires WithKey(a, key, key(a[0])) == WithKey(b, key, key(a[0]))
    ensures b != [] && key(b[0]) <= key(a[0])
  {
    KeyOccurs(a, key, 0);
    WithKeyHasKey(b, key, key(a[0]));
    var x := WithKey(b, key, key(a[0]))[0];
    assert x in b && key(x) == key(a[0]);
    var j :| 0 <= j < |b| && b[j] == x;
  }

  lemma {:induction false} UniqueOrder(a: seq<int>, b: seq<int>, key: Key)
    requires Ordered(a, key) && Ordered(b, key)
    requires forall v :: WithKey(a, key, v) == WithKey(b, key, v)
    ensures a == b
  {
    if a == [] {
      if b != [] {
        KeyOccurs(b, key, 0);
        assert false;
      }
    } else {
      HeadAtMost(a, b, key);
      HeadAtMost(b, a, key);
      var v := key(a[0]);
      assert WithKey(a, key, v)[0] == a[0] && WithKey(b, key, v)[0] == b[0];
      forall w
        ensures WithKey(a[1..], key, w) == WithKey(b[1..], key, w)
      {
        var head := if w == v then 1 else 0;
        assert WithKey(a[1..], key, w) == WithKey(a, key, w)[head..];
        assert WithKey(b[1..], key, w) == WithKey(b, key, w)[head..];
      }
      UniqueOrder(a[1..], b[1..], key);
    }
  }

  lemma UniqueStableSort(input: seq<int>, output: seq<int>, key: Key)
    requires IsStableSort(input, output, key)
    ensures output == Sorted(input, key)
  {
    SortedIsStable(input, key);
    UniqueOrder(output, Sorted(input, key), key);
  }
}
