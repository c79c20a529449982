/** Result types and small facts about collections shared by the other modules. */
module Common {

  datatype Option<+T> = None | Some(value: T)

  datatype Result<+T, +E> = Ok(value: T) | Err(error: E)

  ghost predicate NoRepeats<T>(s: seq<T>) {
    forall i, j :: 0 <= i < j < |s| ==> s[i] != s[j]
  }

  function Elements<T(==,!new)>(s: seq<T>): (r: set<T>)
    ensures forall x :: x in r <==> x in s
  {
    set x | x in s
  }

  // Python's s[:k], negative bounds included.
  function Top<T>(s: seq<T>, k: int): (r: seq<T>)
    ensures r <= s
    ensures k >= 0 ==> |r| <= k && (|r| == k || r == s)
    ensures k < 0 ==> |r| == if |s| + k > 0 then |s| + k else 0
  {
    if k >= |s| then s
    else if k >= 0 then s[..k]
    else if |s| + k > 0 then s[..|s| + k]
    else []
  }

  // Python's s[offset : offset + size].
  function Page<T>(s: seq<T>, offset: nat, size: nat): seq<T> {
    if offset >= |s| then []
    else if offset + size <= |s| then s[offset..offset + size]
    else s[offset..]
  }

  // Number of elements before index k that are kept.
  ghost function CountBefore<T(!new)>(s: seq<T>, keep: T -> bool, k: nat): nat
    requires k <= |s|
  {
    |set j | 0 <= j < k && keep(s[j])|
  }

  lemma CountBeforeNone<T(!new)>(s: seq<T>, keep: T -> bool)
    ensures CountBefore(s, keep, 0) == 0
  {
  }

  lemma CountBeforeStep<T(!new)>(s: seq<T>, keep: T -> bool, k: nat)
    requires k < |s|
    ensures CountBefore(s, keep, k + 1) == CountBefore(s, keep, k) + if keep(s[k]) then 1 else 0
  {
    var before := set j | 0 <= j < k && keep(s[j]);
    assert (set j | 0 <= j < k + 1 && keep(s[j])) == if keep(s[k]) then before + {k} else before;
  }

  lemma CountBeforePrefix<T(!new)>(s: seq<T>, t: seq<T>, keep: T -> bool, k: nat)
    requires k <= |s|
    ensures CountBefore(s + t, keep, k) == CountBefore(s, keep, k)
  {
    assert (set j | 0 <= j < k && keep((s + t)[j])) == set j | 0 <= j < k && keep(s[j]);
  }

  lemma {:induction false} CountBeforeConcat<T(!new)>(s: seq<T>, t: seq<T>, keep: T -> bool)
    ensures CountBefore(s + t, keep, |s + t|) == CountBefore(s, keep, |s|) + CountBefore(t, keep, |t|)
  {
    hide CountBefore;
    if t == [] {
      CountBeforeNone(t, keep);
      assert s + t == s;
    } else {
      var init, last := t[..|t| - 1], t[|t| - 1];
      assert t == init + [last] && s + t == (s + init) + [last];
      CountBeforeConcat(s, init, keep);
      CountBeforeAppend(s + init, last, keep);
      CountBeforeAppend(init, last, keep);
    }
  }

  lemma CountBeforeAppend<T(!new)>(s: seq<T>, x: T, keep: T -> bool)
    ensures CountBefore(s + [x], keep, |s| + 1) == CountBefore(s, keep, |s|) + if keep(x) then 1 else 0
  {
    hide CountBefore;
    CountBeforeStep(s + [x], keep, |s|);
    CountBeforePrefix(s, [x], keep, |s|);
  }

  lemma NoPageBehindTheEnd<T>(s: seq<T>, offset: nat, size: nat)
    ensures Page(s, offset, size) != [] ==> offset < |s|
  {
  }

  lemma SubsetSize<T>(a: set<T>, b: set<T>)
    requires a <= b
    ensures |a| <= |b|
    ensures |a| == |b| ==> a == b
  {
    assert b == a + (b - a);
    assert |b| == |a| + |b - a|;
  }
}
