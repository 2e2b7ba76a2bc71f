/** Sequence helpers shared by the client-side models: the order-preserving
    `Array.prototype.filter` and `Array.prototype.find` of JavaScript. */
module Seqs {

  /** `s.filter(keep)`: the elements that satisfy `keep`, in their original order. */
  function Filter<T(!new)>(s: seq<T>, keep: T -> bool): (r: seq<T>)
    ensures |r| <= |s|
    ensures forall i :: 0 <= i < |r| ==> keep(r[i])
  {
    if s == [] then []
    else
      assert s == [s[0]] + s[1..];
      (if keep(s[0]) then [s[0]] else []) + Filter(s[1..], keep)
  }

  /** The filter keeps every copy of each element that passes and no copy
      of any other. */
  lemma {:induction false} FilterCount<T(!new)>(s: seq<T>, keep: T -> bool)
    ensures forall x :: multiset(Filter(s, keep))[x] == if keep(x) then multiset(s)[x] else 0
  {
    if s != [] {
      FilterCount(s[1..], keep);
      FilterCons(s, keep);
      var head := if keep(s[0]) then [s[0]] else [];
      assert s == [s[0]] + s[1..];
      assert multiset(s) == multiset{s[0]} + multiset(s[1..]);
      assert multiset(Filter(s, keep)) == multiset(head) + multiset(Filter(s[1..], keep));
    }
  }

  /** One step of the filter: the first element, if kept, then the rest. */
  lemma FilterCons<T(!new)>(s: seq<T>, keep: T -> bool)
    requires s != []
    ensures Filter(s, keep) == (if keep(s[0]) then [s[0]] else []) + Filter(s[1..], keep)
  {
  }

  /** Filtering distributes over concatenation, so the kept elements keep
      their relative order. */
  lemma {:induction false} FilterAppend<T(!new)>(a: seq<T>, b: seq<T>, keep: T -> bool)
    ensures Filter(a + b, keep) == Filter(a, keep) + Filter(b, keep)
  {
    if a == [] {
      assert a + b == b;
    } else {
      var head := if keep(a[0]) then [a[0]] else [];
      FilterCons(a + b, keep);
      FilterCons(a, keep);
      assert (a + b)[0] == a[0] && (a + b)[1..] == a[1..] + b;
      FilterAppend(a[1..], b, keep);
      assert head + (Filter(a[1..], keep) + Filter(b, keep)) == (head + Filter(a[1..], keep)) + Filter(b, keep);
    }
  }

  /** Splitting a sequence at any point and joining the halves gives it back. */
  lemma SplitJoin<T>(s: seq<T>, j: int)
    requires 0 <= j <= |s|
    ensures s[..j] + s[j..] == s
  {
  }

  /** A prefix one longer is the prefix plus the next element. */
  lemma TakeSnoc<T>(s: seq<T>, i: int)
    requires 0 <= i < |s|
    ensures s[..i + 1] == s[..i] + [s[i]]
  {
  }

  /** The prefix as long as the sequence is the sequence. */
  lemma TakeAll<T>(s: seq<T>)
    ensures s[..|s|] == s
  {
  }

  /** Filtering one more element appends it exactly when it passes. */
  lemma FilterSnoc<T(!new)>(s: seq<T>, x: T, keep: T -> bool)
    ensures Filter(s + [x], keep) == Filter(s, keep) + (if keep(x) then [x] else [])
  {
    FilterAppend(s, [x], keep);
    assert [x][1..] == [];
    var last := if keep(x) then [x] else [];
    assert Filter([x], keep) == last + Filter([], keep);
    assert last + [] == last;
  }

  /** Filtering a sequence none of whose elements passes gives nothing. */
  lemma FilterNoneKept<T(!new)>(s: seq<T>, keep: T -> bool)
    requires forall i :: 0 <= i < |s| ==> !keep(s[i])
    ensures Filter(s, keep) == []
  {
  }

  /** An element that fails the test can be inserted anywhere without
      changing what the filter keeps. */
  lemma FilterInsertDropped<T(!new)>(a: seq<T>, x: T, b: seq<T>, keep: T -> bool)
    requires !keep(x)
    ensures Filter(a + [x] + b, keep) == Filter(a + b, keep)
  {
    FilterAppend(a + [x], b, keep);
    FilterSnoc(a, x, keep);
    FilterAppend(a, b, keep);
  }

  /** Inserting an element in front of a part that the filter drops entirely
      puts it, if kept, at the end of what is kept. */
  lemma FilterInsertLast<T(!new)>(a: seq<T>, x: T, b: seq<T>, keep: T -> bool)
    requires forall i :: 0 <= i < |b| ==> !keep(b[i])
    ensures Filter(a + [x] + b, keep) == Filter(a + b, keep) + (if keep(x) then [x] else [])
  {
    FilterAppend(a + [x], b, keep);
    FilterSnoc(a, x, keep);
    FilterAppend(a, b, keep);
    FilterNoneKept(b, keep);
    assert Filter(a + [x], keep) + [] == Filter(a + [x], keep);
    assert Filter(a, keep) + [] == Filter(a, keep);
  }

  /** Inserting `x` at position `j`, in front of a part the filter drops
      whenever it keeps `x`, appends `x` to what is kept if it passes and
      changes nothing otherwise. */
  lemma FilterInsert<T(!new)>(r: seq<T>, j: int, x: T, keep: T -> bool)
    requires 0 <= j <= |r|
    requires keep(x) ==> forall k :: j <= k < |r| ==> !keep(r[k])
    ensures Filter(r[..j] + [x] + r[j..], keep) == Filter(r, keep) + (if keep(x) then [x] else [])
  {
    SplitJoin(r, j);
    if keep(x) {
      assert forall i :: 0 <= i < |r[j..]| ==> r[j..][i] == r[j + i];
      FilterInsertLast(r[..j], x, r[j..], keep);
    } else {
      FilterInsertDropped(r[..j], x, r[j..], keep);
    }
  }

  /** Filtering a sequence whose elements all pass leaves it unchanged. */
  lemma {:induction false} FilterAllKept<T(!new)>(s: seq<T>, keep: T -> bool)
    requires forall i :: 0 <= i < |s| ==> keep(s[i])
    ensures Filter(s, keep) == s
  {
    if s != [] {
      FilterAllKept(s[1..], keep);
    }
  }

  /** Index of the first element satisfying `p` (`findIndex`), if any. */
  function FindIndex<T>(s: seq<T>, p: T -> bool): (r: int)
    ensures -1 <= r < |s|
    ensures r >= 0 ==> p(s[r]) && forall j :: 0 <= j < r ==> !p(s[j])
    ensures r == -1 ==> forall j :: 0 <= j < |s| ==> !p(s[j])
  {
    if s == [] then -1
    else if p(s[0]) then 0
    else
      var k := FindIndex(s[1..], p);
      if k == -1 then -1 else k + 1
  }
}
