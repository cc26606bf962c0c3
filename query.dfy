/** The aggregation and query stages the controllers use, as functions on sequences of
    records: `$match` (Filter), `findOne` (FirstIndex), `findOneAndDelete` (RemoveAt),
    `$size` and `countDocuments` (Count), `$sum` (Sum) and `$sort` (SortOn). */
module Query {
  import opened Common
  import Text

  /** `$match`: the records the predicate accepts, in collection order. */
  function Filter<T>(s: seq<T>, p: T -> bool): (r: seq<T>)
    ensures |r| <= |s|
    ensures forall i :: 0 <= i < |r| ==> r[i] in s && p(r[i])
    ensures forall i :: 0 <= i < |s| && p(s[i]) ==> s[i] in r
  {
    if s == [] then []
    else
      (if p(s[0]) then [s[0]] else []) + Filter(s[1..], p)
  }

  lemma {:induction false} FilterAppend<T>(a: seq<T>, b: seq<T>, p: T -> bool)
    ensures Filter(a + b, p) == Filter(a, p) + Filter(b, p)
  {
    if a == [] {
      assert a + b == b;
    } else {
      assert (a + b)[0] == a[0] && (a + b)[1..] == a[1..] + b;
      FilterAppend(a[1..], b, p);
    }
  }

  /** Filtering keeps exactly the multiplicity of the accepted records. */
  lemma {:induction false} FilterMultiset<T>(s: seq<T>, p: T -> bool, x: T)
    ensures multiset(Filter(s, p))[x] == if p(x) then multiset(s)[x] else 0
  {
    if s != [] {
      FilterMultiset(s[1..], p, x);
      assert s == [s[0]] + s[1..];
    }
  }

  lemma {:induction false} FilterKeepsAll<T>(s: seq<T>, p: T -> bool)
    requires forall i :: 0 <= i < |s| ==> p(s[i])
    ensures Filter(s, p) == s
  {
    if s != [] {
      FilterKeepsAll(s[1..], p);
    }
  }

  /** A rejected first element contributes nothing to the filter. */
  lemma FilterConsRejected<T>(x: T, rest: seq<T>, p: T -> bool)
    requires !p(x)
    ensures Filter([x] + rest, p) == Filter(rest, p)
  {
    var s := [x] + rest;
    assert s[0] == x && s[1..] == rest;
    assert Filter(s, p) == [] + Filter(rest, p);
  }

  /** `RemoveAt` splices out one element. */
  lemma RemoveAtIsSplice<T>(s: seq<T>, i: nat)
    requires i < |s|
    ensures RemoveAt(s, i) == s[..i] + s[i + 1..]
  {
  }

  /** A sequence is its prefix before `i`, the record at `i`, and the suffix after it. */
  lemma SplitAround<T>(s: seq<T>, i: nat)
    requires i < |s|
    ensures s == s[..i] + ([s[i]] + s[i + 1..])
  {
  }

  /** Removing a record the predicate rejects does not change what the filter keeps. */
  lemma FilterRemoveRejected<T>(s: seq<T>, p: T -> bool, i: nat)
    requires i < |s| && !p(s[i])
    ensures Filter(RemoveAt(s, i), p) == Filter(s, p)
  {
    RemoveAtIsSplice(s, i);
    FilterAppend(s[..i], s[i + 1..], p);
    FilterConsRejected(s[i], s[i + 1..], p);
    SplitAround(s, i);
    FilterAppend(s[..i], [s[i]] + s[i + 1..], p);
  }

  /** `$size` of a `$lookup` result, or `countDocuments`. */
  function Count<T>(s: seq<T>, p: T -> bool): (n: nat)
    ensures n <= |s|
    ensures n == 0 <==> forall i :: 0 <= i < |s| ==> !p(s[i])
  {
    var r := Filter(s, p);
    assert r != [] ==> r[0] in s && p(r[0]);
    |r|
  }

  lemma CountAppend<T>(a: seq<T>, b: seq<T>, p: T -> bool)
    ensures Count(a + b, p) == Count(a, p) + Count(b, p)
  {
    FilterAppend(a, b, p);
  }

  /** Removing a record the predicate accepts lowers the count by one. */
  lemma CountRemoveAccepted<T>(s: seq<T>, p: T -> bool, i: nat)
    requires i < |s| && p(s[i])
    ensures Count(RemoveAt(s, i), p) == Count(s, p) - 1
  {
    var before, after := s[..i], s[i + 1..];
    assert s == before + ([s[i]] + after);
    assert RemoveAt(s, i) == before + after;
    FilterAppend(before, [s[i]] + after, p);
    FilterAppend([s[i]], after, p);
    assert Filter([s[i]], p) == [s[i]] + Filter([], p);
    FilterAppend(before, after, p);
  }

  /** `findOne`: the position of the first record the predicate accepts. */
  function FirstIndex<T>(s: seq<T>, p: T -> bool): (r: Option<nat>)
    ensures r.Some? ==> r.value < |s| && p(s[r.value]) && forall j :: 0 <= j < r.value ==> !p(s[j])
    ensures r.None? <==> forall j :: 0 <= j < |s| ==> !p(s[j])
  {
    if s == [] then None
    else if p(s[0]) then Some(0)
    else match FirstIndex(s[1..], p)
      case None => None
      case Some(i) => Some(i + 1)
  }

  /** `findOneAndDelete` once the first match is at `i`. */
  function RemoveAt<T>(s: seq<T>, i: nat): (r: seq<T>)
    requires i < |s|
    ensures |r| == |s| - 1
    ensures forall j :: 0 <= j < i ==> r[j] == s[j]
    ensures forall j :: i <= j < |r| ==> r[j] == s[j + 1]
    ensures multiset(r) == multiset(s) - multiset{s[i]}
  {
    assert s == s[..i] + [s[i]] + s[i + 1..];
    s[..i] + s[i + 1..]
  }

  /** Removing past the head keeps the head. */
  lemma RemoveAtCons<T>(s: seq<T>, i: nat)
    requires 0 < i < |s|
    ensures RemoveAt(s, i) == [s[0]] + RemoveAt(s[1..], i - 1)
  {
  }

  /** `$sum` of a numeric field. */
  function Sum<T>(s: seq<T>, f: T -> int): int {
    if s == [] then 0 else f(s[0]) + Sum(s[1..], f)
  }

  lemma {:induction false} SumAppend<T>(a: seq<T>, b: seq<T>, f: T -> int)
    ensures Sum(a + b, f) == Sum(a, f) + Sum(b, f)
  {
    if a == [] {
      assert a + b == b;
    } else {
      assert (a + b)[0] == a[0] && (a + b)[1..] == a[1..] + b;
      SumAppend(a[1..], b, f);
    }
  }

  /** Summing over the kept elements equals summing over all of them with the dropped
      ones counted as 0. */
  lemma {:induction false} SumFilter<T>(s: seq<T>, p: T -> bool, f: T -> int, g: T -> int)
    requires forall x :: g(x) == if p(x) then f(x) else 0
    ensures Sum(Filter(s, p), f) == Sum(s, g)
  {
    if s != [] {
      var head := if p(s[0]) then [s[0]] else [];
      SumFilter(s[1..], p, f, g);
      SumAppend(head, Filter(s[1..], p), f);
      assert Sum(head, f) == g(s[0]) by {
        if p(s[0]) {
          assert head[1..] == [];
        }
      }
    }
  }

  /** A value `$sort` compares: numbers, strings and dates, in BSON's cross-type order
      (numbers before strings before dates). */
  datatype SortKey = Num(n: int) | Str(s: string) | Date(t: Instant)

  function Rank(k: SortKey): nat {
    match k
    case Num(_) => 0
    case Str(_) => 1
    case Date(_) => 2
  }

  predicate KeyLe(a: SortKey, b: SortKey) {
    if Rank(a) != Rank(b) then Rank(a) < Rank(b)
    else match a
      case Num(x) => x <= b.n
      case Str(x) => Text.LexLe(x, b.s)
      case Date(x) => NotAfter(x, b.t)
  }

  lemma KeyLeTotal(a: SortKey, b: SortKey)
    ensures KeyLe(a, b) || KeyLe(b, a)
  {
    if a.Str? && b.Str? {
      Text.LexLeTotal(a.s, b.s);
    }
  }

  lemma KeyLeTransitive(a: SortKey, b: SortKey, c: SortKey)
    requires KeyLe(a, b) && KeyLe(b, c)
    ensures KeyLe(a, c)
  {
    if a.Str? && b.Str? && c.Str? {
      Text.LexLeTransitive(a.s, b.s, c.s);
    }
  }

  /** `1` or `-1` in a `$sort` stage. */
  datatype Direction = Ascending | Descending

  /** `x` may come before `y` in a `$sort` on `key` in direction `dir`. */
  predicate Precedes<T>(x: T, y: T, key: T -> SortKey, dir: Direction) {
    if dir == Ascending then KeyLe(key(x), key(y)) else KeyLe(key(y), key(x))
  }

  ghost predicate SortedOn<T>(s: seq<T>, key: T -> SortKey, dir: Direction) {
    forall i, j :: 0 <= i < j < |s| ==> Precedes(s[i], s[j], key, dir)
  }

  function InsertOn<T>(x: T, s: seq<T>, key: T -> SortKey, dir: Direction): (r: seq<T>)
    ensures |r| == |s| + 1
    ensures multiset(r) == multiset(s) + multiset{x}
  {
    if s == [] || Precedes(x, s[0], key, dir) then [x] + s
    else
      assert s == [s[0]] + s[1..];
      [s[0]] + InsertOn(x, s[1..], key, dir)
  }

  /** `$sort`: the records in order of `key`. Records with equal keys keep their
      collection order (MongoDB leaves their order unspecified). */
  function SortOn<T>(s: seq<T>, key: T -> SortKey, dir: Direction): (r: seq<T>)
    ensures |r| == |s|
    ensures multiset(r) == multiset(s)
  {
    if s == [] then []
    else
      assert s == [s[0]] + s[1..];
      InsertOn(s[0], SortOn(s[1..], key, dir), key, dir)
  }

  /** Inserting before the head keeps a sorted sequence sorted. */
  lemma InsertAtHeadSorted<T>(x: T, s: seq<T>, key: T -> SortKey, dir: Direction)
    requires SortedOn(s, key, dir) && (s == [] || Precedes(x, s[0], key, dir))
    ensures SortedOn([x] + s, key, dir)
  {
    forall j | 0 < j < |s| ensures Precedes(x, s[j], key, dir) {
      if dir == Ascending {
        KeyLeTransitive(key(x), key(s[0]), key(s[j]));
      } else {
        KeyLeTransitive(key(s[j]), key(s[0]), key(x));
      }
    }
  }

  /** Inserting past the head keeps a sorted sequence sorted, once the insertion into
      the tail does. */
  lemma InsertPastHeadSorted<T>(x: T, s: seq<T>, key: T -> SortKey, dir: Direction)
    requires s != [] && !Precedes(x, s[0], key, dir)
    requires SortedOn(s, key, dir) && SortedOn(InsertOn(x, s[1..], key, dir), key, dir)
    ensures SortedOn([s[0]] + InsertOn(x, s[1..], key, dir), key, dir)
  {
    KeyLeTotal(key(x), key(s[0]));
    var rest := InsertOn(x, s[1..], key, dir);
    forall y | y in rest ensures Precedes(s[0], y, key, dir) {
      assert y in multiset(rest);
      if y != x {
        var j :| 1 <= j < |s| && s[j] == y by {
          assert y in multiset(s[1..]);
          assert y in s[1..];
        }
      }
    }
    var r := [s[0]] + rest;
    forall i, j | 0 <= i < j < |r| ensures Precedes(r[i], r[j], key, dir) {
      if i == 0 {
        assert r[j] == rest[j - 1];
      } else {
        assert r[i] == rest[i - 1] && r[j] == rest[j - 1];
      }
    }
  }

  lemma {:induction false} InsertOnSorted<T>(x: T, s: seq<T>, key: T -> SortKey, dir: Direction)
    requires SortedOn(s, key, dir)
    ensures SortedOn(InsertOn(x, s, key, dir), key, dir)
  {
    if s == [] || Precedes(x, s[0], key, dir) {
      InsertAtHeadSorted(x, s, key, dir);
    } else {
      assert SortedOn(s[1..], key, dir);
      InsertOnSorted(x, s[1..], key, dir);
      InsertPastHeadSorted(x, s, key, dir);
    }
  }

  /** The result of `$sort` is in order. */
  lemma {:induction false} SortOnSorted<T>(s: seq<T>, key: T -> SortKey, dir: Direction)
    ensures SortedOn(SortOn(s, key, dir), key, dir)
  {
    if s != [] {
      SortOnSorted(s[1..], key, dir);
      InsertOnSorted(s[0], SortOn(s[1..], key, dir), key, dir);
    }
  }

  /** The result of `$sort` holds exactly the records it was given. */
  lemma SortOnMembers<T>(s: seq<T>, key: T -> SortKey, dir: Direction, x: T)
    ensures x in SortOn(s, key, dir) <==> x in s
  {
    var r := SortOn(s, key, dir);
    assert x in r <==> x in multiset(r);
    assert x in s <==> x in multiset(s);
  }

  /** The records of the joined collection that `$lookup` pairs with `x`. */
  function PartnersOf<A, B>(joins: (A, B) -> bool, x: A): B -> bool {
    (y: B) => joins(x, y)
  }

  /** `$lookup` from `ys` followed by `$unwind`: one pair for each record of `xs` and each
      record of `ys` joined to it, in the order of `xs` and then of `ys`. A record of `xs`
      that joins nothing yields no pair. */
  function Unwind<A, B>(xs: seq<A>, ys: seq<B>, joins: (A, B) -> bool): (r: seq<(A, B)>)
    ensures forall k :: 0 <= k < |r| ==> r[k].0 in xs && r[k].1 in ys && joins(r[k].0, r[k].1)
  {
    if xs == [] then []
    else
      var x := xs[0];
      var found := Filter(ys, PartnersOf(joins, x));
      seq(|found|, k requires 0 <= k < |found| => (x, found[k])) + Unwind(xs[1..], ys, joins)
  }

  /** Every joined pair is in the result of `Unwind`. */
  lemma {:induction false} UnwindComplete<A, B>(xs: seq<A>, ys: seq<B>, joins: (A, B) -> bool, i: nat, j: nat)
    requires i < |xs| && j < |ys| && joins(xs[i], ys[j])
    ensures (xs[i], ys[j]) in Unwind(xs, ys, joins)
  {
    var x := xs[0];
    if i == 0 {
      var found := Filter(ys, PartnersOf(joins, x));
      var k :| 0 <= k < |found| && found[k] == ys[j];
      var head := seq(|found|, k requires 0 <= k < |found| => (x, found[k]));
      assert head[k] == (xs[i], ys[j]);
    } else {
      UnwindComplete(xs[1..], ys, joins, i - 1, j);
      assert xs[1..][i - 1] == xs[i];
    }
  }

  /** A collection in which exactly the record at `k` passes has a count of one. */
  lemma {:induction false} CountExactlyOne<T>(s: seq<T>, p: T -> bool, k: nat)
    requires k < |s| && p(s[k])
    requires forall i :: 0 <= i < |s| && i != k ==> !p(s[i])
    ensures Count(s, p) == 1
  {
    if k == 0 {
      assert Count(s[1..], p) == 0;
    } else {
      CountExactlyOne(s[1..], p, k - 1);
    }
  }

  /** When every record has exactly one partner, `$unwind` keeps one row per record. */
  lemma {:induction false} UnwindLength<A, B>(xs: seq<A>, ys: seq<B>, joins: (A, B) -> bool)
    requires forall i :: 0 <= i < |xs| ==> Count(ys, PartnersOf(joins, xs[i])) == 1
    ensures |Unwind(xs, ys, joins)| == |xs|
  {
    if xs != [] {
      UnwindLength(xs[1..], ys, joins);
    }
  }

  /** `$project`: each record reshaped by `f`, in order. */
  function Project<A, B>(s: seq<A>, f: A -> B): (r: seq<B>)
    ensures |r| == |s| && forall k :: 0 <= k < |s| ==> r[k] == f(s[k])
  {
    seq(|s|, k requires 0 <= k < |s| => f(s[k]))
  }

  /** `findOneAndDelete(filter)`: the collection without the first record the filter accepts. */
  function DeleteFirst<T>(s: seq<T>, p: T -> bool): (r: seq<T>)
    ensures FirstIndex(s, p).None? ==> r == s
    ensures FirstIndex(s, p).Some? ==> r == RemoveAt(s, FirstIndex(s, p).value)
  {
    if s == [] then []
    else if p(s[0]) then s[1..]
    else
      assert s == [s[0]] + s[1..];
      assert forall i :: 0 <= i < |s| - 1 ==> RemoveAt(s, i + 1) == [s[0]] + RemoveAt(s[1..], i);
      [s[0]] + DeleteFirst(s[1..], p)
  }

  /** `findOneAndUpdate(filter, change, { new: true })`: the first record the filter
      accepts is rewritten by `change`. */
  function UpdateFirst<T>(s: seq<T>, p: T -> bool, change: T -> T): (r: seq<T>)
    ensures FirstIndex(s, p).None? ==> r == s
    ensures FirstIndex(s, p).Some? ==> r == s[FirstIndex(s, p).value := change(s[FirstIndex(s, p).value])]
  {
    if s == [] then []
    else if p(s[0]) then [change(s[0])] + s[1..]
    else [s[0]] + UpdateFirst(s[1..], p, change)
  }

  /** A predicate no two records satisfy is satisfied at most once. */
  lemma {:induction false} CountAtMostOne<T>(s: seq<T>, p: T -> bool)
    requires forall i, j :: 0 <= i < j < |s| ==> !(p(s[i]) && p(s[j]))
    ensures Count(s, p) <= 1
  {
    if s != [] {
      CountAtMostOne(s[1..], p);
      if p(s[0]) {
        forall j | 0 <= j < |s[1..]| ensures !p(s[1..][j]) {
          assert s[1..][j] == s[j + 1];
        }
      }
    }
  }

  /** When at most one record matches, deleting the first match deletes every match. */
  lemma {:induction false} DeleteFirstIsFilter<T>(s: seq<T>, p: T -> bool, keep: T -> bool)
    requires Count(s, p) <= 1
    requires forall x :: keep(x) == !p(x)
    ensures DeleteFirst(s, p) == Filter(s, keep)
  {
    if s != [] {
      if p(s[0]) {
        FilterKeepsAll(s[1..], keep);
      } else {
        DeleteFirstIsFilter(s[1..], p, keep);
      }
    }
  }

  /** When at most one record matches, updating the first match updates every match. */
  lemma {:induction false} UpdateFirstIsProject<T>(s: seq<T>, p: T -> bool, change: T -> T, each: T -> T)
    requires Count(s, p) <= 1
    requires forall x :: each(x) == if p(x) then change(x) else x
    ensures UpdateFirst(s, p, change) == Project(s, each)
  {
    if s != [] {
      var rest := s[1..];
      if p(s[0]) {
        forall k | 0 <= k < |rest| ensures each(rest[k]) == rest[k] {
          assert !p(rest[k]);
        }
        assert Project(s, each) == [change(s[0])] + rest;
      } else {
        UpdateFirstIsProject(rest, p, change, each);
        assert Project(s, each) == [s[0]] + Project(rest, each);
      }
    }
  }

  /** Counting with two predicates that agree everywhere gives the same number. */
  lemma {:induction false} CountCongruent<T>(s: seq<T>, p: T -> bool, q: T -> bool)
    requires forall x :: p(x) == q(x)
    ensures Count(s, p) == Count(s, q)
  {
    if s != [] {
      CountCongruent(s[1..], p, q);
    }
  }

  /** The count of a disjoint union is the sum of the counts. */
  lemma {:induction false} CountDisjointUnion<T>(s: seq<T>, p: T -> bool, q: T -> bool, either: T -> bool)
    requires forall x :: either(x) == (p(x) || q(x))
    requires forall x :: !(p(x) && q(x))
    ensures Count(s, either) == Count(s, p) + Count(s, q)
  {
    if s != [] {
      CountDisjointUnion(s[1..], p, q, either);
    }
  }

  /** Filtering keeps keys that were distinct distinct. */
  lemma {:induction false} FilterKeepsDistinct<T, K>(s: seq<T>, p: T -> bool, key: T -> K)
    requires forall i, j :: 0 <= i < j < |s| ==> key(s[i]) != key(s[j])
    ensures forall i, j :: 0 <= i < j < |Filter(s, p)| ==> key(Filter(s, p)[i]) != key(Filter(s, p)[j])
  {
    if s != [] {
      var rest := s[1..];
      FilterKeepsDistinct(rest, p, key);
      var r := Filter(s, p);
      var tail := Filter(rest, p);
      if p(s[0]) {
        assert r == [s[0]] + tail;
        forall j | 0 <= j < |tail| ensures key(s[0]) != key(tail[j]) {
          var m :| 0 <= m < |rest| && rest[m] == tail[j];
          assert s[m + 1] == rest[m];
        }
        forall i, j | 0 <= i < j < |r| ensures key(r[i]) != key(r[j]) {
          assert r[j] == tail[j - 1];
          if i > 0 {
            assert r[i] == tail[i - 1];
            assert key(tail[i - 1]) != key(tail[j - 1]);
          } else {
            assert r[i] == s[0];
            assert key(s[0]) != key(tail[j - 1]);
          }
        }
      } else {
        assert r == tail;
      }
    }
  }

  /** Two records the sort must swap. */
  lemma SortOnSwapsTwo<T>(a: T, b: T, key: T -> SortKey, dir: Direction)
    requires !Precedes(a, b, key, dir)
    ensures SortOn([a, b], key, dir) == [b, a]
  {
    var s := [a, b];
    assert s[0] == a && s[1..] == [b] && [b][0] == b && [b][1..] == [];
    assert SortOn([b], key, dir) == InsertOn(b, [], key, dir) == [b];
    assert InsertOn(a, [], key, dir) == [a];
    assert InsertOn(a, [b], key, dir) == [b] + InsertOn(a, [], key, dir);
    assert SortOn(s, key, dir) == InsertOn(a, [b], key, dir);
  }
}
