/** Step 2 of the engine: Python's `sorted` over the train records with the
    key (priority, -delay, clearance_time).

    `sorted` is stable, so the model sorts entries that carry each train's
    input position (decorate, sort, undecorate). The sort itself only ever
    compares keys; the position is what lets stability be stated. */
module Ranking {
  import opened Records

  /** The sort key of the source: (priority, -delay, clearance_time). */
  function SortKey(t: Train): (int, int, int)
  {
    (t.priority, -t.delay, t.clearanceTime)
  }

  /** Python's `<` on 3-tuples: lexicographic comparison. */
  predicate TupleLess(a: (int, int, int), b: (int, int, int))
  {
    a.0 < b.0 || (a.0 == b.0 && (a.1 < b.1 || (a.1 == b.1 && a.2 < b.2)))
  }

  /** `a` must come strictly before `b` in the ranking. */
  predicate RanksBefore(a: Train, b: Train)
  {
    TupleLess(SortKey(a), SortKey(b))
  }

  /** `a` and `b` compare equal under the key: `sorted` keeps them in input order. */
  predicate SameKey(a: Train, b: Train)
  {
    SortKey(a) == SortKey(b)
  }

  /** The key read field by field: lower priority first; at equal priority,
      the larger delay first; then the smaller clearance time first. */
  lemma RanksBeforeMeaning(a: Train, b: Train)
    ensures RanksBefore(a, b) <==>
      a.priority < b.priority
      || (a.priority == b.priority && a.delay > b.delay)
      || (a.priority == b.priority && a.delay == b.delay && a.clearanceTime < b.clearanceTime)
    ensures SameKey(a, b) <==> !RanksBefore(a, b) && !RanksBefore(b, a)
  {
  }

  /** A train together with its index in the input table. */
  datatype Entry = Entry(train: Train, pos: nat)

  /** Decorate: pair every train with its input index. */
  function Tag(trains: seq<Train>): seq<Entry>
  {
    seq(|trains|, i requires 0 <= i < |trains| => Entry(trains[i], i))
  }

  /** Undecorate: drop the positions. */
  function Untag(es: seq<Entry>): (ts: seq<Train>)
    ensures |ts| == |es|
    ensures forall i :: 0 <= i < |es| ==> ts[i] == es[i].train
  {
    if es == [] then [] else [es[0].train] + Untag(es[1..])
  }

  /** Positions strictly increase: the entries are in input order. */
  ghost predicate InInputOrder(es: seq<Entry>)
  {
    forall i, j :: 0 <= i < j < |es| ==> es[i].pos < es[j].pos
  }

  /** No entry is ranked strictly before an entry placed ahead of it. */
  ghost predicate Sorted(es: seq<Entry>)
  {
    forall i, j :: 0 <= i < j < |es| ==> !RanksBefore(es[j].train, es[i].train)
  }

  /** Entries whose keys compare equal keep their input order. */
  ghost predicate Stable(es: seq<Entry>)
  {
    forall i, j :: 0 <= i < j < |es| && SameKey(es[i].train, es[j].train) ==> es[i].pos < es[j].pos
  }

  /** What Python promises of `sorted(trains, key=...)`, on decorated entries:
      a rearrangement of the input that is ordered by the key and stable. */
  ghost predicate IsStableSortOf(s: seq<Entry>, trains: seq<Train>)
  {
    multiset(s) == multiset(Tag(trains)) && Sorted(s) && Stable(s)
  }

  /** Places `e` ahead of the first entry of `s` that does not rank strictly
      before it. */
  function Insert(e: Entry, s: seq<Entry>): (r: seq<Entry>)
    ensures multiset(r) == multiset(s) + multiset{e}
  {
    if s == [] || !RanksBefore(s[0].train, e.train) then
      [e] + s
    else
      assert s == [s[0]] + s[1..];
      var t := Insert(e, s[1..]);
      [s[0]] + t
  }

  /** Insertion sort: insert the head into the sorted rest. */
  function InsertionSort(es: seq<Entry>): (r: seq<Entry>)
    ensures multiset(r) == multiset(es)
  {
    if es == [] then
      []
    else
      assert es == [es[0]] + es[1..];
      Insert(es[0], InsertionSort(es[1..]))
  }

  /** Putting `h` in front of a sorted, stable `t` keeps both properties when
      nothing in `t` ranks before `h` and `h` is older than its key-equals. */
  lemma SortedCons(h: Entry, t: seq<Entry>)
    requires Sorted(t) && Stable(t)
    requires forall x :: x in t ==> !RanksBefore(x.train, h.train)
    requires forall x :: x in t && SameKey(h.train, x.train) ==> h.pos < x.pos
    ensures Sorted([h] + t) && Stable([h] + t)
  {
    var r := [h] + t;
    forall i, j | 0 <= i < j < |r|
      ensures !RanksBefore(r[j].train, r[i].train)
      ensures SameKey(r[i].train, r[j].train) ==> r[i].pos < r[j].pos
    {
      assert r[j] == t[j - 1];
      if i == 0 {
        assert r[j] in t;
      } else {
        assert r[i] == t[i - 1];
      }
    }
  }

  lemma SortedTail(s: seq<Entry>)
    requires s != [] && Sorted(s) && Stable(s)
    ensures Sorted(s[1..]) && Stable(s[1..])
    ensures forall x :: x in s[1..] ==> !RanksBefore(x.train, s[0].train)
    ensures forall x :: x in s[1..] && SameKey(s[0].train, x.train) ==> s[0].pos < x.pos
  {
    forall x | x in s[1..]
      ensures !RanksBefore(x.train, s[0].train)
      ensures SameKey(s[0].train, x.train) ==> s[0].pos < x.pos
    {
      var k :| 0 <= k < |s[1..]| && s[1..][k] == x;
      assert s[k + 1] == x;
    }
  }

  /** Inserting an entry older than every entry of a sorted, stable sequence
      yields a sorted, stable sequence. */
  lemma {:induction false} InsertOrders(e: Entry, s: seq<Entry>)
    requires Sorted(s) && Stable(s)
    requires forall x :: x in s ==> e.pos < x.pos
    ensures Sorted(Insert(e, s)) && Stable(Insert(e, s))
  {
    if s == [] {
    } else if !RanksBefore(s[0].train, e.train) {
      SortedTail(s);
      SortedCons(e, s);
    } else {
      SortedTail(s);
      var t := Insert(e, s[1..]);
      InsertOrders(e, s[1..]);
      forall x | x in t
        ensures !RanksBefore(x.train, s[0].train)
        ensures SameKey(s[0].train, x.train) ==> s[0].pos < x.pos
      {
        assert x in multiset(t);
        assert x == e || x in s[1..];
      }
      SortedCons(s[0], t);
    }
  }

  /** Insertion sort of entries that arrive in input order is sorted and stable. */
  lemma {:induction false} InsertionSortOrders(es: seq<Entry>)
    requires InInputOrder(es)
    ensures Sorted(InsertionSort(es)) && Stable(InsertionSort(es))
  {
    if es != [] {
      var rest := InsertionSort(es[1..]);
      InsertionSortOrders(es[1..]);
      forall x | x in rest
        ensures es[0].pos < x.pos
      {
        assert x in multiset(rest);
        var k :| 0 <= k < |es[1..]| && es[1..][k] == x;
        assert es[k + 1] == x;
      }
      InsertOrders(es[0], rest);
    }
  }

  /** The decorated ranking: every train with its input index, in ranked order. */
  function RankEntries(trains: seq<Train>): seq<Entry>
  {
    InsertionSort(Tag(trains))
  }

  /** The decorated ranking is what Python promises of `sorted`. */
  lemma RankEntriesIsStableSort(trains: seq<Train>)
    ensures IsStableSortOf(RankEntries(trains), trains)
  {
    InsertionSortOrders(Tag(trains));
  }

  /** `sorted_trains` of the source. */
  function Rank(trains: seq<Train>): (ranked: seq<Train>)
    ensures |ranked| == |trains|
  {
    assert |multiset(RankEntries(trains))| == |multiset(Tag(trains))|;
    Untag(RankEntries(trains))
  }

  /** The indices of the input trains, in ranked order (the permutation
      that `sorted` applies). */
  function RankOrder(trains: seq<Train>): (order: seq<nat>)
  {
    var es := RankEntries(trains);
    seq(|es|, k requires 0 <= k < |es| => es[k].pos)
  }

  lemma UntagConcat(x: seq<Entry>, y: seq<Entry>)
    ensures Untag(x + y) == Untag(x) + Untag(y)
  {
    assert forall i :: 0 <= i < |x + y| ==> Untag(x + y)[i] == (Untag(x) + Untag(y))[i];
  }

  /** Finds the head of `a` in its rearrangement `b`; what surrounds it
      there is a rearrangement of the rest of `a`. */
  lemma SplitAtHead(a: seq<Entry>, b: seq<Entry>) returns (pre: seq<Entry>, post: seq<Entry>)
    requires multiset(a) == multiset(b) && a != []
    ensures b == pre + [a[0]] + post
    ensures multiset(a[1..]) == multiset(pre + post)
  {
    assert a[0] in multiset(b);
    var j :| 0 <= j < |b| && b[j] == a[0];
    pre, post := b[..j], b[j + 1..];
    assert b == pre + [a[0]] + post;
    assert a == [a[0]] + a[1..];
    assert multiset{a[0]} + multiset(a[1..]) == multiset{a[0]} + multiset(pre + post);
    MultisetCancel(a[0], multiset(a[1..]), multiset(pre + post));
  }

  lemma UntagAround(pre: seq<Entry>, x: Entry, post: seq<Entry>)
    ensures multiset(Untag(pre + [x] + post)) == multiset(Untag(pre + post)) + multiset{x.train}
  {
    UntagConcat(pre, post);
    UntagConcat(pre + [x], post);
    UntagConcat(pre, [x]);
  }

  /** Undecorating two rearrangements of the same entries gives two
      rearrangements of the same trains. */
  lemma {:induction false} UntagMultiset(a: seq<Entry>, b: seq<Entry>)
    requires multiset(a) == multiset(b)
    ensures multiset(Untag(a)) == multiset(Untag(b))
    decreases |a|
  {
    if a == [] {
      assert |b| == 0 by {
        assert |multiset(b)| == 0;
      }
    } else {
      var pre, post := SplitAtHead(a, b);
      UntagMultiset(a[1..], pre + post);
      UntagAround(pre, a[0], post);
      assert Untag(a) == [a[0].train] + Untag(a[1..]);
    }
  }

  lemma UntagTag(trains: seq<Train>)
    ensures Untag(Tag(trains)) == trains
  {
  }

  /** An entry of the ranking is a train of the input, at its own index. */
  lemma RankEntriesFromInput(trains: seq<Train>, x: Entry)
    requires x in RankEntries(trains)
    ensures x.pos < |trains| && x.train == trains[x.pos]
  {
    assert x in multiset(RankEntries(trains));
    var tagged := Tag(trains);
    assert x in multiset(tagged);
    var i :| 0 <= i < |tagged| && tagged[i] == x;
  }

  /** `sorted_trains` holds the input trains, each as often as in the input,
      and is non-decreasing under the key. */
  lemma RankIsSortedPermutation(trains: seq<Train>)
    ensures |Rank(trains)| == |trains|
    ensures multiset(Rank(trains)) == multiset(trains)
    ensures forall i, j :: 0 <= i < j < |Rank(trains)| ==> !RanksBefore(Rank(trains)[j], Rank(trains)[i])
  {
    var es := RankEntries(trains);
    RankEntriesIsStableSort(trains);
    assert Sorted(es);
    UntagMultiset(es, Tag(trains));
    UntagTag(trains);
  }

  lemma RankLength(trains: seq<Train>)
    ensures |RankEntries(trains)| == |Rank(trains)| == |RankOrder(trains)| == |trains|
  {
    assert |multiset(RankEntries(trains))| == |multiset(Tag(trains))|;
  }

  /** The ranking applies a permutation of the input indices: position k of
      the ranking holds the input train at index RankOrder(trains)[k], and no
      index is used twice. */
  lemma RankOrderPermutes(trains: seq<Train>)
    ensures |RankOrder(trains)| == |trains| == |Rank(trains)|
    ensures forall k :: 0 <= k < |trains| ==>
      RankOrder(trains)[k] < |trains| && Rank(trains)[k] == trains[RankOrder(trains)[k]]
    ensures forall k, l :: 0 <= k < l < |trains| ==> RankOrder(trains)[k] != RankOrder(trains)[l]
  {
    var es := RankEntries(trains);
    var order := RankOrder(trains);
    RankLength(trains);
    RankEntriesIsStableSort(trains);
    forall k | 0 <= k < |trains|
      ensures order[k] < |trains| && Rank(trains)[k] == trains[order[k]]
    {
      RankEntriesFromInput(trains, es[k]);
    }
    forall k, l | 0 <= k < l < |trains|
      ensures order[k] != order[l]
    {
      RankEntriesFromInput(trains, es[k]);
      RankEntriesFromInput(trains, es[l]);
      // Equal positions would mean the same train twice, whose equal keys
      // the stability of the ranking orders strictly by position.
      assert order[k] == order[l] ==> SameKey(es[k].train, es[l].train);
    }
  }

  /** Trains whose keys compare equal keep their input order in the ranking. */
  lemma RankIsStable(trains: seq<Train>)
    ensures |RankOrder(trains)| == |Rank(trains)|
    ensures forall k, l :: 0 <= k < l < |Rank(trains)| && SameKey(Rank(trains)[k], Rank(trains)[l]) ==>
      RankOrder(trains)[k] < RankOrder(trains)[l]
  {
    var es := RankEntries(trains);
    RankLength(trains);
    RankEntriesIsStableSort(trains);
    assert Stable(es);
  }

  lemma MultisetCancel<T>(x: T, p: multiset<T>, q: multiset<T>)
    requires multiset{x} + p == multiset{x} + q
    ensures p == q
  {
    assert forall y :: p[y] == (multiset{x} + p)[y] - multiset{x}[y];
  }

  /** Two stable sorted rearrangements of the same entries start alike. */
  lemma StableSortHead(a: seq<Entry>, b: seq<Entry>)
    requires multiset(a) == multiset(b) && a != []
    requires Sorted(a) && Stable(a) && Sorted(b) && Stable(b)
    ensures b != [] && a[0] == b[0]
  {
    assert a[0] in multiset(b);
    var m :| 0 <= m < |b| && b[m] == a[0];
    assert b[0] in multiset(a);
    var k :| 0 <= k < |a| && a[k] == b[0];
    assert SameKey(a[0].train, b[0].train) by {
      assert !RanksBefore(a[k].train, a[0].train) || k == 0;
      assert !RanksBefore(b[m].train, b[0].train) || m == 0;
    }
    // Equal keys: each head's position bounds the other's, so they coincide.
    assert k == 0;
  }

  /** There is only one stable sorted rearrangement of a sequence of entries. */
  lemma {:induction false} StableSortUnique(a: seq<Entry>, b: seq<Entry>)
    requires multiset(a) == multiset(b)
    requires Sorted(a) && Stable(a) && Sorted(b) && Stable(b)
    ensures a == b
    decreases |a|
  {
    if a == [] {
      assert |b| == 0 by {
        assert |multiset(b)| == 0;
      }
    } else {
      StableSortHead(a, b);
      SortedTail(a);
      SortedTail(b);
      assert a == [a[0]] + a[1..];
      assert b == [a[0]] + b[1..];
      MultisetCancel(a[0], multiset(a[1..]), multiset(b[1..]));
      StableSortUnique(a[1..], b[1..]);
    }
  }

  /** The ranking is Python's `sorted`: any rearrangement of the decorated
      input that is ordered by the key and stable undecorates to `Rank`. */
  lemma RankIsPythonSorted(trains: seq<Train>, s: seq<Entry>)
    requires IsStableSortOf(s, trains)
    ensures s == RankEntries(trains)
    ensures Untag(s) == Rank(trains)
  {
    RankEntriesIsStableSort(trains);
    StableSortUnique(s, RankEntries(trains));
  }
}
