/** The week's upcoming-classes message and the per-school-year calendar: the
    classes are filtered by guild and school year, sorted by date, grouped by day
    of the month or by subject code, rendered, and reconciled with the messages
    the bot already has in the channel (edit, send and crosspost, delete). The
    texts of the messages configuration, date formatting and `splitText` are
    parameters. */
module EclassMessagesManager {
  import opened Utils
  import opened Database

  /** A stored class as these messages read it (`end` is `date + duration`). */
  datatype UpcomingClass = UpcomingClass(
    id: string, guild: string, date: int, end: int, status: EclassStatus, subject: Subject)

  function DateOf(c: UpcomingClass): int { c.date }

  function ClassCodeOf(c: UpcomingClass): string { c.subject.classCode }

  // ---------------------------------------------------------------------------
  // Sorting: `Array.prototype.sort` with a comparator that subtracts an integer rank

  predicate SortedBy<T>(s: seq<T>, rank: T -> int)
  {
    forall i, j :: 0 <= i < j < |s| ==> rank(s[i]) <= rank(s[j])
  }

  predicate StrictlySortedBy<T>(s: seq<T>, rank: T -> int)
  {
    forall i, j :: 0 <= i < j < |s| ==> rank(s[i]) < rank(s[j])
  }

  /** The first `n` elements are in ascending rank. */
  predicate SortedUpTo<T>(s: seq<T>, n: int, rank: T -> int)
  {
    forall k, l :: 0 <= k < l < n && l < |s| ==> rank(s[k]) <= rank(s[l])
  }

  /** The first `i + 1` elements are in ascending rank, leaving aside the one at
      `j`, which is still on its way left. */
  predicate SortedExcept<T>(s: seq<T>, i: int, j: int, rank: T -> int)
  {
    forall k, l :: 0 <= k < l <= i && l < |s| && l != j ==> rank(s[k]) <= rank(s[l])
  }

  /** The elements of rank `k`. */
  function SameRank<T>(rank: T -> int, k: int): T -> bool
  {
    x => rank(x) == k
  }

  /** `s` and `t` hold the elements of each rank in the same order. */
  ghost predicate StableOrder<T(!new)>(s: seq<T>, t: seq<T>, rank: T -> int)
  {
    forall k :: Filter(SameRank(rank, k), s) == Filter(SameRank(rank, k), t)
  }

  /** Sorts the array in place by ascending rank, stably (an insertion sort, as
      `Array.prototype.sort` is stable). */
  method SortBy<T(!new)>(a: array<T>, rank: T -> int)
    modifies a
    ensures SortedBy(a[..], rank)
    ensures multiset(a[..]) == multiset(old(a[..]))
    ensures StableOrder(a[..], old(a[..]), rank)
  {
    var i := 0;
    while i < a.Length
      invariant 0 <= i <= a.Length
      invariant SortedUpTo(a[..], i, rank)
      invariant multiset(a[..]) == multiset(old(a[..]))
      invariant StableOrder(a[..], old(a[..]), rank)
    {
      ghost var before := a[..];
      InsertLast(a, i, rank);
      StableTrans(a[..], before, old(a[..]), rank);
      i := i + 1;
    }
  }

  /** Moves `a[i]` left past every element of higher rank. */
  method InsertLast<T(!new)>(a: array<T>, i: int, rank: T -> int)
    requires 0 <= i < a.Length && SortedUpTo(a[..], i, rank)
    modifies a
    ensures SortedUpTo(a[..], i + 1, rank)
    ensures multiset(a[..]) == multiset(old(a[..]))
    ensures StableOrder(a[..], old(a[..]), rank)
  {
    var j := i;
    StableRefl(a[..], rank);
    while j > 0 && rank(a[j - 1]) > rank(a[j])
      invariant 0 <= j <= i
      invariant SortedExcept(a[..], i, j, rank)
      invariant multiset(a[..]) == multiset(old(a[..]))
      invariant StableOrder(a[..], old(a[..]), rank)
    {
      ghost var before := a[..];
      a[j - 1], a[j] := a[j], a[j - 1];
      assert a[..] == before[j - 1 := before[j]][j := before[j - 1]];
      SwapKeepsMultiset(before, j - 1, j);
      SwapKeepsOrder(before, i, j, rank);
      SwapKeepsStable(before, j, rank);
      StableTrans(a[..], before, old(a[..]), rank);
      j := j - 1;
    }
    InsertionDone(a[..], i, j, rank);
  }

  lemma StableRefl<T(!new)>(s: seq<T>, rank: T -> int)
    ensures StableOrder(s, s, rank)
  {
  }

  lemma StableTrans<T(!new)>(s: seq<T>, t: seq<T>, u: seq<T>, rank: T -> int)
    requires StableOrder(s, t, rank) && StableOrder(t, u, rank)
    ensures StableOrder(s, u, rank)
  {
  }

  lemma {:induction false} FilterAppend<T(!new)>(p: T -> bool, a: seq<T>, b: seq<T>)
    ensures Filter(p, a + b) == Filter(p, a) + Filter(p, b)
    decreases |a|
  {
    if a != [] {
      var x, rest := a[0], a[1..];
      assert a == [x] + rest && a + b == [x] + (rest + b);
      FilterAppend(p, rest, b);
      FilterCons(p, x, rest);
      FilterCons(p, x, rest + b);
    } else {
      assert a + b == b;
    }
  }

  lemma FilterCons<T(!new)>(p: T -> bool, x: T, s: seq<T>)
    ensures Filter(p, [x] + s) == (if p(x) then [x] else []) + Filter(p, s)
  {
    assert ([x] + s)[0] == x && ([x] + s)[1..] == s;
  }

  /** Swapping two neighbours of different rank keeps each rank's elements in order. */
  lemma SwapKeepsStable<T(!new)>(s: seq<T>, j: int, rank: T -> int)
    requires 0 < j < |s| && rank(s[j - 1]) != rank(s[j])
    ensures StableOrder(s[j - 1 := s[j]][j := s[j - 1]], s, rank)
  {
    var t := s[j - 1 := s[j]][j := s[j - 1]];
    var front, back := s[..j - 1], s[j + 1..];
    assert s == front + [s[j - 1], s[j]] + back;
    assert t == front + [s[j], s[j - 1]] + back;
    forall k
      ensures Filter(SameRank(rank, k), t) == Filter(SameRank(rank, k), s)
    {
      FilterPairSwap(SameRank(rank, k), s[j - 1], s[j]);
      FilterMiddle(SameRank(rank, k), front, [s[j], s[j - 1]], [s[j - 1], s[j]], back);
    }
  }

  lemma FilterPairSwap<T(!new)>(p: T -> bool, x: T, y: T)
    requires !(p(x) && p(y))
    ensures Filter(p, [y, x]) == Filter(p, [x, y])
  {
    assert [x, y][1..] == [y] && [y, x][1..] == [x];
  }

  lemma FilterMiddle<T(!new)>(p: T -> bool, front: seq<T>, m1: seq<T>, m2: seq<T>, back: seq<T>)
    requires Filter(p, m1) == Filter(p, m2)
    ensures Filter(p, front + m1 + back) == Filter(p, front + m2 + back)
  {
    FilterAppend(p, front + m1, back);
    FilterAppend(p, front, m1);
    FilterAppend(p, front + m2, back);
    FilterAppend(p, front, m2);
  }

  lemma FilterFirst<T(!new)>(p: T -> bool, s: seq<T>)
    requires s != [] && p(s[0])
    ensures Filter(p, s) != [] && Filter(p, s)[0] == s[0]
  {
  }

  /** Two sequences in the same order per rank, whose first elements share a
      rank, start with the same element. */
  lemma StableHeads<T(!new)>(a: seq<T>, b: seq<T>, rank: T -> int)
    requires a != [] && b != [] && rank(a[0]) == rank(b[0]) && StableOrder(a, b, rank)
    ensures a[0] == b[0]
  {
    var p := SameRank(rank, rank(a[0]));
    assert Filter(p, a) == Filter(p, b);
    FilterFirst(p, a);
    FilterFirst(p, b);
  }

  lemma StableTails<T(!new)>(a: seq<T>, b: seq<T>, rank: T -> int)
    requires a != [] && b != [] && a[0] == b[0] && StableOrder(a, b, rank)
    ensures StableOrder(a[1..], b[1..], rank)
  {
    forall k
      ensures Filter(SameRank(rank, k), a[1..]) == Filter(SameRank(rank, k), b[1..])
    {
      var q := SameRank(rank, k);
      var head := if q(a[0]) then [a[0]] else [];
      assert Filter(q, a) == head + Filter(q, a[1..]);
      assert Filter(q, b) == head + Filter(q, b[1..]);
      assert Filter(q, a) == Filter(q, b);
      assert Filter(q, a[1..]) == Filter(q, a)[|head|..];
      assert Filter(q, b[1..]) == Filter(q, b)[|head|..];
    }
  }

  /** Sorted by rank, with each rank's elements in a given order: a permutation
      can be arranged so in one way only, so the sort's result is determined. */
  lemma {:induction false} StableSortUnique<T(!new)>(a: seq<T>, b: seq<T>, rank: T -> int)
    requires multiset(a) == multiset(b)
    requires SortedBy(a, rank) && SortedBy(b, rank) && StableOrder(a, b, rank)
    ensures a == b
    decreases |a|
  {
    assert |a| == |multiset(a)| == |multiset(b)| == |b|;
    if a != [] {
      assert b[0] in multiset(a);
      var i :| 0 <= i < |a| && a[i] == b[0];
      assert a[0] in multiset(b);
      var j :| 0 <= j < |b| && b[j] == a[0];
      assert rank(a[0]) <= rank(a[i]) == rank(b[0]) <= rank(b[j]) == rank(a[0]);
      StableHeads(a, b, rank);
      MultisetTails(a, b);
      StableTails(a, b, rank);
      StableSortUnique(a[1..], b[1..], rank);
    }
  }

  lemma SwapKeepsMultiset<T>(s: seq<T>, i: nat, j: nat)
    requires i < j < |s|
    ensures multiset(s[i := s[j]][j := s[i]]) == multiset(s)
  {
    var t := s[i := s[j]][j := s[i]];
    var front, middle, back := s[..i], s[i + 1..j], s[j + 1..];
    assert s == front + [s[i]] + middle + [s[j]] + back;
    assert t == front + [s[j]] + middle + [s[i]] + back;
    assert multiset(s) == multiset(front) + multiset{s[i]} + multiset(middle) + multiset{s[j]} + multiset(back);
    assert multiset(t) == multiset(front) + multiset{s[j]} + multiset(middle) + multiset{s[i]} + multiset(back);
  }

  /** Swapping the moving element with a higher-ranked left neighbour moves
      the gap one step left. */
  lemma SwapKeepsOrder<T>(s: seq<T>, i: int, j: int, rank: T -> int)
    requires 0 < j <= i < |s| && SortedExcept(s, i, j, rank) && rank(s[j - 1]) > rank(s[j])
    ensures SortedExcept(s[j - 1 := s[j]][j := s[j - 1]], i, j - 1, rank)
  {
  }

  /** The moving element has stopped: the first `i + 1` elements are sorted. */
  lemma InsertionDone<T>(s: seq<T>, i: int, j: int, rank: T -> int)
    requires 0 <= j <= i < |s| && SortedExcept(s, i, j, rank)
    requires j == 0 || rank(s[j - 1]) <= rank(s[j])
    ensures SortedUpTo(s, i + 1, rank)
  {
  }

  /** A sorted permutation of a strictly sorted sequence is that sequence: when
      no two elements share a rank, sorting leaves no choice. */
  lemma {:induction false} SortedPermutationUnique<T>(a: seq<T>, b: seq<T>, rank: T -> int)
    requires multiset(a) == multiset(b)
    requires SortedBy(a, rank) && StrictlySortedBy(b, rank)
    ensures a == b
    decreases |b|
  {
    assert |a| == |multiset(a)| == |multiset(b)| == |b|;
    if b != [] {
      assert b[0] in multiset(a);
      var i :| 0 <= i < |a| && a[i] == b[0];
      assert a[0] in multiset(b);
      var j :| 0 <= j < |b| && b[j] == a[0];
      assert rank(a[0]) <= rank(a[i]) == rank(b[0]) <= rank(b[j]) == rank(a[0]);
      assert j == 0;
      MultisetTails(a, b);
      SortedPermutationUnique(a[1..], b[1..], rank);
    }
  }

  lemma MultisetTails<T>(a: seq<T>, b: seq<T>)
    requires a != [] && b != [] && a[0] == b[0] && multiset(a) == multiset(b)
    ensures multiset(a[1..]) == multiset(b[1..])
  {
    assert a == [a[0]] + a[1..];
    assert b == [b[0]] + b[1..];
    assert multiset(a) == multiset{a[0]} + multiset(a[1..]);
    assert multiset(b) == multiset{a[0]} + multiset(b[1..]);
    assert multiset(a[1..]) == multiset(a) - multiset{a[0]};
    assert multiset(b[1..]) == multiset(b) - multiset{a[0]};
  }

  // ---------------------------------------------------------------------------
  // Grouping: lodash `groupBy`

  /** Every group is non-empty and holds one key, and no two groups share a key. */
  predicate WellGrouped<T(==), K(==)>(gs: seq<seq<T>>, key: T -> K)
  {
    && (forall i :: 0 <= i < |gs| ==> |gs[i]| > 0)
    && (forall i, x :: 0 <= i < |gs| && x in gs[i] ==> |gs[i]| > 0 && key(x) == key(gs[i][0]))
    && (forall i, j :: 0 <= i < j < |gs| && |gs[i]| > 0 && |gs[j]| > 0 ==> key(gs[i][0]) != key(gs[j][0]))
  }

  /** The group holding the key, if any. */
  function GroupIndex<T, K(==)>(gs: seq<seq<T>>, k: K, key: T -> K): (r: Option<nat>)
    ensures r.Some? ==> r.value < |gs| && |gs[r.value]| > 0 && key(gs[r.value][0]) == k
    ensures r.None? ==> forall i :: 0 <= i < |gs| && |gs[i]| > 0 ==> key(gs[i][0]) != k
  {
    if gs == [] then None
    else if |gs[0]| > 0 && key(gs[0][0]) == k then Some(0)
    else match GroupIndex(gs[1..], k, key)
      case None => None
      case Some(i) => Some(i + 1)
  }

  /** One step of `groupBy`: the element joins the end of its key's group, or
      opens a new group after the others. */
  function AddToGroups<T, K(==)>(gs: seq<seq<T>>, x: T, key: T -> K): seq<seq<T>>
  {
    match GroupIndex(gs, key(x), key)
    case Some(i) => gs[i := gs[i] + [x]]
    case None => gs + [[x]]
  }

  /** `groupBy(s, key)`, with the groups in the order their keys first occur. */
  function GroupBy<T, K(==)>(s: seq<T>, key: T -> K): seq<seq<T>>
  {
    if s == [] then [] else AddToGroups(GroupBy(s[..|s| - 1], key), s[|s| - 1], key)
  }

  lemma FlattenExtend<T>(gs: seq<seq<T>>, i: nat, x: T)
    requires i < |gs|
    ensures multiset(Flatten(gs[i := gs[i] + [x]])) == multiset(Flatten(gs)) + multiset{x}
  {
    var g := gs[i] + [x];
    var before, after := gs[..i], gs[i + 1..];
    assert gs == before + [gs[i]] + after;
    assert gs[i := g] == before + [g] + after;
    FlattenAppend(before + [gs[i]], after);
    FlattenAppend(before, [gs[i]]);
    FlattenAppend(before + [g], after);
    FlattenAppend(before, [g]);
    assert Flatten([gs[i]]) == gs[i];
    assert Flatten([g]) == g;
    assert Flatten(gs) == Flatten(before) + gs[i] + Flatten(after);
    assert Flatten(gs[i := g]) == Flatten(before) + gs[i] + [x] + Flatten(after);
  }

  lemma AddToGroupsSpec<T, K>(gs: seq<seq<T>>, x: T, key: T -> K)
    requires WellGrouped(gs, key)
    ensures WellGrouped(AddToGroups(gs, x, key), key)
    ensures multiset(Flatten(AddToGroups(gs, x, key))) == multiset(Flatten(gs)) + multiset{x}
    ensures GroupIndex(gs, key(x), key).Some? ==>
      |AddToGroups(gs, x, key)| == |gs| && forall i :: 0 <= i < |gs| ==> AddToGroups(gs, x, key)[i][0] == gs[i][0]
    ensures GroupIndex(gs, key(x), key).None? ==> AddToGroups(gs, x, key) == gs + [[x]]
  {
    match GroupIndex(gs, key(x), key)
    case Some(i) =>
      FlattenExtend(gs, i, x);
      var r := gs[i := gs[i] + [x]];
      forall j | 0 <= j < |gs|
        ensures r[j][0] == gs[j][0]
      {
        if j == i {
          assert (gs[i] + [x])[0] == gs[i][0];
        }
      }
    case None =>
      FlattenAppend(gs, [[x]]);
      assert Flatten([[x]]) == [x];
  }

  /** `groupBy` loses nothing and adds nothing, every group holds one key, every
      key of the input has its group, and each group lists the input's elements
      of its key in input order. */
  lemma GroupBySpec<T(!new), K>(s: seq<T>, key: T -> K)
    ensures WellGrouped(GroupBy(s, key), key)
    ensures multiset(Flatten(GroupBy(s, key))) == multiset(s)
    ensures forall x :: x in s ==> GroupIndex(GroupBy(s, key), key(x), key).Some?
    ensures var gs := GroupBy(s, key);
      forall i :: 0 <= i < |gs| ==> gs[i] == Filter(KeyIs(key, key(gs[i][0])), s)
  {
    GroupByPartition(s, key);
    GroupByKeepsOrder(s, key);
  }

  /** The elements whose key is `k`. */
  function KeyIs<T, K(==)>(key: T -> K, k: K): T -> bool
  {
    (x: T) => key(x) == k
  }

  /** Each group is the input filtered by the group's key. */
  lemma {:induction false} GroupByKeepsOrder<T(!new), K>(s: seq<T>, key: T -> K)
    ensures var gs := GroupBy(s, key);
      forall i :: 0 <= i < |gs| && |gs[i]| > 0 ==> gs[i] == Filter(KeyIs(key, key(gs[i][0])), s)
  {
    if s != [] {
      var init, x := s[..|s| - 1], s[|s| - 1];
      assert s == init + [x];
      GroupByKeepsOrder(init, key);
      GroupByPartition(init, key);
      GroupByOrderStep(GroupBy(init, key), init, x, key);
    }
  }

  /** Adding `x` to the groups of `init` keeps every group the filter of its key. */
  lemma GroupByOrderStep<T(!new), K>(gs: seq<seq<T>>, init: seq<T>, x: T, key: T -> K)
    requires WellGrouped(gs, key)
    requires forall y :: y in init ==> GroupIndex(gs, key(y), key).Some?
    requires forall i :: 0 <= i < |gs| && |gs[i]| > 0 ==> gs[i] == Filter(KeyIs(key, key(gs[i][0])), init)
    ensures var r := AddToGroups(gs, x, key);
      forall i :: 0 <= i < |r| && |r[i]| > 0 ==> r[i] == Filter(KeyIs(key, key(r[i][0])), init + [x])
  {
    var r := AddToGroups(gs, x, key);
    forall i | 0 <= i < |r| && |r[i]| > 0
      ensures r[i] == Filter(KeyIs(key, key(r[i][0])), init + [x])
    {
      GroupOrderAt(gs, init, x, key, i);
    }
  }

  lemma GroupOrderAt<T(!new), K>(gs: seq<seq<T>>, init: seq<T>, x: T, key: T -> K, i: nat)
    requires WellGrouped(gs, key)
    requires forall y :: y in init ==> GroupIndex(gs, key(y), key).Some?
    requires i < |AddToGroups(gs, x, key)|
    requires i < |gs| ==> gs[i] == Filter(KeyIs(key, key(gs[i][0])), init)
    ensures var r := AddToGroups(gs, x, key);
      |r[i]| > 0 && r[i] == Filter(KeyIs(key, key(r[i][0])), init + [x])
  {
    if i < |gs| {
      OldGroupStep(gs, init, x, key, i);
      FilterExtend(KeyIs(key, key(gs[i][0])), init, x);
    } else {
      NewGroupStep(gs, init, x, key);
      FilterExtend(KeyIs(key, key(x)), init, x);
    }
  }

  lemma FilterExtend<T(!new)>(p: T -> bool, s: seq<T>, x: T)
    ensures Filter(p, s + [x]) == Filter(p, s) + if p(x) then [x] else []
  {
    FilterAppend(p, s, [x]);
    FilterSingle(p, x);
  }

  /** An existing group gets `x` exactly when `x` has its key. */
  lemma OldGroupStep<T(!new), K>(gs: seq<seq<T>>, init: seq<T>, x: T, key: T -> K, i: nat)
    requires WellGrouped(gs, key) && i < |gs|
    ensures var r := AddToGroups(gs, x, key);
      && r[i][0] == gs[i][0]
      && r[i] == gs[i] + (if key(x) == key(gs[i][0]) then [x] else [])
  {
    match GroupIndex(gs, key(x), key)
    case Some(g) =>
      if i == g {
        assert (gs[g] + [x])[0] == gs[g][0];
      } else {
        assert key(gs[i][0]) != key(gs[g][0]);
      }
    case None =>
  }

  /** A new group opens only for a key no earlier element has. */
  lemma NewGroupStep<T(!new), K>(gs: seq<seq<T>>, init: seq<T>, x: T, key: T -> K)
    requires forall y :: y in init ==> GroupIndex(gs, key(y), key).Some?
    ensures var r := AddToGroups(gs, x, key);
      |r| > |gs| ==> r[|gs|] == [x] && Filter(KeyIs(key, key(x)), init) == []
  {
    if GroupIndex(gs, key(x), key).None? {
      forall y | y in init
        ensures !KeyIs(key, key(x))(y)
      {
        var h := GroupIndex(gs, key(y), key).value;
        assert key(gs[h][0]) == key(y);
      }
      FilterNone(KeyIs(key, key(x)), init);
    }
  }

  lemma FilterSingle<T(!new)>(p: T -> bool, x: T)
    ensures Filter(p, [x]) == if p(x) then [x] else []
  {
    assert [x][1..] == [];
  }

  lemma FilterNone<T(!new)>(p: T -> bool, s: seq<T>)
    requires forall y :: y in s ==> !p(y)
    ensures Filter(p, s) == []
  {
  }

  /** `groupBy` loses nothing and adds nothing, every group holds one key, and
      every key of the input has its group. */
  lemma {:induction false} GroupByPartition<T, K>(s: seq<T>, key: T -> K)
    ensures WellGrouped(GroupBy(s, key), key)
    ensures multiset(Flatten(GroupBy(s, key))) == multiset(s)
    ensures forall x :: x in s ==> GroupIndex(GroupBy(s, key), key(x), key).Some?
  {
    if s != [] {
      var init, x := s[..|s| - 1], s[|s| - 1];
      assert s == init + [x];
      GroupByPartition(init, key);
      var gs := GroupBy(init, key);
      AddToGroupsSpec(gs, x, key);
      var r := GroupBy(s, key);
      forall y | y in s
        ensures GroupIndex(r, key(y), key).Some?
      {
        if y == x {
          if GroupIndex(gs, key(x), key).None? {
            assert r[|gs|] == [x];
          } else {
            var i := GroupIndex(gs, key(x), key).value;
            assert r[i][0] == gs[i][0];
          }
        } else {
          assert y in init;
          var i := GroupIndex(gs, key(y), key).value;
          assert r[i][0] == gs[i][0];
        }
      }
    }
  }

  /** The first element of a group; groups are never empty. */
  function FirstDate(g: seq<UpcomingClass>): int
  {
    if |g| > 0 then g[0].date else 0
  }

  /** The grouping key of the upcoming-classes message: the day of the month. */
  function DayKey(dayOfMonth: int -> int): UpcomingClass -> int
  {
    (c: UpcomingClass) => dayOfMonth(c.date)
  }

  /** The day groups of the upcoming-classes message. */
  function DayGroups(s: seq<UpcomingClass>, dayOfMonth: int -> int): seq<seq<UpcomingClass>>
  {
    GroupBy(s, DayKey(dayOfMonth))
  }

  /** The first element of every group is one of the grouped elements. */
  lemma {:induction false} FirstInFlatten<T>(gs: seq<seq<T>>, i: nat)
    requires i < |gs| && |gs[i]| > 0
    ensures gs[i][0] in Flatten(gs)
  {
    if i > 0 {
      FirstInFlatten(gs[1..], i - 1);
    }
  }

  /** A class that opens a new day group comes after the first class of every
      earlier group, when it comes after all the classes grouped so far. */
  lemma NewDayIsLater(init: seq<UpcomingClass>, gs: seq<seq<UpcomingClass>>, x: UpcomingClass, dayOfMonth: int -> int)
    requires gs == DayGroups(init, dayOfMonth)
    requires forall c :: c in init ==> c.date <= x.date
    requires GroupIndex(gs, dayOfMonth(x.date), DayKey(dayOfMonth)).None?
    ensures forall i :: 0 <= i < |gs| ==> FirstDate(gs[i]) < x.date
  {
    GroupByPartition(init, DayKey(dayOfMonth));
    forall i | 0 <= i < |gs|
      ensures FirstDate(gs[i]) < x.date
    {
      assert |gs[i]| > 0;
      var c := gs[i][0];
      FirstInFlatten(gs, i);
      assert c in multiset(Flatten(gs));
      assert c in init;
      assert DayKey(dayOfMonth)(c) != dayOfMonth(x.date);
      assert dayOfMonth(c.date) != dayOfMonth(x.date);
      assert c.date != x.date && c.date <= x.date;
      assert FirstDate(gs[i]) == c.date;
    }
  }

  /** Grouping date-sorted classes by day: the groups come in strictly increasing
      order of their first class's date (two groups cannot start at the same
      date, as equal dates fall on the same day). */
  lemma {:induction false} DayGroupsOrdered(s: seq<UpcomingClass>, dayOfMonth: int -> int)
    requires SortedBy(s, DateOf)
    ensures StrictlySortedBy(DayGroups(s, dayOfMonth), FirstDate)
  {
    if s != [] {
      var init, x := s[..|s| - 1], s[|s| - 1];
      assert s == init + [x];
      assert SortedBy(init, DateOf);
      DayGroupsOrdered(init, dayOfMonth);
      forall c | c in init
        ensures c.date <= x.date
      {
        var k :| 0 <= k < |init| && init[k] == c;
        assert DateOf(s[k]) <= DateOf(s[|s| - 1]);
      }
      DayGroupsStep(init, x, dayOfMonth);
    }
  }

  /** Adding a class no earlier than the ones grouped so far keeps the day groups
      in strictly increasing order of their first class. */
  lemma DayGroupsStep(init: seq<UpcomingClass>, x: UpcomingClass, dayOfMonth: int -> int)
    requires StrictlySortedBy(DayGroups(init, dayOfMonth), FirstDate)
    requires forall c :: c in init ==> c.date <= x.date
    ensures StrictlySortedBy(DayGroups(init + [x], dayOfMonth), FirstDate)
  {
    var key := DayKey(dayOfMonth);
    var gs := GroupBy(init, key);
    assert (init + [x])[..|init|] == init;
    assert DayGroups(init + [x], dayOfMonth) == AddToGroups(gs, x, key);
    GroupByPartition(init, key);
    AddToGroupsSpec(gs, x, key);
    if GroupIndex(gs, key(x), key).None? {
      NewDayIsLater(init, gs, x, dayOfMonth);
      OrderedAfterNewGroup(gs, x);
    } else {
      var r := AddToGroups(gs, x, key);
      assert forall i :: 0 <= i < |gs| ==> FirstDate(r[i]) == FirstDate(gs[i]);
      OrderedAfterJoin(gs, r);
    }
  }

  lemma OrderedAfterNewGroup(gs: seq<seq<UpcomingClass>>, x: UpcomingClass)
    requires StrictlySortedBy(gs, FirstDate)
    requires forall i :: 0 <= i < |gs| ==> FirstDate(gs[i]) < x.date
    ensures StrictlySortedBy(gs + [[x]], FirstDate)
  {
    var r := gs + [[x]];
    forall i, j | 0 <= i < j < |r|
      ensures FirstDate(r[i]) < FirstDate(r[j])
    {
      if j == |gs| {
        assert r[j] == [x];
      }
    }
  }

  lemma OrderedAfterJoin(gs: seq<seq<UpcomingClass>>, r: seq<seq<UpcomingClass>>)
    requires StrictlySortedBy(gs, FirstDate)
    requires |r| == |gs| && forall i :: 0 <= i < |gs| ==> FirstDate(r[i]) == FirstDate(gs[i])
    ensures StrictlySortedBy(r, FirstDate)
  {
  }

  /** `Object.values` of the grouped object: integer-like keys, such as days of
      the month, come out in ascending numeric order. */
  function OrderByIntKey(gs: seq<seq<UpcomingClass>>, dayOfMonth: int -> int): (r: seq<seq<UpcomingClass>>)
    ensures multiset(r) == multiset(gs)
  {
    if gs == [] then []
    else
      assert gs == [gs[0]] + gs[1..];
      InsertByKey(gs[0], OrderByIntKey(gs[1..], dayOfMonth), dayOfMonth)
  }

  function DayOf(g: seq<UpcomingClass>, dayOfMonth: int -> int): int
  {
    if |g| > 0 then dayOfMonth(g[0].date) else 0
  }

  function InsertByKey(g: seq<UpcomingClass>, gs: seq<seq<UpcomingClass>>, dayOfMonth: int -> int): (r: seq<seq<UpcomingClass>>)
    ensures multiset(r) == multiset(gs) + multiset{g}
  {
    if gs == [] || DayOf(g, dayOfMonth) <= DayOf(gs[0], dayOfMonth) then [g] + gs
    else
      var rest := InsertByKey(g, gs[1..], dayOfMonth);
      assert gs == [gs[0]] + gs[1..];
      [gs[0]] + rest
  }

  // ---------------------------------------------------------------------------
  // The upcoming-classes message

  /** The texts of the messages configuration and the date formatting the
      message uses. */
  datatype UpcomingTexts = UpcomingTexts(
    header: string,
    noClasses: string,
    dayOfMonth: int -> int,
    dayLabel: int -> string,
    classLine: UpcomingClass -> string)

  function ClassLines(cs: seq<UpcomingClass>, texts: UpcomingTexts): string
  {
    if cs == [] then "" else ClassLines(cs[..|cs| - 1], texts) + texts.classLine(cs[|cs| - 1])
  }

  /** One day: its bold heading, one line per class, and a blank line. */
  function RenderDay(g: seq<UpcomingClass>, texts: UpcomingTexts): string
  {
    "**" + texts.dayLabel(FirstDate(g)) + "**\n" + ClassLines(g, texts) + "\n"
  }

  function RenderDays(gs: seq<seq<UpcomingClass>>, texts: UpcomingTexts): string
  {
    if gs == [] then "" else RenderDays(gs[..|gs| - 1], texts) + RenderDay(gs[|gs| - 1], texts)
  }

  /** The inner loop of `generateUpcomingClassesMessage`: one line per class. */
  method AppendClassLines(message: string, classGroup: seq<UpcomingClass>, texts: UpcomingTexts) returns (r: string)
    ensures r == message + ClassLines(classGroup, texts)
  {
    r := message;
    var ci := 0;
    while ci < |classGroup|
      invariant 0 <= ci <= |classGroup|
      invariant r == message + ClassLines(classGroup[..ci], texts)
    {
      assert classGroup[..ci + 1][..ci] == classGroup[..ci];
      r := r + texts.classLine(classGroup[ci]);
      ci := ci + 1;
    }
    assert classGroup[..ci] == classGroup;
  }

  /** The whole message: the header, then the days, or the no-classes text. */
  function RenderUpcoming(gs: seq<seq<UpcomingClass>>, texts: UpcomingTexts): string
  {
    texts.header + (if gs == [] then texts.noClasses else RenderDays(gs, texts))
  }

  /** `generateUpcomingClassesMessage`: sorts the classes in place by date, groups
      them by day of the month, orders the groups by their first class, and
      builds the text day by day and line by line. */
  method GenerateUpcomingClassesMessage(a: array<UpcomingClass>, texts: UpcomingTexts) returns (message: string)
    modifies a
    ensures SortedBy(a[..], DateOf) && multiset(a[..]) == multiset(old(a[..]))
    ensures StableOrder(a[..], old(a[..]), DateOf)
    ensures message == RenderUpcoming(DayGroups(a[..], texts.dayOfMonth), texts)
  {
    SortBy(a, DateOf);
    var classGroups := GroupByDay(a[..], texts.dayOfMonth);
    message := BuildUpcomingText(classGroups, texts);
  }

  /** Groups date-sorted classes by day (`groupBy`, then `Object.values`) and
      sorts the groups by their first class's date: the result is the day groups
      in the order their days first occur. */
  method GroupByDay(sorted: seq<UpcomingClass>, dayOfMonth: int -> int) returns (classGroups: array<seq<UpcomingClass>>)
    requires SortedBy(sorted, DateOf)
    ensures fresh(classGroups)
    ensures classGroups[..] == DayGroups(sorted, dayOfMonth)
  {
    var grouped := DayGroups(sorted, dayOfMonth);
    var values := OrderByIntKey(grouped, dayOfMonth);
    classGroups := new seq<UpcomingClass>[|values|](i requires 0 <= i < |values| => values[i]);
    assert classGroups[..] == values;
    SortBy(classGroups, FirstDate);
    DayGroupsOrdered(sorted, dayOfMonth);
    SortedPermutationUnique(classGroups[..], grouped, FirstDate);
  }

  /** The text builder of `generateUpcomingClassesMessage`. */
  method BuildUpcomingText(classGroups: array<seq<UpcomingClass>>, texts: UpcomingTexts) returns (message: string)
    ensures message == RenderUpcoming(classGroups[..], texts)
  {
    var groups := classGroups[..];
    message := texts.header;
    if classGroups.Length > 0 {
      var gi := 0;
      while gi < classGroups.Length
        invariant 0 <= gi <= classGroups.Length
        invariant message == texts.header + RenderDays(groups[..gi], texts)
      {
        var classGroup := classGroups[gi];
        ghost var before := message;
        message := message + "**" + texts.dayLabel(FirstDate(classGroup)) + "**\n";
        message := AppendClassLines(message, classGroup, texts);
        message := message + "\n";
        assert message == before + RenderDay(classGroup, texts);
        assert groups[..gi + 1][..gi] == groups[..gi];
        gi := gi + 1;
      }
      assert groups[..gi] == groups;
    } else {
      message := message + texts.noClasses;
    }
  }

  /** The day groups of the message: every class is in exactly one of them (as
      many times as it was given), a group holds one day, two groups never
      hold the same day, and groups follow one another by date. */
  lemma DayGroupsSpec(s: seq<UpcomingClass>, dayOfMonth: int -> int)
    requires SortedBy(s, DateOf)
    ensures var gs := DayGroups(s, dayOfMonth);
      && multiset(Flatten(gs)) == multiset(s)
      && (forall i :: 0 <= i < |gs| ==> |gs[i]| > 0)
      && (forall i, c :: 0 <= i < |gs| && c in gs[i] ==> dayOfMonth(c.date) == dayOfMonth(gs[i][0].date))
      && (forall i, j :: 0 <= i < j < |gs| ==> dayOfMonth(gs[i][0].date) != dayOfMonth(gs[j][0].date))
      && (forall i, j :: 0 <= i < j < |gs| ==> gs[i][0].date < gs[j][0].date)
    ensures var gs := DayGroups(s, dayOfMonth);
      forall i :: 0 <= i < |gs| ==>
        gs[i] == Filter(KeyIs(DayKey(dayOfMonth), dayOfMonth(gs[i][0].date)), s) && SortedBy(gs[i], DateOf)
  {
    GroupBySpec(s, DayKey(dayOfMonth));
    DayGroupsOrdered(s, dayOfMonth);
    var gs := DayGroups(s, dayOfMonth);
    forall i | 0 <= i < |gs|
      ensures SortedBy(gs[i], DateOf)
    {
      FilterKeepsSorted(KeyIs(DayKey(dayOfMonth), dayOfMonth(gs[i][0].date)), s, DateOf);
    }
  }

  /** Filtering a sorted sequence leaves it sorted. */
  lemma {:induction false} FilterKeepsSorted<T(!new)>(p: T -> bool, s: seq<T>, rank: T -> int)
    requires SortedBy(s, rank)
    ensures SortedBy(Filter(p, s), rank)
    decreases |s|
  {
    if s != [] {
      FilterKeepsSorted(p, s[1..], rank);
      var rest := Filter(p, s[1..]);
      forall y | y in rest
        ensures rank(s[0]) <= rank(y)
      {
        var k :| 0 <= k < |s[1..]| && s[1..][k] == y;
        assert s[k + 1] == y;
      }
    }
  }

  /** No classes: the header followed by the no-classes text. */
  lemma EmptyUpcomingMessage(texts: UpcomingTexts)
    ensures RenderUpcoming(DayGroups([], texts.dayOfMonth), texts) == texts.header + texts.noClasses
  {
  }

  /** With classes, the message is the header followed by one block per day,
      each block the day's heading and its class lines. */
  lemma {:induction false} RenderDaysHasEveryLine(gs: seq<seq<UpcomingClass>>, texts: UpcomingTexts)
    ensures |RenderDays(gs, texts)| >= 5 * |gs|
    ensures forall i :: 0 <= i < |gs| ==> Includes(RenderDays(gs, texts), RenderDay(gs[i], texts))
  {
    if gs != [] {
      var init := gs[..|gs| - 1];
      RenderDaysHasEveryLine(init, texts);
      var r := RenderDays(gs, texts);
      forall i | 0 <= i < |gs|
        ensures Includes(r, RenderDay(gs[i], texts))
      {
        if i == |gs| - 1 {
          IncludesSuffix(RenderDays(init, texts), RenderDay(gs[i], texts));
        } else {
          assert gs[i] == init[i];
          IncludesPrefix(RenderDays(init, texts), RenderDay(gs[|gs| - 1], texts), RenderDay(gs[i], texts));
        }
      }
    }
  }

  lemma IncludesSuffix(s: string, t: string)
    ensures Includes(s + t, t)
  {
    assert OccursAt(s + t, t, |s|);
  }

  lemma IncludesPrefix(s: string, u: string, t: string)
    requires Includes(s, t)
    ensures Includes(s + u, t)
  {
    var k :| 0 <= k <= |s| && OccursAt(s, t, k);
    assert k + |t| <= |s| && s[k..k + |t|] == t;
    assert (s + u)[k..k + |t|] == s[k..k + |t|];
    assert OccursAt(s + u, t, k);
  }

  // ---------------------------------------------------------------------------
  // The calendar embed

  /** A calendar field: the subject it is titled after and the subject's classes,
      whose rendering (text channel, documents, voice channel, exams, class
      lines) comes from the messages configuration. */
  datatype CalendarField = CalendarField(subject: Subject, classes: seq<UpcomingClass>)

  datatype CalendarEmbed = CalendarEmbed(description: Option<string>, fields: seq<CalendarField>)

  /** `generateCalendarEmbed`: the no-classes description when empty, otherwise
      one field per subject code, titled after its first class's subject. */
  function GenerateCalendarEmbed(classes: seq<UpcomingClass>, noClasses: string): CalendarEmbed
  {
    if |classes| == 0 then CalendarEmbed(Some(noClasses), [])
    else
      var gs := GroupBy(classes, ClassCodeOf);
      GroupByPartition(classes, ClassCodeOf);
      CalendarEmbed(None, seq(|gs|, i requires 0 <= i < |gs| => CalendarField(gs[i][0].subject, gs[i])))
  }

  /** The classes of each field, in field order. */
  function FieldClasses(e: CalendarEmbed): (r: seq<seq<UpcomingClass>>)
    ensures |r| == |e.fields| && forall i :: 0 <= i < |r| ==> r[i] == e.fields[i].classes
  {
    seq(|e.fields|, i requires 0 <= i < |e.fields| => e.fields[i].classes)
  }

  /** The fields are the subject-code groups, each titled after its first class. */
  lemma CalendarFieldsAreGroups(classes: seq<UpcomingClass>, noClasses: string)
    requires classes != []
    ensures var e := GenerateCalendarEmbed(classes, noClasses);
      && e.description.None?
      && FieldClasses(e) == GroupBy(classes, ClassCodeOf)
      && forall i :: 0 <= i < |e.fields| ==> |e.fields[i].classes| > 0 && e.fields[i].subject == e.fields[i].classes[0].subject
  {
    GroupByPartition(classes, ClassCodeOf);
  }

  /** No classes: the no-classes description and no field. Otherwise no
      description, one field per distinct subject code (every class's code has
      a field, no two fields share one), each field holding exactly the classes
      of its code, all classes accounted for. */
  lemma CalendarEmbedSpec(classes: seq<UpcomingClass>, noClasses: string)
    ensures var e := GenerateCalendarEmbed(classes, noClasses);
      && (classes == [] ==> e.description == Some(noClasses) && e.fields == [])
      && (classes != [] ==> e.description.None?)
      && (forall c :: c in classes ==> exists i :: 0 <= i < |e.fields| && e.fields[i].subject.classCode == c.subject.classCode)
      && (forall i, j :: 0 <= i < j < |e.fields| ==> e.fields[i].subject.classCode != e.fields[j].subject.classCode)
      && (forall i, c :: 0 <= i < |e.fields| && c in e.fields[i].classes ==> c.subject.classCode == e.fields[i].subject.classCode)
      && multiset(Flatten(FieldClasses(e))) == multiset(classes)
  {
    var e := GenerateCalendarEmbed(classes, noClasses);
    if classes != [] {
      CalendarFieldsAreGroups(classes, noClasses);
      GroupByPartition(classes, ClassCodeOf);
      var gs := GroupBy(classes, ClassCodeOf);
      assert forall i :: 0 <= i < |e.fields| ==> e.fields[i].subject.classCode == ClassCodeOf(gs[i][0]);
      forall c | c in classes
        ensures exists i :: 0 <= i < |e.fields| && e.fields[i].subject.classCode == c.subject.classCode
      {
        var i := GroupIndex(gs, ClassCodeOf(c), ClassCodeOf).value;
        assert e.fields[i].subject.classCode == c.subject.classCode;
      }
    }
  }

  /** Each field lists its subject code's classes in the order they were given. */
  lemma CalendarFieldsKeepOrder(classes: seq<UpcomingClass>, noClasses: string)
    ensures var e := GenerateCalendarEmbed(classes, noClasses);
      forall i :: 0 <= i < |e.fields| ==>
        e.fields[i].classes == Filter(KeyIs(ClassCodeOf, e.fields[i].subject.classCode), classes)
  {
    if classes != [] {
      CalendarFieldsAreGroups(classes, noClasses);
      GroupBySpec(classes, ClassCodeOf);
    }
  }

  // ---------------------------------------------------------------------------
  // Reconciliation with the channel's messages

  /** A message fetched from the channel. */
  datatype ChannelMessage = ChannelMessage(id: string, authorId: string, editable: bool, deletable: bool)

  datatype Content = Text(text: string) | Embed(embed: CalendarEmbed)

  /** What the update does in the channel, in order. */
  datatype Effect =
    | Edit(messageId: string, content: Content)
    | SendAndCrosspost(content: Content)
    | Delete(messageId: string)

  function Filter<T(!new)>(p: T -> bool, s: seq<T>): (r: seq<T>)
    ensures forall x :: x in r <==> x in s && p(x)
    ensures |r| <= |s|
  {
    if s == [] then [] else (if p(s[0]) then [s[0]] else []) + Filter(p, s[1..])
  }

  function Reverse<T>(s: seq<T>): (r: seq<T>)
    ensures |r| == |s| && forall i :: 0 <= i < |s| ==> r[i] == s[|s| - 1 - i]
  {
    seq(|s|, i requires 0 <= i < |s| => s[|s| - 1 - i])
  }

  lemma ReverseMembers<T>(s: seq<T>)
    ensures forall x :: x in Reverse(s) <==> x in s
  {
    var r := Reverse(s);
    forall x | x in s
      ensures x in r
    {
      var k :| 0 <= k < |s| && s[k] == x;
      assert r[|s| - 1 - k] == x;
    }
  }

  lemma ReverseReverse<T>(s: seq<T>)
    ensures Reverse(Reverse(s)) == s
  {
  }

  /** Whether the client wrote the message. */
  function AuthoredBy(clientId: string): ChannelMessage -> bool
  {
    (m: ChannelMessage) => m.authorId == clientId
  }

  /** The bot's own messages; none when the fetch failed. The fetch lists the
      newest first, so read backwards the result is the bot's messages in fetch
      order: the oldest comes first. */
  function BotMessages(fetched: Option<seq<ChannelMessage>>, clientId: string): (r: seq<ChannelMessage>)
    ensures forall m :: m in r <==> fetched.Some? && m in fetched.value && m.authorId == clientId
    ensures Reverse(r) == Filter(AuthoredBy(clientId), if fetched.Some? then fetched.value else [])
  {
    var own := Filter(AuthoredBy(clientId), if fetched.Some? then fetched.value else []);
    ReverseMembers(own);
    ReverseReverse(own);
    Reverse(own)
  }

  /** The plan of `updateUpcomingClasses`: chunk i goes into the bot's i-th message
      when that one exists and is editable, into a new crossposted message
      otherwise; the bot's messages past the last chunk are deleted. */
  function UpcomingPlan(chunks: seq<string>, bots: seq<ChannelMessage>): seq<Effect>
  {
    Writes(chunks, bots) + Surplus(|chunks|, bots)
  }

  function Writes(chunks: seq<string>, bots: seq<ChannelMessage>): seq<Effect>
  {
    seq(|chunks|, i requires 0 <= i < |chunks| =>
      if i < |bots| && bots[i].editable then Edit(bots[i].id, Text(chunks[i])) else SendAndCrosspost(Text(chunks[i])))
  }

  function Surplus(n: nat, bots: seq<ChannelMessage>): seq<Effect>
  {
    if n < |bots| then seq(|bots| - n, j requires 0 <= j < |bots| - n => Delete(bots[n + j].id)) else []
  }

  /** Writes chunks with the bot's existing messages, then removes the surplus. */
  method ReconcileUpcoming(chunks: seq<string>, bots: seq<ChannelMessage>) returns (effects: seq<Effect>)
    ensures effects == UpcomingPlan(chunks, bots)
  {
    effects := [];
    var i := 0;
    while i < |chunks|
      invariant 0 <= i <= |chunks|
      invariant effects == Writes(chunks[..i], bots)
    {
      if i < |bots| && bots[i].editable {
        effects := effects + [Edit(bots[i].id, Text(chunks[i]))];
      } else {
        effects := effects + [SendAndCrosspost(Text(chunks[i]))];
      }
      i := i + 1;
    }
    assert chunks[..i] == chunks;
    if i < |bots| {
      var surplus := bots[i..];
      var k := 0;
      while k < |surplus|
        invariant 0 <= k <= |surplus|
        invariant effects == Writes(chunks, bots) + seq(k, j requires 0 <= j < k => Delete(bots[i + j].id))
      {
        effects := effects + [Delete(surplus[k].id)];
        k := k + 1;
      }
    }
  }

  /** Every chunk is written exactly once and in order, only into an editable
      message; exactly the bot's messages past the chunks are deleted. */
  lemma UpcomingPlanSpec(chunks: seq<string>, bots: seq<ChannelMessage>)
    ensures var p := UpcomingPlan(chunks, bots);
      && |p| == |chunks| + (if |chunks| < |bots| then |bots| - |chunks| else 0)
      && (forall i :: 0 <= i < |chunks| ==> !p[i].Delete? && p[i].content == Text(chunks[i]))
      && (forall i :: 0 <= i < |chunks| && p[i].Edit? ==> i < |bots| && bots[i].editable && p[i].messageId == bots[i].id)
      && (forall i :: 0 <= i < |chunks| ==> (p[i].Edit? <==> i < |bots| && bots[i].editable))
      && (forall i :: 0 <= i < |chunks| && !(i < |bots| && bots[i].editable) ==> p[i] == SendAndCrosspost(Text(chunks[i])))
      && (forall j :: |chunks| <= j < |p| ==> p[j] == Delete(bots[j].id))
  {
  }

  /** The plan of `updateClassesCalendar`: the oldest bot message is edited when it
      can be and the edit completes in time; otherwise it is deleted (when it
      can be) and the embed is sent anew and crossposted. Every other bot
      message is deleted. */
  function CalendarPlan(embed: CalendarEmbed, bots: seq<ChannelMessage>, editCompletes: bool): seq<Effect>
  {
    if bots == [] then [SendAndCrosspost(Embed(embed))]
    else
      (if bots[0].editable && editCompletes then [Edit(bots[0].id, Embed(embed))]
       else (if bots[0].deletable then [Delete(bots[0].id)] else []) + [SendAndCrosspost(Embed(embed))])
      + seq(|bots| - 1, j requires 0 <= j < |bots| - 1 => Delete(bots[j + 1].id))
  }

  method ReconcileCalendar(embed: CalendarEmbed, bots: seq<ChannelMessage>, editCompletes: bool)
    returns (effects: seq<Effect>)
    ensures effects == CalendarPlan(embed, bots, editCompletes)
  {
    var allBotMessages := bots;
    var firstMessage: Option<ChannelMessage> := None;
    if |allBotMessages| > 0 {
      firstMessage := Some(allBotMessages[0]);
      allBotMessages := allBotMessages[1..];
    }
    effects := [];
    var edited := false;
    if firstMessage.Some? && firstMessage.value.editable {
      if editCompletes {
        effects := effects + [Edit(firstMessage.value.id, Embed(embed))];
        edited := true;
      }
    }
    if !edited {
      if firstMessage.Some? && firstMessage.value.deletable {
        effects := effects + [Delete(firstMessage.value.id)];
      }
      effects := effects + [SendAndCrosspost(Embed(embed))];
    }
    var head := effects;
    var k := 0;
    while k < |allBotMessages|
      invariant 0 <= k <= |allBotMessages|
      invariant effects == head + seq(k, j requires 0 <= j < k => Delete(allBotMessages[j].id))
    {
      effects := effects + [Delete(allBotMessages[k].id)];
      k := k + 1;
    }
  }

  /** The calendar ends up in exactly one message, written once; every other
      bot message is deleted, the oldest one only when it is not the one kept. */
  lemma CalendarPlanSpec(embed: CalendarEmbed, bots: seq<ChannelMessage>, editCompletes: bool)
    ensures var p := CalendarPlan(embed, bots, editCompletes);
      && |set i | 0 <= i < |p| && !p[i].Delete?| == 1
      && (forall i :: 0 <= i < |p| && !p[i].Delete? ==> p[i].content == Embed(embed))
      && (forall j :: 1 <= j < |bots| ==> Delete(bots[j].id) in p)
      && (bots != [] && bots[0].editable && editCompletes ==> p[0] == Edit(bots[0].id, Embed(embed)))
      && (bots == [] ==> p == [SendAndCrosspost(Embed(embed))])
      && (bots != [] && !(bots[0].editable && editCompletes) ==>
            p[0] == (if bots[0].deletable then Delete(bots[0].id) else SendAndCrosspost(Embed(embed)))
            && SendAndCrosspost(Embed(embed)) in p
            && forall i :: 0 <= i < |p| ==> !p[i].Edit?)
  {
    var p := CalendarPlan(embed, bots, editCompletes);
    var head := if bots == [] then p
      else if bots[0].editable && editCompletes then [Edit(bots[0].id, Embed(embed))]
      else (if bots[0].deletable then [Delete(bots[0].id)] else []) + [SendAndCrosspost(Embed(embed))];
    var w := |head| - 1;
    assert !p[w].Delete?;
    forall j | 1 <= j < |bots|
      ensures Delete(bots[j].id) in p
    {
      assert p[|head| + j - 1] == Delete(bots[j].id);
    }
    var writes := set i | 0 <= i < |p| && !p[i].Delete?;
    assert writes == {w};
  }

  // ---------------------------------------------------------------------------
  // Which classes each update shows

  /** One week, in milliseconds. */
  const Week: int := 7 * 24 * 60 * 60 * 1000

  /** `dayjs().add(1, 'week').unix() * 1000`: a week from now, truncated to the
      second. */
  function WeekEnd(now: int): (r: int)
    ensures now + Week - 1000 < r <= now + Week
    ensures r % 1000 == 0
  {
    ((now + Week) / 1000) * 1000
  }

  predicate CalendarQuery(c: UpcomingClass, now: int, guild: string)
  {
    c.date >= now && c.status == Planned && c.guild == guild
  }

  predicate UpcomingQuery(c: UpcomingClass, now: int, guild: string)
  {
    c.date <= WeekEnd(now) && c.date >= now && c.status == Planned && c.guild == guild
  }

  /** The classes of the calendar: the stored planned classes of the guild from
      now on, or the given ones of the guild, then those of the school year. */
  function CalendarClasses(
    stored: seq<UpcomingClass>, now: int, guild: string, year: SchoolYear, given: Option<seq<UpcomingClass>>): seq<UpcomingClass>
  {
    var upcoming :=
      if given.None? then Filter((c: UpcomingClass) => CalendarQuery(c, now, guild), stored)
      else Filter((c: UpcomingClass) => c.guild == guild, given.value);
    Filter((c: UpcomingClass) => c.subject.schoolYear == year, upcoming)
  }

  /** The classes of the week's message: the stored planned classes of the guild
      between now and a week from now, or the given ones of the guild. */
  function WeekClasses(stored: seq<UpcomingClass>, now: int, guild: string, given: Option<seq<UpcomingClass>>): seq<UpcomingClass>
  {
    if given.None? then Filter((c: UpcomingClass) => UpcomingQuery(c, now, guild), stored)
    else Filter((c: UpcomingClass) => c.guild == guild, given.value)
  }

  /** A calendar shows exactly the classes of its guild and school year, among
      the given ones or the stored planned ones to come. */
  lemma CalendarClassesSpec(
    stored: seq<UpcomingClass>, now: int, guild: string, year: SchoolYear, given: Option<seq<UpcomingClass>>, c: UpcomingClass)
    ensures c in CalendarClasses(stored, now, guild, year, given) <==>
      && c.guild == guild && c.subject.schoolYear == year
      && (if given.None? then c in stored && c.date >= now && c.status == Planned else c in given.value)
  {
  }

  /** The week's message shows exactly the classes of its guild, among the given
      ones or the stored planned ones of the coming week. */
  lemma WeekClassesSpec(stored: seq<UpcomingClass>, now: int, guild: string, given: Option<seq<UpcomingClass>>, c: UpcomingClass)
    ensures c in WeekClasses(stored, now, guild, given) <==>
      && c.guild == guild
      && (if given.None? then c in stored && now <= c.date <= WeekEnd(now) && c.status == Planned else c in given.value)
  {
  }

  /** The calendar channels, one per school year. */
  datatype CalendarEntry = ClassCalendarL1 | ClassCalendarL2 | ClassCalendarL3

  function CalendarMapping(year: SchoolYear): CalendarEntry
  {
    match year
    case L1 => ClassCalendarL1
    case L2 => ClassCalendarL2
    case L3 => ClassCalendarL3
  }

  /** The state of a channel's messages as the updates read it. */
  datatype ChannelView = ChannelView(fetched: Option<seq<ChannelMessage>>, clientId: string)

  /** `updateClassesCalendarForGuildAndSchoolYear`: nothing without a configured
      calendar channel, otherwise the calendar plan for the year's classes. */
  method UpdateClassesCalendarForGuildAndSchoolYear(
    channelOf: (CalendarEntry, string) -> Option<string>, guild: string, year: SchoolYear,
    stored: seq<UpcomingClass>, now: int, given: Option<seq<UpcomingClass>>,
    view: ChannelView, editCompletes: bool, noClasses: string)
    returns (effects: seq<Effect>)
    ensures channelOf(CalendarMapping(year), guild).None? ==> effects == []
    ensures channelOf(CalendarMapping(year), guild).Some? ==>
      effects == CalendarPlan(GenerateCalendarEmbed(CalendarClasses(stored, now, guild, year, given), noClasses),
        BotMessages(view.fetched, view.clientId), editCompletes)
  {
    var channel := channelOf(CalendarMapping(year), guild);
    if channel.None? {
      return [];
    }
    var upcomingClasses := if given.None? then Filter((c: UpcomingClass) => CalendarQuery(c, now, guild), stored)
      else Filter((c: UpcomingClass) => c.guild == guild, given.value);
    var embed := GenerateCalendarEmbed(Filter((c: UpcomingClass) => c.subject.schoolYear == year, upcomingClasses), noClasses);
    effects := ReconcileCalendar(embed, BotMessages(view.fetched, view.clientId), editCompletes);
  }

  /** `updateUpcomingClassesForGuild`: nothing without a configured channel;
      otherwise the week's classes, sorted by date, rendered, split into chunks
      and reconciled with the bot's messages. `sorted` is the sorted array. */
  method UpdateUpcomingClassesForGuild(
    channel: Option<string>, guild: string, stored: seq<UpcomingClass>, now: int,
    given: Option<seq<UpcomingClass>>, view: ChannelView, texts: UpcomingTexts, splitText: string -> seq<string>)
    returns (effects: seq<Effect>, sorted: seq<UpcomingClass>)
    ensures channel.None? ==> effects == []
    ensures channel.Some? ==>
      && SortedBy(sorted, DateOf)
      && multiset(sorted) == multiset(WeekClasses(stored, now, guild, given))
      && StableOrder(sorted, WeekClasses(stored, now, guild, given), DateOf)
      && effects == UpcomingPlan(splitText(RenderUpcoming(DayGroups(sorted, texts.dayOfMonth), texts)),
        BotMessages(view.fetched, view.clientId))
  {
    if channel.None? {
      return [], [];
    }
    var upcomingClasses := WeekClasses(stored, now, guild, given);
    var a := new UpcomingClass[|upcomingClasses|](i requires 0 <= i < |upcomingClasses| => upcomingClasses[i]);
    assert a[..] == upcomingClasses;
    var content := GenerateUpcomingClassesMessage(a, texts);
    sorted := a[..];
    var chunks := splitText(content);
    effects := ReconcileUpcoming(chunks, BotMessages(view.fetched, view.clientId));
  }
}
