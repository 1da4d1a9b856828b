/** Tables of the row store as sequences in insertion order, and the query shapes the source
    uses: `.first()`, filtering, counting, `UPDATE … WHERE`, `ORDER BY` and `LIMIT … OFFSET`. */
module Table {
  import opened Wrappers

  /** The position of the first row satisfying `p`. */
  function FindIndex<T>(xs: seq<T>, p: T -> bool): (r: Option<nat>)
    ensures r.Some? ==> r.value < |xs| && p(xs[r.value]) && forall j :: 0 <= j < r.value ==> !p(xs[j])
    ensures r.None? <==> forall i :: 0 <= i < |xs| ==> !p(xs[i])
  {
    if |xs| == 0 then None
    else if p(xs[0]) then Some(0)
    else
      match FindIndex(xs[1..], p)
      case None => None
      case Some(i) => Some(i + 1)
  }

  /** `SELECT … WHERE p … .first()` and `Array.prototype.find`: the first matching row. */
  function First<T>(xs: seq<T>, p: T -> bool): (r: Option<T>)
    ensures r.Some? ==> r.value in xs && p(r.value)
    ensures r.Some? ==> exists i :: 0 <= i < |xs| && xs[i] == r.value && forall j :: 0 <= j < i ==> !p(xs[j])
    ensures r.None? <==> forall i :: 0 <= i < |xs| ==> !p(xs[i])
  {
    match FindIndex(xs, p)
    case None => None
    case Some(i) => Some(xs[i])
  }

  predicate Any<T>(xs: seq<T>, p: T -> bool) {
    exists i :: 0 <= i < |xs| && p(xs[i])
  }

  /** The rows satisfying `p`, in table order. */
  function Filter<T>(xs: seq<T>, p: T -> bool): (r: seq<T>)
    ensures |r| <= |xs|
    ensures forall i :: 0 <= i < |r| ==> r[i] in xs && p(r[i])
    ensures forall i :: 0 <= i < |xs| && p(xs[i]) ==> xs[i] in r
    ensures multiset(r) <= multiset(xs)
  {
    if |xs| == 0 then []
    else
      assert xs == [xs[0]] + xs[1..];
      if p(xs[0]) then [xs[0]] + Filter(xs[1..], p) else Filter(xs[1..], p)
  }

  lemma {:induction false} FilterAppend<T>(xs: seq<T>, ys: seq<T>, p: T -> bool)
    ensures Filter(xs + ys, p) == Filter(xs, p) + Filter(ys, p)
  {
    if |xs| > 0 {
      assert (xs + ys)[1..] == xs[1..] + ys;
      FilterAppend(xs[1..], ys, p);
    } else {
      assert xs + ys == ys;
    }
  }

  /** `SELECT COUNT(*) … WHERE p`. */
  function Count<T>(xs: seq<T>, p: T -> bool): (n: nat)
    ensures n <= |xs|
    ensures n == 0 <==> !Any(xs, p)
    ensures n == |xs| <==> forall i :: 0 <= i < |xs| ==> p(xs[i])
  {
    if |xs| == 0 then 0
    else (if p(xs[0]) then 1 else 0) + Count(xs[1..], p)
  }

  /** Counting is the length of the filtered table. */
  lemma {:induction false} CountIsFilterLength<T>(xs: seq<T>, p: T -> bool)
    ensures Count(xs, p) == |Filter(xs, p)|
  {
    if |xs| > 0 {
      CountIsFilterLength(xs[1..], p);
    }
  }

  /** `UPDATE … SET f WHERE p`: matching rows rewritten in place, the others untouched. */
  function UpdateWhere<T>(xs: seq<T>, p: T -> bool, f: T -> T): (r: seq<T>)
    ensures |r| == |xs|
    ensures forall i :: 0 <= i < |xs| ==> r[i] == if p(xs[i]) then f(xs[i]) else xs[i]
  {
    seq(|xs|, i requires 0 <= i < |xs| => if p(xs[i]) then f(xs[i]) else xs[i])
  }

  /** A row that satisfies `p` with none before it is the first match. */
  lemma FirstAt<T>(xs: seq<T>, p: T -> bool, i: nat)
    requires i < |xs| && p(xs[i]) && forall j :: 0 <= j < i ==> !p(xs[j])
    ensures First(xs, p) == Some(xs[i])
  {
    var k := FindIndex(xs, p);
    assert k.Some?;
    assert k.value == i;
  }

  /** An update that keeps the condition true finds, at the first matching row, its updated form. */
  lemma FirstAfterUpdate<T>(xs: seq<T>, p: T -> bool, f: T -> T)
    requires First(xs, p).Some?
    requires forall x :: p(x) ==> p(f(x))
    ensures First(UpdateWhere(xs, p, f), p) == Some(f(First(xs, p).value))
  {
    var t := First(xs, p).value;
    var ys := UpdateWhere(xs, p, f);
    var i :| 0 <= i < |xs| && xs[i] == t && forall j :: 0 <= j < i ==> !p(xs[j]);
    assert ys[i] == f(t);
    var found := First(ys, p);
    var k :| 0 <= k < |ys| && ys[k] == found.value && forall j :: 0 <= j < k ==> !p(ys[j]);
    assert k == i;
  }

  /** An update whose condition matches nothing leaves the table as it was. */
  lemma UpdateNothing<T>(xs: seq<T>, p: T -> bool, f: T -> T)
    requires !Any(xs, p)
    ensures UpdateWhere(xs, p, f) == xs
  {
  }

  /** `DELETE … WHERE p`. */
  function DeleteWhere<T>(xs: seq<T>, p: T -> bool): (r: seq<T>)
    ensures forall i :: 0 <= i < |r| ==> r[i] in xs && !p(r[i])
    ensures forall i :: 0 <= i < |xs| && !p(xs[i]) ==> xs[i] in r
  {
    Filter(xs, x => !p(x))
  }

  /** Deleting the row that was just appended, when no earlier row matches, restores the table. */
  lemma DeleteAppended<T>(xs: seq<T>, x: T, p: T -> bool)
    requires p(x) && !Any(xs, p)
    ensures DeleteWhere(xs + [x], p) == xs
  {
    var q := (y: T) => !p(y);
    FilterAppend(xs, [x], q);
    FilterAll(xs, q);
  }

  lemma {:induction false} FilterAll<T>(xs: seq<T>, p: T -> bool)
    requires forall i :: 0 <= i < |xs| ==> p(xs[i])
    ensures Filter(xs, p) == xs
  {
    if |xs| > 0 {
      FilterAll(xs[1..], p);
    }
  }

  /** SQLite `LIMIT n`: a negative limit means no limit. */
  function Limit<T>(xs: seq<T>, n: int): (r: seq<T>)
    ensures n < 0 ==> r == xs
    ensures n >= 0 ==> |r| == if n < |xs| then n else |xs|
    ensures r == xs[..|r|]
  {
    if n < 0 || n >= |xs| then xs else xs[..n]
  }

  /** A limit keeps a prefix: its rows are the first rows, a sub-multiset of the table, and all
      of the table when the limit does not cut. */
  lemma LimitFacts<T>(xs: seq<T>, n: int)
    ensures forall i :: 0 <= i < |Limit(xs, n)| ==> Limit(xs, n)[i] == xs[i]
    ensures multiset(Limit(xs, n)) <= multiset(xs)
    ensures n < 0 || |xs| <= n ==> Limit(xs, n) == xs
  {
    PrefixMultiset(xs, |Limit(xs, n)|);
  }

  /** `WHERE p ORDER BY key DESC LIMIT n`: matching rows only, highest key first, the first `n`
      of them (all when `n` is negative or does not cut), and no matching row left out has a
      higher key than a row kept. */
  function TopBy<T>(xs: seq<T>, p: T -> bool, key: T -> int, n: int): (r: seq<T>)
    ensures |r| == if 0 <= n < Count(xs, p) then n else Count(xs, p)
    ensures AllKept(r, xs, p) && DescBy(r, key)
    ensures multiset(r) <= multiset(Filter(xs, p))
    ensures NoneAboveBy(r, xs, p, key)
    ensures n < 0 || Count(xs, p) <= n ==> forall i :: 0 <= i < |xs| && p(xs[i]) ==> xs[i] in r
  {
    var rows := SortDescBy(Filter(xs, p), key);
    FilterMembers(xs, p);
    assert AllKept(rows, xs, p) && DescBy(rows, key);
    LimitKeepsOrder(rows, xs, p, key, n);
    CountIsFilterLength(xs, p);
    LimitFacts(rows, n);
    MatchesRanked(xs, p, Filter(xs, p), rows);
    PrefixOutranks(rows, |Limit(rows, n)|, xs, p, key);
    Limit(rows, n)
  }

  /** No matching row of `xs` left out of `r` has a higher key than a row of `r`. */
  ghost predicate NoneAboveBy<T>(r: seq<T>, xs: seq<T>, p: T -> bool, key: T -> int) {
    forall i, j :: 0 <= i < |xs| && 0 <= j < |r| && p(xs[i]) && xs[i] !in r ==> key(xs[i]) <= key(r[j])
  }

  /** No matching row of `xs` left out of `r` ranks above a row of `r` under
      `ORDER BY flag DESC, key DESC`: it is unflagged where the kept row is flagged, or in the
      same group with no higher key. */
  ghost predicate NoneAboveGrouped<T>(r: seq<T>, xs: seq<T>, p: T -> bool, flag: T -> bool, key: T -> int) {
    forall i, j :: 0 <= i < |xs| && 0 <= j < |r| && p(xs[i]) && xs[i] !in r ==>
      (flag(r[j]) && !flag(xs[i])) || (flag(r[j]) == flag(xs[i]) && key(xs[i]) <= key(r[j]))
  }

  /** Every matching row reaches a reordering of the filtered rows. */
  lemma MatchesRanked<T>(xs: seq<T>, p: T -> bool, f: seq<T>, ys: seq<T>)
    requires f == Filter(xs, p) && multiset(ys) == multiset(f)
    ensures forall i :: 0 <= i < |xs| && p(xs[i]) ==> xs[i] in ys
  {
    forall i | 0 <= i < |xs| && p(xs[i]) ensures xs[i] in ys {
      assert xs[i] in f;
      assert xs[i] in multiset(f);
    }
  }

  /** In rows by descending key, a matching row past the first `m` has no higher key than any of
      them. */
  lemma PrefixOutranks<T>(ys: seq<T>, m: nat, xs: seq<T>, p: T -> bool, key: T -> int)
    requires m <= |ys| && DescBy(ys, key)
    requires forall i :: 0 <= i < |xs| && p(xs[i]) ==> xs[i] in ys
    ensures NoneAboveBy(ys[..m], xs, p, key)
  {
    forall i, j | 0 <= i < |xs| && 0 <= j < m && p(xs[i]) && xs[i] !in ys[..m]
      ensures key(xs[i]) <= key(ys[..m][j])
    {
      assert forall t :: 0 <= t < m ==> ys[..m][t] == ys[t];
      var k :| 0 <= k < |ys| && ys[k] == xs[i];
      assert k >= m;
    }
  }

  /** In grouped rows, a matching row past the first `m` ranks no higher than any of them. */
  lemma PrefixOutranksGrouped<T>(ys: seq<T>, m: nat, xs: seq<T>, p: T -> bool, flag: T -> bool, key: T -> int)
    requires m <= |ys| && FlaggedFirst(ys, flag) && DescWithin(ys, flag, key)
    requires forall i :: 0 <= i < |xs| && p(xs[i]) ==> xs[i] in ys
    ensures NoneAboveGrouped(ys[..m], xs, p, flag, key)
  {
    forall i, j | 0 <= i < |xs| && 0 <= j < m && p(xs[i]) && xs[i] !in ys[..m]
      ensures (flag(ys[..m][j]) && !flag(xs[i])) || (flag(ys[..m][j]) == flag(xs[i]) && key(xs[i]) <= key(ys[..m][j]))
    {
      assert forall t :: 0 <= t < m ==> ys[..m][t] == ys[t];
      var k :| 0 <= k < |ys| && ys[k] == xs[i];
      assert k >= m;
    }
  }

  /** The key does not increase along the rows. */
  predicate DescBy<T>(r: seq<T>, key: T -> int) {
    forall i, j :: 0 <= i < j < |r| ==> key(r[i]) >= key(r[j])
  }

  /** A limit keeps a prefix, so its rows are still kept rows in descending order. */
  lemma LimitKeepsOrder<T>(ys: seq<T>, xs: seq<T>, p: T -> bool, key: T -> int, n: int)
    requires AllKept(ys, xs, p) && DescBy(ys, key)
    ensures AllKept(Limit(ys, n), xs, p) && DescBy(Limit(ys, n), key)
  {
    var r := Limit(ys, n);
    assert forall i :: 0 <= i < |r| ==> r[i] == ys[i];
  }

  /** SQLite `OFFSET n`: a negative offset counts as zero. */
  function Offset<T>(xs: seq<T>, n: int): (r: seq<T>)
    ensures n <= 0 ==> r == xs
    ensures n > 0 ==> r == xs[if n < |xs| then n else |xs|..]
  {
    if n <= 0 then xs else if n >= |xs| then [] else xs[n..]
  }

  /** `LIMIT limit OFFSET offset`: skip, then take. */
  function Window<T>(xs: seq<T>, limit: int, offset: int): (r: seq<T>)
    ensures limit >= 0 ==> |r| <= limit
    ensures forall i :: 0 <= i < |r| ==> r[i] in xs
  {
    Limit(Offset(xs, offset), limit)
  }

  /** A window is one contiguous run of the table: it starts at the offset, cut to the table. */
  lemma WindowSlice<T>(xs: seq<T>, limit: int, offset: int)
    ensures var start := if offset <= 0 then 0 else if offset < |xs| then offset else |xs|;
      start + |Window(xs, limit, offset)| <= |xs| &&
      Window(xs, limit, offset) == xs[start..start + |Window(xs, limit, offset)|]
  {
  }

  /** Page windows of a fixed positive size over consecutive pages cover the table in order. */
  lemma WindowPages<T>(xs: seq<T>, size: nat, page: nat)
    requires size > 0 && (page + 1) * size <= |xs|
    ensures Window(xs, size, page * size) == xs[page * size..(page + 1) * size]
  {
  }

  predicate SortedBy<T>(xs: seq<T>, key: T -> int) {
    forall i, j :: 0 <= i < j < |xs| ==> key(xs[i]) <= key(xs[j])
  }

  function Insert<T>(x: T, xs: seq<T>, key: T -> int): (r: seq<T>)
    requires SortedBy(xs, key)
    ensures SortedBy(r, key)
    ensures |r| == |xs| + 1
    ensures forall i :: 0 <= i < |r| ==> r[i] == x || r[i] in xs
    ensures multiset(r) == multiset(xs) + multiset{x}
  {
    if |xs| == 0 then [x]
    else if key(x) <= key(xs[0]) then [x] + xs
    else
      var rest := Insert(x, xs[1..], key);
      assert xs == [xs[0]] + xs[1..];
      ConsFacts(x, xs[0], xs[1..], rest, key);
      [xs[0]] + rest
  }

  /** The step of `Insert` past a smaller head: the head in front of the insertion into the tail. */
  lemma ConsFacts<T>(x: T, h: T, tail: seq<T>, rest: seq<T>, key: T -> int)
    requires SortedBy([h] + tail, key) && key(h) < key(x)
    requires SortedBy(rest, key) && |rest| == |tail| + 1
    requires forall i :: 0 <= i < |rest| ==> rest[i] == x || rest[i] in tail
    requires multiset(rest) == multiset(tail) + multiset{x}
    ensures SortedBy([h] + rest, key)
    ensures forall i :: 0 <= i < |rest| + 1 ==> ([h] + rest)[i] == x || ([h] + rest)[i] in [h] + tail
    ensures multiset([h] + rest) == multiset([h] + tail) + multiset{x}
  {
    forall i | 0 <= i < |rest| ensures key(h) <= key(rest[i]) {
      if rest[i] != x {
        var k :| 0 <= k < |tail| && tail[k] == rest[i];
        assert ([h] + tail)[0] == h && ([h] + tail)[k + 1] == tail[k];
      }
    }
    ConsSorted(h, rest, key);
    forall i | 0 <= i < |rest| + 1 ensures ([h] + rest)[i] == x || ([h] + rest)[i] in [h] + tail {
      if i > 0 {
        assert ([h] + rest)[i] == rest[i - 1];
        if rest[i - 1] != x {
          var k :| 0 <= k < |tail| && tail[k] == rest[i - 1];
          assert ([h] + tail)[k + 1] == tail[k];
        }
      }
    }
    assert multiset([h] + rest) == multiset{h} + multiset(rest);
    assert multiset([h] + tail) == multiset{h} + multiset(tail);
  }

  /** A row no greater than every row of a sorted table can go in front of it. */
  lemma ConsSorted<T>(h: T, rest: seq<T>, key: T -> int)
    requires SortedBy(rest, key) && forall i :: 0 <= i < |rest| ==> key(h) <= key(rest[i])
    ensures SortedBy([h] + rest, key)
  {
    forall i, j | 0 <= i < j < |rest| + 1 ensures key(([h] + rest)[i]) <= key(([h] + rest)[j]) {
      if i > 0 {
        assert ([h] + rest)[i] == rest[i - 1];
      }
      assert ([h] + rest)[j] == rest[j - 1];
    }
  }

  /** `ORDER BY key ASC`: the rows, sorted by ascending key. */
  function SortBy<T>(xs: seq<T>, key: T -> int): (r: seq<T>)
    ensures SortedBy(r, key)
    ensures multiset(r) == multiset(xs)
    ensures |r| == |xs|
    ensures forall i :: 0 <= i < |r| ==> r[i] in xs
    ensures forall i :: 0 <= i < |xs| ==> xs[i] in r
  {
    if |xs| == 0 then []
    else
      assert xs == [xs[0]] + xs[1..];
      var r := Insert(xs[0], SortBy(xs[1..], key), key);
      PermutationMembers(r, xs);
      r
  }

  /** `ORDER BY key DESC`: the rows, sorted by descending key. */
  function SortDescBy<T>(xs: seq<T>, key: T -> int): (r: seq<T>)
    ensures forall i, j :: 0 <= i < j < |r| ==> key(r[i]) >= key(r[j])
    ensures multiset(r) == multiset(xs)
    ensures |r| == |xs|
    ensures forall i :: 0 <= i < |r| ==> r[i] in xs
    ensures forall i :: 0 <= i < |xs| ==> xs[i] in r
  {
    SortBy(xs, x => 0 - key(x))
  }

  /** The opposite condition. */
  function Negate<T>(p: T -> bool): T -> bool {
    x => !p(x)
  }

  /** `ORDER BY flag DESC, key DESC`: the flagged rows first, each group by descending key. */
  function GroupDescBy<T>(xs: seq<T>, flag: T -> bool, key: T -> int): (r: seq<T>)
    ensures forall i :: 0 <= i < |r| ==> r[i] in xs
    ensures forall i :: 0 <= i < |xs| ==> xs[i] in r
    ensures forall i, j :: 0 <= i < j < |r| && flag(r[j]) ==> flag(r[i])
    ensures forall i, j :: 0 <= i < j < |r| && flag(r[i]) == flag(r[j]) ==> key(r[i]) >= key(r[j])
    ensures multiset(r) == multiset(xs)
  {
    var s := SortDescBy(xs, key);
    FilterSplitsMultiset(s, flag);
    FilterKeepsOrder(s, flag, key);
    FilterKeepsOrder(s, Negate(flag), key);
    var a := Filter(s, flag);
    var b := Filter(s, Negate(flag));
    FilterEither(s, flag);
    GroupsJoined(s, a, b, flag, key);
    a + b
  }

  /** `WHERE p ORDER BY key DESC`, or `ORDER BY flag DESC, key DESC` when `grouped`: exactly the
      matching rows, in that order. */
  function RankBy<T>(xs: seq<T>, p: T -> bool, grouped: bool, flag: T -> bool, key: T -> int): (r: seq<T>)
    ensures |r| == Count(xs, p)
    ensures multiset(r) == multiset(Filter(xs, p))
    ensures forall i :: 0 <= i < |r| ==> r[i] in xs && p(r[i])
    ensures forall i :: 0 <= i < |xs| && p(xs[i]) ==> xs[i] in r
    ensures grouped ==> forall i, j :: 0 <= i < j < |r| && flag(r[j]) ==> flag(r[i])
    ensures forall i, j :: 0 <= i < j < |r| && (!grouped || flag(r[i]) == flag(r[j])) ==> key(r[i]) >= key(r[j])
  {
    var f := Filter(xs, p);
    CountIsFilterLength(xs, p);
    FilterMembers(xs, p);
    if grouped then
      GroupLength(f, flag, key);
      GroupDescBy(f, flag, key)
    else SortDescBy(f, key)
  }

  /** Every row is a row of `xs` that `p` keeps. */
  ghost predicate AllKept<T>(r: seq<T>, xs: seq<T>, p: T -> bool) {
    forall i :: 0 <= i < |r| ==> r[i] in xs && p(r[i])
  }

  /** The flagged rows come first. */
  predicate FlaggedFirst<T>(r: seq<T>, flag: T -> bool) {
    forall i, j :: 0 <= i < j < |r| && flag(r[j]) ==> flag(r[i])
  }

  /** Within a flag group, the key does not increase. */
  predicate DescWithin<T>(r: seq<T>, flag: T -> bool, key: T -> int) {
    forall i, j :: 0 <= i < j < |r| && flag(r[i]) == flag(r[j]) ==> key(r[i]) >= key(r[j])
  }

  /** `WHERE p ORDER BY flag DESC, key DESC LIMIT n`: the first `n` of the grouped rows (all
      when `n` is negative or does not cut), and no matching row left out ranks above a row
      kept. */
  function TopGroupedBy<T>(xs: seq<T>, p: T -> bool, flag: T -> bool, key: T -> int, n: int): (r: seq<T>)
    ensures |r| == if 0 <= n < Count(xs, p) then n else Count(xs, p)
    ensures AllKept(r, xs, p) && FlaggedFirst(r, flag) && DescWithin(r, flag, key)
    ensures multiset(r) <= multiset(Filter(xs, p))
    ensures NoneAboveGrouped(r, xs, p, flag, key)
    ensures n < 0 || Count(xs, p) <= n ==> forall i :: 0 <= i < |xs| && p(xs[i]) ==> xs[i] in r
  {
    GroupedLimitFacts(xs, p, flag, key, n);
    Limit(RankBy(xs, p, true, flag, key), n)
  }

  /** The facts `TopGroupedBy` states, about the first `n` of the ranked rows. */
  lemma GroupedLimitFacts<T>(xs: seq<T>, p: T -> bool, flag: T -> bool, key: T -> int, n: int)
    ensures var r := Limit(RankBy(xs, p, true, flag, key), n);
            |r| == (if 0 <= n < Count(xs, p) then n else Count(xs, p)) &&
            AllKept(r, xs, p) && FlaggedFirst(r, flag) && DescWithin(r, flag, key) &&
            multiset(r) <= multiset(Filter(xs, p)) && NoneAboveGrouped(r, xs, p, flag, key)
  {
    var ranked := RankBy(xs, p, true, flag, key);
    assert AllKept(ranked, xs, p) && FlaggedFirst(ranked, flag) && DescWithin(ranked, flag, key);
    LimitKeepsRank(ranked, xs, p, flag, key, n);
    LimitFacts(ranked, n);
    PrefixOutranksGrouped(ranked, |Limit(ranked, n)|, xs, p, flag, key);
  }

  /** A limit keeps a prefix, so what holds of every row and of every ordered pair still holds. */
  lemma LimitKeepsRank<T>(ys: seq<T>, xs: seq<T>, p: T -> bool, flag: T -> bool, key: T -> int, n: int)
    requires AllKept(ys, xs, p) && FlaggedFirst(ys, flag) && DescWithin(ys, flag, key)
    ensures AllKept(Limit(ys, n), xs, p) && FlaggedFirst(Limit(ys, n), flag) && DescWithin(Limit(ys, n), flag, key)
  {
    var r := Limit(ys, n);
    assert forall i :: 0 <= i < |r| ==> r[i] == ys[i];
  }

  /** Whatever the filter keeps is a matching row of the table. */
  lemma FilterMembers<T>(xs: seq<T>, p: T -> bool)
    ensures forall x :: x in Filter(xs, p) ==> x in xs && p(x)
  {
    forall x | x in Filter(xs, p) ensures x in xs && p(x) {
      var k :| 0 <= k < |Filter(xs, p)| && Filter(xs, p)[k] == x;
    }
  }

  /** Grouping reorders the rows without adding or dropping any. */
  lemma GroupLength<T>(xs: seq<T>, flag: T -> bool, key: T -> int)
    ensures |GroupDescBy(xs, flag, key)| == |xs|
  {
    var s := SortDescBy(xs, key);
    FilterSplits(s, flag);
  }

  /** The filter keeps every copy of a matching row and no copy of any other. */
  lemma {:induction false} FilterMultiplicity<T>(xs: seq<T>, p: T -> bool, x: T)
    ensures multiset(Filter(xs, p))[x] == if p(x) then multiset(xs)[x] else 0
  {
    if |xs| > 0 {
      FilterMultiplicity(xs[1..], p, x);
      assert xs == [xs[0]] + xs[1..];
      assert multiset(xs) == multiset{xs[0]} + multiset(xs[1..]);
      if p(xs[0]) {
        assert Filter(xs, p) == [xs[0]] + Filter(xs[1..], p);
        assert multiset(Filter(xs, p)) == multiset{xs[0]} + multiset(Filter(xs[1..], p));
      } else {
        assert Filter(xs, p) == Filter(xs[1..], p);
      }
    }
  }

  /** A condition and its negation split the rows between them. */
  lemma {:induction false} FilterSplits<T>(xs: seq<T>, p: T -> bool)
    ensures |Filter(xs, p)| + |Filter(xs, Negate(p))| == |xs|
  {
    if |xs| > 0 {
      FilterSplits(xs[1..], p);
    }
  }

  /** A condition and its negation split the rows between them, each row going to one side. */
  lemma {:induction false} FilterSplitsMultiset<T>(xs: seq<T>, p: T -> bool)
    ensures multiset(Filter(xs, p)) + multiset(Filter(xs, Negate(p))) == multiset(xs)
  {
    if |xs| > 0 {
      FilterSplitsMultiset(xs[1..], p);
      assert xs == [xs[0]] + xs[1..];
      assert multiset(xs) == multiset{xs[0]} + multiset(xs[1..]);
      if !p(xs[0]) {
        assert Negate(p)(xs[0]);
      }
    }
  }

  /** Every row passes a condition or its negation. */
  lemma FilterEither<T>(xs: seq<T>, p: T -> bool)
    ensures forall i :: 0 <= i < |xs| ==> xs[i] in Filter(xs, p) || xs[i] in Filter(xs, Negate(p))
  {
    forall i | 0 <= i < |xs| ensures xs[i] in Filter(xs, p) || xs[i] in Filter(xs, Negate(p)) {
      if !p(xs[i]) {
        assert Negate(p)(xs[i]);
      }
    }
  }

  /** Filtering a table sorted by descending key keeps it sorted. */
  lemma {:induction false} FilterKeepsOrder<T>(xs: seq<T>, p: T -> bool, key: T -> int)
    requires forall i, j :: 0 <= i < j < |xs| ==> key(xs[i]) >= key(xs[j])
    ensures forall i, j :: 0 <= i < j < |Filter(xs, p)| ==> key(Filter(xs, p)[i]) >= key(Filter(xs, p)[j])
  {
    if |xs| > 0 {
      var tail := xs[1..];
      FilterKeepsOrder(tail, p, key);
      var r := Filter(tail, p);
      forall i | 0 <= i < |r| ensures key(xs[0]) >= key(r[i]) {
        var k :| 0 <= k < |tail| && tail[k] == r[i];
        assert xs[k + 1] == r[i];
      }
      if p(xs[0]) {
        HeadOrder([xs[0]] + r, key);
      }
    }
  }

  /** A head no smaller than the rest, on a descending rest, gives a descending table. */
  lemma HeadOrder<T>(s: seq<T>, key: T -> int)
    requires |s| > 0
    requires forall i :: 0 <= i < |s| - 1 ==> key(s[0]) >= key(s[1..][i])
    requires forall i, j :: 0 <= i < j < |s| - 1 ==> key(s[1..][i]) >= key(s[1..][j])
    ensures forall i, j :: 0 <= i < j < |s| ==> key(s[i]) >= key(s[j])
  {
    assert forall k :: 1 <= k < |s| ==> s[k] == s[1..][k - 1];
  }

  lemma GroupsJoined<T>(xs: seq<T>, a: seq<T>, b: seq<T>, flag: T -> bool, key: T -> int)
    requires forall i :: 0 <= i < |a| ==> a[i] in xs && flag(a[i])
    requires forall i :: 0 <= i < |b| ==> b[i] in xs && !flag(b[i])
    requires forall i :: 0 <= i < |xs| ==> xs[i] in a || xs[i] in b
    requires forall i, j :: 0 <= i < j < |a| ==> key(a[i]) >= key(a[j])
    requires forall i, j :: 0 <= i < j < |b| ==> key(b[i]) >= key(b[j])
    ensures forall i :: 0 <= i < |a + b| ==> (a + b)[i] in xs
    ensures forall i :: 0 <= i < |xs| ==> xs[i] in a + b
    ensures forall i, j :: 0 <= i < j < |a + b| && flag((a + b)[j]) ==> flag((a + b)[i])
    ensures forall i, j :: 0 <= i < j < |a + b| && flag((a + b)[i]) == flag((a + b)[j]) ==>
              key((a + b)[i]) >= key((a + b)[j])
  {
    var r := a + b;
    assert forall k :: 0 <= k < |a| ==> r[k] == a[k];
    assert forall k :: |a| <= k < |r| ==> r[k] == b[k - |a|];
  }

  /** A weaker condition counts at least as many rows. */
  lemma {:induction false} CountMonotone<T>(xs: seq<T>, p: T -> bool, q: T -> bool)
    requires forall i :: 0 <= i < |xs| && p(xs[i]) ==> q(xs[i])
    ensures Count(xs, p) <= Count(xs, q)
  {
    if |xs| > 0 {
      CountMonotone(xs[1..], p, q);
    }
  }

  /** Two orderings of the same rows have the same length and the same members. */
  lemma PermutationMembers<T>(a: seq<T>, b: seq<T>)
    requires multiset(a) == multiset(b)
    ensures |a| == |b|
    ensures forall i :: 0 <= i < |a| ==> a[i] in b
    ensures forall i :: 0 <= i < |b| ==> b[i] in a
  {
    assert |multiset(a)| == |multiset(b)|;
    forall i | 0 <= i < |a| ensures a[i] in b {
      assert a[i] in multiset(a);
    }
    forall i | 0 <= i < |b| ensures b[i] in a {
      assert b[i] in multiset(b);
    }
  }

  /** A prefix holds no row more often than the whole table. */
  lemma PrefixMultiset<T>(xs: seq<T>, n: nat)
    requires n <= |xs|
    ensures multiset(xs[..n]) <= multiset(xs)
  {
    assert xs == xs[..n] + xs[n..];
  }
}
