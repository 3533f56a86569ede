// Which partitions, and so which subject filters, a member of a group is given.
module Allocation {
  import opened Arithmetic
  import opened Names
  import opened Decimal
  import opened Config

  // Balanced distribution over a roster of n members

  lemma Division(n: nat, max: nat)
    requires 1 <= n <= max
    ensures max / n >= 1
    ensures n * (max / n) <= max < n * (max / n) + n
    ensures max % n == max - n * (max / n)
  {
    assert max == n * (max / n) + max % n;
  }

  /** Position in the roster of the owner of partition `i`, as the source computes it. */
  function OwnerIndex(n: nat, max: nat, i: nat): (k: nat)
    requires 1 <= n <= max
    ensures k < n
  {
    Division(n, max);
    var per := max / n;
    if i < n * per then (i / per) % n else (i - n * per) % n
  }

  function Range(lo: nat, count: nat): seq<nat> {
    seq(count, i requires 0 <= i < count => lo + i)
  }

  /** Member k of n holds the k-th block of max/n partitions, and the k-th left-over one if any. */
  function Block(n: nat, max: nat, k: nat): seq<nat>
    requires k < n <= max
  {
    var per := max / n;
    Range(k * per, per) + if k < max % n then [n * per + k] else []
  }

  lemma BlockBounds(n: nat, per: nat, k: nat)
    requires k < n
    ensures 0 <= k * per <= k * per + per <= n * per
  {
    MulSucc(k, per);
    MulMonotone(k + 1, n, per);
  }

  /** The owner the source computes is the member whose block holds the partition. */
  lemma OwnerBlock(n: nat, max: nat, k: nat, i: nat)
    requires k < n <= max && i < max
    ensures OwnerIndex(n, max, i) == k
      <==> k * (max / n) <= i < k * (max / n) + max / n || i == n * (max / n) + k
  {
    Division(n, max);
    var per := max / n;
    BlockBounds(n, per, k);
    if i < n * per {
      QuotientBelow(i, per, n);
      SmallModulo(i / per, n);
      QuotientIs(i, per, k);
    } else {
      SmallModulo(i - n * per, n);
    }
  }

  lemma SmallModulo(r: nat, n: nat)
    requires r < n
    ensures r % n == r
  {
  }

  lemma QuotientBelow(i: nat, per: nat, n: nat)
    requires per >= 1 && i < n * per
    ensures i / per < n
  {
    var q := i / per;
    assert q * per <= i;
    if q >= n {
      MulMonotone(n, q, per);
    }
  }

  /** The partitions below `i` that the source's loop has collected for member k. */
  ghost function Collected(n: nat, max: nat, k: nat, i: nat): seq<nat>
    requires k < n <= max && i <= max
  {
    if i == 0 then []
    else Collected(n, max, k, i - 1) + if OwnerIndex(n, max, i - 1) == k then [i - 1] else []
  }

  /** The part of [lo, lo + count) that is below i. */
  function RangeBelow(lo: nat, count: nat, i: nat): seq<nat> {
    if i <= lo then [] else Range(lo, if i < lo + count then i - lo else count)
  }

  lemma {:induction false} CollectedBelow(n: nat, max: nat, k: nat, i: nat)
    requires k < n <= max && i <= max
    ensures Collected(n, max, k, i)
      == RangeBelow(k * (max / n), max / n, i) + if n * (max / n) + k < i then [n * (max / n) + k] else []
  {
    if i > 0 {
      CollectedBelow(n, max, k, i - 1);
      OwnerBlock(n, max, k, i - 1);
      BlockBounds(n, max / n, k);
      RangeStep(k * (max / n), max / n, i - 1);
    }
  }

  lemma RangeStep(lo: nat, count: nat, i: nat)
    ensures RangeBelow(lo, count, i + 1) == RangeBelow(lo, count, i) + if lo <= i < lo + count then [i] else []
  {
  }

  lemma CollectedAll(n: nat, max: nat, k: nat)
    requires k < n <= max
    ensures Collected(n, max, k, max) == Block(n, max, k)
  {
    CollectedBelow(n, max, k, max);
    Division(n, max);
    BlockBounds(n, max / n, k);
  }

  /** A partition is in a member's block exactly when that member is its owner. */
  lemma BlockOwner(n: nat, max: nat, k: nat, p: nat)
    requires k < n <= max && p < max
    ensures p in Block(n, max, k) <==> OwnerIndex(n, max, p) == k
  {
    Division(n, max);
    OwnerBlock(n, max, k, p);
    RangeHolds(k * (max / n), max / n, p);
  }

  lemma RangeHolds(lo: nat, count: nat, p: nat)
    ensures p in Range(lo, count) <==> lo <= p < lo + count
  {
    if lo <= p < lo + count {
      assert Range(lo, count)[p - lo] == p;
    }
  }

  /** A block lists partitions below max, each once and in increasing order. */
  lemma BlockInRange(n: nat, max: nat, k: nat)
    requires k < n <= max
    ensures forall p :: p in Block(n, max, k) ==> 0 <= p < max
    ensures forall i, j :: 0 <= i < j < |Block(n, max, k)| ==> Block(n, max, k)[i] < Block(n, max, k)[j]
  {
    Division(n, max);
    BlockBounds(n, max / n, k);
  }

  ghost function TotalSize(n: nat, max: nat, k: nat): nat
    requires k <= n <= max
  {
    if k == 0 then 0 else TotalSize(n, max, k - 1) + |Block(n, max, k - 1)|
  }

  lemma {:induction false} TotalBelow(n: nat, max: nat, k: nat)
    requires k <= n <= max && n > 0
    ensures TotalSize(n, max, k) == k * (max / n) + if k < max % n then k else max % n
  {
    if k > 0 {
      TotalBelow(n, max, k - 1);
      MulSucc(k - 1, max / n);
    }
  }

  /** Blocks differ in size by at most one, larger ones first, and use up all partitions. */
  lemma Balanced(n: nat, max: nat, j: nat, k: nat)
    requires j <= k < n <= max
    ensures |Block(n, max, k)| <= |Block(n, max, j)| <= |Block(n, max, k)| + 1
    ensures TotalSize(n, max, n) == max
  {
    TotalBelow(n, max, n);
    Division(n, max);
  }

  // From a stored configuration to filters

  /** The names taking part: no duplicates, sorted, cut off at `max`. */
  function Roster(members: seq<string>, max: nat): (r: seq<string>)
    ensures StrictlySorted(r) && |r| <= max
    ensures forall y :: y in r ==> y in members
    ensures |members| > 0 && max > 0 ==> |r| > 0
  {
    var sorted := Sort(Firsts(members));
    FirstsElements(members);
    if members == [] then [] else
      assert members[0] in sorted;
      if |sorted| > max then sorted[..max] else sorted
  }

  /** Two membership lists with the same names give the same roster. */
  lemma RosterOfSet(a: seq<string>, b: seq<string>, max: nat)
    requires Elements(a) == Elements(b)
    ensures Roster(a, max) == Roster(b, max)
  {
    FirstsElements(a);
    FirstsElements(b);
    forall y ensures y in Sort(Firsts(a)) <==> y in Sort(Firsts(b)) {
      assert y in a <==> y in Elements(a);
      assert y in b <==> y in Elements(b);
    }
    SortedUnique(Sort(Firsts(a)), Sort(Firsts(b)));
    assert a == [] <==> b == [] by {
      assert a != [] ==> a[0] in Elements(b);
      assert b != [] ==> b[0] in Elements(a);
    }
  }

  /** How many of the names come before `y`. */
  function Rank(names: set<string>, y: string): nat { |set x | x in names && Less(x, y)| }

  lemma RankInSorted(s: seq<string>, i: nat)
    requires StrictlySorted(s) && i < |s|
    ensures Rank(Elements(s), s[i]) == i
  {
    SortedDistinct(s);
    forall x ensures x in Elements(s) && Less(x, s[i]) <==> x in Elements(s[..i]) {
      if x in s {
        var j :| 0 <= j < |s| && s[j] == x;
        LessTotal(s[j], s[i]);
        if j < i { assert s[..i][j] == x; }
      }
    }
    assert (set x | x in Elements(s) && Less(x, s[i])) == Elements(s[..i]);
    DistinctSize(s[..i]);
  }

  /** The roster holds exactly the first max names in byte order, in that order. */
  lemma RosterExactly(members: seq<string>, max: nat, y: string)
    ensures var names, r := Elements(members), Roster(members, max);
      && |r| == (if |names| <= max then |names| else max)
      && (y in r <==> y in members && Rank(names, y) < max)
      && (y in r ==> Rank(names, y) < |r| && r[Rank(names, y)] == y)
  {
    FirstsElements(members);
    var sorted := Sort(Firsts(members));
    assert Elements(sorted) == Elements(members) by {
      assert forall x :: x in sorted <==> x in members;
    }
    SortedDistinct(sorted);
    DistinctSize(sorted);
    if members == [] {
      assert Elements(members) == {};
    } else if y in members {
      var i :| 0 <= i < |sorted| && sorted[i] == y;
      RankInSorted(sorted, i);
      if i < max { assert y == Roster(members, max)[i]; }
      if y in Roster(members, max) {
        var j :| 0 <= j < |Roster(members, max)| && Roster(members, max)[j] == y;
        assert sorted[j] == y;
      }
    }
  }

  function IndexIn(s: seq<string>, x: string): (k: nat)
    requires x in s
    ensures k < |s| && s[k] == x
  {
    if s[0] == x then 0 else 1 + IndexIn(s[1..], x)
  }

  function MappedTo(mappings: seq<MemberMapping>, name: string): seq<int> {
    if mappings == [] then []
    else
      var last := mappings[|mappings| - 1];
      MappedTo(mappings[..|mappings| - 1], name) + if last.member == name then last.partitions else []
  }

  /** The partitions of member `name`. */
  function PartitionsOf(members: seq<string>, max: nat, mappings: seq<MemberMapping>, name: string): seq<int> {
    if members != [] then
      var roster := Roster(members, max);
      if name in roster then Block(|roster|, max, IndexIn(roster, name)) else []
    else MappedTo(mappings, name)
  }

  /** With n names, or max of them if there are more, the k-th name in byte order is given the
      k-th block, and any other name nothing. */
  lemma BalancedExactly(members: seq<string>, max: nat, mappings: seq<MemberMapping>, y: string)
    requires members != [] && max >= 1
    ensures var names := Elements(members);
      var n := if |names| <= max then |names| else max;
      PartitionsOf(members, max, mappings, y)
        == if y in members && Rank(names, y) < max then
             assert 0 <= Rank(names, y) < n <= max by { RosterExactly(members, max, y); }
             Block(n, max, Rank(names, y))
           else []
  {
    RosterExactly(members, max, y);
    var roster := Roster(members, max);
    if y in roster {
      SortedDistinct(roster);
      assert IndexIn(roster, y) == Rank(Elements(members), y);
    }
  }

  /** So up to max members each get their share, and beyond that exactly the first max names
      get one partition each. */
  lemma EveryoneServed(members: seq<string>, max: nat, mappings: seq<MemberMapping>, y: string)
    requires y in members && max >= 1
    ensures var n, share := |Elements(members)|, |PartitionsOf(members, max, mappings, y)|;
      if n <= max then n >= 1 && max / n <= share <= max / n + 1 && share >= 1
      else share == if Rank(Elements(members), y) < max then 1 else 0
  {
    BalancedExactly(members, max, mappings, y);
    RosterExactly(members, max, y);
    var n := |Elements(members)|;
    assert y in Elements(members);
    if n <= max {
      RankBelow(Elements(members), y);
      Division(n, max);
    } else {
      assert max / max == 1 && max % max == 0;
    }
  }

  lemma RankBelow(names: set<string>, y: string)
    requires y in names
    ensures Rank(names, y) < |names|
  {
    LessTotal(y, y);
    var before := set x | x in names && Less(x, y);
    assert y !in before && before <= names - {y};
    SubsetSize(before, names - {y});
  }

  /** A member with one mapping has the partitions of that mapping, in its order. */
  lemma {:induction false} MappedExactly(mappings: seq<MemberMapping>, name: string)
    requires DistinctMembers(mappings)
    ensures forall i :: 0 <= i < |mappings| && mappings[i].member == name ==>
      MappedTo(mappings, name) == mappings[i].partitions
    ensures (forall i :: 0 <= i < |mappings| ==> mappings[i].member != name) ==> MappedTo(mappings, name) == []
  {
    if mappings != [] {
      MappedExactly(mappings[..|mappings| - 1], name);
      assert forall i :: 0 <= i < |mappings| - 1 ==> mappings[..|mappings| - 1][i] == mappings[i];
    }
  }

  /** One filter per partition: the partition number as first token, then `rest`. */
  function Render(partitions: seq<int>, rest: string): (r: seq<string>)
    ensures |r| == |partitions|
    ensures forall i :: 0 <= i < |r| ==> r[i] == Itoa(partitions[i]) + "." + rest
  {
    seq(|partitions|, i requires 0 <= i < |partitions| => Itoa(partitions[i]) + "." + rest)
  }

  /** A mapped member takes whole partitions; a balanced one only the filter's share of them. */
  function PartitionFilters(members: seq<string>, max: nat, mappings: seq<MemberMapping>, name: string,
      filter: string): seq<string> {
    Render(PartitionsOf(members, max, mappings, name), if members != [] then filter else ">")
  }

  lemma RenderAppend(a: seq<int>, b: seq<int>, rest: string)
    ensures Render(a + b, rest) == Render(a, rest) + Render(b, rest)
  {
  }

  /** The loop over all partitions. */
  method BalancedFilters(roster: seq<string>, max: nat, name: string, filter: string) returns (mine: seq<string>)
    requires 0 < |roster| <= max && StrictlySorted(roster)
    ensures mine == Render(if name in roster then Block(|roster|, max, IndexIn(roster, name)) else [], filter)
  {
    var n := |roster|;
    Division(n, max);
    SortedDistinct(roster);
    var per := max / n;
    ghost var k := if name in roster then IndexIn(roster, name) else 0;
    mine := [];
    for i := 0 to max
      invariant mine == Render(if name in roster then Collected(n, max, k, i) else [], filter)
    {
      var memberIndex := if i < n * per then (i / per) % n else (i - n * per) % n;
      assert memberIndex == OwnerIndex(n, max, i);
      if roster[memberIndex] == name {
        RenderAppend(Collected(n, max, k, i), [i], filter);
        mine := mine + [Itoa(i) + "." + filter];
      }
    }
    if name in roster {
      CollectedAll(n, max, k);
    }
  }

  /** The loop over the member mappings. */
  method MappedFilters(mappings: seq<MemberMapping>, name: string) returns (mine: seq<string>)
    ensures mine == Render(MappedTo(mappings, name), ">")
  {
    hide Itoa;
    mine := [];
    for i := 0 to |mappings|
      invariant mine == Render(MappedTo(mappings[..i], name), ">")
    {
      assert mappings[..i + 1][..i] == mappings[..i];
      if mappings[i].member == name {
        ghost var before := MappedTo(mappings[..i], name);
        var partitions := mappings[i].partitions;
        for j := 0 to |partitions|
          invariant mine == Render(before + partitions[..j], ">")
        {
          RenderAppend(before + partitions[..j], [partitions[j]], ">");
          assert before + partitions[..j + 1] == before + partitions[..j] + [partitions[j]];
          mine := mine + [Itoa(partitions[j]) + "." + ">"];
        }
        assert partitions[..|partitions|] == partitions;
      }
    }
    assert mappings[..|mappings|] == mappings;
  }

  method GeneratePartitionFilters(members: seq<string>, max: nat, mappings: seq<MemberMapping>, name: string,
      filter: string)
    returns (mine: seq<string>)
    ensures mine == PartitionFilters(members, max, mappings, name, filter)
  {
    mine := [];
    if |members| != 0 {
      var distinct := Deduplicate(members);
      var roster := Sort(distinct);
      if |roster| > max {
        roster := roster[..max];
      }
      if |roster| > 0 {
        mine := BalancedFilters(roster, max, name, filter);
      }
    } else if |mappings| != 0 {
      mine := MappedFilters(mappings, name);
    }
  }

  /** All filters of a member's consumer: one batch for each partitioning filter. */
  function ConsumerFilters(c: Config, name: string): seq<string> {
    if c.filters == [] then PartitionFilters(c.members, c.maxMembers, c.mappings, name, ">")
    else FiltersUpTo(c, name, |c.filters|)
  }

  function FiltersUpTo(c: Config, name: string, n: nat): seq<string>
    requires n <= |c.filters|
  {
    if n == 0 then []
    else
      var batch := PartitionFilters(c.members, c.maxMembers, c.mappings, name, c.filters[n - 1].filter);
      FiltersUpTo(c, name, n - 1) + batch
  }

  method ElasticGetPartitionFilters(c: Config, name: string) returns (filters: seq<string>)
    ensures filters == ConsumerFilters(c, name)
  {
    if |c.filters| > 0 {
      filters := FiltersLoop(c, name);
    } else {
      filters := GeneratePartitionFilters(c.members, c.maxMembers, c.mappings, name, ">");
    }
  }

  method FiltersLoop(c: Config, name: string) returns (filters: seq<string>)
    ensures filters == FiltersUpTo(c, name, |c.filters|)
  {
    filters := [];
    for i := 0 to |c.filters|
      invariant filters == FiltersUpTo(c, name, i)
    {
      var more := GeneratePartitionFilters(c.members, c.maxMembers, c.mappings, name, c.filters[i].filter);
      filters := filters + more;
    }
  }

  /** A member's filters do not depend on the order in which members are listed. */
  lemma FiltersOfSet(c: Config, d: Config, name: string)
    requires d == c.(members := d.members) && Elements(c.members) == Elements(d.members)
    ensures ConsumerFilters(c, name) == ConsumerFilters(d, name)
  {
    forall filter
      ensures PartitionFilters(c.members, c.maxMembers, c.mappings, name, filter)
        == PartitionFilters(d.members, d.maxMembers, d.mappings, name, filter)
    {
      PartitionFiltersOfSet(c, d, name, filter);
    }
    FiltersUpToOfSet(c, d, name, |c.filters|);
  }

  lemma PartitionFiltersOfSet(c: Config, d: Config, name: string, filter: string)
    requires d == c.(members := d.members) && Elements(c.members) == Elements(d.members)
    ensures PartitionFilters(c.members, c.maxMembers, c.mappings, name, filter)
      == PartitionFilters(d.members, d.maxMembers, d.mappings, name, filter)
  {
    RosterOfSet(c.members, d.members, c.maxMembers);
    assert c.members != [] ==> c.members[0] in Elements(d.members);
    assert d.members != [] ==> d.members[0] in Elements(c.members);
  }

  lemma {:induction false} FiltersUpToOfSet(c: Config, d: Config, name: string, n: nat)
    requires d.filters == c.filters && n <= |c.filters|
    requires forall filter ::
      PartitionFilters(c.members, c.maxMembers, c.mappings, name, filter)
      == PartitionFilters(d.members, d.maxMembers, d.mappings, name, filter)
    ensures FiltersUpTo(c, name, n) == FiltersUpTo(d, name, n)
  {
    hide PartitionFilters;
    if n > 0 {
      FiltersUpToOfSet(c, d, name, n - 1);
    }
  }
}
