// At most one member consumes a subject, and every partitioned subject has its one member.
module Ownership {
  import opened Tokens
  import opened Names
  import opened Decimal
  import opened Config
  import opened Allocation

  predicate SubjectMatches(filter: string, subject: string) {
    Matches(Split(filter, '.'), Split(subject, '.'), "*", ">")
  }

  predicate HasMembers(c: Config) { c.members != [] || c.mappings != [] }

  function Partitions(c: Config, name: string): seq<int> {
    PartitionsOf(c.members, c.maxMembers, c.mappings, name)
  }

  // Partitions

  lemma {:induction false} MappedInFlatten(mappings: seq<MemberMapping>, name: string)
    ensures forall p :: p in MappedTo(mappings, name) ==> p in Flatten(mappings)
  {
    if mappings != [] {
      MappedInFlatten(mappings[..|mappings| - 1], name);
    }
  }

  function MappedOwner(mappings: seq<MemberMapping>, p: int): string
    requires p in Flatten(mappings)
  {
    var last := mappings[|mappings| - 1];
    if p in last.partitions then last.member else MappedOwner(mappings[..|mappings| - 1], p)
  }

  lemma DistinctParts<T>(a: seq<T>, b: seq<T>)
    requires Distinct(a + b)
    ensures Distinct(a) && Distinct(b)
    ensures forall x :: x in a ==> x !in b
  {
    assert forall i :: 0 <= i < |a| ==> (a + b)[i] == a[i];
    assert forall j :: 0 <= j < |b| ==> (a + b)[|a| + j] == b[j];
  }

  lemma {:induction false} MappedHolder(mappings: seq<MemberMapping>, name: string, p: int)
    requires Distinct(Flatten(mappings)) && p in Flatten(mappings)
    ensures p in MappedTo(mappings, name) <==> name == MappedOwner(mappings, p)
  {
    var init, last := mappings[..|mappings| - 1], mappings[|mappings| - 1];
    MappedInFlatten(init, name);
    DistinctParts(Flatten(init), last.partitions);
    if p !in last.partitions {
      MappedHolder(init, name, p);
    }
  }

  lemma {:induction false} MappedMember(mappings: seq<MemberMapping>, p: int)
    requires p in Flatten(mappings)
    ensures exists i :: 0 <= i < |mappings| && mappings[i].member == MappedOwner(mappings, p)
  {
    var n := |mappings| - 1;
    if p !in mappings[n].partitions {
      MappedMember(mappings[..n], p);
      var i :| 0 <= i < n && mappings[..n][i].member == MappedOwner(mappings[..n], p);
      assert mappings[i].member == MappedOwner(mappings, p);
    }
  }

  /** The member that partition `p` belongs to. */
  ghost function OwnerOf(c: Config, p: nat): string
    requires Valid(c) && HasMembers(c) && p < c.maxMembers
  {
    if c.members != [] then
      var roster := Roster(c.members, c.maxMembers);
      roster[OwnerIndex(|roster|, c.maxMembers, p)]
    else MappedOwner(c.mappings, p)
  }

  /** A partition is held by its owner, who is in the membership, and by nobody else. */
  lemma Holder(c: Config, name: string, p: nat)
    requires Valid(c) && HasMembers(c) && p < c.maxMembers
    ensures p in Partitions(c, name) <==> name == OwnerOf(c, p)
    ensures c.IsInMembership(OwnerOf(c, p))
  {
    if c.members != [] {
      var roster := Roster(c.members, c.maxMembers);
      SortedDistinct(roster);
      if name in roster {
        BlockOwner(|roster|, c.maxMembers, IndexIn(roster, name), p);
      }
    } else {
      MappedHolder(c.mappings, name, p);
      MappedMember(c.mappings, p);
    }
  }

  lemma HeldInRange(c: Config, name: string, p: int)
    requires Valid(c) && p in Partitions(c, name)
    ensures 0 <= p < c.maxMembers && HasMembers(c)
  {
    if c.members != [] {
      var roster := Roster(c.members, c.maxMembers);
      BlockInRange(|roster|, c.maxMembers, IndexIn(roster, name));
    } else {
      MappedInFlatten(c.mappings, name);
    }
  }

  lemma {:induction false} MappedDistinct(mappings: seq<MemberMapping>, name: string)
    requires Distinct(Flatten(mappings))
    ensures Distinct(MappedTo(mappings, name))
  {
    if mappings != [] {
      var init, last := mappings[..|mappings| - 1], mappings[|mappings| - 1];
      DistinctParts(Flatten(init), last.partitions);
      MappedDistinct(init, name);
      MappedInFlatten(init, name);
      var mine := MappedTo(init, name);
      assert forall i :: 0 <= i < |mine| ==> mine[i] in mine;
    }
  }

  lemma PartitionsDistinct(c: Config, name: string)
    requires Valid(c)
    ensures Distinct(Partitions(c, name))
  {
    if c.members != [] {
      var roster := Roster(c.members, c.maxMembers);
      if name in roster {
        BlockInRange(|roster|, c.maxMembers, IndexIn(roster, name));
      }
    } else if c.mappings != [] {
      MappedDistinct(c.mappings, name);
    }
  }

  // Subjects

  lemma NumeralWord(p: nat)
    ensures '.' !in Numeral(p) && ',' !in Numeral(p) && Numeral(p) != "*" && Numeral(p) != ">"
  {
    var s := Numeral(p);
    assert IsDigit(s[0]);
  }

  /** A partition filter pins the first token and applies its rest to the others. */
  lemma PartitionFilterMatches(p: nat, rest: string, subject: string)
    ensures SubjectMatches(Itoa(p) + "." + rest, subject)
      <==> Split(subject, '.')[0] == Numeral(p) && Matches(Split(rest, '.'), Split(subject, '.')[1..], "*", ">")
  {
    NumeralWord(p);
    SplitHead(Numeral(p), rest, '.');
    var f := [Numeral(p)] + Split(rest, '.');
    assert f[1..] == Split(rest, '.');
  }

  /** What follows the partition number in the filters of a config. */
  ghost predicate IsRest(c: Config, rest: string) {
    if c.members == [] || c.filters == [] then rest == ">"
    else exists i :: 0 <= i < |c.filters| && rest == c.filters[i].filter
  }

  lemma {:induction false} FilterShape(c: Config, name: string, n: nat, k: nat)
    requires n <= |c.filters| && k < |FiltersUpTo(c, name, n)|
    ensures exists p, i ::
      p in Partitions(c, name) && 0 <= i < n &&
      FiltersUpTo(c, name, n)[k] == Itoa(p) + "." + if c.members == [] then ">" else c.filters[i].filter
  {
    hide PartitionsOf;
    var before := FiltersUpTo(c, name, n - 1);
    if k < |before| {
      FilterShape(c, name, n - 1, k);
    } else {
      var p := Partitions(c, name)[k - |before|];
      assert FiltersUpTo(c, name, n)[k] == Itoa(p) + "." + if c.members == [] then ">" else c.filters[n - 1].filter;
    }
  }

  /** Every filter of a member is one of its partitions followed by a rest. */
  lemma ConsumerFilterShape(c: Config, name: string, k: nat)
    requires k < |ConsumerFilters(c, name)|
    ensures exists p, rest ::
      p in Partitions(c, name) && IsRest(c, rest) && ConsumerFilters(c, name)[k] == Itoa(p) + "." + rest
  {
    if c.filters == [] {
      var p := Partitions(c, name)[k];
      assert ConsumerFilters(c, name)[k] == Itoa(p) + "." + ">" && IsRest(c, ">");
    } else {
      FilterShape(c, name, |c.filters|, k);
      var p, i :| p in Partitions(c, name) && 0 <= i < |c.filters|
        && ConsumerFilters(c, name)[k] == Itoa(p) + "." + if c.members == [] then ">" else c.filters[i].filter;
      var rest := if c.members == [] then ">" else c.filters[i].filter;
      assert IsRest(c, rest);
    }
  }

  lemma {:induction false} FilterPresent(c: Config, name: string, n: nat, i: nat, k: nat)
    requires i < n <= |c.filters| && k < |Partitions(c, name)|
    ensures Itoa(Partitions(c, name)[k]) + "." + (if c.members == [] then ">" else c.filters[i].filter)
      in FiltersUpTo(c, name, n)
  {
    hide PartitionsOf, Itoa;
    if i < n - 1 {
      FilterPresent(c, name, n - 1, i, k);
    } else {
      var batch := PartitionFilters(c.members, c.maxMembers, c.mappings, name, c.filters[i].filter);
      assert batch[k] in batch;
    }
  }

  ghost predicate AnyMatches(filters: seq<string>, subject: string) {
    exists k :: 0 <= k < |filters| && SubjectMatches(filters[k], subject)
  }

  /** Member `name`'s consumer is delivered `subject`. */
  ghost predicate Owns(c: Config, name: string, subject: string) {
    AnyMatches(ConsumerFilters(c, name), subject)
  }

  /** The subject is sourced into the group's stream: some partitioning filter takes it. */
  ghost predicate Sourced(c: Config, subject: string) {
    c.filters == [] || exists i :: 0 <= i < |c.filters| && SubjectMatches(c.filters[i].filter, subject)
  }

  /** The first token of a subject a member owns is one of the member's partitions. */
  lemma OwnedPartition(c: Config, name: string, subject: string) returns (p: nat)
    requires Valid(c) && Owns(c, name, subject)
    ensures p in Partitions(c, name) && Split(subject, '.')[0] == Numeral(p)
  {
    var k :| 0 <= k < |ConsumerFilters(c, name)| && SubjectMatches(ConsumerFilters(c, name)[k], subject);
    ConsumerFilterShape(c, name, k);
    var q, rest :| q in Partitions(c, name) && IsRest(c, rest) && ConsumerFilters(c, name)[k] == Itoa(q) + "." + rest;
    HeldInRange(c, name, q);
    p := q;
    PartitionFilterMatches(p, rest, subject);
  }

  /** No subject whatever is delivered to two members. */
  lemma NoSharedSubject(c: Config, a: string, b: string, subject: string)
    requires Valid(c) && Owns(c, a, subject) && Owns(c, b, subject)
    ensures a == b
  {
    var p := OwnedPartition(c, a, subject);
    var q := OwnedPartition(c, b, subject);
    NumeralInjective(p, q);
    HeldInRange(c, a, p);
    Holder(c, a, p);
    Holder(c, b, p);
  }

  /** Exactly the owner of the partition is delivered a sourced, partitioned subject. */
  lemma OneOwner(c: Config, name: string, p: nat, subject: string)
    requires Valid(c) && HasMembers(c) && p < c.maxMembers && Sourced(c, subject)
    ensures Owns(c, name, Numeral(p) + "." + subject) <==> name == OwnerOf(c, p)
  {
    var t := Numeral(p) + "." + subject;
    NumeralWord(p);
    SplitHead(Numeral(p), subject, '.');
    if Owns(c, name, t) {
      var q := OwnedPartition(c, name, t);
      NumeralInjective(p, q);
      Holder(c, name, p);
    }
    if name == OwnerOf(c, p) {
      Holder(c, name, p);
      var k :| 0 <= k < |Partitions(c, name)| && Partitions(c, name)[k] == p;
      OwnerTakes(c, name, k, subject);
    }
  }

  lemma HasMatch(filters: seq<string>, f: string, subject: string)
    requires f in filters && SubjectMatches(f, subject)
    ensures AnyMatches(filters, subject)
  {
  }

  lemma OwnerTakes(c: Config, name: string, k: nat, subject: string)
    requires Sourced(c, subject) && k < |Partitions(c, name)| && Partitions(c, name)[k] >= 0
    ensures Owns(c, name, Numeral(Partitions(c, name)[k]) + "." + subject)
  {
    var p: nat := Partitions(c, name)[k];
    if c.filters == [] || c.members == [] {
      PinnedMatches(p, ">", subject);
      if c.filters != [] {
        FilterPresent(c, name, |c.filters|, 0, k);
      }
      HasMatch(ConsumerFilters(c, name), Itoa(p) + "." + ">", Numeral(p) + "." + subject);
    } else {
      var i :| 0 <= i < |c.filters| && SubjectMatches(c.filters[i].filter, subject);
      PinnedMatches(p, c.filters[i].filter, subject);
      FilterPresent(c, name, |c.filters|, i, k);
      HasMatch(ConsumerFilters(c, name), Itoa(p) + "." + c.filters[i].filter, Numeral(p) + "." + subject);
    }
  }

  lemma PinnedMatches(p: nat, rest: string, subject: string)
    requires SubjectMatches(rest, subject) || rest == ">"
    ensures SubjectMatches(Itoa(p) + "." + rest, Numeral(p) + "." + subject)
  {
    var t := Numeral(p) + "." + subject;
    NumeralWord(p);
    SplitHead(Numeral(p), subject, '.');
    assert Split(t, '.')[1..] == Split(subject, '.');
    SplitWord(">", '.');
    PartitionFilterMatches(p, rest, t);
  }
}
