// The stored configuration of a partitioned consumer group, and its validator.
module Config {
  import opened Tokens
  import opened Names

  datatype PartitioningFilter = PartitioningFilter(filter: string, wildcards: seq<int>)

  datatype MemberMapping = MemberMapping(member: string, partitions: seq<int>)

  datatype Config = Config(
    maxMembers: nat,
    filters: seq<PartitioningFilter>,
    maxMsgs: int,
    maxBytes: int,
    members: seq<string>,
    mappings: seq<MemberMapping>
  ) {
    predicate IsInMembership(name: string) {
      (exists i :: 0 <= i < |mappings| && mappings[i].member == name) || name in members
    }

    /** The part of a config that no update may change. */
    function Fixed(): (nat, seq<PartitioningFilter>, int, int) {
      (maxMembers, filters, maxMsgs, maxBytes)
    }
  }

  datatype StaticConfig = StaticConfig(
    maxMembers: nat,
    filters: seq<string>,
    members: seq<string>,
    mappings: seq<MemberMapping>
  )

  datatype ConfigError =
    | NoMembers
    | EmptyFilter
    | NoWildcard
    | TooManyWildcards
    | DuplicateWildcard
    | WildcardOutOfRange
    | MembersAndMappings
    | MappingCount
    | DuplicateMember
    | DuplicatePartition
    | PartitionOutOfRange
    | PartitionsMissing

  function Count(tokens: seq<string>, token: string): nat {
    if tokens == [] then 0
    else Count(tokens[..|tokens| - 1], token) + if tokens[|tokens| - 1] == token then 1 else 0
  }

  function Stars(filter: string): nat { Count(Split(filter, '.'), "*") }

  predicate EndsOpen(filter: string) {
    var tokens := Split(filter, '.');
    tokens[|tokens| - 1] == ">"
  }

  /** The stars of a filter are the tokens "*" of it, and it ends open when its last token is
      ">", which is that all of it is or that it ends in ".>". */
  lemma WildcardsExactly(filter: string)
    ensures var tokens := Split(filter, '.');
      Stars(filter) == |set i | 0 <= i < |tokens| && tokens[i] == "*"|
    ensures EndsOpen(filter) <==> filter == ">" || (|filter| >= 2 && filter[|filter| - 2..] == ".>")
  {
    CountExactly(Split(filter, '.'), "*");
    OpenExactly(filter);
  }

  lemma {:induction false} CountExactly(tokens: seq<string>, token: string)
    ensures Count(tokens, token) == |set i | 0 <= i < |tokens| && tokens[i] == token|
  {
    if tokens != [] {
      var n := |tokens| - 1;
      CountExactly(tokens[..n], token);
      var before := set i | 0 <= i < n && tokens[..n][i] == token;
      assert (set i | 0 <= i < |tokens| && tokens[i] == token) == if tokens[n] == token then before + {n} else before;
    }
  }

  function Last(s: string): string { Split(s, '.')[|Split(s, '.')| - 1] }

  /** The last token is what follows the last dot. */
  lemma {:induction false} LastToken(s: string)
    ensures var last := Last(s);
      '.' !in last && (s == last || (|s| > |last| && s[|s| - |last| - 1..] == "." + last))
  {
    SplitFree(s, '.');
    if s != [] {
      LastToken(s[1..]);
      LastNext(s);
      var last, later := Last(s), s[1..];
      assert |later| > |last| ==> s[|s| - |last| - 1..] == later[|later| - |last| - 1..];
      assert s[0] == '.' && later == last ==> s == "." + last;
    }
  }

  lemma LastNext(s: string)
    requires s != []
    ensures Last(s) == if |Split(s[1..], '.')| > 1 || s[0] == '.' then Last(s[1..]) else s
    ensures |Split(s[1..], '.')| > 1 ==> Last(s[1..]) != s[1..]
  {
    hide Split;
    var later := s[1..];
    var rest := Split(later, '.');
    SplitStep(s);
    if |rest| == 1 {
      OneWord(later);
      assert s == [s[0]] + later;
    } else if Last(later) == later {
      SplitFree(later, '.');
      SplitWord(later, '.');
    }
  }

  lemma SplitStep(s: string)
    requires s != []
    ensures var rest := Split(s[1..], '.');
      Split(s, '.') == if s[0] == '.' then [[]] + rest else [[s[0]] + rest[0]] + rest[1..]
  {
  }

  lemma OneWord(s: string)
    requires |Split(s, '.')| == 1
    ensures Split(s, '.')[0] == s
  {
    JoinOfSplit(s, '.');
  }

  lemma {:induction false} LastAfterDot(a: string, last: string)
    requires '.' !in last
    ensures Last(a + "." + last) == last && |Split(a + "." + last, '.')| > 1
  {
    var s := a + "." + last;
    if a == [] {
      SplitHead([], last, '.');
      SplitWord(last, '.');
      assert s == [] + ['.'] + last;
    } else {
      LastAfterDot(a[1..], last);
      LastNext(s);
      assert s[1..] == a[1..] + "." + last;
    }
  }

  lemma OpenExactly(s: string)
    ensures EndsOpen(s) <==> s == ">" || (|s| >= 2 && s[|s| - 2..] == ".>")
  {
    hide Split;
    LastToken(s);
    assert "." + ">" == ".>";
    if |s| >= 2 && s[|s| - 2..] == ".>" {
      LastAfterDot(s[..|s| - 2], ">");
      assert s == s[..|s| - 2] + s[|s| - 2..];
      assert s == s[..|s| - 2] + "." + ">";
    } else if s == ">" {
      OneToken();
    }
  }

  lemma OneToken()
    ensures Last(">") == ">"
  {
    SplitWord(">", '.');
  }

  /** A partitioning filter has a wildcard, and names distinct `*` positions of its own. */
  ghost predicate WellFormedFilter(pf: PartitioningFilter) {
    && pf.filter != ""
    && (Stars(pf.filter) > 0 || EndsOpen(pf.filter))
    && Distinct(pf.wildcards)
    && forall i :: 0 <= i < |pf.wildcards| ==> 1 <= pf.wildcards[i] <= Stars(pf.filter)
  }

  function Flatten(mappings: seq<MemberMapping>): seq<int> {
    if mappings == [] then []
    else Flatten(mappings[..|mappings| - 1]) + mappings[|mappings| - 1].partitions
  }

  ghost predicate DistinctMembers(mappings: seq<MemberMapping>) {
    forall i, j :: 0 <= i < j < |mappings| ==> mappings[i].member != mappings[j].member
  }

  /** The mappings hand every partition in [0, max) to exactly one place of one member. */
  ghost predicate ExactMappings(max: nat, mappings: seq<MemberMapping>) {
    && |mappings| <= max
    && DistinctMembers(mappings)
    && Distinct(Flatten(mappings))
    && forall p :: p in Flatten(mappings) <==> 0 <= p < max
  }

  ghost predicate ValidMembership(max: nat, members: seq<string>, mappings: seq<MemberMapping>) {
    && max >= 1
    && (mappings != [] ==> members == [] && ExactMappings(max, mappings))
  }

  ghost predicate Valid(c: Config) {
    && (forall i :: 0 <= i < |c.filters| ==> WellFormedFilter(c.filters[i]))
    && ValidMembership(c.maxMembers, c.members, c.mappings)
  }

  /** What a given error says about the config; an error is never reported without cause. */
  ghost predicate Defect(c: Config, e: ConfigError) {
    match e
    case NoMembers => c.maxMembers < 1
    case EmptyFilter => exists i :: 0 <= i < |c.filters| && c.filters[i].filter == ""
    case NoWildcard =>
      exists i :: 0 <= i < |c.filters| && Stars(c.filters[i].filter) == 0 && !EndsOpen(c.filters[i].filter)
    case TooManyWildcards => exists i :: 0 <= i < |c.filters| && |c.filters[i].wildcards| > Stars(c.filters[i].filter)
    case DuplicateWildcard => exists i :: 0 <= i < |c.filters| && !Distinct(c.filters[i].wildcards)
    case WildcardOutOfRange =>
      exists i, w :: 0 <= i < |c.filters| && w in c.filters[i].wildcards && !(1 <= w <= Stars(c.filters[i].filter))
    case MembersAndMappings => c.members != [] && c.mappings != []
    case MappingCount => |c.mappings| > c.maxMembers
    case DuplicateMember => !DistinctMembers(c.mappings)
    case DuplicatePartition => !Distinct(Flatten(c.mappings))
    case PartitionOutOfRange => exists p :: p in Flatten(c.mappings) && !(0 <= p < c.maxMembers)
    case PartitionsMissing => c.mappings != [] && exists p :: 0 <= p < c.maxMembers && p !in Flatten(c.mappings)
  }

  // Counting arguments

  ghost function Below(n: nat): (r: set<int>)
    ensures forall p :: p in r <==> 0 <= p < n
  {
    if n == 0 then {} else Below(n - 1) + {n - 1}
  }

  lemma {:induction false} BelowSize(n: nat)
    ensures |Below(n)| == n
  {
    if n > 0 {
      BelowSize(n - 1);
    }
  }

  lemma SubsetSize<T>(a: set<T>, b: set<T>)
    requires a <= b
    ensures |a| <= |b| && (|a| == |b| ==> a == b)
  {
    assert b == a + (b - a);
  }

  /** n different numbers below n are all the numbers below n. */
  lemma Pigeonhole(s: set<int>, n: nat)
    requires s <= Below(n)
    ensures |s| == n <==> s == Below(n)
  {
    BelowSize(n);
    SubsetSize(s, Below(n));
  }

  lemma {:induction false} DistinctSize<T>(s: seq<T>)
    requires Distinct(s)
    ensures |Elements(s)| == |s|
  {
    if s != [] {
      var init, last := s[..|s| - 1], s[|s| - 1];
      DistinctInit(s);
      DistinctSize(init);
      assert s == init + [last];
      ElementsAppend(init, last);
    }
  }

  lemma DistinctInit<T>(s: seq<T>)
    requires Distinct(s) && s != []
    ensures Distinct(s[..|s| - 1]) && s[|s| - 1] !in s[..|s| - 1]
  {
  }

  /** A filter is well formed, and the membership in order, exactly without a defect. */
  lemma ValidExactly(c: Config)
    ensures Valid(c) <==> forall e :: !Defect(c, e)
  {
    hide Stars, EndsOpen, Flatten, Distinct, DistinctMembers;
    NothingFlattened();
    if forall e :: !Defect(c, e) {
      assert !Defect(c, NoMembers) && !Defect(c, EmptyFilter) && !Defect(c, NoWildcard);
      assert !Defect(c, DuplicateWildcard) && !Defect(c, WildcardOutOfRange);
      assert !Defect(c, MembersAndMappings) && !Defect(c, MappingCount) && !Defect(c, DuplicateMember);
      assert !Defect(c, DuplicatePartition) && !Defect(c, PartitionOutOfRange) && !Defect(c, PartitionsMissing);
      forall i | 0 <= i < |c.filters| ensures WellFormedFilter(c.filters[i]) {
        var pf := c.filters[i];
        assert forall k :: 0 <= k < |pf.wildcards| ==> pf.wildcards[k] in pf.wildcards;
      }
    } else if Valid(c) {
      forall i | 0 <= i < |c.filters| ensures |c.filters[i].wildcards| <= Stars(c.filters[i].filter) {
        DistinctInRange(c.filters[i].wildcards, Stars(c.filters[i].filter));
      }
    }
  }

  lemma NothingFlattened()
    ensures Flatten([]) == [] && Distinct(Flatten([])) && DistinctMembers([])
  {
  }

  /** Distinct wildcard numbers in range are never more than the wildcards there are,
      so the count test of the validator only rejects what its other tests reject too. */
  lemma DistinctInRange(ws: seq<int>, n: nat)
    requires Distinct(ws) && forall i :: 0 <= i < |ws| ==> 1 <= ws[i] <= n
    ensures |ws| <= n
  {
    DistinctSize(ws);
    var shifted := set w | w in ws;
    assert shifted <= Below(n + 1) - {0};
    BelowSize(n + 1);
    SubsetSize(shifted, Below(n + 1) - {0});
  }

  lemma {:induction false} FlattenPrefix(mappings: seq<MemberMapping>, i: nat)
    requires i <= |mappings|
    ensures Flatten(mappings[..i]) <= Flatten(mappings)
  {
    if i == |mappings| {
      assert mappings[..i] == mappings;
    } else {
      var init := mappings[..|mappings| - 1];
      assert init[..i] == mappings[..i];
      FlattenPrefix(init, i);
    }
  }

  lemma FlattenStep(mappings: seq<MemberMapping>, i: nat)
    requires i < |mappings|
    ensures Flatten(mappings[..i + 1]) == Flatten(mappings[..i]) + mappings[i].partitions
    ensures Flatten(mappings[..i]) + mappings[i].partitions <= Flatten(mappings)
  {
    assert mappings[..i + 1][..i] == mappings[..i];
    FlattenPrefix(mappings, i + 1);
  }

  lemma RepeatedInPrefix(seen: seq<int>, p: int, all: seq<int>)
    requires p in seen && seen + [p] <= all
    ensures !Distinct(all)
  {
    var k :| 0 <= k < |seen| && seen[k] == p;
    assert (seen + [p])[k] == all[k] && (seen + [p])[|seen|] == all[|seen|];
  }

  // The validator

  /** The loop over one partitioning filter. */
  method ValidateFilter(pf: PartitioningFilter) returns (err: Option<ConfigError>)
    ensures err.None? <==> WellFormedFilter(pf)
    ensures err.Some? ==> match err.value
      case EmptyFilter => pf.filter == ""
      case NoWildcard => Stars(pf.filter) == 0 && !EndsOpen(pf.filter)
      case TooManyWildcards => |pf.wildcards| > Stars(pf.filter)
      case DuplicateWildcard => !Distinct(pf.wildcards)
      case WildcardOutOfRange => exists w :: w in pf.wildcards && !(1 <= w <= Stars(pf.filter))
      case _ => false
  {
    if pf.filter == "" { return Some(EmptyFilter); }
    var tokens := Split(pf.filter, '.');
    var numWildcards := 0;
    for i := 0 to |tokens|
      invariant numWildcards == Count(tokens[..i], "*")
    {
      assert tokens[..i + 1][..i] == tokens[..i];
      if tokens[i] == "*" { numWildcards := numWildcards + 1; }
    }
    assert tokens[..|tokens|] == tokens;
    if numWildcards == 0 && tokens[|tokens| - 1] != ">" { return Some(NoWildcard); }
    if |pf.wildcards| > numWildcards {
      if WellFormedFilter(pf) { DistinctInRange(pf.wildcards, numWildcards); }
      return Some(TooManyWildcards);
    }
    var present: set<int> := {};
    for i := 0 to |pf.wildcards|
      invariant present == Elements(pf.wildcards[..i])
      invariant Distinct(pf.wildcards[..i])
      invariant forall k :: 0 <= k < i ==> 1 <= pf.wildcards[k] <= numWildcards
    {
      ghost var seen := pf.wildcards[..i];
      if pf.wildcards[i] in present {
        RepeatedInPrefix(seen, pf.wildcards[i], pf.wildcards);
        return Some(DuplicateWildcard);
      }
      DistinctAppend(seen, pf.wildcards[i]);
      ElementsAppend(seen, pf.wildcards[i]);
      assert pf.wildcards[..i + 1] == seen + [pf.wildcards[i]];
      present := present + {pf.wildcards[i]};
      if pf.wildcards[i] > numWildcards || pf.wildcards[i] < 1 {
        assert pf.wildcards[i] in pf.wildcards;
        return Some(WildcardOutOfRange);
      }
    }
    assert pf.wildcards[..|pf.wildcards|] == pf.wildcards;
    err := None;
  }

  lemma NothingYet(mappings: seq<MemberMapping>)
    ensures Flatten(mappings[..0]) == [] && Distinct(Flatten(mappings[..0])) && DistinctMembers(mappings[..0])
  {
  }

  /** A member that is new among the first i stays distinct; one that is not is a duplicate. */
  lemma MemberStep(mappings: seq<MemberMapping>, i: nat)
    requires i < |mappings| && DistinctMembers(mappings[..i])
    ensures var known := exists k :: 0 <= k < i && mappings[k].member == mappings[i].member;
      if known then !DistinctMembers(mappings) else DistinctMembers(mappings[..i + 1])
  {
  }

  /** The loop over the partitions of one mapping, after those of `seen`. */
  method TakePartitions(max: nat, known: set<int>, ps: seq<int>, ghost seen: seq<int>, ghost all: seq<int>)
    returns (err: Option<ConfigError>, partitions: set<int>)
    requires known == Elements(seen) <= Below(max) && Distinct(seen) && seen + ps <= all
    ensures err.None? ==> partitions == Elements(seen + ps) <= Below(max) && Distinct(seen + ps)
    ensures err.Some? ==> match err.value
      case DuplicatePartition => !Distinct(all)
      case PartitionOutOfRange => exists p :: p in all && !(0 <= p < max)
      case _ => false
  {
    hide Distinct;
    partitions := known;
    assert seen + ps[..0] == seen;
    for j := 0 to |ps|
      invariant partitions == Elements(seen + ps[..j]) <= Below(max)
      invariant Distinct(seen + ps[..j])
    {
      var p := ps[j];
      ghost var before := seen + ps[..j];
      assert before + [p] <= all by { assert before + [p] == (seen + ps)[..|seen| + j + 1]; }
      if p in partitions {
        RepeatedInPrefix(before, p, all);
        return Some(DuplicatePartition), partitions;
      }
      partitions := partitions + {p};
      if p < 0 || p >= max {
        assert all[|before|] == p && p in all;
        return Some(PartitionOutOfRange), partitions;
      }
      DistinctAppend(before, p);
      ElementsAppend(before, p);
      assert seen + ps[..j + 1] == before + [p];
    }
    assert ps[..|ps|] == ps;
    err := None;
  }

  /** The membership half of both validators. */
  method ValidateMembership(max: nat, members: seq<string>,
      mappings: seq<MemberMapping>) returns (err: Option<ConfigError>)
    requires max >= 1
    ensures err.None? <==> ValidMembership(max, members, mappings)
    ensures err.Some? ==> match err.value
      case MembersAndMappings => members != [] && mappings != []
      case MappingCount => |mappings| > max
      case DuplicateMember => !DistinctMembers(mappings)
      case DuplicatePartition => !Distinct(Flatten(mappings))
      case PartitionOutOfRange => exists p :: p in Flatten(mappings) && !(0 <= p < max)
      case PartitionsMissing => mappings != [] && exists p :: 0 <= p < max && p !in Flatten(mappings)
      case _ => false
  {
    hide Flatten, Distinct, DistinctMembers;
    NothingYet(mappings);
    if |members| != 0 && |mappings| != 0 { return Some(MembersAndMappings); }
    if |mappings| == 0 { return None; }
    if |mappings| < 1 || |mappings| > max { return Some(MappingCount); }
    var names: set<string> := {};
    var partitions: set<int> := {};
    for i := 0 to |mappings|
      invariant names == set k | 0 <= k < i :: mappings[k].member
      invariant DistinctMembers(mappings[..i])
      invariant partitions == Elements(Flatten(mappings[..i])) && partitions <= Below(max)
      invariant Distinct(Flatten(mappings[..i]))
    {
      FlattenStep(mappings, i);
      ghost var flat, before := Flatten(mappings), Flatten(mappings[..i]);
      var mm := mappings[i];
      MemberStep(mappings, i);
      if mm.member in names { return Some(DuplicateMember); }
      names := names + {mm.member};
      err, partitions := TakePartitions(max, partitions, mm.partitions, before, flat);
      if err.Some? { return; }
    }
    assert mappings[..|mappings|] == mappings;
    Pigeonhole(partitions, max);
    if |partitions| != max {
      assert exists p :: p in Below(max) && p !in partitions;
      return Some(PartitionsMissing);
    }
    assert forall p :: p in Flatten(mappings) <==> p in partitions;
    err := None;
  }

  method ValidateConfig(c: Config) returns (err: Option<ConfigError>)
    ensures err.None? <==> Valid(c)
    ensures err.Some? ==> Defect(c, err.value)
  {
    if c.maxMembers < 1 { return Some(NoMembers); }
    for i := 0 to |c.filters|
      invariant forall k :: 0 <= k < i ==> WellFormedFilter(c.filters[k])
    {
      err := ValidateFilter(c.filters[i]);
      if err.Some? { return; }
    }
    err := ValidateMembership(c.maxMembers, c.members, c.mappings);
  }

  /** Both flavours of group accept the same memberships. */
  method ValidateStaticConfig(c: StaticConfig) returns (err: Option<ConfigError>)
    ensures err.None? <==> Valid(Config(c.maxMembers, [], 0, 0, c.members, c.mappings))
  {
    if c.maxMembers < 1 { return Some(NoMembers); }
    err := ValidateMembership(c.maxMembers, c.members, c.mappings);
  }
}
