// The subject transform of an elastic group: the destination string the group hands to the
// server, what that string does to a subject, and the stripping of the partition token.
module Transform {
  import opened Tokens
  import opened Decimal
  import opened Config
  import opened Allocation
  import opened Ownership
  import opened Server

  // Building the destination

  /** The tokens of a filter with the `*`s replaced by numbered placeholders from `index` on. */
  function DestTokens(tokens: seq<string>, index: nat): (r: seq<string>)
    ensures |r| == |tokens|
  {
    if tokens == [] then []
    else if tokens[0] == "*" then [Placeholder(index)] + DestTokens(tokens[1..], index + 1)
    else [tokens[0]] + DestTokens(tokens[1..], index)
  }

  function Placeholder(index: nat): string { "{{Wildcard(" + Numeral(index) + ")}}" }

  function Itoas(ns: seq<int>): (r: seq<string>)
    ensures |r| == |ns|
  {
    seq(|ns|, i requires 0 <= i < |ns| => Itoa(ns[i]))
  }

  function PartitionCall(max: nat, wildcards: seq<int>): string {
    "{{Partition(" + Join([Numeral(max)] + Itoas(wildcards), ',') + ")}}"
  }

  /** The destination: a partition call, then the filter with numbered placeholders. */
  function Destination(pf: PartitioningFilter, max: nat): string {
    PartitionCall(max, pf.wildcards) + "." + Join(DestTokens(Split(pf.filter, '.'), 1), '.')
  }

  lemma DestTokensStep(was: seq<string>, i: nat, index: nat)
    requires i < |was|
    ensures DestTokens(was[i..], index)
      == if was[i] == "*" then [Placeholder(index)] + DestTokens(was[i + 1..], index + 1)
         else [was[i]] + DestTokens(was[i + 1..], index)
  {
    assert was[i..][1..] == was[i + 1..];
  }

  lemma CallArguments(max: string, wildcards: seq<string>)
    ensures Join([max] + wildcards, ',') == if wildcards == [] then max else max + "," + Join(wildcards, ',')
  {
    assert ([max] + wildcards)[1..] == wildcards;
  }

  lemma NumberingDone(tokens: seq<string>, index: nat)
    ensures DestTokens(tokens[|tokens|..], index) == []
  {
  }

  /** The loop that overwrites each `*` of the token list with its numbered placeholder. */
  method NumberWildcards(tokens: seq<string>) returns (filterTokens: seq<string>)
    ensures filterTokens == DestTokens(tokens, 1)
  {
    hide Placeholder, DestTokens;
    filterTokens := tokens;
    var cwIndex := 1;
    assert tokens[0..] == tokens;
    for i := 0 to |filterTokens|
      invariant |filterTokens| == |tokens| && filterTokens[i..] == tokens[i..]
      invariant cwIndex >= 1
      invariant DestTokens(tokens, 1) == filterTokens[..i] + DestTokens(tokens[i..], cwIndex)
    {
      DestTokensStep(tokens, i, cwIndex);
      ghost var done := filterTokens[..i];
      assert filterTokens[i] == filterTokens[i..][0] && filterTokens[i + 1..] == filterTokens[i..][1..];
      if filterTokens[i] == "*" {
        filterTokens := filterTokens[i := Placeholder(cwIndex)];
        cwIndex := cwIndex + 1;
      }
      assert filterTokens[..i + 1] == done + [filterTokens[i]];
    }
    NumberingDone(tokens, cwIndex);
    assert filterTokens[..|filterTokens|] == filterTokens;
  }

  method PrintWildcards(ns: seq<int>) returns (wildcards: seq<string>)
    ensures wildcards == Itoas(ns)
  {
    wildcards := [];
    for i := 0 to |ns|
      invariant wildcards == Itoas(ns[..i])
    {
      wildcards := wildcards + [Itoa(ns[i])];
    }
    assert ns[..|ns|] == ns;
  }

  method GetPartitioningTransformDest(pf: PartitioningFilter, max: nat) returns (dest: string)
    ensures dest == Destination(pf, max)
  {
    var wildcards := PrintWildcards(pf.wildcards);
    var wildcardList := Join(wildcards, ',');
    var filterTokens := NumberWildcards(Split(pf.filter, '.'));
    var destFromFilter := Join(filterTokens, '.');
    CallArguments(Numeral(max), wildcards);
    if |pf.wildcards| == 0 {
      return "{{Partition(" + Numeral(max) + ")}}" + "." + destFromFilter;
    }
    return "{{Partition(" + (Numeral(max) + "," + wildcardList) + ")}}" + "." + destFromFilter;
  }

  // What a destination does on the server

  datatype Piece = Partition(count: nat, wildcards: seq<nat>) | Wildcard(index: nat) | Tail | Literal(token: string)

  predicate HasPrefix(s: string, prefix: string) { prefix <= s }

  predicate Wraps(open: string, t: string) {
    |t| >= |open| + 3 && open <= t && t[|t| - 3..] == ")}}"
  }

  function Inside(open: string, t: string): string
    requires Wraps(open, t)
  {
    t[|open|..|t| - 3]
  }

  function ParseAll(ts: seq<string>): Option<seq<nat>> {
    if ts == [] then Some([])
    else match (Parse(ts[0]), ParseAll(ts[1..]))
      case (Some(n), Some(ns)) => Some([n] + ns)
      case _ => None
  }

  /** How the server reads one token of a destination. */
  function ParsePiece(t: string): Piece {
    if t == ">" then Tail
    else if Wraps("{{Wildcard(", t) && Parse(Inside("{{Wildcard(", t)).Some? then
      Wildcard(Parse(Inside("{{Wildcard(", t)).value)
    else if Wraps("{{Partition(", t) then
      match ParseAll(Split(Inside("{{Partition(", t), ','))
      case Some(ns) => if ns == [] then Literal(t) else Partition(ns[0], ns[1..])
      case None => Literal(t)
    else if HasPrefix(t, "$") && Parse(t[1..]).Some? then Wildcard(Parse(t[1..]).value)
    else Literal(t)
  }

  /** The subject tokens that the filter's `*`s stand for. */
  function Captured(filter: seq<string>, subject: seq<string>): seq<string>
    requires Matches(filter, subject, "*", ">")
  {
    if filter == [] || filter[0] == ">" then []
    else (if filter[0] == "*" then [subject[0]] else []) + Captured(filter[1..], subject[1..])
  }

  /** The subject tokens that a final `>` stands for. */
  function Rest(filter: seq<string>, subject: seq<string>): seq<string>
    requires Matches(filter, subject, "*", ">")
  {
    if filter == [] then [] else if filter[0] == ">" then subject else Rest(filter[1..], subject[1..])
  }

  function Pick(captured: seq<string>, wildcards: seq<int>): seq<string>
    requires forall i :: 0 <= i < |wildcards| ==> 1 <= wildcards[i] <= |captured|
  {
    seq(|wildcards|, i requires 0 <= i < |wildcards| => captured[wildcards[i] - 1])
  }

  /** The tokens a partition is computed from: the chosen captures, or the whole subject. */
  function Choose(captured: seq<string>, wildcards: seq<nat>, subject: string): Option<seq<string>> {
    if wildcards == [] then Some([subject])
    else if forall i :: 0 <= i < |wildcards| ==> 1 <= wildcards[i] <= |captured|
      then Some(Pick(captured, wildcards))
    else None
  }

  /** The tokens one token of a destination turns into. */
  function ExpandOne(piece: string, captured: seq<string>, rest: seq<string>, subject: string,
      hash: (nat, seq<string>) -> nat): Option<seq<string>> {
    match ParsePiece(piece)
    case Tail => Some(rest)
    case Literal(t) => Some([t])
    case Wildcard(i) => if 1 <= i <= |captured| then Some([captured[i - 1]]) else None
    case Partition(n, ws) =>
      match Choose(captured, ws, subject)
      case Some(ts) => Some([Numeral(hash(n, ts))])
      case None => None
  }

  function Expand(pieces: seq<string>, captured: seq<string>, rest: seq<string>, subject: string,
      hash: (nat, seq<string>) -> nat): Option<seq<string>> {
    if pieces == [] then Some([])
    else
      match (ExpandOne(pieces[0], captured, rest, subject, hash), Expand(pieces[1..], captured, rest, subject, hash))
      case (Some(a), Some(b)) => Some(a + b)
      case _ => None
  }

  /** The subject that a transform with this source filter and destination produces; `hash`
      is the server's deterministic choice of a partition number from tokens. */
  function Apply(filter: string, dest: string, subject: string, hash: (nat, seq<string>) -> nat): Option<string>
    requires SubjectMatches(filter, subject)
  {
    var f, s := Split(filter, '.'), Split(subject, '.');
    match Expand(Split(dest, '.'), Captured(f, s), Rest(f, s), subject, hash)
    case Some(ts) => Some(Join(ts, '.'))
    case None => None
  }

  // Reading back what was built

  lemma PlaceholderParses(i: nat)
    ensures ParsePiece(Placeholder(i)) == Wildcard(i)
  {
    var t := Placeholder(i);
    assert t[|t| - 3..] == ")}}";
    assert Inside("{{Wildcard(", t) == Numeral(i);
    ParseNumeral(i);
    assert t[0] == '{';
  }

  lemma {:induction false} NumeralsParse(ns: seq<nat>)
    ensures ParseAll(Itoas(ns)) == Some(ns)
  {
    if ns != [] {
      NumeralsParse(ns[1..]);
      assert Itoas(ns)[1..] == Itoas(ns[1..]);
      ParseNumeral(ns[0]);
      assert [ns[0]] + ns[1..] == ns;
    }
  }

  lemma PartitionCallParses(max: nat, wildcards: seq<nat>)
    ensures ParsePiece(PartitionCall(max, wildcards)) == Partition(max, wildcards)
  {
    var t := PartitionCall(max, wildcards);
    var ns: seq<nat> := [max] + wildcards;
    assert Itoas(ns) == [Numeral(max)] + Itoas(wildcards);
    var args := Join(Itoas(ns), ',');
    assert t[|t| - 3..] == ")}}";
    assert Inside("{{Partition(", t) == args;
    forall i | 0 <= i < |ns| ensures ',' !in Itoas(ns)[i] { NumeralWord(ns[i]); }
    SplitOfJoin(Itoas(ns), ',');
    NumeralsParse(ns);
    assert t[0] == '{' && t[2] == 'P';
    assert "{{Wildcard("[2] == 'W';
    assert !Wraps("{{Wildcard(", t);
  }

  lemma {:induction false} NoDotInJoin(ts: seq<string>)
    requires forall i :: 0 <= i < |ts| ==> '.' !in ts[i]
    ensures '.' !in Join(ts, ',')
  {
    if |ts| > 1 {
      NoDotInJoin(ts[1..]);
    }
  }

  lemma PartitionCallWord(max: nat, wildcards: seq<nat>)
    ensures '.' !in PartitionCall(max, wildcards)
  {
    var ts := [Numeral(max)] + Itoas(wildcards);
    forall i | 0 <= i < |ts| ensures '.' !in ts[i] {
      NumeralWord(max);
      if i > 0 { NumeralWord(wildcards[i - 1]); }
    }
    NoDotInJoin(ts);
  }

  /** Token by token: a star becomes the call for its own number among the stars, and
      everything else stays. */
  lemma {:induction false} DestTokensExactly(tokens: seq<string>, index: nat, i: nat)
    requires i < |tokens|
    ensures DestTokens(tokens, index)[i]
      == if tokens[i] == "*" then "{{Wildcard(" + Numeral(index + Count(tokens[..i], "*")) + ")}}" else tokens[i]
  {
    hide Placeholder;
    if i == 0 {
      Spelled(index);
    } else {
      var next := index + if tokens[0] == "*" then 1 else 0;
      DestTokensExactly(tokens[1..], next, i - 1);
      CountFirst(tokens[..i]);
      assert tokens[..i][1..] == tokens[1..][..i - 1];
      assert DestTokens(tokens, index)[1..] == DestTokens(tokens[1..], next);
    }
  }

  lemma Spelled(index: nat)
    ensures Placeholder(index) == "{{Wildcard(" + Numeral(index) + ")}}"
  {
  }

  /** The tokens of a destination: one call with the number of partitions and then the
      filter's wildcards in their order, and the numbered tokens of the filter. */
  lemma DestinationExactly(pf: PartitioningFilter, max: nat) returns (args: seq<string>)
    requires forall i :: 0 <= i < |pf.wildcards| ==> pf.wildcards[i] >= 0
    ensures var f, d := Split(pf.filter, '.'), Split(Destination(pf, max), '.');
      && |d| == 1 + |f| && d[0] == "{{Partition(" + Join(args, ',') + ")}}"
      && forall i :: 0 <= i < |f| ==>
           d[i + 1] == if f[i] == "*" then "{{Wildcard(" + Numeral(1 + Count(f[..i], "*")) + ")}}" else f[i]
    ensures |args| == 1 + |pf.wildcards| && args[0] == Numeral(max) && Split(Join(args, ','), ',') == args
    ensures forall i :: 0 <= i < |pf.wildcards| ==> args[i + 1] == Numeral(pf.wildcards[i])
  {
    hide DestTokens, Destination, PartitionCall, Join, Split, Count;
    var f, d := Split(pf.filter, '.'), Split(Destination(pf, max), '.');
    args := CallTokens(max, pf.wildcards);
    DestinationTokens(pf, max);
    forall i | 0 <= i < |f|
      ensures d[i + 1] == if f[i] == "*" then "{{Wildcard(" + Numeral(1 + Count(f[..i], "*")) + ")}}" else f[i]
    {
      DestTokensExactly(f, 1, i);
      assert d[i + 1] == DestTokens(f, 1)[i];
    }
  }

  lemma CallTokens(max: nat, wildcards: seq<nat>) returns (args: seq<string>)
    ensures PartitionCall(max, wildcards) == "{{Partition(" + Join(args, ',') + ")}}"
    ensures |args| == 1 + |wildcards| && args[0] == Numeral(max) && Split(Join(args, ','), ',') == args
    ensures forall i :: 0 <= i < |wildcards| ==> args[i + 1] == Numeral(wildcards[i])
  {
    args := [Numeral(max)] + Itoas(wildcards);
    forall i | 0 <= i < |args| ensures ',' !in args[i] { NumeralWord(if i == 0 then max else wildcards[i - 1]); }
    SplitOfJoin(args, ',');
  }

  lemma DestinationTokens(pf: PartitioningFilter, max: nat)
    requires forall i :: 0 <= i < |pf.wildcards| ==> pf.wildcards[i] >= 0
    ensures Split(Destination(pf, max), '.')
      == [PartitionCall(max, pf.wildcards)] + DestTokens(Split(pf.filter, '.'), 1)
  {
    hide PartitionCall;
    PartitionCallWord(max, pf.wildcards);
    SplitFree(pf.filter, '.');
    DestTokensFree(Split(pf.filter, '.'), 1);
    var call, tokens := PartitionCall(max, pf.wildcards), DestTokens(Split(pf.filter, '.'), 1);
    SplitOfJoin(tokens, '.');
    SplitHead(call, Join(tokens, '.'), '.');
  }

  /** No word of the filter is read back as a transform function. */
  predicate Plain(tokens: seq<string>) {
    forall i :: 0 <= i < |tokens| && tokens[i] != "*" && tokens[i] != ">" ==> ParsePiece(tokens[i]).Literal?
  }

  /** In particular when no word begins with "{{" or "$". */
  lemma PlainWhen(tokens: seq<string>)
    requires forall i :: 0 <= i < |tokens| && tokens[i] != "*" ==>
      !HasPrefix(tokens[i], "{{") && !HasPrefix(tokens[i], "$")
    ensures Plain(tokens)
  {
    forall i | 0 <= i < |tokens| && tokens[i] != "*" && tokens[i] != ">" ensures ParsePiece(tokens[i]).Literal? {
      PrefixOfPrefix("{{", "{{Wildcard(", tokens[i]);
      PrefixOfPrefix("{{", "{{Partition(", tokens[i]);
    }
  }

  lemma PrefixOfPrefix(a: string, b: string, c: string)
    ensures a <= b && b <= c ==> a <= c
  {
  }

  lemma {:induction false} DestTokensFree(tokens: seq<string>, index: nat)
    requires Free(tokens, '.')
    ensures Free(DestTokens(tokens, index), '.')
  {
    if tokens != [] {
      var more := index + if tokens[0] == "*" then 1 else 0;
      DestTokensFree(tokens[1..], more);
      NumeralWord(index);
      var rest := DestTokens(tokens[1..], more);
      assert DestTokens(tokens, index)[1..] == rest;
      forall i | 0 <= i < |DestTokens(tokens, index)| ensures '.' !in DestTokens(tokens, index)[i] {
        if i > 0 { assert DestTokens(tokens, index)[i] == rest[i - 1]; }
      }
    }
  }

  /** Numbered placeholders put every captured token back in its place. */
  lemma {:induction false} ExpandRestores(filter: seq<string>, suffix: seq<string>, index: nat, captured: seq<string>,
      rest: seq<string>, subject: string, hash: (nat, seq<string>) -> nat)
    requires Matches(filter, suffix, "*", ">") && Plain(filter)
    requires 1 <= index <= |captured| + 1 && captured[index - 1..] == Captured(filter, suffix)
    requires rest == Rest(filter, suffix)
    ensures Expand(DestTokens(filter, index), captured, rest, subject, hash) == Some(suffix)
  {
    if filter != [] {
      var dest := DestTokens(filter, index);
      if filter[0] == ">" {
        assert dest[1..] == [];
        assert rest + [] == rest;
      } else {
        assert suffix == [suffix[0]] + suffix[1..];
        assert Plain(filter[1..]);
        if filter[0] == "*" {
          assert captured[index - 1] == suffix[0] by { assert captured[index - 1..][0] == suffix[0]; }
          assert captured[index..] == captured[index - 1..][1..] == Captured(filter[1..], suffix[1..]);
          PlaceholderParses(index);
          ExpandRestores(filter[1..], suffix[1..], index + 1, captured, rest, subject, hash);
          assert dest[1..] == DestTokens(filter[1..], index + 1);
        } else {
          ExpandRestores(filter[1..], suffix[1..], index, captured, rest, subject, hash);
          assert dest[1..] == DestTokens(filter[1..], index);
        }
      }
    }
  }

  lemma {:induction false} CapturedCount(filter: seq<string>, subject: seq<string>)
    requires Matches(filter, subject, "*", ">")
    ensures |Captured(filter, subject)| == Count(filter, "*")
  {
    if filter != [] {
      CountFirst(filter);
      if filter[0] != ">" {
        CapturedCount(filter[1..], subject[1..]);
      }
    }
  }

  lemma {:induction false} CountFirst(ts: seq<string>)
    requires ts != []
    ensures Count(ts, "*") == (if ts[0] == "*" then 1 else 0) + Count(ts[1..], "*")
  {
    if |ts| > 1 {
      var init := ts[..|ts| - 1];
      CountFirst(init);
      assert init[1..] == ts[1..][..|ts| - 2];
    }
  }

  /** The tokens that decide the partition of `subject`. */
  function Key(pf: PartitioningFilter, subject: string): seq<string>
    requires SubjectMatches(pf.filter, subject)
    requires forall i :: 0 <= i < |pf.wildcards| ==> 1 <= pf.wildcards[i] <= Stars(pf.filter)
  {
    var captured := Captured(Split(pf.filter, '.'), Split(subject, '.'));
    CapturedCount(Split(pf.filter, '.'), Split(subject, '.'));
    assert |captured| == Stars(pf.filter);
    if pf.wildcards == [] then [subject] else Pick(captured, pf.wildcards)
  }

  /** The captured tokens are those at the stars' places, in their order. */
  lemma {:induction false} CapturedExactly(filter: seq<string>, subject: seq<string>, j: nat)
    requires Matches(filter, subject, "*", ">") && j < |filter| && filter[j] == "*" && Legal(filter)
    ensures var k := Count(filter[..j], "*");
      j < |subject| && k < |Captured(filter, subject)| && Captured(filter, subject)[k] == subject[j]
  {
    if j > 0 {
      assert filter[0] != ">";
      forall i | 0 <= i < |filter[1..]| - 1 ensures filter[1..][i] != ">" { assert filter[1..][i] == filter[i + 1]; }
      CapturedExactly(filter[1..], subject[1..], j - 1);
      CountFirst(filter[..j]);
      assert filter[..j][1..] == filter[1..][..j - 1];
    }
  }

  /** A key is made of the subject's tokens under the chosen stars, in the chosen order; the
      token of star number w is the one with w - 1 stars before its place. */
  lemma KeyTokens(pf: PartitioningFilter, subject: string, i: nat, j: nat)
    requires WellFormedFilter(pf) && SubjectMatches(pf.filter, subject) && i < |pf.wildcards|
    requires var f := Split(pf.filter, '.');
      j < |f| && f[j] == "*" && Count(f[..j], "*") == pf.wildcards[i] - 1
    ensures j < |Split(subject, '.')|
    ensures |Key(pf, subject)| == |pf.wildcards| && Key(pf, subject)[i] == Split(subject, '.')[j]
  {
    var f, s := Split(pf.filter, '.'), Split(subject, '.');
    MatchesLegal(f, s);
    CapturedExactly(f, s, j);
  }

  /** The partition call yields the partition of the subject's key. */
  lemma DestinationExpands(pf: PartitioningFilter, max: nat, subject: string, hash: (nat, seq<string>) -> nat)
    requires WellFormedFilter(pf) && SubjectMatches(pf.filter, subject)
    ensures var f, s := Split(pf.filter, '.'), Split(subject, '.');
      Expand(Split(Destination(pf, max), '.'), Captured(f, s), Rest(f, s), subject, hash)
      == match Expand(DestTokens(f, 1), Captured(f, s), Rest(f, s), subject, hash)
         case None => None
         case Some(ts) => Some([Numeral(hash(max, Key(pf, subject)))] + ts)
  {
    hide PartitionCall, ParsePiece;
    var f, s := Split(pf.filter, '.'), Split(subject, '.');
    var captured := Captured(f, s);
    CapturedCount(f, s);
    var ws: seq<nat> := pf.wildcards;
    DestinationTokens(pf, max);
    var call, tokens := PartitionCall(max, ws), DestTokens(f, 1);
    assert ([call] + tokens)[1..] == tokens;
    PartitionCallParses(max, ws);
    assert Choose(captured, ws, subject) == Some(Key(pf, subject));
  }

  /** The transform puts the partition of the subject's key in front of the unchanged subject. */
  lemma TransformPrefixes(pf: PartitioningFilter, max: nat, subject: string, hash: (nat, seq<string>) -> nat)
    requires WellFormedFilter(pf) && Plain(Split(pf.filter, '.')) && SubjectMatches(pf.filter, subject)
    ensures Apply(pf.filter, Destination(pf, max), subject, hash)
      == Some(Numeral(hash(max, Key(pf, subject))) + "." + subject)
  {
    hide Key, Destination, Plain;
    var f, s := Split(pf.filter, '.'), Split(subject, '.');
    DestinationExpands(pf, max, subject, hash);
    assert Captured(f, s)[0..] == Captured(f, s);
    ExpandRestores(f, s, 1, Captured(f, s), Rest(f, s), subject, hash);
    var p := Numeral(hash(max, Key(pf, subject)));
    assert ([p] + s)[1..] == s;
    JoinOfSplit(subject, '.');
  }

  // Exactly the plain filters are safe

  lemma BadToken(t: string, captured: seq<string>, rest: seq<string>, subject: string, hash: (nat, seq<string>) -> nat)
    requires t != ">" && !ParsePiece(t).Literal?
    requires forall k :: 0 <= k < |captured| ==> captured[k] == "x"
    ensures ExpandOne(t, captured, rest, subject, hash) != Some([t])
  {
    assert "x"[0] != '$' && ParsePiece("x") == Literal("x");
    if ParsePiece(t).Partition? {
      assert t[0] == "{{Partition("[0] == '{';
      match Choose(captured, ParsePiece(t).wildcards, subject) {
        case Some(ts) => assert IsDigit(Numeral(hash(ParsePiece(t).count, ts))[0]);
        case None =>
      }
    }
  }

  lemma OneToken(t: string, captured: seq<string>, rest: seq<string>, subject: string, hash: (nat, seq<string>) -> nat)
    requires t != ">"
    ensures ExpandOne(t, captured, rest, subject, hash).Some? ==>
      |ExpandOne(t, captured, rest, subject, hash).value| == 1
  {
  }

  lemma ExpandDiffers(head: string, tail: seq<string>, suffix: seq<string>, captured: seq<string>, rest: seq<string>,
      subject: string, hash: (nat, seq<string>) -> nat)
    requires head != ">" && suffix != []
    requires ExpandOne(head, captured, rest, subject, hash) != Some([suffix[0]]) ||
      Expand(tail, captured, rest, subject, hash) != Some(suffix[1..])
    ensures Expand([head] + tail, captured, rest, subject, hash) != Some(suffix)
  {
    hide ParsePiece, ExpandOne;
    OneToken(head, captured, rest, subject, hash);
    assert ([head] + tail)[1..] == tail;
    var one, others := ExpandOne(head, captured, rest, subject, hash), Expand(tail, captured, rest, subject, hash);
    if one.Some? && others.Some? { FirstOf(one.value, others.value, suffix); }
  }

  lemma FirstOf<T>(a: seq<T>, b: seq<T>, s: seq<T>)
    requires |a| == 1 && s != []
    ensures a + b == s ==> a == [s[0]] && b == s[1..]
  {
  }

  /** One word that is read as a function spoils the subject that has "x" for every wildcard. */
  lemma {:induction false} ExpandBroken(filter: seq<string>, suffix: seq<string>, index: nat, i: nat,
      captured: seq<string>, rest: seq<string>, subject: string, hash: (nat, seq<string>) -> nat)
    requires Matches(filter, suffix, "*", ">") && i < |filter|
    requires filter[i] != "*" && filter[i] != ">" && !ParsePiece(filter[i]).Literal?
    requires forall k :: 0 <= k < |captured| ==> captured[k] == "x"
    ensures Expand(DestTokens(filter, index), captured, rest, subject, hash) != Some(suffix)
  {
    hide ParsePiece, ExpandOne, Expand, Placeholder;
    var head := if filter[0] == "*" then Placeholder(index) else filter[0];
    var more := index + if filter[0] == "*" then 1 else 0;
    PlaceholderOpens(index);
    if i == 0 {
      BadToken(filter[0], captured, rest, subject, hash);
    } else {
      ExpandBroken(filter[1..], suffix[1..], more, i - 1, captured, rest, subject, hash);
    }
    ExpandDiffers(head, DestTokens(filter[1..], more), suffix, captured, rest, subject, hash);
  }

  lemma PlaceholderOpens(index: nat)
    ensures Placeholder(index) != ">"
  {
    assert Placeholder(index)[0] == '{';
  }

  lemma {:induction false} ExpandFree(pieces: seq<string>, captured: seq<string>, rest: seq<string>, subject: string,
      hash: (nat, seq<string>) -> nat)
    requires Free(pieces, '.') && Free(captured, '.') && Free(rest, '.')
    ensures Expand(pieces, captured, rest, subject, hash).Some? ==>
      Free(Expand(pieces, captured, rest, subject, hash).value, '.')
  {
    if pieces != [] {
      ExpandFree(pieces[1..], captured, rest, subject, hash);
      match ParsePiece(pieces[0]) {
        case Partition(n, ws) =>
          match Choose(captured, ws, subject) {
            case Some(ts) => NumeralWord(hash(n, ts));
            case None =>
          }
        case _ =>
      }
    }
  }

  lemma {:induction false} SampleCaptured(f: seq<string>)
    requires Legal(f) && Matches(f, Sample(f), "*", ">")
    ensures forall k :: 0 <= k < |Captured(f, Sample(f))| ==> Captured(f, Sample(f))[k] == "x"
    ensures Rest(f, Sample(f)) == [] || Rest(f, Sample(f)) == ["x"]
  {
    if f != [] && f[0] != ">" {
      assert Sample(f)[1..] == Sample(f[1..]);
      forall i | 0 <= i < |f[1..]| - 1 ensures f[1..][i] != ">" { assert f[1..][i] == f[i + 1]; }
      SampleCaptured(f[1..]);
    }
  }

  lemma JoinedDiffer(p: string, ts: seq<string>, subject: string)
    requires Free(ts, '.') && '.' !in p && ts != Split(subject, '.')
    ensures Join([p] + ts, '.') != p + "." + subject
  {
    SplitOfJoin([p] + ts, '.');
    SplitHead(p, subject, '.');
    assert ([p] + ts)[1..] == ts && ([p] + Split(subject, '.'))[1..] == Split(subject, '.');
  }

  lemma SampleSubject(filter: string) returns (subject: string)
    requires Legal(Split(filter, '.'))
    ensures Split(subject, '.') == Sample(Split(filter, '.')) && SubjectMatches(filter, subject)
  {
    SplitFree(filter, '.');
    SampleMatches(Split(filter, '.'));
    SplitOfJoin(Sample(Split(filter, '.')), '.');
    subject := Join(Sample(Split(filter, '.')), '.');
  }

  /** A filter with a word that is read as a function, and a subject it takes, which the
      transform does not leave as it is. */
  lemma Spoiled(pf: PartitioningFilter, max: nat, i: nat, hash: (nat, seq<string>) -> nat) returns (subject: string)
    requires WellFormedFilter(pf) && Legal(Split(pf.filter, '.')) && i < |Split(pf.filter, '.')|
    requires var t := Split(pf.filter, '.')[i]; t != "*" && t != ">" && !ParsePiece(t).Literal?
    ensures SubjectMatches(pf.filter, subject)
    ensures Apply(pf.filter, Destination(pf, max), subject, hash)
      != Some(Numeral(hash(max, Key(pf, subject))) + "." + subject)
  {
    hide ParsePiece, Key, Destination, Captured, Rest, Expand, DestTokens, Numeral, Split, Join;
    subject := SampleSubject(pf.filter);
    var f, s := Split(pf.filter, '.'), Split(subject, '.');
    SampleCaptured(f);
    var captured, rest := Captured(f, s), Rest(f, s);
    DestinationExpands(pf, max, subject, hash);
    ExpandBroken(f, s, 1, i, captured, rest, subject, hash);
    SplitFree(pf.filter, '.');
    DestTokensFree(f, 1);
    ExpandFree(DestTokens(f, 1), captured, rest, subject, hash);
    var p := hash(max, Key(pf, subject));
    NumeralWord(p);
    var ts := Expand(DestTokens(f, 1), captured, rest, subject, hash);
    if ts.Some? { JoinedDiffer(Numeral(p), ts.value, subject); }
  }

  /** The transform leaves every subject of a filter as it is, behind its partition, exactly
      when no word of the filter is read back as a transform function. */
  lemma TransformExactly(pf: PartitioningFilter, max: nat, hash: (nat, seq<string>) -> nat)
    requires WellFormedFilter(pf) && Legal(Split(pf.filter, '.'))
    ensures Plain(Split(pf.filter, '.')) <==> forall subject :: SubjectMatches(pf.filter, subject) ==>
      Apply(pf.filter, Destination(pf, max), subject, hash)
      == Some(Numeral(hash(max, Key(pf, subject))) + "." + subject)
  {
    hide ParsePiece, Key, Destination, Apply;
    if Plain(Split(pf.filter, '.')) {
      forall subject | SubjectMatches(pf.filter, subject)
        ensures Apply(pf.filter, Destination(pf, max), subject, hash)
          == Some(Numeral(hash(max, Key(pf, subject))) + "." + subject)
      {
        TransformPrefixes(pf, max, subject, hash);
      }
    } else {
      var f := Split(pf.filter, '.');
      var i :| 0 <= i < |f| && f[i] != "*" && f[i] != ">" && !ParsePiece(f[i]).Literal?;
      var subject := Spoiled(pf, max, i, hash);
    }
  }

  lemma Pair(a: string, b: string)
    requires '.' !in a && '.' !in b
    ensures Split(a + "." + b, '.') == [a, b]
  {
    SplitHead(a, b, '.');
    SplitWord(b, '.');
  }

  lemma ExpandStep(t: string, more: seq<string>, captured: seq<string>, subject: string,
      hash: (nat, seq<string>) -> nat, a: seq<string>, b: seq<string>)
    requires ExpandOne(t, captured, [], subject, hash) == Some(a)
    requires Expand(more, captured, [], subject, hash) == Some(b)
    ensures Expand([t] + more, captured, [], subject, hash) == Some(a + b)
  {
    assert ([t] + more)[1..] == more;
  }

  lemma DollarParses()
    ensures ParsePiece("$1") == Wildcard(1)
  {
    assert "$1"[1..] == Numeral(1);
    ParseNumeral(1);
  }

  lemma RewritingTokens(word: string, subject: string, call: string, piece: string, p: string,
      hash: (nat, seq<string>) -> nat)
    requires word == "$1" && call == PartitionCall(4, [1]) && piece == Placeholder(1) && p == Numeral(hash(4, ["a"]))
    ensures Expand([call, piece, word], ["a"], [], subject, hash) == Some([p, "a", "a"])
  {
    DollarParses();
    PlaceholderParses(1);
    PartitionCallParses(4, [1]);
    assert Pick(["a"], [1]) == ["a"];
    ExpandStep(word, [], ["a"], subject, hash, ["a"], []);
    ExpandStep(piece, [word] + [], ["a"], subject, hash, ["a"], ["a"] + []);
    ExpandStep(call, [piece] + ([word] + []), ["a"], subject, hash, [p], ["a"] + (["a"] + []));
    assert [call] + ([piece] + ([word] + [])) == [call, piece, word];
    assert [p] + (["a"] + (["a"] + [])) == [p, "a", "a"];
  }

  lemma RewritingMatch(word: string)
    requires word == "$1"
    ensures Split("*" + "." + word, '.') == ["*", word] && Split("a" + "." + word, '.') == ["a", word]
    ensures Stars("*" + "." + word) == 1
    ensures Matches(["*", word], ["a", word], "*", ">")
    ensures Captured(["*", word], ["a", word]) == ["a"] && Rest(["*", word], ["a", word]) == []
  {
    Pair("*", word);
    Pair("a", word);
    var f, s := ["*", word], ["a", word];
    assert f[1..] == [word] && s[1..] == [word] && f[1..][1..] == [] && f[..1] == ["*"];
    assert word != "*" && word != ">" && Count(f[..1], "*") == 1;
    assert Matches([word], [word], "*", ">") && Captured([word], [word]) == [] && Rest([word], [word]) == [] by {
      assert [word][1..] == [];
      assert Matches<string>([], [], "*", ">") && Captured([], []) == [] && Rest([], []) == [];
    }
  }

  lemma RewritingDest(word: string, call: string, piece: string)
    requires word == "$1" && call == PartitionCall(4, [1]) && piece == Placeholder(1)
    ensures Split(Destination(PartitioningFilter("*" + "." + word, [1]), 4), '.') == [call, piece, word]
  {
    hide Placeholder, PartitionCall;
    Pair("*", word);
    assert ["*", word][1..] == [word] && [word][1..] == [];
    assert DestTokens(["*", word], 1) == [piece, word];
    PartitionCallWord(4, [1]);
    PlaceholderWord(1);
    SplitOfJoin([piece, word], '.');
    SplitHead(call, Join([piece, word], '.'), '.');
  }

  lemma PlaceholderWord(index: nat)
    ensures '.' !in Placeholder(index)
  {
    NumeralWord(index);
  }

  lemma ApplyIs(filter: string, dest: string, subject: string, hash: (nat, seq<string>) -> nat, captured: seq<string>,
      ts: seq<string>)
    requires SubjectMatches(filter, subject)
    requires captured == Captured(Split(filter, '.'), Split(subject, '.'))
    requires Rest(Split(filter, '.'), Split(subject, '.')) == []
    requires Expand(Split(dest, '.'), captured, [], subject, hash) == Some(ts)
    ensures Apply(filter, dest, subject, hash) == Some(Join(ts, '.'))
  {
  }

  lemma JoinThree(a: string, b: string, c: string)
    ensures Join([a, b, c], '.') == a + "." + b + "." + c
  {
    assert [a, b, c][1..] == [b, c] && [b, c][1..] == [c];
    assert Join([b, c], '.') == b + "." + c;
  }

  /** Without the condition on the filter's words the transform can rewrite the subject. */
  lemma RewritingFilter(word: string, filter: string, subject: string, hash: (nat, seq<string>) -> nat)
    requires word == "$1" && filter == "*" + "." + word && subject == "a" + "." + word
    ensures WellFormedFilter(PartitioningFilter(filter, [1])) && SubjectMatches(filter, subject)
    ensures Apply(filter, Destination(PartitioningFilter(filter, [1]), 4), subject, hash)
      == Some(Numeral(hash(4, ["a"])) + "." + "a" + "." + "a")
  {
    var call, piece, p := PartitionCall(4, [1]), Placeholder(1), Numeral(hash(4, ["a"]));
    RewritingMatch(word);
    RewritingDest(word, call, piece);
    RewritingTokens(word, subject, call, piece, p, hash);
    ApplyIs(filter, Destination(PartitioningFilter(filter, [1]), 4), subject, hash, ["a"], [p, "a", "a"]);
    JoinThree(p, "a", "a");
  }

  // Stripping the partition token from a delivered message

  function Strip(subject: string): string {
    var tokens := Split(subject, '.');
    if |tokens| == 1 then subject else Join(tokens[1..], '.')
  }

  /** ConsumerGroupMsg.Subject: everything after the first dot, or the subject itself. */
  method MessageSubject(subject: string) returns (stripped: string)
    ensures stripped == Strip(subject)
  {
    for i := 0 to |subject|
      invariant '.' !in subject[..i]
    {
      if subject[i] == '.' {
        SplitHead(subject[..i], subject[i + 1..], '.');
        assert subject == subject[..i] + ['.'] + subject[i + 1..];
        JoinOfSplit(subject[i + 1..], '.');
        return subject[i + 1..];
      }
    }
    assert subject[..|subject|] == subject;
    SplitWord(subject, '.');
    return subject;
  }

  /** A subject without a dot is left as it is; of the others the first token goes. */
  lemma StripExactly(first: string, rest: string)
    requires '.' !in first
    ensures Strip(first) == first && Strip(first + "." + rest) == rest
  {
    SplitWord(first, '.');
    SplitHead(first, rest, '.');
    JoinOfSplit(rest, '.');
    assert ([first] + Split(rest, '.'))[1..] == Split(rest, '.');
  }

  /** The filters that the group's stream is sourced through; without any, all subjects are. */
  function SourceFilters(c: Config): seq<PartitioningFilter> {
    if c.filters == [] then [PartitioningFilter(">", [])] else c.filters
  }

  lemma SourceFilterFits(c: Config, i: nat)
    requires Valid(c) && i < |SourceFilters(c)|
    ensures WellFormedFilter(SourceFilters(c)[i])
    ensures forall subject :: SubjectMatches(SourceFilters(c)[i].filter, subject) ==> Sourced(c, subject)
  {
    if c.filters == [] { SplitWord(">", '.'); }
  }

  /** Together they take exactly the subjects that the group is for. */
  lemma SourcesExactly(c: Config, subject: string)
    ensures Sourced(c, subject) <==>
      exists i :: 0 <= i < |SourceFilters(c)| && SubjectMatches(SourceFilters(c)[i].filter, subject)
  {
    hide SubjectMatches;
    if c.filters == [] {
      AllMatch(subject);
      assert SubjectMatches(SourceFilters(c)[0].filter, subject);
    } else {
      assert SourceFilters(c) == c.filters;
    }
  }

  lemma AllMatch(subject: string)
    ensures SubjectMatches(">", subject)
  {
    SplitWord(">", '.');
  }

  /** From publisher to handler: the subject goes in and comes out unchanged, its partition
      depends on its key alone, and exactly that partition's owner is delivered it. */
  lemma KeyGoesToOneMember(c: Config, i: nat, subject: string, hash: (nat, seq<string>) -> nat, name: string)
    requires Valid(c) && HasMembers(c) && i < |SourceFilters(c)| && SubjectMatches(SourceFilters(c)[i].filter, subject)
    requires WellFormedFilter(SourceFilters(c)[i]) && Plain(Split(SourceFilters(c)[i].filter, '.'))
    requires hash(c.maxMembers, Key(SourceFilters(c)[i], subject)) < c.maxMembers
    ensures var pf := SourceFilters(c)[i];
      var sourced := Apply(pf.filter, Destination(pf, c.maxMembers), subject, hash);
      && sourced.Some? && Strip(sourced.value) == subject
      && (Owns(c, name, sourced.value) <==> name == OwnerOf(c, hash(c.maxMembers, Key(pf, subject))))
  {
    hide Key, Plain, Destination, ConsumerFilters;
    var pf := SourceFilters(c)[i];
    SourceFilterFits(c, i);
    TransformPrefixes(pf, c.maxMembers, subject, hash);
    var p := hash(c.maxMembers, Key(pf, subject));
    StripUndoes(p, subject);
    OneOwner(c, name, p, subject);
  }

  lemma StripUndoes(p: nat, subject: string)
    ensures Strip(Numeral(p) + "." + subject) == subject
  {
    NumeralWord(p);
    StripExactly(Numeral(p), subject);
  }
}
