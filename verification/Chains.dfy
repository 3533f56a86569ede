// Chains of codecs: encoding runs forward, decoding backward, and what every stage keeps the
// chain keeps.
module Chains {
  import opened Tokens
  import opened Base64
  import opened KeyCodecs

  // Specification

  /** Encoding from stage i on. */
  function ChainEncode(codecs: seq<KeyCodec>, i: nat, text: Text): Result<Text>
    requires i <= |codecs|
    decreases |codecs| - i
  {
    if i == |codecs| then Ok(text)
    else match codecs[i].encode(text)
      case Err(_) => Err(Stage(i))
      case Ok(t) => ChainEncode(codecs, i + 1, t)
  }

  /** Decoding through stages n - 1, ..., 0. */
  function ChainDecode(codecs: seq<KeyCodec>, n: nat, text: Text): Result<Text>
    requires n <= |codecs|
  {
    if n == 0 then Ok(text)
    else match codecs[n - 1].decode(text)
      case Err(_) => Err(Stage(n - 1))
      case Ok(t) => ChainDecode(codecs, n - 1, t)
  }

  function FirstUnfilterable(codecs: seq<KeyCodec>, i: nat): (r: nat)
    requires i <= |codecs|
    ensures i <= r <= |codecs|
    ensures forall k :: i <= k < r ==> codecs[k].filter.Some?
    ensures r < |codecs| ==> codecs[r].filter.None?
    decreases |codecs| - i
  {
    if i == |codecs| || codecs[i].filter.None? then i else FirstUnfilterable(codecs, i + 1)
  }

  function ChainFilterFrom(codecs: seq<KeyCodec>, i: nat, text: Text): Result<Text>
    requires i <= |codecs| && forall k :: 0 <= k < |codecs| ==> codecs[k].filter.Some?
    decreases |codecs| - i
  {
    if i == |codecs| then Ok(text)
    else match codecs[i].filter.value(text)
      case Err(_) => Err(Stage(i))
      case Ok(t) => ChainFilterFrom(codecs, i + 1, t)
  }

  function ChainFilter(codecs: seq<KeyCodec>, text: Text): Result<Text> {
    var k := FirstUnfilterable(codecs, 0);
    if k < |codecs| then Err(NotFilterable(k)) else ChainFilterFrom(codecs, 0, text)
  }

  /** A chain is a codec again. */
  function ChainCodec(codecs: seq<KeyCodec>): KeyCodec {
    KeyCodec(k => ChainEncode(codecs, 0, k), k => ChainDecode(codecs, |codecs|, k), Some(f => ChainFilter(codecs, f)))
  }

  // The loops

  method NewKeyChainCodec(codecs: seq<KeyCodec>) returns (r: Result<KeyCodec>)
    ensures r == if codecs == [] then Err(NoCodecs) else Ok(ChainCodec(codecs))
  {
    if |codecs| == 0 { return Err(NoCodecs); }
    return Ok(ChainCodec(codecs));
  }

  method ChainEncodeKey(codecs: seq<KeyCodec>, key: Text) returns (r: Result<Text>)
    ensures r == ChainEncode(codecs, 0, key)
  {
    var result := key;
    for i := 0 to |codecs|
      invariant ChainEncode(codecs, 0, key) == ChainEncode(codecs, i, result)
    {
      var e := codecs[i].encode(result);
      if e.Err? { return Err(Stage(i)); }
      result := e.value;
    }
    return Ok(result);
  }

  method ChainDecodeKey(codecs: seq<KeyCodec>, key: Text) returns (r: Result<Text>)
    ensures r == ChainDecode(codecs, |codecs|, key)
  {
    var result := key;
    for i := |codecs| downto 0
      invariant ChainDecode(codecs, |codecs|, key) == ChainDecode(codecs, i, result)
    {
      var d := codecs[i].decode(result);
      if d.Err? { return Err(Stage(i)); }
      result := d.value;
    }
    return Ok(result);
  }

  method ChainEncodeFilter(codecs: seq<KeyCodec>, filter: Text) returns (r: Result<Text>)
    ensures r == ChainFilter(codecs, filter)
  {
    for i := 0 to |codecs|
      invariant forall k :: 0 <= k < i ==> codecs[k].filter.Some?
    {
      if codecs[i].filter.None? { return Err(NotFilterable(i)); }
    }
    var result := filter;
    for i := 0 to |codecs|
      invariant ChainFilterFrom(codecs, 0, filter) == ChainFilterFrom(codecs, i, result)
    {
      var e := codecs[i].filter.value(result);
      if e.Err? { return Err(Stage(i)); }
      result := e.value;
    }
    return Ok(result);
  }

  // Which stages are run, and which one fails

  /** The texts that stages make one from the other, from the first to what stage number
      |ts| - 2 has made. */
  ghost predicate Linked(stages: seq<Text -> Result<Text>>, ts: seq<Text>) {
    1 <= |ts| <= |stages| + 1 && forall i :: 0 <= i < |ts| - 1 ==> stages[i](ts[i]) == Ok(ts[i + 1])
  }

  /** All stages have run and made the result, or the next one is the first to fail. */
  ghost predicate RanThrough(stages: seq<Text -> Result<Text>>, text: Text, ts: seq<Text>, r: Result<Text>) {
    && Linked(stages, ts) && ts[0] == text
    && match r
       case Ok(t) => |ts| == |stages| + 1 && ts[|ts| - 1] == t
       case Err(_) => |ts| <= |stages| && stages[|ts| - 1](ts[|ts| - 1]).Err?
  }

  /** One stage in front of others. */
  lemma LinkedNext(stages: seq<Text -> Result<Text>>, text: Text, ts: seq<Text>, r: Result<Text>)
    requires stages != [] && stages[0](text).Ok? && RanThrough(stages[1..], stages[0](text).value, ts, r)
    ensures RanThrough(stages, text, [text] + ts, r)
  {
    var all := [text] + ts;
    forall i | 0 <= i < |all| - 1 ensures stages[i](all[i]) == Ok(all[i + 1]) {
      if i > 0 { assert stages[1..][i - 1](ts[i - 1]) == Ok(ts[i]); }
    }
  }

  lemma StopsAt(stages: seq<Text -> Result<Text>>, text: Text, r: Result<Text>)
    requires if stages == [] then r == Ok(text) else stages[0](text).Err? && r.Err?
    ensures RanThrough(stages, text, [text], r)
  {
  }

  ghost function Encoders(codecs: seq<KeyCodec>): seq<Text -> Result<Text>> {
    seq(|codecs|, i requires 0 <= i < |codecs| => codecs[i].encode)
  }

  ghost function Decoders(codecs: seq<KeyCodec>): seq<Text -> Result<Text>> {
    seq(|codecs|, i requires 0 <= i < |codecs| => codecs[|codecs| - 1 - i].decode)
  }

  ghost function Filters(codecs: seq<KeyCodec>): seq<Text -> Result<Text>>
    requires forall k :: 0 <= k < |codecs| ==> codecs[k].filter.Some?
  {
    seq(|codecs|, i requires 0 <= i < |codecs| => codecs[i].filter.value)
  }

  /** Encoding runs all stages in order, each on what the one before made, and an error names
      the first that fails. */
  lemma {:induction false} EncodesInOrder(codecs: seq<KeyCodec>, i: nat, text: Text) returns (ts: seq<Text>)
    requires i <= |codecs|
    ensures var r := ChainEncode(codecs, i, text);
      RanThrough(Encoders(codecs)[i..], text, ts, r) && (r.Err? ==> r.error == Stage(i + |ts| - 1))
    decreases |codecs| - i
  {
    hide RanThrough;
    if i < |codecs| && codecs[i].encode(text).Ok? {
      var more := EncodesInOrder(codecs, i + 1, codecs[i].encode(text).value);
      assert Encoders(codecs)[i..][1..] == Encoders(codecs)[i + 1..];
      LinkedNext(Encoders(codecs)[i..], text, more, ChainEncode(codecs, i, text));
      ts := [text] + more;
    } else {
      StopsAt(Encoders(codecs)[i..], text, ChainEncode(codecs, i, text));
      ts := [text];
    }
  }

  /** Decoding runs them from the last to the first. */
  lemma {:induction false} DecodesInReverse(codecs: seq<KeyCodec>, n: nat, text: Text) returns (ts: seq<Text>)
    requires n <= |codecs|
    ensures var r := ChainDecode(codecs, n, text);
      RanThrough(Decoders(codecs)[|codecs| - n..], text, ts, r) && (r.Err? ==> |ts| <= n && r.error == Stage(n - |ts|))
    decreases n
  {
    hide RanThrough;
    var stages := Decoders(codecs)[|codecs| - n..];
    if n > 0 && codecs[n - 1].decode(text).Ok? {
      var more := DecodesInReverse(codecs, n - 1, codecs[n - 1].decode(text).value);
      assert stages[1..] == Decoders(codecs)[|codecs| - (n - 1)..];
      LinkedNext(stages, text, more, ChainDecode(codecs, n, text));
      ts := [text] + more;
    } else {
      StopsAt(stages, text, ChainDecode(codecs, n, text));
      ts := [text];
    }
  }

  lemma {:induction false} FiltersInOrder(codecs: seq<KeyCodec>, i: nat, text: Text) returns (ts: seq<Text>)
    requires i <= |codecs| && forall k :: 0 <= k < |codecs| ==> codecs[k].filter.Some?
    ensures var r := ChainFilterFrom(codecs, i, text);
      RanThrough(Filters(codecs)[i..], text, ts, r) && (r.Err? ==> r.error == Stage(i + |ts| - 1))
    decreases |codecs| - i
  {
    hide RanThrough;
    if i < |codecs| && codecs[i].filter.value(text).Ok? {
      var more := FiltersInOrder(codecs, i + 1, codecs[i].filter.value(text).value);
      assert Filters(codecs)[i..][1..] == Filters(codecs)[i + 1..];
      LinkedNext(Filters(codecs)[i..], text, more, ChainFilterFrom(codecs, i, text));
      ts := [text] + more;
    } else {
      StopsAt(Filters(codecs)[i..], text, ChainFilterFrom(codecs, i, text));
      ts := [text];
    }
  }

  /** A chain refuses a filter, before any stage has run, exactly when some stage cannot
      encode filters, and names the first; otherwise it runs the stages in order. */
  lemma FilterRefusedExactly(codecs: seq<KeyCodec>, text: Text) returns (ts: seq<Text>)
    ensures (exists k :: 0 <= k < |codecs| && codecs[k].filter.None?) ==>
      exists k :: 0 <= k < |codecs| && codecs[k].filter.None? && (forall j :: 0 <= j < k ==> codecs[j].filter.Some?)
        && ChainFilter(codecs, text) == Err(NotFilterable(k))
    ensures (forall k :: 0 <= k < |codecs| ==> codecs[k].filter.Some?) ==>
      var r := ChainFilter(codecs, text);
      RanThrough(Filters(codecs), text, ts, r) && (r.Err? ==> r.error == Stage(|ts| - 1))
  {
    hide RanThrough;
    ts := [];
    var k := FirstUnfilterable(codecs, 0);
    if k == |codecs| {
      ts := FiltersInOrder(codecs, 0, text);
      assert Filters(codecs)[0..] == Filters(codecs);
    }
  }

  // Round trip

  /** From stage i on, each stage's decoding undoes its encoding of what reaches it. */
  ghost predicate InvertsFrom(codecs: seq<KeyCodec>, i: nat, text: Text)
    requires i <= |codecs|
    decreases |codecs| - i
  {
    i == |codecs| || (Inverts(codecs[i], text) && InvertsFrom(codecs, i + 1, codecs[i].encode(text).value))
  }

  lemma {:induction false} DecodeUndoes(codecs: seq<KeyCodec>, i: nat, text: Text)
    requires i <= |codecs| && InvertsFrom(codecs, i, text)
    ensures ChainEncode(codecs, i, text).Ok?
    ensures ChainDecode(codecs, |codecs|, ChainEncode(codecs, i, text).value) == ChainDecode(codecs, i, text)
    decreases |codecs| - i
  {
    if i < |codecs| {
      DecodeUndoes(codecs, i + 1, codecs[i].encode(text).value);
    }
  }

  /** A chain of any length gives back every key that its stages give back, and neither loop
      fails on it. */
  lemma ChainRoundTrip(codecs: seq<KeyCodec>, key: Text)
    requires InvertsFrom(codecs, 0, key)
    ensures Inverts(ChainCodec(codecs), key)
  {
    DecodeUndoes(codecs, 0, key);
  }

  // Filters

  lemma {:induction false} ChainFrom(codecs: seq<KeyCodec>, i: nat, f: Text, k: Text)
    requires i <= |codecs| && forall j :: 0 <= j < |codecs| ==> codecs[j].filter.Some?
    requires forall j :: 0 <= j < |codecs| ==> FilterPreserving(codecs[j])
    ensures ChainFilterFrom(codecs, i, f).Ok? && ChainEncode(codecs, i, k).Ok? ==>
      (KeyMatches(ChainFilterFrom(codecs, i, f).value, ChainEncode(codecs, i, k).value) <==> KeyMatches(f, k))
    decreases |codecs| - i
  {
    if i < |codecs| && codecs[i].filter.value(f).Ok? && codecs[i].encode(k).Ok? {
      ChainFrom(codecs, i + 1, codecs[i].filter.value(f).value, codecs[i].encode(k).value);
    }
  }

  /** A chain preserves matching when all its stages do. */
  lemma ChainPreservesFilters(codecs: seq<KeyCodec>)
    requires forall j :: 0 <= j < |codecs| ==> FilterPreserving(codecs[j])
    ensures FilterPreserving(ChainCodec(codecs))
  {
    var c := ChainCodec(codecs);
    forall f, k | c.filter.value(f).Ok? && c.encode(k).Ok?
      ensures KeyMatches(c.filter.value(f).value, c.encode(k).value) <==> KeyMatches(f, k)
    {
      ChainFrom(codecs, 0, f, k);
    }
  }

  // Paths, then base64

  function PathThenBase64(): seq<KeyCodec> { [PathCodec(), Base64KeyCodec()] }

  /** Plain paths without a trailing slash that could be trimmed; the root is one of them. */
  predicate KeptPath(k: Text) { PlainPath(k) && NormalPath(k) == k }

  /** They are exactly the paths that come back as they are. */
  lemma KeptExactly(k: Text)
    ensures KeptPath(k) <==> PathDecode(PathEncode(k)) == k
  {
    hide PathEncode, PathDecode, PlainPath;
    PathRoundTripExactly(k);
    if !PlainPath(k) { LostPath(k); }
  }

  lemma LostPath(k: Text)
    requires !PlainPath(k)
    ensures PathDecode(PathEncode(k)) != k
  {
    hide PathEncode;
    if DOT in k {
      DecodeLeavesNoDot(PathEncode(k));
    } else {
      RootPathDecodes(k);
      assert k[0] == ROOT[0] == 95;
    }
  }

  /** A kept path that is neither empty nor the root. */
  predicate ProperPath(k: Text) { k != [] && PlainPath(k) && k[|k| - 1] != SLASH }

  /** Wildcard matching of paths, element by element. */
  predicate PathMatches(filter: Text, key: Text) {
    Matches(Split(filter, SLASH), Split(key, SLASH), [STAR], [GREATER])
  }

  lemma {:induction false} SplitReplaced(s: Text)
    requires DOT !in s
    ensures Split(ReplaceAll(s, SLASH, DOT), DOT) == Split(s, SLASH)
  {
    if s != [] {
      SplitReplaced(s[1..]);
      assert ReplaceAll(s, SLASH, DOT)[1..] == ReplaceAll(s[1..], SLASH, DOT);
      assert s[0] in s;
    }
  }

  lemma FirstElement(k: Text)
    ensures var first := Split(k, SLASH)[0]; k == first || first + [SLASH] <= k
  {
    var ts := Split(k, SLASH);
    JoinOfSplit(k, SLASH);
    if |ts| > 1 {
      assert k == ts[0] + [SLASH] + Join(ts[1..], SLASH);
    }
  }

  lemma AbsoluteTokens(k: Text)
    requires ProperPath(k) && k[0] == SLASH
    ensures Split(k, SLASH) == [[]] + Split(k[1..], SLASH)
    ensures Split(PathEncode(k), DOT) == [ROOT] + Split(k[1..], SLASH)
  {
    hide PathEncode, ReplaceAll;
    var rest := k[1..];
    assert k == [] + [SLASH] + rest;
    SplitHead([], rest, SLASH);
    AbsoluteEncodes(k);
    assert Trimmed(rest) == rest;
    SplitHead(ROOT, ReplaceAll(rest, SLASH, DOT), DOT);
    assert forall i :: 0 <= i < |rest| ==> rest[i] in k;
    SplitReplaced(rest);
  }

  lemma RelativeTokens(k: Text)
    requires ProperPath(k) && k[0] != SLASH
    ensures Split(PathEncode(k), DOT) == Split(k, SLASH) && Split(k, SLASH)[0] != []
  {
    hide ReplaceAll;
    SplitReplaced(k);
    assert PathEncode(k) == ReplaceAll(k, SLASH, DOT);
  }

  /** The tokens of an encoded path are the path's elements, with "_root_" for the empty
      element before a leading slash. */
  lemma PathTokens(k: Text)
    requires ProperPath(k)
    ensures var ts := Split(k, SLASH);
      Split(PathEncode(k), DOT) == [if ts[0] == [] then ROOT else ts[0]] + ts[1..] && ts[0] != ROOT
  {
    hide PathEncode;
    FirstElement(k);
    if k[0] == SLASH { AbsoluteTokens(k); } else { RelativeTokens(k); }
  }

  lemma ProperPreserves(f: Text, k: Text)
    requires ProperPath(f) && ProperPath(k)
    ensures KeyMatches(PathEncode(f), PathEncode(k)) <==> PathMatches(f, k)
  {
    hide PathEncode;
    PathTokens(f);
    PathTokens(k);
    var fs, ks := Split(f, SLASH), Split(k, SLASH);
    var efs, eks := Split(PathEncode(f), DOT), Split(PathEncode(k), DOT);
    assert efs[1..] == fs[1..] && eks[1..] == ks[1..];
  }

  /** The root has two empty elements as a path, and one token when encoded. */
  lemma RootTokens()
    ensures Split([SLASH], SLASH) == [[], []] && Split(PathEncode([SLASH]), DOT) == [ROOT]
  {
    assert [SLASH] == [] + [SLASH] + [];
    SplitHead([], [], SLASH);
    RootEncodes();
    SplitWord(ROOT, DOT);
  }

  lemma EmptyTokens()
    ensures Split([], SLASH) == [[]] && Split(PathEncode([]), DOT) == [[]]
  {
  }

  lemma ProperElements(k: Text)
    requires ProperPath(k)
    ensures var ts := Split(k, SLASH);
      && k == Join(ts, SLASH) && (|ts| == 1 ==> k == ts[0] != [])
      && (|ts| == 2 ==> k == ts[0] + [SLASH] + ts[1] && ts[1] != [])
  {
    var ts := Split(k, SLASH);
    JoinOfSplit(k, SLASH);
    if |ts| == 2 { assert Join(ts[1..], SLASH) == ts[1]; }
  }

  /** Filters that take the root as a path but not when encoded, or the other way round:
      a star, and the ones with two elements. */
  predicate RootMismatch(f: Text, k: Text) {
    k == [SLASH] && f in {[STAR], [SLASH, STAR], [SLASH, GREATER], [STAR, SLASH, STAR], [STAR, SLASH, GREATER]}
  }

  lemma RootKey(f: Text)
    requires ProperPath(f)
    ensures (KeyMatches(PathEncode(f), PathEncode([SLASH])) <==> PathMatches(f, [SLASH])) <==> !RootMismatch(f, [SLASH])
  {
    hide PathEncode;
    PathTokens(f);
    ProperElements(f);
    RootTokens();
    var fs, efs := Split(f, SLASH), Split(PathEncode(f), DOT);
    assert efs[1..] == fs[1..];
    RootAsPath(fs);
    RootAsToken(efs);
    MismatchElements(f);
  }

  predicate TwoForRoot(fs: seq<Text>) {
    |fs| == 2 && (fs[0] == [] || fs[0] == [STAR]) && (fs[1] == [STAR] || fs[1] == [GREATER])
  }

  lemma RootAsPath(fs: seq<Text>)
    requires |fs| >= 1 && (|fs| == 1 ==> fs[0] != []) && (|fs| == 2 ==> fs[1] != [])
    ensures Matches(fs, [[], []], [STAR], [GREATER])
      <==> fs == [[GREATER]] || TwoForRoot(fs)
  {
    var two: seq<Text> := [[], []];
    assert two[1..] == [[]] && two[1..][1..] == [];
    if |fs| >= 2 {
      assert Matches(fs[1..], [[]], [STAR], [GREATER])
        <==> |fs| == 2 && (fs[1] == [STAR] || fs[1] == [GREATER] || fs[1] == []) by {
        if |fs| > 2 { assert !Matches(fs[1..][1..], [], [STAR], [GREATER]); } else { assert fs[1..][1..] == []; }
      }
    }
  }

  lemma RootAsToken(efs: seq<Text>)
    requires |efs| > 1 || (|efs| == 1 && efs[0] != ROOT)
    ensures Matches(efs, [ROOT], [STAR], [GREATER]) <==> efs == [[STAR]] || efs == [[GREATER]]
  {
    assert [ROOT][1..] == [];
    if |efs| > 1 { assert !Matches(efs[1..], [], [STAR], [GREATER]); } else { assert efs[1..] == []; }
  }

  lemma SplitTwo(a: Text, b: Text)
    requires SLASH !in a && SLASH !in b
    ensures Split(a + [SLASH] + b, SLASH) == [a, b]
  {
    SplitHead(a, b, SLASH);
    SplitWord(b, SLASH);
  }

  lemma MismatchSplits(f: Text)
    requires RootMismatch(f, [SLASH])
    ensures Split(f, SLASH) == [[STAR]] || TwoForRoot(Split(f, SLASH))
  {
    if f == [STAR] {
      SplitWord(f, SLASH);
    } else {
      var a: Text := if f[0] == STAR then [STAR] else [];
      var b: Text := [f[|f| - 1]];
      assert f == a + [SLASH] + b;
      SplitTwo(a, b);
    }
  }

  lemma SplitsMismatch(f: Text)
    requires Split(f, SLASH) == [[STAR]] || TwoForRoot(Split(f, SLASH))
    ensures RootMismatch(f, [SLASH])
  {
    var fs := Split(f, SLASH);
    JoinOfSplit(f, SLASH);
    if |fs| == 2 {
      assert Join(fs[1..], SLASH) == fs[1];
      assert f == fs[0] + [SLASH] + fs[1];
      assert [] + [SLASH] + [STAR] == [SLASH, STAR] && [] + [SLASH] + [GREATER] == [SLASH, GREATER];
      assert [STAR] + [SLASH] + [STAR] == [STAR, SLASH, STAR];
      assert [STAR] + [SLASH] + [GREATER] == [STAR, SLASH, GREATER];
    }
  }

  lemma MismatchElements(f: Text)
    ensures RootMismatch(f, [SLASH]) <==> var fs := Split(f, SLASH);
      fs == [[STAR]] || TwoForRoot(fs)
  {
    hide RootMismatch, TwoForRoot, Split;
    if RootMismatch(f, [SLASH]) {
      MismatchSplits(f);
    } else if Split(f, SLASH) == [[STAR]] || TwoForRoot(Split(f, SLASH)) {
      SplitsMismatch(f);
    }
  }

  /** A path without wildcards of its own, the empty one or the root, matches only itself. */
  lemma LiteralFilterPath(f: Text, k: Text)
    requires (f == [] || f == [SLASH]) && KeptPath(k)
    ensures KeyMatches(PathEncode(f), PathEncode(k)) <==> f == k
    ensures PathMatches(f, k) <==> f == k
  {
    hide PathEncode;
    RootTokens();
    EmptyTokens();
    if k != [] && k != [SLASH] {
      PathTokens(k);
      ProperElements(k);
    }
    JoinOfSplit(k, SLASH);
    var two: seq<Text> := [[], []];
    assert two[1..] == [[]] && two[1..][1..] == [] && [ROOT][1..] == [];
    SameMatches(Split(f, SLASH), Split(k, SLASH));
    SameMatches(Split(PathEncode(f), DOT), Split(PathEncode(k), DOT));
  }

  lemma {:induction false} SameMatches(fs: seq<Text>, ks: seq<Text>)
    requires [STAR] !in fs && [GREATER] !in fs
    ensures Matches(fs, ks, [STAR], [GREATER]) <==> fs == ks
  {
    if fs != [] && ks != [] {
      assert fs[0] in fs && forall t :: t in fs[1..] ==> t in fs;
      SameMatches(fs[1..], ks[1..]);
      assert fs == [fs[0]] + fs[1..] && ks == [ks[0]] + ks[1..];
    }
  }

  lemma EmptyKey(f: Text)
    requires ProperPath(f)
    ensures KeyMatches(PathEncode(f), PathEncode([])) <==> PathMatches(f, [])
  {
    hide PathEncode;
    PathTokens(f);
    ProperElements(f);
    EmptyTokens();
    var fs, efs := Split(f, SLASH), Split(PathEncode(f), DOT);
    assert efs[1..] == fs[1..];
    var one: seq<Text> := [[]];
    assert one[1..] == [];
    if |fs| > 1 { assert !Matches(fs[1..], [], [STAR], [GREATER]); } else { assert fs[1..] == []; }
  }

  /** On kept paths the path codec preserves matching, element by element, with the root as
      the one exception, for five filters. */
  lemma PathMatchingExactly(f: Text, k: Text)
    requires KeptPath(f) && KeptPath(k)
    ensures (KeyMatches(PathEncode(f), PathEncode(k)) <==> PathMatches(f, k)) <==> !RootMismatch(f, k)
  {
    hide PathEncode, KeyMatches, PathMatches;
    if f == [] || f == [SLASH] {
      LiteralFilterPath(f, k);
    } else if k == [] {
      EmptyKey(f);
    } else if k == [SLASH] {
      RootKey(f);
    } else {
      ProperPreserves(f, k);
    }
  }

  /** So the filter "/>" for all absolute paths does not take the root once it is encoded. */
  lemma RootNotTaken()
    ensures PathMatches([SLASH, GREATER], [SLASH])
    ensures !KeyMatches(PathEncode([SLASH, GREATER]), PathEncode([SLASH]))
  {
    hide PathEncode;
    RootKey([SLASH, GREATER]);
    RootTokens();
    assert [SLASH, GREATER] == [] + [SLASH] + [GREATER];
    SplitHead([], [GREATER], SLASH);
    SplitWord([GREATER], SLASH);
    RootAsPath([[], [GREATER]]);
  }

  lemma TwoStages(a: KeyCodec, b: KeyCodec, text: Text)
    requires a.encode(text).Ok? && b.encode(a.encode(text).value).Ok?
    ensures ChainEncode([a, b], 0, text) == b.encode(a.encode(text).value)
  {
    assert ChainEncode([a, b], 1, a.encode(text).value) == b.encode(a.encode(text).value);
  }

  lemma TwoFilters(a: KeyCodec, b: KeyCodec, text: Text)
    requires a.filter.Some? && b.filter.Some?
    requires a.filter.value(text).Ok? && b.filter.value(a.filter.value(text).value).Ok?
    ensures ChainFilter([a, b], text) == b.filter.value(a.filter.value(text).value)
  {
    assert ChainFilterFrom([a, b], 1, a.filter.value(text).value) == b.filter.value(a.filter.value(text).value);
  }

  lemma ChainSteps(k: Text)
    ensures var c := ChainCodec(PathThenBase64());
      && c.encode(k) == Ok(EncodedKey(PathEncode(k))) && c.filter.value(k) == Ok(EncodedFilter(PathEncode(k)))
  {
    TwoStages(PathCodec(), Base64KeyCodec(), k);
    TwoFilters(PathCodec(), Base64KeyCodec(), k);
  }

  lemma ChainDecodes(k: Text)
    ensures ChainCodec(PathThenBase64()).decode(EncodedKey(PathEncode(k))) == Ok(PathDecode(PathEncode(k)))
  {
    hide PathEncode, PathDecode, EncodedKey, DecodedKey;
    var codecs := PathThenBase64();
    KeyRoundTrip(PathEncode(k));
    assert ChainDecode(codecs, 2, EncodedKey(PathEncode(k))) == ChainDecode(codecs, 1, PathEncode(k));
    assert ChainDecode(codecs, 1, PathEncode(k)) == ChainDecode(codecs, 0, PathDecode(PathEncode(k)));
  }

  /** The documented chain gives back exactly the kept paths, and on these an encoded filter
      matches an encoded key exactly when the filter matches the path, but for the root. */
  lemma PathThenBase64Faithful(f: Text, k: Text)
    ensures var c := ChainCodec(PathThenBase64());
      && (Inverts(c, k) <==> KeptPath(k))
      && c.encode(k).Ok? && c.filter.value(f).Ok?
      && (KeptPath(f) && KeptPath(k) ==>
            ((KeyMatches(c.filter.value(f).value, c.encode(k).value) <==> PathMatches(f, k)) <==> !RootMismatch(f, k)))
  {
    hide PathEncode, PathDecode, EncodedKey, EncodedFilter, DecodedKey, KeyMatches, PathMatches, RootMismatch, KeptPath;
    ChainSteps(k);
    ChainSteps(f);
    ChainDecodes(k);
    KeptExactly(k);
    if KeptPath(f) && KeptPath(k) {
      PathMatchingExactly(f, k);
      FilterMatchesEncoded(PathEncode(f), PathEncode(k));
    }
  }

  // Base64, then paths

  lemma {:induction false} DecodesOnlyDigits(s: Text)
    requires DecodeDigits(s).Some?
    ensures SLASH !in s
  {
    if |s| >= 4 {
      DecodesOnlyDigits(s[4..]);
      assert s == s[..4] + s[4..];
    }
  }

  lemma {:induction false} SlashStays(s: Text)
    requires SLASH in s
    ensures SLASH in SkipBreaks(s)
  {
    if s[0] != SLASH { SlashStays(s[1..]); }
  }

  lemma EncodeIsNotRoot(k: Text)
    ensures Encode(k) != ROOT
  {
    EncodeAlphabet(k);
    if |k| == 4 {
      assert Encode(k)[5] == Encode(k[3..])[1] == Digit(k[3] as int % 4 * 16);
    }
  }

  lemma SlashFromDot(e: Text)
    requires DOT in e
    ensures SLASH in PathDecode(e)
  {
    var i :| 0 <= i < |e| && e[i] == DOT;
    if ROOT + [DOT] <= e {
      assert PathDecode(e)[0] == SLASH;
    } else {
      assert PathDecode(e)[i] == SLASH;
    }
  }

  /** In the other order a chain gives back exactly the keys of a single token: base64 keeps
      the dots between tokens, and the path codec turns them into slashes for good. */
  lemma Base64ThenPathExactly(k: Text)
    ensures Inverts(ChainCodec([Base64KeyCodec(), PathCodec()]), k) <==> DOT !in k
  {
    hide PathEncode, PathDecode, EncodedKey, DecodedKey, Encode, Decode;
    var codecs := [Base64KeyCodec(), PathCodec()];
    var e := EncodedKey(k);
    TwoStages(Base64KeyCodec(), PathCodec(), k);
    KeyRoundTrip(k);
    var d := PathDecode(PathEncode(e));
    assert ChainDecode(codecs, 2, PathEncode(e)) == ChainDecode(codecs, 1, d);
    assert ChainDecode(codecs, 1, d) == match DecodedKey(d) case Ok(t) => Ok(t) case Err(_) => Err(Stage(0));
    if DOT in k {
      DottedIsLost(k);
    } else {
      SingleIsKept(k);
    }
  }

  lemma SingleIsKept(k: Text)
    requires DOT !in k
    ensures PathDecode(PathEncode(EncodedKey(k))) == EncodedKey(k)
  {
    SplitWord(k, DOT);
    var e := EncodedKey(k);
    assert e == Encode(k);
    EncodedWord(k);
    EncodeIsNotRoot(k);
    EncodeAlphabet(k);
    assert SLASH !in e by { assert !InAlphabet(SLASH); }
    assert e != [] ==> e[0] in e && e[|e| - 1] in e;
    assert |e| > 6 ==> e[6] in e;
    PathRoundTrip(e);
  }

  lemma DottedIsLost(k: Text)
    requires DOT in k
    ensures DecodedKey(PathDecode(PathEncode(EncodedKey(k)))) == Err(BadBase64)
  {
    var e := EncodedKey(k);
    EncodedHasDot(k);
    EncodedHasNoSlash(k);
    assert PathEncode(e) == e by {
      assert e != [] ==> e[|e| - 1] in e && e[0] in e;
      assert Trimmed(e) == e;
      assert forall i :: 0 <= i < |e| ==> e[i] in e;
    }
    SlashFromDot(e);
    var d := PathDecode(e);
    DecodeLeavesNoDot(e);
    SplitWord(d, DOT);
    SlashStays(d);
    if DecodeDigits(SkipBreaks(d)).Some? { DecodesOnlyDigits(SkipBreaks(d)); }
    assert Decode(d).None?;
    assert [d][..0] == [];
  }

  lemma EncodedHasDot(k: Text)
    requires DOT in k
    ensures DOT in EncodedKey(k)
  {
    EncodedSplit(k);
    if DOT !in EncodedKey(k) {
      SplitWord(EncodedKey(k), DOT);
      assert |Split(k, DOT)| == 1;
      JoinOfSplit(k, DOT);
      SplitFree(k, DOT);
    }
  }

  lemma EncodedHasNoSlash(k: Text)
    ensures SLASH !in EncodedKey(k)
  {
    var ts := EncodeTokens(Split(k, DOT));
    forall i | 0 <= i < |ts| ensures SLASH !in ts[i] {
      EncodeAlphabet(Split(k, DOT)[i]);
      assert !InAlphabet(SLASH);
    }
    JoinWithout(ts);
  }

  lemma {:induction false} JoinWithout(ts: seq<Text>)
    requires forall i :: 0 <= i < |ts| ==> SLASH !in ts[i]
    ensures SLASH !in Join(ts, DOT)
  {
    if |ts| > 1 { JoinWithout(ts[1..]); }
  }
}
