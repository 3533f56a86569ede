// The key and value codecs: base64 per token, paths, and chains.
module KeyCodecs {
  import opened Tokens
  import opened Base64

  datatype CodecError = BadBase64 | Stage(index: nat) | NotFilterable(index: nat) | NoCodecs

  datatype Result<+T> = Ok(value: T) | Err(error: CodecError)

  /** KeyCodec, with EncodeFilter when the codec is filterable. */
  datatype KeyCodec = KeyCodec(
    encode: Text -> Result<Text>,
    decode: Text -> Result<Text>,
    filter: Option<Text -> Result<Text>>
  )

  datatype ValueCodec = ValueCodec(encode: Text -> Result<Text>, decode: Text -> Result<Text>)

  /** Wildcard matching of a filter against a key, token by token. */
  predicate KeyMatches(filter: Text, key: Text) {
    Matches(Split(filter, DOT), Split(key, DOT), [STAR], [GREATER])
  }

  ghost predicate Inverts(c: KeyCodec, key: Text) {
    c.encode(key).Ok? && c.decode(c.encode(key).value) == Ok(key)
  }

  /** Encoded filters match encoded keys exactly when the plain ones match. */
  ghost predicate FilterPreserving(c: KeyCodec) {
    c.filter.Some? && forall f, k :: c.filter.value(f).Ok? && c.encode(k).Ok? ==>
      (KeyMatches(c.filter.value(f).value, c.encode(k).value) <==> KeyMatches(f, k))
  }

  // Base64, one token at a time

  function EncodeTokens(ts: seq<Text>): (r: seq<Text>)
    ensures |r| == |ts|
    ensures forall i :: 0 <= i < |ts| ==> r[i] == Encode(ts[i])
  {
    seq(|ts|, i requires 0 <= i < |ts| => Encode(ts[i]))
  }

  function EncodedKey(key: Text): Text { Join(EncodeTokens(Split(key, DOT)), DOT) }

  method EncodeKey(key: Text) returns (encoded: Text)
    ensures encoded == EncodedKey(key)
  {
    hide Encode;
    var tokens := Split(key, DOT);
    ghost var was := tokens;
    for i := 0 to |tokens|
      invariant |tokens| == |was|
      invariant forall k :: 0 <= k < |was| ==> tokens[k] == if k < i then Encode(was[k]) else was[k]
    {
      tokens := tokens[i := Encode(tokens[i])];
    }
    assert tokens == EncodeTokens(was);
    return Join(tokens, DOT);
  }

  function DecodeTokens(ts: seq<Text>): Option<seq<Text>> {
    if ts == [] then Some([])
    else
      var last := |ts| - 1;
      match (DecodeTokens(ts[..last]), Decode(ts[last]))
      case (Some(init), Some(t)) => Some(init + [t])
      case _ => None
  }

  function DecodedKey(key: Text): Result<Text> {
    match DecodeTokens(Split(key, DOT))
    case Some(ts) => Ok(Join(ts, DOT))
    case None => Err(BadBase64)
  }

  /** A key is decoded exactly when each of its tokens is, each at its own place. */
  lemma {:induction false} DecodeTokensExactly(ts: seq<Text>)
    ensures DecodeTokens(ts).Some? <==> forall i :: 0 <= i < |ts| ==> Decode(ts[i]).Some?
    ensures DecodeTokens(ts).Some? ==> var plain := DecodeTokens(ts).value;
      |plain| == |ts| && forall i :: 0 <= i < |ts| ==> Decode(ts[i]) == Some(plain[i])
  {
    hide Decode;
    if ts != [] { DecodeTokensExactly(ts[..|ts| - 1]); }
  }

  lemma {:induction false} DecodePrefix(ts: seq<Text>, i: nat)
    requires i <= |ts| && DecodeTokens(ts).Some?
    ensures DecodeTokens(ts[..i]).Some?
  {
    if i < |ts| {
      var init := ts[..|ts| - 1];
      DecodePrefix(init, i);
      assert init[..i] == ts[..i];
    } else {
      assert ts[..i] == ts;
    }
  }

  lemma DecodeFails(ts: seq<Text>, i: nat)
    requires i < |ts| && Decode(ts[i]).None?
    ensures DecodeTokens(ts).None?
  {
    hide Decode;
    assert ts[..i + 1][i] == ts[i];
    if DecodeTokens(ts).Some? { DecodePrefix(ts, i + 1); }
  }

  method DecodeKey(key: Text) returns (r: Result<Text>)
    ensures r == DecodedKey(key)
  {
    hide Decode;
    var tokens := Split(key, DOT);
    ghost var was := tokens;
    var decoded: seq<Text> := [];
    for i := 0 to |tokens|
      invariant DecodeTokens(was[..i]) == Some(decoded)
    {
      assert was[..i + 1] == was[..i] + [tokens[i]];
      var d := Decode(tokens[i]);
      if d.None? {
        DecodeFails(was, i);
        return Err(BadBase64);
      }
      DecodeTokensAppend(was[..i], tokens[i], decoded, d.value);
      decoded := decoded + [d.value];
    }
    assert was[..|was|] == was;
    return Ok(Join(decoded, DOT));
  }

  lemma DecodeTokensAppend(init: seq<Text>, t: Text, plain: seq<Text>, p: Text)
    requires DecodeTokens(init) == Some(plain) && Decode(t) == Some(p)
    ensures DecodeTokens(init + [t]) == Some(plain + [p])
  {
    hide Decode;
    assert (init + [t])[..|init|] == init;
  }

  lemma {:induction false} DecodeEncodedTokens(ts: seq<Text>)
    ensures DecodeTokens(EncodeTokens(ts)) == Some(ts)
  {
    hide Encode, Decode, DecodeTokens;
    if ts == [] {
      NothingToDecode();
    } else {
      var init, last := ts[..|ts| - 1], ts[|ts| - 1];
      DecodeEncodedTokens(init);
      RoundTrip(last);
      DecodeTokensAppend(EncodeTokens(init), Encode(last), init, last);
      assert EncodeTokens(ts) == EncodeTokens(init) + [Encode(last)];
      assert init + [last] == ts;
    }
  }

  lemma NothingToDecode()
    ensures DecodeTokens(EncodeTokens([])) == Some([])
  {
  }

  lemma EncodedTokensFree(ts: seq<Text>)
    ensures Free(EncodeTokens(ts), DOT)
  {
    forall i | 0 <= i < |ts| ensures DOT !in EncodeTokens(ts)[i] { EncodedWord(ts[i]); }
  }

  lemma EncodedSplit(key: Text)
    ensures Split(EncodedKey(key), DOT) == EncodeTokens(Split(key, DOT))
  {
    EncodedTokensFree(Split(key, DOT));
    SplitOfJoin(EncodeTokens(Split(key, DOT)), DOT);
  }

  /** Every key, empty tokens included, comes back from its encoding. */
  lemma KeyRoundTrip(key: Text)
    ensures DecodedKey(EncodedKey(key)) == Ok(key)
  {
    EncodedSplit(key);
    DecodeEncodedTokens(Split(key, DOT));
    JoinOfSplit(key, DOT);
  }

  // Values

  method EncodeValue(value: Text) returns (encoded: array<Byte>)
    ensures encoded[..] == Encode(value)
  {
    encoded := new Byte[EncodedLen(|value|)];
    EncodeAlphabet(value);
    var digits := Encode(value);
    forall i | 0 <= i < encoded.Length { encoded[i] := digits[i]; }
  }

  method DecodeValue(value: Text) returns (r: Result<Text>)
    ensures r == match Decode(value) case Some(v) => Ok(v) case None => Err(BadBase64)
  {
    var decoded := new Byte[DecodedLen(|value|)];
    var d := Decode(value);
    if d.None? { return Err(BadBase64); }
    DecodeFits(value);
    var n := |d.value|;
    forall i | 0 <= i < n { decoded[i] := d.value[i]; }
    assert decoded[..n] == d.value;
    return Ok(decoded[..n]);
  }

  // Filters

  predicate IsWildcard(t: Text) { t == [GREATER] || t == [STAR] }

  function FilterTokens(ts: seq<Text>): (r: seq<Text>)
    ensures |r| == |ts|
    ensures forall i :: 0 <= i < |ts| ==> r[i] == if IsWildcard(ts[i]) then ts[i] else Encode(ts[i])
  {
    seq(|ts|, i requires 0 <= i < |ts| => if IsWildcard(ts[i]) then ts[i] else Encode(ts[i]))
  }

  function EncodedFilter(filter: Text): Text { Join(FilterTokens(Split(filter, DOT)), DOT) }

  method EncodeFilter(filter: Text) returns (encoded: Text)
    ensures encoded == EncodedFilter(filter)
  {
    hide Encode;
    var tokens := Split(filter, DOT);
    var encodedTokens: seq<Text> := [];
    for i := 0 to |tokens|
      invariant encodedTokens == FilterTokens(tokens[..i])
    {
      if tokens[i] == [GREATER] || tokens[i] == [STAR] {
        encodedTokens := encodedTokens + [tokens[i]];
      } else {
        encodedTokens := encodedTokens + [Encode(tokens[i])];
      }
    }
    assert tokens[..|tokens|] == tokens;
    return Join(encodedTokens, DOT);
  }

  lemma {:induction false} TokensMatchEncoded(fs: seq<Text>, ks: seq<Text>)
    ensures Matches(FilterTokens(fs), EncodeTokens(ks), [STAR], [GREATER]) <==> Matches(fs, ks, [STAR], [GREATER])
  {
    var efs, eks := FilterTokens(fs), EncodeTokens(ks);
    if fs != [] {
      EncodedWord(fs[0]);
      if ks != [] && fs[0] != [GREATER] {
        TokensMatchEncoded(fs[1..], ks[1..]);
        assert efs[1..] == FilterTokens(fs[1..]) && eks[1..] == EncodeTokens(ks[1..]);
        if Encode(fs[0]) == Encode(ks[0]) { EncodeInjective(fs[0], ks[0]); }
      }
    }
  }

  /** Every filter matches every key exactly when their encodings match. */
  lemma FilterMatchesEncoded(filter: Text, key: Text)
    ensures KeyMatches(EncodedFilter(filter), EncodedKey(key)) <==> KeyMatches(filter, key)
  {
    var fs := Split(filter, DOT);
    SplitFree(filter, DOT);
    forall i | 0 <= i < |fs| ensures DOT !in FilterTokens(fs)[i] { EncodedWord(fs[i]); }
    SplitOfJoin(FilterTokens(fs), DOT);
    EncodedSplit(key);
    TokensMatchEncoded(fs, Split(key, DOT));
  }

  function Base64KeyCodec(): KeyCodec {
    KeyCodec(k => Ok(EncodedKey(k)), k => DecodedKey(k), Some(f => Ok(EncodedFilter(f))))
  }

  lemma Base64KeyCodecFaithful(key: Text)
    ensures Inverts(Base64KeyCodec(), key) && FilterPreserving(Base64KeyCodec())
  {
    KeyRoundTrip(key);
    forall f, k ensures KeyMatches(EncodedFilter(f), EncodedKey(k)) <==> KeyMatches(f, k) {
      FilterMatchesEncoded(f, k);
    }
  }

  // Paths

  /** "_root_" */
  const ROOT: Text := [95, 114, 111, 111, 116, 95]

  function ReplaceAll(s: Text, from: Byte, to: Byte): (r: Text)
    ensures |r| == |s|
    ensures forall i :: 0 <= i < |s| ==> r[i] == if s[i] == from then to else s[i]
  {
    seq(|s|, i requires 0 <= i < |s| => if s[i] == from then to else s[i])
  }

  /** A path without one trailing slash; the root stays as it is. */
  function Trimmed(s: Text): Text {
    if s != [] && s[|s| - 1] == SLASH then s[..|s| - 1] else s
  }

  /** One slash goes from the end, and only from there. */
  lemma TrimmedExactly(s: Text)
    ensures Trimmed(s + [SLASH]) == s
    ensures s == [] || s[|s| - 1] as int != '/' as int ==> Trimmed(s) == s
    ensures |ROOT| == |"_root_"| && forall i :: 0 <= i < |ROOT| ==> ROOT[i] as int == "_root_"[i] as int
  {
    assert |ROOT| == 6 && |"_root_"| == 6;
  }

  function PathEncode(key: Text): Text {
    if [SLASH] <= key then
      if key == [SLASH] then ROOT
      else ReplaceAll(Trimmed(ROOT + [DOT] + key[1..]), SLASH, DOT)
    else ReplaceAll(Trimmed(key), SLASH, DOT)
  }

  function PathDecode(key: Text): Text {
    if key == ROOT then [SLASH]
    else if ROOT + [DOT] <= key then [SLASH] + ReplaceAll(key[7..], DOT, SLASH)
    else ReplaceAll(key, DOT, SLASH)
  }

  function PathCodec(): KeyCodec {
    KeyCodec(k => Ok(PathEncode(k)), k => Ok(PathDecode(k)), Some(f => Ok(PathEncode(f))))
  }

  /** What a path comes back as. */
  function NormalPath(key: Text): Text { if key == [SLASH] then key else Trimmed(key) }

  /** Paths that can be told from their encodings: no dot, and no "_root_" in first place. */
  predicate PlainPath(key: Text) {
    DOT !in key && key != ROOT && !(ROOT + [SLASH] <= key)
  }

  lemma ReplaceBack(s: Text)
    requires DOT !in s
    ensures ReplaceAll(ReplaceAll(s, SLASH, DOT), DOT, SLASH) == s
  {
    forall i | 0 <= i < |s| ensures ReplaceAll(ReplaceAll(s, SLASH, DOT), DOT, SLASH)[i] == s[i] {
      assert s[i] in s;
    }
  }

  lemma DecodeLeavesNoDot(e: Text)
    ensures DOT !in PathDecode(e)
  {
  }

  lemma AbsoluteEncodes(key: Text)
    requires [SLASH] <= key && key != [SLASH]
    ensures PathEncode(key) == ROOT + [DOT] + ReplaceAll(Trimmed(key[1..]), SLASH, DOT)
  {
    assert Trimmed(ROOT + [DOT] + key[1..]) == ROOT + [DOT] + Trimmed(key[1..]);
  }

  /** Only a path with "_root_" in first place is mistaken for an absolute one. */
  lemma RelativeIsNotRoot(key: Text)
    requires DOT !in key
    ensures var e := ReplaceAll(Trimmed(key), SLASH, DOT);
      e == ROOT || ROOT + [DOT] <= e ==> !PlainPath(key)
  {
    var t := Trimmed(key);
    var e := ReplaceAll(t, SLASH, DOT);
    assert forall i :: 0 <= i < |t| ==> t[i] in key;
    if e == ROOT {
      assert forall i :: 0 <= i < 6 ==> e[i] == t[i];
      assert t == ROOT;
      if |key| > 6 { assert key == ROOT + [SLASH]; }
    } else if ROOT + [DOT] <= e {
      assert forall i :: 0 <= i < 7 ==> e[i] == (ROOT + [DOT])[i];
      assert forall i :: 0 <= i < 7 ==> key[i] == t[i] == (ROOT + [SLASH])[i];
      assert key[..7] == ROOT + [SLASH];
    }
  }

  lemma AbsoluteDecodes(rest: Text)
    ensures PathDecode(ROOT + [DOT] + rest) == [SLASH] + ReplaceAll(rest, DOT, SLASH)
  {
    hide ReplaceAll;
    var e := ROOT + [DOT] + rest;
    assert e[7..] == rest;
  }

  lemma TrimmedTail(key: Text)
    requires [SLASH] <= key && key != [SLASH]
    ensures Trimmed(key) == [SLASH] + Trimmed(key[1..])
    ensures DOT !in key ==> DOT !in Trimmed(key[1..])
  {
    assert key == [SLASH] + key[1..];
    assert forall i :: 0 <= i < |Trimmed(key[1..])| ==> Trimmed(key[1..])[i] == key[i + 1];
  }

  lemma AbsoluteRoundTrip(key: Text)
    requires [SLASH] <= key && key != [SLASH] && DOT !in key
    ensures PathDecode(PathEncode(key)) == Trimmed(key)
  {
    hide ReplaceAll, PathEncode, PathDecode, Trimmed;
    AbsoluteEncodes(key);
    TrimmedTail(key);
    var rest := Trimmed(key[1..]);
    ReplaceBack(rest);
    AbsoluteDecodes(ReplaceAll(rest, SLASH, DOT));
  }

  lemma PathRoundTrip(key: Text)
    requires PlainPath(key)
    ensures PathDecode(PathEncode(key)) == NormalPath(key)
  {
    if [SLASH] <= key {
      if key != [SLASH] { AbsoluteRoundTrip(key); }
    } else {
      RelativeIsNotRoot(key);
      ReplaceBack(Trimmed(key));
    }
  }

  lemma RootPathEncodes(key: Text)
    requires key == ROOT || ROOT + [SLASH] <= key
    ensures var e := PathEncode(key); e == ROOT || ROOT + [DOT] <= e
    ensures key[0] == 95 && NormalPath(key) != [] && NormalPath(key)[0] == 95
  {
    assert key[0] == ROOT[0] == 95;
    var t := Trimmed(key);
    var e := ReplaceAll(t, SLASH, DOT);
    assert PathEncode(key) == e && NormalPath(key) == t;
    assert |t| >= 6;
    forall i | 0 <= i < 6 ensures e[i] == t[i] == ROOT[i] {
      assert key[i] == (ROOT + [SLASH])[i];
    }
    if |t| == 6 {
      assert e == ROOT;
    } else {
      assert key[6] == (ROOT + [SLASH])[6] == SLASH;
      assert e[..7] == ROOT + [DOT];
    }
  }

  lemma RootPathDecodes(key: Text)
    requires key == ROOT || ROOT + [SLASH] <= key
    ensures PathDecode(PathEncode(key)) != [] && PathDecode(PathEncode(key))[0] == SLASH
  {
    hide ReplaceAll, PathEncode;
    RootPathEncodes(key);
  }

  lemma RootPathLost(key: Text)
    requires key == ROOT || ROOT + [SLASH] <= key
    ensures PathDecode(PathEncode(key)) != NormalPath(key)
  {
    hide ReplaceAll, PathEncode, PathDecode, NormalPath;
    RootPathEncodes(key);
    RootPathDecodes(key);
  }

  /** A path survives encoding, up to one trailing slash, exactly when it has no dot and its
      first element is not "_root_". */
  lemma PathRoundTripExactly(key: Text)
    ensures PathDecode(PathEncode(key)) == NormalPath(key) <==> PlainPath(key)
  {
    hide PathEncode, PathDecode;
    if PlainPath(key) {
      PathRoundTrip(key);
    } else if DOT in key {
      DecodeLeavesNoDot(PathEncode(key));
      var i :| 0 <= i < |key| && key[i] == DOT;
      assert NormalPath(key)[i] == DOT;
    } else {
      RootPathLost(key);
    }
  }

  lemma EncodeLeavesNoSlash(k: Text)
    ensures SLASH !in PathEncode(k)
  {
  }

  lemma StoredRest(e: Text)
    requires SLASH !in e
    ensures ReplaceAll(Trimmed(ReplaceAll(e, DOT, SLASH)), SLASH, DOT) == e <==> e == [] || e[|e| - 1] != DOT
  {
    var k := ReplaceAll(e, DOT, SLASH);
    if e == [] || e[|e| - 1] != DOT {
      assert e != [] ==> e[|e| - 1] in e;
      assert Trimmed(k) == k;
      forall i | 0 <= i < |e| ensures ReplaceAll(k, SLASH, DOT)[i] == e[i] { assert e[i] in e; }
    }
  }

  lemma StoredAbsolute(rest: Text)
    requires SLASH !in rest
    ensures PathEncode(PathDecode(ROOT + [DOT] + rest)) == ROOT + [DOT] + rest <==>
      rest != [] && rest[|rest| - 1] != DOT
  {
    hide PathDecode, PathEncode;
    var e := ROOT + [DOT] + rest;
    var k := PathDecode(e);
    AbsoluteDecodes(rest);
    if rest == [] {
      RootEncodes();
      assert k == [SLASH];
    } else {
      assert k[1..] == ReplaceAll(rest, DOT, SLASH) && k[0] == SLASH;
      AbsoluteEncodes(k);
      StoredRest(rest);
      SameTail(ROOT + [DOT], rest, ReplaceAll(Trimmed(k[1..]), SLASH, DOT));
    }
  }

  lemma SameTail(a: Text, b: Text, c: Text)
    ensures a + b == a + c <==> b == c
  {
    assert (a + b)[|a|..] == b && (a + c)[|a|..] == c;
  }

  lemma RootEncodes()
    ensures PathEncode([SLASH]) == ROOT
  {
  }

  lemma StoredRelative(e: Text)
    requires SLASH !in e && e != ROOT && !(ROOT + [DOT] <= e)
    ensures PathEncode(PathDecode(e)) == e <==> e == [] || (e[0] != DOT && e[|e| - 1] != DOT)
  {
    var k := ReplaceAll(e, DOT, SLASH);
    assert PathDecode(e) == k;
    StoredRest(e);
    if e != [] && e[0] == DOT {
      assert k[0] == SLASH;
      RootEncodes();
      if k != [SLASH] { AbsoluteEncodes(k); }
      assert PathEncode(k)[0] == 95;
    } else {
      assert PathEncode(k) == ReplaceAll(Trimmed(k), SLASH, DOT);
    }
  }

  /** A stored key survives decoding exactly when it has no slash and neither begins nor ends
      with a dot. */
  lemma StoredRoundTripExactly(e: Text)
    ensures PathEncode(PathDecode(e)) == e <==> SLASH !in e && (e == [] || (e[0] != DOT && e[|e| - 1] != DOT))
  {
    hide PathDecode, PathEncode;
    if SLASH in e {
      EncodeLeavesNoSlash(PathDecode(e));
    } else if e == ROOT {
      RootEncodes();
      RootDecodes();
    } else if ROOT + [DOT] <= e {
      assert e == ROOT + [DOT] + e[7..];
      StoredAbsolute(e[7..]);
    } else {
      StoredRelative(e);
    }
  }

  lemma RootDecodes()
    ensures PathDecode(ROOT) == [SLASH]
  {
  }
}
