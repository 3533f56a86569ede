// Dot-separated subjects and keys: splitting, joining, and NATS wildcard matching.
// Generic in the element type, because the consumer groups work on `string`
// subjects and the key-value codecs on byte sequences.
module Tokens {

  datatype Option<+T> = None | Some(value: T)

  /** strings.Split(s, sep) for a separator of one element. */
  function Split<T(==)>(s: seq<T>, sep: T): (r: seq<seq<T>>)
    ensures |r| >= 1
  {
    if s == [] then [[]]
    else
      var rest := Split(s[1..], sep);
      if s[0] == sep then [[]] + rest else [[s[0]] + rest[0]] + rest[1..]
  }

  /** strings.Join(ts, sep) for a separator of one element. */
  function Join<T>(ts: seq<seq<T>>, sep: T): seq<T> {
    if |ts| == 0 then []
    else if |ts| == 1 then ts[0]
    else ts[0] + [sep] + Join(ts[1..], sep)
  }

  ghost predicate Free<T>(ts: seq<seq<T>>, sep: T) {
    forall i :: 0 <= i < |ts| ==> sep !in ts[i]
  }

  /** NATS matching of filter tokens `f` against subject tokens `s`: `star` matches any one
      token, a final `rest` matches one or more, and a `rest` that is not final is not a
      legal filter and matches nothing. */
  predicate Matches<T(==)>(f: seq<T>, s: seq<T>, star: T, rest: T) {
    if f == [] then s == []
    else if f[0] == rest then |f| == 1 && s != []
    else s != [] && (f[0] == star || f[0] == s[0]) && Matches(f[1..], s[1..], star, rest)
  }

  lemma {:induction false} SplitFree<T>(s: seq<T>, sep: T)
    ensures Free(Split(s, sep), sep)
  {
    if s != [] {
      SplitFree(s[1..], sep);
    }
  }

  lemma {:induction false} JoinOfSplit<T>(s: seq<T>, sep: T)
    ensures Join(Split(s, sep), sep) == s
  {
    if s != [] {
      JoinOfSplit(s[1..], sep);
      var rest := Split(s[1..], sep);
      if s[0] == sep {
        assert ([[]] + rest)[1..] == rest;
      } else if |rest| > 1 {
        assert ([[s[0]] + rest[0]] + rest[1..])[1..] == rest[1..];
        assert Join(Split(s, sep), sep) == [s[0]] + (rest[0] + [sep] + Join(rest[1..], sep));
      } else {
        assert rest == [rest[0]];
      }
    }
  }

  lemma {:induction false} SplitWord<T>(a: seq<T>, sep: T)
    requires sep !in a
    ensures Split(a, sep) == [a]
  {
    if a != [] {
      SplitWord(a[1..], sep);
      assert [a[0]] + a[1..] == a;
    }
  }

  /** The first separator ends the first token. */
  lemma {:induction false} SplitHead<T>(a: seq<T>, b: seq<T>, sep: T)
    requires sep !in a
    ensures Split(a + [sep] + b, sep) == [a] + Split(b, sep)
  {
    var s := a + [sep] + b;
    if a == [] {
      assert s[1..] == b;
    } else {
      SplitHead(a[1..], b, sep);
      assert s[1..] == a[1..] + [sep] + b;
      assert [a[0]] + a[1..] == a;
      var rest := [a[1..]] + Split(b, sep);
      assert rest[1..] == Split(b, sep);
    }
  }

  lemma {:induction false} SplitOfJoin<T>(ts: seq<seq<T>>, sep: T)
    requires |ts| >= 1 && Free(ts, sep)
    ensures Split(Join(ts, sep), sep) == ts
  {
    if |ts| == 1 {
      SplitWord(ts[0], sep);
    } else {
      SplitOfJoin(ts[1..], sep);
      SplitHead(ts[0], Join(ts[1..], sep), sep);
      assert [ts[0]] + ts[1..] == ts;
    }
  }

  ghost predicate MatchesAt<T>(f: seq<T>, s: seq<T>, star: T, i: nat)
    requires i < |f| && i < |s|
  {
    f[i] == star || f[i] == s[i]
  }

  lemma AtTail<T>(f: seq<T>, s: seq<T>, star: T, rest: T, n: nat)
    requires 1 <= n <= |f| && n <= |s|
    ensures (forall i :: 0 <= i < n ==> f[i] != rest && MatchesAt(f, s, star, i)) <==>
      f[0] != rest && MatchesAt(f, s, star, 0)
      && forall i :: 0 <= i < n - 1 ==> f[1..][i] != rest && MatchesAt(f[1..], s[1..], star, i)
  {
    forall i | 0 <= i < n - 1
      ensures MatchesAt(f[1..], s[1..], star, i) <==> MatchesAt(f, s, star, i + 1)
    {
      assert f[1..][i] == f[i + 1] && s[1..][i] == s[i + 1];
    }
    if f[0] != rest && MatchesAt(f, s, star, 0)
      && forall i :: 0 <= i < n - 1 ==> f[1..][i] != rest && MatchesAt(f[1..], s[1..], star, i) {
      forall i | 0 <= i < n ensures f[i] != rest && MatchesAt(f, s, star, i) {
        if i > 0 { assert f[1..][i - 1] != rest && MatchesAt(f[1..], s[1..], star, i - 1); }
      }
    }
  }

  /** Position by position: every token but a final `rest` takes exactly one token, itself or
      anything, and a final `rest` takes the others, at least one. */
  lemma {:induction false} MatchesExactly<T>(f: seq<T>, s: seq<T>, star: T, rest: T)
    requires star != rest
    ensures Matches(f, s, star, rest) <==>
      var open := f != [] && f[|f| - 1] == rest;
      var n := if open then |f| - 1 else |f|;
      && (if open then |s| > n else |s| == n)
      && forall i :: 0 <= i < n ==> f[i] != rest && MatchesAt(f, s, star, i)
  {
    if f != [] && f[0] != rest && s != [] {
      MatchesExactly(f[1..], s[1..], star, rest);
      var n := if f[|f| - 1] == rest then |f| - 1 else |f|;
      if |s| >= n { AtTail(f, s, star, rest, n); }
    }
  }
}
