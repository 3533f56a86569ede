// Member names: byte order, de-duplication and sorting. A roster depends on the set of
// names only, never on the order in which a membership list happens to be stored.
module Names {

  ghost predicate Distinct<T>(s: seq<T>) {
    forall i, j :: 0 <= i < j < |s| ==> s[i] != s[j]
  }

  function Elements<T(==)>(s: seq<T>): set<T> { set x | x in s }

  lemma DistinctAppend<T>(s: seq<T>, x: T)
    requires Distinct(s) && x !in s
    ensures Distinct(s + [x])
  {
  }

  lemma ElementsAppend<T>(s: seq<T>, x: T)
    ensures Elements(s + [x]) == Elements(s) + {x}
  {
  }

  /** Go's `<` on strings. */
  predicate Less(a: string, b: string) {
    if a == [] then b != []
    else b != [] && (a[0] < b[0] || (a[0] == b[0] && Less(a[1..], b[1..])))
  }

  lemma {:induction false} LessTransitive(a: string, b: string, c: string)
    requires Less(a, b) && Less(b, c)
    ensures Less(a, c)
  {
    if a != [] && a[0] == b[0] && b[0] == c[0] {
      LessTransitive(a[1..], b[1..], c[1..]);
    }
  }

  lemma {:induction false} LessTotal(a: string, b: string)
    ensures (if Less(a, b) then 1 else 0) + (if a == b then 1 else 0) + (if Less(b, a) then 1 else 0) == 1
  {
    if a != [] && b != [] && a[0] == b[0] {
      LessTotal(a[1..], b[1..]);
      assert a == [a[0]] + a[1..] && b == [b[0]] + b[1..];
    }
  }

  /** The names are the same before place i, and the first is smaller there. */
  ghost predicate SmallerAt(a: string, b: string, i: nat) { i < |a| && i < |b| && a[..i] == b[..i] && a[i] < b[i] }

  lemma SmallerLater(a: string, b: string, i: nat)
    requires a != [] && b != [] && a[0] == b[0]
    ensures SmallerAt(a[1..], b[1..], i) <==> SmallerAt(a, b, i + 1)
  {
    if i < |a| - 1 && i < |b| - 1 {
      assert a[..i + 1] == [a[0]] + a[1..][..i] && b[..i + 1] == [b[0]] + b[1..][..i];
      assert a[1..][..i] == a[..i + 1][1..] && b[1..][..i] == b[..i + 1][1..];
    }
  }

  /** Byte order: the first difference decides, and a proper prefix comes first. */
  lemma {:induction false} LessExactly(a: string, b: string)
    ensures Less(a, b) <==> a < b || exists i :: SmallerAt(a, b, i)
  {
    if a != [] && b != [] {
      if a[0] != b[0] {
        assert SmallerAt(a, b, 0) <==> a[0] < b[0];
      } else {
        var a', b' := a[1..], b[1..];
        LessExactly(a', b');
        assert a == [a[0]] + a' && b == [b[0]] + b';
        forall i: nat ensures SmallerAt(a', b', i) <==> SmallerAt(a, b, i + 1) { SmallerLater(a, b, i); }
        if i: nat :| SmallerAt(a, b, i) { if i > 0 { assert SmallerAt(a', b', i - 1); } }
      }
    }
  }

  ghost predicate StrictlySorted(s: seq<string>) {
    forall i, j :: 0 <= i < j < |s| ==> Less(s[i], s[j])
  }

  function Insert(x: string, s: seq<string>): (r: seq<string>)
    requires StrictlySorted(s)
    ensures StrictlySorted(r)
    ensures forall y :: y in r <==> y == x || y in s
    ensures x !in s ==> |r| == |s| + 1
  {
    if s == [] then [x]
    else
      LessTotal(x, s[0]);
      if Less(x, s[0]) then
        assert forall j :: 0 < j < |s| ==> Less(x, s[j]) by {
          forall j | 0 < j < |s| ensures Less(x, s[j]) { LessTransitive(x, s[0], s[j]); }
        }
        [x] + s
      else if x == s[0] then s
      else
        var t := Insert(x, s[1..]);
        assert forall j :: 0 <= j < |t| ==> t[j] in t;
        [s[0]] + t
  }

  /** slices.Sort on a list without duplicates. */
  function Sort(s: seq<string>): (r: seq<string>)
    ensures StrictlySorted(r)
    ensures forall y :: y in r <==> y in s
    ensures Distinct(s) ==> |r| == |s|
  {
    if s == [] then [] else Insert(s[0], Sort(s[1..]))
  }

  lemma {:induction false} SortedUnique(a: seq<string>, b: seq<string>)
    requires StrictlySorted(a) && StrictlySorted(b)
    requires forall y :: y in a <==> y in b
    ensures a == b
  {
    assert a != [] ==> a[0] in b;
    assert b != [] ==> b[0] in a;
    if a != [] && b != [] {
      LessTotal(a[0], b[0]);
      assert a[0] == b[0];
      forall y ensures y in a[1..] <==> y in b[1..] {
        LessTotal(a[0], a[0]);
        assert y in a <==> y == a[0] || y in a[1..];
        assert y in b <==> y == b[0] || y in b[1..];
      }
      SortedUnique(a[1..], b[1..]);
      assert a == [a[0]] + a[1..] && b == [b[0]] + b[1..];
    }
  }

  lemma SortedDistinct(s: seq<string>)
    requires StrictlySorted(s)
    ensures Distinct(s)
  {
    forall i, j | 0 <= i < j < |s| ensures s[i] != s[j] { LessTotal(s[i], s[j]); }
  }

  /** First occurrences, in order. */
  function Firsts<T(==)>(s: seq<T>): seq<T> {
    if s == [] then []
    else
      var init := s[..|s| - 1];
      if s[|s| - 1] in init then Firsts(init) else Firsts(init) + [s[|s| - 1]]
  }

  /** Where an element first occurs; the length of the list if it does not. */
  function FirstAt(s: seq<string>, x: string): (i: nat)
    ensures i <= |s| && (i < |s| ==> s[i] == x) && forall j :: 0 <= j < i ==> s[j] != x
  {
    if s == [] || s[0] == x then 0 else 1 + FirstAt(s[1..], x)
  }

  lemma FirstAtAppend(s: seq<string>, t: seq<string>, x: string)
    requires x in s
    ensures FirstAt(s + t, x) == FirstAt(s, x)
  {
    var i, j := FirstAt(s, x), FirstAt(s + t, x);
    assert i < |s| && (s + t)[i] == x;
    if j < i { assert s[j] == (s + t)[j]; }
  }

  lemma {:induction false} FirstsElements(s: seq<string>)
    ensures forall y :: y in Firsts(s) <==> y in s
    ensures Distinct(Firsts(s))
  {
    if s != [] {
      FirstsElements(s[..|s| - 1]);
    }
  }

  /** What is kept stands in the order in which it first occurs. */
  lemma {:induction false} FirstsExactly(s: seq<string>)
    ensures forall i, j :: 0 <= i < j < |Firsts(s)| ==> FirstAt(s, Firsts(s)[i]) < FirstAt(s, Firsts(s)[j])
  {
    if s != [] {
      var init, last := s[..|s| - 1], s[|s| - 1];
      FirstsExactly(init);
      FirstsElements(init);
      assert s == init + [last];
      forall x | x in init ensures FirstAt(s, x) == FirstAt(init, x) { FirstAtAppend(init, [last], x); }
      assert forall i :: 0 <= i < |Firsts(init)| ==> Firsts(init)[i] in init;
      if last !in init { assert FirstAt(s, last) == |init|; }
    }
  }

  /** deduplicateStringSlice. */
  method Deduplicate(slice: seq<string>) returns (distinct: seq<string>)
    ensures distinct == Firsts(slice)
    ensures Distinct(distinct) && Elements(distinct) == Elements(slice)
  {
    var seen: set<string> := {};
    distinct := [];
    for i := 0 to |slice|
      invariant seen == Elements(slice[..i]) == Elements(distinct)
      invariant Distinct(distinct) && distinct == Firsts(slice[..i])
    {
      assert slice[..i + 1][..i] == slice[..i];
      if slice[i] !in seen {
        seen := seen + {slice[i]};
        distinct := distinct + [slice[i]];
      }
    }
    assert slice[..|slice|] == slice;
  }
}
