// The contract of the group's work-queue stream: consumers by name, each with its subject
// filters; two consumers may not take a common subject, nor may two filters of one consumer.
module Server {
  import opened Tokens
  import opened Ownership

  // When two filters take a common subject

  predicate Legal(f: seq<string>) { forall i :: 0 <= i < |f| - 1 ==> f[i] != ">" }

  predicate Collide(f: seq<string>, g: seq<string>) {
    if f == [] || g == [] then f == [] && g == []
    else if f[0] == ">" then |f| == 1 && Legal(g)
    else if g[0] == ">" then |g| == 1 && Legal(f)
    else (f[0] == "*" || g[0] == "*" || f[0] == g[0]) && Collide(f[1..], g[1..])
  }

  lemma {:induction false} MatchesLegal(f: seq<string>, s: seq<string>)
    requires Matches(f, s, "*", ">")
    ensures Legal(f)
  {
    if f != [] && f[0] != ">" {
      MatchesLegal(f[1..], s[1..]);
      forall i | 0 <= i < |f| - 1 ensures f[i] != ">" {
        if i > 0 { assert f[i] == f[1..][i - 1]; }
      }
    }
  }

  lemma {:induction false} CommonCollides(f: seq<string>, g: seq<string>, s: seq<string>)
    requires Matches(f, s, "*", ">") && Matches(g, s, "*", ">")
    ensures Collide(f, g)
  {
    MatchesLegal(f, s);
    MatchesLegal(g, s);
    if f != [] && g != [] && f[0] != ">" && g[0] != ">" {
      CommonCollides(f[1..], g[1..], s[1..]);
    }
  }

  /** Tokens that a legal filter matches: an "x" for every wildcard. */
  function Sample(f: seq<string>): (s: seq<string>)
    ensures |s| == |f|
    ensures forall i :: 0 <= i < |f| ==> s[i] == if f[i] == "*" || f[i] == ">" then "x" else f[i]
  {
    seq(|f|, i requires 0 <= i < |f| => if f[i] == "*" || f[i] == ">" then "x" else f[i])
  }

  lemma {:induction false} SampleMatches(f: seq<string>)
    requires Legal(f)
    ensures Matches(f, Sample(f), "*", ">")
    ensures Free(f, '.') ==> Free(Sample(f), '.')
  {
    if f != [] {
      forall i | 0 <= i < |f[1..]| - 1 ensures f[1..][i] != ">" { assert f[1..][i] == f[i + 1]; }
      SampleMatches(f[1..]);
      assert Sample(f)[1..] == Sample(f[1..]);
    }
  }

  lemma {:induction false} CollideWitness(f: seq<string>, g: seq<string>) returns (s: seq<string>)
    requires Collide(f, g) && Free(f, '.') && Free(g, '.')
    ensures Matches(f, s, "*", ">") && Matches(g, s, "*", ">") && Free(s, '.') && (s == [] <==> f == [])
  {
    if f == [] {
      s := [];
    } else if f[0] == ">" {
      SampleMatches(g);
      s := Sample(g);
    } else if g[0] == ">" {
      SampleMatches(f);
      s := Sample(f);
    } else {
      var more := CollideWitness(f[1..], g[1..]);
      s := [if f[0] != "*" then f[0] else if g[0] != "*" then g[0] else "x"] + more;
      assert s[1..] == more;
    }
  }

  predicate FiltersCollide(f: string, g: string) { Collide(Split(f, '.'), Split(g, '.')) }

  /** The token-wise test finds exactly the filters with a subject in common. */
  lemma CollideExactly(f: string, g: string)
    ensures FiltersCollide(f, g) <==> exists t :: SubjectMatches(f, t) && SubjectMatches(g, t)
  {
    forall t | SubjectMatches(f, t) && SubjectMatches(g, t) ensures FiltersCollide(f, g) {
      CommonCollides(Split(f, '.'), Split(g, '.'), Split(t, '.'));
    }
    if FiltersCollide(f, g) {
      SplitFree(f, '.');
      SplitFree(g, '.');
      var s := CollideWitness(Split(f, '.'), Split(g, '.'));
      SplitOfJoin(s, '.');
      assert SubjectMatches(f, Join(s, '.')) && SubjectMatches(g, Join(s, '.'));
    }
  }

  predicate Overlap(a: seq<string>, b: seq<string>) {
    exists i, j :: 0 <= i < |a| && 0 <= j < |b| && FiltersCollide(a[i], b[j])
  }

  predicate SelfDisjoint(fs: seq<string>) {
    forall i, j :: 0 <= i < j < |fs| ==> !FiltersCollide(fs[i], fs[j])
  }

  lemma OverlapExactly(a: seq<string>, b: seq<string>)
    ensures Overlap(a, b) <==> exists t :: AnyMatches(a, t) && AnyMatches(b, t)
  {
    if Overlap(a, b) {
      var i, j :| 0 <= i < |a| && 0 <= j < |b| && FiltersCollide(a[i], b[j]);
      CollideExactly(a[i], b[j]);
      var t :| SubjectMatches(a[i], t) && SubjectMatches(b[j], t);
      assert AnyMatches(a, t) && AnyMatches(b, t);
    }
    forall t | AnyMatches(a, t) && AnyMatches(b, t) ensures Overlap(a, b) {
      var i :| 0 <= i < |a| && SubjectMatches(a[i], t);
      var j :| 0 <= j < |b| && SubjectMatches(b[j], t);
      CollideExactly(a[i], b[j]);
    }
  }

  // Consumers

  type Consumers = map<string, seq<string>>

  /** The stream's one rule: nobody else takes a subject of these filters, and no two of
      them take the same. */
  predicate Admissible(cs: Consumers, name: string, filters: seq<string>) {
    SelfDisjoint(filters) && forall n :: n in cs && n != name ==> !Overlap(cs[n], filters)
  }

  /** How an API call went: done and answered, done but the answer lost, or not done. */
  datatype Reply = Answered | AnswerLost | NotDone

  datatype CreateResult = Created | Exists | Failed

  function Create(cs: Consumers, name: string, filters: seq<string>, reply: Reply): (Consumers, CreateResult) {
    if reply.NotDone? then (cs, Failed)
    else if name in cs then
      (cs, if reply.AnswerLost? then Failed else if cs[name] == filters then Created else Exists)
    else if !Admissible(cs, name, filters) then (cs, Failed)
    else (cs[name := filters], if reply.Answered? then Created else Failed)
  }

  function Delete(cs: Consumers, name: string, reply: Reply): (Consumers, bool) {
    if reply.NotDone? || name !in cs then (cs, false) else (cs - {name}, reply.Answered?)
  }

  ghost predicate Separate(cs: Consumers) {
    forall a, b :: a in cs && b in cs && a != b ==> !Overlap(cs[a], cs[b])
  }

  /** What calls on behalf of member `name` do: they leave the other consumers alone, and
      what they leave under its own name is unchanged or has the filters it wants. */
  ghost predicate OwnOnly(cs: Consumers, cs': Consumers, name: string, want: seq<string>) {
    && (forall n :: n != name ==> (n in cs <==> n in cs') && (n in cs ==> cs'[n] == cs[n]))
    && (name in cs' ==> cs'[name] == want || (name in cs && cs'[name] == cs[name]))
  }

  lemma OverlapSymmetric(a: seq<string>, b: seq<string>)
    ensures Overlap(a, b) <==> Overlap(b, a)
  {
    OverlapExactly(a, b);
    OverlapExactly(b, a);
  }

  lemma CreateSeparate(cs: Consumers, name: string, filters: seq<string>, reply: Reply)
    requires Separate(cs)
    ensures Separate(Create(cs, name, filters, reply).0)
  {
    forall n | n in cs ensures Overlap(cs[n], filters) <==> Overlap(filters, cs[n]) {
      OverlapSymmetric(cs[n], filters);
    }
  }

  lemma DeleteSeparate(cs: Consumers, name: string, reply: Reply)
    requires Separate(cs)
    ensures Separate(Delete(cs, name, reply).0)
  {
  }

  class JetStream {
    var consumers: Consumers

    constructor () ensures consumers == map[] { consumers := map[]; }

    method CreateConsumer(name: string, filters: seq<string>, reply: Reply) returns (r: CreateResult)
      modifies this
      ensures (consumers, r) == Create(old(consumers), name, filters, reply)
    {
      if reply.NotDone? { return Failed; }
      if name in consumers {
        if reply.AnswerLost? { return Failed; }
        return if consumers[name] == filters then Created else Exists;
      }
      if !Admissible(consumers, name, filters) { return Failed; }
      consumers := consumers[name := filters];
      r := if reply.Answered? then Created else Failed;
    }

    method DeleteConsumer(name: string, reply: Reply) returns (ok: bool)
      modifies this
      ensures (consumers, ok) == Delete(old(consumers), name, reply)
    {
      if reply.NotDone? || name !in consumers { return false; }
      consumers := consumers - {name};
      ok := reply.Answered?;
    }
  }
}
