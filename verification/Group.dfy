// A whole elastic group: the stored config, any number of instances of every member, and the
// stream's consumers. Every call to the server is a step of its own, and the steps of
// administrators, instances and the stream come in any order.
module Group {
  import opened Config
  import opened Allocation
  import opened Ownership
  import opened Server
  import opened Instance
  import opened Decimal
  import opened Tokens
  import opened Transform
  import Membership
  import Team

  /** What tells the instances of a group apart, whichever members they run for. */
  type Id = string

  datatype Seat = Seat(name: string, inst: Inst, todo: Todo)

  datatype Group = Group(config: Config, seats: map<Id, Seat>, consumers: Consumers)

  datatype Label =
    | Write(config: Config)        // an administrator stores a config
    | Start(id: Id, name: string)  // an instance of a member starts
    | Handle(id: Id, event: Event) // an instance takes in an event
    | Call(id: Id, io: JoinIO)     // an instance makes its next call to the server
    | Expire(name: string)         // the stream drops a consumer, whoever draws on it

  ghost predicate Enabled(g: Group, l: Label) {
    match l
    case Write(c) => Valid(c) && c.Fixed() == g.config.Fixed()
    case Start(id, _) => id !in g.seats || g.seats[id].inst.done != []
    case Handle(id, _) => id in g.seats && g.seats[id].todo.Rest? && g.seats[id].inst.done == []
    case Call(id, _) => id in g.seats && !g.seats[id].todo.Rest?
    case Expire(n) => n in g.consumers
  }

  ghost function After(g: Group, l: Label): Group
    requires Enabled(g, l)
  {
    match l
    case Write(c) => g.(config := c)
    case Start(id, m) =>
      g.(seats := g.seats[id := Seat(m, Blank(g.config), if g.config.IsInMembership(m) then Make else Rest)])
    case Handle(id, e) =>
      var (inst, todo) := Begin(g.seats[id].inst, g.seats[id].name, e);
      g.(seats := g.seats[id := Seat(g.seats[id].name, inst, todo)])
    case Call(id, io) =>
      var s := g.seats[id];
      var (inst, todo, cs) := Instance.Call(s.inst, s.todo, g.consumers, s.name, io);
      g.(seats := g.seats[id := Seat(s.name, inst, todo)], consumers := cs)
    case Expire(n) => g.(consumers := g.consumers - {n})
  }

  ghost predicate Feasible(g: Group, run: seq<Label>)
    decreases run
  {
    run == [] || (Enabled(g, run[0]) && Feasible(After(g, run[0]), run[1..]))
  }

  ghost function Final(g: Group, run: seq<Label>): Group
    requires Feasible(g, run)
    decreases run
  {
    if run == [] then g else Final(After(g, run[0]), run[1..])
  }

  /** Start of a group: a stored config, no instance, no consumer. */
  ghost predicate Fresh(g: Group) { Valid(g.config) && g.seats == map[] && g.consumers == map[] }

  // Safety

  ghost predicate GroupSound(g: Group) {
    && Valid(g.config)
    && Separate(g.consumers)
    && forall id :: id in g.seats ==>
         && Midway(g.seats[id].inst, g.seats[id].todo, g.seats[id].name)
         && g.seats[id].inst.config.Fixed() == g.config.Fixed()
  }

  /** Every step of every participant keeps the group sound. */
  lemma StepKeepsSound(g: Group, l: Label)
    requires GroupSound(g) && Enabled(g, l)
    ensures GroupSound(After(g, l))
  {
    hide ConsumerFilters, Instance.Call, Begin, Valid;
    match l {
      case Write(c) =>
      case Expire(n) =>
      case Start(id, m) =>
      case Handle(id, e) => BeginMidway(g.seats[id].inst, g.seats[id].name, e);
      case Call(id, io) => CallMidway(g.seats[id].inst, g.seats[id].todo, g.consumers, g.seats[id].name, io);
    }
  }

  /** Filters that some config of the group, past or present, gives a member. */
  ghost predicate FromConfig(c: Config, name: string, filters: seq<string>) {
    exists d :: Valid(d) && d.Fixed() == c.Fixed() && filters == ConsumerFilters(d, name)
  }

  ghost predicate Derived(g: Group) {
    forall n :: n in g.consumers ==> FromConfig(g.config, n, g.consumers[n])
  }

  lemma OwnDerived(c: Config, cs: Consumers, cs': Consumers, name: string, want: seq<string>)
    requires OwnOnly(cs, cs', name, want) && FromConfig(c, name, want)
    requires forall n :: n in cs ==> FromConfig(c, n, cs[n])
    ensures forall n :: n in cs' ==> FromConfig(c, n, cs'[n])
  {
  }

  lemma StepKeepsDerived(g: Group, l: Label)
    requires GroupSound(g) && Enabled(g, l) && Derived(g)
    ensures Derived(After(g, l)) && After(g, l).config.Fixed() == g.config.Fixed()
  {
    hide ConsumerFilters, Instance.Call, Begin, Valid;
    match l {
      case Write(c) =>
        forall n | n in g.consumers ensures FromConfig(c, n, g.consumers[n]) {
          SameFixedDerived(g.config, c, n, g.consumers[n]);
        }
      case Expire(n) =>
      case Start(id, m) =>
      case Handle(id, e) =>
      case Call(id, io) =>
        var s := g.seats[id];
        CallMidway(s.inst, s.todo, g.consumers, s.name, io);
        assert FromConfig(g.config, s.name, ConsumerFilters(s.inst.config, s.name));
        OwnDerived(g.config, g.consumers, After(g, l).consumers, s.name, ConsumerFilters(s.inst.config, s.name));
    }
  }

  lemma SameFixedDerived(c: Config, c': Config, n: string, filters: seq<string>)
    requires c.Fixed() == c'.Fixed() && FromConfig(c, n, filters)
    ensures FromConfig(c', n, filters)
  {
  }

  lemma {:induction false} RunKeepsDerived(g: Group, run: seq<Label>)
    requires GroupSound(g) && Derived(g) && Feasible(g, run)
    ensures GroupSound(Final(g, run)) && Derived(Final(g, run)) && Final(g, run).config.Fixed() == g.config.Fixed()
    decreases run
  {
    hide GroupSound, Derived, Enabled, After;
    if run != [] {
      StepKeepsSound(g, run[0]);
      StepKeepsDerived(g, run[0]);
      RunKeepsDerived(After(g, run[0]), run[1..]);
    }
  }

  /** Whoever takes one sourced subject of a partition takes all of them. */
  lemma WholePartition(c: Config, name: string, p: nat, s: string, t: string)
    requires Valid(c) && Owns(c, name, Numeral(p) + "." + s) && Sourced(c, t)
    ensures Owns(c, name, Numeral(p) + "." + t)
  {
    hide ConsumerFilters, PartitionsOf;
    NumeralWord(p);
    SplitHead(Numeral(p), s, '.');
    var q := OwnedPartition(c, name, Numeral(p) + "." + s);
    HeldInRange(c, name, q);
    NumeralInjective(p, q);
    var k :| 0 <= k < |Partitions(c, name)| && Partitions(c, name)[k] == p;
    OwnerTakes(c, name, k, t);
  }

  lemma SoundParts(g: Group)
    requires GroupSound(g)
    ensures Valid(g.config) && Separate(g.consumers)
  {
  }

  lemma OneTaker(cs: Consumers, a: string, b: string, subject: string)
    requires Separate(cs) && a in cs && b in cs && AnyMatches(cs[a], subject) && AnyMatches(cs[b], subject)
    ensures a == b
  {
    OverlapExactly(cs[a], cs[b]);
  }

  /** At no moment of any run are two subjects of one partition delivered to two members,
      even where the consumers still stem from different configs. */
  lemma PartitionServedOnce(g: Group, run: seq<Label>, a: string, b: string, p: nat, s: string, t: string)
    requires Fresh(g) && Feasible(g, run) && Sourced(g.config, s) && Sourced(g.config, t)
    ensures var cs := Final(g, run).consumers;
      a in cs && b in cs && AnyMatches(cs[a], Numeral(p) + "." + s) && AnyMatches(cs[b], Numeral(p) + "." + t) ==>
        a == b
  {
    hide ConsumerFilters, Valid, AnyMatches, Sourced, GroupSound;
    FreshSound(g);
    RunKeepsDerived(g, run);
    var cs := Final(g, run).consumers;
    if a in cs && b in cs && AnyMatches(cs[a], Numeral(p) + "." + s) && AnyMatches(cs[b], Numeral(p) + "." + t) {
      var d :| Valid(d) && d.Fixed() == Final(g, run).config.Fixed() && cs[a] == ConsumerFilters(d, a);
      SameSourced(g.config, d, t);
      WholePartition(d, a, p, s, t);
      SoundParts(Final(g, run));
      OneTaker(Final(g, run).consumers, a, b, Numeral(p) + "." + t);
    }
  }

  lemma FreshSound(g: Group)
    requires Fresh(g)
    ensures GroupSound(g) && Derived(g)
  {
  }

  lemma SameSourced(c: Config, d: Config, subject: string)
    requires c.Fixed() == d.Fixed()
    ensures Sourced(c, subject) <==> Sourced(d, subject)
  {
  }

  /** The promise of the group: messages whose keys hash to one partition, which includes all
      messages of one key, are never delivered to two members at a time. */
  lemma OneKeyOneMember(g: Group, run: seq<Label>, a: string, b: string, i: nat, j: nat, s: string, t: string,
      hash: (nat, seq<string>) -> nat)
    requires Fresh(g) && Feasible(g, run)
    requires i < |SourceFilters(g.config)| && j < |SourceFilters(g.config)|
    requires var pf := SourceFilters(g.config)[i];
      WellFormedFilter(pf) && Plain(Split(pf.filter, '.')) && SubjectMatches(pf.filter, s)
    requires var pf := SourceFilters(g.config)[j];
      WellFormedFilter(pf) && Plain(Split(pf.filter, '.')) && SubjectMatches(pf.filter, t)
    requires hash(g.config.maxMembers, Key(SourceFilters(g.config)[i], s))
      == hash(g.config.maxMembers, Key(SourceFilters(g.config)[j], t))
    ensures var pf, qf := SourceFilters(g.config)[i], SourceFilters(g.config)[j];
      var u := Apply(pf.filter, Destination(pf, g.config.maxMembers), s, hash);
      var v := Apply(qf.filter, Destination(qf, g.config.maxMembers), t, hash);
      var cs := Final(g, run).consumers;
      u.Some? && v.Some? && (a in cs && b in cs && AnyMatches(cs[a], u.value) && AnyMatches(cs[b], v.value) ==> a == b)
  {
    hide Key, Plain, Destination, Apply, Feasible, Final, AnyMatches;
    var pf, qf := SourceFilters(g.config)[i], SourceFilters(g.config)[j];
    SourceFilterFits(g.config, i);
    SourceFilterFits(g.config, j);
    TransformPrefixes(pf, g.config.maxMembers, s, hash);
    TransformPrefixes(qf, g.config.maxMembers, t, hash);
    PartitionServedOnce(g, run, a, b, hash(g.config.maxMembers, Key(pf, s)), s, t);
  }

  // A team is a group

  function AsGroup(t: Team.Team): Group {
    Group(t.config, map m | m in t.insts :: Seat(m, t.insts[m], Rest), t.consumers)
  }

  function Calls(id: Id, inst: Inst, todo: Todo, cs: Consumers, name: string, io: JoinIO): seq<Label>
    decreases CallsLeft(todo)
  {
    hide Instance.CallFor, ConsumerFilters;
    if todo.Rest? then []
    else
      var (inst', todo', cs') := Instance.Call(inst, todo, cs, name, io);
      [Label.Call(id, io)] + Calls(id, inst', todo', cs', name, io)
  }

  lemma Prefixed(g: Group, l: Label, rest: seq<Label>)
    requires Enabled(g, l) && Feasible(After(g, l), rest)
    ensures Feasible(g, [l] + rest) && Final(g, [l] + rest) == Final(After(g, l), rest)
  {
    hide Enabled, After;
    assert ([l] + rest)[1..] == rest;
  }

  lemma {:induction false} CallsRun(g: Group, id: Id, io: JoinIO)
    requires id in g.seats
    ensures var s := g.seats[id];
      var run := Calls(id, s.inst, s.todo, g.consumers, s.name, io);
      var (inst, cs) := Undisturbed(s.inst, s.todo, g.consumers, s.name, io);
      Feasible(g, run) && Final(g, run) == g.(seats := g.seats[id := Seat(s.name, inst, Rest)], consumers := cs)
    decreases CallsLeft(g.seats[id].todo)
  {
    hide Instance.Call;
    var s := g.seats[id];
    if s.todo.Rest? {
      assert g.seats[id := Seat(s.name, s.inst, Rest)] == g.seats;
    } else {
      var g' := After(g, Label.Call(id, io));
      CallsRun(g', id, io);
      var s' := g'.seats[id];
      Prefixed(g, Label.Call(id, io), Calls(id, s'.inst, s'.todo, g'.consumers, s'.name, io));
      var (inst, cs) := Undisturbed(s.inst, s.todo, g.consumers, s.name, io);
      assert g'.seats[id := Seat(s.name, inst, Rest)] == g.seats[id := Seat(s.name, inst, Rest)];
    }
  }

  /** A team, where whole turns are steps, does nothing that a group cannot do. */
  lemma TeamStep(t: Team.Team, l: Team.Label) returns (run: seq<Label>)
    requires Team.Enabled(t, l)
    ensures Feasible(AsGroup(t), run) && Final(AsGroup(t), run) == AsGroup(Team.After(t, l))
  {
    hide ConsumerFilters, Step, JoinGroup, Begin, Undisturbed, Feasible, Final, Instance.Call;
    var g := AsGroup(t);
    match l {
      case Start(m, io) =>
        var first := Label.Start(m, m);
        var g' := After(g, first);
        JoinByCalls(Blank(t.config), t.consumers, m, io);
        run := TurnRun(g, first, m, io);
        RestStays(Blank(t.config), t.consumers, m, io);
        assert AsGroup(Team.After(t, l)).seats == Final(g, run).seats;
      case Handle(m, e, io) =>
        var first := Label.Handle(m, e);
        TurnByCalls(t.insts[m], t.consumers, m, e, io);
        run := TurnRun(g, first, m, io);
        assert AsGroup(Team.After(t, l)).seats == Final(g, run).seats;
      case Expire(n) =>
        EmptyRun(After(g, Label.Expire(n)));
        run := [Label.Expire(n)] + [];
        Prefixed(g, Label.Expire(n), []);
    }
  }

  lemma EmptyRun(g: Group)
    ensures Feasible(g, []) && Final(g, []) == g
  {
  }

  lemma RestStays(inst: Inst, cs: Consumers, name: string, io: JoinIO)
    ensures Undisturbed(inst, Rest, cs, name, io) == (inst, cs)
  {
  }

  lemma TurnRun(g: Group, first: Label, id: Id, io: JoinIO) returns (run: seq<Label>)
    requires Enabled(g, first) && id in After(g, first).seats
    ensures Feasible(g, run)
    ensures var g' := After(g, first);
      var s := g'.seats[id];
      var (inst, cs) := Undisturbed(s.inst, s.todo, g'.consumers, s.name, io);
      Final(g, run) == g'.(seats := g'.seats[id := Seat(s.name, inst, Rest)], consumers := cs)
  {
    hide Enabled, After;
    var g' := After(g, first);
    var s := g'.seats[id];
    CallsRun(g', id, io);
    var rest := Calls(id, s.inst, s.todo, g'.consumers, s.name, io);
    Prefixed(g, first, rest);
    run := [first] + rest;
  }

  lemma {:induction false} Appended(g: Group, first: seq<Label>, second: seq<Label>)
    requires Feasible(g, first) && Feasible(Final(g, first), second)
    ensures Feasible(g, first + second) && Final(g, first + second) == Final(Final(g, first), second)
    decreases first
  {
    hide Enabled, After;
    if first == [] {
      assert first + second == second;
    } else {
      Appended(After(g, first[0]), first[1..], second);
      assert (first + second)[1..] == first[1..] + second;
    }
  }

  /** So what holds at every moment of a group holds at every moment of a team. */
  lemma {:induction false} TeamRun(t: Team.Team, run: seq<Team.Label>) returns (calls: seq<Label>)
    requires Team.Feasible(t, run)
    ensures Feasible(AsGroup(t), calls) && Final(AsGroup(t), calls) == AsGroup(Team.Final(t, run))
    decreases run
  {
    hide Enabled, After, Team.Enabled, Team.After, AsGroup, Feasible, Final;
    if run == [] {
      calls := [];
      EmptyRun(AsGroup(t));
    } else {
      var first := TeamStep(t, run[0]);
      var rest := TeamRun(Team.After(t, run[0]), run[1..]);
      Appended(AsGroup(t), first, rest);
      calls := first + rest;
    }
  }

  // The writers of the config

  /** What the writers of an existing group store never ends an instance that has the fixed
      part of its config, in any run without a removal, exactly when no write that is already
      pending is a threat to it. */
  lemma StoredNeverEndsExactly(w: Membership.World, inst: Inst, pinned: bool, drop: Reply)
    requires Membership.Consistent(w) && Membership.FixedOf(w.stored) == Some(inst.config.Fixed())
    ensures Membership.NoThreat(w) <==> forall run :: Membership.Undisturbed(w, run) ==>
      NeverEnds(Membership.Final(w, run).stored, inst, pinned, drop)
  {
    hide Membership.NoThreat, Ending, Membership.Consistent;
    Membership.FixedKeptExactly(w);
    forall run | Membership.Undisturbed(w, run)
      ensures NeverEnds(Membership.Final(w, run).stored, inst, pinned, drop)
        <==> Membership.FixedOf(Membership.Final(w, run).stored) == Membership.FixedOf(w.stored)
    {
      Membership.StoredValid(w, run);
      EndsOnFixed(Membership.Final(w, run).stored, inst, pinned, drop);
    }
  }

  /** The group is there, and its config does not end the instance. */
  ghost predicate NeverEnds(stored: Option<Membership.Versioned>, inst: Inst, pinned: bool, drop: Reply) {
    stored.Some? && Ending(inst, Update(stored.value.config, pinned, drop)).None?
  }

  lemma EndsOnFixed(stored: Option<Membership.Versioned>, inst: Inst, pinned: bool, drop: Reply)
    requires stored.Some? ==> Valid(stored.value.config)
    ensures NeverEnds(stored, inst, pinned, drop) <==> Membership.FixedOf(stored) == Some(inst.config.Fixed())
  {
  }
}
