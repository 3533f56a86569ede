// An elastic group in which every member runs one instance: each turn of an instance's
// control routine is one step, as is the expiry of a consumer that nobody draws on.
module Team {
  import opened Config
  import opened Allocation
  import opened Server
  import opened Instance

  datatype Team = Team(config: Config, insts: map<string, Inst>, consumers: Consumers)

  datatype Label =
    | Start(name: string, io: JoinIO)                // a member's instance starts
    | Handle(name: string, event: Event, io: JoinIO) // an instance handles an event
    | Expire(name: string)                           // the stream drops an idle consumer

  ghost predicate Enabled(g: Team, l: Label) {
    match l
    case Start(m, _) => m !in g.insts || g.insts[m].done != []
    case Handle(m, _, _) => m in g.insts && g.insts[m].done == []
    case Expire(n) => n in g.consumers && !(n in g.insts && g.insts[n].live)
  }

  ghost function After(g: Team, l: Label): Team
    requires Enabled(g, l)
  {
    match l
    case Start(m, io) =>
      var (inst, cs) :=
        if g.config.IsInMembership(m) then JoinGroup(Blank(g.config), g.consumers, m, io)
        else (Blank(g.config), g.consumers);
      g.(insts := g.insts[m := inst], consumers := cs)
    case Handle(m, e, io) =>
      var (inst, cs) := Step(g.insts[m], g.consumers, m, e, io);
      g.(insts := g.insts[m := inst], consumers := cs)
    case Expire(n) => g.(consumers := g.consumers - {n})
  }

  /** A running context draws on a consumer that exists and has the instance's filters. */
  ghost predicate Backed(inst: Inst, cs: Consumers, name: string) {
    inst.live ==> name in cs && cs[name] == ConsumerFilters(inst.config, name)
  }

  ghost predicate TeamSound(g: Team) {
    && Valid(g.config)
    && Separate(g.consumers)
    && forall m :: m in g.insts ==>
         && Sound(g.insts[m], m)
         && g.insts[m].config.Fixed() == g.config.Fixed()
         && Backed(g.insts[m], g.consumers, m)
  }

  lemma TryCreateEffect(cs: Consumers, name: string, filters: seq<string>, io: JoinIO)
    requires Separate(cs)
    ensures var (cs', ok) := TryCreate(cs, name, filters, io);
      Separate(cs') && OwnOnly(cs, cs', name, filters) && (ok ==> name in cs' && cs'[name] == filters)
  {
    var (cs1, r1) := Create(cs, name, filters, io.create);
    CreateSeparate(cs, name, filters, io.create);
    if r1.Exists? {
      var (cs2, deleted) := Delete(cs1, name, io.delete);
      CreateSeparate(cs2, name, filters, io.recreate);
    }
  }

  lemma JoinEffect(inst: Inst, cs: Consumers, name: string, io: JoinIO)
    requires Separate(cs) && Sound(inst, name) && inst.consumer.None? && inst.done == []
    ensures var (inst', cs') := JoinGroup(inst, cs, name, io);
      && Separate(cs') && OwnOnly(cs, cs', name, ConsumerFilters(inst.config, name))
      && Sound(inst', name) && inst'.config == inst.config && inst'.done == [] && Backed(inst', cs', name)
  {
    hide ConsumerFilters, Valid, TryCreate, Separate;
    JoinSound(inst, cs, name, io);
    TryCreateEffect(cs, name, ConsumerFilters(inst.config, name), io);
  }

  lemma StepEffect(inst: Inst, cs: Consumers, name: string, event: Event, io: JoinIO)
    requires Separate(cs) && Sound(inst, name) && inst.done == [] && Backed(inst, cs, name)
    ensures var (inst', cs') := Step(inst, cs, name, event, io);
      && Separate(cs') && OwnOnly(cs, cs', name, ConsumerFilters(inst'.config, name))
      && Sound(inst', name) && inst'.config.Fixed() == inst.config.Fixed() && Backed(inst', cs', name)
  {
    hide ConsumerFilters, JoinGroup;
    StepSound(inst, cs, name, event, io);
    match event {
      case Update(c, pinned, drop) =>
        if Valid(c) && c.Fixed() == inst.config.Fixed() && Step(inst, cs, name, event, io) != (inst, cs) {
          var moved := inst.(config := inst.config.(members := c.members, mappings := c.mappings));
          assert moved.config == c;
          var cs' := if inst.consumer.Some? && pinned then Delete(cs, name, drop).0 else cs;
          JoinEffect(Stopped(moved), cs', name, io);
        }
      case Tick => if inst.consumer.None? { JoinEffect(inst, cs, name, io); }
      case _ =>
    }
  }

  /** Every step of every participant keeps the team sound. */
  lemma StepKeepsSound(g: Team, l: Label)
    requires TeamSound(g) && Enabled(g, l)
    ensures TeamSound(After(g, l))
  {
    hide ConsumerFilters, Step, JoinGroup, Valid;
    match l {
      case Expire(n) =>
      case Start(m, io) =>
        assert Sound(Blank(g.config), m);
        JoinEffect(Blank(g.config), g.consumers, m, io);
      case Handle(m, e, io) =>
        StepEffect(g.insts[m], g.consumers, m, e, io);
    }
  }

  ghost predicate Feasible(g: Team, run: seq<Label>)
    decreases run
  {
    run == [] || (Enabled(g, run[0]) && Feasible(After(g, run[0]), run[1..]))
  }

  ghost function Final(g: Team, run: seq<Label>): Team
    requires Feasible(g, run)
    decreases run
  {
    if run == [] then g else Final(After(g, run[0]), run[1..])
  }

  /** The start: a stored config, no instance, no consumer. */
  ghost predicate Fresh(g: Team) { Valid(g.config) && g.insts == map[] && g.consumers == map[] }
}
