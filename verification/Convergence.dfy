// Once the config is stable and every instance has taken it in, a group converges: stale
// consumers only disappear, running members only increase, some useful step is always
// possible until none is missing, and then every partition has its one running consumer.
module Convergence {
  import opened Arithmetic
  import opened Tokens
  import opened Decimal
  import opened Names
  import opened Config
  import opened Allocation
  import opened Ownership
  import opened Server
  import opened Instance
  import opened Team

  function Want(g: Team, name: string): seq<string> { ConsumerFilters(g.config, name) }

  // Which configs a stream can serve at all

  ghost predicate Servable(c: Config) { forall m :: SelfDisjoint(ConsumerFilters(c, m)) }

  ghost predicate DisjointFilters(c: Config) {
    forall i, j :: 0 <= i < j < |c.filters| ==> !FiltersCollide(c.filters[i].filter, c.filters[j].filter)
  }

  lemma RenderedApart(p: nat, q: nat, a: string, b: string)
    requires p != q || !FiltersCollide(a, b)
    ensures !FiltersCollide(Itoa(p) + "." + a, Itoa(q) + "." + b)
  {
    CollideExactly(Itoa(p) + "." + a, Itoa(q) + "." + b);
    if t :| SubjectMatches(Itoa(p) + "." + a, t) && SubjectMatches(Itoa(q) + "." + b, t) {
      PartitionFilterMatches(p, a, t);
      PartitionFilterMatches(q, b, t);
      if p == q {
        CommonCollides(Split(a, '.'), Split(b, '.'), Split(t, '.')[1..]);
      } else {
        NumeralInjective(p, q);
      }
      assert false;
    }
  }

  lemma RenderedTogether(p: nat, a: string, b: string)
    requires FiltersCollide(a, b)
    ensures FiltersCollide(Itoa(p) + "." + a, Itoa(p) + "." + b)
  {
    CollideExactly(a, b);
    var t :| SubjectMatches(a, t) && SubjectMatches(b, t);
    PinnedMatches(p, a, t);
    PinnedMatches(p, b, t);
    CollideExactly(Itoa(p) + "." + a, Itoa(p) + "." + b);
  }

  ghost predicate Apart(fs: seq<string>, gs: seq<string>) {
    forall i, j :: 0 <= i < |fs| && 0 <= j < |gs| ==> !FiltersCollide(fs[i], gs[j])
  }

  lemma BatchDisjoint(c: Config, name: string, rest: string)
    requires Valid(c)
    ensures SelfDisjoint(Render(Partitions(c, name), rest))
  {
    hide PartitionsOf, FiltersCollide;
    PartitionsDistinct(c, name);
    var ps := Partitions(c, name);
    forall i, j | 0 <= i < j < |ps| ensures !FiltersCollide(Itoa(ps[i]) + "." + rest, Itoa(ps[j]) + "." + rest) {
      HeldInRange(c, name, ps[i]);
      HeldInRange(c, name, ps[j]);
      RenderedApart(ps[i], ps[j], rest, rest);
    }
  }

  lemma BatchesApart(c: Config, name: string, a: string, b: string)
    requires Valid(c) && !FiltersCollide(a, b)
    ensures Apart(Render(Partitions(c, name), a), Render(Partitions(c, name), b))
  {
    hide PartitionsOf, FiltersCollide;
    var ps := Partitions(c, name);
    forall i, j | 0 <= i < |ps| && 0 <= j < |ps| ensures !FiltersCollide(Itoa(ps[i]) + "." + a, Itoa(ps[j]) + "." + b) {
      HeldInRange(c, name, ps[i]);
      HeldInRange(c, name, ps[j]);
      RenderedApart(ps[i], ps[j], a, b);
    }
  }

  lemma ApartAppend(a: seq<string>, b: seq<string>, c: seq<string>)
    requires Apart(a, c) && Apart(b, c)
    ensures Apart(a + b, c)
  {
  }

  lemma NoneApart(c: seq<string>)
    ensures Apart([], c)
  {
  }

  lemma {:induction false} EarlierApart(c: Config, name: string, n: nat, k: nat)
    requires Valid(c) && c.members != [] && DisjointFilters(c) && n <= k < |c.filters|
    ensures Apart(FiltersUpTo(c, name, n), Render(Partitions(c, name), c.filters[k].filter))
  {
    hide PartitionsOf, Apart, Valid;
    var batch := Render(Partitions(c, name), c.filters[k].filter);
    if n > 0 {
      EarlierApart(c, name, n - 1, k);
      BatchesApart(c, name, c.filters[n - 1].filter, c.filters[k].filter);
      ApartAppend(FiltersUpTo(c, name, n - 1), Render(Partitions(c, name), c.filters[n - 1].filter), batch);
    } else {
      NoneApart(batch);
    }
  }

  lemma {:induction false} UpToDisjoint(c: Config, name: string, n: nat)
    requires Valid(c) && n <= |c.filters| && (n <= 1 || (c.members != [] && DisjointFilters(c)))
    ensures SelfDisjoint(FiltersUpTo(c, name, n))
  {
    hide PartitionsOf, FiltersCollide;
    if n > 0 {
      UpToDisjoint(c, name, n - 1);
      BatchDisjoint(c, name, if c.members != [] then c.filters[n - 1].filter else ">");
      if n > 1 {
        EarlierApart(c, name, n - 1, n - 1);
      }
    }
  }

  /** A group with members can be served exactly when it has at most one partitioning
      filter, or its members are balanced and no two partitioning filters take a common
      subject. With mappings, a second filter only repeats "p.>" and is always refused. */
  lemma ServableExactly(c: Config)
    requires Valid(c) && HasMembers(c)
    ensures Servable(c) <==> |c.filters| <= 1 || (c.members != [] && DisjointFilters(c))
  {
    if |c.filters| <= 1 || (c.members != [] && DisjointFilters(c)) {
      forall m ensures SelfDisjoint(ConsumerFilters(c, m)) {
        if c.filters == [] { BatchDisjoint(c, m, ">"); } else { UpToDisjoint(c, m, |c.filters|); }
      }
    } else {
      var i, j :|
        0 <= i < j < |c.filters| && (c.members == [] || FiltersCollide(c.filters[i].filter, c.filters[j].filter));
      NotServable(c, i, j);
    }
  }

  lemma NotServable(c: Config, i: nat, j: nat)
    requires Valid(c) && HasMembers(c) && i < j < |c.filters|
    requires c.members == [] || FiltersCollide(c.filters[i].filter, c.filters[j].filter)
    ensures !SelfDisjoint(ConsumerFilters(c, OwnerOf(c, 0)))
  {
    hide PartitionsOf, FiltersCollide, FiltersUpTo, SelfDisjoint, Itoa, OwnerOf;
    var m := OwnerOf(c, 0);
    Holder(c, m, 0);
    var ps := Partitions(c, m);
    var k :| 0 <= k < |ps| && ps[k] == 0;
    var a := if c.members == [] then ">" else c.filters[i].filter;
    var b := if c.members == [] then ">" else c.filters[j].filter;
    TailsCollide();
    RenderedTogether(0, a, b);
    BatchPosition(c, m, i, k);
    BatchPosition(c, m, j, k);
    MulLess(i, j, |ps|);
    NotDisjoint(FiltersUpTo(c, m, |c.filters|), i * |ps| + k, j * |ps| + k);
  }

  lemma TailsCollide()
    ensures FiltersCollide(">", ">")
  {
    SplitWord(">", '.');
  }

  lemma NotDisjoint(fs: seq<string>, x: nat, y: nat)
    requires x < y < |fs| && FiltersCollide(fs[x], fs[y])
    ensures !SelfDisjoint(fs)
  {
  }

  lemma MulLess(i: nat, j: nat, n: nat)
    requires i < j && n > 0
    ensures i * n < j * n
  {
    MulMonotone(i + 1, j, n);
    MulSucc(i, n);
  }

  lemma LastBatch(c: Config, name: string, n: nat, k: nat)
    requires n < |c.filters| && k < |Partitions(c, name)|
    ensures |FiltersUpTo(c, name, n)| + k < |FiltersUpTo(c, name, n + 1)|
    ensures FiltersUpTo(c, name, n + 1)[|FiltersUpTo(c, name, n)| + k]
      == Itoa(Partitions(c, name)[k]) + "." + if c.members == [] then ">" else c.filters[n].filter
  {
    hide PartitionsOf;
  }

  lemma {:induction false} UpToPrefix(c: Config, name: string, n: nat, m: nat)
    requires n <= m <= |c.filters|
    ensures FiltersUpTo(c, name, n) <= FiltersUpTo(c, name, m)
  {
    hide PartitionFilters;
    if n < m {
      UpToPrefix(c, name, n, m - 1);
    }
  }

  lemma BatchPosition(c: Config, name: string, i: nat, k: nat)
    requires i < |c.filters| && k < |Partitions(c, name)|
    ensures 0 <= i * |Partitions(c, name)| + k < |FiltersUpTo(c, name, |c.filters|)|
    ensures FiltersUpTo(c, name, |c.filters|)[i * |Partitions(c, name)| + k]
      == Itoa(Partitions(c, name)[k]) + "." + if c.members == [] then ">" else c.filters[i].filter
  {
    hide PartitionsOf, FiltersUpTo;
    UpToLength(c, name, i);
    LastBatch(c, name, i, k);
    UpToPrefix(c, name, i + 1, |c.filters|);
  }

  lemma {:induction false} UpToLength(c: Config, name: string, n: nat)
    requires n <= |c.filters|
    ensures |FiltersUpTo(c, name, n)| == n * |Partitions(c, name)|
  {
    hide PartitionsOf;
    if n > 0 {
      UpToLength(c, name, n - 1);
      MulSucc(n - 1, |Partitions(c, name)|);
    }
  }

  // The settled group

  /** Every member that has partitions has an instance, and no instance has finished. */
  ghost predicate Staffed(g: Team) {
    && TeamSound(g)
    && (forall m :: m in g.insts ==> g.insts[m].done == [])
    && (forall m :: Want(g, m) != [] ==> m in g.insts)
  }

  /** No instance holds a consumer that it failed to start drawing on. */
  ghost predicate NoneStuck(g: Team) {
    forall m :: m in g.insts && g.insts[m].consumer.Some? ==> g.insts[m].live
  }

  ghost predicate Ready(g: Team) { Staffed(g) && NoneStuck(g) }

  /** Every instance has taken in the stored config. */
  ghost predicate Agreed(g: Team) {
    Staffed(g) && forall m :: m in g.insts ==> g.insts[m].config == g.config
  }

  ghost predicate Settled(g: Team) { Agreed(g) && NoneStuck(g) }

  /** Consumers whose filters are not what the config gives their member. */
  function Stale(g: Team): set<string> { set n | n in g.consumers && g.consumers[n] != Want(g, n) }

  /** Members with partitions that are not running. */
  function Lacking(g: Team): set<string> { set m | m in g.insts && Want(g, m) != [] && !g.insts[m].live }

  function Distance(g: Team): nat { |Stale(g)| + |Lacking(g)| }

  /** Steps while nobody changes the config and no instance starts or ends. */
  ghost predicate Calm(g: Team, l: Label) {
    Enabled(g, l) && match l
    case Expire(_) => true
    case Handle(_, Tick, _) => true
    case Handle(_, NoUpdate, _) => true
    case Handle(_, Update(c, _, _), _) => c == g.config
    case _ => false
  }

  /** Calm steps in which starting to draw on a consumer works. */
  ghost predicate Quiet(g: Team, l: Label) {
    Calm(g, l) && (l.Handle? && !l.event.NoUpdate? ==> l.io.consume)
  }

  function Working(): JoinIO { JoinIO(Answered, Answered, Answered, true) }

  lemma JoinProgress(inst: Inst, cs: Consumers, name: string, io: JoinIO)
    requires Separate(cs) && Sound(inst, name) && inst.consumer.None? && inst.done == [] && io.consume
    ensures var (inst', cs') := JoinGroup(inst, cs, name, io);
      && (inst'.consumer.Some? ==> inst'.live)
      && (var filters := ConsumerFilters(inst.config, name);
          Admissible(cs, name, filters) && filters != [] && io == Working() ==> inst'.live)
  {
    hide ConsumerFilters, Valid, SelfDisjoint, Overlap;
  }

  /** A quiet step on one instance: it keeps its config or takes in the stored one, and
      holds no consumer it does not draw on. */
  lemma QuietHandle(inst: Inst, cs: Consumers, name: string, e: Event, io: JoinIO, stored: Config)
    requires Sound(inst, name) && Separate(cs) && Backed(inst, cs, name) && inst.done == []
    requires inst.consumer.Some? ==> inst.live
    requires e.NoUpdate? || (io.consume && (e.Tick? || (e.Update? && e.config == stored)))
    requires Valid(stored) && stored.Fixed() == inst.config.Fixed()
    ensures var inst' := Step(inst, cs, name, e, io).0;
      && inst'.done == [] && (inst'.consumer.Some? ==> inst'.live)
      && inst'.config == if e.Update? then stored else inst.config
  {
    hide ConsumerFilters, JoinGroup, Valid, Separate;
    match e {
      case Tick => if inst.consumer.None? {
        JoinEffect(inst, cs, name, io);
        JoinProgress(inst, cs, name, io);
      }
      case Update(c, pinned, drop) =>
        var moved := inst.(config := inst.config.(members := c.members, mappings := c.mappings));
        assert moved.config == stored;
        if inst.consumer.Some? && c.members == inst.config.members && c.mappings == inst.config.mappings {
          assert moved == inst;
        } else {
          var cs' := if inst.consumer.Some? && pinned then Delete(cs, name, drop).0 else cs;
          assert Separate(cs') by { DeleteSeparate(cs, name, drop); }
          StoppedSound(inst, moved, name);
          JoinEffect(Stopped(moved), cs', name, io);
          JoinProgress(Stopped(moved), cs', name, io);
        }
      case NoUpdate =>
    }
  }

  /** A change of membership takes effect at once where the calls work: a member with filters
      draws on a consumer with exactly these if nobody else takes a subject of them, and a
      member without any stops and takes its consumer away exactly if it was the pinned one. */
  lemma ChangeTakesEffect(inst: Inst, cs: Consumers, name: string, c: Config, pinned: bool, drop: Reply)
    requires Sound(inst, name) && inst.done == [] && Valid(c) && c.Fixed() == inst.config.Fixed()
    requires inst.consumer.None? || c.members != inst.config.members || c.mappings != inst.config.mappings
    ensures var (inst', cs') := Step(inst, cs, name, Update(c, pinned, drop), Working());
      var filters := ConsumerFilters(c, name);
      && inst'.config == c && inst'.done == []
      && (filters != [] && Admissible(cs, name, filters) ==> inst'.live && name in cs' && cs'[name] == filters)
      && (filters == [] ==>
            !inst'.live && cs' == if inst.consumer.Some? && pinned && !drop.NotDone? then cs - {name} else cs)
  {
    hide ConsumerFilters, Valid, SelfDisjoint, Overlap;
    var moved := inst.(config := inst.config.(members := c.members, mappings := c.mappings));
    assert moved.config == c;
  }

  /** Whatever comes of the calls, an instance that is not the pinned one leaves the consumer
      of its member in place exactly when it has no filters, or finds those it wants, or cannot
      find out, or cannot delete. */
  lemma UnpinnedLeavesExactly(inst: Inst, cs: Consumers, name: string, c: Config, drop: Reply, io: JoinIO)
    requires Sound(inst, name) && inst.done == [] && Valid(c) && c.Fixed() == inst.config.Fixed()
    requires inst.consumer.None? || c.members != inst.config.members || c.mappings != inst.config.mappings
    requires name in cs
    ensures var cs' := Step(inst, cs, name, Update(c, false, drop), io).1;
      var filters := ConsumerFilters(c, name);
      cs' == cs <==> filters == [] || cs[name] == filters || !io.create.Answered? || io.delete.NotDone?
  {
    hide ConsumerFilters, Valid, SelfDisjoint, Overlap;
    var moved := inst.(config := inst.config.(members := c.members, mappings := c.mappings));
    assert moved.config == c;
    assert name !in cs - {name};
  }

  lemma StoppedSound(inst: Inst, moved: Inst, name: string)
    requires Sound(inst, name) && moved == inst.(config := moved.config) && Valid(moved.config)
    ensures Sound(Stopped(moved), name)
  {
  }

  lemma QuietReady(g: Team, l: Label)
    requires Ready(g) && Quiet(g, l)
    ensures Ready(After(g, l)) && After(g, l).config == g.config && After(g, l).insts.Keys == g.insts.Keys
    ensures forall m :: m in g.insts ==>
      After(g, l).insts[m].config == if l.Handle? && l.name == m && l.event.Update? then g.config else g.insts[m].config
  {
    hide ConsumerFilters, Step, Valid, Separate;
    StepKeepsSound(g, l);
    if l.Handle? {
      QuietHandle(g.insts[l.name], g.consumers, l.name, l.event, l.io, g.config);
    }
  }

  lemma QuietStep(g: Team, l: Label)
    requires Settled(g) && Quiet(g, l)
    ensures Settled(After(g, l)) && After(g, l).config == g.config
    ensures Stale(After(g, l)) <= Stale(g) && Lacking(After(g, l)) <= Lacking(g)
  {
    hide ConsumerFilters, JoinGroup, Valid, Separate;
    QuietReady(g, l);
    if l.Handle? {
      StepEffect(g.insts[l.name], g.consumers, l.name, l.event, l.io);
    }
  }

  lemma SetSizes(a: set<string>, b: set<string>, x: string)
    requires a <= b
    ensures |a| <= |b| && (x in b && x !in a ==> |a| < |b|)
  {
    SubsetSize(a, b);
  }

  lemma QuietDistance(g: Team, l: Label)
    requires Settled(g) && Quiet(g, l)
    ensures Distance(After(g, l)) <= Distance(g)
    ensures Distance(After(g, l)) == Distance(g) ==>
      Stale(After(g, l)) == Stale(g) && Lacking(After(g, l)) == Lacking(g)
  {
    QuietStep(g, l);
    SubsetSize(Stale(After(g, l)), Stale(g));
    SubsetSize(Lacking(After(g, l)), Lacking(g));
  }

  /** A stale consumer is never in use, and its expiry removes it for good. */
  lemma StaleExpires(g: Team, n: string)
    requires Settled(g) && n in Stale(g)
    ensures Quiet(g, Expire(n)) && n !in Stale(After(g, Expire(n)))
    ensures Distance(After(g, Expire(n))) < Distance(g)
  {
    QuietStep(g, Expire(n));
    SubsetSize(Stale(After(g, Expire(n))), Stale(g));
    SubsetSize(Lacking(After(g, Expire(n))), Lacking(g));
  }

  /** The filters of two different members never overlap. */
  lemma WantsApart(g: Team, a: string, b: string)
    requires Valid(g.config) && a != b
    ensures !Overlap(Want(g, a), Want(g, b))
  {
    hide ConsumerFilters, Overlap;
    OverlapExactly(Want(g, a), Want(g, b));
    forall t | AnyMatches(Want(g, a), t) && AnyMatches(Want(g, b), t) ensures false {
      NoSharedSubject(g.config, a, b, t);
    }
  }

  /** A turn in which member `m` tries to join, and all calls it makes work. */
  predicate Retry(l: Label, m: string) {
    l.Handle? && l.name == m && l.io == Working() && (l.event.Tick? || l.event.Update?)
  }

  /** For an instance without a consumer, seeing its config again is as good as the timer. */
  lemma RetryJoins(g: Team, l: Label, m: string)
    requires Settled(g) && Quiet(g, l) && Retry(l, m) && Want(g, m) != [] && g.insts[m].consumer.None?
    ensures Step(g.insts[m], g.consumers, m, l.event, l.io) == JoinGroup(g.insts[m], g.consumers, m, Working())
  {
    hide ConsumerFilters, JoinGroup, Valid;
    WantedIsMember(g, m);
    var inst := g.insts[m];
    assert inst.(config := inst.config.(members := g.config.members, mappings := g.config.mappings)) == inst;
  }

  /** A join whose calls work leaves no consumer with other filters behind, even where it
      cannot make its own because others are in the way. */
  lemma JoinReplaces(inst: Inst, cs: Consumers, name: string)
    requires ConsumerFilters(inst.config, name) != []
    ensures var cs' := JoinGroup(inst, cs, name, Working()).1;
      name in cs' ==> cs'[name] == ConsumerFilters(inst.config, name)
  {
    hide ConsumerFilters, Admissible;
  }

  /** A member that tries again replaces its own stale consumer, or at least removes it. */
  lemma OwnStaleReplaced(g: Team, l: Label, n: string)
    requires Settled(g) && Quiet(g, l) && Retry(l, n) && Want(g, n) != []
    ensures n !in Stale(After(g, l))
    ensures n in Stale(g) ==> Distance(After(g, l)) < Distance(g)
  {
    hide ConsumerFilters, JoinGroup, Valid, Separate, Step;
    QuietStep(g, l);
    if g.insts[n].consumer.None? {
      RetryJoins(g, l, n);
      JoinReplaces(g.insts[n], g.consumers, n);
    } else {
      assert n !in Stale(g);
    }
    SetSizes(Stale(After(g, l)), Stale(g), n);
    SubsetSize(Lacking(After(g, l)), Lacking(g));
  }

  /** With the other members' stale consumers out of the way, one try whose calls work
      starts a member that is not running. */
  lemma LackingJoins(g: Team, l: Label, m: string)
    requires Settled(g) && Servable(g.config) && m in Lacking(g) && Stale(g) <= {m}
    requires Quiet(g, l) && Retry(l, m)
    ensures m !in Lacking(After(g, l)) && Distance(After(g, l)) < Distance(g)
  {
    hide ConsumerFilters, JoinGroup, Overlap, SelfDisjoint, Separate, Step;
    forall n | n in g.consumers && n != m ensures !Overlap(g.consumers[n], Want(g, m)) {
      assert n !in Stale(g);
      WantsApart(g, n, m);
    }
    RetryJoins(g, l, m);
    JoinEffect(g.insts[m], g.consumers, m, Working());
    JoinProgress(g.insts[m], g.consumers, m, Working());
    QuietStep(g, l);
    SubsetSize(Stale(After(g, l)), Stale(g));
    SetSizes(Lacking(After(g, l)), Lacking(g), m);
  }

  lemma WantedIsMember(g: Team, m: string)
    requires Valid(g.config) && Want(g, m) != []
    ensures g.config.IsInMembership(m)
  {
    hide PartitionsOf;
    var c := g.config;
    ConsumerFilterShape(c, m, 0);
    var p, rest :| p in Partitions(c, m) && IsRest(c, rest) && ConsumerFilters(c, m)[0] == Itoa(p) + "." + rest;
    HeldInRange(c, m, p);
    Holder(c, m, p);
  }

  ghost predicate Converged(g: Team) { Stale(g) == {} && Lacking(g) == {} }

  /** As long as something is missing, a quiet step that brings the group closer is possible. */
  lemma AlwaysProgress(g: Team) returns (l: Label)
    requires Settled(g) && Servable(g.config) && !Converged(g)
    ensures Quiet(g, l) && Distance(After(g, l)) < Distance(g)
  {
    hide ConsumerFilters, Step, Separate, Valid, Servable, Distance;
    if n :| n in Stale(g) {
      StaleExpires(g, n);
      l := Expire(n);
    } else {
      var m :| m in Lacking(g);
      l := Handle(m, Tick, Working());
      LackingJoins(g, l, m);
    }
  }

  // Whole runs

  ghost predicate CalmRun(g: Team, run: seq<Label>)
    decreases run
  {
    run == [] || (Calm(g, run[0]) && CalmRun(After(g, run[0]), run[1..]))
  }

  ghost predicate QuietRun(g: Team, run: seq<Label>): (quiet: bool)
    ensures quiet ==> CalmRun(g, run)
    decreases run
  {
    run == [] || (Quiet(g, run[0]) && QuietRun(After(g, run[0]), run[1..]))
  }

  ghost function End(g: Team, run: seq<Label>): Team
    requires CalmRun(g, run)
    decreases run
  {
    if run == [] then g else End(After(g, run[0]), run[1..])
  }

  ghost predicate Told(run: seq<Label>, m: string) {
    exists i :: 0 <= i < |run| && run[i].Handle? && run[i].name == m && run[i].event.Update?
  }

  lemma {:induction false} QuietRunReady(g: Team, run: seq<Label>)
    requires Ready(g) && QuietRun(g, run)
    ensures Ready(End(g, run)) && End(g, run).config == g.config && End(g, run).insts.Keys == g.insts.Keys
    ensures forall m :: m in g.insts && (g.insts[m].config == g.config || Told(run, m)) ==>
      End(g, run).insts[m].config == g.config
    decreases run
  {
    hide Ready, Enabled, After;
    if run != [] {
      QuietReady(g, run[0]);
      QuietRunReady(After(g, run[0]), run[1..]);
      forall m | Told(run, m) && !(run[0].Handle? && run[0].name == m && run[0].event.Update?)
        ensures Told(run[1..], m)
      {
        var i :| 0 <= i < |run| && run[i].Handle? && run[i].name == m && run[i].event.Update?;
        assert run[1..][i - 1] == run[i];
      }
    }
  }

  /** However the instances' configs differ, the group has settled once the stored config
      has reached each of them. */
  lemma Settles(g: Team, run: seq<Label>)
    requires Ready(g) && QuietRun(g, run)
    requires forall m :: m in g.insts ==> Told(run, m)
    ensures Settled(End(g, run)) && End(g, run).config == g.config
  {
    hide Staffed, NoneStuck, Enabled, After, Told;
    QuietRunReady(g, run);
  }

  /** How many steps of a run changed the distance. */
  ghost function Useful(g: Team, run: seq<Label>): nat
    requires QuietRun(g, run)
    decreases run
  {
    if run == [] then 0
    else Useful(After(g, run[0]), run[1..]) + if Distance(After(g, run[0])) != Distance(g) then 1 else 0
  }

  /** A quiet run never recreates a stale consumer or loses a running member, and at most
      Distance(g) of its steps change anything that is missing. */
  lemma {:induction false} QuietRunShrinks(g: Team, run: seq<Label>)
    requires Settled(g) && QuietRun(g, run)
    ensures Settled(End(g, run)) && End(g, run).config == g.config
    ensures Stale(End(g, run)) <= Stale(g) && Lacking(End(g, run)) <= Lacking(g)
    ensures Useful(g, run) + Distance(End(g, run)) <= Distance(g)
    decreases run
  {
    hide Settled, Enabled, Stale, Lacking, Distance, After;
    if run != [] {
      QuietStep(g, run[0]);
      QuietDistance(g, run[0]);
      QuietRunShrinks(After(g, run[0]), run[1..]);
    }
  }

  /** A step after which member `n` has no stale consumer: the consumer expires, or the
      member itself replaces it. */
  predicate Clears(g: Team, l: Label, n: string) {
    l == Expire(n) || (Want(g, n) != [] && Retry(l, n))
  }

  /** One clearing step somewhere in a quiet run is enough. */
  lemma {:induction false} StaleCleared(g: Team, run: seq<Label>, n: string)
    requires Settled(g) && QuietRun(g, run) && exists l :: l in run && Clears(g, l, n)
    ensures n !in Stale(End(g, run))
    decreases run
  {
    hide Settled, Enabled, Lacking, Distance, ConsumerFilters, Retry, Step;
    QuietStep(g, run[0]);
    QuietRunShrinks(After(g, run[0]), run[1..]);
    if run[0] == Expire(n) {
      assert n !in After(g, run[0]).consumers;
    } else if Clears(g, run[0], n) {
      OwnStaleReplaced(g, run[0], n);
    } else {
      var l :| l in run && Clears(g, l, n);
      assert l in run[1..] && Clears(After(g, run[0]), l, n);
      StaleCleared(After(g, run[0]), run[1..], n);
    }
  }

  lemma {:induction false} LackingFilled(g: Team, run: seq<Label>, m: string)
    requires Settled(g) && Servable(g.config) && Stale(g) == {} && QuietRun(g, run)
    requires exists l :: l in run && Retry(l, m)
    ensures m !in Lacking(End(g, run))
    decreases run
  {
    hide Settled, Enabled, Lacking, Stale, Distance, After, Servable, Retry;
    QuietStep(g, run[0]);
    QuietRunShrinks(After(g, run[0]), run[1..]);
    if m in Lacking(g) {
      if Retry(run[0], m) {
        LackingJoins(g, run[0], m);
      } else {
        var l :| l in run && Retry(l, m);
        assert l in run[1..];
        LackingFilled(After(g, run[0]), run[1..], m);
      }
    }
  }

  /** Fairness is enough: a quiet run in which first every stale consumer expires or is
      replaced by its own member, and then every member that is still not running tries once
      with calls that work, in any order and with any other quiet steps in between, ends with
      nothing missing. */
  lemma Converges(g: Team, first: seq<Label>, second: seq<Label>)
    requires Settled(g) && Servable(g.config)
    requires QuietRun(g, first) && QuietRun(End(g, first), second)
    requires forall n :: n in Stale(g) ==> exists l :: l in first && Clears(g, l, n)
    requires forall m :: m in Lacking(End(g, first)) ==> exists l :: l in second && Retry(l, m)
    ensures Converged(End(End(g, first), second))
  {
    hide Settled, Enabled, Lacking, Stale, Distance, After, Servable, Clears, Retry;
    var mid := End(g, first);
    QuietRunShrinks(g, first);
    forall n ensures n !in Stale(mid) {
      if n in Stale(g) { StaleCleared(g, first, n); }
    }
    QuietRunShrinks(mid, second);
    forall m ensures m !in Lacking(End(mid, second)) {
      if m in Lacking(mid) { LackingFilled(mid, second, m); }
    }
  }

  // Which groups can converge

  lemma {:induction false} CanConverge(g: Team) returns (run: seq<Label>)
    requires Settled(g) && Servable(g.config)
    ensures QuietRun(g, run) && Converged(End(g, run))
    decreases Distance(g)
  {
    hide Settled, Stale, Lacking, Distance, After, Servable, Enabled;
    if Converged(g) {
      run := [];
    } else {
      var l := AlwaysProgress(g);
      QuietStep(g, l);
      var rest := CanConverge(After(g, l));
      run := [l] + rest;
      assert run[1..] == rest;
    }
  }

  /** An instance with a handle on a consumer that it does not draw on. */
  ghost predicate Stuck(g: Team, m: string) {
    m in g.insts && g.insts[m].consumer.Some? && !g.insts[m].live
  }

  /** Neither the timer nor the same config nor an expiry helps it, however the calls go. */
  lemma StuckStays(g: Team, l: Label, m: string)
    requires Agreed(g) && Calm(g, l) && Stuck(g, m)
    ensures Agreed(After(g, l)) && After(g, l).config == g.config && Stuck(After(g, l), m)
  {
    hide ConsumerFilters, JoinGroup, Valid, Separate;
    StepKeepsSound(g, l);
    if l.Handle? { AgreedHandle(g.insts[l.name], g.consumers, l.name, l.event, l.io); }
  }

  /** A calm turn of an instance that has the stored config keeps it. */
  lemma AgreedHandle(inst: Inst, cs: Consumers, name: string, e: Event, io: JoinIO)
    requires Sound(inst, name) && inst.done == []
    requires e.Tick? || e.NoUpdate? || (e.Update? && e.config == inst.config)
    ensures var (inst', cs') := Step(inst, cs, name, e, io);
      && inst'.done == [] && inst'.config == inst.config
      && (inst.consumer.Some? ==> (inst', cs') == (inst, cs))
  {
    hide ConsumerFilters, Valid, TryCreate;
  }

  /** It lacks its consumer for as long as the config stays. */
  lemma {:induction false} StuckForever(g: Team, run: seq<Label>, m: string)
    requires Agreed(g) && CalmRun(g, run) && Stuck(g, m)
    ensures Stuck(End(g, run), m) && m in Lacking(End(g, run))
    decreases run
  {
    hide Agreed, Stuck, Lacking, Enabled, After;
    if run == [] {
      StuckLacks(g, m);
    } else {
      StuckStays(g, run[0], m);
      StuckForever(After(g, run[0]), run[1..], m);
    }
  }

  lemma StuckLacks(g: Team, m: string)
    requires Agreed(g) && Stuck(g, m)
    ensures m in Lacking(g)
  {
    hide ConsumerFilters, Valid;
  }

  /** A servable group whose instances have the stored config can still converge exactly when
      no instance holds a consumer that it does not draw on. */
  lemma ConvergesExactly(g: Team)
    requires Agreed(g) && Servable(g.config)
    ensures (exists run :: CalmRun(g, run) && Converged(End(g, run))) <==> NoneStuck(g)
  {
    hide Agreed, Servable, Lacking, Stale;
    if NoneStuck(g) {
      var run := CanConverge(g);
    } else {
      var m :| m in g.insts && g.insts[m].consumer.Some? && !g.insts[m].live;
      forall run | CalmRun(g, run) ensures !Converged(End(g, run)) { StuckForever(g, run, m); }
    }
  }

  /** Such instances occur: it takes one Consume call that fails after its consumer was made. */
  lemma StuckAtStart(g: Team, m: string)
    requires Fresh(g) && Servable(g.config) && Want(g, m) != []
    ensures var l := Label.Start(m, JoinIO(Answered, Answered, Answered, false));
      Enabled(g, l) && Stuck(After(g, l), m)
  {
    hide ConsumerFilters, SelfDisjoint, Valid;
    WantedIsMember(g, m);
  }

  /** A converged group serves every partition exactly once: a sourced subject of partition
      p is taken by one consumer, that of p's owner, and the owner is drawing on it. */
  lemma ConvergedServesAll(g: Team, p: nat, subject: string, name: string)
    requires Settled(g) && Converged(g) && HasMembers(g.config)
    requires p < g.config.maxMembers && Sourced(g.config, subject)
    ensures var t := Numeral(p) + "." + subject;
      && (name in g.consumers && AnyMatches(g.consumers[name], t) <==> name == OwnerOf(g.config, p))
      && OwnerOf(g.config, p) in g.insts && g.insts[OwnerOf(g.config, p)].live
  {
    hide ConsumerFilters;
    var owner := OwnerOf(g.config, p);
    OneOwner(g.config, name, p, subject);
    OneOwner(g.config, owner, p, subject);
    assert owner !in Lacking(g) && name !in Stale(g);
    assert Want(g, owner) != [];
  }

  // Starting a group

  /** All instances have the stored config, and what they should be drawing on they do. */
  ghost predicate Tidy(g: Team) {
    && TeamSound(g) && Converged(g)
    && forall m :: m in g.insts ==>
         && g.insts[m].done == [] && g.insts[m].config == g.config
         && (g.insts[m].consumer.Some? ==> g.insts[m].live)
  }

  function Starts(names: seq<string>): seq<Label> {
    if names == [] then [] else [Label.Start(names[0], Working())] + Starts(names[1..])
  }

  lemma StartJoins(g: Team, m: string)
    requires Tidy(g) && Servable(g.config) && m !in g.insts
    ensures var g' := After(g, Label.Start(m, Working()));
      Tidy(g') && g'.config == g.config && g'.insts.Keys == g.insts.Keys + {m}
  {
    hide ConsumerFilters, JoinGroup, Overlap, SelfDisjoint, Separate, Valid;
    var l := Label.Start(m, Working());
    var blank := Blank(g.config);
    assert Sound(blank, m);
    forall n | n in g.consumers && n != m ensures !Overlap(g.consumers[n], Want(g, m)) {
      assert n !in Stale(g);
      WantsApart(g, n, m);
    }
    if Want(g, m) != [] { WantedIsMember(g, m); }
    StepKeepsSound(g, l);
    JoinEffect(blank, g.consumers, m, Working());
    JoinProgress(blank, g.consumers, m, Working());
    var g' := After(g, l);
    forall n ensures n !in Stale(g') { assert n !in Stale(g); }
    forall n ensures n !in Lacking(g') { assert n !in Lacking(g); }
  }

  lemma {:induction false} StartsJoin(g: Team, names: seq<string>)
    requires Tidy(g) && Servable(g.config) && Distinct(names) && forall n :: n in names ==> n !in g.insts
    ensures Feasible(g, Starts(names))
    ensures var g' := Final(g, Starts(names));
      Tidy(g') && g'.config == g.config && g'.insts.Keys == g.insts.Keys + Elements(names)
    decreases names
  {
    hide Tidy, Servable, After;
    if names == [] {
      assert Elements(names) == {};
    } else {
      var l := Label.Start(names[0], Working());
      StartJoins(g, names[0]);
      assert names == [names[0]] + names[1..];
      assert Elements(names) == {names[0]} + Elements(names[1..]);
      StartsJoin(After(g, l), names[1..]);
      assert Starts(names)[1..] == Starts(names[1..]);
    }
  }

  /** A new group whose members all start, with calls that work, serves everything at once. */
  lemma FreshGroupServes(g: Team, names: seq<string>)
    requires Fresh(g) && Servable(g.config) && Distinct(names) && forall m :: Want(g, m) != [] ==> m in names
    ensures Feasible(g, Starts(names)) && Settled(Final(g, Starts(names))) && Converged(Final(g, Starts(names)))
  {
    hide ConsumerFilters, Servable, Valid;
    assert Stale(g) == {} && Lacking(g) == {};
    StartsJoin(g, names);
    forall m | Want(g, m) != [] ensures m in Elements(names) { assert m in names; }
  }
}
