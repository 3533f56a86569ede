// One instance of an elastic group member: the control routine that joins, leaves and
// corrects itself as configurations arrive.
module Instance {
  import opened Tokens
  import opened Config
  import opened Allocation
  import opened Server

  datatype Outcome = StoppedCleanly | WatcherClosed | BadJson | InvalidConfig | BadChange

  /** The fields of an instance. `consumer` is the handle, kept as the filters it was made
      with; `live` says that a consume context is running; `started` and `stopped` count
      those contexts; `done` is what has been sent on the done channel. */
  datatype Inst = Inst(
    config: Config,
    consumer: Option<seq<string>>,
    live: bool,
    started: nat,
    stopped: nat,
    done: seq<Outcome>
  )

  /** How the calls of one join go. */
  datatype JoinIO = JoinIO(create: Reply, delete: Reply, recreate: Reply, consume: bool)

  datatype Event =
    | Closed
    | NoUpdate
    | Deleted
    | Malformed
    | Update(config: Config, pinned: bool, drop: Reply)
    | Cancel
    | Tick

  // Specification

  function Blank(c: Config): Inst { Inst(c, None, false, 0, 0, []) }

  function Stopped(inst: Inst): Inst {
    if inst.consumer.None? then inst
    else inst.(consumer := None, live := false, stopped := inst.stopped + if inst.live then 1 else 0)
  }

  /** Create; when the name is taken by other filters, delete and create again. */
  function TryCreate(cs: Consumers, name: string, filters: seq<string>, io: JoinIO): (Consumers, bool) {
    var (cs1, r1) := Create(cs, name, filters, io.create);
    if !r1.Exists? then (cs1, r1.Created?)
    else
      var (cs2, deleted) := Delete(cs1, name, io.delete);
      if !deleted then (cs2, false)
      else var (cs3, r3) := Create(cs2, name, filters, io.recreate); (cs3, r3.Created?)
  }

  function JoinGroup(inst: Inst, cs: Consumers, name: string, io: JoinIO): (Inst, Consumers) {
    var filters := ConsumerFilters(inst.config, name);
    if filters == [] then (inst, cs)
    else
      var (cs', ok) := TryCreate(cs, name, filters, io);
      if !ok then (inst.(consumer := None), cs')
      else
        var started := inst.started + if io.consume then 1 else 0;
        (inst.(consumer := Some(filters), live := io.consume, started := started), cs')
  }

  function ProcessChange(inst: Inst, cs: Consumers, name: string, pinned: bool, drop: Reply,
      io: JoinIO): (Inst, Consumers) {
    var cs' := if inst.consumer.Some? && pinned then Delete(cs, name, drop).0 else cs;
    JoinGroup(Stopped(inst), cs', name, io)
  }

  function Finish(inst: Inst, outcome: Outcome): Inst {
    Stopped(inst).(done := inst.done + [outcome])
  }

  ghost function Step(inst: Inst, cs: Consumers, name: string, event: Event, io: JoinIO): (Inst, Consumers) {
    match event
    case Closed => (Finish(inst, WatcherClosed), cs)
    case NoUpdate => (inst, cs)
    case Deleted => (Finish(inst, StoppedCleanly), cs)
    case Malformed => (Finish(inst, BadJson), cs)
    case Update(c, pinned, drop) =>
      if !Valid(c) then (Finish(inst, InvalidConfig), cs)
      else if c.Fixed() != inst.config.Fixed() then (Finish(inst, BadChange), cs)
      else if inst.consumer.Some? && c.members == inst.config.members && c.mappings == inst.config.mappings then
        (inst, cs)
      else
        var moved := inst.(config := inst.config.(members := c.members, mappings := c.mappings));
        ProcessChange(moved, cs, name, pinned, drop, io)
    case Cancel => (Finish(inst, StoppedCleanly), cs)
    case Tick =>
      if inst.consumer.None? && inst.config.IsInMembership(name) then JoinGroup(inst, cs, name, io) else (inst, cs)
  }

  datatype Arrival = Arrival(event: Event, io: JoinIO, consumers: Consumers)

  /** The control routine: each event meets the consumers as others have left them; the
      first one that finishes the instance ends the run. */
  ghost function Run(inst: Inst, cs: Consumers, name: string, arrivals: seq<Arrival>): (Inst, Consumers)
    decreases arrivals
  {
    if arrivals == [] || inst.done != [] then (inst, cs)
    else
      var (inst', cs') := Step(inst, arrivals[0].consumers, name, arrivals[0].event, arrivals[0].io);
      Run(inst', cs', name, arrivals[1..])
  }

  // Lifecycle

  ghost predicate Sound(inst: Inst, name: string) {
    && Valid(inst.config)
    && (inst.consumer.Some? ==> inst.consumer.value == ConsumerFilters(inst.config, name) != [])
    && (inst.live ==> inst.consumer.Some?)
    && inst.started == inst.stopped + (if inst.live then 1 else 0)
    && |inst.done| <= 1
    && (inst.done != [] ==> inst.consumer.None?)
  }

  lemma JoinSound(inst: Inst, cs: Consumers, name: string, io: JoinIO)
    requires Sound(inst, name) && inst.consumer.None? && inst.done == []
    ensures Sound(JoinGroup(inst, cs, name, io).0, name)
    ensures JoinGroup(inst, cs, name, io).0.config == inst.config && JoinGroup(inst, cs, name, io).0.done == []
  {
  }

  /** What every handled event keeps: a consumer handle always has the filters of the current
      config, a running context has a handle, at most one context runs, the config stays
      valid and its fixed part unchanged, and finishing stops everything and reports once. */
  lemma StepSound(inst: Inst, cs: Consumers, name: string, event: Event, io: JoinIO)
    requires Sound(inst, name) && inst.done == []
    ensures Sound(Step(inst, cs, name, event, io).0, name)
    ensures Step(inst, cs, name, event, io).0.config.Fixed() == inst.config.Fixed()
  {
    match event {
      case Update(c, pinned, drop) =>
        if Valid(c) && c.Fixed() == inst.config.Fixed() {
          var moved := inst.config.(members := c.members, mappings := c.mappings);
          assert moved == c;
          var cs' := if inst.consumer.Some? && pinned then Delete(cs, name, drop).0 else cs;
          JoinSound(Stopped(inst.(config := moved)), cs', name, io);
        }
      case Tick => if inst.consumer.None? { JoinSound(inst, cs, name, io); }
      case _ =>
    }
  }

  lemma {:induction false} RunSound(inst: Inst, cs: Consumers, name: string, arrivals: seq<Arrival>)
    requires Sound(inst, name)
    ensures Sound(Run(inst, cs, name, arrivals).0, name)
    ensures Run(inst, cs, name, arrivals).0.config.Fixed() == inst.config.Fixed()
    decreases arrivals
  {
    if arrivals != [] && inst.done == [] {
      var (inst', cs') := Step(inst, arrivals[0].consumers, name, arrivals[0].event, arrivals[0].io);
      StepSound(inst, arrivals[0].consumers, name, arrivals[0].event, arrivals[0].io);
      RunSound(inst', cs', name, arrivals[1..]);
    }
  }

  /** An event that ends the instance: what it is reported as. */
  ghost function Ending(inst: Inst, event: Event): Option<Outcome> {
    match event
    case Closed => Some(WatcherClosed)
    case Deleted => Some(StoppedCleanly)
    case Cancel => Some(StoppedCleanly)
    case Malformed => Some(BadJson)
    case Update(c, _, _) =>
      if !Valid(c) then Some(InvalidConfig) else if c.Fixed() != inst.config.Fixed() then Some(BadChange) else None
    case _ => None
  }

  ghost predicate FirstEnding(inst: Inst, arrivals: seq<Arrival>, i: int) {
    && 0 <= i < |arrivals|
    && Ending(inst, arrivals[i].event).Some?
    && forall j :: 0 <= j < i ==> Ending(inst, arrivals[j].event).None?
  }

  ghost predicate Ends(inst: Inst, arrivals: seq<Arrival>) {
    exists i :: 0 <= i < |arrivals| && Ending(inst, arrivals[i].event).Some?
  }

  lemma StepEnding(inst: Inst, cs: Consumers, name: string, event: Event, io: JoinIO)
    requires Sound(inst, name) && inst.done == []
    ensures Step(inst, cs, name, event, io).0.done == match Ending(inst, event) case Some(o) => [o] case None => []
  {
    hide ConsumerFilters, Valid;
  }

  /** The outcome of the first ending event, if there is one. */
  ghost function FirstOutcome(inst: Inst, arrivals: seq<Arrival>): Option<Outcome>
    decreases arrivals
  {
    if arrivals == [] then None
    else match Ending(inst, arrivals[0].event)
      case Some(o) => Some(o)
      case None => FirstOutcome(inst, arrivals[1..])
  }

  lemma {:induction false} FirstOutcomeIs(inst: Inst, arrivals: seq<Arrival>)
    ensures match FirstOutcome(inst, arrivals)
      case Some(o) => exists i :: FirstEnding(inst, arrivals, i) && Ending(inst, arrivals[i].event) == Some(o)
      case None => !Ends(inst, arrivals)
    decreases arrivals
  {
    hide Ending;
    if arrivals != [] {
      var later := arrivals[1..];
      if Ending(inst, arrivals[0].event).Some? {
        assert FirstEnding(inst, arrivals, 0);
      } else {
        FirstOutcomeIs(inst, later);
        assert forall i :: 1 <= i < |arrivals| ==> later[i - 1] == arrivals[i];
        if FirstOutcome(inst, later).Some? {
          var i :| FirstEnding(inst, later, i) && Ending(inst, later[i].event) == FirstOutcome(inst, later);
          assert FirstEnding(inst, arrivals, i + 1);
        }
      }
    }
  }

  lemma {:induction false} SameOutcome(inst: Inst, inst': Inst, arrivals: seq<Arrival>)
    requires inst.config.Fixed() == inst'.config.Fixed()
    ensures FirstOutcome(inst, arrivals) == FirstOutcome(inst', arrivals)
    decreases arrivals
  {
    if arrivals != [] { SameOutcome(inst, inst', arrivals[1..]); }
  }

  /** A run reports exactly when an ending event has arrived, it reports the first of them,
      and then nothing is running. */
  lemma {:induction false} RunFinishes(inst: Inst, cs: Consumers, name: string, arrivals: seq<Arrival>)
    requires Sound(inst, name) && inst.done == []
    ensures var final := Run(inst, cs, name, arrivals).0;
      && final.done == (match FirstOutcome(inst, arrivals) case Some(o) => [o] case None => [])
      && (final.done != [] ==> !final.live && final.started == final.stopped)
    decreases arrivals
  {
    hide Step, Ending, Valid, ConsumerFilters;
    RunSound(inst, cs, name, arrivals);
    if arrivals != [] {
      var a := arrivals[0];
      var (inst', cs') := Step(inst, a.consumers, name, a.event, a.io);
      StepSound(inst, a.consumers, name, a.event, a.io);
      StepEnding(inst, a.consumers, name, a.event, a.io);
      if Ending(inst, a.event).None? {
        RunFinishes(inst', cs', name, arrivals[1..]);
        SameOutcome(inst, inst', arrivals[1..]);
      }
    }
  }

  // The same turn, call by call

  /** What an instance has yet to do before it looks at the next event. */
  datatype Todo = Rest | Drop(reply: Reply) | Make | Remove | Remake | Draw

  /** The part of a turn before its first call to the server. */
  ghost function Begin(inst: Inst, name: string, event: Event): (Inst, Todo) {
    match event
    case Update(c, pinned, drop) =>
      if !Valid(c) then (Finish(inst, InvalidConfig), Rest)
      else if c.Fixed() != inst.config.Fixed() then (Finish(inst, BadChange), Rest)
      else if inst.consumer.Some? && c.members == inst.config.members && c.mappings == inst.config.mappings then
        (inst, Rest)
      else
        var moved := inst.(config := inst.config.(members := c.members, mappings := c.mappings));
        (Stopped(moved), if inst.consumer.Some? && pinned then Drop(drop) else Make)
    case Tick => (inst, if inst.consumer.None? && inst.config.IsInMembership(name) then Make else Rest)
    case Closed => (Finish(inst, WatcherClosed), Rest)
    case NoUpdate => (inst, Rest)
    case Deleted => (Finish(inst, StoppedCleanly), Rest)
    case Malformed => (Finish(inst, BadJson), Rest)
    case Cancel => (Finish(inst, StoppedCleanly), Rest)
  }

  function Made(inst: Inst, filters: seq<string>, r: CreateResult, retry: Todo): (Inst, Todo) {
    match r
    case Created => (inst.(consumer := Some(filters)), Draw)
    case Exists => (inst.(consumer := None), retry)
    case Failed => (inst.(consumer := None), Rest)
  }

  function CallsLeft(todo: Todo): nat {
    match todo
    case Rest => 0
    case Draw => 1
    case Remake => 2
    case Remove => 3
    case Make => 4
    case Drop(_) => 5
  }

  /** The next call, for a member with these filters, and what is left to do after it. */
  function CallFor(filters: seq<string>, inst: Inst, todo: Todo, cs: Consumers, name: string,
      io: JoinIO): (r: (Inst, Todo, Consumers))
    ensures !todo.Rest? ==> CallsLeft(r.1) < CallsLeft(todo)
  {
    match todo
    case Rest => (inst, Rest, cs)
    case Drop(reply) => (inst, Make, Delete(cs, name, reply).0)
    case Make =>
      if filters == [] then (inst, Rest, cs)
      else
        var (cs', r) := Create(cs, name, filters, io.create);
        var (inst', todo') := Made(inst, filters, r, Remove);
        (inst', todo', cs')
    case Remove =>
      var (cs', deleted) := Delete(cs, name, io.delete);
      (inst, if deleted then Remake else Rest, cs')
    case Remake =>
      var (cs', r) := Create(cs, name, filters, io.recreate);
      var (inst', todo') := Made(inst, filters, r, Rest);
      (inst', todo', cs')
    case Draw => (inst.(live := io.consume, started := inst.started + if io.consume then 1 else 0), Rest, cs)
  }

  function Call(inst: Inst, todo: Todo, cs: Consumers, name: string, io: JoinIO): (r: (Inst, Todo, Consumers))
    ensures !todo.Rest? ==> CallsLeft(r.1) < CallsLeft(todo)
  {
    CallFor(ConsumerFilters(inst.config, name), inst, todo, cs, name, io)
  }

  /** All calls one after the other, with nobody else in between. */
  function Undisturbed(inst: Inst, todo: Todo, cs: Consumers, name: string, io: JoinIO): (Inst, Consumers)
    decreases CallsLeft(todo)
  {
    hide ConsumerFilters, CallFor;
    if todo.Rest? then (inst, cs)
    else var (inst', todo', cs') := Call(inst, todo, cs, name, io); Undisturbed(inst', todo', cs', name, io)
  }

  lemma JoinByCalls(inst: Inst, cs: Consumers, name: string, io: JoinIO)
    ensures Undisturbed(inst, Make, cs, name, io) == JoinGroup(inst, cs, name, io)
  {
    hide ConsumerFilters;
    var (inst1, todo1, cs1) := Call(inst, Make, cs, name, io);
    if todo1.Remove? {
      var (inst2, todo2, cs2) := Call(inst1, Remove, cs1, name, io);
      if todo2.Remake? {
        var (inst3, todo3, cs3) := Call(inst2, Remake, cs2, name, io);
      }
    }
  }

  /** Undisturbed, the calls of a turn add up to the step. */
  lemma TurnByCalls(inst: Inst, cs: Consumers, name: string, event: Event, io: JoinIO)
    ensures var (inst', todo) := Begin(inst, name, event);
      Undisturbed(inst', todo, cs, name, io) == Step(inst, cs, name, event, io)
  {
    hide ConsumerFilters, JoinGroup, Valid;
    var (inst', todo) := Begin(inst, name, event);
    if todo.Drop? {
      JoinByCalls(inst', Delete(cs, name, todo.reply).0, name, io);
    } else if todo.Make? {
      JoinByCalls(inst', cs, name, io);
    }
  }

  /** Between two calls the lifecycle invariant holds too, and it is known what is missing. */
  ghost predicate Midway(inst: Inst, todo: Todo, name: string) {
    && Sound(inst, name)
    && (!todo.Rest? ==> inst.done == [])
    && (!todo.Rest? && !todo.Draw? ==> inst.consumer.None?)
    && (todo.Draw? ==> inst.consumer.Some? && !inst.live)
    && (todo.Remove? || todo.Remake? ==> ConsumerFilters(inst.config, name) != [])
  }

  lemma BeginMidway(inst: Inst, name: string, event: Event)
    requires Sound(inst, name) && inst.done == []
    ensures var (inst', todo) := Begin(inst, name, event);
      Midway(inst', todo, name) && inst'.config.Fixed() == inst.config.Fixed()
  {
    hide ConsumerFilters, Valid;
    match event {
      case Update(c, pinned, drop) =>
        assert c.Fixed() == inst.config.Fixed() ==>
          inst.config.(members := c.members, mappings := c.mappings) == c;
      case _ =>
    }
  }

  lemma MadeMidway(inst: Inst, cs: Consumers, name: string, reply: Reply, retry: Todo)
    requires Sound(inst, name) && inst.done == [] && inst.consumer.None? && (retry.Remove? || retry.Rest?)
    requires Separate(cs) && ConsumerFilters(inst.config, name) != []
    ensures var filters := ConsumerFilters(inst.config, name);
      var (cs', r) := Create(cs, name, filters, reply);
      var (inst', todo) := Made(inst, filters, r, retry);
      && Midway(inst', todo, name) && inst'.config == inst.config
      && Separate(cs') && OwnOnly(cs, cs', name, filters)
  {
    hide ConsumerFilters, Valid, Separate, Admissible;
    CreateSeparate(cs, name, ConsumerFilters(inst.config, name), reply);
  }

  lemma DeleteOwnOnly(cs: Consumers, name: string, reply: Reply, want: seq<string>)
    requires Separate(cs)
    ensures Separate(Delete(cs, name, reply).0) && OwnOnly(cs, Delete(cs, name, reply).0, name, want)
  {
  }

  /** Every single call keeps the lifecycle invariant and the stream's consumers apart. */
  lemma CallMidway(inst: Inst, todo: Todo, cs: Consumers, name: string, io: JoinIO)
    requires Midway(inst, todo, name) && Separate(cs)
    ensures var (inst', todo', cs') := Call(inst, todo, cs, name, io);
      && Midway(inst', todo', name) && inst'.config == inst.config
      && Separate(cs') && OwnOnly(cs, cs', name, ConsumerFilters(inst.config, name))
  {
    hide ConsumerFilters, Valid, Separate, Create, Delete, Made;
    var filters := ConsumerFilters(inst.config, name);
    match todo {
      case Drop(reply) => DeleteOwnOnly(cs, name, reply, filters);
      case Make => if filters != [] { MadeMidway(inst, cs, name, io.create, Remove); }
      case Remove => DeleteOwnOnly(cs, name, io.delete, filters);
      case Remake => MadeMidway(inst, cs, name, io.recreate, Rest);
      case _ =>
    }
  }

  // The class

  class ElasticInstance {
    const memberName: string
    const js: JetStream
    var config: Config
    var consumer: Option<seq<string>>
    var consuming: bool
    var started: nat
    var stopped: nat
    var done: seq<Outcome>

    ghost function State(): Inst
      reads this
    {
      Inst(config, consumer, consuming, started, stopped, done)
    }

    /** ElasticConsume: the first join happens before the routine starts. */
    constructor (js: JetStream, config: Config, memberName: string, io: JoinIO)
      requires Valid(config)
      modifies js
      ensures this.js == js && this.memberName == memberName
      ensures Sound(State(), memberName) && done == []
      ensures var blank := Blank(config);
        (State(), js.consumers)
        == if config.IsInMembership(memberName) then JoinGroup(blank, old(js.consumers), memberName, io)
           else (blank, old(js.consumers))
    {
      this.js, this.config, this.memberName := js, config, memberName;
      consumer, consuming, started, stopped, done := None, false, 0, 0, [];
      new;
      if config.IsInMembership(memberName) {
        JoinSound(State(), js.consumers, memberName, io);
        JoinMemberConsumer(io);
      }
    }

    method StopConsuming()
      modifies this
      ensures State() == Stopped(old(State()))
    {
      if consumer != None {
        if consuming {
          stopped := stopped + 1;
          consuming := false;
        }
        consumer := None;
      }
    }

    method TryCreateConsumer(filters: seq<string>, io: JoinIO) returns (ok: bool)
      modifies js
      ensures (js.consumers, ok) == TryCreate(old(js.consumers), memberName, filters, io)
    {
      var r := js.CreateConsumer(memberName, filters, io.create);
      if r == Exists {
        var deleted := js.DeleteConsumer(memberName, io.delete);
        if !deleted { return false; }
        r := js.CreateConsumer(memberName, filters, io.recreate);
      }
      return r == Created;
    }

    method JoinMemberConsumer(io: JoinIO)
      requires consumer == None && !consuming
      modifies this, js
      ensures (State(), js.consumers) == JoinGroup(old(State()), old(js.consumers), memberName, io)
    {
      hide ConsumerFilters;
      var filters := ElasticGetPartitionFilters(config, memberName);
      if |filters| == 0 { return; }
      var ok := TryCreateConsumer(filters, io);
      if !ok {
        consumer := None;
        return;
      }
      consumer := Some(filters);
      StartConsuming(io.consume);
    }

    method StartConsuming(works: bool)
      requires !consuming
      modifies this
      ensures State() == old(State()).(live := works, started := old(started) + if works then 1 else 0)
    {
      consuming := works;
      if works { started := started + 1; }
    }

    method ProcessMembershipChange(pinned: bool, drop: Reply, io: JoinIO)
      requires consuming ==> consumer != None
      modifies this, js
      ensures (State(), js.consumers) == ProcessChange(old(State()), old(js.consumers), memberName, pinned, drop, io)
    {
      var isPinned := false;
      if consumer != None {
        isPinned := pinned;
        StopConsuming();
      }
      if isPinned {
        var _ := js.DeleteConsumer(memberName, drop);
      }
      JoinMemberConsumer(io);
    }

    method Send(outcome: Outcome)
      modifies this
      ensures State() == old(State()).(done := old(done) + [outcome])
    {
      done := done + [outcome];
    }

    /** One turn of the control routine's select. */
    method Handle(event: Event, io: JoinIO)
      requires Sound(State(), memberName) && done == []
      modifies this, js
      ensures (State(), js.consumers) == Step(old(State()), old(js.consumers), memberName, event, io)
      ensures Sound(State(), memberName)
    {
      StepSound(State(), js.consumers, memberName, event, io);
      match event {
        case Closed => StopConsuming(); Send(WatcherClosed);
        case NoUpdate =>
        case Deleted => StopConsuming(); Send(StoppedCleanly);
        case Malformed => StopConsuming(); Send(BadJson);
        case Update(c, pinned, drop) =>
          var err := ValidateConfig(c);
          if err.Some? {
            StopConsuming();
            Send(InvalidConfig);
          } else if c.Fixed() != config.Fixed() {
            StopConsuming();
            Send(BadChange);
          } else if consumer != None && c.members == config.members && c.mappings == config.mappings {
          } else {
            config := config.(members := c.members, mappings := c.mappings);
            ProcessMembershipChange(pinned, drop, io);
          }
        case Cancel => StopConsuming(); Send(StoppedCleanly);
        case Tick =>
          if consumer == None && config.IsInMembership(memberName) {
            JoinMemberConsumer(io);
          }
      }
    }

    /** instanceRoutine over the events that arrive. */
    method InstanceRoutine(arrivals: seq<Arrival>)
      requires Sound(State(), memberName)
      modifies this, js
      ensures (State(), js.consumers) == Run(old(State()), old(js.consumers), memberName, arrivals)
      ensures Sound(State(), memberName)
    {
      var i := 0;
      while i < |arrivals| && done == []
        invariant i <= |arrivals| && Sound(State(), memberName)
        invariant Run(old(State()), old(js.consumers), memberName, arrivals)
          == Run(State(), js.consumers, memberName, arrivals[i..])
      {
        js.consumers := arrivals[i].consumers;
        Handle(arrivals[i].event, arrivals[i].io);
        assert arrivals[i..][1..] == arrivals[i + 1..];
        i := i + 1;
      }
    }
  }
}
