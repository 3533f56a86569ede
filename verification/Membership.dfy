// The administrative writers of an elastic group's config, interleaved in any order: each
// reads the stored config, computes a new one, and writes it back.
module Membership {
  import opened Tokens
  import opened Names
  import opened Config

  // The new configs

  ghost function Added(members: set<string>, names: seq<string>): (r: set<string>)
    ensures forall m :: m in r <==> m in members || (m in names && m != "")
  {
    members + (Elements(names) - {""})
  }

  /** AddMembers after the read: the union of old and new names, in the order in which Go
      happens to walk the map. */
  method AddMembers(c: Config, names: seq<string>) returns (r: Option<Config>)
    ensures r.None? <==> names == [] || c.mappings != []
    ensures r.Some? ==> r.value == c.(members := r.value.members)
    ensures r.Some? ==> Distinct(r.value.members) && Elements(r.value.members) == Added(Elements(c.members), names)
  {
    if |names| == 0 || |c.mappings| != 0 { return None; }
    var existing: set<string> := {};
    for i := 0 to |c.members|
      invariant existing == Elements(c.members[..i])
    {
      existing := existing + {c.members[i]};
    }
    assert c.members[..|c.members|] == c.members;
    for i := 0 to |names|
      invariant existing == Added(Elements(c.members), names[..i])
    {
      assert Elements(names[..i + 1]) == Elements(names[..i]) + {names[i]};
      if names[i] != "" { existing := existing + {names[i]}; }
    }
    assert names[..|names|] == names;
    var newMembers, rest := [], existing;
    while rest != {}
      invariant Distinct(newMembers) && Elements(newMembers) !! rest && Elements(newMembers) + rest == existing
    {
      var m :| m in rest;
      assert Elements(newMembers + [m]) == Elements(newMembers) + {m};
      assert m !in Elements(newMembers);
      newMembers, rest := newMembers + [m], rest - {m};
    }
    r := Some(c.(members := newMembers));
  }

  function Without(members: seq<string>, names: seq<string>): seq<string> {
    if members == [] then []
    else
      var last := members[|members| - 1];
      Without(members[..|members| - 1], names) + if last in names then [] else [last]
  }

  lemma {:induction false} WithoutElements(members: seq<string>, names: seq<string>)
    ensures Elements(Without(members, names)) == Elements(members) - Elements(names)
  {
    if members != [] {
      var init := members[..|members| - 1];
      WithoutElements(init, names);
      assert Elements(members) == Elements(init) + {members[|members| - 1]};
      assert Elements(Without(members, names))
        == Elements(Without(init, names))
           + if members[|members| - 1] in names then {} else {members[|members| - 1]};
    }
  }

  method DeleteMembers(c: Config, names: seq<string>) returns (r: Option<Config>)
    ensures r.None? <==> names == [] || c.mappings != []
    ensures r.Some? ==> r.value == c.(members := Without(c.members, names))
  {
    if |names| == 0 || |c.mappings| != 0 { return None; }
    var dropping: set<string> := {};
    for i := 0 to |names|
      invariant dropping == Elements(names[..i])
    {
      dropping := dropping + {names[i]};
    }
    assert names[..|names|] == names;
    var newMembers := [];
    for i := 0 to |c.members|
      invariant newMembers == Without(c.members[..i], names)
    {
      assert c.members[..i + 1][..i] == c.members[..i];
      if c.members[i] !in dropping { newMembers := newMembers + [c.members[i]]; }
    }
    assert c.members[..|c.members|] == c.members;
    r := Some(c.(members := newMembers));
  }

  method SetMemberMappings(c: Config, mappings: seq<MemberMapping>) returns (r: Option<Config>)
    ensures r.Some? <==> mappings != [] && Valid(c.(members := [], mappings := mappings))
    ensures r.Some? ==> r.value == c.(members := [], mappings := mappings)
  {
    if |mappings| == 0 { return None; }
    var c' := c;
    if |c'.members| != 0 { c' := c'.(members := []); }
    c' := c'.(mappings := mappings);
    var err := ValidateConfig(c');
    r := if err.Some? then None else Some(c');
  }

  method DeleteMemberMappings(c: Config) returns (r: Config)
    ensures r == c.(mappings := [])
  {
    r := c;
    r := r.(mappings := []);
  }

  /** Dropping goes through the members one by one and keeps their order. */
  lemma {:induction false} WithoutExactly(a: seq<string>, b: seq<string>, names: seq<string>)
    ensures Without(a + b, names) == Without(a, names) + Without(b, names)
    ensures |b| == 1 ==> Without(b, names) == if b[0] in names then [] else b
  {
    if b == [] {
      assert a + b == a;
    } else {
      var init, last := b[..|b| - 1], b[|b| - 1];
      var kept := if last in names then [] else [last];
      WithoutExactly(a, init, names);
      assert (a + b)[..|a + b| - 1] == a + init && (a + b)[|a + b| - 1] == last;
      assert Without(a + b, names) == Without(a + init, names) + kept;
      assert Without(b, names) == Without(init, names) + kept;
      assert |b| == 1 ==> init == [] && b == [last] && Without(init, names) == [];
    }
  }

  // The writers as concurrent processes

  datatype Op =
    | Create(config: Config)
    | Add(names: seq<string>)
    | Drop(names: seq<string>)
    | SetMappings(mappings: seq<MemberMapping>)
    | ClearMappings

  datatype Versioned = Versioned(config: Config, revision: nat)

  /** A writer between its read and its write. */
  datatype Writer = Writer(op: Op, read: Option<Versioned>)

  datatype Commit = Commit(op: Op, config: Config)

  datatype World = World(stored: Option<Versioned>, last: nat, writers: map<nat, Writer>, log: seq<Commit>)

  datatype Label =
    | Read(id: nat, op: Op)
    | Write(id: nat, order: seq<string>)
    | Remove

  /** The config a writer computes from the one it read; `order` lists the names that Add
      ends up with. None when the call fails before writing. */
  ghost function Proposed(op: Op, c: Config, order: seq<string>): Option<Config> {
    match op
    case Create(_) => None
    case Add(names) => if names == [] || c.mappings != [] then None else Some(c.(members := order))
    case Drop(names) => if names == [] || c.mappings != [] then None else Some(c.(members := Without(c.members, names)))
    case SetMappings(ms) =>
      var c' := c.(members := [], mappings := ms);
      if ms == [] || !Valid(c') then None else Some(c')
    case ClearMappings => Some(c.(mappings := []))
  }

  predicate Conditional(op: Op) { op.Add? || op.Drop? }

  ghost predicate Enabled(w: World, l: Label) {
    match l
    case Read(id, op) => id !in w.writers
    case Write(id, order) =>
      && id in w.writers
      && (w.writers[id].op.Add? && w.writers[id].read.Some? ==>
            && Distinct(order)
            && Elements(order) == Added(Elements(w.writers[id].read.value.config.members), w.writers[id].op.names))
    case Remove => true
  }

  ghost function Committed(w: World, id: nat, op: Op, c: Config): World {
    var stored := Some(Versioned(c, w.last + 1));
    w.(stored := stored, last := w.last + 1, writers := w.writers - {id}, log := w.log + [Commit(op, c)])
  }

  ghost function After(w: World, l: Label): World
    requires Enabled(w, l)
  {
    match l
    case Read(id, op) =>
      // validation of what is to be created or of what was read comes first
      var proceeds := match op
        case Create(c) => Valid(c)
        case _ => w.stored.Some? && Valid(w.stored.value.config);
      if proceeds then w.(writers := w.writers[id := Writer(op, w.stored)]) else w
    case Write(id, order) =>
      var writer := w.writers[id];
      var gone := w.(writers := w.writers - {id});
      (match writer.read
       case None => if writer.op.Create? then Committed(w, id, writer.op, writer.op.config) else gone
       case Some(read) =>
         match Proposed(writer.op, read.config, order)
         case None => gone
         case Some(c) =>
           // Update succeeds only at the revision read; Put always does
           if Conditional(writer.op) && !(w.stored.Some? && w.stored.value.revision == read.revision) then gone
           else Committed(w, id, writer.op, c))
    case Remove => w.(stored := None, last := w.last + 1)
  }

  ghost predicate Feasible(w: World, run: seq<Label>)
    decreases run
  {
    run == [] || (Enabled(w, run[0]) && Feasible(After(w, run[0]), run[1..]))
  }

  ghost function Final(w: World, run: seq<Label>): World
    requires Feasible(w, run)
    decreases run
  {
    if run == [] then w else Final(After(w, run[0]), run[1..])
  }

  // Every stored config is valid

  ghost predicate GoodRead(w: World, v: Versioned) {
    && Valid(v.config) && v.revision <= w.last
    && (w.stored.Some? && w.stored.value.revision == v.revision ==> w.stored.value.config == v.config)
  }

  ghost predicate Consistent(w: World) {
    && (w.stored.Some? ==> GoodRead(w, w.stored.value))
    && forall id :: id in w.writers ==>
         && (w.writers[id].read.Some? ==> GoodRead(w, w.writers[id].read.value))
         && (w.writers[id].op.Create? ==> Valid(w.writers[id].op.config))
         && (w.writers[id].read.None? ==> w.writers[id].op.Create?)
  }

  /** Whatever a writer computes from a valid config is valid again. */
  lemma ProposedValid(op: Op, c: Config, order: seq<string>)
    requires Valid(c) && Proposed(op, c, order).Some?
    ensures Valid(Proposed(op, c, order).value) && Proposed(op, c, order).value.Fixed() == c.Fixed()
  {
  }

  lemma StepConsistent(w: World, l: Label)
    requires Consistent(w) && Enabled(w, l)
    ensures Consistent(After(w, l))
  {
    hide Valid, Proposed;
    if l.Write? && w.writers[l.id].read.Some? {
      var c := w.writers[l.id].read.value.config;
      if Proposed(w.writers[l.id].op, c, l.order).Some? {
        ProposedValid(w.writers[l.id].op, c, l.order);
      }
    }
  }

  /** In any interleaving of creation, membership changes, mapping changes and removal, the
      stored config always passes the validator, so no watcher is ever sent one that fails it. */
  lemma {:induction false} StoredValid(w: World, run: seq<Label>)
    requires Consistent(w) && Feasible(w, run)
    ensures Consistent(Final(w, run))
    ensures Final(w, run).stored.Some? ==> Valid(Final(w, run).stored.value.config)
    decreases run
  {
    hide Valid, Enabled, After;
    if run != [] {
      StepConsistent(w, run[0]);
      StoredValid(After(w, run[0]), run[1..]);
    }
  }

  /** What a writer that has found `c` may write: names that come or go while there are no
      mappings, mappings in place of the members if the result is valid, no mappings. */
  ghost predicate Writes(op: Op, c: Config, order: seq<string>, c': Config) {
    match op
    case Create(_) => false
    case Add(names) => names != [] && c.mappings == [] && c' == c.(members := order)
    case Drop(names) => names != [] && c.mappings == [] && c' == c.(members := Without(c.members, names))
    case SetMappings(ms) => ms != [] && c' == c.(members := [], mappings := ms) && Valid(c')
    case ClearMappings => c' == c.(mappings := [])
  }

  /** A call gets past its read exactly when what it is to create is valid, or the group that
      it is to change is there, and goes on from what is stored at that moment. */
  lemma ReadExactly(w: World, id: nat, op: Op)
    requires Consistent(w) && Enabled(w, Read(id, op))
    ensures var w' := After(w, Read(id, op));
      && (id in w'.writers <==> if op.Create? then Valid(op.config) else w.stored.Some?)
      && w' == w.(writers := if id in w'.writers then w.writers[id := Writer(op, w.stored)] else w.writers)
  {
    hide Valid;
  }

  /** A creation writes what it was given where there was nothing to read; the others write as
      above what they have made of what they read, names only if it is still there; and a
      write that does not happen changes nothing that is stored. */
  lemma WriteExactly(w: World, id: nat, order: seq<string>, c': Config)
    requires Enabled(w, Write(id, order))
    ensures var writer, w' := w.writers[id], After(w, Write(id, order));
      var may := match writer.read
        case None => writer.op == Create(c')
        case Some(read) =>
          && Writes(writer.op, read.config, order, c')
          && (Conditional(writer.op) ==> w.stored.Some? && w.stored.value.revision == read.revision);
      && (may <==> w'.log == w.log + [Commit(writer.op, c')])
      && (may ==> w'.stored == Some(Versioned(c', w.last + 1)) && w'.last == w.last + 1)
      && (w'.log == w.log ==> w' == w.(writers := w.writers - {id}))
  {
    hide Valid;
    var writer, w' := w.writers[id], After(w, Write(id, order));
    assert w'.log == w.log + [Commit(writer.op, c')] ==> w'.log[|w.log|] == Commit(writer.op, c');
    assert w'.log == w.log || |w'.log| == |w.log| + 1;
  }

  // The fixed part of a group's config

  /** The fixed part of what is stored, if anything is. */
  function FixedOf(v: Option<Versioned>): Option<(nat, seq<PartitioningFilter>, int, int)> {
    match v case None => None case Some(x) => Some(x.config.Fixed())
  }

  /** The mapping writers, which write whatever has been stored since they read. */
  predicate Blind(op: Op) { op.SetMappings? || op.ClearMappings? }

  /** A pending write that would store another fixed part than is stored now: a creation that
      had found nothing, or a mapping writer that read before a removal. */
  ghost predicate Threat(w: World, id: nat) {
    && id in w.writers
    && match w.writers[id].read
       case None => w.writers[id].op.Create? && Some(w.writers[id].op.config.Fixed()) != FixedOf(w.stored)
       case Some(read) =>
         && Blind(w.writers[id].op) && Proposed(w.writers[id].op, read.config, []).Some?
         && Some(read.config.Fixed()) != FixedOf(w.stored)
  }

  ghost predicate Changes(w: World, l: Label) {
    match l
    case Remove => w.stored.Some?
    case Write(id, _) => Threat(w, id)
    case Read(_, _) => false
  }

  /** The stored fixed part changes at exactly these steps: a removal, and the write of a
      creation or of a mapping writer that started from something else. */
  lemma FixedChangesExactly(w: World, l: Label)
    requires Consistent(w) && Enabled(w, l)
    ensures FixedOf(After(w, l).stored) != FixedOf(w.stored) <==> Changes(w, l)
  {
    hide Valid;
    if l.Write? && w.writers[l.id].read.Some? {
      var writer := w.writers[l.id];
      if Proposed(writer.op, writer.read.value.config, l.order).Some? {
        ProposedValid(writer.op, writer.read.value.config, l.order);
      }
    }
  }

  ghost predicate NoThreat(w: World) { forall id :: id in w.writers ==> !Threat(w, id) }

  /** Nobody who starts now becomes a threat, unless the group is removed. */
  lemma StaysSafe(w: World, l: Label)
    requires Consistent(w) && w.stored.Some? && NoThreat(w) && Enabled(w, l) && l != Remove
    ensures After(w, l).stored.Some? && NoThreat(After(w, l)) && FixedOf(After(w, l).stored) == FixedOf(w.stored)
  {
    hide Valid, Proposed;
    FixedChangesExactly(w, l);
  }

  lemma {:induction false} SafeRun(w: World, run: seq<Label>)
    requires Consistent(w) && w.stored.Some? && NoThreat(w) && Feasible(w, run) && Remove !in run
    ensures FixedOf(Final(w, run).stored) == FixedOf(w.stored)
    decreases run
  {
    hide Enabled, After, Consistent, NoThreat, FixedOf;
    if run != [] {
      StepConsistent(w, run[0]);
      StaysSafe(w, run[0]);
      assert forall l :: l in run[1..] ==> l in run;
      SafeRun(After(w, run[0]), run[1..]);
    }
  }

  ghost predicate Undisturbed(w: World, run: seq<Label>) { Feasible(w, run) && Remove !in run }

  /** The fixed part of an existing group stays in every run without a removal, whatever is
      called, exactly when no write that is already pending is a threat to it. */
  lemma FixedKeptExactly(w: World)
    requires Consistent(w) && w.stored.Some?
    ensures (forall run :: Undisturbed(w, run) ==> FixedOf(Final(w, run).stored) == FixedOf(w.stored)) <==> NoThreat(w)
  {
    hide Consistent, FixedOf, Proposed;
    if NoThreat(w) {
      forall run | Undisturbed(w, run) ensures FixedOf(Final(w, run).stored) == FixedOf(w.stored) { SafeRun(w, run); }
    } else {
      var id :| id in w.writers && Threat(w, id);
      ThreatWrites(w, id);
    }
  }

  lemma ThreatWrites(w: World, id: nat)
    requires Consistent(w) && Threat(w, id)
    ensures Undisturbed(w, [Write(id, [])]) && FixedOf(Final(w, [Write(id, [])]).stored) != FixedOf(w.stored)
  {
    hide Valid, Proposed;
    var l := Write(id, []);
    FixedChangesExactly(w, l);
    EmptyRun(After(w, l));
    Prefixed(w, l, []);
    assert [l] + [] == [l];
  }

  lemma EmptyRun(w: World)
    ensures Feasible(w, []) && Final(w, []) == w
  {
  }

  lemma Prefixed(w: World, l: Label, rest: seq<Label>)
    requires Enabled(w, l) && Feasible(After(w, l), rest)
    ensures Feasible(w, [l] + rest) && Final(w, [l] + rest) == Final(After(w, l), rest)
  {
    hide Enabled, After;
    assert ([l] + rest)[1..] == rest;
  }

  lemma FourSteps(w: World, l1: Label, l2: Label, l3: Label, l4: Label)
    requires Enabled(w, l1) && Enabled(After(w, l1), l2) && Enabled(After(After(w, l1), l2), l3)
    requires Enabled(After(After(After(w, l1), l2), l3), l4)
    ensures Feasible(w, [l1, l2, l3, l4])
    ensures Final(w, [l1, l2, l3, l4]) == After(After(After(After(w, l1), l2), l3), l4)
  {
    hide Enabled, After;
    var w1 := After(w, l1);
    var w2 := After(w1, l2);
    var w3 := After(w2, l3);
    Prefixed(w3, l4, []);
    Prefixed(w2, l3, [l4] + []);
    Prefixed(w1, l2, [l3] + ([l4] + []));
    Prefixed(w, l1, [l2] + ([l3] + ([l4] + [])));
    assert [l1] + ([l2] + ([l3] + ([l4] + []))) == [l1, l2, l3, l4];
  }

  /** Two creations that both find nothing stored both write: the second replaces the fixed
      part that instances of the first may already rely on. */
  lemma RacingCreations(c: Config, d: Config)
    requires Valid(c) && Valid(d)
    ensures var w := World(None, 0, map[], []);
      var run := [Read(1, Create(c)), Read(2, Create(d)), Write(1, []), Write(2, [])];
      && Feasible(w, run) && Final(w, run).stored == Some(Versioned(d, 2))
      && Final(w, run).log == [Commit(Create(c), c), Commit(Create(d), d)]
  {
    hide Valid, Feasible, Final;
    var w := World(None, 0, map[], []);
    var l1, l2, l3, l4 := Read(1, Create(c)), Read(2, Create(d)), Write(1, []), Write(2, []);
    var w1 := After(w, l1);
    assert w1.writers == map[1 := Writer(Create(c), None)];
    var w2 := After(w1, l2);
    assert w2.writers == map[1 := Writer(Create(c), None), 2 := Writer(Create(d), None)];
    var w3 := After(w2, l3);
    assert w3.writers == map[2 := Writer(Create(d), None)];
    FourSteps(w, l1, l2, l3, l4);
  }

  // Conditional updates lose nothing

  ghost function Effect(members: set<string>, op: Op): set<string> {
    match op
    case Add(names) => Added(members, names)
    case Drop(names) => members - Elements(names)
    case _ => members
  }

  ghost function Fold(members: set<string>, commits: seq<Commit>): set<string>
    decreases commits
  {
    if commits == [] then members else Fold(Effect(members, commits[0].op), commits[1..])
  }

  ghost predicate OnlyConditional(run: seq<Label>) {
    forall i :: 0 <= i < |run| ==> run[i] != Remove && (run[i].Read? ==> Conditional(run[i].op))
  }

  ghost predicate ConditionalWriters(w: World) {
    forall id :: id in w.writers ==> Conditional(w.writers[id].op)
  }

  lemma StepEffect(w: World, l: Label)
    requires Consistent(w) && ConditionalWriters(w) && w.stored.Some? && Enabled(w, l)
    requires l != Remove && (l.Read? ==> Conditional(l.op))
    ensures var w' := After(w, l);
      && ConditionalWriters(w') && w'.stored.Some?
      && (w' == w.(writers := w'.writers) ||
          exists commit ::
            && w'.log == w.log + [commit] && w'.last == w.last + 1
            && w'.stored.value == Versioned(commit.config, w'.last)
            && Elements(commit.config.members) == Effect(Elements(w.stored.value.config.members), commit.op))
  {
    hide Valid;
    if l.Write? {
      var writer := w.writers[l.id];
      var c := writer.read.value.config;
      WithoutElements(c.members, writer.op.names);
      if After(w, l).log != w.log {
        var commit := Commit(writer.op, Proposed(writer.op, c, l.order).value);
        assert After(w, l).log == w.log + [commit];
      }
    }
  }

  /** With only AddMembers and DeleteMembers running, from any number of processes, the final
      members are the committed calls applied one after the other in the order of their
      revisions: no committed call is ever overwritten. */
  lemma {:induction false} NothingLost(w: World, run: seq<Label>) returns (commits: seq<Commit>)
    requires Consistent(w) && ConditionalWriters(w) && w.stored.Some?
    requires Feasible(w, run) && OnlyConditional(run)
    ensures var final := Final(w, run);
      && final.log == w.log + commits && final.last == w.last + |commits| && final.stored.Some?
      && Elements(final.stored.value.config.members) == Fold(Elements(w.stored.value.config.members), commits)
    decreases run
  {
    hide Enabled, After, Consistent;
    if run == [] {
      commits := [];
    } else {
      StepConsistent(w, run[0]);
      StepEffect(w, run[0]);
      var w' := After(w, run[0]);
      forall i | 0 <= i < |run[1..]|
        ensures run[1..][i] != Remove && (run[1..][i].Read? ==> Conditional(run[1..][i].op))
      {
        assert run[1..][i] == run[i + 1];
      }
      commits := NothingLost(w', run[1..]);
      if w'.log != w.log {
        var commit :|
          && w'.log == w.log + [commit] && w'.last == w.last + 1 && w'.stored.value == Versioned(commit.config, w'.last)
          && Elements(commit.config.members) == Effect(Elements(w.stored.value.config.members), commit.op);
        assert ([commit] + commits)[1..] == commits;
        commits := [commit] + commits;
      }
    }
  }

  // What an unconditional write overwrites

  /** What a mapping writer would leave if it read and wrote now: a group that is not there is
      not found, and an invalid result is not written. */
  ghost function Intended(stored: Option<Versioned>, op: Op): Option<Config> {
    match stored
    case None => None
    case Some(now) => match Proposed(op, now.config, []) case Some(c) => Some(c) case None => Some(now.config)
  }

  function ConfigOf(v: Option<Versioned>): Option<Config> { match v case None => None case Some(x) => Some(x.config) }

  /** Setting the mappings replaces the members, whoever put them there; clearing them brings
      the members back as they were read; and both bring back the fixed part, and the group
      itself if it has been removed. So a write without a revision leaves what it is meant to
      leave exactly when the group is there with the fixed part that was read and, for a
      clearing, with the members that were read. It can only fail to if the stored revision is
      no longer the one that was read. */
  lemma BlindWriteExactly(w: World, id: nat)
    requires Consistent(w) && id in w.writers && Blind(w.writers[id].op) && w.writers[id].read.Some?
    requires Proposed(w.writers[id].op, w.writers[id].read.value.config, []).Some?
    ensures var writer := w.writers[id];
      var read := writer.read.value;
      var meant := ConfigOf(After(w, Write(id, [])).stored) == Intended(w.stored, writer.op);
      && (meant <==>
            && FixedOf(w.stored) == Some(read.config.Fixed())
            && (writer.op.SetMappings? || w.stored.value.config.members == read.config.members))
      && (!meant ==> w.stored.None? || w.stored.value.revision != read.revision)
  {
    hide Valid;
    var read := w.writers[id].read.value.config;
    if w.stored.Some? {
      var now := w.stored.value.config;
      if w.writers[id].op.SetMappings? && now.Fixed() == read.Fixed() {
        var ms := w.writers[id].op.mappings;
        assert read.(members := [], mappings := ms) == now.(members := [], mappings := ms);
      }
    }
  }

  /** A mapping writer that read before a removal and a new creation brings back the fixed
      part of the removed group, and with it ends the instances of the new one. */
  lemma StaleWriteReplaces(c: Config, d: Config)
    requires Valid(c) && Valid(d)
    ensures var w := World(Some(Versioned(c, 0)), 0, map[], []);
      var run := [Read(1, ClearMappings), Remove, Read(2, Create(d)), Write(2, []), Write(1, [])];
      && Feasible(w, run) && Feasible(w, run[..4])
      && Final(w, run[..4]).stored == Some(Versioned(d, 2))
      && Final(w, run).stored == Some(Versioned(c.(mappings := []), 3))
  {
    hide Valid, Feasible, Final;
    var start := Some(Versioned(c, 0));
    var w := World(start, 0, map[], []);
    var l1, l2, l3, l4, l5 := Read(1, ClearMappings), Remove, Read(2, Create(d)), Write(2, []), Write(1, []);
    var w1 := After(w, l1);
    assert w1.writers == map[1 := Writer(ClearMappings, start)];
    var w2 := After(w1, l2);
    var w3 := After(w2, l3);
    assert w3.writers == map[1 := Writer(ClearMappings, start), 2 := Writer(Create(d), None)];
    var w4 := After(w3, l4);
    assert w4.writers == map[1 := Writer(ClearMappings, start)];
    FourSteps(w, l1, l2, l3, l4);
    FourSteps(w1, l2, l3, l4, l5);
    Prefixed(w, l1, [l2, l3, l4, l5]);
    var run := [l1, l2, l3, l4, l5];
    assert run[..4] == [l1, l2, l3, l4] && [l1] + [l2, l3, l4, l5] == run;
  }

  /** The same writer brings back a group that is gone. */
  lemma StaleWriteRestores(c: Config)
    requires Valid(c)
    ensures var w := World(Some(Versioned(c, 0)), 0, map[], []);
      var run := [Read(1, ClearMappings), Remove, Write(1, [])];
      Feasible(w, run) && Final(w, run).stored == Some(Versioned(c.(mappings := []), 2))
  {
    hide Valid, Feasible, Final;
    var start := Some(Versioned(c, 0));
    var w := World(start, 0, map[], []);
    var l1, l2, l3 := Read(1, ClearMappings), Remove, Write(1, []);
    var w1 := After(w, l1);
    assert w1.writers == map[1 := Writer(ClearMappings, start)];
    var w2 := After(w1, l2);
    EmptyRun(After(w2, l3));
    Prefixed(w2, l3, []);
    Prefixed(w1, l2, [l3] + []);
    Prefixed(w, l1, [l2] + ([l3] + []));
    assert [l1] + ([l2] + ([l3] + [])) == [l1, l2, l3];
  }

  /** Writers that Put without a revision do overwrite: clearing the mappings from a stale
      read undoes an AddMembers that was committed in between. */
  lemma BlindPutOverwrites(c: Config)
    requires Valid(c) && c.members == [] && c.mappings == []
    ensures var w := World(Some(Versioned(c, 0)), 0, map[], []);
      var run := [Read(1, ClearMappings), Read(2, Add(["m"])), Write(2, ["m"]), Write(1, [])];
      && Feasible(w, run)
      && Final(w, run).log == [Commit(Add(["m"]), c.(members := ["m"])), Commit(ClearMappings, c)]
      && Final(w, run).stored == Some(Versioned(c, 2))
  {
    hide Valid, Feasible, Final;
    var start := Some(Versioned(c, 0));
    var w := World(start, 0, map[], []);
    var l1, l2, l3, l4 := Read(1, ClearMappings), Read(2, Add(["m"])), Write(2, ["m"]), Write(1, []);
    var w1 := After(w, l1);
    assert w1.writers == map[1 := Writer(ClearMappings, start)];
    var w2 := After(w1, l2);
    assert w2.writers == map[1 := Writer(ClearMappings, start), 2 := Writer(Add(["m"]), start)];
    assert Elements(["m"]) == Added(Elements(c.members), ["m"]);
    var w3 := After(w2, l3);
    assert w3.writers == map[1 := Writer(ClearMappings, start)];
    assert c.(mappings := []) == c;
    FourSteps(w, l1, l2, l3, l4);
  }
}
