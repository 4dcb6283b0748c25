/** What holds in every run of the work queues. */
module WorkqueueRuns {
  import opened Lists
  import opened Workqueue

  /** The state before anything is queued. */
  function Start(cores: nat): State {
    State([], seq(cores, _ => []), seq(cores, _ => Idle), seq(cores, _ => 0), [], [], false, Working)
  }

  ghost predicate CanRun(s: State, acts: seq<Action>)
    decreases |acts|
  {
    acts == [] || (Shape(s) && Enabled(s, acts[0]) && CanRun(Act(s, acts[0]), acts[1..]))
  }

  ghost function Run(s: State, acts: seq<Action>): State
    requires CanRun(s, acts)
    decreases |acts|
  {
    if acts == [] then s else Run(Act(s, acts[0]), acts[1..])
  }

  lemma {:induction false} RunKeeps(s: State, acts: seq<Action>)
    requires Inv(s) && CanRun(s, acts)
    ensures Inv(Run(s, acts))
    decreases |acts|
  {
    if acts != [] {
      ActKeeps(s, acts[0]);
      RunKeeps(Act(s, acts[0]), acts[1..]);
    }
  }

  lemma {:induction false} Reachable(cores: nat, acts: seq<Action>)
    requires CanRun(Start(cores), acts)
    ensures Inv(Run(Start(cores), acts))
  {
    var s := Start(cores);
    assert forall c | 0 <= c < cores :: PcShape(s, c);
    assert Shape(s);
    assert forall c | 0 <= c < cores :: WorkerInv(s, c) && Target(s, c) == -1 && Counted(s, c);
    RunKeeps(s, acts);
  }

  // ---- references and freeing --------------------------------------------------------------

  function Party(a: Action): int {
    if a.Work? then a.c else -1
  }

  /** Which worker steps give a reference back. */
  lemma {:induction false} StepRefs(s: State, c: nat, t: nat)
    requires Shape(s) && c < |s.pcs| && t < |s.tasks|
    ensures |Step(s, c).tasks| == |s.tasks|
    ensures Step(s, c).tasks[t].refs < s.tasks[t].refs ==> Gives(s, c, t)
    ensures Step(s, c).tasks[t].refs == s.tasks[t].refs - One(Gives(s, c, t))
  {
    assert PcShape(s, c);
  }

  ghost predicate Gives(s: State, c: nat, t: nat)
    requires Shape(s) && c < |s.pcs|
  {
    assert PcShape(s, c);
    var q := s.queues[c];
    match s.pcs[c]
    case Drop(i, j) => j < |s.tasks[q[i]].deps| && s.tasks[q[i]].deps[j] == t
    case Own(i) => q[i] == t
    case _ => false
  }

  /** Whoever gives a reference back had one. */
  lemma {:induction false} GiverHolds(s: State, c: nat, t: nat)
    requires Inv(s) && c < |s.pcs| && t < |s.tasks| && Gives(s, c, t)
    ensures s.tasks[t].refs > 0
  {
    assert PcShape(s, c) && TaskInv(s, Cur(s, c));
    if s.pcs[c].Drop? { Held(s, Cur(s, c), s.pcs[c].j); }
  }

  /** A count that has reached zero stays there: nobody is left who could take a reference. */
  lemma {:induction false} ZeroStays(s: State, a: Action, t: nat)
    requires Inv(s) && Enabled(s, a) && t < |s.tasks| && s.tasks[t].refs == 0
    ensures t < |Act(s, a).tasks| && Act(s, a).tasks[t].refs == 0
  {
    assert TaskInv(s, t);
    match a
    case Work(c) =>
      StepRefs(s, c, t);
      if Gives(s, c, t) { GiverHolds(s, c, t); }
    case Abort => LeakedAll(s.tasks, s.building, t);
    case _ =>
  }

  /** How often a run takes the count of task `t` to zero. */
  ghost function LastDrops(s: State, acts: seq<Action>, t: nat): nat
    requires CanRun(s, acts)
    decreases |acts|
  {
    if acts == [] then 0
    else
      var z := Act(s, acts[0]);
      One(t < |s.tasks| && t < |z.tasks| && s.tasks[t].refs > 0 && z.tasks[t].refs == 0) + LastDrops(z, acts[1..], t)
  }

  lemma {:induction false} NoDropAfterZero(s: State, acts: seq<Action>, t: nat)
    requires Inv(s) && CanRun(s, acts) && t < |s.tasks| && s.tasks[t].refs == 0
    ensures LastDrops(s, acts, t) == 0
    decreases |acts|
  {
    if acts != [] {
      ActKeeps(s, acts[0]);
      ZeroStays(s, acts[0], t);
      NoDropAfterZero(Act(s, acts[0]), acts[1..], t);
    }
  }

  /** In every run at most one step of one party sees the count of a task go from one to zero. */
  lemma {:induction false} OneLastDrop(s: State, acts: seq<Action>, t: nat)
    requires Inv(s) && CanRun(s, acts)
    ensures LastDrops(s, acts, t) <= 1
    decreases |acts|
  {
    if acts != [] {
      var z := Act(s, acts[0]);
      ActKeeps(s, acts[0]);
      if t < |z.tasks| && z.tasks[t].refs == 0 {
        NoDropAfterZero(z, acts[1..], t);
      } else {
        OneLastDrop(z, acts[1..], t);
      }
    }
  }

  lemma {:induction false} StepRight(s: State, z: State, c: nat, t: nat)
    requires Shape(s) && c < |s.pcs| && z == Step(s, c) && Shape(z)
    requires t < |s.tasks| == |z.tasks| && Target(z, c) == t && Target(s, c) != t
    ensures s.tasks[t].refs == 1 && z.tasks[t].refs == 0
  {
    StepOldRight(s, z, c);
    assert PcShape(s, c);
  }

  /** Only dropping a reference gives a worker a new right. */
  lemma {:induction false} StepOldRight(s: State, z: State, c: nat)
    requires Shape(s) && c < |s.pcs| && z == Step(s, c) && Shape(z) && |z.pcs| == |s.pcs|
    ensures s.pcs[c].Drop? || s.pcs[c].Own? || Target(z, c) == -1 || Target(z, c) == Target(s, c)
  {
    assert PcShape(s, c);
  }

  lemma {:induction false} StepFixes(s: State, c: nat, x: nat)
    requires Shape(s) && c < |s.pcs| && x < |s.tasks|
    ensures |Step(s, c).tasks| == |s.tasks| && Step(s, c).tasks[x].deps == s.tasks[x].deps
  {
    assert PcShape(s, c);
  }

  lemma {:induction false} StepStays(s: State, c: nat, p: nat)
    requires Shape(s) && c < |s.pcs| && p < |s.pcs| && p != c
    ensures var z := Step(s, c);
            |z.pcs| == |s.pcs| == |z.queues| && z.pcs[p] == s.pcs[p] && z.queues[p] == s.queues[p]
  {
    assert PcShape(s, c);
  }

  lemma {:induction false} StepAside(s: State, z: State, c: nat, p: nat)
    requires Shape(s) && c < |s.pcs| && z == Step(s, c) && Shape(z) && p < |s.pcs| == |z.pcs| && p != c
    ensures Target(z, p) == Target(s, p)
  {
    assert PcShape(s, p);
    StepStays(s, c, p);
    if s.pcs[p] != Idle && !s.pcs[p].Sweep? { StepFixes(s, c, s.queues[p][s.pcs[p].i]); }
  }

  lemma {:induction false} CallerFixes(s: State, a: Action, x: nat)
    requires Shape(s) && Enabled(s, a) && !a.Work? && x < |s.tasks| && CallerShape(s)
    ensures x < |Act(s, a).tasks| && Act(s, a).tasks[x].deps == s.tasks[x].deps
  {
    if a.Abort? { LeakedAll(s.tasks, s.building, x); }
  }

  lemma {:induction false} CallerStays(s: State, a: Action, p: nat)
    requires Shape(s) && Enabled(s, a) && !a.Work? && p < |s.pcs|
    ensures Act(s, a).pcs == s.pcs && |Act(s, a).queues| == |s.pcs| && s.queues[p] <= Act(s, a).queues[p]
  {
  }

  lemma {:induction false} CallerAside(s: State, z: State, a: Action, p: nat)
    requires Shape(s) && Enabled(s, a) && !a.Work? && z == Act(s, a) && Shape(z) && p < |s.pcs| && CallerShape(s)
    ensures |z.pcs| == |s.pcs| && Target(z, p) == Target(s, p)
  {
    CallerStays(s, a, p);
    assert PcShape(s, p);
    if s.pcs[p] != Idle && !s.pcs[p].Sweep? {
      assert z.queues[p][s.pcs[p].i] == s.queues[p][s.pcs[p].i];
      CallerFixes(s, a, s.queues[p][s.pcs[p].i]);
    }
  }

  /** The right to mark a task EMPTY comes only from having seen its count go from one to zero. */
  lemma {:induction false} RightFromLastDrop(s: State, z: State, a: Action, p: int, t: nat)
    requires Inv(s) && Enabled(s, a) && z == Act(s, a) && t < |s.tasks|
    requires -1 <= p < |s.pcs| == |z.pcs| && Shape(z) && Aim(s, p) != t && Aim(z, p) == t
    ensures p == Party(a) && t < |z.tasks| && s.tasks[t].refs == 1 && z.tasks[t].refs == 0
  {
    if a.Work? {
      StepRefs(s, a.c, t);
      if p == a.c { StepRight(s, z, p, t); } else if p != -1 { StepAside(s, z, a.c, p); }
    } else if p != -1 {
      CallerAside(s, z, a, p);
    }
  }

  lemma {:induction false} StepClears(s: State, z: State, c: nat, t: nat)
    requires Shape(s) && c < |s.pcs| && z == Step(s, c) && t < |s.tasks| == |z.tasks|
    requires s.tasks[t].slot != Empty && z.tasks[t].slot == Empty
    ensures Target(s, c) == t
  {
    assert PcShape(s, c);
  }

  /** Only the party with that right marks it EMPTY. */
  lemma {:induction false} OnlyThatPartyClears(s: State, z: State, a: Action, t: nat)
    requires Inv(s) && Enabled(s, a) && z == Act(s, a) && t < |s.tasks| <= |z.tasks|
    requires s.tasks[t].slot != Empty && z.tasks[t].slot == Empty
    ensures Aim(s, Party(a)) == t && s.tasks[t].refs == 0
  {
    if a.Work? {
      StepRefs(s, a.c, t);
      StepClears(s, z, a.c, t);
      assert WorkerInv(s, a.c);
    } else if a.Abort? {
      LeakedAll(s.tasks, s.building, t);
    }
  }

  /** No two parties have the right to the same task. */
  lemma {:induction false} RightIsSole(s: State, p: int, q: int)
    requires Inv(s) && -1 <= p < |s.pcs| && -1 <= q < |s.pcs| && p != q && Aim(s, p) != -1
    ensures Aim(s, p) != Aim(s, q)
  {
    if p >= 0 { assert PcShape(s, p); }
    if q >= 0 { assert PcShape(s, q); }
  }

  /** Which tasks an action reads or writes through a pointer. */
  ghost function Touched(s: State, a: Action): set<nat>
    requires Shape(s) && Enabled(s, a)
  {
    match a
    case Work(c) =>
      assert PcShape(s, c);
      var q := s.queues[c];
      (match s.pcs[c]
       case Idle => {}
       case Check(i, j) => {q[i]} + if j < |s.tasks[q[i]].deps| then {s.tasks[q[i]].deps[j]} else {}
       case Drop(i, j) => {q[i]} + if j < |s.tasks[q[i]].deps| then {s.tasks[q[i]].deps[j]} else {}
       case Saw(i, j) => {q[i], s.tasks[q[i]].deps[j]}
       case Clear(i, j) => {q[i], s.tasks[q[i]].deps[j]}
       case pc => if pc.i < |q| then {q[pc.i]} else {})
    case Take(d) => {d}
    case Release(t) => {t}
    case CallerStep => {s.caller.t}
    case _ => {}
  }

  /** No action touches a task that has been freed. */
  lemma {:induction false} NoUseAfterFree(s: State, a: Action, t: nat)
    requires Inv(s) && Enabled(s, a) && t in Touched(s, a)
    ensures t < |s.tasks| && !s.tasks[t].freed
  {
    if a.Work? { WorkerUse(s, a.c, t); } else { assert TaskInv(s, t); }
  }

  lemma {:induction false} WorkerUse(s: State, c: nat, t: nat)
    requires Inv(s) && c < |s.pcs| && t in Touched(s, Work(c))
    ensures t < |s.tasks| && !s.tasks[t].freed
  {
    assert PcShape(s, c) && WorkerInv(s, c);
    var pc := s.pcs[c];
    if t != s.queues[c][pc.i] {
      var x := s.queues[c][pc.i];
      assert TaskInv(s, x) && TaskInv(s, t);
      if pc.Check? || pc.Drop? { Held(s, x, pc.j); }
    }
  }

  /** A task is freed only when nobody holds it. */
  lemma {:induction false} FreedIsUnheld(s: State, t: nat)
    requires Inv(s) && t < |s.tasks| && s.tasks[t].freed
    ensures s.tasks[t].refs == 0 && !s.tasks[t].self && !s.tasks[t].caller && t !in s.building
    ensures forall u, j | 0 <= u < |s.tasks| && s.tasks[u].dropped <= j < |s.tasks[u].deps| :: s.tasks[u].deps[j] != t
  {
    assert TaskInv(s, t);
    if t in s.building {
      var j :| 0 <= j < |s.building| && s.building[j] == t;
      LeftHolds(s.building, 0, j);
    }
    forall u, j | 0 <= u < |s.tasks| && s.tasks[u].dropped <= j < |s.tasks[u].deps| ensures s.tasks[u].deps[j] != t {
      Held(s, u, j);
    }
  }

  /** A task the cleanup pass finds EMPTY has no references left, and it is freed. */
  lemma {:induction false} EmptyIsFreed(s: State, c: nat)
    requires Inv(s) && c < |s.pcs| && s.pcs[c].Reap? && s.pcs[c].i < |s.queues[c]|
    ensures var t := s.queues[c][s.pcs[c].i];
            && t < |s.tasks| == |Step(s, c).tasks| && s.tasks[t].refs == 0 && Step(s, c).tasks[t].freed
            && t !in Step(s, c).queues[c]
  {
    assert PcShape(s, c) && WorkerInv(s, c) && Ascending(s.queues[c]);
    assert TaskInv(s, s.queues[c][s.pcs[c].i]);
    RemoveAt(s.queues[c], s.pcs[c].i);
  }

  // ---- order --------------------------------------------------------------------------------

  /** A function runs at most once, and when it starts the functions of all
      its dependencies have returned. */
  lemma {:induction false} RunsOnceAfterDependencies(s: State, t: nat)
    requires Inv(s) && t < |s.tasks|
    ensures s.tasks[t].starts <= 1
    ensures s.tasks[t].starts == 1 ==> forall j | 0 <= j < |s.tasks[t].deps| :: s.tasks[s.tasks[t].deps[j]].returned
  {
    assert TaskInv(s, t);
    if s.tasks[t].starts == 1 {
      forall j | 0 <= j < |s.tasks[t].deps| ensures s.tasks[s.tasks[t].deps[j]].returned {
        assert Over(s.tasks, s.tasks[t].deps[j], j >= s.tasks[t].dropped);
      }
    }
  }

  /** A dependency somebody still waits for is BUSY or FINISHED, never EMPTY;
      so the dependencies of the oldest BUSY task are all FINISHED. */
  lemma {:induction false} OldestIsReady(s: State, t: nat)
    requires Inv(s) && t < |s.tasks| && s.tasks[t].slot == Busy
    requires forall u | 0 <= u < t :: s.tasks[u].slot != Busy
    ensures forall j | s.tasks[t].dropped <= j < |s.tasks[t].deps| :: s.tasks[s.tasks[t].deps[j]].slot == Finished
  {
    forall j | s.tasks[t].dropped <= j < |s.tasks[t].deps| ensures s.tasks[s.tasks[t].deps[j]].slot == Finished {
      Held(s, t, j);
    }
  }

  /** In every run, from the start: what an action touches is not freed, every
      function has run at most once and after its dependencies, and every count
      is the number of its holders. */
  lemma {:induction false} EveryRunIsSafe(cores: nat, acts: seq<Action>, a: Action, t: nat)
    requires CanRun(Start(cores), acts + [a]) && CanRun(Start(cores), acts)
    ensures var s := Run(Start(cores), acts);
            && Inv(s) && Enabled(s, a)
            && (t in Touched(s, a) ==> t < |s.tasks| && !s.tasks[t].freed)
            && (t < |s.tasks| ==> RefOk(s, t) && s.tasks[t].starts <= 1 && DepsOk(s, t))
  {
    Reachable(cores, acts);
    LastEnabled(Start(cores), acts, a);
    var s := Run(Start(cores), acts);
    if t in Touched(s, a) { NoUseAfterFree(s, a, t); }
    if t < |s.tasks| { assert TaskInv(s, t); RunsOnceAfterDependencies(s, t); }
  }

  lemma {:induction false} LastEnabled(s: State, acts: seq<Action>, a: Action)
    requires CanRun(s, acts + [a]) && CanRun(s, acts)
    ensures var z := Run(s, acts); Shape(z) && Enabled(z, a)
    decreases |acts|
  {
    if acts != [] {
      assert (acts + [a])[0] == acts[0] && (acts + [a])[1..] == acts[1..] + [a];
      LastEnabled(Act(s, acts[0]), acts[1..], a);
    }
  }

  // ---- progress -------------------------------------------------------------------------------

  /** Where worker `c` is on its way to task `t`: in reach of it, about to
      start a pass, cleaning up, or past it. */
  ghost function Phase(s: State, c: nat, t: nat): nat
    requires Shape(s) && c < |s.pcs|
  {
    assert PcShape(s, c);
    var q := s.queues[c];
    match s.pcs[c]
    case Idle => 1
    case Sweep(_) => 2
    case Reap(_) => 2
    case Next(i) => if q[i] < t then 0 else 3
    case pc => if q[pc.i] <= t then 0 else 3
  }

  ghost function Ahead(s: State, c: nat): nat
    requires Shape(s) && c < |s.pcs|
  {
    assert PcShape(s, c);
    if s.pcs[c] == Idle then 0 else |s.queues[c]| - s.pcs[c].i
  }

  /** Steps left before the worker moves on. */
  ghost function Within(s: State, c: nat): nat
    requires Shape(s) && c < |s.pcs|
  {
    assert PcShape(s, c);
    var q := s.queues[c];
    match s.pcs[c]
    case Idle => 0
    case Next(_) => 0
    case Reap(_) => 0
    case Sweep(_) => 1
    case Tally(_) => 1
    case Mark(_, _) => 2
    case Own(_) => 3
    case Drop(i, j) => 4 + 3 * (|s.tasks[q[i]].deps| - j)
    case Saw(i, j) => 3 + 3 * (|s.tasks[q[i]].deps| - j)
    case Clear(i, j) => 2 + 3 * (|s.tasks[q[i]].deps| - j)
    case Exec(i) => 5 + 3 * |s.tasks[q[i]].deps|
    case Call(i) => 6 + 3 * |s.tasks[q[i]].deps|
    case Check(i, j) => 7 + 4 * |s.tasks[q[i]].deps| - j
    case Look(i) => 8 + 4 * |s.tasks[q[i]].deps|
  }

  ghost predicate Closer(s: State, z: State, c: nat, t: nat)
    requires Shape(s) && Shape(z) && c < |s.pcs| && c < |z.pcs|
  {
    || Phase(z, c, t) < Phase(s, c, t)
    || (Phase(z, c, t) == Phase(s, c, t) && Ahead(z, c) < Ahead(s, c))
    || (Phase(z, c, t) == Phase(s, c, t) && Ahead(z, c) == Ahead(s, c) && Within(z, c) < Within(s, c))
  }

  ghost predicate Oldest(s: State, t: nat) {
    t < |s.tasks| && s.tasks[t].slot == Busy && forall u | 0 <= u < t :: s.tasks[u].slot != Busy
  }

  lemma {:induction false} OutstandingSome(tasks: seq<Task>, t: nat, n: nat)
    requires t < n <= |tasks| && !tasks[t].counted
    ensures Outstanding(tasks, tasks[t].core, n) > 0
  {
    if t < n - 1 { OutstandingSome(tasks, t, n - 1); }
  }

  /** Once all submitters to its core have counted their tasks, no worker sleeps with a BUSY task. */
  lemma {:induction false} Awake(s: State, t: nat)
    requires Inv(s) && Oldest(s, t) && s.tasks[t].core !in s.uncounted
    ensures s.counts[s.tasks[t].core] != 0
  {
    assert TaskInv(s, t) && Counted(s, s.tasks[t].core);
    LeftNone(s.uncounted, 0, s.tasks[t].core);
    OutstandingSome(s.tasks, t, |s.tasks|);
  }

  /** What makes the worker of core `c` come closer to position `p` of its list. */
  ghost predicate Facing(s: State, c: nat, t: nat, p: nat) {
    && Shape(s) && c < |s.pcs| && s.counts[c] != 0
    && Ascending(s.queues[c]) && p < |s.queues[c]| && s.queues[c][p] == t && s.tasks[t].slot == Busy
    && PcShape(s, c)
    && var q := s.queues[c];
    match s.pcs[c]
    case Check(i, j) => q[i] == t && j < |s.tasks[t].deps| ==> s.tasks[s.tasks[t].deps[j]].slot == Finished
    case Reap(i) => s.tasks[q[i]].refs == 0
    case Tally(i) => q[i] != t
    case _ => true
  }

  lemma {:induction false} PassCloser(s: State, z: State, c: nat, t: nat, p: nat)
    requires Facing(s, c, t, p) && (s.pcs[c].Idle? || s.pcs[c].Next? || s.pcs[c].Sweep? || s.pcs[c].Reap?)
    requires z == Step(s, c) && Shape(z) && |z.pcs| == |s.pcs|
    ensures Closer(s, z, c, t)
  {
  }

  lemma {:induction false} StartCloser(s: State, z: State, c: nat, t: nat, p: nat)
    requires Facing(s, c, t, p) && (s.pcs[c].Look? || s.pcs[c].Check? || s.pcs[c].Call? || s.pcs[c].Exec?)
    requires z == Step(s, c) && Shape(z) && |z.pcs| == |s.pcs|
    ensures Closer(s, z, c, t)
  {
  }

  lemma {:induction false} DropCloser(s: State, z: State, c: nat, t: nat, p: nat)
    requires Facing(s, c, t, p) && (s.pcs[c].Drop? || s.pcs[c].Saw? || s.pcs[c].Clear?)
    requires z == Step(s, c) && Shape(z) && |z.pcs| == |s.pcs|
    ensures Closer(s, z, c, t)
  {
  }

  lemma {:induction false} EndCloser(s: State, z: State, c: nat, t: nat, p: nat)
    requires Facing(s, c, t, p) && (s.pcs[c].Own? || s.pcs[c].Mark? || s.pcs[c].Tally?)
    requires z == Step(s, c) && Shape(z) && |z.pcs| == |s.pcs|
    ensures Closer(s, z, c, t)
  {
  }

  lemma {:induction false} OldestFaced(s: State, t: nat) returns (p: nat)
    requires Inv(s) && Oldest(s, t) && s.tasks[t].core !in s.uncounted
    ensures Facing(s, s.tasks[t].core, t, p)
  {
    var c := s.tasks[t].core;
    Awake(s, t);
    OldestIsReady(s, t);
    assert TaskInv(s, t) && PcShape(s, c) && Ascending(s.queues[c]) && WorkerInv(s, c);
    if s.pcs[c].Reap? { assert TaskInv(s, s.queues[c][s.pcs[c].i]); }
    p :| 0 <= p < |s.queues[c]| && s.queues[c][p] == t;
  }

  lemma {:induction false} StepCloser(s: State, z: State, t: nat)
    requires Inv(s) && Oldest(s, t) && s.tasks[t].core !in s.uncounted
    requires z == Step(s, s.tasks[t].core) && Shape(z) && |z.pcs| == |s.pcs|
    ensures Closer(s, z, s.tasks[t].core, t)
  {
    var c := s.tasks[t].core;
    var p := OldestFaced(s, t);
    match s.pcs[c]
    case Look(_) => StartCloser(s, z, c, t, p);
    case Check(_, _) => StartCloser(s, z, c, t, p);
    case Call(_) => StartCloser(s, z, c, t, p);
    case Exec(_) => StartCloser(s, z, c, t, p);
    case Drop(_, _) => DropCloser(s, z, c, t, p);
    case Saw(_, _) => DropCloser(s, z, c, t, p);
    case Clear(_, _) => DropCloser(s, z, c, t, p);
    case Own(_) => EndCloser(s, z, c, t, p);
    case Mark(_, _) => EndCloser(s, z, c, t, p);
    case Tally(_) => EndCloser(s, z, c, t, p);
    case _ => PassCloser(s, z, c, t, p);
  }

  /** No task of `z` is BUSY that was not BUSY in `s`. */
  ghost predicate Fewer(s: State, z: State) {
    |z.tasks| == |s.tasks| && forall u | 0 <= u < |s.tasks| && z.tasks[u].slot == Busy :: s.tasks[u].slot == Busy
  }

  lemma {:induction false} StepFewer(s: State, c: nat)
    requires Shape(s) && c < |s.pcs|
    ensures Fewer(s, Step(s, c)) && Step(s, c).uncounted == s.uncounted && |Step(s, c).pcs| == |s.pcs|
    ensures forall u | 0 <= u < |s.tasks| :: Step(s, c).tasks[u].core == s.tasks[u].core
  {
    assert PcShape(s, c);
    forall u | 0 <= u < |s.tasks|
      ensures Step(s, c).tasks[u].core == s.tasks[u].core
      ensures Step(s, c).tasks[u].slot == Busy ==> s.tasks[u].slot == Busy
    {
      StepTask(s, c, u);
    }
  }

  lemma {:induction false} StepTask(s: State, c: nat, u: nat)
    requires Shape(s) && c < |s.pcs| && u < |s.tasks|
    ensures |Step(s, c).tasks| == |s.tasks| && Step(s, c).tasks[u].core == s.tasks[u].core
    ensures Step(s, c).tasks[u].slot == Busy ==> s.tasks[u].slot == Busy
  {
    assert PcShape(s, c);
  }

  lemma {:induction false} Then(s: State, a: Action, rest: seq<Action>)
    requires Shape(s) && Enabled(s, a) && CanRun(Act(s, a), rest)
    ensures CanRun(s, [a] + rest) && Run(s, [a] + rest) == Run(Act(s, a), rest)
  {
    assert ([a] + rest)[1..] == rest;
  }

  lemma {:induction false} OldestStep(s: State, z: State, t: nat)
    requires Inv(s) && Oldest(s, t) && s.tasks[t].core !in s.uncounted && z == Step(s, s.tasks[t].core)
    ensures Inv(z) && Fewer(s, z) && z.uncounted == s.uncounted && |z.pcs| == |s.pcs|
    ensures z.tasks[t].core == s.tasks[t].core
    ensures z.tasks[t].slot == Busy ==> Oldest(z, t) && Closer(s, z, s.tasks[t].core, t)
  {
    StepKeeps(s, s.tasks[t].core);
    StepFewer(s, s.tasks[t].core);
    StepCloser(s, z, t);
  }

  /** From every state with the tasks of its core counted, steps of one worker alone finish the oldest BUSY task. */
  lemma {:induction false} OldestFinishes(s: State, t: nat) returns (acts: seq<Action>)
    requires Inv(s) && Oldest(s, t) && s.tasks[t].core !in s.uncounted
    ensures CanRun(s, acts) && forall k | 0 <= k < |acts| :: acts[k] == Work(s.tasks[t].core)
    ensures var z := Run(s, acts); Inv(z) && Fewer(s, z) && z.uncounted == s.uncounted && z.tasks[t].slot != Busy
    decreases Phase(s, s.tasks[t].core, t), Ahead(s, s.tasks[t].core), Within(s, s.tasks[t].core)
  {
    var c := s.tasks[t].core;
    var z := Act(s, Work(c));
    OldestStep(s, z, t);
    var rest: seq<Action> := [];
    if z.tasks[t].slot == Busy { rest := OldestFinishes(z, t); }
    Then(s, Work(c), rest);
    acts := [Work(c)] + rest;
  }

  lemma {:induction false} AllCounted(s: State) returns (acts: seq<Action>)
    requires Inv(s)
    ensures CanRun(s, acts)
    ensures var z := Run(s, acts); Inv(z) && z.tasks == s.tasks && z.uncounted == []
    decreases |s.uncounted|
  {
    if s.uncounted == [] { return []; }
    ActKeeps(s, CountUp(0));
    var rest := AllCounted(Act(s, CountUp(0)));
    Then(s, CountUp(0), rest);
    acts := [CountUp(0)] + rest;
  }

  function BusyTasks(tasks: seq<Task>, n: nat): nat
    requires n <= |tasks|
  {
    if n == 0 then 0 else BusyTasks(tasks, n - 1) + One(tasks[n - 1].slot == Busy)
  }

  lemma {:induction false} FewerBusy(s: State, z: State, t: nat, n: nat)
    requires Fewer(s, z) && n <= |s.tasks| && t < |s.tasks| && s.tasks[t].slot == Busy && z.tasks[t].slot != Busy
    ensures BusyTasks(z.tasks, n) <= BusyTasks(s.tasks, n) - One(t < n)
  {
    if n > 0 { FewerBusy(s, z, t, n - 1); }
  }

  lemma {:induction false} OldestBusy(s: State, n: nat) returns (t: nat)
    requires n <= |s.tasks|
    ensures t <= n && (t < n ==> Oldest(s, t))
    ensures t == n ==> forall u | 0 <= u < n :: s.tasks[u].slot != Busy
  {
    t := 0;
    while t < n && s.tasks[t].slot != Busy
      invariant t <= n && forall u | 0 <= u < t :: s.tasks[u].slot != Busy
    {
      t := t + 1;
    }
  }

  lemma {:induction false} Regroup(a: seq<Action>, b: seq<Action>)
    requires a != []
    ensures [a[0]] + (a[1..] + b) == a + b
  {
    assert [a[0]] + a[1..] == a;
  }

  lemma {:induction false} Append(s: State, a: seq<Action>, b: seq<Action>)
    requires CanRun(s, a) && CanRun(Run(s, a), b)
    ensures CanRun(s, a + b) && Run(s, a + b) == Run(Run(s, a), b)
    decreases |a|
  {
    if a == [] {
      assert a + b == b;
    } else {
      var rest := a[1..];
      Append(Act(s, a[0]), rest, b);
      Then(s, a[0], rest + b);
      Regroup(a, b);
    }
  }

  /** No deadlock: from every reachable state the workers can finish every
      task, without another step of the loader. */
  lemma {:induction false} AllFinish(s: State) returns (acts: seq<Action>)
    requires Inv(s)
    ensures CanRun(s, acts)
    ensures var z := Run(s, acts);
            && Inv(z) && |z.tasks| == |s.tasks|
            && forall u | 0 <= u < |z.tasks| :: z.tasks[u].slot != Busy && z.tasks[u].starts == 1
    decreases BusyTasks(s.tasks, |s.tasks|)
  {
    acts := AllCounted(s);
    var y := Run(s, acts);
    var t := OldestBusy(y, |y.tasks|);
    if t < |y.tasks| {
      var more := OldestFinishes(y, t);
      var z := Run(y, more);
      FewerBusy(y, z, t, |y.tasks|);
      var rest := AllFinish(z);
      Append(y, more, rest);
      Append(s, acts, more + rest);
      acts := acts + (more + rest);
    } else {
      forall u | 0 <= u < |y.tasks| ensures y.tasks[u].starts == 1 { assert TaskInv(y, u); }
    }
  }
}
