/** Which finished tasks of the work queues are freed.  The caller can drop
    its reference between the worker's own drop and the worker's store of
    FINISHED; if it also loads `in_use` in that window, nobody is left to mark
    the finished task EMPTY. */
module WorkqueueLeak {
  import opened Lists
  import opened Workqueue
  import opened WorkqueueRuns

  /** A finished task without references that nobody has the right to mark EMPTY. */
  ghost predicate Orphan(s: State, t: nat)
    requires Shape(s)
  {
    && t < |s.tasks| && s.tasks[t].slot == Finished && s.tasks[t].refs == 0
    && forall p | -1 <= p < |s.pcs| :: Aim(s, p) != t
  }

  /** The step that makes an orphan: the worker, whose own drop was not the last,
      stores FINISHED when the count is zero and the caller has looked already. */
  ghost predicate TooLate(s: State, a: Action, t: nat)
    requires Shape(s) && Enabled(s, a)
  {
    && a.Work? && s.pcs[a.c].Mark? && !s.pcs[a.c].last
    && (assert PcShape(s, a.c); s.queues[a.c][s.pcs[a.c].i] == t)
    && s.tasks[t].refs == 0 && CallerTarget(s) != t
  }

  // ---- an orphan stays one ------------------------------------------------------------------

  lemma {:induction false} StepFinished(s: State, c: nat, t: nat)
    requires Shape(s) && c < |s.pcs| && t < |s.tasks| && s.tasks[t].slot == Finished
    ensures |Step(s, c).tasks| == |s.tasks| && Step(s, c).tasks[t].slot != Busy
  {
    assert PcShape(s, c);
  }

  lemma {:induction false} FinishedStays(s: State, a: Action, t: nat)
    requires Inv(s) && Enabled(s, a) && t < |s.tasks| && s.tasks[t].slot == Finished
    ensures t < |Act(s, a).tasks| && Act(s, a).tasks[t].slot != Busy
  {
    if a.Work? {
      StepFinished(s, a.c, t);
    } else if a.Abort? {
      LeakedAll(s.tasks, s.building, t);
    }
  }

  lemma {:induction false} SizesGrow(s: State, a: Action)
    requires Shape(s) && Enabled(s, a)
    ensures |Act(s, a).pcs| == |s.pcs| && |s.tasks| <= |Act(s, a).tasks|
    ensures a.Work? ==> |s.tasks| == |Act(s, a).tasks|
    ensures forall t | |s.tasks| <= t < |Act(s, a).tasks| :: Act(s, a).tasks[t].slot == Busy
  {
    if a.Work? { StepSizes(s, a.c); }
  }

  lemma {:induction false} StepSizes(s: State, c: nat)
    requires Shape(s) && c < |s.pcs|
    ensures |Step(s, c).pcs| == |s.pcs| && |s.tasks| == |Step(s, c).tasks|
  {
    assert PcShape(s, c);
  }

  /** Once an orphan, a task stays one whatever anybody does. */
  lemma {:induction false} OrphanStays(s: State, a: Action, t: nat)
    requires Inv(s) && Enabled(s, a) && Orphan(s, t)
    ensures Inv(Act(s, a)) && Orphan(Act(s, a), t)
  {
    var z := Act(s, a);
    ActKeeps(s, a);
    SizesGrow(s, a);
    ZeroStays(s, a, t);
    FinishedStays(s, a, t);
    if z.tasks[t].slot == Empty { OnlyThatPartyClears(s, z, a, t); }
    forall p | -1 <= p < |z.pcs| ensures Aim(z, p) != t {
      if Aim(z, p) == t { RightFromLastDrop(s, z, a, p, t); }
    }
  }

  /** So it is never freed, in any run. */
  lemma {:induction false} OrphanIsNeverFreed(s: State, acts: seq<Action>, t: nat)
    requires Inv(s) && CanRun(s, acts) && Orphan(s, t)
    ensures var z := Run(s, acts); Inv(z) && Orphan(z, t) && !z.tasks[t].freed
    decreases |acts|
  {
    if acts == [] {
      assert TaskInv(s, t);
    } else {
      OrphanStays(s, acts[0], t);
      OrphanIsNeverFreed(Act(s, acts[0]), acts[1..], t);
    }
  }

  // ---- when a task becomes one ----------------------------------------------------------------

  /** A BUSY task without references is about to be marked by its worker. */
  lemma {:induction false} BusyUnheld(s: State, t: nat)
    requires Inv(s) && t < |s.tasks| && s.tasks[t].slot == Busy && s.tasks[t].refs == 0
    ensures var c := s.tasks[t].core;
            c < |s.pcs| && s.pcs[c].Mark? && s.pcs[c].i < |s.queues[c]| && s.queues[c][s.pcs[c].i] == t
  {
    assert TaskInv(s, t) && PcShape(s, s.tasks[t].core);
  }

  /** A worker that has the right to a task keeps that until it has marked it EMPTY. */
  lemma {:induction false} WorkerKeepsRight(s: State, z: State, c: nat, t: nat)
    requires Inv(s) && c < |s.pcs| && z == Step(s, c) && Shape(z) && |z.pcs| == |s.pcs|
    requires Target(s, c) == t && t < |s.tasks| == |z.tasks|
    ensures Target(z, c) == t || z.tasks[t].slot == Empty
  {
    assert PcShape(s, c) && WorkerInv(s, c);
  }

  lemma {:induction false} StepCaller(s: State, c: nat)
    requires Shape(s) && c < |s.pcs|
    ensures Step(s, c).caller == s.caller && |Step(s, c).tasks| == |s.tasks|
  {
    assert PcShape(s, c);
  }

  /** So does the caller, unless it finds it still BUSY. */
  lemma {:induction false} CallerKeepsRight(s: State, z: State, a: Action, t: nat)
    requires Inv(s) && Enabled(s, a) && z == Act(s, a) && CallerTarget(s) == t && t < |s.tasks|
    ensures t < |z.tasks|
    ensures CallerTarget(z) == t || z.tasks[t].slot == Empty || (z.tasks[t] == s.tasks[t] && s.tasks[t].slot == Busy)
  {
    if a.Work? {
      StepCaller(s, a.c);
    } else if a.Abort? {
      LeakedAll(s.tasks, s.building, t);
    }
  }

  lemma {:induction false} RightKept(s: State, z: State, a: Action, p: int, t: nat)
    requires Inv(s) && Enabled(s, a) && z == Act(s, a) && Shape(z) && |z.pcs| == |s.pcs|
    requires -1 <= p < |s.pcs| && t < |s.tasks| <= |z.tasks| && Aim(s, p) == t && s.tasks[t].slot == Finished
    ensures Aim(z, p) == t || z.tasks[t].slot == Empty
  {
    if p == -1 {
      CallerKeepsRight(s, z, a, t);
    } else if a.Work? && a.c == p {
      StepFixes(s, p, t);
      WorkerKeepsRight(s, z, p, t);
    } else if a.Work? {
      StepAside(s, z, a.c, p);
    } else {
      CallerAside(s, z, a, p);
    }
  }

  lemma {:induction false} StepTakesRight(s: State, z: State, c: nat, t: nat)
    requires Shape(s) && c < |s.pcs| && z == Step(s, c) && Shape(z) && |z.pcs| == |s.pcs|
    requires t < |s.tasks| == |z.tasks| && s.tasks[t].refs > 0 && z.tasks[t].refs == 0
    ensures Target(z, c) == t
  {
    assert PcShape(s, c);
  }

  /** Whoever drops the last reference to a task gets the right to it. */
  lemma {:induction false} LastDropHasRight(s: State, z: State, a: Action, t: nat)
    requires Inv(s) && Enabled(s, a) && z == Act(s, a) && Shape(z) && |z.pcs| == |s.pcs|
    requires t < |s.tasks| <= |z.tasks| && s.tasks[t].refs > 0 && z.tasks[t].refs == 0
    ensures Party(a) < |s.pcs| && Aim(z, Party(a)) == t
  {
    if a.Work? {
      StepRefs(s, a.c, t);
      StepTakesRight(s, z, a.c, t);
    } else if a.Abort? {
      LeakedAll(s.tasks, s.building, t);
    }
  }

  lemma {:induction false} StepFinishes(s: State, z: State, c: nat, t: nat)
    requires Inv(s) && c < |s.pcs| && z == Step(s, c) && t < |s.tasks| == |z.tasks|
    requires s.tasks[t].slot != Finished && z.tasks[t].slot == Finished
    ensures s.pcs[c].Mark? && !s.pcs[c].last && s.pcs[c].i < |s.queues[c]| && s.queues[c][s.pcs[c].i] == t
    ensures z.tasks[t].refs == s.tasks[t].refs
  {
    assert PcShape(s, c);
  }

  lemma {:induction false} BornTooLate(s: State, z: State, a: Action, t: nat)
    requires Inv(s) && Enabled(s, a) && z == Act(s, a) && Inv(z) && |z.pcs| == |s.pcs|
    requires t < |s.tasks| <= |z.tasks| && !Orphan(s, t) && Orphan(z, t)
    ensures TooLate(s, a, t)
  {
    if s.tasks[t].refs > 0 {
      LastDropHasRight(s, z, a, t);
      assert false;
    } else if s.tasks[t].slot == Finished {
      assert TaskInv(s, t);
      var p :| -1 <= p < |s.pcs| && Aim(s, p) == t;
      RightKept(s, z, a, p, t);
      assert false;
    } else if a.Work? {
      SizesGrow(s, a);
      StepFinishes(s, z, a.c, t);
      assert Aim(z, -1) != t;
    } else {
      if a.Abort? { LeakedAll(s.tasks, s.building, t); }
      assert false;
    }
  }

  /** Nobody but the caller can have the right to a BUSY task whose worker's drop was not the last. */
  lemma {:induction false} BusyRight(s: State, c: nat, t: nat, d: nat)
    requires Inv(s) && c < |s.pcs| && d < |s.pcs| && s.pcs[c].Mark? && !s.pcs[c].last
    requires s.pcs[c].i < |s.queues[c]| && s.queues[c][s.pcs[c].i] == t
    ensures Target(s, d) != t
  {
    assert PcShape(s, c) && PcShape(s, d) && WorkerInv(s, d) && TaskInv(s, t);
  }

  lemma {:induction false} TooLateMakesOrphan(s: State, z: State, a: Action, t: nat)
    requires Inv(s) && Enabled(s, a) && z == Act(s, a) && Inv(z) && |z.pcs| == |s.pcs|
    requires TooLate(s, a, t)
    ensures !Orphan(s, t) && Orphan(z, t)
  {
    assert PcShape(s, a.c) && TaskInv(s, t);
    forall p | -1 <= p < |z.pcs| ensures Aim(z, p) != t {
      if p >= 0 && p != a.c {
        BusyRight(s, a.c, t, p);
        StepAside(s, z, a.c, p);
      }
    }
  }

  /** A step makes an orphan exactly when it is a worker's late store of FINISHED. */
  lemma {:induction false} OrphanBorn(s: State, a: Action, t: nat)
    requires Inv(s) && Enabled(s, a)
    ensures Inv(Act(s, a))
    ensures !Orphan(s, t) && Orphan(Act(s, a), t) <==> TooLate(s, a, t)
  {
    var z := Act(s, a);
    ActKeeps(s, a);
    SizesGrow(s, a);
    if TooLate(s, a, t) {
      TooLateMakesOrphan(s, z, a, t);
    } else if !Orphan(s, t) && Orphan(z, t) {
      BornTooLate(s, z, a, t);
    }
  }

  ghost predicate EverTooLate(s: State, acts: seq<Action>, t: nat)
    requires CanRun(s, acts)
    decreases |acts|
  {
    acts != [] && (TooLate(s, acts[0], t) || EverTooLate(Act(s, acts[0]), acts[1..], t))
  }

  lemma {:induction false} OrphanOrLate(s: State, acts: seq<Action>, t: nat)
    requires Inv(s) && CanRun(s, acts)
    ensures Inv(Run(s, acts))
    ensures Orphan(Run(s, acts), t) <==> Orphan(s, t) || EverTooLate(s, acts, t)
    decreases |acts|
  {
    if acts != [] {
      OrphanBorn(s, acts[0], t);
      if Orphan(s, t) { OrphanStays(s, acts[0], t); }
      OrphanOrLate(Act(s, acts[0]), acts[1..], t);
    }
  }

  /** A run from the start leaves task `t` an orphan if and only if one of its steps came too late for it. */
  lemma {:induction false} OrphanIff(cores: nat, acts: seq<Action>, t: nat)
    requires CanRun(Start(cores), acts)
    ensures Inv(Run(Start(cores), acts))
    ensures Orphan(Run(Start(cores), acts), t) <==> EverTooLate(Start(cores), acts, t)
  {
    Reachable(cores, []);
    OrphanOrLate(Start(cores), acts, t);
  }

  // ---- such a run -------------------------------------------------------------------------------

  /** One core with one task. */
  function Single(k: Task, pc: Pc, count: int, releasing: bool, caller: CallerPc): State {
    State([k], [[0]], [pc], [count], [], [], releasing, caller)
  }

  function Alone(slot: Slot, refs: int, self: bool, caller: bool, starts: nat, returned: bool): Task {
    Task(0, [], slot, refs, self, caller, 0, 0, starts, returned, false, false)
  }

  ghost predicate Goes(s: State, a: Action, z: State) {
    Shape(s) && Enabled(s, a) && Act(s, a) == z
  }

  lemma {:induction false} Before(s: State, a: Action, z: State, rest: seq<Action>) returns (acts: seq<Action>)
    requires Goes(s, a, z) && CanRun(z, rest)
    ensures CanRun(s, acts) && Run(s, acts) == Run(z, rest)
  {
    acts := [a] + rest;
    Then(s, a, rest);
  }

  /** A worker at `pc` of the only task, on its way to the store of FINISHED. */
  function SinglePc(k: Task, pc: Pc): Pc {
    match pc
    case Idle => Look(0)
    case Look(_) => Check(0, 0)
    case Check(_, _) => Call(0)
    case Call(_) => Exec(0)
    case Exec(_) => Drop(0, 0)
    case Drop(_, _) => Own(0)
    case Own(_) => Mark(0, k.refs == 1)
    case _ => Tally(0)
  }

  function SingleTask(k: Task, pc: Pc): Task {
    match pc
    case Call(_) => k.(starts := k.starts + 1)
    case Exec(_) => k.(returned := true)
    case Own(_) => k.(refs := k.refs - 1, self := false)
    case Mark(_, last) => k.(slot := if last then Empty else Finished)
    case _ => k
  }

  predicate OnTheWay(pc: Pc) {
    pc in {Idle, Look(0), Check(0, 0), Call(0), Exec(0), Drop(0, 0), Own(0), Mark(0, false)}
  }

  lemma {:induction false} SingleShape(k: Task, pc: Pc, count: int, releasing: bool, caller: CallerPc)
    requires k.core == 0 && k.deps == [] && k.dropped == 0 && OnTheWay(pc)
    ensures Shape(Single(k, pc, count, releasing, caller))
  {
    assert PcShape(Single(k, pc, count, releasing, caller), 0);
  }

  lemma {:induction false} SingleStep(k: Task, pc: Pc, count: int, releasing: bool, caller: CallerPc)
    requires k.core == 0 && k.deps == [] && k.dropped == 0 && OnTheWay(pc) && k.slot == Busy && count != 0
    ensures Goes(Single(k, pc, count, releasing, caller), Work(0),
                 Single(SingleTask(k, pc), SinglePc(k, pc), count, releasing, caller))
  {
    SingleShape(k, pc, count, releasing, caller);
    assert PcShape(Single(k, pc, count, releasing, caller), 0);
  }

  /** A task without dependencies is queued. */
  lemma {:induction false} QueueStep(s: State, z: State)
    requires s == Start(1)
    requires z == Single(Alone(Busy, 2, true, true, 0, false), Idle, 0, false, Working).(uncounted := [0])
    ensures Goes(s, Detached(0), z)
  {
    assert PcShape(s, 0);
    assert s.queues[0] + [0] == [0] && s.queues[0 := [0]] == [[0]];
  }

  /** It is counted. */
  lemma {:induction false} CountStep(s: State, z: State)
    requires s == Single(Alone(Busy, 2, true, true, 0, false), Idle, 0, false, Working).(uncounted := [0])
    requires z == Single(Alone(Busy, 2, true, true, 0, false), Idle, 1, false, Working)
    ensures Goes(s, CountUp(0), z)
  {
    assert PcShape(s, 0);
    assert Without([0], 0) == [];
  }

  /** How many steps it is from `pc` to the store of FINISHED. */
  function ToGo(pc: Pc): nat {
    match pc
    case Idle => 7
    case Look(_) => 6
    case Check(_, _) => 5
    case Call(_) => 4
    case Exec(_) => 3
    case Drop(_, _) => 2
    case Own(_) => 1
    case _ => 0
  }

  /** The record of a task whose worker is at `pc`. */
  function Record(pc: Pc): Task {
    Alone(Busy, if ToGo(pc) == 0 then 1 else 2, ToGo(pc) > 0, true, if ToGo(pc) < 4 then 1 else 0, ToGo(pc) < 3)
  }

  lemma {:induction false} WorkerRun(pc: Pc) returns (acts: seq<Action>)
    requires OnTheWay(pc)
    ensures CanRun(Single(Record(pc), pc, 1, false, Working), acts)
    ensures Run(Single(Record(pc), pc, 1, false, Working), acts)
         == Single(Record(Mark(0, false)), Mark(0, false), 1, false, Working)
    decreases ToGo(pc)
  {
    acts := [];
    if ToGo(pc) > 0 {
      var next := SinglePc(Record(pc), pc);
      SingleStep(Record(pc), pc, 1, false, Working);
      assert SingleTask(Record(pc), pc) == Record(next);
      acts := WorkerRun(next);
      acts := Before(Single(Record(pc), pc, 1, false, Working), Work(0),
                     Single(Record(next), next, 1, false, Working), acts);
    }
  }

  /** The caller drops the last reference and finds it BUSY. */
  lemma {:induction false} CallerLooks(s: State, a: State, b: State, z: State)
    requires s == Single(Alone(Busy, 1, false, true, 1, true), Mark(0, false), 1, false, Working)
    requires a == s.(releasing := true)
    requires b == Single(Alone(Busy, 0, false, false, 1, true), Mark(0, false), 1, true, SawLast(0))
    requires z == b.(caller := Working)
    ensures Goes(s, BeginRelease, a) && Goes(a, Release(0), b) && Goes(b, CallerStep, z)
  {
    SingleShape(s.tasks[0], Mark(0, false), 1, false, Working);
    SingleShape(s.tasks[0], Mark(0, false), 1, true, Working);
    SingleShape(b.tasks[0], Mark(0, false), 1, true, SawLast(0));
  }

  lemma {:induction false} SingleOrphan(s: State)
    requires s == Single(Alone(Finished, 0, false, false, 1, true), Tally(0), 1, true, Working) && Shape(s)
    ensures Orphan(s, 0)
  {
  }

  lemma {:induction false} MarkedLate(s: State) returns (acts: seq<Action>)
    requires s == Single(Alone(Busy, 1, false, true, 1, true), Mark(0, false), 1, false, Working)
    ensures CanRun(s, acts)
    ensures Run(s, acts) == Single(Alone(Finished, 0, false, false, 1, true), Tally(0), 1, true, Working)
  {
    var a := s.(releasing := true);
    var b := Single(Alone(Busy, 0, false, false, 1, true), Mark(0, false), 1, true, SawLast(0));
    var z := b.(caller := Working);
    CallerLooks(s, a, b, z);
    SingleStep(z.tasks[0], Mark(0, false), 1, true, Working);
    acts := Before(z, Work(0), Single(Alone(Finished, 0, false, false, 1, true), Tally(0), 1, true, Working), []);
    acts := Before(b, CallerStep, z, acts);
    acts := Before(a, Release(0), b, acts);
    acts := Before(s, BeginRelease, a, acts);
  }

  lemma {:induction false} LateFrom(pc: Pc) returns (acts: seq<Action>)
    requires OnTheWay(pc)
    ensures CanRun(Single(Record(pc), pc, 1, false, Working), acts)
    ensures Run(Single(Record(pc), pc, 1, false, Working), acts)
         == Single(Alone(Finished, 0, false, false, 1, true), Tally(0), 1, true, Working)
  {
    var s := Single(Record(pc), pc, 1, false, Working);
    var a := WorkerRun(pc);
    var b := MarkedLate(Run(s, a));
    Append(s, a, b);
    acts := a + b;
  }

  lemma {:induction false} LateRun(s: State, queued: State, counted: State, rest: seq<Action>)
    returns (acts: seq<Action>)
    requires s == Start(1)
    requires queued == Single(Alone(Busy, 2, true, true, 0, false), Idle, 0, false, Working).(uncounted := [0])
    requires counted == Single(Alone(Busy, 2, true, true, 0, false), Idle, 1, false, Working)
    requires CanRun(counted, rest)
    ensures CanRun(s, acts) && Run(s, acts) == Run(counted, rest)
  {
    QueueStep(s, queued);
    CountStep(queued, counted);
    acts := Before(queued, CountUp(0), counted, rest);
    acts := Before(s, Detached(0), queued, acts);
  }

  /** A run that leaves an orphan: one task, whose caller drops its reference
      and looks while the worker is between its own drop and its store. */
  lemma {:induction false} LeavesOrphan() returns (cores: nat, acts: seq<Action>)
    ensures CanRun(Start(cores), acts) && Inv(Run(Start(cores), acts)) && Orphan(Run(Start(cores), acts), 0)
  {
    cores := 1;
    acts := LateFrom(Idle);
    acts := LateRun(Start(cores), Single(Record(Idle), Idle, 0, false, Working).(uncounted := [0]),
                    Single(Record(Idle), Idle, 1, false, Working), acts);
    Reachable(cores, acts);
    SingleOrphan(Run(Start(cores), acts));
  }

  // ---- every other task without references can be freed -----------------------------------------

  /** How many stores and loads the party with the right is away from storing EMPTY. */
  ghost function Delay(s: State, p: int): nat
    requires Shape(s) && -1 <= p < |s.pcs|
  {
    if p == -1 then (if s.caller.Clearing? then 0 else 1) else if s.pcs[p].Clear? then 0 else 1
  }

  lemma {:induction false} ClearsStep(s: State, z: State, p: int, t: nat)
    requires Inv(s) && -1 <= p < |s.pcs| && Aim(s, p) == t < |s.tasks| && s.tasks[t].slot == Finished
    requires Enabled(s, if p == -1 then CallerStep else Work(p)) && z == Act(s, if p == -1 then CallerStep else Work(p))
    requires Shape(z) && |z.pcs| == |s.pcs| && t < |z.tasks|
    ensures z.tasks[t].slot == Empty || (z.tasks[t].slot == Finished && Delay(z, p) < Delay(s, p))
  {
    if p >= 0 { assert PcShape(s, p) && TaskInv(s, t); }
  }

  /** The party with the right to a finished task marks it EMPTY, alone, in at most two steps. */
  lemma {:induction false} RightClears(s: State, p: int, t: nat) returns (acts: seq<Action>)
    requires Inv(s) && -1 <= p < |s.pcs| && Aim(s, p) == t < |s.tasks| && s.tasks[t].slot == Finished
    ensures CanRun(s, acts) && |acts| <= 2
    ensures var z := Run(s, acts); Inv(z) && t < |z.tasks| && z.tasks[t].slot == Empty
    ensures |acts| <= 1 + Delay(s, p)
    decreases Delay(s, p)
  {
    var a := if p == -1 then CallerStep else Work(p);
    var z := Act(s, a);
    ActKeeps(s, a);
    SizesGrow(s, a);
    ClearsStep(s, z, p, t);
    var rest := [];
    if z.tasks[t].slot != Empty {
      RightKept(s, z, a, p, t);
      rest := RightClears(z, p, t);
    }
    Then(s, a, rest);
    acts := [a] + rest;
  }

  /** How far worker `c` is from the cleanup of task `t`: sweeping towards it, in a pass,
      about to start one, asleep, or sweeping past it. */
  ghost function Leg(s: State, c: nat, t: nat): nat
    requires Shape(s) && c < |s.pcs|
  {
    assert PcShape(s, c);
    var q := s.queues[c];
    match s.pcs[c]
    case Idle => if s.counts[c] == 0 then 3 else 2
    case Sweep(i) => if i < |q| && q[i] <= t then 0 else 4
    case Reap(i) => if q[i] <= t then 0 else 4
    case _ => 1
  }

  ghost predicate Nearer(s: State, z: State, c: nat, t: nat)
    requires Shape(s) && Shape(z) && c < |s.pcs| && c < |z.pcs|
  {
    || Leg(z, c, t) < Leg(s, c, t)
    || (Leg(z, c, t) == Leg(s, c, t) && Ahead(z, c) < Ahead(s, c))
    || (Leg(z, c, t) == Leg(s, c, t) && Ahead(z, c) == Ahead(s, c) && Within(z, c) < Within(s, c))
  }

  /** An EMPTY task in the list of core `c`, whose worker is not asleep. */
  ghost predicate InSight(s: State, c: nat, t: nat, p: nat) {
    && Shape(s) && c < |s.pcs| && !(s.pcs[c].Idle? && s.counts[c] == 0)
    && Ascending(s.queues[c]) && p < |s.queues[c]| && s.queues[c][p] == t && s.tasks[t].slot == Empty
    && PcShape(s, c)
    && (s.pcs[c].Reap? ==> s.tasks[s.queues[c][s.pcs[c].i]].refs == 0)
  }

  lemma {:induction false} SweepNearer(s: State, z: State, c: nat, t: nat, p: nat)
    requires InSight(s, c, t, p) && (s.pcs[c].Idle? || s.pcs[c].Next? || s.pcs[c].Sweep? || s.pcs[c].Reap?)
    requires z == Step(s, c) && Shape(z) && |z.pcs| == |s.pcs| && |z.tasks| == |s.tasks|
    ensures z.tasks[t].freed || Nearer(s, z, c, t)
  {
    if s.pcs[c].Sweep? && s.pcs[c].i < |s.queues[c]| { assert s.pcs[c].i <= p || s.queues[c][s.pcs[c].i] > t; }
  }

  lemma {:induction false} StartNearer(s: State, z: State, c: nat, t: nat, p: nat)
    requires InSight(s, c, t, p) && (s.pcs[c].Look? || s.pcs[c].Check? || s.pcs[c].Call? || s.pcs[c].Exec?)
    requires z == Step(s, c) && Shape(z) && |z.pcs| == |s.pcs|
    ensures Nearer(s, z, c, t)
  {
  }

  lemma {:induction false} DropNearer(s: State, z: State, c: nat, t: nat, p: nat)
    requires InSight(s, c, t, p) && (s.pcs[c].Drop? || s.pcs[c].Saw? || s.pcs[c].Clear?)
    requires z == Step(s, c) && Shape(z) && |z.pcs| == |s.pcs|
    ensures Nearer(s, z, c, t)
  {
  }

  lemma {:induction false} EndNearer(s: State, z: State, c: nat, t: nat, p: nat)
    requires InSight(s, c, t, p) && (s.pcs[c].Own? || s.pcs[c].Mark? || s.pcs[c].Tally?)
    requires z == Step(s, c) && Shape(z) && |z.pcs| == |s.pcs|
    ensures Nearer(s, z, c, t)
  {
  }

  lemma {:induction false} EmptyInSight(s: State, t: nat) returns (p: nat)
    requires Inv(s) && t < |s.tasks| && s.tasks[t].slot == Empty && !s.tasks[t].freed
    requires !(s.pcs[s.tasks[t].core].Idle? && s.counts[s.tasks[t].core] == 0)
    ensures InSight(s, s.tasks[t].core, t, p)
  {
    var c := s.tasks[t].core;
    assert TaskInv(s, t) && PcShape(s, c) && Ascending(s.queues[c]) && WorkerInv(s, c);
    if s.pcs[c].Reap? { assert TaskInv(s, s.queues[c][s.pcs[c].i]); }
    p :| 0 <= p < |s.queues[c]| && s.queues[c][p] == t;
  }

  lemma {:induction false} StepNearer(s: State, z: State, t: nat)
    requires Inv(s) && t < |s.tasks| && s.tasks[t].slot == Empty && !s.tasks[t].freed
    requires !(s.pcs[s.tasks[t].core].Idle? && s.counts[s.tasks[t].core] == 0)
    requires z == Step(s, s.tasks[t].core) && Shape(z) && |z.pcs| == |s.pcs| && |z.tasks| == |s.tasks|
    ensures z.tasks[t].freed || Nearer(s, z, s.tasks[t].core, t)
  {
    var c := s.tasks[t].core;
    var p := EmptyInSight(s, t);
    match s.pcs[c]
    case Look(_) => StartNearer(s, z, c, t, p);
    case Check(_, _) => StartNearer(s, z, c, t, p);
    case Call(_) => StartNearer(s, z, c, t, p);
    case Exec(_) => StartNearer(s, z, c, t, p);
    case Drop(_, _) => DropNearer(s, z, c, t, p);
    case Saw(_, _) => DropNearer(s, z, c, t, p);
    case Clear(_, _) => DropNearer(s, z, c, t, p);
    case Own(_) => EndNearer(s, z, c, t, p);
    case Mark(_, _) => EndNearer(s, z, c, t, p);
    case Tally(_) => EndNearer(s, z, c, t, p);
    case _ => SweepNearer(s, z, c, t, p);
  }

  lemma {:induction false} MarkedIsBusy(s: State, c: nat)
    requires Inv(s) && c < |s.pcs| && s.pcs[c].Mark?
    ensures s.pcs[c].i < |s.queues[c]| && s.queues[c][s.pcs[c].i] < |s.tasks|
    ensures s.tasks[s.queues[c][s.pcs[c].i]].slot == Busy
  {
    assert PcShape(s, c) && TaskInv(s, s.queues[c][s.pcs[c].i]);
  }

  lemma {:induction false} StepEmpty(s: State, c: nat, t: nat)
    requires Shape(s) && c < |s.pcs| && t < |s.tasks| && s.tasks[t].slot == Empty
    requires s.pcs[c].Mark? ==> s.pcs[c].i < |s.queues[c]| && s.queues[c][s.pcs[c].i] != t
    ensures |Step(s, c).tasks| == |s.tasks| && Step(s, c).tasks[t].slot == Empty
  {
    assert PcShape(s, c);
  }

  /** A new task on the core wakes its worker. */
  lemma {:induction false} WakeUp(s: State, c: nat, y: State, z: State)
    requires Inv(s) && c < |s.pcs| && s.pcs[c].Idle? && s.counts[c] == 0
    requires y == Act(s, Detached(c)) && Inv(y)
    requires Enabled(y, CountUp(|s.uncounted|)) && z == Act(y, CountUp(|s.uncounted|))
    ensures |z.pcs| == |s.pcs| && z.pcs[c].Idle? && z.counts[c] != 0 && s.tasks <= z.tasks
  {
  }

  lemma {:induction false} Awoken(s: State, c: nat) returns (y: State, z: State)
    requires Inv(s) && c < |s.pcs| && s.pcs[c].Idle? && s.counts[c] == 0
    ensures Goes(s, Detached(c), y) && Goes(y, CountUp(|s.uncounted|), z) && Inv(z)
    ensures |z.pcs| == |s.pcs| && z.pcs[c].Idle? && z.counts[c] != 0 && s.tasks <= z.tasks
  {
    y := Act(s, Detached(c));
    ActKeeps(s, Detached(c));
    z := Act(y, CountUp(|s.uncounted|));
    ActKeeps(y, CountUp(|s.uncounted|));
    WakeUp(s, c, y, z);
  }

  lemma {:induction false} OneNearer(s: State, t: nat) returns (z: State)
    requires Inv(s) && t < |s.tasks| && s.tasks[t].slot == Empty && !s.tasks[t].freed
    requires !(s.pcs[s.tasks[t].core].Idle? && s.counts[s.tasks[t].core] == 0)
    ensures Goes(s, Work(s.tasks[t].core), z) && Inv(z) && |z.pcs| == |s.pcs|
    ensures t < |z.tasks| && z.tasks[t].slot == Empty && z.tasks[t].core == s.tasks[t].core
    ensures z.tasks[t].freed || Nearer(s, z, s.tasks[t].core, t)
  {
    var c := s.tasks[t].core;
    z := Act(s, Work(c));
    ActKeeps(s, Work(c));
    SizesGrow(s, Work(c));
    if s.pcs[c].Mark? { MarkedIsBusy(s, c); }
    StepEmpty(s, c, t);
    StepFewer(s, c);
    StepNearer(s, z, t);
  }

  /** The cleanup pass of the core's worker frees it. */
  lemma {:induction false} EmptyComesFree(s: State, t: nat) returns (acts: seq<Action>)
    requires Inv(s) && t < |s.tasks| && s.tasks[t].slot == Empty
    ensures Frees(s, acts, t)
    decreases !s.tasks[t].freed, Leg(s, s.tasks[t].core, t), Ahead(s, s.tasks[t].core), Within(s, s.tasks[t].core)
  {
    var c := s.tasks[t].core;
    acts := [];
    if !s.tasks[t].freed {
      if s.pcs[c].Idle? && s.counts[c] == 0 {
        var y, z := Awoken(s, c);
        acts := EmptyComesFree(z, t);
        acts := Before(y, CountUp(|s.uncounted|), z, acts);
        acts := Before(s, Detached(c), y, acts);
      } else {
        var z := OneNearer(s, t);
        acts := EmptyComesFree(z, t);
        acts := Before(s, Work(c), z, acts);
      }
    }
  }

  ghost predicate Frees(s: State, acts: seq<Action>, t: nat) {
    CanRun(s, acts) && t < |Run(s, acts).tasks| && Run(s, acts).tasks[t].freed
  }

  /** A task that has run and has no references left can still be freed
      if and only if it is not an orphan. */
  lemma {:induction false} FreeableIff(s: State, t: nat)
    requires Inv(s) && t < |s.tasks| && s.tasks[t].slot != Busy && s.tasks[t].refs == 0
    ensures (exists acts :: Frees(s, acts, t)) <==> !Orphan(s, t)
  {
    if Orphan(s, t) {
      forall acts | CanRun(s, acts) ensures !Frees(s, acts, t) { OrphanIsNeverFreed(s, acts, t); }
    } else {
      var acts := [];
      if s.tasks[t].slot == Finished {
        var p :| -1 <= p < |s.pcs| && Aim(s, p) == t;
        acts := RightClears(s, p, t);
      }
      var rest := EmptyComesFree(Run(s, acts), t);
      Append(s, acts, rest);
      assert Frees(s, acts + rest, t);
    }
  }

  // ---- references given up ------------------------------------------------------------------------

  lemma {:induction false} StepLeak(s: State, c: nat, t: nat)
    requires Shape(s) && c < |s.pcs| && t < |s.tasks|
    ensures |Step(s, c).tasks| == |s.tasks| && Step(s, c).tasks[t].leaked == s.tasks[t].leaked
  {
    assert PcShape(s, c);
  }

  lemma {:induction false} LeakStays(s: State, a: Action, t: nat)
    requires Inv(s) && Enabled(s, a) && t < |s.tasks|
    ensures t < |Act(s, a).tasks| && s.tasks[t].leaked <= Act(s, a).tasks[t].leaked
  {
    if a.Work? {
      StepLeak(s, a.c, t);
    } else if a.Abort? {
      LeakedAll(s.tasks, s.building, t);
    }
  }

  /** A dependency of a module whose load was given up is never freed. */
  lemma {:induction false} GivenUpIsNeverFreed(s: State, acts: seq<Action>, t: nat)
    requires Inv(s) && CanRun(s, acts) && t < |s.tasks| && s.tasks[t].leaked > 0
    ensures !Frees(s, acts, t)
    decreases |acts|
  {
    if acts == [] {
      assert TaskInv(s, t);
    } else {
      ActKeeps(s, acts[0]);
      LeakStays(s, acts[0], t);
      GivenUpIsNeverFreed(Act(s, acts[0]), acts[1..], t);
    }
  }
}
