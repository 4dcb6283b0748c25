/** The per-core work queues (`workqueue_process`, `vxAddWorkqueueTask`) with
    the module loader's reference taking and releasing, as interleaved atomic
    steps.  Tasks are numbered in the order they are queued. */
module Workqueue {
  import opened Lists

  datatype Slot = Empty | Busy | Finished

  /** A `workqueue_t`.  `self`, `caller`, `leaked` and the undropped part of
      the dependents' lists say who holds the references `refs` counts;
      `starts`, `returned` and `counted` record what has happened to it. */
  datatype Task = Task(
    core: nat, deps: seq<nat>, slot: Slot, refs: int,
    self: bool, caller: bool, leaked: nat, dropped: nat,
    starts: nat, returned: bool, counted: bool, freed: bool)

  /** Where a worker is; `i` is its position in its core's list. */
  datatype Pc =
    | Idle
    | Look(i: nat)                  // about to load in_use
    | Check(i: nat, j: nat)         // about to load in_use of dependency j
    | Call(i: nat)                  // about to call the function
    | Exec(i: nat)                  // in the function
    | Drop(i: nat, j: nat)          // about to drop dependency j
    | Saw(i: nat, j: nat)           // dropped the last reference, about to load in_use
    | Clear(i: nat, j: nat)         // about to store EMPTY to dependency j
    | Own(i: nat)                   // about to drop its own reference
    | Mark(i: nat, last: bool)      // about to store EMPTY or FINISHED
    | Tally(i: nat)                 // about to decrement the core's count
    | Next(i: nat)                  // about to load next
    | Sweep(i: nat)                 // cleanup pass, about to load in_use
    | Reap(i: nat)                  // cleanup pass, about to load refcount

  datatype CallerPc = Working | SawLast(t: nat) | Clearing(t: nat)

  datatype State = State(
    tasks: seq<Task>, queues: seq<seq<nat>>, pcs: seq<Pc>, counts: seq<int>,
    uncounted: seq<nat>, building: seq<nat>, releasing: bool, caller: CallerPc)

  datatype Action =
    | Work(c: nat)            // one step of the worker of core c
    | Take(d: nat)            // the loader takes a reference on a dependency
    | Abort                   // it gives the module up; its references leak
    | Submit(c: nat)          // it queues the module's task
    | Detached(c: nat)        // some other thread queues a task without dependencies
    | CountUp(k: nat)         // a submitter increments the count of its core
    | BeginRelease            // the loader starts its second loop
    | Release(t: nat)         // it drops the caller's reference
    | CallerStep              // it goes on after having seen the last reference

  // ---- one worker step -------------------------------------------------------

  ghost predicate Shape(s: State) {
    && |s.pcs| == |s.queues| == |s.counts|
    && (forall t | 0 <= t < |s.tasks| ::
          && s.tasks[t].core < |s.queues|
          && s.tasks[t].dropped <= |s.tasks[t].deps|
          && forall j | 0 <= j < |s.tasks[t].deps| :: s.tasks[t].deps[j] < t)
    && (forall c, i | 0 <= c < |s.queues| && 0 <= i < |s.queues[c]| :: s.queues[c][i] < |s.tasks|)
    && (forall c | 0 <= c < |s.pcs| :: PcShape(s, c))
  }

  ghost predicate PcShape(s: State, c: nat)
    requires c < |s.pcs| == |s.queues|
    requires forall i | 0 <= i < |s.queues[c]| :: s.queues[c][i] < |s.tasks|
  {
    var q := s.queues[c];
    match s.pcs[c]
    case Idle => true
    case Sweep(i) => i <= |q|
    case Check(i, j) => i < |q| && j <= |s.tasks[q[i]].deps|
    case Drop(i, j) => i < |q| && j <= |s.tasks[q[i]].deps|
    case Saw(i, j) => i < |q| && j < |s.tasks[q[i]].deps|
    case Clear(i, j) => i < |q| && j < |s.tasks[q[i]].deps|
    case pc => pc.i < |q|
  }

  function SetPc(s: State, c: nat, pc: Pc): State
    requires c < |s.pcs|
  {
    s.(pcs := s.pcs[c := pc])
  }

  function SetTask(s: State, t: nat, k: Task): State
    requires t < |s.tasks|
  {
    s.(tasks := s.tasks[t := k])
  }

  function Step(s: State, c: nat): State
    requires Shape(s) && c < |s.pcs|
  {
    assert PcShape(s, c);
    var q := s.queues[c];
    match s.pcs[c]
    case Idle =>
      if s.counts[c] == 0 then s else SetPc(s, c, if q == [] then Sweep(0) else Look(0))
    case Look(i) =>
      SetPc(s, c, if s.tasks[q[i]].slot == Busy then Check(i, 0) else Next(i))
    case Check(i, j) =>
      var k := s.tasks[q[i]];
      SetPc(s, c, if j == |k.deps| then Call(i)
                  else if s.tasks[k.deps[j]].slot == Finished then Check(i, j + 1) else Next(i))
    case Call(i) =>
      var k := s.tasks[q[i]];
      SetPc(SetTask(s, q[i], k.(starts := k.starts + 1)), c, Exec(i))
    case Exec(i) =>
      SetPc(SetTask(s, q[i], s.tasks[q[i]].(returned := true)), c, Drop(i, 0))
    case Drop(i, j) =>
      var k := s.tasks[q[i]];
      if j == |k.deps| then SetPc(s, c, Own(i))
      else
        var d := s.tasks[k.deps[j]];
        var s1 := SetTask(s, q[i], k.(dropped := j + 1));
        SetPc(SetTask(s1, k.deps[j], d.(refs := d.refs - 1)), c, if d.refs == 1 then Saw(i, j) else Drop(i, j + 1))
    case Saw(i, j) =>
      SetPc(s, c, if s.tasks[s.tasks[q[i]].deps[j]].slot == Finished then Clear(i, j) else Drop(i, j + 1))
    case Clear(i, j) =>
      var d := s.tasks[q[i]].deps[j];
      SetPc(SetTask(s, d, s.tasks[d].(slot := Empty)), c, Drop(i, j + 1))
    case Own(i) =>
      var k := s.tasks[q[i]];
      SetPc(SetTask(s, q[i], k.(refs := k.refs - 1, self := false)), c, Mark(i, k.refs == 1))
    case Mark(i, last) =>
      SetPc(SetTask(s, q[i], s.tasks[q[i]].(slot := if last then Empty else Finished)), c, Tally(i))
    case Tally(i) =>
      SetPc(SetTask(s, q[i], s.tasks[q[i]].(counted := true)), c, Next(i)).(counts := s.counts[c := s.counts[c] - 1])
    case Next(i) =>
      SetPc(s, c, if i + 1 < |q| then Look(i + 1) else Sweep(0))
    case Sweep(i) =>
      SetPc(s, c, if i == |q| then Idle else if s.tasks[q[i]].slot == Empty then Reap(i) else Sweep(i + 1))
    case Reap(i) =>
      if s.tasks[q[i]].refs == 0 then
        SetPc(SetTask(s, q[i], s.tasks[q[i]].(freed := true)), c, Sweep(i)).(queues := s.queues[c := Without(q, i)])
      else SetPc(s, c, Sweep(i + 1))
  }

  // ---- the submitters -----------------------------------------------------------

  /** The worker holds its list lock during the whole cleanup pass. */
  predicate Locked(pc: Pc) {
    pc.Sweep? || pc.Reap?
  }

  predicate Enabled(s: State, a: Action)
    requires Shape(s)
  {
    match a
    case Work(c) => c < |s.pcs|
    case Take(d) => s.caller == Working && !s.releasing && d < |s.tasks|
    case Abort => s.caller == Working && !s.releasing
    case Submit(c) => s.caller == Working && !s.releasing && c < |s.pcs| && !Locked(s.pcs[c])
    case Detached(c) => c < |s.pcs| && !Locked(s.pcs[c])
    case CountUp(k) => k < |s.uncounted| && s.uncounted[k] < |s.counts|
    case BeginRelease => s.caller == Working && !s.releasing && s.building == []
    case Release(t) => s.caller == Working && s.releasing && t < |s.tasks| && s.tasks[t].caller
    case CallerStep => s.caller != Working && s.caller.t < |s.tasks|
  }

  /** `vxAddWorkqueueTask` up to the insertion in the list. */
  function Add(s: State, c: nat, deps: seq<nat>): State
    requires c < |s.queues|
  {
    var k := Task(c, deps, Busy, 2, true, true, 0, 0, 0, false, false, false);
    s.(tasks := s.tasks + [k], queues := s.queues[c := s.queues[c] + [|s.tasks|]], uncounted := s.uncounted + [c])
  }

  /** The references of an abandoned list are never given back. */
  function Leak(tasks: seq<Task>, lost: seq<nat>): (r: seq<Task>)
    ensures |r| == |tasks|
  {
    if lost == [] then tasks
    else
      var r := Leak(tasks, lost[..|lost| - 1]);
      var d := lost[|lost| - 1];
      if d < |r| then r[d := r[d].(leaked := r[d].leaked + 1)] else r
  }

  function Act(s: State, a: Action): State
    requires Shape(s) && Enabled(s, a)
  {
    match a
    case Work(c) => Step(s, c)
    case Take(d) =>
      SetTask(s, d, s.tasks[d].(refs := s.tasks[d].refs + 1)).(building := s.building + [d])
    case Abort => s.(tasks := Leak(s.tasks, s.building), building := [])
    case Submit(c) => Add(s, c, s.building).(building := [])
    case Detached(c) => Add(s, c, [])
    case CountUp(k) =>
      var c := s.uncounted[k];
      s.(counts := s.counts[c := s.counts[c] + 1], uncounted := Without(s.uncounted, k))
    case BeginRelease => s.(releasing := true)
    case Release(t) =>
      var k := s.tasks[t];
      SetTask(s, t, k.(refs := k.refs - 1, caller := false)).(caller := if k.refs == 1 then SawLast(t) else Working)
    case CallerStep =>
      match s.caller
      case SawLast(t) => s.(caller := if s.tasks[t].slot == Finished then Clearing(t) else Working)
      case Clearing(t) => SetTask(s, t, s.tasks[t].(slot := Empty)).(caller := Working)
      case Working => s
  }

  // ---- who holds the references ----------------------------------------------------

  /** How often `t` occurs in `deps[j..]`. */
  function Left(deps: seq<nat>, j: nat, t: nat): nat
    decreases |deps| - j
  {
    if j >= |deps| then 0 else (if deps[j] == t then 1 else 0) + Left(deps, j + 1, t)
  }

  /** References to `t` that the first `n` tasks have still to drop. */
  function Dependents(tasks: seq<Task>, t: nat, n: nat): nat
    requires n <= |tasks|
  {
    if n == 0 then 0 else Dependents(tasks, t, n - 1) + Left(tasks[n - 1].deps, tasks[n - 1].dropped, t)
  }

  /** Tasks of core `c` that its count has still to lose. */
  function Outstanding(tasks: seq<Task>, c: nat, n: nat): nat
    requires n <= |tasks|
  {
    if n == 0 then 0
    else Outstanding(tasks, c, n - 1) + if tasks[n - 1].core == c && !tasks[n - 1].counted then 1 else 0
  }

  ghost predicate RefOk(s: State, t: nat)
    requires t < |s.tasks|
  {
    var k := s.tasks[t];
    k.refs == One(k.self) + One(k.caller) + Dependents(s.tasks, t, |s.tasks|) + Left(s.building, 0, t) + k.leaked
  }

  // ---- the invariant ------------------------------------------------------------------

  predicate Waiting(k: Task) {
    k.slot == Busy && k.self && k.dropped == 0 && k.starts == 0 && !k.returned && !k.counted
  }

  predicate Done(k: Task) {
    k.slot != Busy && !k.self && k.dropped == |k.deps| && k.starts == 1 && k.returned && k.counted
  }

  predicate Active(pc: Pc) {
    pc.Exec? || pc.Drop? || pc.Saw? || pc.Clear? || pc.Own? || pc.Mark? || pc.Tally?
  }

  /** What the record of a task says while its worker is at `pc` in it. */
  predicate During(k: Task, pc: Pc)
    requires Active(pc)
  {
    && k.starts == 1 && !k.counted
    && (k.slot == Busy <==> !pc.Tally?)
    && (k.self <==> !pc.Mark? && !pc.Tally?)
    && (k.returned <==> !pc.Exec?)
    && k.dropped == (match pc
                     case Exec(_) => 0
                     case Drop(_, j) => j
                     case Saw(_, j) => j + 1
                     case Clear(_, j) => j + 1
                     case _ => |k.deps|)
  }

  ghost predicate Stage(s: State, t: nat)
    requires Shape(s) && t < |s.tasks|
  {
    var k := s.tasks[t];
    var pc := s.pcs[k.core];
    assert PcShape(s, k.core);
    if Active(pc) && s.queues[k.core][pc.i] == t then During(k, pc) else Waiting(k) || Done(k)
  }

  /** A started task found all its dependencies FINISHED, and those it still holds stay so. */
  ghost predicate DepsOk(s: State, t: nat)
    requires Shape(s) && t < |s.tasks|
  {
    var k := s.tasks[t];
    k.starts > 0 ==> forall j | 0 <= j < |k.deps| :: Over(s.tasks, k.deps[j], j >= k.dropped)
  }

  ghost predicate Over(tasks: seq<Task>, d: nat, held: bool) {
    d < |tasks| && tasks[d].returned && (held ==> tasks[d].slot == Finished)
  }

  ghost predicate TaskInv(s: State, t: nat)
    requires Shape(s) && t < |s.tasks|
  {
    var k := s.tasks[t];
    && RefOk(s, t)
    && Stage(s, t)
    && DepsOk(s, t)
    && (k.slot == Empty ==> k.refs == 0)
    && (k.freed ==> k.slot == Empty)
    && (!k.freed ==> t in s.queues[k.core])
    && (!s.releasing ==> k.caller)
  }

  predicate Ascending(q: seq<nat>) {
    forall i, j | 0 <= i < j < |q| :: q[i] < q[j]
  }

  ghost predicate Listed(s: State)
    requires Shape(s)
  {
    && (forall c, i | 0 <= c < |s.queues| && 0 <= i < |s.queues[c]| ::
          s.tasks[s.queues[c][i]].core == c && !s.tasks[s.queues[c][i]].freed)
    && (forall c | 0 <= c < |s.queues| :: Ascending(s.queues[c]))
    && CallerShape(s)
  }

  ghost predicate CallerShape(s: State) {
    && (forall j | 0 <= j < |s.building| :: s.building[j] < |s.tasks|)
    && (s.caller != Working ==> s.caller.t < |s.tasks|)
  }

  /** Which task worker `c` has the right to mark EMPTY, or -1. */
  ghost function Target(s: State, c: nat): int
    requires Shape(s) && c < |s.pcs|
  {
    assert PcShape(s, c);
    var q := s.queues[c];
    match s.pcs[c]
    case Saw(i, j) => s.tasks[q[i]].deps[j]
    case Clear(i, j) => s.tasks[q[i]].deps[j]
    case Mark(i, last) => if last then q[i] else -1
    case _ => -1
  }

  ghost function CallerTarget(s: State): int {
    if s.caller == Working then -1 else s.caller.t
  }

  ghost predicate Dead(tasks: seq<Task>, t: int) {
    0 <= t < |tasks| ==> tasks[t].refs == 0 && tasks[t].slot != Empty
  }

  ghost predicate WorkerInv(s: State, c: nat)
    requires Shape(s) && c < |s.pcs|
  {
    assert PcShape(s, c);
    var q := s.queues[c];
    && Dead(s.tasks, Target(s, c))
    && (match s.pcs[c]
        case Check(i, j) => Waiting(s.tasks[q[i]]) && AllOver(s.tasks, s.tasks[q[i]].deps[..j])
        case Call(i) => Waiting(s.tasks[q[i]]) && AllOver(s.tasks, s.tasks[q[i]].deps)
        case Reap(i) => s.tasks[q[i]].slot == Empty
        case Saw(i, j) => s.tasks[s.tasks[q[i]].deps[j]].slot == Finished
        case Clear(i, j) => s.tasks[s.tasks[q[i]].deps[j]].slot == Finished
        case _ => true)
  }

  ghost predicate AllOver(tasks: seq<Task>, deps: seq<nat>) {
    forall j | 0 <= j < |deps| :: Over(tasks, deps[j], true)
  }

  ghost predicate CallerInv(s: State) {
    && Dead(s.tasks, CallerTarget(s))
    && (s.caller.Clearing? && s.caller.t < |s.tasks| ==> s.tasks[s.caller.t].slot == Finished)
  }

  ghost predicate Sole(s: State)
    requires Shape(s)
  {
    && CallerInv(s)
    && (forall c | 0 <= c < |s.pcs| && Target(s, c) >= 0 :: Target(s, c) != CallerTarget(s))
    && (forall c, d | 0 <= c < d < |s.pcs| && Target(s, c) >= 0 :: Target(s, c) != Target(s, d))
  }

  ghost predicate Counted(s: State, c: nat)
    requires c < |s.counts|
  {
    s.counts[c] == Outstanding(s.tasks, c, |s.tasks|) - Left(s.uncounted, 0, c)
  }

  ghost predicate Inv(s: State) {
    && Shape(s)
    && Listed(s)
    && (forall t | 0 <= t < |s.tasks| :: TaskInv(s, t))
    && (forall c | 0 <= c < |s.pcs| :: WorkerInv(s, c))
    && Sole(s)
    && (forall c | 0 <= c < |s.counts| :: Counted(s, c))
    && (forall k | 0 <= k < |s.uncounted| :: s.uncounted[k] < |s.counts|)
  }

  lemma {:induction false} DependentsSame(a: seq<Task>, b: seq<Task>, t: nat, n: nat)
    requires n <= |a| && n <= |b|
    requires forall u | 0 <= u < n :: a[u].deps == b[u].deps && a[u].dropped == b[u].dropped
    ensures Dependents(a, t, n) == Dependents(b, t, n)
  {
    if n > 0 { DependentsSame(a, b, t, n - 1); }
  }

  lemma {:induction false} LeftHolds(deps: seq<nat>, from: nat, j: nat)
    requires from <= j < |deps|
    ensures Left(deps, from, deps[j]) > 0
    decreases j - from
  {
    if from < j { LeftHolds(deps, from + 1, j); }
  }

  lemma {:induction false} DependentsHold(tasks: seq<Task>, u: nat, j: nat, n: nat)
    requires u < n <= |tasks| && tasks[u].dropped <= j < |tasks[u].deps|
    ensures Dependents(tasks, tasks[u].deps[j], n) > 0
  {
    if u == n - 1 { LeftHolds(tasks[u].deps, tasks[u].dropped, j); } else { DependentsHold(tasks, u, j, n - 1); }
  }

  /** A dependency that has still to be dropped is not EMPTY. */
  lemma {:induction false} Held(s: State, u: nat, j: nat)
    requires Inv(s) && u < |s.tasks| && s.tasks[u].dropped <= j < |s.tasks[u].deps|
    ensures s.tasks[s.tasks[u].deps[j]].refs > 0 && s.tasks[s.tasks[u].deps[j]].slot != Empty
    ensures !s.tasks[s.tasks[u].deps[j]].freed
  {
    DependentsHold(s.tasks, u, j, |s.tasks|);
    assert TaskInv(s, s.tasks[u].deps[j]);
  }

  // ---- what a step of one party leaves to the others --------------------------------

  /** What a step of party `p` (a worker, or -1 for the caller) may do to task `t`. */
  ghost predicate Change(s: State, z: State, p: int, t: nat)
    requires Shape(s) && -1 <= p < |s.pcs| && t < |s.tasks| <= |z.tasks|
  {
    var k, m := s.tasks[t], z.tasks[t];
    && m.core == k.core && m.deps == k.deps
    && (k.returned ==> m.returned)
    && (k.refs == 0 ==> m.refs == 0)
    && (k.freed ==> m.freed)
    && (k.slot == Empty ==> m.slot == Empty)
    && (k.slot == Finished ==> m.slot == Finished || (k.refs == 0 && m.slot == Empty))
    && (m.slot == Empty && k.slot != Empty ==> t == Aim(s, p))
    && (k.core != p ==> Aloof(k, m))
  }

  /** As far along as it was. */
  predicate Aloof(k: Task, m: Task) {
    && m.self == k.self && m.dropped == k.dropped && m.starts == k.starts
    && m.returned == k.returned && m.counted == k.counted && (m.slot == Busy <==> k.slot == Busy)
  }

  /** Which task party `p` has the right to mark EMPTY, or -1. */
  ghost function Aim(s: State, p: int): int
    requires Shape(s) && -1 <= p < |s.pcs|
  {
    if p == -1 then CallerTarget(s) else Target(s, p)
  }

  ghost predicate Frame(s: State, z: State, p: int)
    requires Shape(s) && -1 <= p < |s.pcs|
  {
    && |z.pcs| == |z.queues| == |z.counts| == |s.pcs|
    && |s.tasks| <= |z.tasks|
    && (forall d | 0 <= d < |s.pcs| && d != p :: z.pcs[d] == s.pcs[d] && s.queues[d] <= z.queues[d])
    && (p != -1 ==> z.caller == s.caller)
    && (forall t | 0 <= t < |s.tasks| :: Change(s, z, p, t))
  }

  lemma {:induction false} StageKept(s: State, z: State, p: int, t: nat)
    requires Inv(s) && -1 <= p < |s.pcs| && Frame(s, z, p) && Shape(z)
    requires t < |s.tasks| && s.tasks[t].core != p
    ensures Stage(z, t)
  {
    var c := s.tasks[t].core;
    assert TaskInv(s, t) && Change(s, z, p, t) && PcShape(s, c);
    if Active(s.pcs[c]) { assert z.queues[c][s.pcs[c].i] == s.queues[c][s.pcs[c].i]; }
  }

  lemma {:induction false} OverKept(s: State, z: State, p: int, u: nat, j: nat)
    requires Inv(s) && -1 <= p < |s.pcs| && Frame(s, z, p)
    requires u < |s.tasks| && j < |s.tasks[u].deps|
    requires Over(s.tasks, s.tasks[u].deps[j], j >= s.tasks[u].dropped)
    ensures Over(z.tasks, s.tasks[u].deps[j], j >= s.tasks[u].dropped)
  {
    assert Change(s, z, p, s.tasks[u].deps[j]);
    if j >= s.tasks[u].dropped { Held(s, u, j); }
  }

  lemma {:induction false} DepsKept(s: State, z: State, p: int, t: nat)
    requires Inv(s) && -1 <= p < |s.pcs| && Frame(s, z, p) && Shape(z)
    requires t < |s.tasks| && z.tasks[t].starts == s.tasks[t].starts && z.tasks[t].dropped >= s.tasks[t].dropped
    ensures DepsOk(z, t)
  {
    assert TaskInv(s, t) && Change(s, z, p, t);
    if s.tasks[t].starts > 0 {
      forall j | 0 <= j < |s.tasks[t].deps| ensures Over(z.tasks, s.tasks[t].deps[j], j >= z.tasks[t].dropped) {
        OverKept(s, z, p, t, j);
      }
    }
  }

  lemma {:induction false} AllOverKept(s: State, z: State, p: int, u: nat, n: nat)
    requires Inv(s) && -1 <= p < |s.pcs| && Frame(s, z, p)
    requires u < |s.tasks| && Waiting(s.tasks[u]) && n <= |s.tasks[u].deps| && AllOver(s.tasks, s.tasks[u].deps[..n])
    ensures AllOver(z.tasks, s.tasks[u].deps[..n])
  {
    var deps := s.tasks[u].deps[..n];
    forall j | 0 <= j < n ensures Over(z.tasks, deps[j], true) {
      assert Over(s.tasks, deps[j], true);
      OverKept(s, z, p, u, j);
    }
  }

  lemma {:induction false} TargetKept(s: State, z: State, p: int, d: nat)
    requires Inv(s) && -1 <= p < |s.pcs| && Frame(s, z, p) && Shape(z) && d < |s.pcs| && d != p
    ensures Target(z, d) == Target(s, d) && Dead(z.tasks, Target(z, d))
  {
    assert PcShape(s, d) && WorkerInv(s, d);
    if s.pcs[d] != Idle && !s.pcs[d].Sweep? {
      assert Change(s, z, p, s.queues[d][s.pcs[d].i]);
    }
    if Target(s, d) >= 0 {
      assert Change(s, z, p, Target(s, d));
      assert Target(s, d) != Aim(s, p);
    }
  }

  lemma {:induction false} WorkerKept(s: State, z: State, p: int, d: nat)
    requires Inv(s) && -1 <= p < |s.pcs| && Frame(s, z, p) && Shape(z) && d < |s.pcs| && d != p
    ensures WorkerInv(z, d)
  {
    TargetKept(s, z, p, d);
    assert PcShape(s, d) && WorkerInv(s, d);
    match s.pcs[d]
    case Check(i, j) =>
      assert Change(s, z, p, s.queues[d][i]);
      AllOverKept(s, z, p, s.queues[d][i], j);
    case Call(i) =>
      var deps := s.tasks[s.queues[d][i]].deps;
      assert deps[..|deps|] == deps;
      assert Change(s, z, p, s.queues[d][i]);
      AllOverKept(s, z, p, s.queues[d][i], |deps|);
    case Reap(i) =>
      assert Change(s, z, p, s.queues[d][i]);
    case Saw(i, j) =>
      assert Change(s, z, p, s.queues[d][i]) && Change(s, z, p, Target(s, d));
    case Clear(i, j) =>
      assert Change(s, z, p, s.queues[d][i]) && Change(s, z, p, Target(s, d));
    case _ =>
  }

  ghost predicate Tidy(z: State, t: nat)
    requires Shape(z) && t < |z.tasks|
  {
    var k := z.tasks[t];
    && RefOk(z, t)
    && (k.slot == Empty ==> k.refs == 0)
    && (k.freed ==> k.slot == Empty)
    && (!k.freed ==> t in z.queues[k.core])
    && (!z.releasing ==> k.caller)
  }

  /** What party `p` now has the right to mark EMPTY was its before, or
      just lost its last reference. */
  ghost predicate AimOk(s: State, z: State, p: int)
    requires Shape(s) && Shape(z) && -1 <= p < |s.pcs| == |z.pcs|
  {
    var a := Aim(z, p);
    a == -1 || a == Aim(s, p) || (0 <= a < |s.tasks| && s.tasks[a].refs > 0)
  }

  lemma {:induction false} CallerKept(s: State, z: State, p: int)
    requires Inv(s) && 0 <= p < |s.pcs| && Frame(s, z, p)
    ensures CallerInv(z)
  {
    if s.caller != Working { assert Change(s, z, p, s.caller.t); }
  }

  lemma {:induction false} SoleKept(s: State, z: State, p: int)
    requires Inv(s) && -1 <= p < |s.pcs| && Frame(s, z, p) && Shape(z) && CallerInv(z) && AimOk(s, z, p)
    requires s.caller != Working ==> s.caller.t < |s.tasks|
    ensures Sole(z)
  {
    forall d | 0 <= d < |z.pcs| && d != p
      ensures Target(z, d) == Target(s, d) && (Target(s, d) >= 0 ==> Target(s, d) != Aim(z, p))
    {
      TargetKept(s, z, p, d);
      assert WorkerInv(s, d);
    }
  }

  ghost predicate Restarted(s: State, z: State, t: nat)
    requires t < |z.tasks|
  {
    t >= |s.tasks| || z.tasks[t].starts != s.tasks[t].starts || z.tasks[t].dropped < s.tasks[t].dropped
  }

  /** The parts of the invariant that a step has to restore itself. */
  ghost predicate Restores(s: State, z: State, p: int)
    requires Shape(s) && -1 <= p < |s.pcs|
  {
    && Frame(s, z, p)
    && Shape(z)
    && Listed(z)
    && (forall t | 0 <= t < |z.tasks| :: Tidy(z, t))
    && (forall t | 0 <= t < |z.tasks| && (t >= |s.tasks| || z.tasks[t].core == p) :: Stage(z, t))
    && (forall t | 0 <= t < |z.tasks| && Restarted(s, z, t) :: DepsOk(z, t))
    && (if p == -1 then CallerInv(z) else WorkerInv(z, p))
    && AimOk(s, z, p)
    && (forall c | 0 <= c < |z.counts| :: Counted(z, c))
    && (forall k | 0 <= k < |z.uncounted| :: z.uncounted[k] < |z.counts|)
  }

  lemma {:induction false} Assemble(s: State, z: State, p: int)
    requires Inv(s) && -1 <= p < |s.pcs| && Restores(s, z, p)
    ensures Inv(z)
  {
    if p != -1 { CallerKept(s, z, p); }
    SoleKept(s, z, p);
    forall d | 0 <= d < |z.pcs| ensures WorkerInv(z, d) {
      if d != p { WorkerKept(s, z, p, d); }
    }
    forall t | 0 <= t < |z.tasks| ensures TaskInv(z, t) {
      assert Tidy(z, t);
      if t < |s.tasks| {
        assert Change(s, z, p, t);
        if z.tasks[t].core != p { StageKept(s, z, p, t); }
        if !Restarted(s, z, t) { DepsKept(s, z, p, t); }
      }
    }
  }

  // ---- steps that leave the lists as they are -------------------------------------------

  /** What a task's references weigh against, dependents aside. */
  function Balance(k: Task): int {
    k.refs - One(k.self) - One(k.caller) - k.leaked
  }

  lemma {:induction false} OutstandingSame(a: seq<Task>, b: seq<Task>, c: nat, n: nat)
    requires n <= |a| && n <= |b|
    requires forall u | 0 <= u < n :: a[u].core == b[u].core && a[u].counted == b[u].counted
    ensures Outstanding(a, c, n) == Outstanding(b, c, n)
  {
    if n > 0 { OutstandingSame(a, b, c, n - 1); }
  }

  lemma {:induction false} CountedSame(s: State, z: State)
    requires Inv(s) && |z.tasks| == |s.tasks| && z.counts == s.counts && z.uncounted == s.uncounted
    requires forall u | 0 <= u < |s.tasks| ::
               z.tasks[u].core == s.tasks[u].core && z.tasks[u].counted == s.tasks[u].counted
    ensures forall d | 0 <= d < |z.counts| :: Counted(z, d)
  {
    forall d | 0 <= d < |z.counts| ensures Counted(z, d) {
      assert Counted(s, d);
      OutstandingSame(s.tasks, z.tasks, d, |s.tasks|);
    }
  }

  /** The step changes no list and no list position but the party's own. */
  ghost predicate Still(s: State, z: State, p: int) {
    && z.queues == s.queues && |z.tasks| == |s.tasks| && |z.pcs| == |s.pcs| && |z.counts| == |s.counts|
    && (forall d | 0 <= d < |s.pcs| && d != p :: z.pcs[d] == s.pcs[d])
    && (forall t | 0 <= t < |s.tasks| ::
          && z.tasks[t].core == s.tasks[t].core && z.tasks[t].deps == s.tasks[t].deps
          && z.tasks[t].dropped <= |z.tasks[t].deps| && z.tasks[t].freed == s.tasks[t].freed)
  }

  lemma {:induction false} StillShape(s: State, z: State, p: int)
    requires Inv(s) && Still(s, z, p) && -1 <= p < |s.pcs|
    requires p >= 0 ==> PcShape(z, p)
    ensures Shape(z)
    ensures CallerShape(z) ==> Listed(z)
  {
    forall d | 0 <= d < |z.pcs| ensures PcShape(z, d) { assert PcShape(s, d); }
  }

  lemma {:induction false} TidyKept(s: State, z: State, p: int, t: nat)
    requires Inv(s) && Still(s, z, p) && Shape(z) && t < |s.tasks|
    requires z.building == s.building && z.releasing == s.releasing
    requires forall u | 0 <= u < |s.tasks| :: z.tasks[u].dropped == s.tasks[u].dropped
    requires Balance(z.tasks[t]) == Balance(s.tasks[t]) && z.tasks[t].caller == s.tasks[t].caller
    requires z.tasks[t].slot == Empty ==> z.tasks[t].refs == 0
    requires s.tasks[t].slot == Empty ==> z.tasks[t].slot == Empty
    ensures Tidy(z, t)
  {
    assert TaskInv(s, t);
    DependentsSame(s.tasks, z.tasks, t, |s.tasks|);
  }

  /** Which task worker `c` is in, or -1. */
  ghost function Cur(s: State, c: nat): (r: int)
    requires Shape(s) && c < |s.pcs|
    ensures -1 <= r < |s.tasks|
  {
    assert PcShape(s, c);
    if Active(s.pcs[c]) then s.queues[c][s.pcs[c].i] else -1
  }

  /** The other tasks of the worker's own core. */
  lemma {:induction false} StageElsewhere(s: State, z: State, c: nat, t: nat)
    requires Inv(s) && c < |s.pcs| && Shape(z) && Still(s, z, c) && t < |s.tasks| && s.tasks[t].core == c
    requires Aloof(s.tasks[t], z.tasks[t]) && t != Cur(s, c) && t != Cur(z, c)
    ensures Stage(z, t)
  {
    assert TaskInv(s, t);
  }

  ghost predicate Sound(z: State, t: int)
    requires Shape(z)
  {
    0 <= t < |z.tasks| ==> Stage(z, t) && DepsOk(z, t)
  }

  /** What a worker's step has to restore when the lists stay as they are. */
  ghost predicate Settles(s: State, z: State, c: nat)
    requires Shape(s) && c < |s.pcs|
  {
    && Still(s, z, c) && Shape(z)
    && z.building == s.building && z.releasing == s.releasing && z.uncounted == s.uncounted && z.caller == s.caller
    && (forall t | 0 <= t < |s.tasks| :: Change(s, z, c, t) && Tidy(z, t))
    && (forall t | 0 <= t < |s.tasks| :: t == Cur(s, c) || t == Cur(z, c) || Aloof(s.tasks[t], z.tasks[t]))
    && Sound(z, Cur(s, c))
    && Sound(z, Cur(z, c))
    && WorkerInv(z, c)
    && AimOk(s, z, c)
    && (forall d | 0 <= d < |z.counts| :: Counted(z, d))
  }

  lemma {:induction false} SettleTasks(s: State, z: State, c: nat)
    requires Inv(s) && c < |s.pcs| && Settles(s, z, c)
    ensures forall t | 0 <= t < |z.tasks| && z.tasks[t].core == c :: Stage(z, t)
    ensures forall t | 0 <= t < |z.tasks| && Restarted(s, z, t) :: DepsOk(z, t)
  {
    forall t | 0 <= t < |z.tasks| && z.tasks[t].core == c ensures Stage(z, t) {
      if t != Cur(s, c) && t != Cur(z, c) { StageElsewhere(s, z, c, t); }
    }
    forall t | 0 <= t < |z.tasks| && Restarted(s, z, t) ensures DepsOk(z, t) {
      assert t == Cur(s, c) || t == Cur(z, c);
    }
  }

  lemma {:induction false} Settle(s: State, z: State, c: nat)
    requires Inv(s) && c < |s.pcs| && Settles(s, z, c)
    ensures Inv(z)
  {
    StillShape(s, z, c);
    SettleTasks(s, z, c);
    Assemble(s, z, c);
  }

  /** A step that only moves the worker. */
  lemma {:induction false} MoveKeeps(s: State, z: State, c: nat)
    requires Inv(s) && c < |s.pcs| == |z.pcs| && z == SetPc(s, c, z.pcs[c]) && PcShape(z, c)
    requires Shape(z) ==> Cur(z, c) == Cur(s, c) && Sound(z, Cur(z, c)) && WorkerInv(z, c) && AimOk(s, z, c)
    ensures Inv(z)
  {
    StillShape(s, z, c);
    forall t | 0 <= t < |s.tasks| ensures Change(s, z, c, t) && Tidy(z, t) {
      assert TaskInv(s, t);
      TidyKept(s, z, c, t);
    }
    forall d | 0 <= d < |s.counts| ensures Counted(z, d) { assert Counted(s, d); }
    Settle(s, z, c);
  }

  predicate Plain(pc: Pc) {
    pc.Idle? || pc.Look? || pc.Next? || pc.Sweep? || pc.Reap?
  }

  lemma {:induction false} PlainKeeps(s: State, z: State, c: nat)
    requires Inv(s) && c < |s.pcs| == |z.pcs| && z == SetPc(s, c, z.pcs[c]) && PcShape(z, c)
    requires Plain(z.pcs[c]) && !Active(s.pcs[c])
    requires z.pcs[c].Reap? ==> s.tasks[s.queues[c][z.pcs[c].i]].slot == Empty
    ensures Inv(z)
  {
    StillShape(s, z, c);
    assert Cur(z, c) == -1 == Cur(s, c);
    assert Target(z, c) == -1;
    MoveKeeps(s, z, c);
  }

  lemma {:induction false} LookKeeps(s: State, c: nat)
    requires Inv(s) && c < |s.pcs| && s.pcs[c].Look?
    ensures Inv(Step(s, c))
  {
    var z := Step(s, c);
    var i := s.pcs[c].i;
    assert PcShape(s, c);
    assert PcShape(z, c);
    if s.tasks[s.queues[c][i]].slot == Busy {
      StillShape(s, z, c);
      assert TaskInv(s, s.queues[c][i]);
      assert z.pcs[c] == Check(i, 0) && Waiting(z.tasks[z.queues[c][i]]);
      MoveKeeps(s, z, c);
    } else {
      PlainKeeps(s, z, c);
    }
  }

  lemma {:induction false} QuietKeeps(s: State, c: nat)
    requires Inv(s) && c < |s.pcs| && (s.pcs[c].Idle? || s.pcs[c].Next? || s.pcs[c].Sweep?)
    ensures Inv(Step(s, c))
  {
    assert PcShape(s, c);
    assert PcShape(Step(s, c), c);
    if Step(s, c) != s { PlainKeeps(s, Step(s, c), c); }
  }

  lemma {:induction false} CheckKeeps(s: State, c: nat)
    requires Inv(s) && c < |s.pcs| && s.pcs[c].Check?
    ensures Inv(Step(s, c))
  {
    var z := Step(s, c);
    assert PcShape(s, c) && WorkerInv(s, c);
    assert PcShape(z, c);
    if Plain(z.pcs[c]) {
      PlainKeeps(s, z, c);
    } else {
      CheckedMore(s, s.queues[c][s.pcs[c].i], s.pcs[c].j);
      StillShape(s, z, c);
      MoveKeeps(s, z, c);
    }
  }

  lemma {:induction false} CheckedMore(s: State, t: nat, j: nat)
    requires Inv(s) && t < |s.tasks| && j <= |s.tasks[t].deps| && AllOver(s.tasks, s.tasks[t].deps[..j])
    ensures j == |s.tasks[t].deps| ==> AllOver(s.tasks, s.tasks[t].deps)
    ensures j < |s.tasks[t].deps| && s.tasks[s.tasks[t].deps[j]].slot == Finished ==>
              AllOver(s.tasks, s.tasks[t].deps[..j + 1])
  {
    var deps := s.tasks[t].deps;
    if j == |deps| {
      assert deps[..j] == deps;
    } else {
      assert TaskInv(s, deps[j]);
      assert deps[..j + 1] == deps[..j] + [deps[j]];
    }
  }

  lemma {:induction false} SawKeeps(s: State, c: nat)
    requires Inv(s) && c < |s.pcs| && s.pcs[c].Saw?
    ensures Inv(Step(s, c))
  {
    var z := Step(s, c);
    assert PcShape(s, c) && WorkerInv(s, c) && TaskInv(s, Cur(s, c));
    MoveKeeps(s, z, c);
  }

  /** The step changes task `x` only, and none of its references. */
  ghost predicate Updates(s: State, z: State, c: nat, x: nat)
    requires c < |s.pcs|
  {
    && x < |s.tasks| == |z.tasks| && |z.pcs| == |s.pcs|
    && z == SetPc(SetTask(s, x, z.tasks[x]), c, z.pcs[c])
    && var k, m := s.tasks[x], z.tasks[x];
    && m.core == k.core && m.deps == k.deps && m.dropped == k.dropped && m.counted == k.counted
    && m.freed == k.freed && m.caller == k.caller && Balance(m) == Balance(k)
    && (k.slot == Empty ==> m.slot == Empty) && (m.slot == Empty ==> m.refs == 0)
  }

  lemma {:induction false} UpdateTidy(s: State, z: State, c: nat, x: nat)
    requires Inv(s) && c < |s.pcs| && Updates(s, z, c, x) && PcShape(z, c)
    ensures Still(s, z, c) && Shape(z)
    ensures forall t | 0 <= t < |z.tasks| :: Tidy(z, t)
    ensures forall d | 0 <= d < |z.counts| :: Counted(z, d)
  {
    StillShape(s, z, c);
    forall t | 0 <= t < |s.tasks| ensures Tidy(z, t) {
      assert TaskInv(s, t);
      TidyKept(s, z, c, t);
    }
    CountedSame(s, z);
  }

  lemma {:induction false} OwnKeeps(s: State, z: State, c: nat, x: nat)
    requires Inv(s) && c < |s.pcs| && Updates(s, z, c, x) && PcShape(z, c)
    requires Shape(z) ==> Change(s, z, c, x) && Cur(z, c) == x && Sound(z, x) && WorkerInv(z, c) && AimOk(s, z, c)
    requires Cur(s, c) == -1 || Cur(s, c) == x
    ensures Inv(z)
  {
    UpdateTidy(s, z, c, x);
    Settle(s, z, c);
  }

  lemma {:induction false} CallKeeps(s: State, c: nat)
    requires Inv(s) && c < |s.pcs| && s.pcs[c].Call?
    ensures Inv(Step(s, c))
  {
    var z := Step(s, c);
    assert PcShape(s, c) && WorkerInv(s, c);
    var x := s.queues[c][s.pcs[c].i];
    assert TaskInv(s, x);
    assert PcShape(z, c);
    StillShape(s, z, c);
    forall j | 0 <= j < |s.tasks[x].deps| ensures Over(z.tasks, s.tasks[x].deps[j], true) {
      assert Over(s.tasks, s.tasks[x].deps[j], true);
    }
    OwnKeeps(s, z, c, x);
  }

  lemma {:induction false} ExecKeeps(s: State, c: nat)
    requires Inv(s) && c < |s.pcs| && s.pcs[c].Exec?
    ensures Inv(Step(s, c))
  {
    var z := Step(s, c);
    assert PcShape(s, c) && TaskInv(s, Cur(s, c));
    assert PcShape(z, c);
    StillShape(s, z, c);
    assert forall j | 0 <= j < |s.tasks[Cur(s, c)].deps| :: Over(z.tasks, s.tasks[Cur(s, c)].deps[j], true);
    OwnKeeps(s, z, c, Cur(s, c));
  }

  lemma {:induction false} OwnDropKeeps(s: State, c: nat)
    requires Inv(s) && c < |s.pcs| && s.pcs[c].Own?
    ensures Inv(Step(s, c))
  {
    var z := Step(s, c);
    assert PcShape(s, c) && TaskInv(s, Cur(s, c));
    assert PcShape(z, c);
    StillShape(s, z, c);
    assert forall j | 0 <= j < |s.tasks[Cur(s, c)].deps| :: Over(z.tasks, s.tasks[Cur(s, c)].deps[j], false);
    OwnKeeps(s, z, c, Cur(s, c));
  }

  lemma {:induction false} MarkKeeps(s: State, c: nat)
    requires Inv(s) && c < |s.pcs| && s.pcs[c].Mark?
    ensures Inv(Step(s, c))
  {
    var z := Step(s, c);
    assert PcShape(s, c) && TaskInv(s, Cur(s, c)) && WorkerInv(s, c);
    assert PcShape(z, c);
    StillShape(s, z, c);
    MarkDeps(s, z, c, Cur(s, c));
    OwnKeeps(s, z, c, Cur(s, c));
  }

  lemma {:induction false} MarkDeps(s: State, z: State, c: nat, x: nat)
    requires Inv(s) && c < |s.pcs| && s.pcs[c].Mark? && z == Step(s, c) && x == Cur(s, c)
    ensures forall j | 0 <= j < |s.tasks[x].deps| :: Over(z.tasks, s.tasks[x].deps[j], false)
  {
    assert PcShape(s, c) && TaskInv(s, x);
  }

  /** A worker that has dropped a last reference is alone in having the right to clear. */
  lemma {:induction false} ClearFrame(s: State, z: State, c: nat)
    requires Inv(s) && c < |s.pcs| && s.pcs[c].Clear? && z == Step(s, c)
    ensures 0 <= Target(s, c) < |s.tasks| && Updates(s, z, c, Target(s, c)) && PcShape(z, c)
    ensures |z.tasks| == |s.tasks|
    ensures forall t | 0 <= t < |s.tasks| :: Change(s, z, c, t) && Aloof(s.tasks[t], z.tasks[t])
  {
    assert PcShape(s, c) && WorkerInv(s, c);
  }

  lemma {:induction false} ClearLocal(s: State, z: State, c: nat)
    requires Inv(s) && c < |s.pcs| && s.pcs[c].Clear? && z == Step(s, c) && Shape(z)
    ensures Cur(z, c) == Cur(s, c) >= 0 && Stage(z, Cur(s, c)) && WorkerInv(z, c) && AimOk(s, z, c)
  {
    assert PcShape(s, c) && TaskInv(s, Cur(s, c));
  }

  lemma {:induction false} ClearKeeps(s: State, c: nat)
    requires Inv(s) && c < |s.pcs| && s.pcs[c].Clear?
    ensures Inv(Step(s, c))
  {
    var z := Step(s, c);
    ClearFrame(s, z, c);
    UpdateTidy(s, z, c, Target(s, c));
    ClearLocal(s, z, c);
    DepsKept(s, z, c, Cur(s, c));
    Settle(s, z, c);
  }

  lemma {:induction false} DependentsDrop(a: seq<Task>, b: seq<Task>, u: nat, t: nat, n: nat)
    requires n <= |a| == |b| && u < |a|
    requires forall v | 0 <= v < |a| :: a[v].deps == b[v].deps && (v != u ==> a[v].dropped == b[v].dropped)
    requires a[u].dropped < |a[u].deps| && b[u].dropped == a[u].dropped + 1
    ensures Dependents(b, t, n) == Dependents(a, t, n) - if u < n && a[u].deps[a[u].dropped] == t then 1 else 0
  {
    if n > 0 { DependentsDrop(a, b, u, t, n - 1); }
  }

  /** Dropping dependency `j` of task `x`. */
  ghost predicate Drops(s: State, z: State, c: nat, x: nat)
    requires c < |s.pcs|
  {
    && x < |s.tasks| == |z.tasks| && |z.pcs| == |s.pcs|
    && var k := s.tasks[x];
    && k.dropped < |k.deps| && k.deps[k.dropped] < x
    && var d := k.deps[k.dropped];
    && s.tasks[d].refs > 0
    && var tasks := s.tasks[x := k.(dropped := k.dropped + 1)][d := s.tasks[d].(refs := s.tasks[d].refs - 1)];
    && z == SetPc(s.(tasks := tasks), c, z.pcs[c])
  }

  lemma {:induction false} DropTidy(s: State, z: State, c: nat, x: nat, t: nat)
    requires Inv(s) && c < |s.pcs| && Drops(s, z, c, x) && Shape(z) && t < |s.tasks|
    ensures Tidy(z, t)
  {
    assert TaskInv(s, t);
    DependentsDrop(s.tasks, z.tasks, x, t, |s.tasks|);
  }

  lemma {:induction false} DropFrame(s: State, z: State, c: nat, x: nat)
    requires Inv(s) && c < |s.pcs| && Drops(s, z, c, x) && PcShape(z, c) && s.tasks[x].core == c
    ensures Still(s, z, c) && Shape(z)
    ensures forall t | 0 <= t < |s.tasks| :: Tidy(z, t)
    ensures forall d | 0 <= d < |z.counts| :: Counted(z, d)
  {
    StillShape(s, z, c);
    forall t | 0 <= t < |s.tasks| ensures Tidy(z, t) { DropTidy(s, z, c, x, t); }
    CountedSame(s, z);
  }

  lemma {:induction false} DropChange(s: State, z: State, c: nat, x: nat)
    requires Inv(s) && c < |s.pcs| && Drops(s, z, c, x) && s.tasks[x].core == c
    ensures forall t | 0 <= t < |s.tasks| :: Change(s, z, c, t) && (t == x || Aloof(s.tasks[t], z.tasks[t]))
  {
  }

  lemma {:induction false} DropLocal(s: State, z: State, c: nat)
    requires Inv(s) && c < |s.pcs| && s.pcs[c].Drop? && PcShape(s, c) && s.pcs[c].j < |s.tasks[Cur(s, c)].deps|
    requires z == Step(s, c)
    ensures Drops(s, z, c, Cur(s, c)) && PcShape(z, c)
    ensures Shape(z) ==> Cur(z, c) == Cur(s, c) && Stage(z, Cur(s, c)) && WorkerInv(z, c) && AimOk(s, z, c)
  {
    var x := Cur(s, c);
    assert TaskInv(s, x);
    Held(s, x, s.pcs[c].j);
    assert Over(s.tasks, s.tasks[x].deps[s.pcs[c].j], true);
  }

  lemma {:induction false} DropOne(s: State, c: nat)
    requires Inv(s) && c < |s.pcs| && s.pcs[c].Drop? && PcShape(s, c) && s.pcs[c].j < |s.tasks[Cur(s, c)].deps|
    ensures Inv(Step(s, c))
  {
    var z := Step(s, c);
    DropLocal(s, z, c);
    DropFrame(s, z, c, Cur(s, c));
    DropChange(s, z, c, Cur(s, c));
    DepsKept(s, z, c, Cur(s, c));
    Settle(s, z, c);
  }

  lemma {:induction false} DropKeeps(s: State, c: nat)
    requires Inv(s) && c < |s.pcs| && s.pcs[c].Drop?
    ensures Inv(Step(s, c))
  {
    assert PcShape(s, c) && TaskInv(s, Cur(s, c));
    if s.pcs[c].j < |s.tasks[Cur(s, c)].deps| {
      DropOne(s, c);
    } else {
      assert PcShape(Step(s, c), c);
      MoveKeeps(s, Step(s, c), c);
    }
  }

  lemma {:induction false} OutstandingLess(a: seq<Task>, b: seq<Task>, u: nat, c: nat, n: nat)
    requires n <= |a| && u < |a| && b == a[u := a[u].(counted := true)] && !a[u].counted
    ensures Outstanding(b, c, n) == Outstanding(a, c, n) - One(u < n && a[u].core == c)
  {
    if n > 0 { OutstandingLess(a, b, u, c, n - 1); }
  }

  lemma {:induction false} TallyFrame(s: State, z: State, c: nat)
    requires Inv(s) && c < |s.pcs| && s.pcs[c].Tally? && z == Step(s, c)
    ensures Still(s, z, c) && Shape(z)
    ensures forall t | 0 <= t < |z.tasks| :: Tidy(z, t)
  {
    assert PcShape(s, c) && TaskInv(s, Cur(s, c));
    assert PcShape(z, c);
    StillShape(s, z, c);
    forall t | 0 <= t < |s.tasks| ensures Tidy(z, t) {
      assert TaskInv(s, t);
      TidyKept(s, z, c, t);
    }
  }

  lemma {:induction false} TallyCounted(s: State, z: State, c: nat)
    requires Inv(s) && c < |s.pcs| && s.pcs[c].Tally? && z == Step(s, c)
    ensures forall d | 0 <= d < |z.counts| :: Counted(z, d)
  {
    assert PcShape(s, c) && TaskInv(s, Cur(s, c));
    forall d | 0 <= d < |s.counts| ensures Counted(z, d) {
      assert Counted(s, d);
      OutstandingLess(s.tasks, z.tasks, Cur(s, c), d, |s.tasks|);
    }
  }

  lemma {:induction false} TallyLocal(s: State, z: State, c: nat)
    requires Inv(s) && c < |s.pcs| && s.pcs[c].Tally? && z == Step(s, c) && Shape(z)
    ensures Cur(s, c) >= 0 && |z.tasks| == |s.tasks|
    ensures forall t | 0 <= t < |s.tasks| :: Change(s, z, c, t) && (t == Cur(s, c) || Aloof(s.tasks[t], z.tasks[t]))
    ensures Cur(z, c) == -1 && Stage(z, Cur(s, c)) && WorkerInv(z, c) && AimOk(s, z, c)
  {
    assert PcShape(s, c) && TaskInv(s, Cur(s, c));
  }

  lemma {:induction false} TallyKeeps(s: State, c: nat)
    requires Inv(s) && c < |s.pcs| && s.pcs[c].Tally?
    ensures Inv(Step(s, c))
  {
    var z := Step(s, c);
    TallyCounted(s, z, c);
    TallyFrame(s, z, c);
    TallyLocal(s, z, c);
    DepsKept(s, z, c, Cur(s, c));
    Settle(s, z, c);
  }

  lemma {:induction false} RemoveAt(q: seq<nat>, i: nat)
    requires Ascending(q) && i < |q|
    ensures Ascending(Without(q, i))
    ensures forall t | t in q :: t == q[i] || t in Without(q, i)
    ensures forall t | t in Without(q, i) :: t in q && t != q[i]
  {
    var r := Without(q, i);
    forall t | t in q && t != q[i] ensures t in r {
      var k :| 0 <= k < |q| && q[k] == t;
      assert r[if k < i then k else k - 1] == t;
    }
  }

  /** The sweep unlinks and frees task `x` at position `i`. */
  ghost predicate Reaps(s: State, z: State, c: nat, i: nat, x: nat) {
    && c < |s.pcs| == |s.queues| && i < |s.queues[c]| && x == s.queues[c][i] < |s.tasks|
    && !Active(s.pcs[c])
    && s.tasks[x].slot == Empty && s.tasks[x].core == c
    && z == s.(tasks := s.tasks[x := s.tasks[x].(freed := true)], queues := s.queues[c := Without(s.queues[c], i)],
               pcs := s.pcs[c := Sweep(i)])
  }

  lemma {:induction false} ReapShape(s: State, z: State, c: nat, i: nat, x: nat)
    requires Inv(s) && Reaps(s, z, c, i, x)
    ensures Shape(z)
  {
    assert forall k | 0 <= k < |z.queues[c]| :: z.queues[c][k] in s.queues[c];
    forall d | 0 <= d < |z.pcs| ensures PcShape(z, d) { assert PcShape(s, d); }
  }

  lemma {:induction false} ReapListed(s: State, z: State, c: nat, i: nat, x: nat)
    requires Inv(s) && Reaps(s, z, c, i, x) && Shape(z)
    ensures Listed(z)
  {
    assert Ascending(s.queues[c]);
    RemoveAt(s.queues[c], i);
    forall k | 0 <= k < |z.queues[c]| ensures z.queues[c][k] in s.queues[c] && z.queues[c][k] != x {
      assert z.queues[c][k] in Without(s.queues[c], i);
    }
    forall d, k | 0 <= d < |z.queues| && 0 <= k < |z.queues[d]|
      ensures z.tasks[z.queues[d][k]].core == d && !z.tasks[z.queues[d][k]].freed {}
  }

  lemma {:induction false} ReapTasks(s: State, z: State, c: nat, i: nat, x: nat, t: nat)
    requires Inv(s) && Reaps(s, z, c, i, x) && Shape(z) && t < |s.tasks|
    ensures Tidy(z, t)
  {
    assert Ascending(s.queues[c]);
    RemoveAt(s.queues[c], i);
    assert TaskInv(s, t);
    DependentsSame(s.tasks, z.tasks, t, |s.tasks|);
  }

  lemma {:induction false} ReapStage(s: State, z: State, c: nat, i: nat, x: nat, t: nat)
    requires Inv(s) && Reaps(s, z, c, i, x) && Shape(z) && t < |s.tasks| && s.tasks[t].core == c
    ensures Stage(z, t)
  {
    assert TaskInv(s, t);
  }

  lemma {:induction false} ReapAll(s: State, z: State, c: nat, i: nat, x: nat)
    requires Inv(s) && Reaps(s, z, c, i, x) && Shape(z)
    ensures forall t | 0 <= t < |z.tasks| ::
              Tidy(z, t) && (z.tasks[t].core == c ==> Stage(z, t)) && !Restarted(s, z, t)
  {
    forall t | 0 <= t < |z.tasks| ensures Tidy(z, t) && (z.tasks[t].core == c ==> Stage(z, t)) {
      ReapTasks(s, z, c, i, x, t);
      if s.tasks[t].core == c { ReapStage(s, z, c, i, x, t); }
    }
  }

  lemma {:induction false} ReapFrame(s: State, z: State, c: nat, i: nat, x: nat)
    requires Inv(s) && Reaps(s, z, c, i, x)
    ensures Frame(s, z, c) && (Shape(z) ==> WorkerInv(z, c) && AimOk(s, z, c))
  {
  }

  lemma {:induction false} ReapFree(s: State, z: State, c: nat, i: nat, x: nat)
    requires Inv(s) && Reaps(s, z, c, i, x)
    ensures Inv(z)
  {
    ReapShape(s, z, c, i, x);
    ReapListed(s, z, c, i, x);
    ReapAll(s, z, c, i, x);
    CountedSame(s, z);
    ReapFrame(s, z, c, i, x);
    Assemble(s, z, c);
  }

  lemma {:induction false} ReapKeeps(s: State, c: nat)
    requires Inv(s) && c < |s.pcs| && s.pcs[c].Reap?
    ensures Inv(Step(s, c))
  {
    assert PcShape(s, c) && WorkerInv(s, c);
    var x := s.queues[c][s.pcs[c].i];
    assert TaskInv(s, x);
    ReapFree(s, Step(s, c), c, s.pcs[c].i, x);
  }

  /** Every worker step keeps the invariant. */
  lemma {:induction false} StepKeeps(s: State, c: nat)
    requires Inv(s) && c < |s.pcs|
    ensures Inv(Step(s, c))
  {
    match s.pcs[c]
    case Look(_) => LookKeeps(s, c);
    case Check(_, _) => CheckKeeps(s, c);
    case Call(_) => CallKeeps(s, c);
    case Exec(_) => ExecKeeps(s, c);
    case Drop(_, _) => DropKeeps(s, c);
    case Saw(_, _) => SawKeeps(s, c);
    case Clear(_, _) => ClearKeeps(s, c);
    case Own(_) => OwnDropKeeps(s, c);
    case Mark(_, _) => MarkKeeps(s, c);
    case Tally(_) => TallyKeeps(s, c);
    case Reap(_) => ReapKeeps(s, c);
    case _ => QuietKeeps(s, c);
  }

  // ---- steps of the submitters -----------------------------------------------------------

  /** What a caller's step has to restore when the lists stay as they are. */
  ghost predicate CallerSettles(s: State, z: State)
    requires Shape(s)
  {
    && Still(s, z, -1) && Shape(z)
    && (forall t | 0 <= t < |s.tasks| :: Change(s, z, -1, t) && Tidy(z, t))
    && CallerShape(z)
    && CallerInv(z)
    && AimOk(s, z, -1)
    && (forall d | 0 <= d < |z.counts| :: Counted(z, d))
    && (forall k | 0 <= k < |z.uncounted| :: z.uncounted[k] < |z.counts|)
  }

  lemma {:induction false} CallerSettle(s: State, z: State)
    requires Inv(s) && CallerSettles(s, z)
    ensures Inv(z)
  {
    StillShape(s, z, -1);
    forall t | 0 <= t < |z.tasks| ensures Tidy(z, t) && !Restarted(s, z, t) { assert Change(s, z, -1, t); }
    Assemble(s, z, -1);
  }

  lemma {:induction false} LeftAppend(a: seq<nat>, x: nat, j: nat, t: nat)
    requires j <= |a|
    ensures Left(a + [x], j, t) == Left(a, j, t) + One(x == t)
    decreases |a| - j
  {
    if j < |a| { LeftAppend(a, x, j + 1, t); } else { assert Left(a + [x], j + 1, t) == 0; }
  }

  lemma {:induction false} TakeKeeps(s: State, d: nat)
    requires Inv(s) && Enabled(s, Take(d))
    ensures Inv(Act(s, Take(d)))
  {
    var z := Act(s, Take(d));
    StillShape(s, z, -1);
    forall t | 0 <= t < |s.tasks| ensures Change(s, z, -1, t) && Tidy(z, t) {
      assert TaskInv(s, t);
      DependentsSame(s.tasks, z.tasks, t, |s.tasks|);
      LeftAppend(s.building, d, 0, t);
    }
    CountedSame(s, z);
    CallerSettle(s, z);
  }

  lemma {:induction false} LeakedAll(tasks: seq<Task>, lost: seq<nat>, t: nat)
    requires t < |tasks| && forall j | 0 <= j < |lost| :: lost[j] < |tasks|
    ensures Leak(tasks, lost)[t] == tasks[t].(leaked := tasks[t].leaked + Left(lost, 0, t))
    decreases |lost|
  {
    if lost != [] {
      var rest, last := lost[..|lost| - 1], lost[|lost| - 1];
      LeakedAll(tasks, rest, t);
      LeftAppend(rest, last, 0, t);
      assert lost == rest + [last];
    }
  }

  lemma {:induction false} AbortKeeps(s: State)
    requires Inv(s) && Enabled(s, Abort)
    ensures Inv(Act(s, Abort))
  {
    var z := Act(s, Abort);
    forall t | 0 <= t < |s.tasks|
      ensures z.tasks[t] == s.tasks[t].(leaked := s.tasks[t].leaked + Left(s.building, 0, t))
    {
      LeakedAll(s.tasks, s.building, t);
    }
    StillShape(s, z, -1);
    forall t | 0 <= t < |s.tasks| ensures Change(s, z, -1, t) && Tidy(z, t) {
      assert TaskInv(s, t);
      DependentsSame(s.tasks, z.tasks, t, |s.tasks|);
    }
    CountedSame(s, z);
    CallerSettle(s, z);
  }

  lemma {:induction false} LeftWithout(a: seq<nat>, k: nat, j: nat, t: nat)
    requires k < |a| && j <= k
    ensures Left(Without(a, k), j, t) == Left(a, j, t) - One(a[k] == t)
    decreases k - j
  {
    if j < k { LeftWithout(a, k, j + 1, t); } else { LeftShift(a, Without(a, k), j, t); }
  }

  lemma {:induction false} LeftShift(a: seq<nat>, b: seq<nat>, j: nat, t: nat)
    requires |a| == |b| + 1 && j <= |b| && forall i | j <= i < |b| :: b[i] == a[i + 1]
    ensures Left(b, j, t) == Left(a, j + 1, t)
    decreases |b| - j
  {
    if j < |b| { LeftShift(a, b, j + 1, t); }
  }

  lemma {:induction false} CountUpKeeps(s: State, k: nat)
    requires Inv(s) && Enabled(s, CountUp(k))
    ensures Inv(Act(s, CountUp(k)))
  {
    var z := Act(s, CountUp(k));
    StillShape(s, z, -1);
    forall t | 0 <= t < |s.tasks| ensures Change(s, z, -1, t) && Tidy(z, t) {
      assert TaskInv(s, t);
      TidyKept(s, z, -1, t);
    }
    forall c | 0 <= c < |s.counts| ensures Counted(z, c) {
      assert Counted(s, c);
      LeftWithout(s.uncounted, k, 0, c);
    }
    CallerSettle(s, z);
  }

  lemma {:induction false} BeginKeeps(s: State)
    requires Inv(s) && Enabled(s, BeginRelease)
    ensures Inv(Act(s, BeginRelease))
  {
    var z := Act(s, BeginRelease);
    StillShape(s, z, -1);
    forall t | 0 <= t < |s.tasks| ensures Change(s, z, -1, t) && Tidy(z, t) { assert TaskInv(s, t); }
    forall c | 0 <= c < |s.counts| ensures Counted(z, c) { assert Counted(s, c); }
    CallerSettle(s, z);
  }

  lemma {:induction false} ReleaseKeeps(s: State, x: nat)
    requires Inv(s) && Enabled(s, Release(x))
    ensures Inv(Act(s, Release(x)))
    ensures CallerTarget(Act(s, Release(x))) == x <==> s.tasks[x].refs == 1
  {
    var z := Act(s, Release(x));
    assert TaskInv(s, x);
    StillShape(s, z, -1);
    forall t | 0 <= t < |s.tasks| ensures Change(s, z, -1, t) && Tidy(z, t) {
      assert TaskInv(s, t);
      DependentsSame(s.tasks, z.tasks, t, |s.tasks|);
    }
    CountedSame(s, z);
    CallerSettle(s, z);
  }

  lemma {:induction false} CallerLookKeeps(s: State)
    requires Inv(s) && Enabled(s, CallerStep) && s.caller.SawLast?
    ensures Inv(Act(s, CallerStep))
  {
    var z := Act(s, CallerStep);
    StillShape(s, z, -1);
    forall t | 0 <= t < |s.tasks| ensures Change(s, z, -1, t) && Tidy(z, t) {
      assert TaskInv(s, t);
      TidyKept(s, z, -1, t);
    }
    CountedSame(s, z);
    CallerSettle(s, z);
  }

  lemma {:induction false} CallerClearTidy(s: State, z: State)
    requires Inv(s) && Enabled(s, CallerStep) && s.caller.Clearing? && z == Act(s, CallerStep)
    ensures Still(s, z, -1) && Shape(z) && CallerShape(z)
    ensures forall t | 0 <= t < |s.tasks| :: Change(s, z, -1, t) && Tidy(z, t)
  {
    StillShape(s, z, -1);
    forall t | 0 <= t < |s.tasks| ensures Change(s, z, -1, t) && Tidy(z, t) { CallerClearTask(s, z, t); }
  }

  lemma {:induction false} CallerClearTask(s: State, z: State, t: nat)
    requires Inv(s) && Enabled(s, CallerStep) && s.caller.Clearing? && z == Act(s, CallerStep)
    requires Still(s, z, -1) && Shape(z) && t < |s.tasks|
    ensures Change(s, z, -1, t) && Tidy(z, t)
  {
    assert TaskInv(s, t);
    TidyKept(s, z, -1, t);
  }

  lemma {:induction false} CallerClearKeeps(s: State)
    requires Inv(s) && Enabled(s, CallerStep) && s.caller.Clearing?
    ensures Inv(Act(s, CallerStep))
  {
    CallerClearTidy(s, Act(s, CallerStep));
    CountedSame(s, Act(s, CallerStep));
    CallerSettle(s, Act(s, CallerStep));
  }

  // ---- queueing a task -----------------------------------------------------------------

  /** A task with dependencies `deps` is queued on core `c`, taking over their references. */
  ghost predicate Adds(s: State, z: State, c: nat, deps: seq<nat>) {
    && c < |s.pcs| == |s.queues|
    && z == Add(s, c, deps).(building := z.building)
    && ((deps == s.building && z.building == []) || (deps == [] && z.building == s.building))
  }

  lemma {:induction false} AddShape(s: State, z: State, c: nat, deps: seq<nat>)
    requires Inv(s) && Adds(s, z, c, deps)
    ensures Shape(z)
  {
    forall d, i | 0 <= d < |z.queues| && 0 <= i < |z.queues[d]| ensures z.queues[d][i] < |z.tasks| {}
    forall d | 0 <= d < |z.pcs| ensures PcShape(z, d) { assert PcShape(s, d); }
  }

  lemma {:induction false} AddListed(s: State, z: State, c: nat, deps: seq<nat>)
    requires Inv(s) && Adds(s, z, c, deps) && Shape(z)
    ensures Listed(z)
  {
    forall d | 0 <= d < |z.queues| ensures Ascending(z.queues[d]) { assert Ascending(s.queues[d]); }
  }

  lemma {:induction false} LeftNone(a: seq<nat>, j: nat, t: nat)
    requires forall i | 0 <= i < |a| :: a[i] != t
    ensures Left(a, j, t) == 0
    decreases |a| - j
  {
    if j < |a| { LeftNone(a, j + 1, t); }
  }

  lemma {:induction false} DependentsNone(tasks: seq<Task>, t: nat, n: nat)
    requires n <= |tasks|
    requires forall u | 0 <= u < n :: forall j | 0 <= j < |tasks[u].deps| :: tasks[u].deps[j] < t
    ensures Dependents(tasks, t, n) == 0
  {
    if n > 0 {
      DependentsNone(tasks, t, n - 1);
      LeftNone(tasks[n - 1].deps, tasks[n - 1].dropped, t);
    }
  }

  lemma {:induction false} AddOld(s: State, z: State, c: nat, deps: seq<nat>, t: nat)
    requires Inv(s) && Adds(s, z, c, deps) && Shape(z) && t < |s.tasks|
    ensures Tidy(z, t)
  {
    assert TaskInv(s, t);
    DependentsSame(s.tasks, z.tasks, t, |s.tasks|);
    assert Left([], 0, t) == 0;
  }

  lemma {:induction false} AddNew(s: State, z: State, c: nat, deps: seq<nat>)
    requires Inv(s) && Adds(s, z, c, deps) && Shape(z)
    ensures Tidy(z, |s.tasks|) && Stage(z, |s.tasks|) && DepsOk(z, |s.tasks|)
  {
    var n := |s.tasks|;
    DependentsNone(z.tasks, n, n + 1);
    LeftNone(z.building, 0, n);
    assert PcShape(s, c);
    assert z.queues[c][|s.queues[c]|] == n;
  }

  lemma {:induction false} AddCounted(s: State, z: State, c: nat, deps: seq<nat>, d: nat)
    requires Inv(s) && Adds(s, z, c, deps) && d < |s.counts|
    ensures Counted(z, d)
  {
    assert Counted(s, d);
    OutstandingSame(s.tasks, z.tasks, d, |s.tasks|);
    LeftAppend(s.uncounted, c, 0, d);
  }

  lemma {:induction false} AddAll(s: State, z: State, c: nat, deps: seq<nat>)
    requires Inv(s) && Adds(s, z, c, deps) && Shape(z)
    ensures forall t | 0 <= t < |z.tasks| :: Tidy(z, t) && (t >= |s.tasks| ==> Stage(z, t) && DepsOk(z, t))
    ensures forall d | 0 <= d < |z.counts| :: Counted(z, d)
  {
    AddNew(s, z, c, deps);
    forall t | 0 <= t < |s.tasks| ensures Tidy(z, t) { AddOld(s, z, c, deps, t); }
    forall d | 0 <= d < |s.counts| ensures Counted(z, d) { AddCounted(s, z, c, deps, d); }
  }

  lemma {:induction false} AddFrame(s: State, z: State, c: nat, deps: seq<nat>)
    requires Inv(s) && Adds(s, z, c, deps)
    ensures Frame(s, z, -1)
  {
  }

  lemma {:induction false} AddKeeps(s: State, z: State, c: nat, deps: seq<nat>)
    requires Inv(s) && Adds(s, z, c, deps)
    ensures Inv(z)
  {
    AddShape(s, z, c, deps);
    AddListed(s, z, c, deps);
    AddFrame(s, z, c, deps);
    AddAll(s, z, c, deps);
    Assemble(s, z, -1);
  }

  /** Every action keeps the invariant. */
  lemma {:induction false} ActKeeps(s: State, a: Action)
    requires Inv(s) && Enabled(s, a)
    ensures Inv(Act(s, a))
  {
    match a
    case Work(c) => StepKeeps(s, c);
    case Take(d) => TakeKeeps(s, d);
    case Abort => AbortKeeps(s);
    case Submit(c) => AddKeeps(s, Act(s, a), c, s.building);
    case Detached(c) => AddKeeps(s, Act(s, a), c, []);
    case CountUp(k) => CountUpKeeps(s, k);
    case BeginRelease => BeginKeeps(s);
    case Release(t) => ReleaseKeeps(s, t);
    case CallerStep => if s.caller.SawLast? { CallerLookKeeps(s); } else { CallerClearKeeps(s); }
  }
}
