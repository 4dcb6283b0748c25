/** `thread_block` and `vxThreadWake` as sequentially consistent interleavings
    of one thread with any number of wakers. */
module BlockWake {

  /** Where a call of `vxThreadWake` is. */
  datatype WakerPc =
    | Begin   // about to store wake_pending
    | Look    // about to load state
    | Set     // saw BLOCKED, about to store RUNNING
    | Over

  /** `live`: stored wake_pending since the thread last cleared it.
      `since`: the call started since then. */
  datatype Waker = Waker(pc: WakerPc, live: bool, since: bool)

  /** Where the thread is in `thread_block`. */
  datatype ThreadPc =
    | Away    // not in thread_block
    | Enter   // about to store BLOCKED
    | Test    // about to load wake_pending
    | Leave   // saw no pending wake, about to be suspended
    | Asleep  // suspended
    | Forget  // about to clear wake_pending
    | Redo    // about to store RUNNING and return

  datatype State = State(pc: ThreadPc, blocked: bool, pending: bool, wakers: seq<Waker>)

  datatype Action =
    | Block           // the thread calls thread_block
    | Thread          // it takes its next step in thread_block
    | Wake            // somebody calls vxThreadWake
    | Waking(i: nat)  // call i takes its next step

  predicate Enabled(s: State, a: Action) {
    match a
    case Block => s.pc == Away
    case Thread => s.pc != Away && (s.pc == Asleep ==> !s.blocked)
    case Wake => true
    case Waking(i) => i < |s.wakers| && s.wakers[i].pc != Over
  }

  function Forgotten(ws: seq<Waker>): seq<Waker> {
    seq(|ws|, i requires 0 <= i < |ws| => ws[i].(since := false, live := false))
  }

  function StepThread(s: State): State
    requires Enabled(s, Thread)
  {
    match s.pc
    case Away => s
    case Enter => s.(blocked := true, pc := Test)
    case Test => s.(pc := if s.pending then Forget else Leave)
    case Leave => s.(pc := Asleep)
    case Asleep => s.(pc := Forget)
    case Forget => s.(pending := false, pc := Redo, wakers := Forgotten(s.wakers))
    case Redo => s.(blocked := false, pc := Away)
  }

  function StepWaker(s: State, i: nat): State
    requires Enabled(s, Waking(i))
  {
    var w := s.wakers[i];
    match w.pc
    case Begin => s.(pending := true, wakers := s.wakers[i := w.(pc := Look, live := true)])
    case Look => s.(wakers := s.wakers[i := w.(pc := if s.blocked then Set else Over)])
    case Set => s.(blocked := false, wakers := s.wakers[i := w.(pc := Over)])
    case Over => s
  }

  function Act(s: State, a: Action): State
    requires Enabled(s, a)
  {
    match a
    case Block => s.(pc := Enter)
    case Thread => StepThread(s)
    case Wake => s.(wakers := s.wakers + [Waker(Begin, false, true)])
    case Waking(i) => StepWaker(s, i)
  }

  // ---- the invariant -----------------------------------------------------------

  predicate WakerOk(s: State, w: Waker) {
    && (w.live ==> w.pc != Begin)
    && (w.live ==> match s.pc
                   case Leave => w.pc == Over ==> !s.blocked
                   case Asleep => w.pc == Over ==> !s.blocked
                   case Forget => true
                   case _ => s.pending)
    && (w.since && s.pc != Forget && w.pc != Begin ==> w.live)
  }

  ghost predicate Inv(s: State) {
    forall i | 0 <= i < |s.wakers| :: WakerOk(s, s.wakers[i])
  }

  lemma {:induction false} ActKeeps(s: State, a: Action)
    requires Inv(s) && Enabled(s, a)
    ensures Inv(Act(s, a))
  {
    var z := Act(s, a);
    forall i | 0 <= i < |z.wakers| ensures WakerOk(z, z.wakers[i]) {
      if i < |s.wakers| { assert WakerOk(s, s.wakers[i]); }
    }
  }

  /** While the thread is suspended in BLOCKED, every wake that started since it
      last cleared wake_pending has yet to store RUNNING. */
  lemma {:induction false} NoLostWakeup(s: State, i: nat)
    requires Inv(s) && s.pc == Asleep && s.blocked && i < |s.wakers| && s.wakers[i].since
    ensures s.wakers[i].pc != Over
  {
    assert WakerOk(s, s.wakers[i]);
  }

  // ---- runs --------------------------------------------------------------------

  const Start := State(Away, false, false, [])

  ghost predicate CanRun(s: State, acts: seq<Action>)
    decreases |acts|
  {
    acts == [] || (Enabled(s, acts[0]) && CanRun(Act(s, acts[0]), acts[1..]))
  }

  ghost function Run(s: State, acts: seq<Action>): State
    requires CanRun(s, acts)
    decreases |acts|
  {
    if acts == [] then s else Run(Act(s, acts[0]), acts[1..])
  }

  lemma {:induction false} Then(s: State, a: Action, rest: seq<Action>)
    requires Enabled(s, a) && CanRun(Act(s, a), rest)
    ensures CanRun(s, [a] + rest) && Run(s, [a] + rest) == Run(Act(s, a), rest)
  {
    assert ([a] + rest)[1..] == rest;
  }

  lemma {:induction false} RunKeeps(s: State, acts: seq<Action>)
    requires Inv(s) && CanRun(s, acts)
    ensures Inv(Run(s, acts))
    decreases |acts|
  {
    if acts != [] {
      ActKeeps(s, acts[0]);
      RunKeeps(Act(s, acts[0]), acts[1..]);
    }
  }

  lemma {:induction false} NotAsleepAgain(s: State, acts: seq<Action>)
    requires s.pc == Forget || s.pc == Redo || s.pc == Away
    requires CanRun(s, acts) && Block !in acts
    ensures Run(s, acts).pc != Asleep
    decreases |acts|
  {
    if acts != [] {
      assert acts == [acts[0]] + acts[1..];
      NotAsleepAgain(Act(s, acts[0]), acts[1..]);
    }
  }

  /** The calls numbered from `n` on have started since wake_pending was last cleared. */
  predicate SinceFrom(ws: seq<Waker>, n: nat) {
    forall i | n <= i < |ws| :: ws[i].since
  }

  lemma {:induction false} StillSince(s: State, acts: seq<Action>, n: nat)
    requires CanRun(s, acts) && Run(s, acts).pc == Asleep && s.pc != Forget && s.pc != Redo
    requires multiset(acts)[Block] <= (if s.pc == Away then 1 else 0)
    requires SinceFrom(s.wakers, n)
    ensures SinceFrom(Run(s, acts).wakers, n)
    decreases |acts|
  {
    if acts != [] {
      var z := Act(s, acts[0]);
      assert acts == [acts[0]] + acts[1..];
      if z.pc == Forget { NotAsleepAgain(z, acts[1..]); }
      StillSince(z, acts[1..], n);
    }
  }

  /** No lost wakeup, in every run and with any number of wakes: take a moment
      at which the thread is outside `thread_block` and let it call
      `thread_block` once.  While it is then suspended in BLOCKED, each call of
      `vxThreadWake` that started since that moment, before or after the thread
      entered, is still on its way, and by itself, whatever it has done so far,
      ends the suspension in at most three steps, after which the thread
      returns. */
  lemma {:induction false} EveryWakeArrives(before: seq<Action>, after: seq<Action>, i: nat) returns (acts: seq<Action>)
    requires CanRun(Start, before) && Run(Start, before).pc == Away
    requires CanRun(Run(Start, before), after) && multiset(after)[Block] <= 1
    requires var s := Run(Run(Start, before), after);
             s.pc == Asleep && s.blocked && |Run(Start, before).wakers| <= i < |s.wakers|
    ensures var s := Run(Run(Start, before), after);
            && 0 < |acts| <= 3 && (forall k | 0 <= k < |acts| :: acts[k] == Waking(i))
            && CanRun(s, acts) && Returns(Run(s, acts))
  {
    var z := Run(Start, before);
    RunKeeps(Start, before);
    RunKeeps(z, after);
    StillSince(z, after, |z.wakers|);
    NoLostWakeup(Run(z, after), i);
    acts := Arrive(Run(z, after), i);
    WokenReturns(Run(Run(z, after), acts));
  }

  /** The thread, in three steps of its own, returns from `thread_block`. */
  ghost predicate Returns(s: State) {
    var steps := [Thread, Thread, Thread];
    CanRun(s, steps) && Run(s, steps).pc == Away && !Run(s, steps).blocked && !Run(s, steps).pending
  }

  lemma {:induction false} WokenReturns(s: State)
    requires s.pc == Asleep && !s.blocked
    ensures Returns(s)
  {
    var s1 := Act(s, Thread);
    var s2 := Act(s1, Thread);
    Then(s2, Thread, []);
    Then(s1, Thread, [Thread]);
    Then(s, Thread, [Thread, Thread]);
    assert [Thread] + [Thread, Thread] == [Thread, Thread, Thread];
  }

  function ToGo(pc: WakerPc): nat {
    match pc
    case Begin => 3
    case Look => 2
    case Set => 1
    case Over => 0
  }

  lemma {:induction false} Arrive(s: State, i: nat) returns (acts: seq<Action>)
    requires s.pc == Asleep && s.blocked && i < |s.wakers| && s.wakers[i].pc != Over
    ensures |acts| == ToGo(s.wakers[i].pc) && forall k | 0 <= k < |acts| :: acts[k] == Waking(i)
    ensures CanRun(s, acts) && !Run(s, acts).blocked && Run(s, acts).pc == Asleep
    decreases ToGo(s.wakers[i].pc)
  {
    var z := Act(s, Waking(i));
    var rest: seq<Action> := [];
    if s.wakers[i].pc != Set { rest := Arrive(z, i); }
    acts := [Waking(i)] + rest;
    assert acts[1..] == rest;
  }

  // ---- no return without a wake ----------------------------------------------------

  lemma {:induction false} Shorter(s: State, acts: seq<Action>)
    requires acts != [] && CanRun(s, acts)
    ensures var front, a := acts[..|acts| - 1], acts[|acts| - 1];
            CanRun(s, front) && Enabled(Run(s, front), a) && Run(s, acts) == Act(Run(s, front), a)
    decreases |acts|
  {
    if |acts| > 1 {
      var rest, front := acts[1..], acts[..|acts| - 1];
      Shorter(Act(s, acts[0]), rest);
      assert front[0] == acts[0] && front[1..] == rest[..|rest| - 1];
    }
  }

  /** A call of `vxThreadWake` stores wake_pending. */
  predicate StoresPending(s: State, a: Action) {
    a.Waking? && a.i < |s.wakers| && s.wakers[a.i].pc == Begin
  }

  /** A call of `vxThreadWake` stores RUNNING. */
  predicate StoresRunning(s: State, a: Action) {
    a.Waking? && a.i < |s.wakers| && s.wakers[a.i].pc == Set
  }

  /** The thread clears wake_pending. */
  predicate ClearsPending(s: State, a: Action) {
    a == Thread && s.pc == Forget
  }

  /** The thread stores BLOCKED. */
  predicate StoresBlocked(s: State, a: Action) {
    a == Thread && s.pc == Enter
  }

  /** Some call has stored wake_pending since the thread last cleared it. */
  ghost predicate PendingSince(acts: seq<Action>)
    requires CanRun(Start, acts)
  {
    acts != []
    && (Shorter(Start, acts);
        var front, a := acts[..|acts| - 1], acts[|acts| - 1];
        StoresPending(Run(Start, front), a) || (!ClearsPending(Run(Start, front), a) && PendingSince(front)))
  }

  /** Some call has stored RUNNING since the thread last stored BLOCKED. */
  ghost predicate RunningSince(acts: seq<Action>)
    requires CanRun(Start, acts)
  {
    acts != []
    && (Shorter(Start, acts);
        var front, a := acts[..|acts| - 1], acts[|acts| - 1];
        StoresRunning(Run(Start, front), a) || (!StoresBlocked(Run(Start, front), a) && RunningSince(front)))
  }

  /** The last store to the thread's state was BLOCKED: no call of `vxThreadWake`
      and no return of the thread has stored RUNNING since. */
  ghost predicate BlockedLast(acts: seq<Action>)
    requires CanRun(Start, acts)
  {
    acts != []
    && (Shorter(Start, acts);
        var s, a := Run(Start, acts[..|acts| - 1]), acts[|acts| - 1];
        StoresBlocked(s, a)
        || (!StoresRunning(s, a) && !(a == Thread && s.pc == Redo) && BlockedLast(acts[..|acts| - 1])))
  }

  predicate Suspending(pc: ThreadPc) {
    pc == Test || pc == Leave || pc == Asleep
  }

  /** The two flags, read off the run. */
  lemma {:induction false} FlagsRecorded(acts: seq<Action>)
    requires CanRun(Start, acts)
    ensures Run(Start, acts).pending <==> PendingSince(acts)
    ensures Run(Start, acts).blocked <==> BlockedLast(acts)
    ensures Suspending(Run(Start, acts).pc) ==> (Run(Start, acts).blocked <==> !RunningSince(acts))
    decreases |acts|
  {
    if acts != [] {
      Shorter(Start, acts);
      FlagsRecorded(acts[..|acts| - 1]);
    }
  }

  /** Outside `thread_block` the thread is RUNNING. */
  lemma {:induction false} RunsOutside(acts: seq<Action>)
    requires CanRun(Start, acts)
    ensures Run(Start, acts).pc == Away || Run(Start, acts).pc == Enter ==> !Run(Start, acts).blocked
    decreases |acts|
  {
    if acts != [] {
      Shorter(Start, acts);
      RunsOutside(acts[..|acts| - 1]);
    }
  }

  /** Call `i` has loaded the state and found BLOCKED. */
  ghost predicate SawBlocked(acts: seq<Action>, i: nat)
    requires CanRun(Start, acts)
  {
    acts != []
    && (Shorter(Start, acts);
        var front := acts[..|acts| - 1];
        var s := Run(Start, front);
        if acts[|acts| - 1] == Waking(i) && s.wakers[i].pc == Look then s.blocked else SawBlocked(front, i))
  }

  /** The steps a call at `pc` has taken: three in all if it finds BLOCKED, two
      if not. */
  function Taken(pc: WakerPc, found: bool): nat {
    match pc
    case Begin => 0
    case Look => 1
    case Set => 2
    case Over => if found then 3 else 2
  }

  /** Call `i` has taken `n` steps, and `found` says what its load found. */
  predicate Tallied(s: State, i: nat, n: nat, found: bool) {
    if i < |s.wakers| then
      var pc := s.wakers[i].pc;
      n == Taken(pc, found) && (pc == Begin || pc == Look ==> !found) && (pc == Set ==> found)
    else n == 0 && !found
  }

  lemma {:induction false} TallyStep(s: State, a: Action, i: nat, n: nat, found: bool)
    requires Enabled(s, a) && Tallied(s, i, n, found)
    ensures Tallied(Act(s, a), i, if a == Waking(i) then n + 1 else n,
                    if a == Waking(i) && s.wakers[i].pc == Look then s.blocked else found)
  {
  }

  /** In every run a call of `vxThreadWake` stores RUNNING if and only if it has
      found BLOCKED. */
  lemma {:induction false} StoresIfFound(acts: seq<Action>, i: nat)
    requires CanRun(Start, acts)
    ensures Tallied(Run(Start, acts), i, multiset(acts)[Waking(i)], SawBlocked(acts, i))
    decreases |acts|
  {
    if acts != [] {
      var front, a := acts[..|acts| - 1], acts[|acts| - 1];
      Shorter(Start, acts);
      assert acts == front + [a];
      StoresIfFound(front, i);
      TallyStep(Run(Start, front), a, i, multiset(front)[Waking(i)], SawBlocked(front, i));
    }
  }

  /** The thread is about to clear wake_pending only when it was woken. */
  lemma {:induction false} ForgetsWhenWoken(acts: seq<Action>)
    requires CanRun(Start, acts) && Run(Start, acts).pc == Forget
    ensures PendingSince(acts) || RunningSince(acts)
    decreases |acts|
  {
    if acts != [] {
      Shorter(Start, acts);
      var front := acts[..|acts| - 1];
      FlagsRecorded(front);
      if Run(Start, front).pc == Forget { ForgetsWhenWoken(front); }
    }
  }

  /** In every run, when the thread is about to return from `thread_block`, then
      at the moment `c` it cleared wake_pending some call had stored
      wake_pending since the clearing before, or had stored RUNNING since the
      thread stored BLOCKED. */
  lemma {:induction false} ReturnsOnlyWoken(acts: seq<Action>) returns (c: nat)
    requires CanRun(Start, acts) && Run(Start, acts).pc == Redo
    ensures c < |acts| && acts[c] == Thread && CanRun(Start, acts[..c]) && Run(Start, acts[..c]).pc == Forget
    ensures PendingSince(acts[..c]) || RunningSince(acts[..c])
    ensures forall k | c < k < |acts| :: acts[k] != Thread
    decreases |acts|
  {
    Shorter(Start, acts);
    var front := acts[..|acts| - 1];
    if Run(Start, front).pc == Redo {
      c := ReturnsOnlyWoken(front);
      assert acts[..c] == front[..c];
    } else {
      c := |acts| - 1;
      ForgetsWhenWoken(front);
    }
  }

  /** Conversely, when no wake is pending, a call of `thread_block` suspends the
      thread in BLOCKED, and it stays so while no call of `vxThreadWake` takes a
      step. */
  lemma {:induction false} SleepsUnwoken(before: seq<Action>, after: seq<Action>)
    requires CanRun(Start, before) && Run(Start, before).pc == Away && !PendingSince(before)
    requires forall k | 0 <= k < |after| :: !after[k].Waking?
    ensures var acts := [Block, Thread, Thread, Thread];
            && CanRun(Run(Start, before), acts)
            && var s := Run(Run(Start, before), acts);
               && s.pc == Asleep && s.blocked && !Enabled(s, Thread)
               && (CanRun(s, after) ==> Run(s, after).pc == Asleep && Run(s, after).blocked && Thread !in after)
  {
    FlagsRecorded(before);
    var s := Run(Start, before);
    var s1 := Act(s, Block);
    var s2 := Act(s1, Thread);
    var s3 := Act(s2, Thread);
    var s4 := Act(s3, Thread);
    Then(s3, Thread, []);
    Then(s2, Thread, [Thread]);
    Then(s1, Thread, [Thread, Thread]);
    Then(s, Block, [Thread, Thread, Thread]);
    assert [Block] + [Thread, Thread, Thread] == [Block, Thread, Thread, Thread];
    if CanRun(s4, after) { StaysAsleep(s4, after); }
  }

  lemma {:induction false} StaysAsleep(s: State, acts: seq<Action>)
    requires s.pc == Asleep && s.blocked && CanRun(s, acts) && forall k | 0 <= k < |acts| :: !acts[k].Waking?
    ensures Run(s, acts).pc == Asleep && Run(s, acts).blocked && Thread !in acts
    decreases |acts|
  {
    if acts != [] {
      StaysAsleep(Act(s, acts[0]), acts[1..]);
      assert acts == [acts[0]] + acts[1..];
    }
  }

  /** How often an action of a kind occurs. */
  function Blocks(acts: seq<Action>): nat {
    if acts == [] then 0 else Blocks(acts[..|acts| - 1]) + if acts[|acts| - 1] == Block then 1 else 0
  }

  function WakerSteps(acts: seq<Action>): nat {
    if acts == [] then 0 else WakerSteps(acts[..|acts| - 1]) + if acts[|acts| - 1].Waking? then 1 else 0
  }

  function One(b: bool): nat {
    if b then 1 else 0
  }

  /** Wakes stored and not yet used up by a return. */
  function Unspent(s: State): nat {
    One(s.pending && s.pc != Forget) + One(!s.blocked && Suspending(s.pc))
  }

  /** Every return is paid for by a store of a call of `vxThreadWake`: the calls
      of `thread_block` are at most one more than the steps of wakers. */
  lemma {:induction false} ReturnsPaid(acts: seq<Action>)
    requires CanRun(Start, acts)
    ensures var s := Run(Start, acts);
            Blocks(acts) + Unspent(s)
              <= WakerSteps(acts) + One(s.pc != Away && s.pc != Forget && s.pc != Redo)
    decreases |acts|
  {
    if acts != [] {
      Shorter(Start, acts);
      ReturnsPaid(acts[..|acts| - 1]);
    }
  }
}
