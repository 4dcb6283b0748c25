/** `thread_sleep` and `vxThreadWake` as sequentially consistent interleavings
    of one thread, its core's timer scan and any number of wakers.  Unlike
    `thread_block`, it looks for a pending wake before it stores BLOCKED, and a
    wake that comes in between is lost until the timer. */
module SleepWake {

  import B = BlockWake

  /** `since`: the call started after the thread called `thread_sleep`.
      `missed`: it loaded state between the thread's test and its store of BLOCKED. */
  datatype Waker = Waker(pc: B.WakerPc, since: bool, missed: bool)

  /** Where the thread is in `thread_sleep`. */
  datatype ThreadPc =
    | Away    // not in thread_sleep
    | Test    // about to load wake_pending
    | Clear   // saw a pending wake, about to clear it and return
    | Store   // about to store BLOCKED
    | Leave   // about to be suspended
    | Asleep  // suspended
    | Forget  // about to clear wake_pending
    | Redo    // about to store RUNNING and return

  /** `timed`: wakeup_time is set. */
  datatype State = State(pc: ThreadPc, blocked: bool, pending: bool, timed: bool, wakers: seq<Waker>)

  datatype Action =
    | Sleep           // the thread calls thread_sleep
    | Thread          // it takes its next step there
    | Timer           // the scan of its core finds its time has come
    | Wake            // somebody calls vxThreadWake
    | Waking(i: nat)  // call i takes its next step

  predicate Enabled(s: State, a: Action) {
    match a
    case Sleep => s.pc == Away
    case Thread => s.pc != Away && (s.pc == Asleep ==> !s.blocked)
    case Timer => s.pc == Asleep && s.blocked && s.timed
    case Wake => true
    case Waking(i) => i < |s.wakers| && s.wakers[i].pc != B.Over
  }

  function Unmarked(ws: seq<Waker>): seq<Waker> {
    seq(|ws|, i requires 0 <= i < |ws| => ws[i].(since := false, missed := false))
  }

  function StepThread(s: State): State
    requires Enabled(s, Thread)
  {
    match s.pc
    case Away => s
    case Test => s.(pc := if s.pending then Clear else Store)
    case Clear => s.(pending := false, timed := false, pc := Away)
    case Store => s.(blocked := true, pc := Leave)
    case Leave => s.(pc := Asleep)
    case Asleep => s.(pc := Forget)
    case Forget => s.(pending := false, timed := false, pc := Redo)
    case Redo => s.(blocked := false, pc := Away)
  }

  function StepWaker(s: State, i: nat): State
    requires Enabled(s, Waking(i))
  {
    var w := s.wakers[i];
    match w.pc
    case Begin => s.(pending := true, wakers := s.wakers[i := w.(pc := B.Look)])
    case Look =>
      s.(wakers := s.wakers[i := if s.blocked then w.(pc := B.Set) else w.(pc := B.Over, missed := s.pc == Store)])
    case Set => s.(blocked := false, wakers := s.wakers[i := w.(pc := B.Over)])
    case Over => s
  }

  function Act(s: State, a: Action): State
    requires Enabled(s, a)
  {
    match a
    case Sleep => s.(timed := true, pc := Test, wakers := Unmarked(s.wakers))
    case Thread => StepThread(s)
    case Timer => s.(blocked := false, timed := false, pending := true)
    case Wake => s.(wakers := s.wakers + [Waker(B.Begin, true, false)])
    case Waking(i) => StepWaker(s, i)
  }

  // ---- which wakes are lost -----------------------------------------------------

  predicate WakerOk(s: State, w: Waker) {
    && (w.missed ==> w.pc == B.Over)
    && (w.since && (s.pc == Test || s.pc == Store) ==> w.pc != B.Set)
    && (w.since && s.pc == Test && w.pc != B.Begin ==> s.pending)
    && (w.since && s.pc == Store && w.pc == B.Over ==> w.missed)
    && (w.since && (s.pc == Leave || s.pc == Asleep) && w.pc == B.Over && !w.missed ==> !s.blocked)
  }

  /** Outside the suspension the thread is not BLOCKED; in it, the timer is set. */
  ghost predicate Inv(s: State) {
    && (s.pc == Test || s.pc == Store || s.pc == Away || s.pc == Clear ==> !s.blocked)
    && (s.pc == Test || s.pc == Store || ((s.pc == Leave || s.pc == Asleep) && s.blocked) ==> s.timed)
    && forall i | 0 <= i < |s.wakers| :: WakerOk(s, s.wakers[i])
  }

  lemma {:induction false} ActKeeps(s: State, a: Action)
    requires Inv(s) && Enabled(s, a)
    ensures Inv(Act(s, a))
  {
    var z := Act(s, a);
    forall i | 0 <= i < |z.wakers| ensures WakerOk(z, z.wakers[i]) {
      if i < |s.wakers| { assert WakerOk(s, s.wakers[i]); }
    }
  }

  const Start := State(Away, false, false, false, [])

  ghost predicate CanRun(s: State, acts: seq<Action>)
    decreases |acts|
  {
    acts == [] || (Enabled(s, acts[0]) && CanRun(Act(s, acts[0]), acts[1..]))
  }

  ghost function Run(s: State, acts: seq<Action>): State
    requires CanRun(s, acts)
    decreases |acts|
  {
    if acts == [] then s else Run(Act(s, acts[0]), acts[1..])
  }

  lemma {:induction false} RunKeeps(s: State, acts: seq<Action>)
    requires Inv(s) && CanRun(s, acts)
    ensures Inv(Run(s, acts))
    decreases |acts|
  {
    if acts != [] {
      ActKeeps(s, acts[0]);
      RunKeeps(Act(s, acts[0]), acts[1..]);
    }
  }

  /** Call `i` loads state after the thread's test of wake_pending and before its
      store of BLOCKED, at some point of the run. */
  ghost predicate LoadsInGap(s: State, acts: seq<Action>, i: nat)
    requires CanRun(s, acts)
    decreases |acts|
  {
    acts != []
    && ((acts[0] == Waking(i) && s.pc == Store && s.wakers[i].pc == B.Look)
        || LoadsInGap(Act(s, acts[0]), acts[1..], i))
  }

  lemma {:induction false} GapRecorded(s: State, acts: seq<Action>, i: nat)
    requires Inv(s) && CanRun(s, acts) && Sleep !in acts && i < |Run(s, acts).wakers|
    requires i < |s.wakers| ==> s.wakers[i].since
    ensures Run(s, acts).wakers[i].since
    ensures Run(s, acts).wakers[i].missed <==> (i < |s.wakers| && s.wakers[i].missed) || LoadsInGap(s, acts, i)
    decreases |acts|
  {
    if acts != [] {
      var z := Act(s, acts[0]);
      assert acts == [acts[0]] + acts[1..];
      ActKeeps(s, acts[0]);
      if i < |s.wakers| { assert WakerOk(s, s.wakers[i]); }
      GapRecorded(z, acts[1..], i);
    }
  }

  /** In every run: while the thread is suspended in BLOCKED, a wake that started
      since it called `thread_sleep` is over, and so lost, if and only if it
      loaded state between the thread's test and its store of BLOCKED. */
  lemma {:induction false} LostIff(before: seq<Action>, after: seq<Action>, i: nat)
    requires CanRun(Start, before) && Run(Start, before).pc == Away
    requires CanRun(Act(Run(Start, before), Sleep), after) && Sleep !in after
    requires var s := Run(Act(Run(Start, before), Sleep), after);
             s.pc == Asleep && s.blocked && |Run(Start, before).wakers| <= i < |s.wakers|
    ensures var z := Act(Run(Start, before), Sleep);
            Run(z, after).wakers[i].pc == B.Over <==> LoadsInGap(z, after, i)
  {
    var s := Run(Start, before);
    RunKeeps(Start, before);
    ActKeeps(s, Sleep);
    var z := Act(s, Sleep);
    GapRecorded(z, after, i);
    RunKeeps(z, after);
    assert WakerOk(Run(z, after), Run(z, after).wakers[i]);
  }

  lemma {:induction false} Then(s: State, a: Action, rest: seq<Action>)
    requires Enabled(s, a) && CanRun(Act(s, a), rest)
    ensures CanRun(s, [a] + rest) && Run(s, [a] + rest) == Run(Act(s, a), rest)
  {
    assert ([a] + rest)[1..] == rest;
  }

  /** The thread, in three steps of its own, returns from `thread_sleep`. */
  ghost predicate Returns(s: State) {
    var steps := [Thread, Thread, Thread];
    CanRun(s, steps) && Run(s, steps).pc == Away && !Run(s, steps).blocked && !Run(s, steps).pending
  }

  lemma {:induction false} WokenReturns(s: State)
    requires s.pc == Asleep && !s.blocked
    ensures Returns(s)
  {
    var s1 := Act(s, Thread);
    var s2 := Act(s1, Thread);
    Then(s2, Thread, []);
    Then(s1, Thread, [Thread]);
    Then(s, Thread, [Thread, Thread]);
    assert [Thread] + [Thread, Thread] == [Thread, Thread, Thread];
  }

  /** A lost wake costs no more than the sleep: a suspended thread returns, after
      the timer if nothing else has resumed it. */
  lemma {:induction false} TimerEnds(acts: seq<Action>)
    requires CanRun(Start, acts) && Run(Start, acts).pc == Asleep
    ensures var s := Run(Start, acts);
            if s.blocked then Enabled(s, Timer) && Returns(Act(s, Timer)) else Returns(s)
  {
    RunKeeps(Start, acts);
    var s := Run(Start, acts);
    WokenReturns(if s.blocked then Act(s, Timer) else s);
  }

  lemma {:induction false} Before(s: State, a: Action, z: State, rest: seq<Action>) returns (acts: seq<Action>)
    requires Enabled(s, a) && z == Act(s, a) && CanRun(z, rest)
    ensures CanRun(s, acts) && Run(s, acts) == Run(z, rest)
  {
    acts := [a] + rest;
    assert acts[1..] == rest;
  }

  /** Such a run. */
  lemma {:induction false} LosesWake() returns (acts: seq<Action>)
    ensures CanRun(Start, acts)
    ensures Run(Start, acts) == State(Asleep, true, true, true, [Waker(B.Over, true, true)])
  {
    var lost := [Waker(B.Over, true, true)];
    acts := Before(State(Leave, true, true, true, lost), Thread, State(Asleep, true, true, true, lost), []);
    acts := Before(State(Store, false, true, true, lost), Thread, State(Leave, true, true, true, lost), acts);
    var look := State(Store, false, true, true, [Waker(B.Look, true, false)]);
    assert Act(look, Waking(0)).wakers == lost;
    acts := Before(look, Waking(0), State(Store, false, true, true, lost), acts);
    var begin := State(Store, false, false, true, [Waker(B.Begin, true, false)]);
    assert Act(begin, Waking(0)).wakers == look.wakers;
    acts := Before(begin, Waking(0), look, acts);
    acts := Before(State(Store, false, false, true, []), Wake, begin, acts);
    acts := Before(State(Test, false, false, true, []), Thread, State(Store, false, false, true, []), acts);
    assert Unmarked([]) == [];
    acts := Before(Start, Sleep, State(Test, false, false, true, []), acts);
  }

  // ---- no return without a wake or the timer -----------------------------------------

  lemma {:induction false} Shorter(s: State, acts: seq<Action>)
    requires acts != [] && CanRun(s, acts)
    ensures var front, a := acts[..|acts| - 1], acts[|acts| - 1];
            CanRun(s, front) && Enabled(Run(s, front), a) && Run(s, acts) == Act(Run(s, front), a)
    decreases |acts|
  {
    if |acts| > 1 {
      var rest, front := acts[1..], acts[..|acts| - 1];
      Shorter(Act(s, acts[0]), rest);
      assert front[0] == acts[0] && front[1..] == rest[..|rest| - 1];
    }
  }

  /** A flag that `sets` raises and `clears` lowers, after these actions. */
  ghost predicate Flag(sets: (State, Action) -> bool, clears: (State, Action) -> bool, acts: seq<Action>)
    requires CanRun(Start, acts)
  {
    acts != []
    && (Shorter(Start, acts);
        var s, a := Run(Start, acts[..|acts| - 1]), acts[|acts| - 1];
        sets(s, a) || (!clears(s, a) && Flag(sets, clears, acts[..|acts| - 1])))
  }

  predicate WakerAt(s: State, a: Action, pc: B.WakerPc) {
    a.Waking? && a.i < |s.wakers| && s.wakers[a.i].pc == pc
  }

  predicate ThreadAt(s: State, a: Action, pc: ThreadPc) {
    a == Thread && s.pc == pc
  }

  predicate SetsPending(s: State, a: Action) {
    WakerAt(s, a, B.Begin) || a == Timer
  }

  predicate ClearsPending(s: State, a: Action) {
    ThreadAt(s, a, Clear) || ThreadAt(s, a, Forget)
  }

  predicate StoresBlocked(s: State, a: Action) {
    ThreadAt(s, a, Store)
  }

  predicate StoresRunning(s: State, a: Action) {
    WakerAt(s, a, B.Set) || a == Timer || ThreadAt(s, a, Redo)
  }

  predicate SetsTime(s: State, a: Action) {
    a == Sleep
  }

  predicate ClearsTime(s: State, a: Action) {
    a == Timer || ThreadAt(s, a, Clear) || ThreadAt(s, a, Forget)
  }

  lemma {:induction false} ActFlags(s: State, a: Action)
    requires Enabled(s, a)
    ensures Act(s, a).pending <==> SetsPending(s, a) || (!ClearsPending(s, a) && s.pending)
    ensures Act(s, a).blocked <==> StoresBlocked(s, a) || (!StoresRunning(s, a) && s.blocked)
    ensures Act(s, a).timed <==> SetsTime(s, a) || (!ClearsTime(s, a) && s.timed)
  {
  }

  /** In every run: wake_pending is set by wakers and by the timer until the
      thread clears it; the state is BLOCKED from the thread's store on until a
      waker, the timer or the thread's return changes it; and wakeup_time is set
      from the call on until the timer has come or the thread goes on. */
  lemma {:induction false} FlagsRecorded(acts: seq<Action>)
    requires CanRun(Start, acts)
    ensures Run(Start, acts).pending <==> Flag(SetsPending, ClearsPending, acts)
    ensures Run(Start, acts).blocked <==> Flag(StoresBlocked, StoresRunning, acts)
    ensures Run(Start, acts).timed <==> Flag(SetsTime, ClearsTime, acts)
    decreases |acts|
  {
    if acts != [] {
      Shorter(Start, acts);
      FlagsRecorded(acts[..|acts| - 1]);
      ActFlags(Run(Start, acts[..|acts| - 1]), acts[|acts| - 1]);
    }
  }

  function Sleeps(acts: seq<Action>): nat {
    if acts == [] then 0 else Sleeps(acts[..|acts| - 1]) + if acts[|acts| - 1] == Sleep then 1 else 0
  }

  /** Steps of wakers and of the timer. */
  function Wakings(acts: seq<Action>): nat {
    if acts == [] then 0
    else Wakings(acts[..|acts| - 1]) + if acts[|acts| - 1].Waking? || acts[|acts| - 1] == Timer then 1 else 0
  }

  /** Wakes stored and not yet used up by a return. */
  function Unspent(s: State): nat {
    One(s.pending && s.pc != Forget && s.pc != Clear && (s.pc == Asleep ==> s.blocked))
    + One(!s.blocked && (s.pc == Leave || s.pc == Asleep))
  }

  function One(b: bool): nat {
    if b then 1 else 0
  }

  /** Every return is paid for by a step of a waker or of the timer: the calls of
      `thread_sleep` are at most one more than those steps. */
  lemma {:induction false} ReturnsPaid(acts: seq<Action>)
    requires CanRun(Start, acts)
    ensures var s := Run(Start, acts);
            Sleeps(acts) + Unspent(s)
              <= Wakings(acts) + One(s.pc == Test || s.pc == Store || s.pc == Leave || s.pc == Asleep)
    decreases |acts|
  {
    if acts != [] {
      Shorter(Start, acts);
      ReturnsPaid(acts[..|acts| - 1]);
    }
  }
}
