/** A canonical-mode reader of a terminal (`char_read`) blocking on top of
    `thread_block`, against the input handlers that register lines and take
    the waiting thread to wake it.  What happens under `tty_lock` is one step. */
module TtyRead {
  import B = BlockWake

  /** Where the reader is in `char_read`. */
  datatype Place =
    | Outside     // not reading
    | Top         // about to take the lock
    | Registered  // is the waiter, about to call thread_block
    | Blocking    // in thread_block

  /** `taker` is the wake call of the handler that took the reader off
      `waiter` since it last registered, or -1. */
  datatype State = State(block: B.State, place: Place, lines: nat, waiter: bool, taker: int)

  datatype Action =
    | Read                      // the reader calls char_read
    | Look(newline: bool)       // it looks under the lock; `newline`: what it copies out ends a line
    | Interrupted               // it looks under the lock and leaves for a signal
    | Block                     // it calls thread_block
    | Thread                    // it takes a step in thread_block
    | Newline(room: bool)       // a handler gets a newline; `room`: the ring is not full
    | Take                      // a handler takes the waiter for another reason
    | Wake                      // somebody else wakes the thread
    | Waking(i: nat)            // a wake call takes a step

  predicate Enabled(s: State, a: Action) {
    match a
    case Read => s.place == Outside
    case Look(_) => s.place == Top && s.block.pc == B.Away
    case Interrupted => s.place == Top && s.lines == 0
    case Block => s.place == Registered && B.Enabled(s.block, B.Block)
    case Thread => s.place == Blocking && B.Enabled(s.block, B.Thread)
    case Newline(_) => true
    case Take => true
    case Wake => true
    case Waking(i) => B.Enabled(s.block, B.Waking(i))
  }

  /** The handler takes the waiter, if there is one, and will wake it once it
      has released the lock. */
  function TakeWaiter(s: State): State {
    if s.waiter then
      s.(waiter := false, taker := |s.block.wakers|, block := B.Act(s.block, B.Wake))
    else s
  }

  function Act(s: State, a: Action): State
    requires Enabled(s, a)
  {
    match a
    case Read => s.(place := Top)
    case Look(newline) =>
      if s.lines == 0 then
        s.(waiter := true, place := Registered, taker := -1)
      else
        s.(lines := if newline then s.lines - 1 else s.lines, waiter := false, place := Outside)
    case Interrupted => s.(waiter := false, place := Outside)
    case Block => s.(place := Blocking, block := B.Act(s.block, B.Block))
    case Thread =>
      var b := B.Act(s.block, B.Thread);
      s.(block := b, place := if b.pc == B.Away then Top else Blocking)
    case Newline(room) => TakeWaiter(if room then s.(lines := s.lines + 1) else s)
    case Take => TakeWaiter(s)
    case Wake => s.(block := B.Act(s.block, B.Wake))
    case Waking(i) => s.(block := B.Act(s.block, B.Waking(i)))
  }

  /** From registering until the thread clears wake_pending, the reader is
      either still the waiter, with no line there, or a handler took it; outside
      a read it is not the waiter. */
  ghost predicate Inv(s: State) {
    && B.Inv(s.block)
    && (s.place == Blocking <==> s.block.pc != B.Away)
    && (s.place == Outside ==> !s.waiter)
    && (s.place == Registered || (s.place == Blocking && s.block.pc != B.Forget && s.block.pc != B.Redo) ==>
          if s.waiter then s.lines == 0 else 0 <= s.taker < |s.block.wakers| && s.block.wakers[s.taker].since)
  }

  lemma {:induction false} ActKeeps(s: State, a: Action)
    requires Inv(s) && Enabled(s, a)
    ensures Inv(Act(s, a))
  {
    match a
    case Look(_) =>
    case Block => B.ActKeeps(s.block, B.Block);
    case Thread => B.ActKeeps(s.block, B.Thread);
    case Waking(i) => B.ActKeeps(s.block, B.Waking(i));
    case Read =>
    case Interrupted =>
    case _ => B.ActKeeps(s.block, B.Wake);
  }

  const Start := State(B.Start, Outside, 0, false, -1)

  ghost predicate CanRun(s: State, acts: seq<Action>)
    decreases |acts|
  {
    acts == [] || (Enabled(s, acts[0]) && CanRun(Act(s, acts[0]), acts[1..]))
  }

  ghost function Run(s: State, acts: seq<Action>): State
    requires CanRun(s, acts)
    decreases |acts|
  {
    if acts == [] then s else Run(Act(s, acts[0]), acts[1..])
  }

  lemma {:induction false} RunKeeps(s: State, acts: seq<Action>)
    requires Inv(s) && CanRun(s, acts)
    ensures Inv(Run(s, acts))
    decreases |acts|
  {
    if acts != [] {
      ActKeeps(s, acts[0]);
      RunKeeps(Act(s, acts[0]), acts[1..]);
    }
  }

  /** In every run the reader is never left suspended in BLOCKED with a line
      there, unless a handler still holds it as the thread to wake; and that
      handler's wake, by itself, makes the reader runnable. */
  lemma {:induction false} NeverLeftWaiting(acts: seq<Action>) returns (wake: seq<B.Action>)
    requires CanRun(Start, acts)
    requires var s := Run(Start, acts); s.block.pc == B.Asleep && s.block.blocked && s.lines > 0
    ensures var s := Run(Start, acts);
            && 0 <= s.taker < |s.block.wakers| && s.block.wakers[s.taker].pc != B.Over
            && |wake| <= 3 && (forall k | 0 <= k < |wake| :: wake[k] == B.Waking(s.taker))
            && B.CanRun(s.block, wake) && !B.Run(s.block, wake).blocked
  {
    RunKeeps(Start, acts);
    var s := Run(Start, acts);
    B.NoLostWakeup(s.block, s.taker);
    wake := B.Arrive(s.block, s.taker);
  }

  // ---- reads and lines ---------------------------------------------------------------

  /** The lines there after these actions: one more for each newline there was
      room for, one less for each read that copied out the end of a line. */
  function Lines(acts: seq<Action>): nat {
    if acts == [] then 0
    else
      var n := Lines(acts[..|acts| - 1]);
      match acts[|acts| - 1]
      case Newline(room) => if room then n + 1 else n
      case Look(newline) => if newline && n > 0 then n - 1 else n
      case _ => n
  }

  lemma {:induction false} Shorter(s: State, acts: seq<Action>)
    requires acts != [] && CanRun(s, acts)
    ensures var front, a := acts[..|acts| - 1], acts[|acts| - 1];
            CanRun(s, front) && Enabled(Run(s, front), a) && Run(s, acts) == Act(Run(s, front), a)
    decreases |acts|
  {
    if |acts| > 1 {
      var rest, front := acts[1..], acts[..|acts| - 1];
      Shorter(Act(s, acts[0]), rest);
      assert front[0] == acts[0] && front[1..] == rest[..|rest| - 1];
    }
  }

  lemma {:induction false} LinesCounted(acts: seq<Action>)
    requires CanRun(Start, acts)
    ensures Run(Start, acts).lines == Lines(acts)
    decreases |acts|
  {
    if acts != [] {
      Shorter(Start, acts);
      LinesCounted(acts[..|acts| - 1]);
    }
  }

  /** In every run: an action ends a read if and only if it is a look with a line
      there, or the interruption of one without; and a look without a line makes
      the reader the waiter. */
  lemma {:induction false} ReadEndsIff(acts: seq<Action>)
    requires acts != [] && CanRun(Start, acts)
    ensures var front, a := acts[..|acts| - 1], acts[|acts| - 1];
            && CanRun(Start, front)
            && (Run(Start, front).place != Outside && Run(Start, acts).place == Outside
                <==> (a.Look? && Lines(front) > 0) || (a == Interrupted && Lines(front) == 0))
            && (a.Look? && Lines(front) == 0 ==> Run(Start, acts).place == Registered && Run(Start, acts).waiter)
            && (Run(Start, acts).place == Outside ==> !Run(Start, acts).waiter)
  {
    Shorter(Start, acts);
    RunKeeps(Start, acts);
    LinesCounted(acts[..|acts| - 1]);
  }

  /** The reader is the waiter: it has looked without finding a line, and nobody
      has taken it and it has not left since. */
  function Waits(acts: seq<Action>): bool {
    acts != [] &&
    var front := acts[..|acts| - 1];
    match acts[|acts| - 1]
    case Look(_) => Lines(front) == 0
    case Interrupted => false
    case Newline(_) => false
    case Take => false
    case _ => Waits(front)
  }

  /** The wakes started: those of the handlers that took the waiter, and others. */
  function Wakes(acts: seq<Action>): nat {
    if acts == [] then 0
    else
      var front, a := acts[..|acts| - 1], acts[|acts| - 1];
      Wakes(front) + if a == Wake || ((a.Newline? || a == Take) && Waits(front)) then 1 else 0
  }

  /** In every run the waiter is who the actions say, and every handler that
      takes it starts one wake. */
  lemma {:induction false} WaiterRecorded(acts: seq<Action>)
    requires CanRun(Start, acts)
    ensures Run(Start, acts).waiter == Waits(acts) && |Run(Start, acts).block.wakers| == Wakes(acts)
    decreases |acts|
  {
    if acts != [] {
      Shorter(Start, acts);
      WaiterRecorded(acts[..|acts| - 1]);
      LinesCounted(acts[..|acts| - 1]);
      WakersKept(Run(Start, acts[..|acts| - 1]).block);
    }
  }

  lemma {:induction false} WakersKept(b: B.State)
    ensures B.Enabled(b, B.Block) ==> |B.Act(b, B.Block).wakers| == |b.wakers|
    ensures B.Enabled(b, B.Thread) ==> |B.Act(b, B.Thread).wakers| == |b.wakers|
    ensures forall i | B.Enabled(b, B.Waking(i)) :: |B.Act(b, B.Waking(i)).wakers| == |b.wakers|
  {
  }

  lemma {:induction false} Then(s: State, a: Action, rest: seq<Action>)
    requires Enabled(s, a) && CanRun(Act(s, a), rest)
    ensures CanRun(s, [a] + rest) && Run(s, [a] + rest) == Run(Act(s, a), rest)
  {
    assert ([a] + rest)[1..] == rest;
  }

  /** A reader that has found no line and has no wake pending is suspended. */
  lemma {:induction false} SuspendsWithoutLine(s: State)
    requires s.place == Registered && s.block.pc == B.Away && !s.block.pending
    ensures var acts := [Block, Thread, Thread, Thread];
            && CanRun(s, acts)
            && var z := Run(s, acts); z.block.pc == B.Asleep && z.block.blocked && !Enabled(z, Thread)
  {
    var s1 := Act(s, Block);
    var s2 := Act(s1, Thread);
    var s3 := Act(s2, Thread);
    Then(s3, Thread, []);
    Then(s2, Thread, [Thread]);
    Then(s1, Thread, [Thread, Thread]);
    Then(s, Block, [Thread, Thread, Thread]);
    assert [Block] + [Thread, Thread, Thread] == [Block, Thread, Thread, Thread];
  }

  /** Steps of the reader before it looks again. */
  function ToLook(s: State): nat {
    match s.place
    case Outside => 0
    case Top => 1
    case Registered => 8
    case Blocking =>
      match s.block.pc
      case Away => 0
      case Enter => 7
      case Test => 6
      case Leave => 5
      case Asleep => 4
      case Forget => 3
      case Redo => 2
  }

  function WakeToGo(s: State): nat {
    if 0 <= s.taker < |s.block.wakers| then B.ToGo(s.block.wakers[s.taker].pc) else 0
  }

  /** The next step towards the end of a read with a line there. */
  lemma {:induction false} TowardsLook(s: State) returns (a: Action)
    requires Inv(s) && s.lines > 0 && s.place != Outside
    ensures Enabled(s, a) && !a.Interrupted? && !a.Newline? && Act(s, a).lines + One(a == Look(true)) == s.lines
    ensures Act(s, a).place == Outside || ToLook(Act(s, a)) < ToLook(s)
         || (ToLook(Act(s, a)) == ToLook(s) && WakeToGo(Act(s, a)) < WakeToGo(s))
    ensures Act(s, a).place == Outside <==> a == Look(true)
  {
    if s.place == Top {
      a := Look(true);
    } else if s.place == Registered {
      a := Block;
    } else if s.block.pc == B.Asleep && s.block.blocked {
      a := Waking(s.taker);
      B.NoLostWakeup(s.block, s.taker);
    } else {
      a := Thread;
    }
  }

  function One(b: bool): nat {
    if b then 1 else 0
  }

  /** From every reachable state, a read with a line there can be completed
      without a signal: by the reader itself and the handler that took it. */
  lemma {:induction false} ReadCompletes(s: State) returns (acts: seq<Action>)
    requires Inv(s) && s.lines > 0 && s.place != Outside
    ensures CanRun(s, acts) && Run(s, acts).place == Outside && Run(s, acts).lines == s.lines - 1
    ensures forall k | 0 <= k < |acts| :: !acts[k].Interrupted? && !acts[k].Newline?
    decreases ToLook(s), WakeToGo(s)
  {
    var a := TowardsLook(s);
    var z := Act(s, a);
    ActKeeps(s, a);
    var rest: seq<Action> := [];
    if z.place != Outside { rest := ReadCompletes(z); }
    acts := [a] + rest;
    Then(s, a, rest);
  }

  /** In every run: when a newline comes in that there is room for, a read that
      is going on, or one that starts then, can be completed without a signal. */
  lemma {:induction false} NewlineEndsRead(acts: seq<Action>) returns (more: seq<Action>)
    requires CanRun(Start, acts)
    ensures var s := Run(Start, acts);
            var z := if s.place == Outside then Act(s, Read) else s;
            && CanRun(z, [Newline(true)] + more) && Run(z, [Newline(true)] + more).place == Outside
            && Run(z, [Newline(true)] + more).lines == s.lines
            && forall k | 0 <= k < |more| :: !more[k].Interrupted? && !more[k].Newline?
  {
    RunKeeps(Start, acts);
    var s := Run(Start, acts);
    var z := if s.place == Outside then Act(s, Read) else s;
    if s.place == Outside { ActKeeps(s, Read); }
    ActKeeps(z, Newline(true));
    more := ReadCompletes(Act(z, Newline(true)));
    Then(z, Newline(true), more);
  }
}
