/** Progress of the work queues under every schedule: enough steps of a worker,
    interleaved with anything else, finish the oldest BUSY task. */
module WorkqueueFair {
  import opened Lists
  import opened Workqueue
  import opened WorkqueueRuns

  /** How often worker `c` moves. */
  function Steps(acts: seq<Action>, c: nat): nat {
    if acts == [] then 0 else One(acts[0] == Work(c)) + Steps(acts[1..], c)
  }

  /** Nothing is queued on core `c`. */
  predicate Undisturbed(acts: seq<Action>, c: nat) {
    forall k | 0 <= k < |acts| :: acts[k] != Submit(c) && acts[k] != Detached(c)
  }

  /** The list of core `c` has at most `l` tasks, with at most `m` dependencies each. */
  ghost predicate Sized(s: State, c: nat, l: nat, m: nat)
    requires Shape(s) && c < |s.pcs|
  {
    |s.queues[c]| <= l && forall i | 0 <= i < |s.queues[c]| :: |s.tasks[s.queues[c][i]].deps| <= m
  }

  /** Enough steps for a worker with such a list to come to any of its tasks and finish it. */
  function Enough(l: nat, m: nat): nat {
    4 * (l + 1) * (9 + 4 * m)
  }

  function Weigh(phase: nat, ahead: nat, within: nat, l: nat, m: nat): nat {
    (phase * (l + 1) + ahead) * (9 + 4 * m) + within
  }

  /** Phase, position and steps left, weighed into one number. */
  ghost function Distance(s: State, c: nat, t: nat, l: nat, m: nat): nat
    requires Shape(s) && c < |s.pcs|
  {
    Weigh(Phase(s, c, t), Ahead(s, c), Within(s, c), l, m)
  }

  lemma {:induction false} WithinBound(s: State, c: nat, l: nat, m: nat)
    requires Shape(s) && c < |s.pcs| && Sized(s, c, l, m)
    ensures Within(s, c) <= 8 + 4 * m && Ahead(s, c) <= l
  {
    assert PcShape(s, c);
  }

  /** A smaller phase, or the same and a smaller position, outweighs the steps. */
  lemma WeighPositions(p: nat, a: nat, p': nat, a': nat, l: nat)
    requires a' <= l && (p' < p || (p' == p && a' < a))
    ensures p' * (l + 1) + a' < p * (l + 1) + a
  {
    if p' < p {
      assert p' * (l + 1) <= (p - 1) * (l + 1) == p * (l + 1) - (l + 1);
    }
  }

  lemma WeighSteps(x: nat, w: nat, x': nat, w': nat, k: nat)
    requires w' < k && (x' < x || (x' == x && w' < w))
    ensures x' * k + w' < x * k + w
  {
    if x' < x {
      assert x' * k <= (x - 1) * k == x * k - k;
    }
  }

  lemma {:induction false} CloserIsLess(s: State, z: State, c: nat, t: nat, l: nat, m: nat)
    requires Shape(s) && Shape(z) && c < |s.pcs| && c < |z.pcs| && Sized(z, c, l, m) && Closer(s, z, c, t)
    ensures Distance(z, c, t, l, m) < Distance(s, c, t, l, m)
  {
    WithinBound(z, c, l, m);
    var p, a, p', a' := Phase(s, c, t), Ahead(s, c), Phase(z, c, t), Ahead(z, c);
    if p' < p || (p' == p && a' < a) { WeighPositions(p, a, p', a', l); }
    WeighSteps(p * (l + 1) + a, Within(s, c), p' * (l + 1) + a', Within(z, c), 9 + 4 * m);
  }

  lemma {:induction false} DistanceBound(s: State, c: nat, t: nat, l: nat, m: nat)
    requires Shape(s) && c < |s.pcs| && Sized(s, c, l, m)
    ensures Distance(s, c, t, l, m) < Enough(l, m)
  {
    WithinBound(s, c, l, m);
    assert PcShape(s, c) && Phase(s, c, t) <= 3;
    WeighPositions(4, 0, Phase(s, c, t), Ahead(s, c), l);
    WeighSteps(4 * (l + 1), 0, Phase(s, c, t) * (l + 1) + Ahead(s, c), Within(s, c), 9 + 4 * m);
  }

  // ---- what the others leave alone -----------------------------------------------------------

  /** The part of the state worker `c` goes by. */
  ghost predicate Untouched(s: State, z: State, c: nat) {
    && c < |s.pcs| == |z.pcs| && |s.queues| == |s.pcs| && |z.queues| == |z.pcs|
    && z.pcs[c] == s.pcs[c] && z.queues[c] == s.queues[c] && (c !in s.uncounted ==> c !in z.uncounted)
  }

  lemma {:induction false} OthersUntouched(s: State, a: Action, c: nat)
    requires Shape(s) && Enabled(s, a) && c < |s.pcs|
    requires a != Work(c) && a != Submit(c) && a != Detached(c)
    ensures Untouched(s, Act(s, a), c)
  {
    if a.Work? {
      StepStays(s, a.c, c);
      StepFewer(s, a.c);
    }
  }

  /** Old tasks keep core and dependencies, and none becomes BUSY again. */
  ghost predicate Older(s: State, z: State) {
    && |s.tasks| <= |z.tasks|
    && forall t | 0 <= t < |s.tasks| ::
         && z.tasks[t].core == s.tasks[t].core && z.tasks[t].deps == s.tasks[t].deps
         && (z.tasks[t].slot == Busy ==> s.tasks[t].slot == Busy)
  }

  lemma {:induction false} ActOlder(s: State, a: Action)
    requires Inv(s) && Enabled(s, a)
    ensures Older(s, Act(s, a))
  {
    if a.Work? {
      StepFewer(s, a.c);
      forall t | 0 <= t < |s.tasks| ensures Step(s, a.c).tasks[t].deps == s.tasks[t].deps { StepFixes(s, a.c, t); }
    } else if a.Abort? {
      forall t | 0 <= t < |s.tasks| ensures Act(s, a).tasks[t] == s.tasks[t].(leaked := Act(s, a).tasks[t].leaked) {
        LeakedAll(s.tasks, s.building, t);
      }
    }
  }

  lemma {:induction false} SameDistance(s: State, z: State, c: nat, t: nat, l: nat, m: nat)
    requires Shape(s) && Shape(z) && Untouched(s, z, c) && Older(s, z) && Sized(s, c, l, m)
    ensures Sized(z, c, l, m) && Distance(z, c, t, l, m) == Distance(s, c, t, l, m)
  {
    assert PcShape(s, c) && PcShape(z, c);
  }

  lemma {:induction false} StepQueue(s: State, c: nat)
    requires Shape(s) && c < |s.pcs|
    ensures |Step(s, c).pcs| == |s.pcs| == |Step(s, c).queues|
    ensures || Step(s, c).queues[c] == s.queues[c]
            || (s.pcs[c].Reap? && s.pcs[c].i < |s.queues[c]|
                && Step(s, c).queues[c] == Without(s.queues[c], s.pcs[c].i))
  {
    assert PcShape(s, c);
  }

  lemma {:induction false} StepSized(s: State, z: State, c: nat, l: nat, m: nat)
    requires Shape(s) && c < |s.pcs| && Sized(s, c, l, m) && z == Step(s, c) && Shape(z) && Older(s, z)
    ensures |z.pcs| == |s.pcs| && Sized(z, c, l, m)
  {
    StepQueue(s, c);
    var r := z.queues[c];
    forall i | 0 <= i < |r| ensures |z.tasks[r[i]].deps| <= m { assert r[i] in s.queues[c]; }
  }

  // ---- every schedule ---------------------------------------------------------------------------

  /** One action: the worker comes closer, or somebody else moves and nothing is lost. */
  lemma {:induction false} OneAction(s: State, z: State, a: Action, t: nat, l: nat, m: nat)
    requires Inv(s) && Oldest(s, t) && s.tasks[t].core !in s.uncounted && Sized(s, s.tasks[t].core, l, m)
    requires Enabled(s, a) && z == Act(s, a) && Inv(z) && a != Submit(s.tasks[t].core) && a != Detached(s.tasks[t].core)
    ensures t < |z.tasks| && z.tasks[t].core == s.tasks[t].core < |z.pcs| && s.tasks[t].core !in z.uncounted
    ensures Sized(z, s.tasks[t].core, l, m)
    ensures z.tasks[t].slot == Busy ==>
              && Oldest(z, t)
              && Distance(z, s.tasks[t].core, t, l, m)
                 <= Distance(s, s.tasks[t].core, t, l, m) - One(a == Work(s.tasks[t].core))
  {
    var c := s.tasks[t].core;
    ActOlder(s, a);
    if a == Work(c) {
      StepSized(s, z, c, l, m);
      OldestStep(s, z, t);
      if z.tasks[t].slot == Busy { CloserIsLess(s, z, c, t, l, m); }
    } else {
      OthersUntouched(s, a, c);
      SameDistance(s, z, c, t, l, m);
    }
  }

  lemma {:induction false} NotBusyAgain(s: State, acts: seq<Action>, t: nat)
    requires Inv(s) && CanRun(s, acts) && t < |s.tasks| && s.tasks[t].slot != Busy
    ensures t < |Run(s, acts).tasks| && Run(s, acts).tasks[t].slot != Busy
    decreases |acts|
  {
    if acts != [] {
      ActKeeps(s, acts[0]);
      ActOlder(s, acts[0]);
      NotBusyAgain(Act(s, acts[0]), acts[1..], t);
    }
  }

  lemma {:induction false} FinishesWithin(s: State, acts: seq<Action>, t: nat, l: nat, m: nat)
    requires Inv(s) && Oldest(s, t) && s.tasks[t].core !in s.uncounted && Sized(s, s.tasks[t].core, l, m)
    requires CanRun(s, acts) && Undisturbed(acts, s.tasks[t].core)
    requires Steps(acts, s.tasks[t].core) > Distance(s, s.tasks[t].core, t, l, m)
    ensures t < |Run(s, acts).tasks| && Run(s, acts).tasks[t].slot != Busy
    decreases |acts|
  {
    var z := Act(s, acts[0]);
    ActKeeps(s, acts[0]);
    OneAction(s, z, acts[0], t, l, m);
    if z.tasks[t].slot == Busy {
      FinishesWithin(z, acts[1..], t, l, m);
    } else {
      NotBusyAgain(z, acts[1..], t);
    }
  }

  /** In every run in which nothing is queued on its core, the oldest BUSY task
      has finished once its worker has made enough steps, whatever the others do. */
  lemma {:induction false} OldestFinishesAnyway(s: State, acts: seq<Action>, t: nat, l: nat, m: nat)
    requires Inv(s) && Oldest(s, t) && s.tasks[t].core !in s.uncounted && Sized(s, s.tasks[t].core, l, m)
    requires CanRun(s, acts) && Undisturbed(acts, s.tasks[t].core)
    requires Steps(acts, s.tasks[t].core) >= Enough(l, m)
    ensures t < |Run(s, acts).tasks| && Run(s, acts).tasks[t].slot != Busy
  {
    DistanceBound(s, s.tasks[t].core, t, l, m);
    FinishesWithin(s, acts, t, l, m);
  }

  // ---- all tasks ----------------------------------------------------------------------------------

  /** Nothing is queued anywhere. */
  predicate Quiet(acts: seq<Action>) {
    forall k | 0 <= k < |acts| :: !acts[k].Submit? && !acts[k].Detached?
  }

  /** All tasks are counted and all lists are of that size. */
  ghost predicate Settled(s: State, l: nat, m: nat) {
    Inv(s) && s.uncounted == [] && forall c | 0 <= c < |s.pcs| :: Sized(s, c, l, m)
  }

  lemma {:induction false} QuietSized(s: State, z: State, a: Action, c: nat, l: nat, m: nat)
    requires Settled(s, l, m) && Enabled(s, a) && !a.Submit? && !a.Detached? && z == Act(s, a) && Inv(z)
    requires c < |s.pcs| == |z.pcs| && Older(s, z)
    ensures Sized(z, c, l, m)
  {
    if a == Work(c) {
      StepSized(s, z, c, l, m);
    } else {
      OthersUntouched(s, a, c);
      SameDistance(s, z, c, 0, l, m);
    }
  }

  lemma {:induction false} QuietSizes(s: State, a: Action)
    requires Shape(s) && Enabled(s, a) && !a.Submit? && !a.Detached? && s.uncounted == []
    ensures |Act(s, a).pcs| == |s.pcs| && |Act(s, a).tasks| == |s.tasks| && Act(s, a).uncounted == []
  {
    if a.Work? { StepFewer(s, a.c); }
  }

  lemma {:induction false} QuietAct(s: State, a: Action, l: nat, m: nat)
    requires Settled(s, l, m) && Enabled(s, a) && !a.Submit? && !a.Detached?
    ensures Settled(Act(s, a), l, m) && Fewer(s, Act(s, a)) && |Act(s, a).pcs| == |s.pcs|
  {
    var z := Act(s, a);
    ActKeeps(s, a);
    ActOlder(s, a);
    QuietSizes(s, a);
    forall c | 0 <= c < |z.pcs| ensures Sized(z, c, l, m) { QuietSized(s, z, a, c, l, m); }
  }

  lemma {:induction false} QuietRun(s: State, acts: seq<Action>, l: nat, m: nat)
    requires Settled(s, l, m) && CanRun(s, acts) && Quiet(acts)
    ensures var z := Run(s, acts); Settled(z, l, m) && Fewer(s, z) && |z.pcs| == |s.pcs|
    decreases |acts|
  {
    if acts != [] {
      QuietAct(s, acts[0], l, m);
      QuietRun(Act(s, acts[0]), acts[1..], l, m);
    }
  }

  /** A run in two parts. */
  lemma {:induction false} Parts(s: State, a: seq<Action>, b: seq<Action>)
    requires CanRun(s, a + b)
    ensures CanRun(s, a) && CanRun(Run(s, a), b) && Run(s, a + b) == Run(Run(s, a), b)
    decreases |a|
  {
    if a == [] {
      assert a + b == b;
    } else {
      assert (a + b)[0] == a[0] && (a + b)[1..] == a[1..] + b;
      Parts(Act(s, a[0]), a[1..], b);
    }
  }

  function Flat(rounds: seq<seq<Action>>): seq<Action> {
    if rounds == [] then [] else rounds[0] + Flat(rounds[1..])
  }

  /** Every worker makes at least `n` steps in every round. */
  predicate Fair(rounds: seq<seq<Action>>, cores: nat, n: nat) {
    forall r, c | 0 <= r < |rounds| && 0 <= c < cores :: Steps(rounds[r], c) >= n
  }

  lemma {:induction false} RoundFinishes(s: State, acts: seq<Action>, l: nat, m: nat)
    requires Settled(s, l, m) && CanRun(s, acts) && Quiet(acts) && BusyTasks(s.tasks, |s.tasks|) > 0
    requires forall c | 0 <= c < |s.pcs| :: Steps(acts, c) >= Enough(l, m)
    ensures var z := Run(s, acts);
            Settled(z, l, m) && Fewer(s, z) && |z.pcs| == |s.pcs|
            && BusyTasks(z.tasks, |z.tasks|) < BusyTasks(s.tasks, |s.tasks|)
  {
    var t := OldestBusy(s, |s.tasks|);
    if t == |s.tasks| {
      NoBusy(s.tasks, t);
    } else {
      assert TaskInv(s, t);
      QuietRun(s, acts, l, m);
      OldestFinishesAnyway(s, acts, t, l, m);
      FewerBusy(s, Run(s, acts), t, |s.tasks|);
    }
  }

  lemma {:induction false} NoBusy(tasks: seq<Task>, n: nat)
    requires n <= |tasks|
    ensures BusyTasks(tasks, n) == 0 <==> forall u | 0 <= u < n :: tasks[u].slot != Busy
  {
    if n > 0 { NoBusy(tasks, n - 1); }
  }

  /** In every run without new tasks in which every worker makes enough steps
      in each of as many rounds as there are BUSY tasks, all of them finish. */
  lemma {:induction false} AllFinishAnyway(s: State, rounds: seq<seq<Action>>, l: nat, m: nat)
    requires Settled(s, l, m) && CanRun(s, Flat(rounds)) && Fair(rounds, |s.pcs|, Enough(l, m))
    requires forall r | 0 <= r < |rounds| :: Quiet(rounds[r])
    requires |rounds| >= BusyTasks(s.tasks, |s.tasks|)
    ensures var z := Run(s, Flat(rounds));
            Inv(z) && |z.tasks| == |s.tasks| && forall u | 0 <= u < |z.tasks| :: z.tasks[u].slot != Busy
    decreases |rounds|
  {
    NoBusy(s.tasks, |s.tasks|);
    if rounds != [] {
      Parts(s, rounds[0], Flat(rounds[1..]));
      var z := Run(s, rounds[0]);
      QuietRun(s, rounds[0], l, m);
      if BusyTasks(s.tasks, |s.tasks|) > 0 { RoundFinishes(s, rounds[0], l, m); } else { NoBusy(z.tasks, |z.tasks|); }
      AllFinishAnyway(z, rounds[1..], l, m);
    }
  }
}
