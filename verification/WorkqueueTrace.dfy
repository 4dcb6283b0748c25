/** What the actions of a run alone say of its tasks: where each was queued and
    with which dependencies, whose references leaked, and when its function was
    called and returned. */
module WorkqueueTrace {
  import opened Workqueue
  import opened WorkqueueRuns

  /** The dependencies taken since the last module was queued or given up. */
  function Pending(acts: seq<Action>): seq<nat> {
    if acts == [] then []
    else
      var before := Pending(acts[..|acts| - 1]);
      match acts[|acts| - 1]
      case Take(d) => before + [d]
      case Submit(_) => []
      case Abort => []
      case _ => before
  }

  datatype Birth = Birth(core: nat, deps: seq<nat>)

  /** The tasks queued, in order: a module's with what was taken for it, any
      other without dependencies. */
  function Born(acts: seq<Action>): seq<Birth> {
    if acts == [] then []
    else
      var front := acts[..|acts| - 1];
      match acts[|acts| - 1]
      case Submit(c) => Born(front) + [Birth(c, Pending(front))]
      case Detached(c) => Born(front) + [Birth(c, [])]
      case _ => Born(front)
  }

  /** How many of the references taken on `t` belong to modules given up. */
  function Abandoned(acts: seq<Action>, t: nat): nat {
    if acts == [] then 0
    else
      var front := acts[..|acts| - 1];
      Abandoned(front, t) + if acts[|acts| - 1] == Abort then multiset(Pending(front))[t] else 0
  }

  /** The worker's next step calls the function of `t`. */
  predicate Calls(s: State, a: Action, t: nat) {
    && a.Work? && a.c < |s.pcs| == |s.queues| && s.pcs[a.c].Call?
    && s.pcs[a.c].i < |s.queues[a.c]| && s.queues[a.c][s.pcs[a.c].i] == t
  }

  /** The function of `t`, called before, returns. */
  predicate Returns(s: State, a: Action, t: nat) {
    && a.Work? && a.c < |s.pcs| == |s.queues| && s.pcs[a.c].Exec?
    && s.pcs[a.c].i < |s.queues[a.c]| && s.queues[a.c][s.pcs[a.c].i] == t
  }

  // ---- one action more ---------------------------------------------------------------------

  lemma {:induction false} Shorter(s: State, acts: seq<Action>)
    requires acts != [] && CanRun(s, acts)
    ensures var front, a := acts[..|acts| - 1], acts[|acts| - 1];
            && CanRun(s, front) && Shape(Run(s, front)) && Enabled(Run(s, front), a)
            && Run(s, acts) == Act(Run(s, front), a)
    decreases |acts|
  {
    if |acts| > 1 {
      var z, rest := Act(s, acts[0]), acts[1..];
      Shorter(z, rest);
      var front := acts[..|acts| - 1];
      assert front[0] == acts[0] && front[1..] == rest[..|rest| - 1];
    }
  }

  /** Calls of the function of `t` in a run. */
  ghost function CallCount(s: State, acts: seq<Action>, t: nat): nat
    requires CanRun(s, acts)
  {
    if acts == [] then 0
    else
      Shorter(s, acts);
      var front := acts[..|acts| - 1];
      CallCount(s, front, t) + if Calls(Run(s, front), acts[|acts| - 1], t) then 1 else 0
  }

  ghost function ReturnCount(s: State, acts: seq<Action>, t: nat): nat
    requires CanRun(s, acts)
  {
    if acts == [] then 0
    else
      Shorter(s, acts);
      var front := acts[..|acts| - 1];
      ReturnCount(s, front, t) + if Returns(Run(s, front), acts[|acts| - 1], t) then 1 else 0
  }

  /** What a task's record keeps from its making on. */
  predicate Kin(k: Task, m: Task) {
    m.core == k.core && m.deps == k.deps && m.leaked == k.leaked
  }

  lemma {:induction false} StepKin(s: State, c: nat, t: nat)
    requires Shape(s) && c < |s.pcs| && t < |s.tasks|
    ensures |Step(s, c).tasks| == |s.tasks| && Kin(s.tasks[t], Step(s, c).tasks[t])
    ensures Step(s, c).building == s.building
  {
    assert PcShape(s, c);
  }

  lemma {:induction false} StepCalls(s: State, c: nat, t: nat)
    requires Shape(s) && c < |s.pcs| && t < |s.tasks|
    ensures |Step(s, c).tasks| == |s.tasks|
    ensures Step(s, c).tasks[t].starts == s.tasks[t].starts + if Calls(s, Work(c), t) then 1 else 0
    ensures Step(s, c).tasks[t].returned == (s.tasks[t].returned || Returns(s, Work(c), t))
  {
    assert PcShape(s, c);
  }

  lemma {:induction false} Leaks(tasks: seq<Task>, lost: seq<nat>, t: nat)
    requires t < |tasks| && forall j | 0 <= j < |lost| :: lost[j] < |tasks|
    ensures Leak(tasks, lost)[t] == tasks[t].(leaked := tasks[t].leaked + multiset(lost)[t])
  {
    if lost != [] {
      var front := lost[..|lost| - 1];
      assert lost == front + [lost[|lost| - 1]];
      Leaks(tasks, front, t);
    }
  }

  // ---- the theorem ----------------------------------------------------------------------------

  /** The state agrees with what the actions say. */
  ghost predicate Agrees(s: State, acts: seq<Action>) {
    && s.building == Pending(acts) && |s.tasks| == |Born(acts)|
    && forall t | 0 <= t < |s.tasks| :: TaskAgrees(s.tasks[t], acts, t)
  }

  ghost predicate TaskAgrees(k: Task, acts: seq<Action>, t: nat) {
    && t < |Born(acts)| && Birth(k.core, k.deps) == Born(acts)[t]
    && k.leaked == Abandoned(acts, t)
  }

  /** How an action changes what the actions are compared with. */
  lemma {:induction false} ActGrows(s: State, a: Action)
    requires Shape(s) && Enabled(s, a)
    ensures |Act(s, a).tasks| == |s.tasks| + if a.Submit? || a.Detached? then 1 else 0
  {
    if a.Work? { StepSize(s, a.c); }
  }

  lemma {:induction false} StepSize(s: State, c: nat)
    requires Shape(s) && c < |s.pcs|
    ensures |Step(s, c).tasks| == |s.tasks| && Step(s, c).building == s.building
  {
    assert PcShape(s, c);
  }

  /** Nothing has happened to a task not yet queued. */
  lemma {:induction false} Unborn(cores: nat, acts: seq<Action>, t: nat)
    requires CanRun(Start(cores), acts) && t >= |Run(Start(cores), acts).tasks|
    ensures t !in Pending(acts) && Abandoned(acts, t) == 0
    ensures CallCount(Start(cores), acts, t) == 0 && ReturnCount(Start(cores), acts, t) == 0
    decreases |acts|
  {
    if acts != [] {
      var front, a := acts[..|acts| - 1], acts[|acts| - 1];
      Shorter(Start(cores), acts);
      ActGrows(Run(Start(cores), front), a);
      Unborn(cores, front, t);
    }
  }

  lemma {:induction false} ActBuilding(s: State, a: Action, acts: seq<Action>)
    requires Shape(s) && Enabled(s, a) && s.building == Pending(acts) && |s.tasks| == |Born(acts)|
    ensures Act(s, a).building == Pending(acts + [a]) && |Act(s, a).tasks| == |Born(acts + [a])|
  {
    assert (acts + [a])[..|acts|] == acts;
    ActGrows(s, a);
    if a.Work? { StepSize(s, a.c); }
  }

  lemma {:induction false} ActTask(s: State, a: Action, acts: seq<Action>, t: nat)
    requires Inv(s) && Enabled(s, a) && s.building == Pending(acts)
    requires t < |s.tasks| <= |Act(s, a).tasks| && TaskAgrees(s.tasks[t], acts, t)
    ensures TaskAgrees(Act(s, a).tasks[t], acts + [a], t)
  {
    assert (acts + [a])[..|acts|] == acts;
    match a
    case Work(c) => StepKin(s, c, t);
    case Abort => Leaks(s.tasks, s.building, t);
    case _ =>
  }

  lemma {:induction false} ActNew(s: State, a: Action, acts: seq<Action>, t: nat)
    requires Inv(s) && Enabled(s, a) && s.building == Pending(acts) && |s.tasks| == |Born(acts)|
    requires (a.Submit? || a.Detached?) && t == |s.tasks| && Abandoned(acts, t) == 0
    ensures t < |Act(s, a).tasks| && TaskAgrees(Act(s, a).tasks[t], acts + [a], t)
  {
    assert (acts + [a])[..|acts|] == acts;
  }

  lemma {:induction false} ActAgrees(s: State, a: Action, acts: seq<Action>)
    requires Inv(s) && Enabled(s, a) && Agrees(s, acts) && Abandoned(acts, |s.tasks|) == 0
    ensures Agrees(Act(s, a), acts + [a])
  {
    var z := Act(s, a);
    ActBuilding(s, a, acts);
    ActGrows(s, a);
    forall t | 0 <= t < |z.tasks| ensures TaskAgrees(z.tasks[t], acts + [a], t) {
      if t < |s.tasks| { ActTask(s, a, acts, t); } else { ActNew(s, a, acts, t); }
    }
  }

  /** In every run the queued tasks are those the actions queued, each on the
      core and with the dependencies its submitter gave it, and the only
      references leaked are those of modules given up. */
  lemma {:induction false} EveryTaskAsSubmitted(cores: nat, acts: seq<Action>)
    requires CanRun(Start(cores), acts)
    ensures Agrees(Run(Start(cores), acts), acts)
    decreases |acts|
  {
    if acts != [] {
      var front, a := acts[..|acts| - 1], acts[|acts| - 1];
      Shorter(Start(cores), acts);
      EveryTaskAsSubmitted(cores, front);
      var s := Run(Start(cores), front);
      Reachable(cores, front);
      Unborn(cores, front, |s.tasks|);
      ActAgrees(s, a, front);
      assert front + [a] == acts;
    }
  }

  // ---- calls ------------------------------------------------------------------------------------

  lemma {:induction false} ActCalls(s: State, a: Action, t: nat)
    requires Inv(s) && Enabled(s, a) && t < |Act(s, a).tasks|
    ensures var k := Act(s, a).tasks[t];
            && k.starts == (if t < |s.tasks| then s.tasks[t].starts else 0) + (if Calls(s, a, t) then 1 else 0)
            && k.returned == ((t < |s.tasks| && s.tasks[t].returned) || Returns(s, a, t))
  {
    ActGrows(s, a);
    match a
    case Work(c) => StepCalls(s, c, t);
    case Abort => Leaks(s.tasks, s.building, t);
    case _ =>
  }

  /** `starts` and `returned` record the calls and the returns of the run. */
  lemma {:induction false} CallsRecorded(cores: nat, acts: seq<Action>, t: nat)
    requires CanRun(Start(cores), acts) && t < |Run(Start(cores), acts).tasks|
    ensures var k := Run(Start(cores), acts).tasks[t];
            && k.starts == CallCount(Start(cores), acts, t)
            && (k.returned <==> ReturnCount(Start(cores), acts, t) > 0)
    decreases |acts|
  {
    if acts != [] {
      var front, a := acts[..|acts| - 1], acts[|acts| - 1];
      Shorter(Start(cores), acts);
      var s := Run(Start(cores), front);
      Reachable(cores, front);
      ActCalls(s, a, t);
      if t < |s.tasks| { CallsRecorded(cores, front, t); } else { Unborn(cores, front, t); }
    }
  }

  /** In every run the function of a task is called at most once, and not before
      the functions of all the dependencies its submitter took have returned. */
  lemma {:induction false} CalledOnceAfterDependencies(cores: nat, acts: seq<Action>, a: Action, t: nat, j: nat)
    requires CanRun(Start(cores), acts + [a]) && CanRun(Start(cores), acts)
    requires Calls(Run(Start(cores), acts), a, t)
    ensures CallCount(Start(cores), acts, t) == 0 && t < |Born(acts)|
    ensures j < |Born(acts)[t].deps| ==> ReturnCount(Start(cores), acts, Born(acts)[t].deps[j]) > 0
  {
    var s := Run(Start(cores), acts);
    Reachable(cores, acts);
    LastEnabled(Start(cores), acts, a);
    EveryTaskAsSubmitted(cores, acts);
    CallsRecorded(cores, acts, t);
    assert TaskAgrees(s.tasks[t], acts, t);
    ActKeeps(s, a);
    ActCalls(s, a, t);
    var z := Act(s, a);
    RunsOnceAfterDependencies(z, t);
    if j < |s.tasks[t].deps| {
      var d := s.tasks[t].deps[j];
      StepKin(s, a.c, t);
      assert z.tasks[z.tasks[t].deps[j]].returned;
      ActCalls(s, a, d);
      CallsRecorded(cores, acts, d);
    }
  }

  // ---- when a worker sleeps --------------------------------------------------------------------

  lemma {:induction false} OutstandingNone(tasks: seq<Task>, c: nat, n: nat)
    requires n <= |tasks| && forall t | 0 <= t < n && tasks[t].core == c :: tasks[t].counted
    ensures Outstanding(tasks, c, n) == 0
  {
    if n > 0 { OutstandingNone(tasks, c, n - 1); }
  }

  /** In every reachable state: an idle worker whose submitters have counted their
      tasks sleeps on if and only if every task ever queued on its core is done. */
  lemma {:induction false} SleepsWhenDone(s: State, c: nat)
    requires Inv(s) && c < |s.pcs| && s.pcs[c] == Idle && c !in s.uncounted
    ensures Step(s, c) == s <==> forall t | 0 <= t < |s.tasks| && s.tasks[t].core == c :: Done(s.tasks[t])
  {
    assert Counted(s, c);
    LeftNone(s.uncounted, 0, c);
    forall t | 0 <= t < |s.tasks| && s.tasks[t].core == c
      ensures s.tasks[t].counted <==> Done(s.tasks[t])
    {
      assert TaskInv(s, t);
    }
    if t :| 0 <= t < |s.tasks| && s.tasks[t].core == c && !s.tasks[t].counted {
      OutstandingSome(s.tasks, t, |s.tasks|);
    } else {
      OutstandingNone(s.tasks, c, |s.tasks|);
    }
  }

  // ---- what the loader can always do -------------------------------------------------------------

  /** The loader has taken `ds`, and nothing else has changed for it. */
  ghost predicate HasTaken(s: State, z: State, ds: seq<nat>) {
    && z.caller == Working && !z.releasing && z.building == s.building + ds
    && |z.tasks| == |s.tasks| && z.pcs == s.pcs
  }

  lemma {:induction false} TakenMore(s: State, x: State, z: State, ds: seq<nat>)
    requires ds != [] && HasTaken(s, x, [ds[0]]) && HasTaken(x, z, ds[1..])
    ensures HasTaken(s, z, ds)
  {
    assert s.building + [ds[0]] + ds[1..] == s.building + ds;
  }

  lemma {:induction false} CanTake(s: State, ds: seq<nat>) returns (acts: seq<Action>)
    requires Inv(s) && s.caller == Working && !s.releasing && forall j | 0 <= j < |ds| :: ds[j] < |s.tasks|
    ensures CanRun(s, acts) && Inv(Run(s, acts)) && HasTaken(s, Run(s, acts), ds)
    decreases |ds|
  {
    if ds == [] {
      acts := [];
    } else {
      var a := Take(ds[0]);
      ActKeeps(s, a);
      var rest := CanTake(Act(s, a), ds[1..]);
      Then(s, a, rest);
      acts := [a] + rest;
      TakenMore(s, Act(s, a), Run(s, acts), ds);
    }
  }

  /** Steps left of the cleanup pass of worker `c`. */
  function Cleaning(s: State, c: nat): int
    requires c < |s.pcs| == |s.queues|
  {
    match s.pcs[c]
    case Sweep(i) => 2 * (|s.queues[c]| - i) + 1
    case Reap(i) => 2 * (|s.queues[c]| - i)
    case _ => 0
  }

  lemma {:induction false} CleaningEnds(s: State, c: nat) returns (acts: seq<Action>)
    requires Inv(s) && c < |s.pcs|
    ensures CanRun(s, acts)
    ensures var z := Run(s, acts);
            && Inv(z) && |z.pcs| == |s.pcs| && !Locked(z.pcs[c]) && z.caller == s.caller && z.releasing == s.releasing
            && z.building == s.building && |z.tasks| == |s.tasks|
    decreases Cleaning(s, c)
  {
    if Locked(s.pcs[c]) {
      assert PcShape(s, c);
      var z := Act(s, Work(c));
      ActKeeps(s, Work(c));
      CleanStep(s, z, c);
      var rest := CleaningEnds(z, c);
      acts := [Work(c)] + rest;
      Then(s, Work(c), rest);
    } else {
      acts := [];
    }
  }

  lemma {:induction false} CleanStep(s: State, z: State, c: nat)
    requires Shape(s) && c < |s.pcs| && Locked(s.pcs[c]) && z == Step(s, c) && |z.pcs| == |z.queues|
    ensures |z.pcs| == |s.pcs| && |z.tasks| == |s.tasks| && 0 <= Cleaning(z, c) < Cleaning(s, c)
    ensures z.caller == s.caller && z.releasing == s.releasing && z.building == s.building
  {
    assert PcShape(s, c);
  }

  /** From every reachable state before the releases, a module with any
      dependencies queued so far can be queued on any core. */
  lemma {:induction false} AnyModuleCanBeQueued(s: State, c: nat, ds: seq<nat>) returns (acts: seq<Action>)
    requires Inv(s) && s.caller == Working && !s.releasing && c < |s.pcs|
    requires forall j | 0 <= j < |ds| :: ds[j] < |s.tasks|
    ensures CanRun(s, acts)
    ensures var z := Run(s, acts);
            && |z.tasks| == |s.tasks| + 1 && z.building == []
            && z.tasks[|s.tasks|].core == c && z.tasks[|s.tasks|].deps == s.building + ds
  {
    var clean := CleaningEnds(s, c);
    var y := Run(s, clean);
    var takes := CanTake(y, ds);
    var x := Run(y, takes);
    Then(x, Submit(c), []);
    assert [Submit(c)] + [] == [Submit(c)];
    Append(y, takes, [Submit(c)]);
    Append(s, clean, takes + [Submit(c)]);
    acts := clean + (takes + [Submit(c)]);
  }

  /** It can also be given up there, and then exactly the references taken for it leak. */
  lemma {:induction false} AnyModuleCanBeGivenUp(s: State, d: nat, t: nat)
    requires Inv(s) && s.caller == Working && !s.releasing && d < |s.tasks| && t < |s.tasks|
    ensures CanRun(s, [Take(d), Abort])
    ensures var z := Run(s, [Take(d), Abort]);
            && z.building == [] && |z.tasks| == |s.tasks|
            && z.tasks[t].leaked == s.tasks[t].leaked + multiset(s.building + [d])[t]
  {
    var y := Act(s, Take(d));
    ActKeeps(s, Take(d));
    Leaks(y.tasks, y.building, t);
    Then(y, Abort, []);
    Then(s, Take(d), [Abort]);
    assert [Take(d)] + [Abort] == [Take(d), Abort] && [Abort] + [] == [Abort];
  }
}
