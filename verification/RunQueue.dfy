/** A core's run queue: the ring of `scheduler_queue_t` nodes, attaching,
    detaching, and the selection loop of `scheduler_resume_point`. */
module RunQueue {
  import opened Lists
  import opened Ring

  datatype ThreadState = Create | Ready | Running | Terminated | Blocked

  class Thread {
    var state: ThreadState
    constructor (s: ThreadState)
      ensures state == s
    {
      state := s;
    }
  }

  predicate Runnable(v: Node<Thread?>)
    reads v.data
  {
    v.data != null && (v.data.state == Running || v.data.state == Ready)
  }

  /** A node the scheduler passes over: without a thread, or with one that has
      not started, has ended, or is blocked. */
  predicate Unready(v: Node<Thread?>)
    reads v.data
  {
    v.data == null || v.data.state == Create || v.data.state == Terminated || v.data.state == Blocked
  }

  /** The first ready position among the `k` positions from `i` on, or -1. */
  function NextReady(ready: seq<bool>, i: nat, k: nat): (r: int)
    requires i < |ready|
    ensures -1 <= r < |ready|
    decreases k
  {
    if k == 0 then -1 else if ready[i] then i else NextReady(ready, Succ(i, |ready|), k - 1)
  }

  /** The position chosen when position `at` (or none, -1) ran last: the first
      ready one strictly after it, once around. */
  function Pick(ready: seq<bool>, at: int): (r: int)
    requires -1 <= at < |ready|
    ensures -1 <= r < |ready|
  {
    if ready == [] then -1
    else NextReady(ready, Succ(if at == -1 then 0 else at, |ready|), |ready|)
  }

  class Queue {
    var head: Node?<Thread?>
    var last: Node?<Thread?>
    var current: Node?<Thread?>
    ghost var ring: seq<Node<Thread?>>
    ghost var at: int

    ghost predicate Valid()
      reads this, ring
    {
      && Linked(ring)
      && -1 <= at < |ring|
      && head == (if ring == [] then null else ring[0])
      && last == (if ring == [] then null else ring[|ring| - 1])
      && current == (if at == -1 then null else ring[at])
    }

    constructor ()
      ensures Valid() && ring == [] && at == -1
    {
      head := null;
      last := null;
      current := null;
      ring := [];
      at := -1;
    }

    /** Attaching puts the thread at the end of the ring. */
    method Attach(t: Thread?, memory: bool) returns (v: Node?<Thread?>)
      requires Valid()
      modifies this`head, this`last, this`ring, ring
      ensures Valid()
      ensures v == null <==> !memory
      ensures v != null ==> fresh(v) && v.data == t
      ensures ring == if v == null then old(ring) else old(ring) + [v]
    {
      if !memory { return null; }
      v := new Node(t);
      if head == null {
        v.next := v;
        v.prev := v;
        head := v;
        last := v;
      } else {
        last.next := v;
        v.prev := last;
        v.next := head;
        head.prev := v;
        last := v;
      }
      ghost var n := |ring|;
      ring := ring + [v];
      forall i | 0 <= i < |ring| ensures Joined(ring[i], ring[Succ(i, |ring|)]) {
        if i + 1 < n { assert old(Joined(ring[i], ring[Succ(i, |ring|)])); }
      }
    }

    /** Detaching takes exactly that node out; if it ran last, its successor
        takes its place.  A node that is in no ring empties the whole queue. */
    method Detach(v: Node<Thread?>, ghost k: nat)
      requires Valid() && (if k < |ring| then ring[k] == v else v.next == null && v !in ring)
      modifies this, ring, v
      ensures Valid() && v.next == null && v.prev == null
      ensures ring == if k < |old(ring)| then Without(old(ring), k) else []
      ensures at == if k < |old(ring)| then AfterDetach(|old(ring)|, old(at), k) else -1
    {
      if v.next == v || v.next == null {
        head := null;
        last := null;
        current := null;
        if k < |ring| { assert Joined(ring[k], ring[Succ(k, |ring|)]); }
        ring := [];
        at := -1;
      } else {
        Unlink(v, k);
      }
      v.next := null;
      v.prev := null;
    }

    method Unlink(v: Node<Thread?>, ghost k: nat)
      requires Valid() && k < |ring| && ring[k] == v && v.next != v
      modifies this, ring
      ensures Valid() && v !in ring
      ensures ring == Without(old(ring), k)
      ensures at == AfterDetach(|old(ring)|, old(at), k)
    {
      Excise(v, ring, k);
      ghost var r, a := Without(ring, k), AfterDetach(|ring|, at, k);
      Ends(ring, k, at);
      var h := if head == v then v.next else head;
      var l := if last == v then v.prev else last;
      var c := if current == v then v.next else current;
      assert h == r[0] && l == r[|r| - 1] && c == if a == -1 then null else r[a];
      Point(h, l, c, r, a);
    }

    method Point(h: Node?<Thread?>, l: Node?<Thread?>, c: Node?<Thread?>, ghost r: seq<Node<Thread?>>, ghost a: int)
      requires Linked(r) && r != [] && -1 <= a < |r|
      requires h == r[0] && l == r[|r| - 1] && c == if a == -1 then null else r[a]
      modifies this
      ensures Valid() && ring == r && at == a
    {
      head, last, current, ring, at := h, l, c, r, a;
    }

    /** The selection loop finds the first runnable thread after the one that
        ran last, once around, and makes it the current one. */
    method Select(ghost ready: seq<bool>) returns (found: Node?<Thread?>)
      requires Valid() && |ready| == |ring| && forall i | 0 <= i < |ring| :: ready[i] == Runnable(ring[i])
      modifies this`current, this`at
      ensures Valid()
      ensures at == if Pick(ready, old(at)) == -1 then old(at) else Pick(ready, old(at))
      ensures found == if Pick(ready, old(at)) == -1 then null else ring[Pick(ready, old(at))]
      ensures found != null ==> !Unready(found)
      ensures found == null ==> forall i | 0 <= i < |ring| :: Unready(ring[i])
    {
      var start := current;
      if start == null { start := head; }
      if start == null { return null; }
      ghost var n := |ring|;
      ghost var begin := Succ(if at == -1 then 0 else at, n);
      assert Joined(ring[Pred(begin, n)], ring[begin]);
      var node := start.next;
      if node == null { node := head; }
      ghost var i;
      found, i := Search(node, ready, begin);
      if found != null {
        current := found;
        at := i;
      } else {
        NoneReady(ready, begin);
      }
    }

    /** Round the ring from `first`, at position `begin`, until a runnable thread is found. */
    method Search(first: Node<Thread?>, ghost ready: seq<bool>, ghost begin: nat)
      returns (found: Node?<Thread?>, ghost i: nat)
      requires Valid() && |ready| == |ring| && forall i | 0 <= i < |ring| :: ready[i] == Runnable(ring[i])
      requires begin < |ring| && first == ring[begin]
      ensures found == null <==> NextReady(ready, begin, |ring|) == -1
      ensures found != null ==> i == NextReady(ready, begin, |ring|) && found == ring[i] && Runnable(found)
    {
      var node := first;
      ghost var n := |ring|;
      ghost var left: nat := n;
      i := begin;
      while true
        invariant 0 < left <= n && i < n && node == ring[i]
        invariant i == begin + (n - left) || i == begin - left
        invariant NextReady(ready, begin, n) == NextReady(ready, i, left)
        decreases left
      {
        if Runnable(node) { return node, i; }
        assert Joined(ring[i], ring[Succ(i, n)]);
        node := node.next;
        if node == null { node := head; }
        i, left := Succ(i, n), left - 1;
        if node == first { return null, i; }
      }
    }
  }

  /** Where the first, the last and the current position go. */
  lemma Ends(ring: seq<Node<Thread?>>, k: nat, at: int)
    requires 1 < |ring| && k < |ring| && -1 <= at < |ring|
    ensures var n, r, a := |ring|, Without(ring, k), AfterDetach(|ring|, at, k);
            && r[0] == ring[if k == 0 then Succ(k, n) else 0]
            && r[n - 2] == ring[if k == n - 1 then Pred(k, n) else n - 1]
            && -1 <= a < n - 1 && (a == -1 <==> at == -1)
            && (at >= 0 ==> r[a] == ring[if at == k then Succ(k, n) else at])
  {
  }

  function AfterDetach(n: nat, at: int, k: nat): int
    requires k < n
  {
    if n == 1 then -1 else if at == k == n - 1 then 0 else if at > k then at - 1 else at
  }

  // ---- what the selection means ----------------------------------------------------

  /** Steps forward from position `i` to position `x` of a ring of `n`. */
  function From(i: nat, x: nat, n: nat): nat
    requires i < n && x < n
  {
    if x >= i then x - i else x - i + n
  }

  lemma {:induction false} NextNearest(ready: seq<bool>, i: nat, k: nat, x: nat)
    requires i < |ready| && x < |ready| && ready[x] && From(i, x, |ready|) < k <= |ready|
    ensures var r := NextReady(ready, i, k);
            r >= 0 && ready[r] && From(i, r, |ready|) <= From(i, x, |ready|)
    decreases k
  {
    if !ready[i] { NextNearest(ready, Succ(i, |ready|), k - 1, x); }
  }

  lemma {:induction false} NoneReady(ready: seq<bool>, i: nat)
    requires i < |ready| && NextReady(ready, i, |ready|) == -1
    ensures forall k | 0 <= k < |ready| :: !ready[k]
  {
    forall k | 0 <= k < |ready| ensures !ready[k] { if ready[k] { NextNearest(ready, i, |ready|, k); } }
  }

  lemma {:induction false} NextIsReady(ready: seq<bool>, i: nat, k: nat)
    requires i < |ready|
    ensures NextReady(ready, i, k) >= 0 ==> ready[NextReady(ready, i, k)]
    decreases k
  {
    if k > 0 && !ready[i] { NextIsReady(ready, Succ(i, |ready|), k - 1); }
  }

  /** How many selections away position `x` is at most: its distance from the
      position that ran last, a full round for that position itself. */
  function Gap(n: nat, at: int, x: nat): nat
    requires -1 <= at < n && x < n
  {
    1 + From(Succ(if at == -1 then 0 else at, n), x, n)
  }

  /** A thread is found if and only if one is runnable, and it is the nearest one. */
  lemma {:induction false} PickIsNearest(ready: seq<bool>, at: int)
    requires -1 <= at < |ready|
    ensures Pick(ready, at) == -1 <==> forall x | 0 <= x < |ready| :: !ready[x]
    ensures Pick(ready, at) >= 0 ==> ready[Pick(ready, at)]
    ensures forall x | 0 <= x < |ready| && ready[x] :: Gap(|ready|, at, Pick(ready, at)) <= Gap(|ready|, at, x)
  {
    if ready != [] {
      var begin := Succ(if at == -1 then 0 else at, |ready|);
      NextIsReady(ready, begin, |ready|);
      forall x | 0 <= x < |ready| && ready[x]
        ensures Pick(ready, at) >= 0 && Gap(|ready|, at, Pick(ready, at)) <= Gap(|ready|, at, x)
      {
        NextNearest(ready, begin, |ready|, x);
      }
    }
  }

  // ---- the search of the timer tick after a detach ------------------------------------

  /** When the tick has detached the node it starts from, that node has no
      successor: the search goes to the head of the ring and round it until it
      finds a runnable thread or comes back to its start, which is not there.
      `k` steps of it. */
  function TickSearch(ready: seq<bool>, k: nat): (r: int)
    requires ready != []
    ensures -1 <= r < |ready|
  {
    NextReady(ready, 0, k)
  }

  lemma {:induction false} NextFinds(ready: seq<bool>, i: nat, k: nat, m: nat)
    requires i < |ready| && k <= m && NextReady(ready, i, k) >= 0
    ensures NextReady(ready, i, m) == NextReady(ready, i, k)
    decreases k
  {
    if !ready[i] { NextFinds(ready, Succ(i, |ready|), k - 1, m - 1); }
  }

  /** That search ends if and only if some thread is runnable, and then within
      one round. */
  lemma {:induction false} TickSearchEnds(ready: seq<bool>)
    requires ready != []
    ensures (exists k: nat :: TickSearch(ready, k) >= 0) <==> (exists x: nat | x < |ready| :: ready[x])
    ensures (exists k: nat :: TickSearch(ready, k) >= 0) <==> TickSearch(ready, |ready|) >= 0
  {
    if x: nat :| x < |ready| && ready[x] {
      NextNearest(ready, 0, |ready|, x);
      assert TickSearch(ready, |ready|) >= 0;
    }
    if k: nat :| TickSearch(ready, k) >= 0 {
      NextIsReady(ready, 0, k);
      var r: nat := TickSearch(ready, k);
      assert ready[r];
      if k <= |ready| { NextFinds(ready, 0, k, |ready|); }
    }
  }

  /** What it finds is the first runnable thread from the head of the ring on. */
  lemma {:induction false} TickSearchFirst(ready: seq<bool>, x: nat)
    requires x < |ready| && ready[x]
    ensures var r := TickSearch(ready, |ready|); 0 <= r <= x && ready[r]
  {
    NextNearest(ready, 0, |ready|, x);
  }

  // ---- how long a thread waits -------------------------------------------------------

  /** Where position `x` goes when position `k` is taken out. */
  function Shifted(x: nat, k: nat): nat
    requires x != k
  {
    if x > k then x - 1 else x
  }

  /** Position `k` ran last and `x` is its successor, which takes over as the
      current one without having run. */
  predicate PassedOver(n: nat, at: int, k: nat, x: nat)
    requires -1 <= at < n && k < n
  {
    n > 2 && k == (if at == -1 then 0 else at) && x == Succ(k, n)
  }

  /** A detach makes a thread wait longer if and only if it passes the thread
      over; then it waits a full round. */
  lemma DetachDelays(n: nat, at: int, k: nat, x: nat)
    requires -1 <= at < n && k < n && x < n && x != k
    ensures Gap(n - 1, AfterDetach(n, at, k), Shifted(x, k)) > Gap(n, at, x) <==> PassedOver(n, at, k, x)
    ensures PassedOver(n, at, k, x) ==>
              Gap(n, at, x) == 1 && Gap(n - 1, AfterDetach(n, at, k), Shifted(x, k)) == n - 1
  {
  }

  datatype Event = Choose(ready: seq<bool>) | Attached | Detached(k: nat)

  /** `events` can happen to a ring of `n` nodes, and the thread at `x` stays
      and is runnable at every selection. */
  predicate StaysReady(n: nat, events: seq<Event>, x: nat)
    requires x < n
    decreases |events|
  {
    events == [] ||
    match events[0]
    case Choose(ready) => |ready| == n && ready[x] && StaysReady(n, events[1..], x)
    case Attached => StaysReady(n + 1, events[1..], x)
    case Detached(k) => k < n && k != x && StaysReady(n - 1, events[1..], Shifted(x, k))
  }

  predicate Chosen(n: nat, at: int, events: seq<Event>, x: nat)
    requires x < n && -1 <= at < n && StaysReady(n, events, x)
    decreases |events|
  {
    events != [] &&
    match events[0]
    case Choose(ready) =>
      var y := Pick(ready, at);
      y == x || Chosen(n, if y == -1 then at else y, events[1..], x)
    case Attached => Chosen(n + 1, at, events[1..], x)
    case Detached(k) => Chosen(n - 1, AfterDetach(n, at, k), events[1..], Shifted(x, k))
  }

  function Selections(events: seq<Event>): nat {
    if events == [] then 0 else (if events[0].Choose? then 1 else 0) + Selections(events[1..])
  }

  /** What the events before it is chosen add to the wait of thread `x`: a
      selection for each node attached, the rest of a round for each detach
      that passes it over, and nothing for any other detach. */
  function Added(n: nat, at: int, events: seq<Event>, x: nat): nat
    requires x < n && -1 <= at < n && StaysReady(n, events, x)
    decreases |events|
  {
    if events == [] then 0
    else
      match events[0]
      case Choose(ready) =>
        var y := Pick(ready, at);
        if y == x then 0 else Added(n, if y == -1 then at else y, events[1..], x)
      case Attached => 1 + Added(n + 1, at, events[1..], x)
      case Detached(k) =>
        (if PassedOver(n, at, k, x) then n - 2 else 0)
        + Added(n - 1, AfterDetach(n, at, k), events[1..], Shifted(x, k))
  }

  lemma AttachDelays(n: nat, at: int, x: nat)
    requires -1 <= at < n && x < n
    ensures Gap(n + 1, at, x) <= Gap(n, at, x) + 1
  {
  }

  lemma ChooseNearer(n: nat, at: int, y: nat, x: nat)
    requires -1 <= at < n && x < n && y < n && x != y && Gap(n, at, y) <= Gap(n, at, x)
    ensures Gap(n, y, x) <= Gap(n, at, x) - 1
  {
  }

  lemma {:induction false} ChosenWithin(n: nat, at: int, events: seq<Event>, x: nat)
    requires x < n && -1 <= at < n && StaysReady(n, events, x)
    requires Selections(events) >= Gap(n, at, x) + Added(n, at, events, x)
    ensures Chosen(n, at, events, x)
    decreases |events|
  {
    if events != [] {
      match events[0]
      case Choose(ready) =>
        PickIsNearest(ready, at);
        var y := Pick(ready, at);
        if y != x {
          ChooseNearer(n, at, y, x);
          ChosenWithin(n, y, events[1..], x);
        }
      case Attached =>
        AttachDelays(n, at, x);
        ChosenWithin(n + 1, at, events[1..], x);
      case Detached(k) =>
        DetachDelays(n, at, k, x);
        ChosenWithin(n - 1, AfterDetach(n, at, k), events[1..], Shifted(x, k));
    }
  }

  /** Round robin: a thread that stays runnable is chosen within as many
      selections as the ring has nodes, plus what the attaches and detaches
      meanwhile add. */
  lemma {:induction false} RoundRobin(n: nat, at: int, events: seq<Event>, x: nat)
    requires x < n && -1 <= at < n && StaysReady(n, events, x)
    requires Selections(events) >= n + Added(n, at, events, x)
    ensures Chosen(n, at, events, x)
  {
    assert Gap(n, at, x) <= n;
    ChosenWithin(n, at, events, x);
  }

  /** No detach passes the thread over before it is chosen. */
  predicate NeverPassedOver(n: nat, at: int, events: seq<Event>, x: nat)
    requires x < n && -1 <= at < n && StaysReady(n, events, x)
    decreases |events|
  {
    events == [] ||
    match events[0]
    case Choose(ready) =>
      var y := Pick(ready, at);
      y == x || NeverPassedOver(n, if y == -1 then at else y, events[1..], x)
    case Attached => NeverPassedOver(n + 1, at, events[1..], x)
    case Detached(k) =>
      !PassedOver(n, at, k, x) && NeverPassedOver(n - 1, AfterDetach(n, at, k), events[1..], Shifted(x, k))
  }

  function Attaches(events: seq<Event>): nat {
    if events == [] then 0 else (if events[0].Attached? then 1 else 0) + Attaches(events[1..])
  }

  lemma {:induction false} OnlyAttachesAdd(n: nat, at: int, events: seq<Event>, x: nat)
    requires x < n && -1 <= at < n && StaysReady(n, events, x) && NeverPassedOver(n, at, events, x)
    ensures Added(n, at, events, x) <= Attaches(events)
    decreases |events|
  {
    if events != [] {
      match events[0]
      case Choose(ready) =>
        var y := Pick(ready, at);
        if y != x { OnlyAttachesAdd(n, if y == -1 then at else y, events[1..], x); }
      case Attached => OnlyAttachesAdd(n + 1, at, events[1..], x);
      case Detached(k) => OnlyAttachesAdd(n - 1, AfterDetach(n, at, k), events[1..], Shifted(x, k));
    }
  }

  /** A thread that is never passed over is chosen within one round, counting
      the nodes attached meanwhile, whatever else is detached. */
  lemma {:induction false} WithinOneRound(n: nat, at: int, events: seq<Event>, x: nat)
    requires x < n && -1 <= at < n && StaysReady(n, events, x) && NeverPassedOver(n, at, events, x)
    requires Selections(events) >= n + Attaches(events)
    ensures Chosen(n, at, events, x)
  {
    OnlyAttachesAdd(n, at, events, x);
    RoundRobin(n, at, events, x);
  }

  lemma {:induction false} Unchosen(n: nat, at: int, e: Event, rest: seq<Event>, x: nat)
    requires x < n && -1 <= at < n
    ensures Selections([e] + rest) == Selections(rest) + (if e.Choose? then 1 else 0)
    ensures Attaches([e] + rest) == Attaches(rest) + (if e.Attached? then 1 else 0)
    ensures e.Choose? && |e.ready| == n && e.ready[x] && StaysReady(n, rest, x) && Pick(e.ready, at) >= 0
            && Pick(e.ready, at) != x && !Chosen(n, Pick(e.ready, at), rest, x) ==>
              StaysReady(n, [e] + rest, x) && !Chosen(n, at, [e] + rest, x)
    ensures e.Detached? && e.k < n && e.k != x && StaysReady(n - 1, rest, Shifted(x, e.k))
            && !Chosen(n - 1, AfterDetach(n, at, e.k), rest, Shifted(x, e.k)) ==>
              StaysReady(n, [e] + rest, x) && !Chosen(n, at, [e] + rest, x)
  {
    assert ([e] + rest)[1..] == rest;
  }

  lemma AllReady(ready: seq<bool>, at: nat)
    requires at < |ready| && forall i | 0 <= i < |ready| :: ready[i]
    ensures Pick(ready, at) == Succ(at, |ready|)
  {
  }

  /** A thread that is passed over may wait longer: in a ring of three it is not
      chosen in three selections. */
  lemma {:induction false} PassedOverWaits() returns (n: nat, at: int, events: seq<Event>, x: nat)
    ensures x < n && -1 <= at < n && StaysReady(n, events, x)
    ensures Attaches(events) == 0 && Selections(events) >= n && !Chosen(n, at, events, x)
  {
    n, at, x := 3, 0, 0;
    var three, two := [true, true, true], [true, true];
    var none: seq<Event> := [];
    AllReady(three, 0);
    AllReady(three, 1);
    AllReady(two, 0);
    Unchosen(2, 0, Choose(two), none, x);
    var last := [Choose(two)] + none;
    Unchosen(3, 2, Detached(2), last, x);
    var rest := [Detached(2)] + last;
    Unchosen(3, 1, Choose(three), rest, x);
    Unchosen(3, 0, Choose(three), [Choose(three)] + rest, x);
    events := [Choose(three)] + ([Choose(three)] + rest);
  }
}
