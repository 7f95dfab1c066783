/** `runAll`: one goroutine per target, a buffered channel as a semaphore, a wait group, and
    a buffered channel of results that is closed and drained. Every step below is one
    operation of one goroutine, and any enabled step may be taken next. */
module WorkerPool {
  import opened Base

  /** Deferred calls run last first: the permit goes back before the wait group is told. */
  datatype Worker = Absent | Waiting | Probing | Sending | Releasing | Finishing | Gone

  datatype Main = Spawning(next: nat) | Closing | Draining | Returned

  /** `permits` is the number of values in the semaphore channel, `outbox` the contents of
      the result channel, `results` the slice under construction. `outcome[i]` is what
      probing target `i` yields. */
  datatype Pool<R> = Pool(
    outcome: seq<R>, capacity: nat, workers: seq<Worker>, main: Main,
    permits: nat, pending: int, outbox: seq<R>, closed: bool, results: seq<R>)

  datatype Step = Spawn | Join | Close | Drain | Return | Acquire(i: nat) | Probe(i: nat) | Deliver(i: nat)
    | Release(i: nat) | Done(i: nat)

  function Clamp(conc: int): nat { if conc < 1 then 1 else conc }

  /** The state in which `runAll` starts; `capacity` is the semaphore's. */
  function Start<R>(outcome: seq<R>, capacity: nat): Pool<R> {
    Pool(outcome, capacity, seq(|outcome|, _ => Absent), Spawning(0), 0, 0, [], false, [])
  }

  predicate Is<R>(p: Pool<R>, i: nat, w: Worker) { i < |p.workers| && p.workers[i] == w }

  /** A send on a full channel and a receive from an empty one have no step; the two
      channel operations that would panic are not enabled either. */
  predicate Enabled<R>(p: Pool<R>, step: Step) {
    match step
    case Spawn => p.main.Spawning? && p.main.next < |p.workers|
    case Join => p.main.Spawning? && p.main.next >= |p.workers| && p.pending == 0
    case Close => p.main.Closing? && !p.closed
    case Drain => p.main.Draining? && |p.outbox| > 0
    case Return => p.main.Draining? && |p.outbox| == 0 && p.closed
    case Acquire(i) => Is(p, i, Waiting) && p.permits < p.capacity
    case Probe(i) => Is(p, i, Probing)
    case Deliver(i) => Is(p, i, Sending) && |p.outbox| < |p.outcome| && !p.closed && i < |p.outcome|
    case Release(i) => Is(p, i, Releasing) && p.permits > 0
    case Done(i) => Is(p, i, Finishing)
  }

  function Move<R>(p: Pool<R>, i: nat, w: Worker): Pool<R>
    requires i < |p.workers|
  {
    p.(workers := p.workers[i := w])
  }

  function Apply<R>(p: Pool<R>, step: Step): Pool<R>
    requires Enabled(p, step)
  {
    match step
    case Spawn => Move(p, p.main.next, Waiting).(main := Spawning(p.main.next + 1), pending := p.pending + 1)
    case Join => p.(main := Closing)
    case Close => p.(main := Draining, closed := true)
    case Drain => p.(outbox := p.outbox[1..], results := p.results + [p.outbox[0]])
    case Return => p.(main := Returned)
    case Acquire(i) => Move(p, i, Probing).(permits := p.permits + 1)
    case Probe(i) => Move(p, i, Sending)
    case Deliver(i) => Move(p, i, Releasing).(outbox := p.outbox + [p.outcome[i]])
    case Release(i) => Move(p, i, Finishing).(permits := p.permits - 1)
    case Done(i) => Move(p, i, Gone).(pending := p.pending - 1)
  }

  function Exec<R>(p: Pool<R>, steps: seq<Step>): Option<Pool<R>> {
    if |steps| == 0 then Some(p)
    else
      match Exec(p, steps[..|steps| - 1])
      case None => None
      case Some(q) => if Enabled(q, steps[|steps| - 1]) then Some(Apply(q, steps[|steps| - 1])) else None
  }

  // ---- counting workers ----

  predicate HoldsPermit(w: Worker) { w.Probing? || w.Sending? || w.Releasing? }
  predicate IsPending(w: Worker) { !w.Absent? && !w.Gone? }
  predicate HasDelivered(w: Worker) { w.Releasing? || w.Finishing? || w.Gone? }

  /** What is counted of a worker: whether it holds a permit, is pending or has delivered,
      or the steps it still has before it is gone, spawning included. */
  datatype Count = Permits | Pending | Deliveries | Steps

  function Weigh(c: Count, w: Worker): nat {
    match c
    case Permits => if HoldsPermit(w) then 1 else 0
    case Pending => if IsPending(w) then 1 else 0
    case Deliveries => if HasDelivered(w) then 1 else 0
    case Steps =>
      match w
      case Absent => 6 case Waiting => 5 case Probing => 4 case Sending => 3
      case Releasing => 2 case Finishing => 1 case Gone => 0
  }

  function Total(ws: seq<Worker>, c: Count): nat {
    if |ws| == 0 then 0 else Total(ws[..|ws| - 1], c) + Weigh(c, ws[|ws| - 1])
  }

  lemma {:induction false} TotalUpdate(ws: seq<Worker>, i: nat, w: Worker, c: Count)
    requires i < |ws|
    ensures Total(ws[i := w], c) == Total(ws, c) - Weigh(c, ws[i]) + Weigh(c, w)
    ensures Total(ws, c) >= Weigh(c, ws[i])
  {
    var n := |ws| - 1;
    if i < n {
      assert ws[i := w][..n] == ws[..n][i := w];
      TotalUpdate(ws[..n], i, w, c);
    } else {
      assert ws[i := w][..n] == ws[..n];
    }
  }

  lemma {:induction false} TotalUniform(ws: seq<Worker>, w: Worker, c: Count)
    requires forall i :: 0 <= i < |ws| ==> ws[i] == w
    ensures Total(ws, c) == |ws| * Weigh(c, w)
  {
    if |ws| > 0 {
      TotalUniform(ws[..|ws| - 1], w, c);
    }
  }

  lemma {:induction false} TotalZero(ws: seq<Worker>, c: Count, i: nat)
    requires Total(ws, c) == 0 && i < |ws|
    ensures Weigh(c, ws[i]) == 0
  {
    TotalUpdate(ws, i, ws[i], c);
  }

  /** What the workers that have delivered put into the result channel. */
  function Delivered<R>(ws: seq<Worker>, outcome: seq<R>): multiset<R>
    requires |ws| == |outcome|
  {
    if |ws| == 0 then multiset{}
    else
      var n := |ws| - 1;
      Delivered(ws[..n], outcome[..n]) + if HasDelivered(ws[n]) then multiset{outcome[n]} else multiset{}
  }

  lemma {:induction false} DeliveredUpdate<R>(ws: seq<Worker>, outcome: seq<R>, i: nat, w: Worker)
    requires |ws| == |outcome| && i < |ws|
    requires HasDelivered(ws[i]) ==> HasDelivered(w)
    ensures Delivered(ws[i := w], outcome) ==
      Delivered(ws, outcome) + if HasDelivered(w) && !HasDelivered(ws[i]) then multiset{outcome[i]} else multiset{}
  {
    var n := |ws| - 1;
    if i < n {
      assert ws[i := w][..n] == ws[..n][i := w];
      DeliveredUpdate(ws[..n], outcome[..n], i, w);
    } else {
      assert ws[i := w][..n] == ws[..n];
    }
  }

  lemma {:induction false} DeliveredAll<R>(ws: seq<Worker>, outcome: seq<R>)
    requires |ws| == |outcome| && forall i :: 0 <= i < |ws| ==> HasDelivered(ws[i])
    ensures Delivered(ws, outcome) == multiset(outcome)
  {
    if |ws| > 0 {
      var n := |ws| - 1;
      DeliveredAll(ws[..n], outcome[..n]);
      assert outcome == outcome[..n] + [outcome[n]];
    }
  }

  lemma {:induction false} DeliveredNone<R>(ws: seq<Worker>, outcome: seq<R>)
    requires |ws| == |outcome| && forall i :: 0 <= i < |ws| ==> !HasDelivered(ws[i])
    ensures Delivered(ws, outcome) == multiset{}
  {
    if |ws| > 0 {
      DeliveredNone(ws[..|ws| - 1], outcome[..|ws| - 1]);
    }
  }

  lemma {:induction false} DeliveredSize<R>(ws: seq<Worker>, outcome: seq<R>)
    requires |ws| == |outcome|
    ensures |Delivered(ws, outcome)| == Total(ws, Deliveries)
    ensures Total(ws, Deliveries) <= |ws|
  {
    if |ws| > 0 {
      DeliveredSize(ws[..|ws| - 1], outcome[..|ws| - 1]);
    }
  }

  // ---- the invariant ----

  predicate SpawnedSoFar<R>(p: Pool<R>) {
    match p.main
    case Spawning(next) =>
      next <= |p.workers| && forall i :: 0 <= i < |p.workers| ==> (p.workers[i].Absent? <==> i >= next)
    case _ => forall i :: 0 <= i < |p.workers| ==> p.workers[i].Gone?
  }

  ghost predicate Inv<R>(p: Pool<R>) {
    && |p.workers| == |p.outcome|
    && SpawnedSoFar(p)
    && p.permits == Total(p.workers, Permits)
    && p.pending == Total(p.workers, Pending)
    && p.permits <= p.capacity
    && multiset(p.outbox) + multiset(p.results) == Delivered(p.workers, p.outcome)
    && (p.closed <==> p.main.Draining? || p.main.Returned?)
    && (p.main.Returned? ==> p.outbox == [])
    && (!p.main.Draining? && !p.main.Returned? ==> p.results == [])
  }

  /** The steps still to come: it falls by exactly one each time. */
  function Remaining<R>(p: Pool<R>): int {
    Total(p.workers, Steps)
    + (match p.main case Spawning(_) => 3 case Closing => 2 case Draining => 1 case Returned => 0)
    + |p.outcome| - |p.results|
  }

  lemma {:induction false} StartOk<R>(outcome: seq<R>, capacity: nat)
    ensures Inv(Start(outcome, capacity)) && Remaining(Start(outcome, capacity)) == 7 * |outcome| + 3
  {
    var p := Start(outcome, capacity);
    TotalUniform(p.workers, Absent, Permits);
    TotalUniform(p.workers, Absent, Pending);
    TotalUniform(p.workers, Absent, Steps);
    DeliveredNone(p.workers, outcome);
  }

  lemma {:induction false} MoveCounts<R>(p: Pool<R>, i: nat, w: Worker)
    requires |p.workers| == |p.outcome| && i < |p.workers|
    ensures var q := Move(p, i, w);
      && Total(q.workers, Permits) == Total(p.workers, Permits) - Weigh(Permits, p.workers[i]) + Weigh(Permits, w)
      && Total(q.workers, Pending) == Total(p.workers, Pending) - Weigh(Pending, p.workers[i]) + Weigh(Pending, w)
      && Total(q.workers, Steps) == Total(p.workers, Steps) - Weigh(Steps, p.workers[i]) + Weigh(Steps, w)
  {
    TotalUpdate(p.workers, i, w, Permits);
    TotalUpdate(p.workers, i, w, Pending);
    TotalUpdate(p.workers, i, w, Steps);
  }

  /** A move that delivers nothing leaves what was delivered. */
  lemma {:induction false} QuietMove<R>(p: Pool<R>, i: nat, w: Worker)
    requires |p.workers| == |p.outcome| && i < |p.workers| && HasDelivered(p.workers[i]) == HasDelivered(w)
    ensures Delivered(Move(p, i, w).workers, p.outcome) == Delivered(p.workers, p.outcome)
  {
    DeliveredUpdate(p.workers, p.outcome, i, w);
  }

  lemma {:induction false} DeliveringMove<R>(p: Pool<R>, i: nat)
    requires |p.workers| == |p.outcome| && i < |p.workers| && p.workers[i].Sending?
    ensures Delivered(Move(p, i, Releasing).workers, p.outcome) ==
      Delivered(p.workers, p.outcome) + multiset{p.outcome[i]}
  {
    DeliveredUpdate(p.workers, p.outcome, i, Releasing);
  }

  /** A worker that moves was spawned, and everyone else stays as they are. */
  lemma {:induction false} MoveKeepsSpawned<R>(p: Pool<R>, i: nat, w: Worker)
    requires SpawnedSoFar(p) && i < |p.workers| && !p.workers[i].Absent? && !p.workers[i].Gone? && !w.Absent?
    ensures p.main.Spawning? && SpawnedSoFar(Move(p, i, w))
  {
  }

  ghost predicate StepOk<R>(p: Pool<R>, q: Pool<R>) {
    Inv(q) && Remaining(q) == Remaining(p) - 1 && q.capacity == p.capacity && q.outcome == p.outcome
  }

  lemma {:induction false} SpawnKeeps<R>(p: Pool<R>)
    requires Inv(p) && Enabled(p, Spawn)
    ensures StepOk(p, Apply(p, Spawn))
  {
    MoveCounts(p, p.main.next, Waiting);
    QuietMove(p, p.main.next, Waiting);
  }

  lemma {:induction false} JoinKeeps<R>(p: Pool<R>)
    requires Inv(p) && Enabled(p, Join)
    ensures StepOk(p, Apply(p, Join))
  {
    forall i | 0 <= i < |p.workers| ensures p.workers[i].Gone? {
      TotalZero(p.workers, Pending, i);
    }
  }

  lemma {:induction false} DrainKeeps<R>(p: Pool<R>)
    requires Inv(p) && Enabled(p, Drain)
    ensures StepOk(p, Apply(p, Drain))
  {
    assert p.outbox == [p.outbox[0]] + p.outbox[1..];
  }

  lemma {:induction false} DeliverKeeps<R>(p: Pool<R>, i: nat)
    requires Inv(p) && Enabled(p, Deliver(i))
    ensures StepOk(p, Apply(p, Deliver(i)))
  {
    MoveKeepsSpawned(p, i, Releasing);
    MoveCounts(p, i, Releasing);
    DeliveringMove(p, i);
  }

  lemma {:induction false} AcquireKeeps<R>(p: Pool<R>, i: nat)
    requires Inv(p) && Enabled(p, Acquire(i))
    ensures StepOk(p, Apply(p, Acquire(i)))
  {
    MoveKeepsSpawned(p, i, Probing);
    MoveCounts(p, i, Probing);
    QuietMove(p, i, Probing);
  }

  lemma {:induction false} ProbeKeeps<R>(p: Pool<R>, i: nat)
    requires Inv(p) && Enabled(p, Probe(i))
    ensures StepOk(p, Apply(p, Probe(i)))
  {
    MoveKeepsSpawned(p, i, Sending);
    MoveCounts(p, i, Sending);
    QuietMove(p, i, Sending);
  }

  lemma {:induction false} ReleaseKeeps<R>(p: Pool<R>, i: nat)
    requires Inv(p) && Enabled(p, Release(i))
    ensures StepOk(p, Apply(p, Release(i)))
  {
    MoveKeepsSpawned(p, i, Finishing);
    MoveCounts(p, i, Finishing);
    QuietMove(p, i, Finishing);
  }

  lemma {:induction false} DoneKeeps<R>(p: Pool<R>, i: nat)
    requires Inv(p) && Enabled(p, Done(i))
    ensures StepOk(p, Apply(p, Done(i)))
  {
    MoveKeepsSpawned(p, i, Gone);
    MoveCounts(p, i, Gone);
    QuietMove(p, i, Gone);
  }

  lemma {:induction false} StepKeeps<R>(p: Pool<R>, step: Step)
    requires Inv(p) && Enabled(p, step)
    ensures StepOk(p, Apply(p, step))
  {
    match step
    case Spawn => SpawnKeeps(p);
    case Join => JoinKeeps(p);
    case Drain => DrainKeeps(p);
    case Deliver(i) => DeliverKeeps(p, i);
    case Close =>
    case Return =>
    case Acquire(i) => AcquireKeeps(p, i);
    case Probe(i) => ProbeKeeps(p, i);
    case Release(i) => ReleaseKeeps(p, i);
    case Done(i) => DoneKeeps(p, i);
  }

  // ---- theorems over every run ----

  lemma {:induction false} RunKeeps<R>(p: Pool<R>, steps: seq<Step>)
    requires Inv(p) && Exec(p, steps).Some?
    ensures var q := Exec(p, steps).value;
      Inv(q) && q.capacity == p.capacity && q.outcome == p.outcome && Remaining(q) == Remaining(p) - |steps|
  {
    if |steps| > 0 {
      var n := |steps| - 1;
      RunKeeps(p, steps[..n]);
      StepKeeps(Exec(p, steps[..n]).value, steps[n]);
    }
  }

  /** Never more than max(conc, 1) probes in flight. */
  lemma {:induction false} BoundedConcurrency<R>(outcome: seq<R>, conc: int, steps: seq<Step>)
    requires Exec(Start(outcome, Clamp(conc)), steps).Some?
    ensures var p := Exec(Start(outcome, Clamp(conc)), steps).value;
      |set i | 0 <= i < |p.workers| && p.workers[i].Probing?| <= (if conc < 1 then 1 else conc)
  {
    StartOk(outcome, Clamp(conc));
    RunKeeps(Start(outcome, Clamp(conc)), steps);
    ProbingHolds(Exec(Start(outcome, Clamp(conc)), steps).value.workers);
  }

  /** Who is probing holds a permit. */
  lemma {:induction false} ProbingHolds(ws: seq<Worker>)
    ensures |set i | 0 <= i < |ws| && ws[i].Probing?| <= Total(ws, Permits)
  {
    if |ws| > 0 {
      var n := |ws| - 1;
      ProbingHolds(ws[..n]);
      var before, all := set i | 0 <= i < |ws[..n]| && ws[..n][i].Probing?, set i | 0 <= i < |ws| && ws[i].Probing?;
      assert all == before + if ws[n].Probing? then {n} else {};
    }
  }

  /** A worker that wants to deliver always can: the result channel is open and has room.
      One that wants to give its permit back finds one to take, and the wait group never
      goes below zero. */
  lemma {:induction false} ChannelsNeverBlockOrPanic<R>(outcome: seq<R>, capacity: nat, steps: seq<Step>, i: nat)
    requires Exec(Start(outcome, capacity), steps).Some? && i < |outcome|
    ensures var p := Exec(Start(outcome, capacity), steps).value;
      && |p.workers| == |outcome|
      && (p.workers[i].Sending? ==> Enabled(p, Deliver(i)))
      && (p.workers[i].Releasing? ==> Enabled(p, Release(i)))
      && (p.workers[i].Finishing? ==> Enabled(p, Done(i)) && p.pending >= 1)
      && (p.main.Closing? ==> Enabled(p, Close))
  {
    StartOk(outcome, capacity);
    RunKeeps(Start(outcome, capacity), steps);
    var p := Exec(Start(outcome, capacity), steps).value;
    TotalUpdate(p.workers, i, p.workers[i], Permits);
    TotalUpdate(p.workers, i, p.workers[i], Pending);
    if p.workers[i].Sending? {
      DeliveringMove(p, i);
      DeliveredSize(p.workers[i := Releasing], p.outcome);
      assert |p.outbox| + |p.results| == |Delivered(p.workers, p.outcome)| by {
        assert |multiset(p.outbox) + multiset(p.results)| == |p.outbox| + |p.results|;
      }
    }
  }

  /** With a semaphore of at least one permit some step is enabled until the end. */
  lemma {:induction false} NeverStuck<R>(p: Pool<R>) returns (step: Step)
    requires Inv(p) && p.capacity >= 1 && !p.main.Returned?
    ensures Enabled(p, step)
  {
    match p.main
    case Spawning(next) =>
      if next < |p.workers| {
        step := Spawn;
      } else if p.pending == 0 {
        step := Join;
      } else {
        step := WorkerStep(p);
      }
    case Closing => step := Close;
    case Draining => step := if |p.outbox| > 0 then Drain else Return;
  }

  lemma {:induction false} SomeCounted(ws: seq<Worker>, c: Count) returns (i: nat)
    requires Total(ws, c) > 0
    ensures i < |ws| && Weigh(c, ws[i]) > 0
  {
    var n := |ws| - 1;
    if Weigh(c, ws[n]) > 0 {
      i := n;
    } else {
      i := SomeCounted(ws[..n], c);
    }
  }

  lemma {:induction false} WorkerStep<R>(p: Pool<R>) returns (step: Step)
    requires Inv(p) && p.capacity >= 1 && p.pending > 0 && p.main.Spawning?
    ensures Enabled(p, step)
  {
    if p.permits > 0 {
      var i := SomeCounted(p.workers, Permits);
      match p.workers[i]
      case Probing => step := Probe(i);
      case Sending =>
        step := Deliver(i);
        DeliveringMove(p, i);
        DeliveredSize(p.workers[i := Releasing], p.outcome);
        assert |multiset(p.outbox) + multiset(p.results)| == |p.outbox| + |p.results|;
      case Releasing => step := Release(i);
    } else {
      var i := SomeCounted(p.workers, Pending);
      match p.workers[i]
      case Waiting => step := Acquire(i);
      case Finishing => step := Done(i);
      case _ =>
        TotalUpdate(p.workers, i, p.workers[i], Permits);
        step := Spawn;
    }
  }

  /** Every run that cannot be continued has returned, and has taken exactly seven steps
      per target and three more; its results are the outcomes of probing each target once,
      in some order. */
  lemma {:induction false} EveryCompleteRunReturnsAll<R>(outcome: seq<R>, conc: int, steps: seq<Step>)
    requires Exec(Start(outcome, Clamp(conc)), steps).Some?
    requires forall step :: !Enabled(Exec(Start(outcome, Clamp(conc)), steps).value, step)
    ensures var p := Exec(Start(outcome, Clamp(conc)), steps).value;
      && p.main.Returned?
      && multiset(p.results) == multiset(outcome)
      && |steps| == 7 * |outcome| + 3
  {
    StartOk(outcome, Clamp(conc));
    RunKeeps(Start(outcome, Clamp(conc)), steps);
    var p := Exec(Start(outcome, Clamp(conc)), steps).value;
    if !p.main.Returned? {
      var step := NeverStuck(p);
    }
    DeliveredAll(p.workers, p.outcome);
    assert multiset(p.results) == multiset(outcome);
    assert |multiset(p.results)| == |p.results| && |multiset(outcome)| == |outcome|;
    TotalUniform(p.workers, Gone, Steps);
  }

  /** No run is longer than that. */
  lemma {:induction false} RunsAreBounded<R>(outcome: seq<R>, capacity: nat, steps: seq<Step>)
    requires Exec(Start(outcome, capacity), steps).Some?
    ensures |steps| <= 7 * |outcome| + 3
  {
    StartOk(outcome, capacity);
    RunKeeps(Start(outcome, capacity), steps);
    var p := Exec(Start(outcome, capacity), steps).value;
    assert |p.outbox| + |p.results| == |Delivered(p.workers, p.outcome)| by {
      assert |multiset(p.outbox) + multiset(p.results)| == |p.outbox| + |p.results|;
    }
    DeliveredSize(p.workers, p.outcome);
  }

  /** The clamp matters: with a semaphore of no permits and at least one target, no run
      ever returns, and every run comes to a state where nothing can move. */
  lemma {:induction false} WithoutClampNothingReturns<R>(outcome: seq<R>, steps: seq<Step>)
    requires |outcome| > 0 && Exec(Start(outcome, 0), steps).Some?
    ensures var p := Exec(Start(outcome, 0), steps).value;
      && !p.main.Returned?
      && (|steps| == |outcome| ==> forall step :: !Enabled(p, step))
      && |steps| <= |outcome|
  {
    var p := Exec(Start(outcome, 0), steps).value;
    OnlySpawns(outcome, steps);
  }

  lemma {:induction false} OnlySpawns<R>(outcome: seq<R>, steps: seq<Step>)
    requires |outcome| > 0 && Exec(Start(outcome, 0), steps).Some?
    ensures var p := Exec(Start(outcome, 0), steps).value;
      && |steps| <= |outcome| == |p.workers|
      && p.main == Spawning(|steps|) && p.pending == |steps| && p.permits == 0 && p.capacity == 0
      && forall i :: 0 <= i < |p.workers| ==> p.workers[i] == if i < |steps| then Waiting else Absent
  {
    if |steps| > 0 {
      OnlySpawns(outcome, steps[..|steps| - 1]);
    }
  }
}
