/** The client pool always finishes: no reachable state is stuck before everything is joined, and
    a natural number falls with every step that is not a spurious wakeup. */
module ClientPoolProgress {
  import opened Basics
  import opened ClientPool
  import opened ClientPoolSteps

  predicate Complete(s: State) { s.boss == Joined }

  ghost predicate CanMove(s: State) {
    exists a: Action :: Enabled(s, a) && !a.Spurious?
  }

  /** Some sleeper for a signal to wake, or nobody. */
  lemma SomePick(s: State) returns (wakes: Option<Thread>)
    ensures Picks(s, wakes)
  {
    if s.boss == BossAsleep {
      wakes := Some(Boss);
    } else if w :| 0 <= w < |s.workers| && s.workers[w].pc == Asleep {
      wakes := Some(W(w));
    } else {
      wakes := None;
    }
  }

  lemma AwakeWorkerMoves(s: State, w: nat)
    requires w < |s.workers| && s.workers[w].pc != Asleep && s.workers[w].pc != Gone
    ensures CanMove(s)
  {
    var wakes := SomePick(s);
    assert Enabled(s, StepWorker(w, wakes));
  }

  lemma AwakeBossMoves(s: State)
    requires s.boss != BossAsleep && s.boss != Join && s.boss != Joined
    ensures CanMove(s)
  {
    var wakes := SomePick(s);
    assert Enabled(s, StepBoss(wakes));
  }

  lemma IdleCounts(s: State)
    requires !SomeAwake(s)
    ensures FinishedCounts(s.workers) == TakenCounts(s.workers)
  {
  }

  /** With every worker asleep or gone and the boss asleep, everything would be done and a
      broadcast on its way. */
  lemma BossNeverSleepsAlone(s: State)
    requires Inv(s) && s.boss == BossAsleep
    ensures SomeAwake(s)
  {
    if !SomeAwake(s) {
      IdleCounts(s);
    }
  }

  lemma JoinNeverWaitsForSleeper(s: State)
    requires Inv(s) && s.boss == Join && !BossEnabled(s, None)
    ensures SomeAwake(s)
  {
    var w := s.joined;
    if s.workers[w].pc == Asleep {
      assert SomeSleeper(s) && SomeTelling(s);
    }
  }

  lemma NoDeadlock(s: State)
    requires Inv(s) && !Complete(s)
    ensures CanMove(s)
  {
    if s.boss == BossAsleep {
      BossNeverSleepsAlone(s);
    } else if s.boss == Join {
      if BossEnabled(s, None) {
        assert Enabled(s, StepBoss(None));
        return;
      }
      JoinNeverWaitsForSleeper(s);
    } else {
      AwakeBossMoves(s);
      return;
    }
    var w :| 0 <= w < |s.workers| && s.workers[w].pc != Asleep && s.workers[w].pc != Gone;
    AwakeWorkerMoves(s, w);
  }

  // ---------------------------------------------------------------- the measure

  /** What a broadcast costs: it may wake every worker and the boss. */
  function B(s: State): nat { |s.workers| + 2 }

  function WorkerWeight(b: nat, v: Worker): nat {
    match v.pc
    case Gone => 0
    case Asleep => 1
    case Take => 2
    case Loop => 3
    case Tell => b + 3
    case Count => b + 4
    case Work => b + 5
    case Pass => b + 7
  }

  function QueuedWeight(b: nat): nat { b + 6 }

  function Product(k: nat, c: nat): nat { if k == 0 then 0 else c + Product(k - 1, c) }

  function BossWeight(s: State): nat {
    var b := B(s);
    var unissued := if s.issued < s.n then s.n - s.issued else 0;
    match s.boss
    case Issue => 2 * b + 4 + Product(unissued, b + 10)
    case Signal => 2 * b + 7 + Product(unissued, b + 10)
    case Await => 2 * b + 2
    case BossAsleep => 2 * b + 1
    case Announce => 2 * b
    case Join => 1 + if s.joined < |s.workers| then |s.workers| - s.joined else 0
    case Joined => 0
  }

  function Weights(b: nat, ws: seq<Worker>): seq<nat> {
    seq(|ws|, i requires 0 <= i < |ws| => WorkerWeight(b, ws[i]))
  }

  function Measure(s: State): nat {
    BossWeight(s) + Sum(Weights(B(s), s.workers)) + Product(|s.queue|, QueuedWeight(B(s)))
  }

  lemma WeightUpdate(b: nat, ws: seq<Worker>, w: nat, v: Worker)
    requires w < |ws|
    ensures Sum(Weights(b, ws[w := v])) + WorkerWeight(b, ws[w]) == Sum(Weights(b, ws)) + WorkerWeight(b, v)
  {
    SumUpdate(Weights(b, ws), w, WorkerWeight(b, v));
    assert Weights(b, ws[w := v]) == Weights(b, ws)[w := WorkerWeight(b, v)];
  }

  /** Waking one thread costs at most one, waking all at most one for each. */
  lemma WakeCost(s: State, t: Option<Thread>)
    ensures Measure(Wake(s, t)) <= Measure(s) + 1
  {
    match t
    case Some(W(w)) =>
      if w < |s.workers| {
        WeightUpdate(B(s), s.workers, w, WakeWorker(s.workers[w]));
      }
    case _ =>
  }

  lemma WakeAllCost(s: State)
    ensures Measure(WakeAll(s)) <= Measure(s) + |s.workers| + 1
  {
    SumBump(Weights(B(s), s.workers), Weights(B(s), WakeAll(s).workers));
  }

  lemma IssueFalls(s: State)
    requires InRange(s) && s.boss == Issue
    ensures Measure(BossNext(s, None)) < Measure(s)
  {
    assert Product(|s.queue| + 1, QueuedWeight(B(s))) == QueuedWeight(B(s)) + Product(|s.queue|, QueuedWeight(B(s)));
  }

  lemma SignalFalls(s: State, wakes: Option<Thread>)
    requires InRange(s) && s.boss == Signal
    ensures Measure(BossNext(s, wakes)) < Measure(s)
  {
    WakeCost(s.(boss := Issue), wakes);
  }

  lemma AnnounceFalls(s: State)
    requires InRange(s) && s.boss == Announce && s.joined == 0
    ensures Measure(BossNext(s, None)) < Measure(s)
  {
    WakeAllCost(s.(boss := Join));
  }

  lemma AwaitAndJoinFall(s: State)
    requires InRange(s) && (s.boss == Await || s.boss == Join)
    ensures Measure(BossNext(s, None)) < Measure(s)
  {
  }

  lemma BossFalls(s: State, wakes: Option<Thread>)
    requires Inv(s) && BossEnabled(s, wakes)
    ensures Measure(BossNext(s, wakes)) < Measure(s)
  {
    hide Measure;
    match s.boss
    case Issue => IssueFalls(s);
    case Signal => SignalFalls(s, wakes);
    case Announce => AnnounceFalls(s);
    case Await | Join => AwaitAndJoinFall(s);
  }

  lemma PassFalls(s: State, w: nat, wakes: Option<Thread>)
    requires InRange(s) && w < |s.workers| && s.workers[w].pc == Pass
    ensures Measure(WorkerNext(s, w, wakes)) < Measure(s)
  {
    var mid := Put(s, w, s.workers[w].(pc := Work));
    assert WorkerNext(s, w, wakes) == Wake(mid, wakes);
    assert Measure(mid) + 2 == Measure(s) by {
      hide Sum, Wake;
      WeightUpdate(B(s), s.workers, w, s.workers[w].(pc := Work));
    }
    hide Wake, Measure, WorkerNext;
    WakeCost(mid, wakes);
  }

  lemma TellFalls(s: State, w: nat)
    requires InRange(s) && w < |s.workers| && s.workers[w].pc == Tell
    ensures Measure(WorkerNext(s, w, None)) < Measure(s)
  {
    hide Sum;
    WeightUpdate(B(s), s.workers, w, BackToLoop(s.workers[w]));
    WakeAllCost(Put(s, w, BackToLoop(s.workers[w])));
  }

  lemma QuietFalls(s: State, w: nat)
    requires InRange(s) && w < |s.workers|
    requires var pc := s.workers[w].pc; pc == Loop || pc == Take || pc == Work || pc == Count
    ensures Measure(WorkerNext(s, w, None)) < Measure(s)
  {
    hide Sum;
    WeightUpdate(B(s), s.workers, w, WorkerNext(s, w, None).workers[w]);
  }

  lemma WorkerFalls(s: State, w: nat, wakes: Option<Thread>)
    requires InRange(s) && w < |s.workers| && WorkerEnabled(s, w, wakes)
    ensures Measure(WorkerNext(s, w, wakes)) < Measure(s)
  {
    hide Measure;
    match s.workers[w].pc
    case Pass => PassFalls(s, w, wakes);
    case Tell => TellFalls(s, w);
    case _ => QuietFalls(s, w);
  }

  lemma StepFalls(s: State, a: Action)
    requires Inv(s) && Enabled(s, a) && !a.Spurious?
    ensures Measure(Next(s, a)) < Measure(s)
  {
    match a
    case StepBoss(wakes) => BossFalls(s, wakes);
    case StepWorker(w, wakes) => WorkerFalls(s, w, wakes);
  }

  lemma StepCosts(s: State, a: Action)
    requires Inv(s) && Enabled(s, a)
    ensures Measure(Next(s, a)) + 1 <= Measure(s) + 2 * One(a.Spurious?)
  {
    hide Measure;
    match a
    case Spurious(t) => WakeCost(s, Some(t));
    case _ => StepFalls(s, a);
  }
}
