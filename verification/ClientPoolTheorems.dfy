/** What the download client's pool guarantees, stated on runs from its initial state. */
module ClientPoolTheorems {
  import opened Basics
  import opened ClientPool
  import Steps = ClientPoolSteps
  import Progress = ClientPoolProgress

  ghost predicate IsRun(s: State, acts: seq<Action>)
    decreases |acts|
  {
    acts != [] ==> InRange(s) && Enabled(s, acts[0]) && IsRun(Next(s, acts[0]), acts[1..])
  }

  ghost function After(s: State, acts: seq<Action>): State
    requires IsRun(s, acts)
    decreases |acts|
  {
    if acts == [] then s else After(Next(s, acts[0]), acts[1..])
  }

  lemma {:induction false} RunExtends(s: State, acts: seq<Action>, a: Action)
    requires IsRun(s, acts) && InRange(After(s, acts)) && Enabled(After(s, acts), a)
    ensures IsRun(s, acts + [a]) && After(s, acts + [a]) == Next(After(s, acts), a)
    decreases |acts|
  {
    if acts == [] {
      assert [a][1..] == [];
    } else {
      assert (acts + [a])[1..] == acts[1..] + [a];
      RunExtends(Next(s, acts[0]), acts[1..], a);
    }
  }

  ghost predicate Reached(s0: State, acts: seq<Action>, s: State) {
    Init(s0) && s0.n >= 0 && IsRun(s0, acts) && s == After(s0, acts)
  }

  lemma {:induction false} RunKeepsInv(s: State, acts: seq<Action>)
    requires Inv(s) && IsRun(s, acts)
    ensures Inv(After(s, acts))
    decreases |acts|
  {
    if acts == [] {
    } else {
      Steps.StepInv(s, acts[0]);
      RunKeepsInv(Next(s, acts[0]), acts[1..]);
    }
  }

  lemma ReachedInv(s0: State, acts: seq<Action>, s: State)
    requires Reached(s0, acts, s)
    ensures Inv(s)
  {
    Steps.InitInv(s0);
    RunKeepsInv(s0, acts);
  }

  /** Although boss and workers share one condition variable, queued work always has a worker
      awake or the boss's signal ahead, and once all is done every sleeper has a broadcast ahead. */
  lemma NoWakeupIsLost(s0: State, acts: seq<Action>, s: State)
    requires Reached(s0, acts, s)
    ensures s.queue != [] ==>
              (exists w :: 0 <= w < |s.workers| && s.workers[w].pc != Asleep && s.workers[w].pc != Gone) || s.boss == Signal
    ensures s.done == s.n && SomeSleeper(s) ==>
              (exists w :: 0 <= w < |s.workers| && s.workers[w].pc == Tell) || s.boss == Announce
  {
    ReachedInv(s0, acts, s);
  }

  // ---------------------------------------------------------------- whom a signal wakes

  /** The thread that takes the step. */
  function Actor(a: Action): Thread {
    match a { case StepBoss(_) => Boss case StepWorker(w, _) => W(w) case Spurious(t) => t }
  }

  /** The two signals of the pool: the boss's after issuing, a worker's after its pop. */
  predicate Signals(s: State, a: Action) {
    match a
    case StepBoss(_) => s.boss == BossPc.Signal
    case StepWorker(w, _) => w < |s.workers| && s.workers[w].pc == Pass
    case Spurious(_) => false
  }

  /** The two broadcasts: the boss's at the end, a worker's after counting. */
  predicate Broadcasts(s: State, a: Action) {
    match a
    case StepBoss(_) => s.boss == Announce
    case StepWorker(w, _) => w < |s.workers| && s.workers[w].pc == Tell
    case Spurious(_) => false
  }

  /** Thread t is in the second state as in the first. */
  predicate Unmoved(s: State, n: State, t: Thread) {
    match t
    case Boss => n.boss == s.boss
    case W(v) => v < |s.workers| == |n.workers| && n.workers[v] == s.workers[v]
  }

  /** Thread t slept in the first state and has been woken in the second: the boss looks at the count
      again, a worker at the queue. */
  predicate Woken(s: State, n: State, t: Thread) {
    match t
    case Boss => s.boss == BossAsleep && n.boss == Await
    case W(v) => v < |s.workers| == |n.workers| && s.workers[v].pc == Asleep && n.workers[v] == s.workers[v].(pc := Take)
  }

  predicate Exists(s: State, t: Thread) { t.W? ==> t.w < |s.workers| }

  /** A signal wakes one sleeper, any one, and nobody else, and wakes nobody only if nobody sleeps. */
  lemma SignalWakesOne(s: State, a: Action, wakes: Option<Thread>, t: Thread)
    requires InRange(s) && Enabled(s, a) && Signals(s, a) && !a.Spurious? && a.wakes == wakes
    requires Exists(s, t) && t != Actor(a)
    ensures if wakes == Some(t) then Woken(s, Next(s, a), t) else Unmoved(s, Next(s, a), t)
    ensures wakes == None ==> s.boss != BossAsleep && forall v :: 0 <= v < |s.workers| ==> s.workers[v].pc != Asleep
  {
  }

  lemma AnySleeperMayBePicked(s: State, a: Action, t: Thread)
    requires Signals(s, a) && !a.Spurious? && Exists(s, t) && (t == Boss ==> s.boss == BossAsleep)
    requires t.W? ==> s.workers[t.w].pc == Asleep
    ensures Enabled(s, a.(wakes := Some(t)))
  {
  }

  /** A broadcast wakes every sleeper and moves nobody who does not sleep. */
  lemma BroadcastWakesEverybody(s: State, a: Action, t: Thread)
    requires InRange(s) && Enabled(s, a) && Broadcasts(s, a) && Exists(s, t) && t != Actor(a)
    ensures Woken(s, Next(s, a), t) || Unmoved(s, Next(s, a), t)
    ensures Next(s, a).boss != BossAsleep
    ensures forall v :: 0 <= v < |s.workers| ==> v < |Next(s, a).workers| && Next(s, a).workers[v].pc != Asleep
  {
  }

  /** Any other step moves nobody but the thread that takes it. */
  lemma OtherStepsMoveNobodyElse(s: State, a: Action, t: Thread)
    requires InRange(s) && Enabled(s, a) && !Signals(s, a) && !Broadcasts(s, a) && Exists(s, t) && t != Actor(a)
    ensures Unmoved(s, Next(s, a), t)
  {
  }

  /** What the actor of a signal or a broadcast does next. */
  lemma ActorGoesOn(s: State, a: Action)
    requires InRange(s) && Enabled(s, a) && (Signals(s, a) || Broadcasts(s, a))
    ensures var n := Next(s, a);
            match a {
              case StepBoss(_) => n.boss == if Signals(s, a) then Issue else Join
              case StepWorker(w, _) =>
                var v := s.workers[w];
                && |n.workers| == |s.workers|
                && n.workers[w] == if Signals(s, a) then v.(pc := Work) else v.(pc := Loop, i := v.i + 1)
              case Spurious(_) => false
            }
  {
  }

  /** No worker enters its loop more often than there are requests, and none at all for a negative
      count. */
  ghost predicate WithinBound(s: State) {
    forall w :: 0 <= w < |s.workers| && s.workers[w].pc != Loop && s.workers[w].pc != Gone ==> s.workers[w].i < s.n
  }

  lemma StepStaysWithinBound(s: State, a: Action)
    requires InRange(s) && Enabled(s, a) && WithinBound(s)
    ensures WithinBound(Next(s, a))
  {
  }

  lemma {:induction false} LoopsAreBounded(s: State, acts: seq<Action>)
    requires IsRun(s, acts) && WithinBound(s)
    ensures WithinBound(After(s, acts))
    decreases |acts|
  {
    if acts == [] {
    } else {
      StepStaysWithinBound(s, acts[0]);
      hide WithinBound, Next, Enabled, InRange;
      LoopsAreBounded(Next(s, acts[0]), acts[1..]);
    }
  }

  // ---------------------------------------------------------------- requests

  ghost function BusyWorkers(ws: seq<Worker>): set<nat> {
    set w | 0 <= w < |ws| && Busy(ws[w].pc)
  }

  ghost function InProgress(s: State): set<nat> { BusyWorkers(s.workers) }

  lemma BusyAppend(ws: seq<Worker>, v: Worker)
    ensures |BusyWorkers(ws + [v])| == |BusyWorkers(ws)| + if Busy(v.pc) then 1 else 0
  {
    assert BusyWorkers(ws + [v]) == if Busy(v.pc) then BusyWorkers(ws) + {|ws|} else BusyWorkers(ws);
  }

  lemma CountsAppend(ws: seq<Worker>, v: Worker)
    ensures Sum(FinishedCounts(ws + [v])) == Sum(FinishedCounts(ws)) + FinishedBy(v)
    ensures Sum(TakenCounts(ws + [v])) == Sum(TakenCounts(ws)) + TakenBy(v)
  {
    SumAppend(FinishedCounts(ws), FinishedBy(v));
    SumAppend(TakenCounts(ws), TakenBy(v));
    assert FinishedCounts(ws + [v]) == FinishedCounts(ws) + [FinishedBy(v)];
    assert TakenCounts(ws + [v]) == TakenCounts(ws) + [TakenBy(v)];
  }

  /** taken == in progress + finished. */
  lemma {:induction false} BusyCount(ws: seq<Worker>)
    ensures |BusyWorkers(ws)| + Sum(FinishedCounts(ws)) == Sum(TakenCounts(ws))
  {
    if ws == [] {
      assert BusyWorkers(ws) == {};
    } else {
      var k := |ws| - 1;
      assert ws == ws[..k] + [ws[k]];
      BusyCount(ws[..k]);
      BusyAppend(ws[..k], ws[k]);
      CountsAppend(ws[..k], ws[k]);
    }
  }

  /** Every request issued is queued, in progress or done; the queue holds the latest requests in
      order, and each request taken was taken by one worker. */
  lemma EachRequestOnce(s0: State, acts: seq<Action>, s: State)
    requires Reached(s0, acts, s)
    ensures s.issued == |s.queue| + |InProgress(s)| + s.done
    ensures forall i :: 0 <= i < |s.queue| ==> s.queue[i] == s.issued - |s.queue| + i
    ensures forall v, w :: 0 <= v < w < |s.workers| && Busy(s.workers[v].pc) && Busy(s.workers[w].pc) ==>
              s.workers[v].req != s.workers[w].req
    ensures forall w :: 0 <= w < |s.workers| && Busy(s.workers[w].pc) ==> s.workers[w].req < s.issued - |s.queue|
  {
    ReachedInv(s0, acts, s);
    BusyCount(s.workers);
    forall w | 0 <= w < |s.workers| && Busy(s.workers[w].pc)
      ensures s.workers[w].req < |s.stages| && s.stages[s.workers[w].req] == With(w) && s.workers[w].req < s.issued - |s.queue|
    {
      assert WorkerInv(s, w);
      assert StageInv(s, s.workers[w].req);
    }
  }

  lemma FinishedStep(s: State, a: Action, r: nat)
    requires Inv(s) && Enabled(s, a) && r < |s.stages| && s.stages[r].Finished?
    ensures r < |Next(s, a).stages| && Next(s, a).stages[r] == s.stages[r]
  {
    assert StageInv(s, r);
    if a.StepWorker? && s.workers[a.w].pc == Count {
      assert WorkerInv(s, a.w);
    }
  }

  /** A request, once finished, is never handed to anyone again. */
  lemma {:induction false} FinishedStays(s: State, acts: seq<Action>, r: nat)
    requires Inv(s) && IsRun(s, acts) && r < |s.stages| && s.stages[r].Finished?
    ensures r < |After(s, acts).stages| && After(s, acts).stages[r] == s.stages[r]
    decreases |acts|
  {
    if acts == [] {
    } else {
      FinishedStep(s, acts[0], r);
      Steps.StepInv(s, acts[0]);
      FinishedStays(Next(s, acts[0]), acts[1..], r);
    }
  }

  /** Everything is done and everybody has left. */
  ghost predicate AllDone(s: State) {
    && s.done == s.n && s.queue == [] && s.boss == Joined
    && (forall w :: 0 <= w < |s.workers| ==> s.workers[w].pc == Gone)
    && (forall r :: 0 <= r < |s.stages| ==> s.stages[r].Finished?)
  }

  lemma CompleteMeansAllDone(s: State)
    requires Inv(s) && Progress.Complete(s)
    ensures AllDone(s)
  {
    DoneBounds(s);
    forall r | 0 <= r < |s.stages| ensures s.stages[r].Finished? {
      assert StageInv(s, r);
    }
  }

  /** A state in which no thread can move of its own has all requests done and all workers joined. */
  lemma StuckMeansAllDone(s0: State, acts: seq<Action>, s: State)
    requires Reached(s0, acts, s)
    ensures !Progress.CanMove(s) ==> AllDone(s)
  {
    ReachedInv(s0, acts, s);
    if !Progress.CanMove(s) {
      if !Progress.Complete(s) {
        Progress.NoDeadlock(s);
      }
      CompleteMeansAllDone(s);
    }
  }

  function SpuriousCount(acts: seq<Action>): nat {
    if acts == [] then 0 else One(acts[0].Spurious?) + SpuriousCount(acts[1..])
  }

  /** A run is no longer than the measure of its first state and twice its spurious wakeups. */
  lemma {:induction false} RunsAreBounded(s: State, acts: seq<Action>)
    requires Inv(s) && IsRun(s, acts)
    ensures |acts| + Progress.Measure(After(s, acts)) <= Progress.Measure(s) + 2 * SpuriousCount(acts)
    decreases |acts|
  {
    if acts == [] {
    } else {
      hide Progress.Measure;
      Progress.StepCosts(s, acts[0]);
      Steps.StepInv(s, acts[0]);
      RunsAreBounded(Next(s, acts[0]), acts[1..]);
    }
  }

  /** However the threads are scheduled, a run with finitely many spurious wakeups comes to an end,
      and where it cannot go on all is done and joined. */
  lemma EveryMaximalRunFinishes(s0: State, acts: seq<Action>)
    requires Init(s0) && s0.n >= 0 && IsRun(s0, acts)
    ensures |acts| <= Progress.Measure(s0) + 2 * SpuriousCount(acts)
    ensures Progress.CanMove(After(s0, acts)) || AllDone(After(s0, acts))
  {
    Steps.InitInv(s0);
    RunsAreBounded(s0, acts);
    hide Inv, Progress.CanMove, AllDone, Progress.Measure;
    StuckMeansAllDone(s0, acts, After(s0, acts));
  }

  lemma {:induction false} EveryRunCanFinish(s: State) returns (acts: seq<Action>)
    requires Inv(s)
    ensures IsRun(s, acts) && SpuriousCount(acts) == 0 && AllDone(After(s, acts))
    decreases Progress.Measure(s)
  {
    if Progress.Complete(s) {
      CompleteMeansAllDone(s);
      acts := [];
    } else {
      Progress.NoDeadlock(s);
      var a: Action :| Enabled(s, a) && !a.Spurious?;
      Progress.StepFalls(s, a);
      Steps.StepInv(s, a);
      var rest := EveryRunCanFinish(Next(s, a));
      acts := [a] + rest;
      assert acts[1..] == rest;
    }
  }

  // ---------------------------------------------------------------- negative request counts

  /** With a negative count no worker starts and the boss waits for a number that never comes. */
  ghost predicate Hopeless(s: State) {
    && s.n < 0 && s.done == 0 && s.queue == [] && s.issued == 0 && |s.stages| == 0
    && (s.boss == Issue || s.boss == Await || s.boss == BossAsleep)
    && (forall w :: 0 <= w < |s.workers| ==> s.workers[w].pc == Loop || s.workers[w].pc == Gone)
  }

  lemma HopelessStays(s: State, a: Action)
    requires Hopeless(s) && InRange(s) && Enabled(s, a)
    ensures Hopeless(Next(s, a)) && InRange(Next(s, a))
  {
  }

  lemma {:induction false} HopelessRun(s: State, acts: seq<Action>)
    requires Hopeless(s) && IsRun(s, acts)
    ensures Hopeless(After(s, acts))
    decreases |acts|
  {
    if acts == [] {
    } else {
      HopelessStays(s, acts[0]);
      HopelessRun(Next(s, acts[0]), acts[1..]);
    }
  }

  /** The client completes some run exactly when the request count is not negative, which the
      option parser does not check. */
  lemma CompletesExactlyForCounts(s0: State)
    requires Init(s0)
    ensures s0.n >= 0 <==> exists acts :: IsRun(s0, acts) && After(s0, acts).boss == Joined
  {
    if s0.n >= 0 {
      Steps.InitInv(s0);
      var acts := EveryRunCanFinish(s0);
      assert IsRun(s0, acts) && After(s0, acts).boss == Joined;
    } else {
      forall acts | IsRun(s0, acts) ensures After(s0, acts).boss != Joined {
        HopelessRun(s0, acts);
      }
    }
  }
}
