/** What the file server's pool guarantees: no request is stranded beside a live worker, every
    request popped is freed once, and exactly which requests are served in the end. */
module ServerPoolTheorems {
  import opened Basics
  import opened ServerPool

  ghost predicate IsRun(s: State, acts: seq<Action>)
    decreases |acts|
  {
    acts != [] ==> InRange(s) && Enabled(s, acts[0]) && IsRun(Next(s, acts[0]), acts[1..])
  }

  ghost function After(s: State, acts: seq<Action>): State
    requires IsRun(s, acts)
    decreases |acts|
  {
    if acts == [] then s else After(Next(s, acts[0]), acts[1..])
  }

  lemma {:induction false} RunExtends(s: State, acts: seq<Action>, a: Action)
    requires IsRun(s, acts) && InRange(After(s, acts)) && Enabled(After(s, acts), a)
    ensures IsRun(s, acts + [a]) && After(s, acts + [a]) == Next(After(s, acts), a)
    decreases |acts|
  {
    if acts == [] {
      assert [a][1..] == [];
    } else {
      assert (acts + [a])[1..] == acts[1..] + [a];
      RunExtends(Next(s, acts[0]), acts[1..], a);
    }
  }

  ghost predicate Reached(s0: State, acts: seq<Action>, s: State) {
    Init(s0) && IsRun(s0, acts) && s == After(s0, acts)
  }

  lemma StepKeepsPool(s: State, a: Action)
    requires InRange(s) && Enabled(s, a)
    ensures Next(s, a).good == s.good && |Next(s, a).workers| == |s.workers|
  {
  }

  lemma {:induction false} RunKeepsInv(s: State, acts: seq<Action>)
    requires Inv(s) && IsRun(s, acts)
    ensures Inv(After(s, acts))
    ensures After(s, acts).good == s.good && |After(s, acts).workers| == |s.workers|
    decreases |acts|
  {
    if acts == [] {
    } else {
      StepKeepsPool(s, acts[0]);
      StepInv(s, acts[0]);
      hide Inv, Next, Enabled;
      RunKeepsInv(Next(s, acts[0]), acts[1..]);
    }
  }

  /** The queue never holds more requests than there are workers about to look at it and signals
      to come, as long as anybody sleeps. */
  lemma PoolConservesWork(s0: State, acts: seq<Action>, s: State)
    requires Reached(s0, acts, s)
    requires exists w :: 0 <= w < |s.workers| && s.workers[w].pc == Asleep
    ensures |s.queue| <= Sum(ReadyCounts(s.workers)) + One(s.boss == Signal)
  {
    InitInv(s0);
    RunKeepsInv(s0, acts);
  }

  // ---------------------------------------------------------------- whom a signal wakes

  /** The two signals of the pool: the handler's after enqueueing, a worker's after its pop. */
  predicate Signals(s: State, a: Action) {
    match a
    case StepBoss(_) => s.boss == BossPc.Signal
    case StepWorker(w, _) => w < |s.workers| && s.workers[w].pc == Pass
    case Spurious(_) => false
  }

  /** A signal wakes one sleeper and nobody else, and wakes nobody only if nobody sleeps; the worker
      that signals goes on to serve, and the boss to accept. */
  lemma SignalWakesOne(s: State, a: Action, v: nat)
    requires InRange(s) && Enabled(s, a) && Signals(s, a) && v < |s.workers|
    ensures var n := Next(s, a);
            && |n.workers| == |s.workers|
            && (a.wakes == Some(v) ==> s.workers[v].pc == Asleep && n.workers[v] == s.workers[v].(pc := Take))
            && (a == StepWorker(v, a.wakes) ==> n.workers[v] == s.workers[v].(pc := Serve))
            && (a.wakes != Some(v) && a != StepWorker(v, a.wakes) ==> n.workers[v] == s.workers[v])
            && (a.wakes == None ==> s.workers[v].pc != Asleep)
            && (a.StepBoss? ==> n.boss == Accept) && (a.StepWorker? ==> n.boss == s.boss)
  {
  }

  lemma AnySleeperMayBePicked(s: State, a: Action, v: nat)
    requires Signals(s, a) && !a.Spurious? && v < |s.workers| && s.workers[v].pc == Asleep
    ensures Enabled(s, a.(wakes := Some(v)))
  {
  }

  /** Any other step of a worker moves no other worker. */
  lemma OtherStepsMoveNobodyElse(s: State, a: Action, v: nat)
    requires InRange(s) && Enabled(s, a) && !Signals(s, a) && v < |s.workers|
    requires a.StepWorker? ==> a.w != v
    requires a.Spurious? ==> a.w != v
    ensures v < |Next(s, a).workers| && Next(s, a).workers[v] == s.workers[v]
  {
  }

  // ---------------------------------------------------------------- requests

  lemma FreedStep(s: State, a: Action, r: nat)
    requires Inv(s) && Enabled(s, a) && r < |s.stages| && s.stages[r].Freed?
    ensures r < |Next(s, a).stages| && Next(s, a).stages[r] == s.stages[r]
  {
    assert StageInv(s, r);
  }

  /** A request is freed by the worker that popped it, and only once. */
  lemma {:induction false} FreedStays(s: State, acts: seq<Action>, r: nat)
    requires Inv(s) && IsRun(s, acts) && r < |s.stages| && s.stages[r].Freed?
    ensures r < |After(s, acts).stages| && After(s, acts).stages[r] == s.stages[r]
    decreases |acts|
  {
    if acts == [] {
    } else {
      FreedStep(s, acts[0], r);
      StepInv(s, acts[0]);
      FreedStays(Next(s, acts[0]), acts[1..], r);
    }
  }

  // ---------------------------------------------------------------- what is served in the end

  ghost predicate CanMove(s: State) {
    exists a: Action :: Enabled(s, a) && !a.Spurious?
  }

  lemma SomePick(s: State) returns (wakes: Option<nat>)
    ensures Picks(s, wakes)
  {
    if w :| 0 <= w < |s.workers| && s.workers[w].pc == Asleep {
      wakes := Some(w);
    } else {
      wakes := None;
    }
  }

  /** When nobody can move, the boss has handed over everything and every worker sleeps or is gone. */
  lemma StuckShape(s: State)
    requires Inv(s) && !CanMove(s)
    ensures s.boss == Accept && s.accepted == |s.good|
    ensures forall w :: 0 <= w < |s.workers| ==> s.workers[w].pc == Asleep || s.workers[w].pc == Gone
  {
    var wakes := SomePick(s);
    assert !Enabled(s, StepBoss(wakes));
    forall w | 0 <= w < |s.workers| ensures s.workers[w].pc == Asleep || s.workers[w].pc == Gone {
      assert !Enabled(s, StepWorker(w, wakes));
    }
  }

  /** A worker that is left over leaves no request waiting. */
  lemma StuckWithSleeper(s: State)
    requires Inv(s) && !CanMove(s) && SomeSleeper(s)
    ensures s.queue == []
  {
    StuckShape(s);
    SumZero(ReadyCounts(s.workers));
  }

  /** Without one, as many bad requests have been popped as there were workers. */
  lemma StuckWithoutSleeper(s: State)
    requires Inv(s) && !CanMove(s) && !SomeSleeper(s)
    ensures Bad(s.good[..Popped(s)]) == |s.workers|
  {
    StuckShape(s);
    SumOfOnes(LostCounts(s.good, s.workers));
  }

  /** `Taken` is the length of the shortest prefix with `live` bad requests, or of everything. */
  lemma {:induction false} TakenIs(good: seq<bool>, live: nat, k: nat)
    requires k <= |good|
    requires k > 0 ==> Bad(good[..k - 1]) < live
    requires Bad(good[..k]) <= live
    requires k < |good| ==> Bad(good[..k]) == live
    ensures Taken(good, live) == k
    decreases |good|
  {
    if k == 0 {
      assert good[..0] == [];
    } else {
      var rest := good[1..];
      assert good[..k][1..] == rest[..k - 1];
      BadCons(good[..k]);
      if k > 1 {
        assert good[..k - 1][1..] == rest[..k - 2];
        BadCons(good[..k - 1]);
      } else {
        assert rest[..0] == [];
      }
      TakenIs(rest, if good[0] then live else live - 1, k - 1);
    }
  }

  /** However the threads are scheduled, when nothing can move any more the workers have taken and
      freed exactly the first `Taken(good, nthreads)` requests; the rest stays in the queue. */
  lemma ServedInTheEnd(s0: State, acts: seq<Action>, s: State)
    requires Reached(s0, acts, s) && !CanMove(s)
    ensures |s.stages| == |s0.good|
    ensures forall r :: 0 <= r < |s.stages| ==> (s.stages[r].Freed? <==> r < Taken(s0.good, |s0.workers|))
    ensures |s.queue| == |s0.good| - Taken(s0.good, |s0.workers|)
  {
    InitInv(s0);
    RunKeepsInv(s0, acts);
    StuckShape(s);
    var k := Popped(s);
    if SomeSleeper(s) {
      StuckWithSleeper(s);
      assert s.good[..k] == s.good;
      if k > 0 {
        BadNext(s.good, k - 1);
      }
    } else {
      StuckWithoutSleeper(s);
    }
    TakenIs(s.good, |s.workers|, k);
    forall r | 0 <= r < |s.stages| ensures s.stages[r].Freed? <==> r < k {
      assert StageInv(s, r);
    }
  }

  lemma {:induction false} TakenAll(good: seq<bool>, live: nat)
    requires good != []
    ensures Taken(good, live) == |good| <==> Bad(good[..|good| - 1]) < live
    ensures Taken(good, live) <= |good|
    decreases |good|
  {
    if |good| == 1 {
      assert good[..0] == [];
    } else if live == 0 {
    } else {
      TakenAll(good[1..], if good[0] then live else live - 1);
      var front := good[..|good| - 1];
      BadCons(front);
      assert front[1..] == good[1..][..|good[1..]| - 1];
    }
  }

  /** Every request is served in every complete run exactly when fewer requests than there are
      workers are bad, not counting the last one; otherwise some are stranded in every one. */
  lemma AllServedExactlyWhen(s0: State, acts: seq<Action>, s: State)
    requires Reached(s0, acts, s) && !CanMove(s) && s0.good != []
    ensures s.queue == [] <==> Bad(s0.good[..|s0.good| - 1]) < |s0.workers|
  {
    ServedInTheEnd(s0, acts, s);
    TakenAll(s0.good, |s0.workers|);
  }

  // ---------------------------------------------------------------- termination

  function Weight(v: Worker): nat {
    match v.pc
    case Gone => 0
    case Asleep => 1
    case Take => 2
    case Serve => 3
    case Pass => 5
  }

  function Weights(ws: seq<Worker>): seq<nat> {
    seq(|ws|, i requires 0 <= i < |ws| => Weight(ws[i]))
  }

  function Measure(s: State): nat {
    var coming := if s.accepted <= |s.good| then |s.good| - s.accepted else 0;
    7 * coming + (if s.boss == Signal then 2 else 0) + 4 * |s.queue| + Sum(Weights(s.workers))
  }

  lemma WeightUpdate(ws: seq<Worker>, w: nat, v: Worker)
    requires w < |ws|
    ensures Sum(Weights(ws[w := v])) + Weight(ws[w]) == Sum(Weights(ws)) + Weight(v)
  {
    SumUpdate(Weights(ws), w, Weight(v));
    assert Weights(ws[w := v]) == Weights(ws)[w := Weight(v)];
  }

  lemma WakeCost(ws: seq<Worker>, t: Option<nat>)
    ensures Sum(Weights(Wake(ws, t))) <= Sum(Weights(ws)) + 1
  {
    match t
    case None =>
    case Some(w) =>
      if w < |ws| {
        WeightUpdate(ws, w, ws[w].(pc := Take));
      }
  }

  lemma StepFalls(s: State, a: Action)
    requires Inv(s) && Enabled(s, a) && !a.Spurious?
    ensures Measure(Next(s, a)) < Measure(s)
  {
    match a
    case StepBoss(wakes) =>
      WakeCost(s.workers, wakes);
    case StepWorker(w, wakes) =>
      if s.workers[w].pc == Pass {
        var v' := s.workers[w].(pc := Serve);
        WeightUpdate(s.workers, w, v');
        WakeCost(s.workers[w := v'], wakes);
      } else {
        WeightUpdate(s.workers, w, Next(s, a).workers[w]);
      }
  }

  lemma StepCosts(s: State, a: Action)
    requires Inv(s) && Enabled(s, a)
    ensures Measure(Next(s, a)) + 1 <= Measure(s) + 2 * One(a.Spurious?)
  {
    match a
    case Spurious(w) => WakeCost(s.workers, Some(w));
    case _ =>
      hide Measure;
      StepFalls(s, a);
  }

  function SpuriousCount(acts: seq<Action>): nat {
    if acts == [] then 0 else One(acts[0].Spurious?) + SpuriousCount(acts[1..])
  }

  /** A run is no longer than the measure of its first state and twice its spurious wakeups, so
      one with finitely many of them ends as ServedInTheEnd describes. */
  lemma {:induction false} RunsAreBounded(s: State, acts: seq<Action>)
    requires Inv(s) && IsRun(s, acts)
    ensures |acts| + Measure(After(s, acts)) <= Measure(s) + 2 * SpuriousCount(acts)
    decreases |acts|
  {
    if acts == [] {
    } else {
      hide Measure;
      StepCosts(s, acts[0]);
      StepInv(s, acts[0]);
      RunsAreBounded(Next(s, acts[0]), acts[1..]);
    }
  }
}
