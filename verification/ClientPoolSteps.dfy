/** Every step of the client's boss and workers keeps the invariant of the pool. */
module ClientPoolSteps {
  import opened Basics
  import opened ClientPool

  /** The step changes how far a worker has got within its loop, but not its share of the work. */
  predicate Alike(v: Worker, v': Worker) {
    v'.req == v.req && (Busy(v.pc) <==> Busy(v'.pc)) && FinishedBy(v') == FinishedBy(v) && TakenBy(v') == TakenBy(v)
  }

  ghost predicate OnlyControl(s: State, s': State) {
    && s'.n == s.n && s'.issued == s.issued && s'.queue == s.queue && s'.done == s.done && s'.stages == s.stages
    && |s'.workers| == |s.workers|
    && (forall w :: 0 <= w < |s.workers| ==> Alike(s.workers[w], s'.workers[w]))
    && (forall w :: 0 <= w < |s.workers| && s'.workers[w].pc == Gone ==> s.workers[w].pc == Gone || s.done == s.n)
  }

  lemma OnlyControlKeeps(s: State, s': State)
    requires OnlyControl(s, s')
    ensures s'.queue == s.queue && s'.done == s.done && s'.n == s.n
  {
  }

  lemma ControlStep(s: State, s': State)
    requires Inv(s) && OnlyControl(s, s') && BossInv(s') && WakeInv(s')
    requires s'.boss == Issue ==> s.boss == Issue || s.boss == Signal
    ensures Inv(s')
  {
    assert FinishedCounts(s'.workers) == FinishedCounts(s.workers);
    assert TakenCounts(s'.workers) == TakenCounts(s.workers);
    forall r | 0 <= r < |s'.stages| ensures StageInv(s', r) {
      assert StageInv(s, r);
    }
    forall w | 0 <= w < |s'.workers| ensures WorkerInv(s', w) {
      assert WorkerInv(s, w);
    }
    forall w | 0 <= w < |s'.workers| && Busy(s'.workers[w].pc) ensures s'.workers[w].req < |s'.stages| {
      assert WorkerInv(s', w);
    }
  }

  lemma InitInv(s: State)
    requires Init(s) && s.n >= 0
    ensures Inv(s)
  {
    SumZero(FinishedCounts(s.workers));
    SumZero(TakenCounts(s.workers));
    if s.queue != [] || (s.done == s.n && SomeSleeper(s)) {
      assert SomeAwake(s);
    }
  }

  // ---------------------------------------------------------------- the boss

  lemma IssueStep(s: State)
    requires Inv(s) && s.boss == Issue
    ensures Inv(BossNext(s, None))
  {
    var s' := BossNext(s, None);
    if s.issued < s.n {
      DoneBounds(s);
      forall r | 0 <= r < |s'.stages| ensures StageInv(s', r) {
        assert StageInv(s, r);
      }
      forall w | 0 <= w < |s'.workers| ensures WorkerInv(s', w) {
        assert WorkerInv(s, w);
        assert Busy(s.workers[w].pc) ==> StageInv(s, s.workers[w].req);
      }
    } else {
      assert SomeAwake(s) ==> SomeAwake(s');
      assert SomeTelling(s) ==> SomeTelling(s');
      ControlStep(s, s');
    }
  }

  /** When the boss has signalled, queued work has a worker awake: the one it woke, or, if nobody
      slept, any worker at all, since none leaves while work is queued. */
  lemma SignalWakesWorker(s: State, wakes: Option<Thread>)
    requires Inv(s) && s.boss == Signal && BossEnabled(s, wakes) && s.queue != []
    ensures SomeAwake(BossNext(s, wakes))
  {
    var s' := BossNext(s, wakes);
    match wakes
    case Some(W(w)) =>
      assert s'.workers[w].pc == Take;
    case None =>
      DoneBounds(s);
      assert WorkerInv(s, 0);
      assert s'.workers[0].pc != Asleep && s'.workers[0].pc != Gone;
  }

  /** Waking threads loses neither an awake worker nor a pending broadcast. */
  lemma WakeKeeps(s: State, t: Option<Thread>)
    ensures SomeAwake(s) ==> SomeAwake(Wake(s, t))
    ensures SomeTelling(s) ==> SomeTelling(Wake(s, t))
    ensures SomeSleeper(Wake(s, t)) ==> SomeSleeper(s)
  {
    var s' := Wake(s, t);
    if SomeAwake(s) {
      var w :| 0 <= w < |s.workers| && s.workers[w].pc != Asleep && s.workers[w].pc != Gone;
      assert s'.workers[w].pc != Asleep && s'.workers[w].pc != Gone;
    }
    if SomeTelling(s) {
      var w :| 0 <= w < |s.workers| && s.workers[w].pc == Tell;
      assert s'.workers[w].pc == Tell;
    }
    if SomeSleeper(s') && s'.boss != BossAsleep {
      var w :| 0 <= w < |s'.workers| && s'.workers[w].pc == Asleep;
      assert s.workers[w].pc == Asleep;
    }
  }

  lemma SignalStep(s: State, wakes: Option<Thread>)
    requires Inv(s) && s.boss == Signal && BossEnabled(s, wakes)
    ensures Inv(BossNext(s, wakes))
  {
    var s' := BossNext(s, wakes);
    if s.queue != [] {
      SignalWakesWorker(s, wakes);
    }
    WakeKeeps(s.(boss := Issue), wakes);
    if s.done == s.n && SomeSleeper(s') {
      assert SomeSleeper(s);
      assert SomeTelling(s.(boss := Issue));
    }
    DoneBounds(s);
    ControlStep(s, s');
  }

  lemma AwaitStep(s: State)
    requires Inv(s) && s.boss == Await
    ensures Inv(BossNext(s, None))
  {
    var s' := BossNext(s, None);
    assert SomeAwake(s) ==> SomeAwake(s');
    assert SomeTelling(s) ==> SomeTelling(s');
    ControlStep(s, s');
  }

  lemma NobodySleeps(s: State)
    ensures !SomeSleeper(WakeAll(s))
  {
  }

  lemma WakeAllKeeps(s: State)
    ensures SomeAwake(s) ==> SomeAwake(WakeAll(s))
  {
    if SomeAwake(s) {
      var w :| 0 <= w < |s.workers| && s.workers[w].pc != Asleep && s.workers[w].pc != Gone;
      assert WakeAll(s).workers[w].pc != Asleep && WakeAll(s).workers[w].pc != Gone;
    }
  }

  lemma AnnounceStep(s: State)
    requires Inv(s) && s.boss == Announce
    ensures Inv(BossNext(s, None))
  {
    var s' := BossNext(s, None);
    NobodySleeps(s.(boss := Join));
    WakeAllKeeps(s.(boss := Join));
    DoneBounds(s);
    ControlStep(s, s');
  }

  lemma JoinStep(s: State)
    requires Inv(s) && s.boss == Join && BossEnabled(s, None)
    ensures Inv(BossNext(s, None))
  {
    var s' := BossNext(s, None);
    assert SomeAwake(s) ==> SomeAwake(s');
    assert SomeTelling(s) ==> SomeTelling(s');
    ControlStep(s, s');
  }

  lemma BossStep(s: State, wakes: Option<Thread>)
    requires Inv(s) && BossEnabled(s, wakes)
    ensures Inv(BossNext(s, wakes))
  {
    match s.boss
    case Issue => IssueStep(s);
    case Signal => SignalStep(s, wakes);
    case Await => AwaitStep(s);
    case Announce => AnnounceStep(s);
    case Join => JoinStep(s);
  }

  // ---------------------------------------------------------------- a worker

  /** One worker moves on inside its loop, stays awake, and nobody else changes. */
  lemma WorkerControl(s: State, w: nat, v': Worker)
    requires Inv(s) && w < |s.workers| && Alike(s.workers[w], v') && s.workers[w].pc != Gone
    requires s.workers[w].pc != Tell
    requires v'.pc == Gone || v'.pc == Asleep ==> s.queue == []
    requires v'.pc == Gone ==> s.done == s.n
    requires v'.pc == Asleep ==> s.done != s.n
    ensures Inv(Put(s, w, v'))
  {
    var s' := Put(s, w, v');
    if s.queue != [] {
      assert s'.workers[w].pc != Asleep && s'.workers[w].pc != Gone;
    }
    if s'.done == s'.n && SomeSleeper(s') {
      if s'.boss != BossAsleep {
        var x :| 0 <= x < |s'.workers| && s'.workers[x].pc == Asleep;
        assert s.workers[x].pc == Asleep;
      }
      assert SomeSleeper(s);
      if SomeTelling(s) {
        var x :| 0 <= x < |s.workers| && s.workers[x].pc == Tell;
        assert s'.workers[x].pc == Tell;
      }
    }
    ControlStep(s, s');
  }

  lemma LoopStep(s: State, w: nat)
    requires Inv(s) && w < |s.workers| && s.workers[w].pc == Loop
    ensures Inv(WorkerNext(s, w, None))
  {
    if s.workers[w].i >= s.n {
      BoundMeansAllDone(s, w);
    }
    DoneBounds(s);
    WorkerControl(s, w, WorkerNext(s, w, None).workers[w]);
  }

  lemma EmptyStep(s: State, w: nat)
    requires Inv(s) && w < |s.workers| && s.workers[w].pc == Take && s.queue == []
    ensures Inv(WorkerNext(s, w, None))
  {
    WorkerControl(s, w, WorkerNext(s, w, None).workers[w]);
  }

  /** Taking the oldest queued request. */
  lemma PopStep(s: State, w: nat)
    requires Inv(s) && w < |s.workers| && s.workers[w].pc == Take && s.queue != []
    ensures Inv(WorkerNext(s, w, None))
  {
    var s' := WorkerNext(s, w, None);
    CountsUpdate(s.workers, w, s'.workers[w]);
    DoneBounds(s);
    assert s.queue[0] == TakenTotal(s);
    forall r | 0 <= r < |s'.stages| ensures StageInv(s', r) {
      assert StageInv(s, r);
    }
    forall x | 0 <= x < |s'.workers| ensures WorkerInv(s', x) {
      assert WorkerInv(s, x);
      assert StageInv(s, s.queue[0]);
    }
    assert s'.workers[w].pc != Asleep && s'.workers[w].pc != Gone;
  }

  lemma PassStep(s: State, w: nat, wakes: Option<Thread>)
    requires Inv(s) && w < |s.workers| && s.workers[w].pc == Pass && WorkerEnabled(s, w, wakes)
    ensures Inv(WorkerNext(s, w, wakes))
  {
    var mid := Put(s, w, s.workers[w].(pc := Work));
    WorkerControl(s, w, s.workers[w].(pc := Work));
    WakeStep(mid, wakes);
  }

  lemma WakeIsControl(s: State, t: Option<Thread>)
    requires Inv(s)
    ensures OnlyControl(s, Wake(s, t)) && BossInv(Wake(s, t))
    ensures Wake(s, t).boss == Issue ==> s.boss == Issue
    ensures s.boss == Signal || s.boss == Announce ==> Wake(s, t).boss == s.boss
  {
  }

  /** Waking threads, by a signal or spuriously. */
  lemma WakeStep(s: State, t: Option<Thread>)
    requires Inv(s)
    ensures Inv(Wake(s, t))
  {
    WakeIsControl(s, t);
    WakeKeeps(s, t);
    hide OnlyControl, BossInv, Wake;
    assert Wake(s, t).queue == s.queue && Wake(s, t).done == s.done && Wake(s, t).n == s.n by { OnlyControlKeeps(s, Wake(s, t)); }
    ControlStep(s, Wake(s, t));
  }

  lemma WorkStep(s: State, w: nat)
    requires Inv(s) && w < |s.workers| && s.workers[w].pc == Work
    ensures Inv(WorkerNext(s, w, None))
  {
    DoneBounds(s);
    WorkerControl(s, w, WorkerNext(s, w, None).workers[w]);
  }

  lemma CountStep(s: State, w: nat)
    requires Inv(s) && w < |s.workers| && s.workers[w].pc == Count
    ensures Inv(WorkerNext(s, w, None))
  {
    var s' := WorkerNext(s, w, None);
    CountsUpdate(s.workers, w, s'.workers[w]);
    DoneBounds(s);
    DoneBounds(s');
    assert WorkerInv(s, w);
    forall r | 0 <= r < |s'.stages| ensures StageInv(s', r) {
      assert StageInv(s, r);
    }
    forall x | 0 <= x < |s'.workers| ensures WorkerInv(s', x) {
      assert WorkerInv(s, x);
    }
    assert s'.workers[w].pc == Tell;
  }

  lemma BroadcastStep(s: State)
    requires Inv(s)
    ensures Inv(WakeAll(s)) && !SomeSleeper(WakeAll(s))
  {
    NobodySleeps(s);
    WakeAllKeeps(s);
    ControlStep(s, WakeAll(s));
  }

  function BackToLoop(v: Worker): Worker { v.(pc := Loop, i := v.i + 1) }

  lemma ReturnToLoop(s: State, w: nat)
    requires Inv(s) && !SomeSleeper(s) && w < |s.workers| && s.workers[w].pc == Tell
    ensures Inv(Put(s, w, BackToLoop(s.workers[w])))
  {
    var s' := Put(s, w, BackToLoop(s.workers[w]));
    assert s'.workers[w].pc == Loop;
    assert !SomeSleeper(s');
    ControlStep(s, s');
  }

  lemma TellStep(s: State, w: nat)
    requires Inv(s) && w < |s.workers| && s.workers[w].pc == Tell
    ensures Inv(WorkerNext(s, w, None))
  {
    BroadcastStep(s);
    ReturnToLoop(WakeAll(s), w);
    assert WorkerNext(s, w, None).workers == Put(WakeAll(s), w, BackToLoop(s.workers[w])).workers;
  }

  lemma WorkerStep(s: State, w: nat, wakes: Option<Thread>)
    requires Inv(s) && w < |s.workers| && WorkerEnabled(s, w, wakes)
    ensures Inv(WorkerNext(s, w, wakes))
  {
    match s.workers[w].pc
    case Loop => LoopStep(s, w);
    case Take => if s.queue == [] { EmptyStep(s, w); } else { PopStep(s, w); }
    case Pass => PassStep(s, w, wakes);
    case Work => WorkStep(s, w);
    case Count => CountStep(s, w);
    case Tell => TellStep(s, w);
  }

  /** Every enabled step keeps the invariant, spurious wakeups included. */
  lemma StepInv(s: State, a: Action)
    requires Inv(s) && Enabled(s, a)
    ensures Inv(Next(s, a))
  {
    match a
    case StepBoss(wakes) => BossStep(s, wakes);
    case StepWorker(w, wakes) => WorkerStep(s, w, wakes);
    case Spurious(t) => WakeStep(s, Some(t));
  }
}
