/** The file server's boss and workers as a system of atomic steps.  The boss enqueues a request
    and signals; a worker pops one, signals, serves it, and comes back, unless the file is missing
    or cannot be examined: then it leaves its loop for good. */
module ServerPool {
  import opened Basics

  datatype BossPc = Accept | Signal

  datatype WorkerPc = Take | Asleep | Pass | Serve | Gone

  datatype Worker = Worker(pc: WorkerPc, req: nat)

  /** The life of a request: allocated by the handler, freed by the worker that popped it. */
  datatype Stage = Unborn | Queued | With(w: nat) | Freed(w: nat)

  /** `good[r]` says whether request r finds a file that can be served. */
  datatype State = State(
    good: seq<bool>, boss: BossPc, accepted: nat, queue: seq<nat>, workers: seq<Worker>, stages: seq<Stage>)

  datatype Action = StepBoss(wakes: Option<nat>) | StepWorker(w: nat, wakes: Option<nat>) | Spurious(w: nat)

  predicate Sleeps(s: State, w: nat) {
    w < |s.workers| && s.workers[w].pc == Asleep
  }

  function Wake(ws: seq<Worker>, t: Option<nat>): seq<Worker> {
    match t
    case None => ws
    case Some(w) => if w < |ws| && ws[w].pc == Asleep then ws[w := ws[w].(pc := Take)] else ws
  }

  /** pthread_cond_signal wakes one sleeper if there is one. */
  predicate Picks(s: State, wakes: Option<nat>) {
    match wakes
    case None => forall w :: 0 <= w < |s.workers| ==> s.workers[w].pc != Asleep
    case Some(w) => Sleeps(s, w)
  }

  predicate InRange(s: State) {
    && |s.stages| == |s.good| && s.accepted <= |s.good|
    && (forall i :: 0 <= i < |s.queue| ==> s.queue[i] < |s.good|)
    && (forall w :: 0 <= w < |s.workers| && Busy(s.workers[w].pc) ==> s.workers[w].req < |s.good|)
  }

  predicate Busy(pc: WorkerPc) { pc == Pass || pc == Serve }

  predicate BossEnabled(s: State, wakes: Option<nat>) {
    match s.boss
    case Accept => s.accepted < |s.good|
    case Signal => Picks(s, wakes)
  }

  function BossNext(s: State, wakes: Option<nat>): State
    requires InRange(s) && BossEnabled(s, wakes)
  {
    match s.boss
    case Accept =>
      s.(boss := Signal, accepted := s.accepted + 1, queue := s.queue + [s.accepted], stages := s.stages[s.accepted := Queued])
    case Signal => s.(boss := Accept, workers := Wake(s.workers, wakes))
  }

  predicate WorkerEnabled(s: State, w: nat, wakes: Option<nat>)
    requires w < |s.workers|
  {
    match s.workers[w].pc
    case Take | Serve => true
    case Pass => Picks(s, wakes)
    case Asleep | Gone => false
  }

  function WorkerNext(s: State, w: nat, wakes: Option<nat>): State
    requires InRange(s) && w < |s.workers|
  {
    var v := s.workers[w];
    match v.pc
    case Take =>
      if s.queue == [] then s.(workers := s.workers[w := v.(pc := Asleep)])
      else s.(workers := s.workers[w := Worker(Pass, s.queue[0])], queue := s.queue[1..],
              stages := s.stages[s.queue[0] := With(w)])
    case Pass => s.(workers := Wake(s.workers[w := v.(pc := Serve)], wakes))
    case Serve =>
      // both ways out free the request
      s.(workers := s.workers[w := v.(pc := if s.good[v.req] then Take else Gone)], stages := s.stages[v.req := Freed(w)])
    case Asleep | Gone => s
  }

  predicate Enabled(s: State, a: Action) {
    match a
    case StepBoss(wakes) => BossEnabled(s, wakes)
    case StepWorker(w, wakes) => w < |s.workers| && WorkerEnabled(s, w, wakes)
    case Spurious(w) => Sleeps(s, w)
  }

  function Next(s: State, a: Action): State
    requires InRange(s) && Enabled(s, a)
  {
    match a
    case StepBoss(wakes) => BossNext(s, wakes)
    case StepWorker(w, wakes) => WorkerNext(s, w, wakes)
    case Spurious(w) => s.(workers := Wake(s.workers, Some(w)))
  }

  predicate Init(s: State) {
    && s.boss == Accept && s.accepted == 0 && s.queue == [] && |s.stages| == |s.good| && |s.workers| >= 1
    && (forall r :: 0 <= r < |s.stages| ==> s.stages[r] == Unborn)
    && (forall w :: 0 <= w < |s.workers| ==> s.workers[w].pc == Take)
  }

  // ---------------------------------------------------------------- counting

  /** The number of requests that make their worker leave. */
  function Bad(good: seq<bool>): nat {
    if good == [] then 0 else Bad(good[..|good| - 1]) + One(!good[|good| - 1])
  }

  /** How many requests are taken from `good` by `live` workers, one of which leaves at each bad
      request. */
  function Taken(good: seq<bool>, live: nat): nat {
    if good == [] || live == 0 then 0 else 1 + Taken(good[1..], if good[0] then live else live - 1)
  }

  /** The worker is awake and will look at the queue, or has a signal to send first. */
  function Ready(v: Worker): nat { One(v.pc == Take || v.pc == Pass) }

  /** The worker has left, or will after the request it has. */
  function Lost(good: seq<bool>, v: Worker): nat {
    One(v.pc == Gone || (Busy(v.pc) && v.req < |good| && !good[v.req]))
  }

  function ReadyCounts(ws: seq<Worker>): seq<nat> {
    seq(|ws|, i requires 0 <= i < |ws| => Ready(ws[i]))
  }

  function LostCounts(good: seq<bool>, ws: seq<Worker>): seq<nat> {
    seq(|ws|, i requires 0 <= i < |ws| => Lost(good, ws[i]))
  }

  lemma CountsUpdate(good: seq<bool>, ws: seq<Worker>, w: nat, v: Worker)
    requires w < |ws|
    ensures Sum(ReadyCounts(ws[w := v])) + Ready(ws[w]) == Sum(ReadyCounts(ws)) + Ready(v)
    ensures Sum(LostCounts(good, ws[w := v])) + Lost(good, ws[w]) == Sum(LostCounts(good, ws)) + Lost(good, v)
  {
    SumUpdate(ReadyCounts(ws), w, Ready(v));
    SumUpdate(LostCounts(good, ws), w, Lost(good, v));
    assert ReadyCounts(ws[w := v]) == ReadyCounts(ws)[w := Ready(v)];
    assert LostCounts(good, ws[w := v]) == LostCounts(good, ws)[w := Lost(good, v)];
  }

  lemma {:induction false} SumOfOnes(ws: seq<nat>)
    requires forall i :: 0 <= i < |ws| ==> ws[i] <= 1
    ensures Sum(ws) <= |ws|
    ensures (exists i :: 0 <= i < |ws| && ws[i] == 0) ==> Sum(ws) < |ws|
    ensures (forall i :: 0 <= i < |ws| ==> ws[i] == 1) ==> Sum(ws) == |ws|
  {
    if ws == [] {
    } else {
      SumOfOnes(ws[1..]);
      if i :| 0 <= i < |ws| && ws[i] == 0 {
        assert i > 0 ==> ws[1..][i - 1] == 0;
      }
    }
  }

  lemma BadNext(good: seq<bool>, k: nat)
    requires k < |good|
    ensures Bad(good[..k + 1]) == Bad(good[..k]) + One(!good[k])
  {
    assert good[..k + 1][..k] == good[..k];
  }

  lemma {:induction false} BadCons(good: seq<bool>)
    requires good != []
    ensures Bad(good) == One(!good[0]) + Bad(good[1..])
  {
    if |good| == 1 {
      assert good[..0] == [] && good[1..] == [];
    } else {
      var front := good[..|good| - 1];
      BadCons(front);
      assert front[1..] == good[1..][..|good[1..]| - 1];
    }
  }

  // ---------------------------------------------------------------- the invariant

  function Popped(s: State): int { s.accepted - |s.queue| }

  ghost predicate QueueInv(s: State) {
    && |s.queue| <= s.accepted
    && (forall i :: 0 <= i < |s.queue| ==> s.queue[i] == Popped(s) + i)
  }

  ghost predicate SomeSleeper(s: State) {
    exists w :: 0 <= w < |s.workers| && s.workers[w].pc == Asleep
  }

  /** The pool is work-conserving: beside a sleeper, every queued request has a worker about to
      look at the queue or a signal to come. */
  ghost predicate Conserving(s: State) {
    SomeSleeper(s) ==> |s.queue| <= Sum(ReadyCounts(s.workers)) + One(s.boss == Signal)
  }

  /** One worker is lost for each bad request popped, and none is popped without a worker. */
  ghost predicate LostInv(s: State)
    requires InRange(s) && |s.queue| <= s.accepted
  {
    && Sum(LostCounts(s.good, s.workers)) == Bad(s.good[..Popped(s)])
    && (Popped(s) > 0 ==> Bad(s.good[..Popped(s) - 1]) < |s.workers|)
  }

  ghost predicate StageInv(s: State, r: nat)
    requires r < |s.stages|
  {
    match s.stages[r]
    case Unborn => s.accepted <= r
    case Queued => Popped(s) <= r < s.accepted
    case With(w) => r < Popped(s) && w < |s.workers| && Busy(s.workers[w].pc) && s.workers[w].req == r
    case Freed(w) => r < Popped(s)
  }

  ghost predicate Inv(s: State) {
    && InRange(s) && |s.workers| >= 1 && QueueInv(s) && Conserving(s) && LostInv(s)
    && (forall r :: 0 <= r < |s.stages| ==> StageInv(s, r))
    && (forall w :: 0 <= w < |s.workers| && Busy(s.workers[w].pc) ==> s.stages[s.workers[w].req] == With(w))
  }

  lemma InitInv(s: State)
    requires Init(s)
    ensures Inv(s)
  {
    SumZero(LostCounts(s.good, s.workers));
    assert s.good[..0] == [];
  }

  lemma AcceptStep(s: State)
    requires Inv(s) && s.boss == Accept && BossEnabled(s, None)
    ensures Inv(BossNext(s, None))
  {
    var s' := BossNext(s, None);
    assert Popped(s') == Popped(s);
    forall r | 0 <= r < |s'.stages| ensures StageInv(s', r) {
      assert StageInv(s, r);
    }
    forall w | 0 <= w < |s'.workers| && Busy(s'.workers[w].pc) ensures s'.stages[s'.workers[w].req] == With(w) {
      assert StageInv(s, s.workers[w].req);
    }
    assert SomeSleeper(s') ==> SomeSleeper(s);
  }

  /** A signal or a spurious wakeup turns a sleeper into a ready worker and touches nothing else. */
  lemma WakeCounts(good: seq<bool>, ws: seq<Worker>, t: Option<nat>)
    ensures Sum(LostCounts(good, Wake(ws, t))) == Sum(LostCounts(good, ws))
    ensures Sum(ReadyCounts(Wake(ws, t))) == Sum(ReadyCounts(ws)) + One(Wake(ws, t) != ws)
  {
    match t
    case None =>
    case Some(w) =>
      if w < |ws| && ws[w].pc == Asleep {
        CountsUpdate(good, ws, w, ws[w].(pc := Take));
        assert Wake(ws, t)[w] != ws[w];
      }
  }

  /** Steps that move no request. */
  lemma SameRequests(s: State, s': State)
    requires Inv(s)
    requires s'.good == s.good && s'.accepted == s.accepted && s'.queue == s.queue && s'.stages == s.stages
    requires |s'.workers| == |s.workers|
    requires forall w :: 0 <= w < |s.workers| ==>
               (Busy(s'.workers[w].pc) <==> Busy(s.workers[w].pc)) && s'.workers[w].req == s.workers[w].req
    requires Sum(LostCounts(s'.good, s'.workers)) == Sum(LostCounts(s.good, s.workers))
    requires Conserving(s')
    ensures Inv(s')
  {
    forall r | 0 <= r < |s'.stages| ensures StageInv(s', r) {
      assert StageInv(s, r);
    }
  }

  lemma SignalStep(s: State, wakes: Option<nat>)
    requires Inv(s) && s.boss == Signal && BossEnabled(s, wakes)
    ensures Inv(BossNext(s, wakes))
  {
    var s' := BossNext(s, wakes);
    WakeCounts(s.good, s.workers, wakes);
    if SomeSleeper(s') {
      var w :| 0 <= w < |s'.workers| && s'.workers[w].pc == Asleep;
      assert s.workers[w].pc == Asleep;
      assert wakes.Some?;
      assert s'.workers[wakes.value].pc == Take;
    }
    SameRequests(s, s');
  }

  lemma SleepStep(s: State, w: nat)
    requires Inv(s) && w < |s.workers| && s.workers[w].pc == Take && s.queue == []
    ensures Inv(WorkerNext(s, w, None))
  {
    CountsUpdate(s.good, s.workers, w, s.workers[w].(pc := Asleep));
    SameRequests(s, WorkerNext(s, w, None));
  }

  lemma PopCounts(s: State, w: nat)
    requires Inv(s) && w < |s.workers| && s.workers[w].pc == Take && s.queue != []
    ensures InRange(WorkerNext(s, w, None)) && QueueInv(WorkerNext(s, w, None))
    ensures Conserving(WorkerNext(s, w, None)) && LostInv(WorkerNext(s, w, None))
  {
    var s' := WorkerNext(s, w, None);
    CountsUpdate(s.good, s.workers, w, s'.workers[w]);
    assert s.queue[0] == Popped(s) && Popped(s') == Popped(s) + 1;
    BadNext(s.good, Popped(s));
    var lost := LostCounts(s.good, s.workers);
    SumOfOnes(lost);
    assert lost[w] == 0;
    if SomeSleeper(s') {
      var x :| 0 <= x < |s'.workers| && s'.workers[x].pc == Asleep;
      assert s.workers[x].pc == Asleep;
    }
  }

  lemma PopStep(s: State, w: nat)
    requires Inv(s) && w < |s.workers| && s.workers[w].pc == Take && s.queue != []
    ensures Inv(WorkerNext(s, w, None))
  {
    var s' := WorkerNext(s, w, None);
    PopCounts(s, w);
    forall r | 0 <= r < |s'.stages| ensures StageInv(s', r) {
      assert StageInv(s, r);
    }
    forall x | 0 <= x < |s'.workers| && Busy(s'.workers[x].pc) ensures s'.stages[s'.workers[x].req] == With(x) {
      assert x != w ==> StageInv(s, s.workers[x].req);
    }
  }

  lemma PassStep(s: State, w: nat, wakes: Option<nat>)
    requires Inv(s) && w < |s.workers| && s.workers[w].pc == Pass && WorkerEnabled(s, w, wakes)
    ensures Inv(WorkerNext(s, w, wakes))
  {
    var s' := WorkerNext(s, w, wakes);
    var v' := s.workers[w].(pc := Serve);
    CountsUpdate(s.good, s.workers, w, v');
    WakeCounts(s.good, s.workers[w := v'], wakes);
    if SomeSleeper(s') {
      var x :| 0 <= x < |s'.workers| && s'.workers[x].pc == Asleep;
      assert s.workers[x].pc == Asleep;
      assert wakes.Some? && wakes.value != w;
      assert s'.workers[wakes.value].pc == Take;
    }
    SameRequests(s, s');
  }

  lemma ServeStep(s: State, w: nat)
    requires Inv(s) && w < |s.workers| && s.workers[w].pc == Serve
    ensures Inv(WorkerNext(s, w, None))
  {
    var s' := WorkerNext(s, w, None);
    CountsUpdate(s.good, s.workers, w, s'.workers[w]);
    forall r | 0 <= r < |s'.stages| ensures StageInv(s', r) {
      assert StageInv(s, r);
    }
    if SomeSleeper(s') {
      var x :| 0 <= x < |s'.workers| && s'.workers[x].pc == Asleep;
      assert s.workers[x].pc == Asleep;
    }
  }

  lemma SpuriousStep(s: State, w: nat)
    requires Inv(s) && Sleeps(s, w)
    ensures Inv(Next(s, Spurious(w)))
  {
    var s' := Next(s, Spurious(w));
    WakeCounts(s.good, s.workers, Some(w));
    assert SomeSleeper(s);
    SameRequests(s, s');
  }

  /** Every enabled step keeps the invariant. */
  lemma StepInv(s: State, a: Action)
    requires Inv(s) && Enabled(s, a)
    ensures Inv(Next(s, a))
  {
    match a
    case StepBoss(wakes) => if s.boss == Accept { AcceptStep(s); } else { SignalStep(s, wakes); }
    case StepWorker(w, wakes) =>
      match s.workers[w].pc {
        case Take => if s.queue == [] { SleepStep(s, w); } else { PopStep(s, w); }
        case Pass => PassStep(s, w, wakes);
        case Serve => ServeStep(s, w);
      }
    case Spurious(w) => SpuriousStep(s, w);
  }
}
