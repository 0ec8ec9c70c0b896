/** The download client's boss and workers as a system of atomic steps.  Both sides sleep on one
    condition variable.  A step is one mutex region, one signal, one broadcast, one join, or one
    local action; a signal wakes any one sleeper, be it the boss or a worker. */
module ClientPool {
  import opened Basics

  datatype BossPc = Issue | Signal | Await | BossAsleep | Announce | Join | Joined

  datatype WorkerPc = Loop | Take | Asleep | Pass | Work | Count | Tell | Gone

  /** `i` is the loop counter of the worker, `req` the number of the request it has popped. */
  datatype Worker = Worker(pc: WorkerPc, i: nat, req: nat)

  /** The history of a request, an auxiliary variable. */
  datatype Stage = Unissued | InQueue | With(w: nat) | Finished(w: nat)

  /** `n` is the option nrequests, any integer that atoi returns. */
  datatype State = State(
    n: int, boss: BossPc, issued: nat, joined: nat,
    queue: seq<nat>, done: nat, workers: seq<Worker>,
    stages: seq<Stage>)

  datatype Thread = Boss | W(w: nat)

  /** A step of the boss or of a worker; `wakes` is the sleeper that a signal picks.  `Spurious`
      is a wakeup that nobody caused. */
  datatype Action = StepBoss(wakes: Option<Thread>) | StepWorker(w: nat, wakes: Option<Thread>) | Spurious(t: Thread)

  predicate Sleeps(s: State, t: Thread) {
    match t
    case Boss => s.boss == BossAsleep
    case W(w) => w < |s.workers| && s.workers[w].pc == Asleep
  }

  ghost predicate SomeSleeper(s: State) {
    s.boss == BossAsleep || exists w :: 0 <= w < |s.workers| && s.workers[w].pc == Asleep
  }

  function WakeBoss(b: BossPc): BossPc { if b == BossAsleep then Await else b }

  function WakeWorker(w: Worker): Worker { if w.pc == Asleep then w.(pc := Take) else w }

  function WakeAll(s: State): State {
    s.(boss := WakeBoss(s.boss),
       workers := seq(|s.workers|, i requires 0 <= i < |s.workers| => WakeWorker(s.workers[i])))
  }

  function Wake(s: State, t: Option<Thread>): State {
    match t
    case None => s
    case Some(Boss) => s.(boss := WakeBoss(s.boss))
    case Some(W(w)) => if w < |s.workers| then s.(workers := s.workers[w := WakeWorker(s.workers[w])]) else s
  }

  /** pthread_cond_signal wakes one sleeper if there is one. */
  ghost predicate Picks(s: State, wakes: Option<Thread>) {
    match wakes
    case None => !SomeSleeper(s)
    case Some(t) => Sleeps(s, t)
  }

  ghost predicate BossEnabled(s: State, wakes: Option<Thread>) {
    match s.boss
    case Signal => Picks(s, wakes)
    case BossAsleep => false
    case Join => s.joined >= |s.workers| || s.workers[s.joined].pc == Gone
    case Joined => false
    case _ => true
  }

  /** Between popping a request and counting it as done. */
  predicate Busy(pc: WorkerPc) { pc == Pass || pc == Work || pc == Count }

  predicate InRange(s: State) {
    && s.issued <= |s.stages| && s.n <= |s.stages|
    && (forall i :: 0 <= i < |s.queue| ==> s.queue[i] < |s.stages|)
    && (forall w :: 0 <= w < |s.workers| && Busy(s.workers[w].pc) ==> s.workers[w].req < |s.stages|)
  }

  function BossNext(s: State, wakes: Option<Thread>): State
    requires InRange(s)
  {
    match s.boss
    case Issue =>
      if s.issued < s.n
      then s.(boss := Signal, issued := s.issued + 1, queue := s.queue + [s.issued], stages := s.stages[s.issued := InQueue])
      else s.(boss := Await)
    case Signal => Wake(s.(boss := Issue), wakes)
    case Await => if s.done != s.n then s.(boss := BossAsleep) else s.(boss := Announce)
    case BossAsleep => s
    case Announce => WakeAll(s.(boss := Join))
    case Join => if s.joined < |s.workers| then s.(joined := s.joined + 1) else s.(boss := Joined)
    case Joined => s
  }

  ghost predicate WorkerEnabled(s: State, w: nat, wakes: Option<Thread>)
    requires w < |s.workers|
  {
    match s.workers[w].pc
    case Asleep => false
    case Pass => Picks(s, wakes)
    case Gone => false
    case _ => true
  }

  function Put(s: State, w: nat, v: Worker): State
    requires w < |s.workers|
  {
    s.(workers := s.workers[w := v])
  }

  function WorkerNext(s: State, w: nat, wakes: Option<Thread>): State
    requires InRange(s) && w < |s.workers|
  {
    var v := s.workers[w];
    match v.pc
    case Loop => Put(s, w, v.(pc := if v.i < s.n then Take else Gone))
    case Take =>
      if s.queue != []
      then Put(s, w, v.(pc := Pass, req := s.queue[0]))
             .(queue := s.queue[1..], stages := s.stages[s.queue[0] := With(w)])
      else Put(s, w, v.(pc := if s.done == s.n then Gone else Asleep))
    case Asleep => s
    case Pass => Wake(Put(s, w, v.(pc := Work)), wakes)
    case Work => Put(s, w, v.(pc := Count))
    case Count => Put(s, w, v.(pc := Tell)).(done := s.done + 1, stages := s.stages[v.req := Finished(w)])
    case Tell => WakeAll(Put(s, w, v.(pc := Loop, i := v.i + 1)))
    case Gone => s
  }

  ghost predicate Enabled(s: State, a: Action) {
    match a
    case StepBoss(wakes) => BossEnabled(s, wakes)
    case StepWorker(w, wakes) => w < |s.workers| && WorkerEnabled(s, w, wakes)
    case Spurious(t) => Sleeps(s, t)
  }

  function Next(s: State, a: Action): State
    requires InRange(s) && (a.StepWorker? ==> a.w < |s.workers|)
  {
    match a
    case StepBoss(wakes) => BossNext(s, wakes)
    case StepWorker(w, wakes) => WorkerNext(s, w, wakes)
    case Spurious(t) => Wake(s, Some(t))
  }

  /** The threads have been created and nothing has been issued. */
  ghost predicate Init(s: State) {
    && s.boss == Issue && s.issued == 0 && s.joined == 0 && s.queue == [] && s.done == 0
    && |s.stages| == (if s.n < 0 then 0 else s.n)
    && (forall r :: 0 <= r < |s.stages| ==> s.stages[r] == Unissued)
    && |s.workers| >= 1
    && (forall w :: 0 <= w < |s.workers| ==> s.workers[w].pc == Loop && s.workers[w].i == 0)
  }

  // ---------------------------------------------------------------- the invariant

  /** Requests a worker has finished, and requests it has taken. */
  function FinishedBy(v: Worker): nat { v.i + if v.pc == Tell then 1 else 0 }

  function TakenBy(v: Worker): nat { v.i + if v.pc == Tell || Busy(v.pc) then 1 else 0 }

  function FinishedCounts(ws: seq<Worker>): seq<nat> {
    seq(|ws|, i requires 0 <= i < |ws| => FinishedBy(ws[i]))
  }

  function TakenCounts(ws: seq<Worker>): seq<nat> {
    seq(|ws|, i requires 0 <= i < |ws| => TakenBy(ws[i]))
  }

  function TakenTotal(s: State): nat { Sum(TakenCounts(s.workers)) }

  /** enqueued == queued + in progress + done, and requests are taken in the order of issue. */
  ghost predicate Counts(s: State) {
    && s.n >= 0 && |s.stages| == s.n && s.issued <= s.n
    && s.done == Sum(FinishedCounts(s.workers))
    && TakenTotal(s) + |s.queue| == s.issued
    && (forall i :: 0 <= i < |s.queue| ==> s.queue[i] == TakenTotal(s) + i)
  }

  ghost predicate StageInv(s: State, r: nat)
    requires r < |s.stages|
  {
    match s.stages[r]
    case Unissued => s.issued <= r
    case InQueue => TakenTotal(s) <= r < s.issued
    case With(w) => r < TakenTotal(s) && w < |s.workers| && Busy(s.workers[w].pc) && s.workers[w].req == r
    case Finished(w) => r < TakenTotal(s) && w < |s.workers|
  }

  ghost predicate WorkerInv(s: State, w: nat)
    requires w < |s.workers|
  {
    var v := s.workers[w];
    && (Busy(v.pc) ==> v.req < |s.stages| && s.stages[v.req] == With(w))
    && (v.pc == Gone ==> s.done == s.n)
  }

  ghost predicate BossInv(s: State) {
    && (s.boss != Issue && s.boss != Signal ==> s.issued == s.n)
    && (s.boss == Announce || s.boss == Join || s.boss == Joined ==> s.done == s.n)
    && s.joined <= |s.workers|
    && (forall w :: 0 <= w < s.joined ==> s.workers[w].pc == Gone)
    && (s.boss != Join && s.boss != Joined ==> s.joined == 0)
    && (s.boss == Joined ==> s.joined == |s.workers|)
  }

  ghost predicate SomeAwake(s: State) {
    exists w :: 0 <= w < |s.workers| && s.workers[w].pc != Asleep && s.workers[w].pc != Gone
  }

  ghost predicate SomeTelling(s: State) {
    exists w :: 0 <= w < |s.workers| && s.workers[w].pc == Tell
  }

  /** No wakeup is lost: queued work has a worker awake or a signal of the boss to come, and
      once all is done a sleeper has a broadcast to come. */
  ghost predicate WakeInv(s: State) {
    && (s.queue != [] ==> SomeAwake(s) || s.boss == Signal)
    && (s.done == s.n && SomeSleeper(s) ==> SomeTelling(s) || s.boss == Announce)
  }

  ghost predicate Inv(s: State) {
    && InRange(s) && |s.workers| >= 1
    && Counts(s) && BossInv(s) && WakeInv(s)
    && (forall r :: 0 <= r < |s.stages| ==> StageInv(s, r))
    && (forall w :: 0 <= w < |s.workers| ==> WorkerInv(s, w))
  }

  // ---------------------------------------------------------------- counting

  lemma {:induction false} SumLeq(ws: seq<nat>, vs: seq<nat>)
    requires |ws| == |vs| && forall i :: 0 <= i < |ws| ==> ws[i] <= vs[i]
    ensures Sum(ws) <= Sum(vs)
    ensures Sum(ws) == Sum(vs) ==> ws == vs
  {
    if ws == [] {
    } else {
      SumLeq(ws[1..], vs[1..]);
      if Sum(ws) == Sum(vs) {
        assert ws == [ws[0]] + ws[1..] && vs == [vs[0]] + vs[1..];
      }
    }
  }

  lemma CountsUpdate(ws: seq<Worker>, w: nat, v: Worker)
    requires w < |ws|
    ensures Sum(FinishedCounts(ws[w := v])) + FinishedBy(ws[w]) == Sum(FinishedCounts(ws)) + FinishedBy(v)
    ensures Sum(TakenCounts(ws[w := v])) + TakenBy(ws[w]) == Sum(TakenCounts(ws)) + TakenBy(v)
  {
    SumUpdate(FinishedCounts(ws), w, FinishedBy(v));
    SumUpdate(TakenCounts(ws), w, TakenBy(v));
    assert FinishedCounts(ws[w := v]) == FinishedCounts(ws)[w := FinishedBy(v)];
    assert TakenCounts(ws[w := v]) == TakenCounts(ws)[w := TakenBy(v)];
  }

  lemma WakeCounts(s: State, t: Option<Thread>)
    ensures FinishedCounts(Wake(s, t).workers) == FinishedCounts(s.workers)
    ensures TakenCounts(Wake(s, t).workers) == TakenCounts(s.workers)
  {
  }

  /** done <= taken <= issued <= n; so when all is done nothing is queued or in progress. */
  lemma DoneBounds(s: State)
    requires Counts(s)
    ensures s.done <= TakenTotal(s) <= s.issued <= s.n
    ensures s.done == s.n ==>
              s.queue == [] && s.issued == s.n
              && forall w :: 0 <= w < |s.workers| ==> !Busy(s.workers[w].pc)
  {
    var f, t := FinishedCounts(s.workers), TakenCounts(s.workers);
    SumLeq(f, t);
    if s.done == s.n {
      forall w | 0 <= w < |s.workers| ensures !Busy(s.workers[w].pc) {
        assert f[w] == t[w];
      }
    }
  }

  /** A worker that has used up its loop has done all requests itself. */
  lemma BoundMeansAllDone(s: State, w: nat)
    requires Counts(s) && w < |s.workers| && s.workers[w].i >= s.n
    ensures s.done == s.n
  {
    DoneBounds(s);
    SumAtLeast(FinishedCounts(s.workers), w);
  }
}
