/** The download client's pool as imperative code: the globals of gfclient_download.c with the
    linked-list work queue, one method per atomic step, each tied to the step function of
    ClientPool. */
module DownloadPool {
  import opened Basics
  import opened ClientPool
  import Queue = Steque
  import Steps = ClientPoolSteps
  import Theorems = ClientPoolTheorems

  /** What popping the oldest request does, and that it exists. */
  lemma PopIs(s: State, w: nat)
    requires InRange(s) && w < |s.workers| && s.workers[w].pc == Take && s.queue != []
    ensures s.queue[0] < |s.stages| && InRange(WorkerNext(s, w, None))
    ensures WorkerNext(s, w, None) == s.(
              workers := s.workers[w := s.workers[w].(pc := Pass, req := s.queue[0])],
              queue := s.queue[1..], stages := s.stages[s.queue[0] := With(w)])
  {
  }

  class Pool {
    const nrequests: int
    const workQueue: Queue.Steque<nat>
    var nrequestsDone: nat
    var boss: BossPc
    var issued: nat
    var joined: nat
    var workers: seq<Worker>
    ghost var stages: seq<Stage>

    ghost function View(): State
      reads this, workQueue, workQueue.spine
    {
      State(nrequests, boss, issued, joined, workQueue.Contents(), nrequestsDone, workers, stages)
    }

    ghost predicate Coherent()
      reads this, workQueue, workQueue.spine
    {
      workQueue.Valid() && InRange(View())
    }

    /** The work queue and the worker threads of main. */
    constructor (nrequests: int, nthreads: nat)
      requires nthreads >= 1
      ensures Coherent() && Init(View()) && fresh(workQueue) && fresh(workQueue.spine)
      ensures this.nrequests == nrequests && |workers| == nthreads
    {
      this.nrequests := nrequests;
      workQueue := new Queue.Steque();
      nrequestsDone, boss, issued, joined := 0, Issue, 0, 0;
      workers := seq(nthreads, _ => Worker(Loop, 0, 0));
      stages := seq(if nrequests < 0 then 0 else nrequests, _ => Unissued);
    }

    // -------------------------------------------------------------- the boss

    /** One turn of the issuing loop up to the unlock, or its end. */
    method IssueRequest()
      requires Coherent() && boss == Issue
      modifies this, workQueue, workQueue.spine
      ensures Coherent() && View() == BossNext(old(View()), None)
      ensures forall i :: 0 <= i < |workQueue.spine| ==> workQueue.spine[i] in old(workQueue.spine) || fresh(workQueue.spine[i])
    {
      if issued < nrequests {
        workQueue.Enqueue(issued);
        stages := stages[issued := InQueue];
        issued := issued + 1;
        boss := Signal;
      } else {
        boss := Await;
      }
    }

    /** pthread_cond_signal: wakes the sleeper named, if any. */
    method WakeOne(wakes: Option<Thread>)
      modifies this`boss, this`workers
      ensures boss == (if wakes == Some(Boss) then WakeBoss(old(boss)) else old(boss))
      ensures workers == match wakes
                         case Some(W(w)) => if w < |old(workers)| then old(workers)[w := WakeWorker(old(workers)[w])] else old(workers)
                         case _ => old(workers)
    {
      match wakes
      case None =>
      case Some(Boss) =>
        if boss == BossAsleep {
          boss := Await;
        }
      case Some(W(w)) =>
        if w < |workers| && workers[w].pc == Asleep {
          workers := workers[w := workers[w].(pc := Take)];
        }
    }

    /** pthread_cond_broadcast */
    method Broadcast()
      modifies this`boss, this`workers
      ensures boss == WakeBoss(old(boss)) && |workers| == |old(workers)|
      ensures forall i :: 0 <= i < |workers| ==> workers[i] == WakeWorker(old(workers)[i])
    {
      if boss == BossAsleep {
        boss := Await;
      }
      for i := 0 to |workers|
        invariant |workers| == |old(workers)| && boss == WakeBoss(old(boss))
        invariant forall j :: 0 <= j < i ==> workers[j] == WakeWorker(old(workers)[j])
        invariant forall j :: i <= j < |workers| ==> workers[j] == old(workers)[j]
      {
        if workers[i].pc == Asleep {
          workers := workers[i := workers[i].(pc := Take)];
        }
      }
    }

    method SignalWorker(wakes: Option<Thread>)
      requires Coherent() && boss == Signal && BossEnabled(View(), wakes)
      modifies this`boss, this`workers
      ensures Coherent() && View() == BossNext(old(View()), wakes)
    {
      boss := Issue;
      WakeOne(wakes);
    }

    /** One test of nrequests_done != nrequests under the mutex. */
    method AwaitAll()
      requires Coherent() && boss == Await
      modifies this`boss
      ensures Coherent() && View() == BossNext(old(View()), None)
    {
      boss := if nrequestsDone != nrequests then BossAsleep else Announce;
    }

    method AnnounceEnd()
      requires Coherent() && boss == Announce
      modifies this`boss, this`workers
      ensures Coherent() && View() == BossNext(old(View()), None)
    {
      boss := Join;
      Broadcast();
    }

    method JoinWorker()
      requires Coherent() && boss == Join && BossEnabled(View(), None)
      modifies this`boss, this`joined
      ensures Coherent() && View() == BossNext(old(View()), None)
    {
      if joined < |workers| {
        joined := joined + 1;
      } else {
        boss := Joined;
      }
    }

    // -------------------------------------------------------------- thread_handle_req

    method TestLoop(w: nat)
      requires Coherent() && w < |workers| && workers[w].pc == Loop
      modifies this`workers
      ensures Coherent() && View() == WorkerNext(old(View()), w, None)
    {
      workers := workers[w := workers[w].(pc := if workers[w].i < nrequests then Take else Gone)];
    }

    /** The pop of a worker that finds the queue not empty. */
    method PopRequest(w: nat)
      requires Coherent() && w < |workers| && workers[w].pc == Take && workQueue.Contents() != []
      modifies this, workQueue, workQueue.spine
      ensures Coherent() && View() == WorkerNext(old(View()), w, None)
      ensures forall i :: 0 <= i < |workQueue.spine| ==> workQueue.spine[i] in old(workQueue.spine)
    {
      hide InRange, WorkerNext, Queue.Steque<nat>.Valid, Queue.Steque<nat>.Contents;
      PopIs(View(), w);
      ghost var next := WorkerNext(View(), w, None);
      var req := workQueue.Pop();
      stages := stages[req.value := With(w)];
      workers := workers[w := workers[w].(pc := Pass, req := req.value)];
      assert View() == next;
    }

    /** A worker that finds the queue empty leaves when all is done, else falls asleep. */
    method LeaveOrSleep(w: nat)
      requires Coherent() && w < |workers| && workers[w].pc == Take && workQueue.Contents() == []
      modifies this`workers
      ensures Coherent() && View() == WorkerNext(old(View()), w, None)
    {
      if nrequestsDone == nrequests {
        workers := workers[w := workers[w].(pc := Gone)];
      } else {
        workers := workers[w := workers[w].(pc := Asleep)];
      }
    }

    /** One pass through the mutex region at the head of the worker's loop. */
    method TakeRequest(w: nat)
      requires Coherent() && w < |workers| && workers[w].pc == Take
      modifies this, workQueue, workQueue.spine
      ensures Coherent() && View() == WorkerNext(old(View()), w, None)
      ensures forall i :: 0 <= i < |workQueue.spine| ==> workQueue.spine[i] in old(workQueue.spine)
    {
      var empty := workQueue.IsEmpty();
      if empty {
        LeaveOrSleep(w);
      } else {
        PopRequest(w);
      }
    }

    method PassOn(w: nat, wakes: Option<Thread>)
      requires Coherent() && w < |workers| && workers[w].pc == Pass && WorkerEnabled(View(), w, wakes)
      modifies this`boss, this`workers
      ensures Coherent() && View() == WorkerNext(old(View()), w, wakes)
    {
      workers := workers[w := workers[w].(pc := Work)];
      WakeOne(wakes);
    }

    /** set_request_main_code */
    method Download(w: nat)
      requires Coherent() && w < |workers| && workers[w].pc == Work
      modifies this`workers
      ensures Coherent() && View() == WorkerNext(old(View()), w, None)
    {
      workers := workers[w := workers[w].(pc := Count)];
    }

    method CountDone(w: nat)
      requires Coherent() && w < |workers| && workers[w].pc == Count
      modifies this
      ensures Coherent() && View() == WorkerNext(old(View()), w, None)
    {
      nrequestsDone := nrequestsDone + 1;
      stages := stages[workers[w].req := Finished(w)];
      workers := workers[w := workers[w].(pc := Tell)];
    }

    method TellAll(w: nat)
      requires Coherent() && w < |workers| && workers[w].pc == Tell
      modifies this`boss, this`workers
      ensures Coherent() && View() == WorkerNext(old(View()), w, None)
    {
      workers := workers[w := workers[w].(pc := Loop, i := workers[w].i + 1)];
      Broadcast();
    }

    method StepWorkerOf(w: nat, wakes: Option<Thread>)
      requires Coherent() && w < |workers| && WorkerEnabled(View(), w, wakes)
      modifies this, workQueue, workQueue.spine
      ensures Coherent() && View() == WorkerNext(old(View()), w, wakes)
      ensures forall i :: 0 <= i < |workQueue.spine| ==> workQueue.spine[i] in old(workQueue.spine)
    {
      match workers[w].pc
      case Loop => TestLoop(w);
      case Take => TakeRequest(w);
      case Pass => PassOn(w, wakes);
      case Work => Download(w);
      case Count => CountDone(w);
      case Tell => TellAll(w);
    }

    method StepBossOf(wakes: Option<Thread>)
      requires Coherent() && BossEnabled(View(), wakes)
      modifies this, workQueue, workQueue.spine
      ensures Coherent() && View() == BossNext(old(View()), wakes)
      ensures forall i :: 0 <= i < |workQueue.spine| ==> workQueue.spine[i] in old(workQueue.spine) || fresh(workQueue.spine[i])
    {
      match boss
      case Issue => IssueRequest();
      case Signal => SignalWorker(wakes);
      case Await => AwaitAll();
      case Announce => AnnounceEnd();
      case Join => JoinWorker();
    }

    /** Any enabled step of any thread, in place: it keeps the invariant of the pool. */
    method Step(a: Action)
      requires Coherent() && Inv(View()) && Enabled(View(), a)
      modifies this, workQueue, workQueue.spine
      ensures Coherent() && Inv(View()) && View() == Next(old(View()), a)
      ensures forall i :: 0 <= i < |workQueue.spine| ==> workQueue.spine[i] in old(workQueue.spine) || fresh(workQueue.spine[i])
    {
      hide Inv, InRange, Queue.Steque<nat>.Valid, Queue.Steque<nat>.Contents;
      Steps.StepInv(View(), a);
      ghost var next := Next(View(), a);
      match a
      case StepBoss(wakes) => StepBossOf(wakes);
      case StepWorker(w, wakes) => StepWorkerOf(w, wakes);
      case Spurious(t) => WakeOne(Some(t));
      assert View() == next;
    }

    method CanWake(wakes: Option<Thread>) returns (b: bool)
      ensures b == Picks(View(), wakes)
    {
      match wakes
      case None => b := boss != BossAsleep && forall w :: 0 <= w < |workers| ==> workers[w].pc != Asleep;
      case Some(Boss) => b := boss == BossAsleep;
      case Some(W(w)) => b := w < |workers| && workers[w].pc == Asleep;
    }

    method CanStep(a: Action) returns (b: bool)
      ensures b == Enabled(View(), a)
    {
      match a
      case StepBoss(wakes) =>
        match boss {
          case Signal => b := CanWake(wakes);
          case Join => b := joined >= |workers| || workers[joined].pc == Gone;
          case _ => b := boss != BossAsleep && boss != Joined;
        }
      case StepWorker(w, wakes) =>
        if w >= |workers| {
          b := false;
        } else if workers[w].pc == Pass {
          b := CanWake(wakes);
        } else {
          b := workers[w].pc != Asleep && workers[w].pc != Gone;
        }
      case Spurious(t) => b := CanWake(Some(t));
    }

    /** One entry of a schedule, taken if it can be. */
    method TryStep(a: Action) returns (moved: bool)
      requires Coherent() && Inv(View())
      modifies this, workQueue, workQueue.spine
      ensures Coherent() && Inv(View()) && moved == old(Enabled(View(), a))
      ensures View() == if moved then Next(old(View()), a) else old(View())
      ensures forall i :: 0 <= i < |workQueue.spine| ==> workQueue.spine[i] in old(workQueue.spine) || fresh(workQueue.spine[i])
    {
      hide Inv, Enabled, Next, InRange, Queue.Steque<nat>.Valid, Queue.Steque<nat>.Contents;
      moved := CanStep(a);
      if moved {
        Step(a);
      }
    }

    /** Runs the threads under an arbitrary schedule: an entry that cannot be taken is passed over.
        The steps taken form a run. */
    method RunSchedule(schedule: seq<Action>) returns (ghost taken: seq<Action>)
      requires Coherent() && Inv(View())
      modifies this, workQueue, workQueue.spine
      ensures Coherent() && Inv(View())
      ensures Theorems.IsRun(old(View()), taken) && View() == Theorems.After(old(View()), taken)
    {
      taken := [];
      assert Theorems.IsRun(View(), taken) && Theorems.After(View(), taken) == View();
      hide Inv, Enabled, Next, InRange, Theorems.IsRun, Theorems.After, Queue.Steque<nat>.Valid, Queue.Steque<nat>.Contents;
      for i := 0 to |schedule|
        invariant Coherent() && Inv(View())
        invariant forall j :: 0 <= j < |workQueue.spine| ==> workQueue.spine[j] in old(workQueue.spine) || fresh(workQueue.spine[j])
        invariant Theorems.IsRun(old(View()), taken) && View() == Theorems.After(old(View()), taken)
      {
        var moved := TryStep(schedule[i]);
        if moved {
          Theorems.RunExtends(old(View()), taken, schedule[i]);
          taken := taken + [schedule[i]];
        }
      }
    }
  }
}
