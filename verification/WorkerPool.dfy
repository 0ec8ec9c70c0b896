/** The file server's pool as imperative code: the shared linked-list queue and the workers of
    gfserver_main.c, the handler of handler.c, one method per atomic step, each tied to the step
    function of ServerPool. */
module WorkerPool {
  import opened Basics
  import opened ServerPool
  import Queue = Steque
  import Theorems = ServerPoolTheorems

  /** What popping the oldest request does, and that it exists. */
  lemma PopIs(s: State, w: nat)
    requires InRange(s) && w < |s.workers| && s.workers[w].pc == Take && s.queue != []
    ensures s.queue[0] < |s.stages| && InRange(WorkerNext(s, w, None))
    ensures WorkerNext(s, w, None) == s.(
              workers := s.workers[w := Worker(Pass, s.queue[0])],
              queue := s.queue[1..], stages := s.stages[s.queue[0] := With(w)])
  {
  }

  class Pool {
    const good: seq<bool>
    const workQueue: Queue.Steque<nat>
    var boss: BossPc
    var accepted: nat
    var workers: seq<Worker>
    ghost var stages: seq<Stage>

    ghost function View(): State
      reads this, workQueue, workQueue.spine
    {
      State(good, boss, accepted, workQueue.Contents(), workers, stages)
    }

    ghost predicate Coherent()
      reads this, workQueue, workQueue.spine
    {
      workQueue.Valid() && InRange(View())
    }

    /** The queue and the worker threads; fewer than one thread becomes one. */
    constructor (good: seq<bool>, nthreads: int)
      ensures Coherent() && Init(View()) && fresh(workQueue) && fresh(workQueue.spine)
      ensures this.good == good && |workers| == if nthreads < 1 then 1 else nthreads
    {
      this.good := good;
      workQueue := new Queue.Steque();
      boss, accepted := Accept, 0;
      workers := seq(if nthreads < 1 then 1 else nthreads, _ => Worker(Take, 0));
      stages := seq(|good|, _ => Unborn);
    }

    /** gfs_handler: allocate a request and enqueue it under the mutex. */
    method Handle()
      requires Coherent() && boss == Accept && accepted < |good|
      modifies this, workQueue, workQueue.spine
      ensures Coherent() && View() == BossNext(old(View()), None)
      ensures forall i :: 0 <= i < |workQueue.spine| ==> workQueue.spine[i] in old(workQueue.spine) || fresh(workQueue.spine[i])
    {
      workQueue.Enqueue(accepted);
      stages := stages[accepted := Queued];
      accepted := accepted + 1;
      boss := Signal;
    }

    /** pthread_cond_signal: wakes the sleeper named, if any. */
    method WakeOne(wakes: Option<nat>)
      modifies this`workers
      ensures workers == Wake(old(workers), wakes)
    {
      if wakes.Some? && wakes.value < |workers| && workers[wakes.value].pc == Asleep {
        workers := workers[wakes.value := workers[wakes.value].(pc := Take)];
      }
    }

    method SignalWorker(wakes: Option<nat>)
      requires Coherent() && boss == Signal && BossEnabled(View(), wakes)
      modifies this`boss, this`workers
      ensures Coherent() && View() == BossNext(old(View()), wakes)
    {
      boss := Accept;
      WakeOne(wakes);
    }

    /** The pop of a worker that finds the queue not empty. */
    method PopRequest(w: nat)
      requires Coherent() && w < |workers| && workers[w].pc == Take && workQueue.Contents() != []
      modifies this, workQueue, workQueue.spine
      ensures Coherent() && View() == WorkerNext(old(View()), w, None)
      ensures forall i :: 0 <= i < |workQueue.spine| ==> workQueue.spine[i] in old(workQueue.spine)
    {
      hide InRange, WorkerNext, Queue.Steque<nat>.Valid, Queue.Steque<nat>.Contents;
      PopIs(View(), w);
      ghost var next := WorkerNext(View(), w, None);
      var req := workQueue.Pop();
      stages := stages[req.value := With(w)];
      workers := workers[w := Worker(Pass, req.value)];
      assert View() == next;
    }

    /** One pass through the mutex region: sleep on an empty queue, else pop. */
    method TakeRequest(w: nat)
      requires Coherent() && w < |workers| && workers[w].pc == Take
      modifies this, workQueue, workQueue.spine
      ensures Coherent() && View() == WorkerNext(old(View()), w, None)
      ensures forall i :: 0 <= i < |workQueue.spine| ==> workQueue.spine[i] in old(workQueue.spine)
    {
      var empty := workQueue.IsEmpty();
      if empty {
        workers := workers[w := workers[w].(pc := Asleep)];
      } else {
        PopRequest(w);
      }
    }

    method PassOn(w: nat, wakes: Option<nat>)
      requires Coherent() && w < |workers| && workers[w].pc == Pass && WorkerEnabled(View(), w, wakes)
      modifies this`workers
      ensures Coherent() && View() == WorkerNext(old(View()), w, wakes)
    {
      workers := workers[w := workers[w].(pc := Serve)];
      WakeOne(wakes);
    }

    /** Serving the request and freeing it, after the loop body or after the break. */
    method ServeRequest(w: nat)
      requires Coherent() && w < |workers| && workers[w].pc == Serve
      modifies this`workers, this`stages
      ensures Coherent() && View() == WorkerNext(old(View()), w, None)
    {
      stages := stages[workers[w].req := Freed(w)];
      workers := workers[w := workers[w].(pc := if good[workers[w].req] then Take else Gone)];
    }

    /** Any enabled step of any thread, in place: it keeps the invariant of the pool. */
    method Step(a: Action)
      requires Coherent() && Inv(View()) && Enabled(View(), a)
      modifies this, workQueue, workQueue.spine
      ensures Coherent() && Inv(View()) && View() == Next(old(View()), a)
      ensures forall i :: 0 <= i < |workQueue.spine| ==> workQueue.spine[i] in old(workQueue.spine) || fresh(workQueue.spine[i])
    {
      hide Inv, InRange, Queue.Steque<nat>.Valid, Queue.Steque<nat>.Contents;
      StepInv(View(), a);
      ghost var next := Next(View(), a);
      match a
      case StepBoss(wakes) =>
        if boss == Accept { Handle(); } else { SignalWorker(wakes); }
      case StepWorker(w, wakes) =>
        match workers[w].pc {
          case Take => TakeRequest(w);
          case Pass => PassOn(w, wakes);
          case Serve => ServeRequest(w);
        }
      case Spurious(w) => WakeOne(Some(w));
      assert View() == next;
    }

    method CanWake(wakes: Option<nat>) returns (b: bool)
      ensures b == Picks(View(), wakes)
    {
      match wakes
      case None => b := forall w :: 0 <= w < |workers| ==> workers[w].pc != Asleep;
      case Some(w) => b := w < |workers| && workers[w].pc == Asleep;
    }

    method CanStep(a: Action) returns (b: bool)
      ensures b == Enabled(View(), a)
    {
      match a
      case StepBoss(wakes) =>
        if boss == Accept {
          b := accepted < |good|;
        } else {
          b := CanWake(wakes);
        }
      case StepWorker(w, wakes) =>
        if w >= |workers| {
          b := false;
        } else if workers[w].pc == Pass {
          b := CanWake(wakes);
        } else {
          b := workers[w].pc == Take || workers[w].pc == Serve;
        }
      case Spurious(w) => b := CanWake(Some(w));
    }

    /** One entry of a schedule, taken if it can be. */
    method TryStep(a: Action) returns (moved: bool)
      requires Coherent() && Inv(View())
      modifies this, workQueue, workQueue.spine
      ensures Coherent() && Inv(View()) && moved == old(Enabled(View(), a))
      ensures View() == if moved then Next(old(View()), a) else old(View())
      ensures forall i :: 0 <= i < |workQueue.spine| ==> workQueue.spine[i] in old(workQueue.spine) || fresh(workQueue.spine[i])
    {
      hide Inv, Enabled, Next, InRange, Queue.Steque<nat>.Valid, Queue.Steque<nat>.Contents;
      moved := CanStep(a);
      if moved {
        Step(a);
      }
    }

    /** Runs the threads under an arbitrary schedule: an entry that cannot be taken is passed over.
        The steps taken form a run. */
    method RunSchedule(schedule: seq<Action>) returns (ghost taken: seq<Action>)
      requires Coherent() && Inv(View())
      modifies this, workQueue, workQueue.spine
      ensures Coherent() && Inv(View())
      ensures Theorems.IsRun(old(View()), taken) && View() == Theorems.After(old(View()), taken)
    {
      taken := [];
      assert Theorems.IsRun(View(), taken) && Theorems.After(View(), taken) == View();
      hide Inv, Enabled, Next, InRange, Theorems.IsRun, Theorems.After, Queue.Steque<nat>.Valid, Queue.Steque<nat>.Contents;
      for i := 0 to |schedule|
        invariant Coherent() && Inv(View())
        invariant forall j :: 0 <= j < |workQueue.spine| ==> workQueue.spine[j] in old(workQueue.spine) || fresh(workQueue.spine[j])
        invariant Theorems.IsRun(old(View()), taken) && View() == Theorems.After(old(View()), taken)
      {
        var moved := TryStep(schedule[i]);
        if moved {
          Theorems.RunExtends(old(View()), taken, schedule[i]);
          taken := taken + [schedule[i]];
        }
      }
    }
  }
}
