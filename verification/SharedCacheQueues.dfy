/** What the queues of the shared-memory cache keep over whole runs, and whom a broadcast wakes.  The
    traffic is read off the workers, not off the queues. */
module SharedCacheQueues {
  import opened Basics
  import opened SharedCache
  import opened SharedCacheTheorems

  // ---------------------------------------------------------------- first in, first out

  /** The segments that workers get and give back, the messages that they send and receive, and the
      paths that they are asked for. */
  datatype Traffic = Traffic(
    taken: seq<nat>, returned: seq<nat>, sent: seq<Msg>, received: seq<Msg>, asked: seq<Path>)

  /** What one step moves: a worker at Acquire that does not fall asleep has got its segment, a cache
      worker at Receive has got its message, and an idle worker its request. */
  function StepTraffic(cfg: Config, s: State, a: Action): Traffic
    requires InRange(cfg, s) && Enabled(cfg, s, a)
  {
    NextInRange(cfg, s, a);
    var s' := Next(cfg, s, a);
    match a
    case Run(p) =>
      var w, w' := s.proxies[p], s'.proxies[p];
      Traffic(
        if w.pc == Acquire && w'.pc != Asleep then [w'.seg] else [],
        if w.pc == Requeue then [w.seg] else [],
        if w.pc == SendMsg then [Msg(w.seg, w.path)] else [],
        [],
        if w.pc == Idle then [w'.path] else [])
    case Serve(c, k) =>
      var w, w' := s.caches[c], s'.caches[c];
      Traffic([], [], [], if w.pc == Receive then [Msg(w'.seg, w'.path)] else [], [])
    case Spurious(_) => Traffic([], [], [], [], [])
  }

  function Joined(t: Traffic, u: Traffic): Traffic {
    Traffic(t.taken + u.taken, t.returned + u.returned, t.sent + u.sent, t.received + u.received, t.asked + u.asked)
  }

  ghost function RunTraffic(cfg: Config, s: State, acts: seq<Action>): Traffic
    requires IsRun(cfg, s, acts)
    decreases |acts|
  {
    if acts == [] then Traffic([], [], [], [], [])
    else Joined(StepTraffic(cfg, s, acts[0]), RunTraffic(cfg, Next(cfg, s, acts[0]), acts[1..]))
  }

  /** The queues and the traffic fit: what has left followed by what is there is what was there
      followed by what has come in. */
  predicate InOrder(cfg: Config, s: State, t: Traffic, e: State) {
    && t.taken + e.pool == s.pool + t.returned
    && t.received + e.mq == s.mq + t.sent
    && s.issued <= e.issued <= |cfg.requests|
    && t.asked + cfg.requests[e.issued..] == cfg.requests[s.issued..]
  }

  lemma InsideIsInOrder(cfg: Config, s: State, p: nat)
    requires InRange(cfg, s) && p < |s.proxies| && ProxyEnabled(cfg, s, p) && ActsInside(s.proxies[p].pc)
    ensures InOrder(cfg, s, StepTraffic(cfg, s, Run(p)), Next(cfg, s, Run(p)))
  {
    hide ProxyLocal, IsLocal, InRange;
    InsideMovesNothing(cfg, s, p);
  }

  lemma InsideMovesNothing(cfg: Config, s: State, p: nat)
    requires InRange(cfg, s) && p < |s.proxies| && ProxyEnabled(cfg, s, p) && ActsInside(s.proxies[p].pc)
    ensures var s' := ProxyNext(cfg, s, p); s'.pool == s.pool && s'.mq == s.mq && s'.issued == s.issued <= |cfg.requests|
  {
    hide ProxyLocal, IsLocal;
  }

  lemma OutsideIsInOrder(cfg: Config, s: State, p: nat)
    requires InRange(cfg, s) && p < |s.proxies| && ProxyEnabled(cfg, s, p) && !ActsInside(s.proxies[p].pc)
    ensures InOrder(cfg, s, StepTraffic(cfg, s, Run(p)), Next(cfg, s, Run(p)))
  {
    hide ProxyLocal, IsLocal;
  }

  lemma ServeIsInOrder(cfg: Config, s: State, c: nat, k: nat)
    requires InRange(cfg, s) && c < |s.caches| && CacheEnabled(cfg, s, c, k)
    ensures InOrder(cfg, s, StepTraffic(cfg, s, Serve(c, k)), Next(cfg, s, Serve(c, k)))
  {
    hide CacheLocal;
  }

  lemma StepIsInOrder(cfg: Config, s: State, a: Action)
    requires InRange(cfg, s) && Enabled(cfg, s, a)
    ensures InOrder(cfg, s, StepTraffic(cfg, s, a), Next(cfg, s, a))
  {
    hide ProxyNext, CacheNext, ProxyEnabled, CacheEnabled;
    match a
    case Run(p) => if ActsInside(s.proxies[p].pc) { InsideIsInOrder(cfg, s, p); } else { OutsideIsInOrder(cfg, s, p); }
    case Serve(c, k) => ServeIsInOrder(cfg, s, c, k);
    case Spurious(_) =>
  }

  lemma Chain<T>(out: seq<T>, left: seq<T>, start: seq<T>, come: seq<T>, out': seq<T>, end: seq<T>, come': seq<T>)
    requires out + left == start + come && out' + end == left + come'
    ensures (out + out') + end == start + (come + come')
  {
    assert (out + out') + end == out + (out' + end);
    assert out + (left + come') == (out + left) + come';
  }

  /** Pool, message queue and request list are first in, first out over every run: segments are reused
      in the order in which they came back, messages are received in the order in which they were
      sent, and requests are taken up in the order in which they came. */
  lemma {:induction false} QueuesKeepOrder(cfg: Config, s: State, acts: seq<Action>)
    requires IsRun(cfg, s, acts) && InRange(cfg, s)
    ensures InOrder(cfg, s, RunTraffic(cfg, s, acts), After(cfg, s, acts))
    decreases |acts|
  {
    if acts == [] {
    } else {
      var m, e := Next(cfg, s, acts[0]), After(cfg, s, acts);
      NextInRange(cfg, s, acts[0]);
      StepIsInOrder(cfg, s, acts[0]);
      hide InRange, Next, Enabled, StepTraffic;
      var t, u := StepTraffic(cfg, s, acts[0]), RunTraffic(cfg, m, acts[1..]);
      QueuesKeepOrder(cfg, m, acts[1..]);
      Chain(t.taken, m.pool, s.pool, t.returned, u.taken, e.pool, u.returned);
      Chain(t.received, m.mq, s.mq, t.sent, u.received, e.mq, u.sent);
      assert (t.asked + u.asked) + cfg.requests[e.issued..] == t.asked + (u.asked + cfg.requests[e.issued..]);
    }
  }

  // ---------------------------------------------------------------- waking

  /** A broadcast wakes every sleeper: afterwards nobody sleeps, those who slept compete for the mutex,
      and the others are where they were. */
  lemma BroadcastWakesEverybody(cfg: Config, s: State, p: nat, q: nat)
    requires InRange(cfg, s) && p < |s.proxies| && q < |s.proxies|
    requires s.proxies[p].pc == AnnouncePop || s.proxies[p].pc == AnnounceFree
    ensures ProxyEnabled(cfg, s, p)
    ensures var ws := ProxyNext(cfg, s, p).proxies;
            && |ws| == |s.proxies|
            && (q != p && s.proxies[q].pc == Asleep ==> ws[q] == s.proxies[q].(pc := Acquire))
            && (q != p && s.proxies[q].pc != Asleep ==> ws[q] == s.proxies[q])
            && (q == p ==> ws[q] == s.proxies[p].(pc := if s.proxies[p].pc == AnnouncePop then InitLen else Idle))
  {
  }

  /** Every other step of a worker leaves the other workers as they are. */
  lemma OtherStepsMoveNobodyElse(cfg: Config, s: State, a: Action, q: nat)
    requires InRange(cfg, s) && Enabled(cfg, s, a) && q < |s.proxies|
    requires a.Run? ==> a.p != q && s.proxies[a.p].pc != AnnouncePop && s.proxies[a.p].pc != AnnounceFree
    requires a.Spurious? ==> a.p != q
    ensures q < |Next(cfg, s, a).proxies| && Next(cfg, s, a).proxies[q] == s.proxies[q]
  {
    hide ProxyLocal, CacheLocal, IsLocal;
  }
}
