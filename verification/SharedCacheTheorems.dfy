/** What the shared-memory cache guarantees in every run: stated on runs from an initial state,
    for any number of workers and segments, any interleaving and any chunking by `pread`. */
module SharedCacheTheorems {
  import opened Basics
  import opened SharedCache
  import Invariant = SharedCacheInvariant
  import Steps = SharedCacheSteps
  import Progress = SharedCacheProgress

  /** `acts` can be taken one after the other from s. */
  ghost predicate IsRun(cfg: Config, s: State, acts: seq<Action>)
    decreases |acts|
  {
    acts != [] ==>
      InRange(cfg, s) && Enabled(cfg, s, acts[0]) && IsRun(cfg, Next(cfg, s, acts[0]), acts[1..])
  }

  ghost function After(cfg: Config, s: State, acts: seq<Action>): State
    requires IsRun(cfg, s, acts)
    decreases |acts|
  {
    if acts == [] then s else After(cfg, Next(cfg, s, acts[0]), acts[1..])
  }

  lemma {:induction false} RunKeepsInv(cfg: Config, s: State, acts: seq<Action>)
    requires Invariant.Inv(cfg, s) && IsRun(cfg, s, acts)
    ensures Invariant.Inv(cfg, After(cfg, s, acts))
    decreases |acts|
  {
    if acts == [] {
    } else {
      Steps.StepInv(cfg, s, acts[0]);
      RunKeepsInv(cfg, Next(cfg, s, acts[0]), acts[1..]);
    }
  }

  lemma {:induction false} RunExtends(cfg: Config, s: State, acts: seq<Action>, a: Action)
    requires IsRun(cfg, s, acts)
    requires InRange(cfg, After(cfg, s, acts)) && Enabled(cfg, After(cfg, s, acts), a)
    ensures IsRun(cfg, s, acts + [a])
    ensures After(cfg, s, acts + [a]) == Next(cfg, After(cfg, s, acts), a)
    decreases |acts|
  {
    if acts == [] {
      assert [a][1..] == [];
    } else {
      assert (acts + [a])[1..] == acts[1..] + [a];
      RunExtends(cfg, Next(cfg, s, acts[0]), acts[1..], a);
    }
  }

  ghost predicate Reached(cfg: Config, s0: State, acts: seq<Action>, s: State) {
    Init(cfg, s0) && IsRun(cfg, s0, acts) && s == After(cfg, s0, acts)
  }

  lemma ReachedInv(cfg: Config, s0: State, acts: seq<Action>, s: State)
    requires Reached(cfg, s0, acts, s)
    ensures Invariant.Inv(cfg, s)
  {
    Invariant.InitInv(cfg, s0);
    RunKeepsInv(cfg, s0, acts);
  }

  // ---------------------------------------------------------------- delivery

  /** At every moment a client has received a prefix of the file its own request named, with the
      right header in front; and every completed reply is the promised one. */
  lemma ClientsGetTheirFiles(cfg: Config, s0: State, acts: seq<Action>, s: State)
    requires Reached(cfg, s0, acts, s)
    ensures InRange(cfg, s)
    ensures forall p :: 0 <= p < |s.proxies| && s.proxies[p].pc != Idle ==>
              var w := s.proxies[p];
              && w.path == cfg.requests[w.id]
              && w.sent <= cfg.Body(w.path)
              && (w.header.Some? ==> w.header.value == cfg.Expected(w.path).header)
              && (w.sent != [] ==> w.header.Some?)
    ensures forall id :: 0 <= id < |s.progress| && s.progress[id].Replied? ==>
              s.progress[id].reply == cfg.Expected(cfg.requests[id])
  {
    ReachedInv(cfg, s0, acts, s);
    forall p | 0 <= p < |s.proxies| && s.proxies[p].pc != Idle
      ensures var w := s.proxies[p];
              && w.path == cfg.requests[w.id]
              && w.sent <= cfg.Body(w.path)
              && (w.header.Some? ==> w.header.value == cfg.Expected(w.path).header)
              && (w.sent != [] ==> w.header.Some?)
    {
      assert Invariant.ProxyInv(cfg, s, p);
      if Holding(s.proxies[p].pc) {
        assert Invariant.SegInv(cfg, s, s.proxies[p].seg);
      }
    }
    forall id | 0 <= id < |s.progress| && s.progress[id].Replied?
      ensures s.progress[id].reply == cfg.Expected(cfg.requests[id])
    {
      assert Invariant.ProgressInv(cfg, s, id);
    }
  }

  lemma ReplyStays(cfg: Config, s: State, a: Action, id: nat)
    requires Invariant.Inv(cfg, s) && Enabled(cfg, s, a)
    requires id < |s.progress| && s.progress[id].Replied?
    ensures Next(cfg, s, a).progress[id] == s.progress[id]
  {
    assert Invariant.ProgressInv(cfg, s, id);
    if a.Run? {
      assert Invariant.ProxyInv(cfg, s, a.p);
    }
  }

  /** A request is answered once: no later step replaces its reply. */
  lemma {:induction false} AnsweredOnce(cfg: Config, s: State, acts: seq<Action>, id: nat)
    requires Invariant.Inv(cfg, s) && IsRun(cfg, s, acts)
    requires id < |s.progress| && s.progress[id].Replied?
    ensures |After(cfg, s, acts).progress| == |s.progress|
    ensures After(cfg, s, acts).progress[id] == s.progress[id]
    decreases |acts|
  {
    if acts == [] {
    } else {
      ReplyStays(cfg, s, acts[0], id);
      Steps.StepInv(cfg, s, acts[0]);
      AnsweredOnce(cfg, Next(cfg, s, acts[0]), acts[1..], id);
    }
  }

  // ---------------------------------------------------------------- segments

  ghost function Holders(s: State, g: nat): set<nat> {
    set p | 0 <= p < |s.proxies| && Holding(s.proxies[p].pc) && s.proxies[p].seg == g
  }

  ghost function Messages(s: State, g: nat): set<nat> {
    set i | 0 <= i < |s.mq| && s.mq[i].seg == g
  }

  ghost function Servers(s: State, g: nat): set<nat> {
    set c | 0 <= c < |s.caches| && Attached(s.caches[c]) && s.caches[c].seg == g
  }

  lemma {:induction false} CountDistinct(xs: seq<nat>, x: nat)
    requires forall i, j :: 0 <= i < j < |xs| ==> xs[i] != xs[j]
    ensures multiset(xs)[x] == if x in xs then 1 else 0
  {
    if xs == [] {
    } else {
      assert xs == [xs[0]] + xs[1..];
      CountDistinct(xs[1..], x);
    }
  }

  /** A set whose members are all equal has at most one. */
  lemma AtMostOne(xs: set<nat>, x: nat)
    requires forall y :: y in xs ==> y == x
    ensures xs == {} || xs == {x}
  {
    if y :| y in xs {
      assert xs == {x};
    }
  }

  /** Every segment is either in the pool, once, or held by one proxy worker, and no more than one
      message or cache worker is concerned with it; a free segment has neither. */
  lemma SegmentsAreConserved(cfg: Config, s0: State, acts: seq<Action>, s: State, g: nat)
    requires Reached(cfg, s0, acts, s) && g < |s.segs|
    ensures multiset(s.pool)[g] + |Holders(s, g)| == 1
    ensures |Messages(s, g)| + |Servers(s, g)| <= 1
    ensures g in s.pool ==> Messages(s, g) == {} && Servers(s, g) == {}
  {
    ReachedInv(cfg, s0, acts, s);
    assert Invariant.SegInv(cfg, s, g);
    CountDistinct(s.pool, g);
    HoldersAre(cfg, s, g);
    ServersAre(cfg, s, g);
    MessagesAre(cfg, s, g);
  }

  lemma HoldersAre(cfg: Config, s: State, g: nat)
    requires Invariant.Inv(cfg, s) && g < |s.segs|
    ensures Holders(s, g) == match s.segs[g].owner { case Some(p) => {p} case None => {} }
    ensures g in s.pool <==> s.segs[g].owner == None
  {
    assert Invariant.SegInv(cfg, s, g);
    forall p | p in Holders(s, g) ensures s.segs[g].owner == Some(p) {
      assert Invariant.ProxyInv(cfg, s, p);
    }
  }

  lemma ServersAre(cfg: Config, s: State, g: nat)
    requires Invariant.Inv(cfg, s) && g < |s.segs|
    ensures Servers(s, g) == match s.segs[g].server { case Worker(c) => {c} case _ => {} }
  {
    assert Invariant.SegInv(cfg, s, g);
    forall c | c in Servers(s, g) ensures s.segs[g].server == Worker(c) {
      assert Invariant.CacheInv(cfg, s, c);
    }
  }

  lemma MessagesAre(cfg: Config, s: State, g: nat)
    requires Invariant.Inv(cfg, s) && g < |s.segs|
    ensures |Messages(s, g)| <= 1
    ensures Messages(s, g) != {} ==> s.segs[g].server == Queued
  {
    if i :| i in Messages(s, g) {
      AtMostOne(Messages(s, g), i);
    }
  }

  /** A proxy worker that reads the status finds the one stored for its own request; the branch
      that returns without queueing the segment is never taken. */
  lemma StatusIsForThisRequest(cfg: Config, s0: State, acts: seq<Action>, s: State, p: nat)
    requires Reached(cfg, s0, acts, s) && p < |s.proxies| && s.proxies[p].pc == ReadStatus
    ensures InRange(cfg, s)
    ensures var g := s.segs[s.proxies[p].seg];
            var path := cfg.requests[s.proxies[p].id];
            && g.status == (if path in cfg.files then 200 else 404)
            && g.filesize == (if path in cfg.files then |cfg.files[path]| else 0xFFFF_FFFF_FFFF_FFFF)
            && IsLocal(s.proxies[p], g)
  {
    ReachedInv(cfg, s0, acts, s);
    Invariant.StatusIsKnown(cfg, s, p);
    assert Invariant.ProxyInv(cfg, s, p) && Invariant.SegInv(cfg, s, s.proxies[p].seg);
  }

  /** A segment in the pool has its length fields cleared, and once it has been used its semaphores
      are as sem_init leaves them. */
  lemma PooledIsCleared(cfg: Config, s0: State, acts: seq<Action>, s: State, g: nat)
    requires Reached(cfg, s0, acts, s) && g in s.pool
    ensures g < |s.segs|
    ensures s.segs[g].readLen == 0 && s.segs[g].filesize == 0
    ensures s.segs[g].used ==> s.segs[g].filelenSem == 0 && s.segs[g].proxySem == 0 && s.segs[g].cacheSem == 1
  {
    ReachedInv(cfg, s0, acts, s);
    assert Invariant.SegInv(cfg, s, g);
  }

  /** The message queue never holds more than ten messages, and a sender waits exactly when it
      holds ten. */
  lemma QueueHoldsTen(cfg: Config, s0: State, acts: seq<Action>, s: State)
    requires Reached(cfg, s0, acts, s)
    ensures InRange(cfg, s) && |s.mq| <= 10
    ensures forall p :: 0 <= p < |s.proxies| && s.proxies[p].pc == SendMsg ==>
              (ProxyEnabled(cfg, s, p) <==> |s.mq| != 10)
  {
    ReachedInv(cfg, s0, acts, s);
  }

  // ---------------------------------------------------------------- reuse of segments

  /** What other threads can see of a segment. */
  function Shared(g: Seg): (nat, nat, nat, nat, int, nat, seq<byte>) {
    (g.filelenSem, g.proxySem, g.cacheSem, g.filesize, g.status, g.readLen, g.data)
  }

  /** Recycling is safe: a cache worker whose step changes a segment is serving the request of
      the proxy worker that holds the segment now, and that proxy worker is still waiting for it. */
  lemma OnlyTheCurrentServerWrites(cfg: Config, s0: State, acts: seq<Action>, s: State, c: nat, k: nat, g: nat)
    returns (p: nat)
    requires Reached(cfg, s0, acts, s)
    requires InRange(cfg, s) && c < |s.caches| && CacheEnabled(cfg, s, c, k) && g < |s.segs|
    requires Shared(CacheNext(cfg, s, c, k).segs[g]) != Shared(s.segs[g])
    ensures p < |s.proxies| && s.proxies[p].seg == g == s.caches[c].seg
    ensures Invariant.Asking(s.proxies[p].pc) || Invariant.Sending(s.proxies[p].pc)
    ensures s.proxies[p].path == s.caches[c].path
  {
    ReachedInv(cfg, s0, acts, s);
    var w := s.caches[c];
    assert Attached(w) by {
      if w.pc != Receive && !Attached(w) {
        Steps.LeaveStep(cfg, s, c, k);
      }
    }
    assert Invariant.CacheInv(cfg, s, c) && Invariant.SegInv(cfg, s, w.seg);
    p := s.segs[g].owner.value;
  }

  /** A cache worker that has posted for the last time takes one more step, on its own locals,
      whoever uses its old segment by then. */
  lemma FinishedServerOnlyLeaves(cfg: Config, s0: State, acts: seq<Action>, s: State, c: nat, k: nat)
    requires Reached(cfg, s0, acts, s) && c < |s.caches|
    requires s.caches[c].pc != Receive && !Attached(s.caches[c])
    ensures InRange(cfg, s) && CacheEnabled(cfg, s, c, k)
    ensures CacheNext(cfg, s, c, k) == s.(caches := s.caches[c := s.caches[c].(pc := Receive)])
  {
    ReachedInv(cfg, s0, acts, s);
    Steps.LeaveStep(cfg, s, c, k);
  }

  /** On a segment that has been used before, the three `sem_init` calls store what is there. */
  lemma ReinitialisingChangesNothing(cfg: Config, s0: State, acts: seq<Action>, s: State, p: nat)
    requires Reached(cfg, s0, acts, s) && p < |s.proxies|
    requires s.proxies[p].pc == InitLen || s.proxies[p].pc == InitProxy || s.proxies[p].pc == InitCache
    ensures InRange(cfg, s)
    ensures s.segs[s.proxies[p].seg].used ==> ProxyNext(cfg, s, p).segs == s.segs
  {
    ReachedInv(cfg, s0, acts, s);
    assert Invariant.ProxyInv(cfg, s, p) && Invariant.SegInv(cfg, s, s.proxies[p].seg);
  }

  /** A read may return any number of bytes that fits the buffer and the file, and the buffer then holds
      the next bytes of the file that was asked for. */
  lemma AnyChunkMayBeRead(cfg: Config, s0: State, acts: seq<Action>, s: State, c: nat, k: nat) returns (p: nat)
    requires Reached(cfg, s0, acts, s) && c < |s.caches| && s.caches[c].pc == CachePc.ReadFile
    requires 1 <= k <= cfg.segsize && s.caches[c].nread + k <= |cfg.Body(s.caches[c].path)|
    ensures InRange(cfg, s) && CacheEnabled(cfg, s, c, k)
    ensures p < |s.proxies| && s.proxies[p].seg == s.caches[c].seg && s.proxies[p].id < |cfg.requests|
    ensures s.caches[c].path == cfg.requests[s.proxies[p].id] && s.caches[c].path in cfg.files
    ensures var w, w' := s.caches[c], CacheNext(cfg, s, c, k).caches[c];
            w'.nbytes == k && w'.buf == cfg.files[w.path][w.nread..w.nread + k]
  {
    ReachedInv(cfg, s0, acts, s);
    assert Invariant.CacheInv(cfg, s, c) && Invariant.SegInv(cfg, s, s.caches[c].seg);
    p := s.segs[s.caches[c].seg].owner.value;
    assert Invariant.ProxyInv(cfg, s, p);
  }

  // ---------------------------------------------------------------- the two semaphores

  /** The cache workers between their wait on cachesem of segment g and their post on its proxysem. */
  ghost function Writers(s: State, g: nat): set<nat> {
    set c | c in Servers(s, g) && Invariant.CacheHasToken(s.caches[c].pc)
  }

  predicate Writing(s: State, server: Server) {
    server.Worker? && server.c < |s.caches| && Invariant.CacheHasToken(s.caches[server.c].pc)
  }

  lemma TokenOf(cfg: Config, s: State, p: nat)
    requires Invariant.Inv(cfg, s) && p < |s.proxies|
    requires Holding(s.proxies[p].pc) && !Invariant.Preparing(s.proxies[p].pc)
    ensures var w := s.proxies[p]; var g := s.segs[w.seg];
            g.cacheSem + g.proxySem + One(Writing(s, g.server)) + One(Invariant.ProxyHasToken(w.pc)) == 1
  {
    assert Invariant.ProxyInv(cfg, s, p) && Invariant.SegInv(cfg, s, s.proxies[p].seg);
  }

  lemma WritersAre(cfg: Config, s: State, g: nat)
    requires Invariant.Inv(cfg, s) && g < |s.segs|
    ensures |Writers(s, g)| == One(Writing(s, s.segs[g].server))
  {
    hide Invariant.Inv;
    ServersAre(cfg, s, g);
    if Writing(s, s.segs[g].server) {
      assert Writers(s, g) == {s.segs[g].server.c};
    } else {
      assert Writers(s, g) == {};
    }
  }

  /** From the request to the return of the segment, one token moves between the two semaphores
      and the two sides of the transfer, so a chunk is never stored and sent at the same time. */
  lemma OneTokenPerTransfer(cfg: Config, s0: State, acts: seq<Action>, s: State, p: nat)
    requires Reached(cfg, s0, acts, s) && p < |s.proxies|
    requires Holding(s.proxies[p].pc) && !Invariant.Preparing(s.proxies[p].pc)
    ensures InRange(cfg, s)
    ensures var w := s.proxies[p]; var g := s.segs[w.seg];
            g.cacheSem + g.proxySem + |Writers(s, w.seg)| + One(Invariant.ProxyHasToken(w.pc)) == 1
  {
    ReachedInv(cfg, s0, acts, s);
    TokenOf(cfg, s, p);
    hide Invariant.Inv;
    WritersAre(cfg, s, s.proxies[p].seg);
  }

  /** The cache worker is at most one chunk ahead of the proxy worker. */
  lemma AtMostOneChunkAhead(cfg: Config, s0: State, acts: seq<Action>, s: State, p: nat, c: nat)
    requires Reached(cfg, s0, acts, s) && p < |s.proxies| && c < |s.caches|
    requires Holding(s.proxies[p].pc) && Attached(s.caches[c]) && s.caches[c].seg == s.proxies[p].seg
    requires !Invariant.AnsweringPc(s.caches[c].pc)
    ensures InRange(cfg, s)
    ensures s.proxies[p].transferred <= s.caches[c].nread <= s.proxies[p].transferred + cfg.segsize
    ensures s.caches[c].nread <= |cfg.Body(s.proxies[p].path)|
    ensures s.segs[s.proxies[p].seg].readLen <= cfg.segsize
  {
    ReachedInv(cfg, s0, acts, s);
    assert Invariant.CacheInv(cfg, s, c) && Invariant.ProxyInv(cfg, s, p);
    assert Invariant.SegInv(cfg, s, s.proxies[p].seg);
  }

  // ---------------------------------------------------------------- waking and finishing

  /** A proxy worker sleeps beside a non-empty pool only while some worker has its broadcast
      still to make. */
  lemma NoWakeupIsLost(cfg: Config, s0: State, acts: seq<Action>, s: State, p: nat) returns (q: nat)
    requires Reached(cfg, s0, acts, s)
    requires p < |s.proxies| && s.proxies[p].pc == Asleep && s.pool != []
    ensures q < |s.proxies| && (s.proxies[q].pc == AnnouncePop || s.proxies[q].pc == AnnounceFree)
  {
    ReachedInv(cfg, s0, acts, s);
    q :| 0 <= q < |s.proxies| && Invariant.Announcing(s.proxies[q].pc);
  }

  /** How many wakeups of a schedule nobody caused. */
  function SpuriousCount(acts: seq<Action>): nat {
    if acts == [] then 0 else One(acts[0].Spurious?) + SpuriousCount(acts[1..])
  }

  lemma StepFalls(cfg: Config, s: State, a: Action)
    requires Invariant.Inv(cfg, s) && Enabled(cfg, s, a) && !a.Spurious?
    ensures Invariant.Inv(cfg, Next(cfg, s, a))
    ensures Progress.Measure(cfg, Next(cfg, s, a)) < Progress.Measure(cfg, s)
  {
    hide Progress.Measure;
    match a
    case Run(p) => Progress.ProxyFalls(cfg, s, p);
    case Serve(c, k) => Progress.CacheFalls(cfg, s, c, k);
  }

  /** A spurious wakeup sends one sleeper back to the mutex. */
  lemma SpuriousCosts(cfg: Config, s: State, p: nat)
    requires Invariant.Inv(cfg, s) && Enabled(cfg, s, Spurious(p))
    ensures Invariant.Inv(cfg, Next(cfg, s, Spurious(p)))
    ensures Progress.Measure(cfg, Next(cfg, s, Spurious(p))) == Progress.Measure(cfg, s) + 1
  {
    Steps.StepInv(cfg, s, Spurious(p));
    Progress.ProxyUpdate(cfg, s.proxies, p, s.proxies[p].(pc := Acquire));
  }

  /** A run is no longer than the measure of its first state and twice its spurious wakeups. */
  lemma {:induction false} RunsAreBounded(cfg: Config, s: State, acts: seq<Action>)
    requires Invariant.Inv(cfg, s) && IsRun(cfg, s, acts)
    ensures After(cfg, s, acts).issued <= |cfg.requests|
    ensures |acts| + Progress.Measure(cfg, After(cfg, s, acts)) <= Progress.Measure(cfg, s) + 2 * SpuriousCount(acts)
    decreases |acts|
  {
    if acts == [] {
    } else {
      match acts[0] {
        case Spurious(p) => SpuriousCosts(cfg, s, p);
        case _ => StepFalls(cfg, s, acts[0]);
      }
      hide Progress.Measure, Next;
      RunsAreBounded(cfg, Next(cfg, s, acts[0]), acts[1..]);
    }
  }

  /** All requests answered, as promised. */
  ghost predicate AllAnswered(cfg: Config, s: State) {
    && |s.progress| == |cfg.requests|
    && forall id :: 0 <= id < |s.progress| ==> s.progress[id] == Replied(cfg.Expected(cfg.requests[id]))
  }

  lemma FinishedMeansAnswered(cfg: Config, s: State)
    requires Invariant.Inv(cfg, s) && Progress.Finished(cfg, s)
    ensures AllAnswered(cfg, s)
  {
    forall id | 0 <= id < |s.progress| ensures s.progress[id] == Replied(cfg.Expected(cfg.requests[id])) {
      assert Invariant.ProgressInv(cfg, s, id);
    }
  }

  /** A run that cannot be continued has answered every request: there is no deadlock. */
  lemma StuckMeansAnswered(cfg: Config, s0: State, acts: seq<Action>, s: State)
    requires Reached(cfg, s0, acts, s) && Progress.Deployed(cfg, s)
    ensures InRange(cfg, s)
    ensures !Progress.CanMove(cfg, s) ==> AllAnswered(cfg, s)
  {
    ReachedInv(cfg, s0, acts, s);
    if !Progress.CanMove(cfg, s) {
      if !Progress.Finished(cfg, s) {
        Progress.NoDeadlock(cfg, s);
      }
      FinishedMeansAnswered(cfg, s);
    }
  }

  lemma StepKeepsDeployment(cfg: Config, s: State, a: Action)
    requires InRange(cfg, s) && Enabled(cfg, s, a) && Progress.Deployed(cfg, s)
    ensures Progress.Deployed(cfg, Next(cfg, s, a))
  {
    NextInRange(cfg, s, a);
  }

  /** An unfinished state has a step that brings the end nearer. */
  lemma SomeStep(cfg: Config, s: State) returns (a: Action)
    requires Invariant.Inv(cfg, s) && Progress.Deployed(cfg, s) && !Progress.Finished(cfg, s)
    ensures InRange(cfg, s) && Enabled(cfg, s, a) && !a.Spurious?
    ensures Invariant.Inv(cfg, Next(cfg, s, a)) && Progress.Deployed(cfg, Next(cfg, s, a))
    ensures Progress.Measure(cfg, Next(cfg, s, a)) < Progress.Measure(cfg, s)
  {
    Progress.NoDeadlock(cfg, s);
    hide Progress.Measure, Next, Progress.Deployed, Progress.Finished;
    if p :| 0 <= p < |s.proxies| && ProxyEnabled(cfg, s, p) {
      a := Run(p);
    } else {
      var c: nat, k: nat :| c < |s.caches| && CacheEnabled(cfg, s, c, k);
      a := Serve(c, k);
    }
    StepFalls(cfg, s, a);
    StepKeepsDeployment(cfg, s, a);
  }

  lemma {:induction false} RunKeepsDeployment(cfg: Config, s: State, acts: seq<Action>)
    requires IsRun(cfg, s, acts) && Progress.Deployed(cfg, s)
    ensures Progress.Deployed(cfg, After(cfg, s, acts))
    decreases |acts|
  {
    if acts == [] {
    } else {
      StepKeepsDeployment(cfg, s, acts[0]);
      RunKeepsDeployment(cfg, Next(cfg, s, acts[0]), acts[1..]);
    }
  }

  /** However the workers are scheduled, a run with finitely many spurious wakeups comes to an end,
      and where it cannot go on every request has been answered as promised. */
  lemma EveryMaximalRunAnswers(cfg: Config, s0: State, acts: seq<Action>)
    requires Init(cfg, s0) && IsRun(cfg, s0, acts) && Progress.Deployed(cfg, s0)
    ensures |acts| <= Progress.Measure(cfg, s0) + 2 * SpuriousCount(acts)
    ensures var s := After(cfg, s0, acts);
            InRange(cfg, s) && (Progress.CanMove(cfg, s) || AllAnswered(cfg, s))
  {
    Invariant.InitInv(cfg, s0);
    hide Invariant.Inv, Progress.Measure, Progress.Deployed, Init, Progress.CanMove, AllAnswered;
    RunsAreBounded(cfg, s0, acts);
    RunKeepsDeployment(cfg, s0, acts);
    StuckMeansAnswered(cfg, s0, acts, After(cfg, s0, acts));
  }

  /** From every state that satisfies the invariant the workers can finish. */
  lemma {:induction false} EveryRunCanFinish(cfg: Config, s: State) returns (acts: seq<Action>)
    requires Invariant.Inv(cfg, s) && Progress.Deployed(cfg, s)
    ensures IsRun(cfg, s, acts) && SpuriousCount(acts) == 0
    ensures AllAnswered(cfg, After(cfg, s, acts))
    decreases Progress.Measure(cfg, s)
  {
    if Progress.Finished(cfg, s) {
      FinishedMeansAnswered(cfg, s);
      acts := [];
    } else {
      hide Progress.Measure, Next, Invariant.Inv, AllAnswered;
      var a := SomeStep(cfg, s);
      var rest := EveryRunCanFinish(cfg, Next(cfg, s, a));
      acts := [a] + rest;
      assert acts[1..] == rest;
    }
  }
}
