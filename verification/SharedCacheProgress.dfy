/** Progress of the shared-memory cache protocol: no reachable state is stuck, and a natural
    number falls with every step that is not a spurious wakeup. */
module SharedCacheProgress {
  import opened Basics
  import opened SharedCache
  import opened SharedCacheInvariant
  import opened SharedCacheSteps

  // ---------------------------------------------------------------- deadlock freedom

  /** Every request has been handed out and answered, and every proxy worker is idle again. */
  predicate Finished(cfg: Config, s: State) {
    s.issued == |cfg.requests| && forall p :: 0 <= p < |s.proxies| ==> s.proxies[p].pc == Idle
  }

  /** Some worker can take a step of its own. */
  ghost predicate CanMove(cfg: Config, s: State)
    requires InRange(cfg, s)
  {
    || (exists p :: 0 <= p < |s.proxies| && ProxyEnabled(cfg, s, p))
    || (exists c, k :: 0 <= c < |s.caches| && CacheEnabled(cfg, s, c, k))
  }

  predicate Deployed(cfg: Config, s: State) {
    cfg.segsize >= 1 && |s.segs| >= 1 && |s.proxies| >= 1 && |s.caches| >= 1
  }

  /** A cache worker that is not waiting for work or for space can move. */
  lemma BusyCacheMoves(cfg: Config, s: State, c: nat)
    requires Inv(cfg, s) && cfg.segsize >= 1 && c < |s.caches|
    requires Attached(s.caches[c])
    requires s.caches[c].pc == WaitSpace ==> s.segs[s.caches[c].seg].cacheSem > 0
    ensures CanMove(cfg, s)
  {
    var w := s.caches[c];
    assert CacheInv(cfg, s, c) && SegInv(cfg, s, w.seg);
    assert CacheEnabled(cfg, s, c, 1);
  }

  /** A proxy worker that waits on a semaphore of its segment is never alone: it can go on, or
      its request is still in the message queue, or the cache worker serving it can move. */
  lemma WaitingProxyIsServed(cfg: Config, s: State, p: nat)
    requires Inv(cfg, s) && cfg.segsize >= 1 && p < |s.proxies|
    requires s.proxies[p].pc == WaitLen || s.proxies[p].pc == WaitChunk
    ensures CanMove(cfg, s) || s.mq != []
  {
    var w := s.proxies[p];
    var g := s.segs[w.seg];
    assert ProxyInv(cfg, s, p) && SegInv(cfg, s, w.seg);
    if ProxyEnabled(cfg, s, p) {
    } else if g.server.Worker? {
      BusyCacheMoves(cfg, s, g.server.c);
    }
  }

  /** A cache worker that waits for space has a proxy worker that can go on. */
  lemma WaitingCacheIsServed(cfg: Config, s: State, c: nat)
    requires Inv(cfg, s) && cfg.segsize >= 1 && c < |s.caches| && s.caches[c].pc == WaitSpace
    ensures CanMove(cfg, s)
  {
    var g := s.segs[s.caches[c].seg];
    assert CacheInv(cfg, s, c) && SegInv(cfg, s, s.caches[c].seg);
    if g.cacheSem > 0 {
      assert CacheEnabled(cfg, s, c, 0);
    } else {
      assert ProxyEnabled(cfg, s, g.owner.value);
    }
  }

  /** A message in the queue can be taken, or its takers are all serving someone. */
  lemma MessageIsTaken(cfg: Config, s: State)
    requires Inv(cfg, s) && cfg.segsize >= 1 && |s.caches| >= 1 && s.mq != []
    ensures CanMove(cfg, s)
  {
    if s.caches[0].pc == WaitSpace {
      WaitingCacheIsServed(cfg, s, 0);
    } else if Attached(s.caches[0]) {
      BusyCacheMoves(cfg, s, 0);
    } else {
      assert CacheEnabled(cfg, s, 0, 0);
    }
  }

  /** When every proxy worker is idle or asleep, the pool is full and so nobody sleeps. */
  lemma AllAsleepIsImpossible(cfg: Config, s: State, p: nat)
    requires Inv(cfg, s) && |s.segs| >= 1 && p < |s.proxies| && s.proxies[p].pc == Asleep
    ensures exists q :: 0 <= q < |s.proxies| && s.proxies[q].pc != Idle && s.proxies[q].pc != Asleep
  {
    assert SegInv(cfg, s, 0);
    if s.segs[0].owner.Some? {
      assert Holding(s.proxies[s.segs[0].owner.value].pc);
    }
  }

  /** No deadlock: an unfinished state has a worker that can move. */
  lemma NoDeadlock(cfg: Config, s: State)
    requires Inv(cfg, s) && Deployed(cfg, s) && !Finished(cfg, s)
    ensures CanMove(cfg, s)
  {
    if s.mq != [] {
      MessageIsTaken(cfg, s);
    } else if p :| 0 <= p < |s.proxies| && s.proxies[p].pc != Idle && s.proxies[p].pc != Asleep {
      if s.proxies[p].pc == WaitLen || s.proxies[p].pc == WaitChunk {
        WaitingProxyIsServed(cfg, s, p);
      } else {
        assert ProxyEnabled(cfg, s, p);
      }
    } else if p :| 0 <= p < |s.proxies| && s.proxies[p].pc == Asleep {
      AllAsleepIsImpossible(cfg, s, p);
    } else {
      assert s.proxies[0].pc == Idle;
      assert ProxyEnabled(cfg, s, 0);
    }
  }

  // ---------------------------------------------------------------- the measure

  function Minus(a: nat, b: nat): nat { if b <= a then a - b else 0 }

  function CacheWeight(cfg: Config, w: Cache): nat {
    var r := Minus(|cfg.Body(w.path)|, w.nread);
    match w.pc
    case Receive => 0
    case StoreSize => 6 * |cfg.Body(w.path)| + 7
    case StoreStatus => 6 * |cfg.Body(w.path)| + 6
    case PostLen => 6 * |cfg.Body(w.path)| + 5
    case ReadTest => 6 * r + 4
    case WaitSpace => 6 * r + 3
    case ReadFile => 6 * r + 2
    case StoreLen => 6 * r + 1
    case StoreData => 6 * r
    case PostChunk => 6 * r + 5
  }

  function MsgWeight(cfg: Config, m: Msg): nat {
    6 * |cfg.Body(m.path)| + 8
  }

  /** n is the number of proxy workers, which bounds how many sleepers one broadcast wakes. */
  function ProxyWeight(cfg: Config, n: nat, w: Proxy): nat {
    var body := |cfg.Body(w.path)|;
    var r := Minus(body, w.transferred);
    match w.pc
    case Idle => 0
    case AnnounceFree => n + 1
    case Requeue => n + 2
    case ClearSize => n + 3
    case ClearLen => n + 4
    case LoopTest => n + 4 * r + 8
    case WaitChunk => n + 4 * r + 7
    case SendChunk => n + 4 * r + 6
    case PostSpace => n + 4 * r + 9
    case ReadStatus => n + 4 * body + 9
    case WaitLen => n + 4 * body + 10
    case SendMsg => n + 10 * body + 19
    case InitCache => n + 10 * body + 20
    case InitProxy => n + 10 * body + 21
    case InitLen => n + 10 * body + 22
    case AnnouncePop => 2 * n + 10 * body + 23
    case Asleep => 2 * n + 10 * body + 24
    case Acquire => 2 * n + 10 * body + 25
  }

  function RequestWeight(cfg: Config, n: nat, path: Path): nat {
    2 * n + 10 * |cfg.Body(path)| + 26
  }

  function ProxyWeights(cfg: Config, ps: seq<Proxy>): seq<nat> {
    seq(|ps|, i requires 0 <= i < |ps| => ProxyWeight(cfg, |ps|, ps[i]))
  }

  function CacheWeights(cfg: Config, cs: seq<Cache>): seq<nat> {
    seq(|cs|, i requires 0 <= i < |cs| => CacheWeight(cfg, cs[i]))
  }

  function MsgWeights(cfg: Config, ms: seq<Msg>): seq<nat> {
    seq(|ms|, i requires 0 <= i < |ms| => MsgWeight(cfg, ms[i]))
  }

  function RequestWeights(cfg: Config, n: nat, paths: seq<Path>): seq<nat> {
    seq(|paths|, i requires 0 <= i < |paths| => RequestWeight(cfg, n, paths[i]))
  }

  /** The work left: requests not handed out, proxy workers, messages and cache workers. */
  function Measure(cfg: Config, s: State): nat
    requires s.issued <= |cfg.requests|
  {
    Sum(RequestWeights(cfg, |s.proxies|, cfg.requests[s.issued..])) + Sum(ProxyWeights(cfg, s.proxies))
    + Sum(MsgWeights(cfg, s.mq)) + Sum(CacheWeights(cfg, s.caches))
  }

  lemma ProxyUpdate(cfg: Config, ps: seq<Proxy>, p: nat, w: Proxy)
    requires p < |ps|
    ensures Sum(ProxyWeights(cfg, ps[p := w])) + ProxyWeight(cfg, |ps|, ps[p])
         == Sum(ProxyWeights(cfg, ps)) + ProxyWeight(cfg, |ps|, w)
  {
    SumUpdate(ProxyWeights(cfg, ps), p, ProxyWeight(cfg, |ps|, w));
    assert ProxyWeights(cfg, ps[p := w]) == ProxyWeights(cfg, ps)[p := ProxyWeight(cfg, |ps|, w)];
  }

  lemma CacheUpdate(cfg: Config, cs: seq<Cache>, c: nat, w: Cache)
    requires c < |cs|
    ensures Sum(CacheWeights(cfg, cs[c := w])) + CacheWeight(cfg, cs[c])
         == Sum(CacheWeights(cfg, cs)) + CacheWeight(cfg, w)
  {
    SumUpdate(CacheWeights(cfg, cs), c, CacheWeight(cfg, w));
    assert CacheWeights(cfg, cs[c := w]) == CacheWeights(cfg, cs)[c := CacheWeight(cfg, w)];
  }

  lemma WakeCost(cfg: Config, ps: seq<Proxy>)
    ensures Sum(ProxyWeights(cfg, WakeAll(ps))) <= Sum(ProxyWeights(cfg, ps)) + |ps|
  {
    SumBump(ProxyWeights(cfg, ps), ProxyWeights(cfg, WakeAll(ps)));
  }

  lemma ChunkIsAhead(cfg: Config, g: Seg, w: Proxy, caches: seq<Cache>)
    requires Fits(cfg, g, w, caches) && w.pc == SendChunk
    ensures w.transferred < w.transferred + |Take(g.data, g.readLen)| <= |cfg.Body(w.path)|
  {
  }

  /** A local step of a proxy worker loses weight. */
  lemma ProxyLocalFalls(cfg: Config, n: nat, g: Seg, w: Proxy, caches: seq<Cache>)
    requires Fits(cfg, g, w, caches) && CanStep(w, g)
    ensures ProxyWeight(cfg, n, ProxyLocal(w, g).0) < ProxyWeight(cfg, n, w)
  {
    hide Fits;
    if w.pc == SendChunk {
      ChunkIsAhead(cfg, g, w, caches);
    }
  }

  lemma InsideFalls(cfg: Config, s: State, p: nat)
    requires Inv(cfg, s) && p < |s.proxies| && ProxyEnabled(cfg, s, p) && ActsInside(s.proxies[p].pc)
    ensures InRange(cfg, ProxyNext(cfg, s, p))
    ensures Measure(cfg, ProxyNext(cfg, s, p)) < Measure(cfg, s)
  {
    var w := s.proxies[p];
    var g := s.segs[w.seg];
    ProxyMoves(cfg, s, p);
    ProxyNextInRange(cfg, s, p);
    assert ProxyInv(cfg, s, p) && SegInv(cfg, s, w.seg);
    hide Inv, Fits, ProxyLocal, ProxyWeight, Sum;
    ProxyLocalFalls(cfg, |s.proxies|, g, w, s.caches);
    ProxyUpdate(cfg, s.proxies, p, ProxyLocal(w, g).0);
  }

  lemma ProxyFalls(cfg: Config, s: State, p: nat)
    requires Inv(cfg, s) && p < |s.proxies| && ProxyEnabled(cfg, s, p)
    ensures Inv(cfg, ProxyNext(cfg, s, p))
    ensures Measure(cfg, ProxyNext(cfg, s, p)) < Measure(cfg, s)
  {
    hide Measure, ProxyNext;
    ProxyStep(cfg, s, p);
    if ActsInside(s.proxies[p].pc) { InsideFalls(cfg, s, p); } else { OuterFalls(cfg, s, p); }
  }

  /** Handing out a request trades its weight for that of a proxy worker about to start. */
  lemma StartFalls(cfg: Config, s: State, p: nat)
    requires InRange(cfg, s) && p < |s.proxies| && s.proxies[p].pc == Idle && ProxyEnabled(cfg, s, p)
    ensures Measure(cfg, ProxyNext(cfg, s, p)) < Measure(cfg, s)
  {
    var s' := ProxyNext(cfg, s, p);
    ProxyUpdate(cfg, s.proxies, p, s'.proxies[p]);
    var n := |s.proxies|;
    var rest := cfg.requests[s.issued..];
    assert rest[1..] == cfg.requests[s'.issued..];
    assert RequestWeights(cfg, n, rest)[1..] == RequestWeights(cfg, n, rest[1..]);
  }

  /** A broadcast loses more than all the sleepers it wakes gain. */
  lemma AnnounceFalls(cfg: Config, s: State, p: nat)
    requires InRange(cfg, s) && p < |s.proxies| && Announcing(s.proxies[p].pc)
    ensures Measure(cfg, ProxyNext(cfg, s, p)) < Measure(cfg, s)
  {
    var w := s.proxies[p];
    var w' := if w.pc == AnnouncePop then w.(pc := InitLen) else w.(pc := Idle);
    assert ProxyWeight(cfg, |s.proxies|, w) >= ProxyWeight(cfg, |s.proxies|, w') + |s.proxies| + 1;
    hide Sum, ProxyWeight;
    ProxyUpdate(cfg, s.proxies, p, w');
    WakeCost(cfg, s.proxies[p := w']);
  }

  /** Sending the request trades weight of the proxy worker for that of the message. */
  lemma SendMsgFalls(cfg: Config, s: State, p: nat)
    requires InRange(cfg, s) && p < |s.proxies| && s.proxies[p].pc == SendMsg && ProxyEnabled(cfg, s, p)
    ensures Measure(cfg, ProxyNext(cfg, s, p)) < Measure(cfg, s)
  {
    var s' := ProxyNext(cfg, s, p);
    assert ProxyWeight(cfg, |s.proxies|, s.proxies[p])
        > ProxyWeight(cfg, |s.proxies|, s'.proxies[p]) + MsgWeight(cfg, Msg(s.proxies[p].seg, s.proxies[p].path));
    hide Sum, ProxyWeight;
    ProxyUpdate(cfg, s.proxies, p, s'.proxies[p]);
    var m := Msg(s.proxies[p].seg, s.proxies[p].path);
    SumAppend(MsgWeights(cfg, s.mq), MsgWeight(cfg, m));
    assert MsgWeights(cfg, s.mq + [m]) == MsgWeights(cfg, s.mq) + [MsgWeight(cfg, m)];
  }

  lemma PoolFalls(cfg: Config, s: State, p: nat)
    requires InRange(cfg, s) && p < |s.proxies| && (s.proxies[p].pc == Acquire || s.proxies[p].pc == Requeue)
    ensures Measure(cfg, ProxyNext(cfg, s, p)) < Measure(cfg, s)
  {
    var w' := ProxyNext(cfg, s, p).proxies[p];
    assert ProxyWeight(cfg, |s.proxies|, w') < ProxyWeight(cfg, |s.proxies|, s.proxies[p]);
    hide Sum, ProxyWeight;
    ProxyUpdate(cfg, s.proxies, p, w');
  }

  lemma OuterFalls(cfg: Config, s: State, p: nat)
    requires InRange(cfg, s) && p < |s.proxies| && ProxyEnabled(cfg, s, p) && !ActsInside(s.proxies[p].pc)
    ensures ProxyNext(cfg, s, p).issued <= |cfg.requests|
    ensures Measure(cfg, ProxyNext(cfg, s, p)) < Measure(cfg, s)
  {
    match s.proxies[p].pc
    case Idle => StartFalls(cfg, s, p);
    case Acquire | Requeue => PoolFalls(cfg, s, p);
    case AnnouncePop | AnnounceFree => AnnounceFalls(cfg, s, p);
    case SendMsg => SendMsgFalls(cfg, s, p);
  }

  lemma CacheLocalFalls(cfg: Config, c: nat, w: Cache, g: Seg, k: nat)
    requires w.pc != Receive && CanCopy(cfg, w, g, k)
    requires w.pc == StoreData ==> 1 <= w.nbytes && w.nread + w.nbytes <= |cfg.Body(w.path)|
    ensures CacheWeight(cfg, CacheLocal(cfg, c, w, g, k).0) < CacheWeight(cfg, w)
  {
    hide Overwrite;
  }

  lemma ReceiveFalls(cfg: Config, s: State, c: nat, k: nat)
    requires InRange(cfg, s) && c < |s.caches| && s.caches[c].pc == Receive && s.mq != []
    ensures Measure(cfg, CacheNext(cfg, s, c, k)) < Measure(cfg, s)
  {
    CacheUpdate(cfg, s.caches, c, CacheNext(cfg, s, c, k).caches[c]);
    assert MsgWeights(cfg, s.mq)[1..] == MsgWeights(cfg, s.mq[1..]);
  }

  /** What a cache worker is about to store is inside the file. */
  lemma StoresWhatIsLeft(cfg: Config, s: State, c: nat)
    requires Inv(cfg, s) && c < |s.caches| && s.caches[c].pc == StoreData
    ensures var w := s.caches[c]; 1 <= w.nbytes && w.nread + w.nbytes <= |cfg.Body(w.path)|
  {
    assert CacheInv(cfg, s, c) && SegInv(cfg, s, s.caches[c].seg);
  }

  lemma CacheFalls(cfg: Config, s: State, c: nat, k: nat)
    requires Inv(cfg, s) && c < |s.caches| && CacheEnabled(cfg, s, c, k)
    ensures Inv(cfg, CacheNext(cfg, s, c, k))
    ensures Measure(cfg, CacheNext(cfg, s, c, k)) < Measure(cfg, s)
  {
    CacheStep(cfg, s, c, k);
    var w := s.caches[c];
    if w.pc == Receive {
      ReceiveFalls(cfg, s, c, k);
    } else {
      if w.pc == StoreData {
        StoresWhatIsLeft(cfg, s, c);
      }
      CacheLocalFalls(cfg, c, w, s.segs[w.seg], k);
      hide Sum, CacheWeight, Fits, Inv;
      CacheUpdate(cfg, s.caches, c, CacheNext(cfg, s, c, k).caches[c]);
    }
  }
}
