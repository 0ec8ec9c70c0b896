/** The inductive invariant of the shared-memory cache protocol, one lemma per kind of step. */
module SharedCacheInvariant {
  import opened Basics
  import opened SharedCache

  // ---------------------------------------------------------------- one segment and its users

  /** The values that `sem_init` gives and that a finished transfer leaves behind. */
  predicate Fresh(g: Seg) {
    g.filelenSem == 0 && g.proxySem == 0 && g.cacheSem == 1
  }

  /** Program counters of a proxy worker that owns a segment but has not sent its request yet. */
  predicate Preparing(pc: ProxyPc) {
    pc == AnnouncePop || pc == InitLen || pc == InitProxy || pc == InitCache || pc == SendMsg
  }

  /** The request is out; the status has not been read. */
  predicate Asking(pc: ProxyPc) { pc == WaitLen || pc == ReadStatus }

  /** Inside the sending loop of the 200 branch. */
  predicate Sending(pc: ProxyPc) { pc == LoopTest || pc == WaitChunk || pc == SendChunk || pc == PostSpace }

  /** Inside queueMemory. */
  predicate Closing(pc: ProxyPc) { pc == ClearLen || pc == ClearSize || pc == Requeue }

  predicate Prepared(g: Seg, w: Proxy) {
    && (g.used ==> Fresh(g))
    && (w.pc == InitProxy || w.pc == InitCache || w.pc == SendMsg ==> g.filelenSem == 0)
    && (w.pc == InitCache || w.pc == SendMsg ==> g.proxySem == 0)
    && (w.pc == SendMsg ==> g.used)
    && NothingSent(w)
  }

  predicate NothingSent(w: Proxy) {
    w.transferred == 0 && w.header == None && w.sent == []
  }

  /** The cache worker sits between its wait on `cachesem` and its post on `proxysem`. */
  predicate CacheHasToken(pc: CachePc) {
    pc == ReadFile || pc == StoreLen || pc == StoreData || pc == PostChunk
  }

  /** The proxy worker sits between its wait on `proxysem` and its post on `cachesem`. */
  predicate ProxyHasToken(pc: ProxyPc) {
    pc == SendChunk || pc == PostSpace
  }

  /** A chunk is in the segment, stored but not yet sent. */
  predicate Full(g: Seg, w: Proxy, cpc: CachePc) {
    g.proxySem == 1 || w.pc == SendChunk || cpc == PostChunk
  }

  /** Before the status is posted: the proxy worker waits and the cache worker stores the answer. */
  predicate Answering(cfg: Config, g: Seg, w: Proxy, c: Cache) {
    && Fresh(g) && w.pc == WaitLen && NothingSent(w)
    && (c.pc == StoreStatus || c.pc == PostLen ==>
          && g.filesize == cfg.SizeOf(w.path)
          && c.filsize == |cfg.Body(w.path)| && c.nread == 0)
    && (c.pc == PostLen ==> g.status == cfg.StatusOf(w.path))
  }

  /** Status, size, semaphores and program counters from the post of the status until the
      segment is queued again. */
  predicate Handshake(cfg: Config, g: Seg, w: Proxy, cpc: CachePc) {
    && (Asking(w.pc) || Sending(w.pc) || Closing(w.pc))
    && g.status == cfg.StatusOf(w.path)
    && (w.pc != Requeue ==> g.filesize == cfg.SizeOf(w.path))
    && (w.pc == ClearSize || w.pc == Requeue ==> g.readLen == 0)
    && (w.pc == Requeue ==> g.filesize == 0)
    && g.filelenSem == One(w.pc == WaitLen)
    && g.cacheSem + g.proxySem + One(CacheHasToken(cpc)) + One(ProxyHasToken(w.pc)) == 1
    && (Asking(w.pc) ==> NothingSent(w))
    && (Sending(w.pc) ==> cfg.Found(w.path))
    && (w.pc == WaitChunk ==> w.transferred < |cfg.Body(w.path)|)
    && (Closing(w.pc) ==> w.transferred == |cfg.Body(w.path)|)
    && (!Asking(w.pc) ==>
          && w.found == cfg.Found(w.path)
          && w.header == if cfg.Found(w.path) then Some(Header(true, |cfg.Body(w.path)|)) else None)
  }

  /** The client has a prefix of its file, and the segment holds the next chunk or nothing. */
  predicate Bytes(body: seq<byte>, g: Seg, w: Proxy, cpc: CachePc, nread: nat) {
    && w.transferred <= nread <= |body|
    && w.sent == body[..w.transferred]
    && (Full(g, w, cpc) ==>
          g.readLen == nread - w.transferred && 0 < g.readLen <= |g.data| && g.data[..g.readLen] == body[w.transferred..nread])
    && (!Full(g, w, cpc) ==> nread == w.transferred)
  }

  /** `cpc` and `nread` describe the cache worker; for one that has no more work on the segment
      they are ReadTest and the length of the file. */
  predicate Transferring(cfg: Config, g: Seg, w: Proxy, cpc: CachePc, nread: nat) {
    Handshake(cfg, g, w, cpc) && Bytes(cfg.Body(w.path), g, w, cpc, nread)
  }

  /** The locals of a cache worker that still has to work on segment g. */
  predicate Copying(cfg: Config, g: Seg, c: Cache) {
    var body := cfg.Body(c.path);
    && cfg.Found(c.path) && c.filsize == |body|
    && (c.pc != PostChunk ==> c.nread < |body|)
    && (c.pc == StoreLen || c.pc == StoreData ==>
          && 1 <= c.nbytes <= cfg.segsize && c.nread + c.nbytes <= |body|
          && c.buf == body[c.nread..c.nread + c.nbytes])
    && (c.pc == StoreData ==> g.readLen == c.nbytes)
  }

  /** How an owned segment, its proxy worker and whoever serves it fit together. */
  predicate Fits(cfg: Config, g: Seg, w: Proxy, caches: seq<Cache>) {
    match g.server
    case Nobody =>
      if Preparing(w.pc) then Prepared(g, w)
      else Transferring(cfg, g, w, ReadTest, |cfg.Body(w.path)|)
    case Queued => Fresh(g) && w.pc == WaitLen && NothingSent(w)
    case Worker(c) =>
      && c < |caches|
      && Attached(caches[c])
      && caches[c].path == w.path
      && if AnsweringPc(caches[c].pc) then Answering(cfg, g, w, caches[c])
         else Transferring(cfg, g, w, caches[c].pc, caches[c].nread) && Copying(cfg, g, caches[c])
  }

  // ---------------------------------------------------------------- the whole system

  ghost predicate PoolInv(s: State) {
    && (forall i :: 0 <= i < |s.pool| ==> s.pool[i] < |s.segs|)
    && (forall i :: 0 <= i < |s.pool| ==> s.segs[s.pool[i]].owner == None)
    && (forall i, j :: 0 <= i < j < |s.pool| ==> s.pool[i] != s.pool[j])
    && (forall g :: 0 <= g < |s.segs| && s.segs[g].owner == None ==> g in s.pool)
  }

  ghost predicate MqInv(s: State) {
    && |s.mq| <= MAX_MESSAGES
    && (forall i :: 0 <= i < |s.mq| ==> s.mq[i].seg < |s.segs|)
    && (forall i :: 0 <= i < |s.mq| ==> s.segs[s.mq[i].seg].server == Queued)
    && (forall i, j :: 0 <= i < j < |s.mq| ==> s.mq[i].seg != s.mq[j].seg)
    && (forall i :: 0 <= i < |s.mq| ==>
          var o := s.segs[s.mq[i].seg].owner;
          o.Some? && o.value < |s.proxies| && s.proxies[o.value].path == s.mq[i].path)
  }

  predicate InMq(s: State, g: nat) {
    exists i :: 0 <= i < |s.mq| && s.mq[i].seg == g
  }

  ghost predicate SegInv(cfg: Config, s: State, g: nat)
    requires g < |s.segs|
  {
    var seg := s.segs[g];
    && |seg.data| == cfg.segsize
    && seg.readLen <= cfg.segsize
    && (seg.server == Queued ==> InMq(s, g))
    && match seg.owner
       case None => seg.server == Nobody && (seg.used ==> Fresh(seg)) && seg.readLen == 0 && seg.filesize == 0
       case Some(p) =>
         && p < |s.proxies| && Holding(s.proxies[p].pc) && s.proxies[p].seg == g
         && Fits(cfg, seg, s.proxies[p], s.caches)
         && (seg.server.Worker? ==> s.caches[seg.server.c].seg == g)
         && (seg.server != Nobody || !Preparing(s.proxies[p].pc) ==> seg.used)
  }

  ghost predicate ProxyInv(cfg: Config, s: State, p: nat)
    requires InRange(cfg, s) && p < |s.proxies|
  {
    var w := s.proxies[p];
    && (Holding(w.pc) ==> s.segs[w.seg].owner == Some(p))
    && (w.pc != Idle ==>
          w.id < s.issued && s.progress[w.id] == Serving(p) && w.path == cfg.requests[w.id])
    && (w.pc == Acquire || w.pc == Asleep ==> NothingSent(w))
    && (w.pc == AnnounceFree ==>
          && w.sent == cfg.Body(w.path) && w.found == cfg.Found(w.path)
          && w.header == if w.found then Some(Header(true, |w.sent|)) else None)
  }

  ghost predicate CacheInv(cfg: Config, s: State, c: nat)
    requires InRange(cfg, s) && c < |s.caches|
  {
    var w := s.caches[c];
    Attached(w) ==> s.segs[w.seg].server == Worker(c)
  }

  ghost predicate ProgressInv(cfg: Config, s: State, id: nat)
    requires InRange(cfg, s) && id < |s.progress|
  {
    match s.progress[id]
    case Waiting => s.issued <= id
    case Serving(p) => id < s.issued && p < |s.proxies| && s.proxies[p].pc != Idle && s.proxies[p].id == id
    case Replied(r) => id < s.issued && r == cfg.Expected(cfg.requests[id])
  }

  predicate Announcing(pc: ProxyPc) { pc == AnnouncePop || pc == AnnounceFree }

  /** No wakeup is lost: a sleeper beside a non-empty pool has a broadcast coming. */
  ghost predicate WakeInv(s: State) {
    s.pool != [] && (exists p :: 0 <= p < |s.proxies| && s.proxies[p].pc == Asleep) ==>
      exists q :: 0 <= q < |s.proxies| && Announcing(s.proxies[q].pc)
  }

  ghost predicate Inv(cfg: Config, s: State) {
    && InRange(cfg, s)
    && PoolInv(s) && MqInv(s) && WakeInv(s)
    && (forall g :: 0 <= g < |s.segs| ==> SegInv(cfg, s, g))
    && (forall p :: 0 <= p < |s.proxies| ==> ProxyInv(cfg, s, p))
    && (forall c :: 0 <= c < |s.caches| ==> CacheInv(cfg, s, c))
    && (forall id :: 0 <= id < |s.progress| ==> ProgressInv(cfg, s, id))
  }

  lemma InitInv(cfg: Config, s: State)
    requires Init(cfg, s)
    ensures Inv(cfg, s)
  {
    forall g | 0 <= g < |s.segs| ensures g in s.pool {
      assert s.pool[g] == g;
    }
  }

  // ---------------------------------------------------------------- steps inside one segment

  /** What a proxy worker's step inside its own segment must respect. */
  ghost predicate ProxyMove(cfg: Config, s: State, p: nat, w': Proxy, g': Seg) {
    && Inv(cfg, s) && p < |s.proxies|
    && Holding(s.proxies[p].pc) && !Announcing(s.proxies[p].pc)
    && Holding(w'.pc)
    && w'.seg == s.proxies[p].seg && w'.id == s.proxies[p].id && w'.path == s.proxies[p].path
    && (var g := s.segs[w'.seg];
        g'.owner == g.owner && g'.server == g.server && |g'.data| == cfg.segsize && g'.readLen <= cfg.segsize)
    && Fits(cfg, g', w', s.caches)
    && (g'.server != Nobody || !Preparing(w'.pc) ==> g'.used)
  }

  lemma ProxyMoveSeg(cfg: Config, s: State, p: nat, w': Proxy, g': Seg, g: nat)
    requires ProxyMove(cfg, s, p, w', g') && g < |s.segs|
    ensures SegInv(cfg, PutBoth(s, p, w', w'.seg, g'), g)
  {
    var s' := PutBoth(s, p, w', w'.seg, g');
    assert SegInv(cfg, s, g) && ProxyInv(cfg, s, p);
    if InMq(s, g) {
      var i :| 0 <= i < |s.mq| && s.mq[i].seg == g;
      assert s'.mq[i].seg == g;
    }
    if g != w'.seg && s.segs[g].owner.Some? {
      assert s.segs[g].owner.value != p;
    }
  }

  lemma ProxyMoveMq(cfg: Config, s: State, p: nat, w': Proxy, g': Seg)
    requires ProxyMove(cfg, s, p, w', g')
    ensures MqInv(PutBoth(s, p, w', w'.seg, g'))
  {
    hide Fits, ProxyLocal, CacheLocal;
  }

  lemma ProxyMoveWake(cfg: Config, s: State, p: nat, w': Proxy, g': Seg)
    requires ProxyMove(cfg, s, p, w', g')
    ensures WakeInv(PutBoth(s, p, w', w'.seg, g'))
  {
    var s' := PutBoth(s, p, w', w'.seg, g');
    if s'.pool != [] && exists r :: 0 <= r < |s'.proxies| && s'.proxies[r].pc == Asleep {
      var r :| 0 <= r < |s'.proxies| && s'.proxies[r].pc == Asleep;
      assert s.proxies[r].pc == Asleep;
      var q :| 0 <= q < |s.proxies| && Announcing(s.proxies[q].pc);
      assert Announcing(s'.proxies[q].pc);
    }
  }

  /** A proxy worker's step that changes only the worker and its segment keeps the invariant as
      soon as it keeps the fit of that one segment. */
  lemma ProxyFrame(cfg: Config, s: State, p: nat, w': Proxy, g': Seg)
    requires ProxyMove(cfg, s, p, w', g')
    ensures Inv(cfg, PutBoth(s, p, w', w'.seg, g'))
  {
    hide Fits, ProxyLocal, CacheLocal;
    var s' := PutBoth(s, p, w', w'.seg, g');
    assert MqInv(s') by {
      ProxyMoveMq(cfg, s, p, w', g');
    }
    forall g | 0 <= g < |s'.segs| ensures SegInv(cfg, s', g) {
      ProxyMoveSeg(cfg, s, p, w', g', g);
    }
    forall q | 0 <= q < |s'.proxies| ensures ProxyInv(cfg, s', q) {
      assert ProxyInv(cfg, s, q);
    }
    forall c | 0 <= c < |s'.caches| ensures CacheInv(cfg, s', c) {
      assert CacheInv(cfg, s, c);
    }
    forall id | 0 <= id < |s'.progress| ensures ProgressInv(cfg, s', id) {
      assert ProgressInv(cfg, s, id);
    }
    ProxyMoveWake(cfg, s, p, w', g');
  }

  /** What a cache worker's step inside the segment it serves must respect. */
  ghost predicate CacheMove(cfg: Config, s: State, c: nat, w': Cache, g': Seg) {
    && Inv(cfg, s) && c < |s.caches| && Attached(s.caches[c])
    && w'.seg == s.caches[c].seg && w'.path == s.caches[c].path
    && (var g := s.segs[w'.seg];
        && g'.owner == g.owner && g'.used == g.used
        && |g'.data| == cfg.segsize && g'.readLen <= cfg.segsize
        && g'.server == (if Attached(w') then Worker(c) else Nobody)
        && g.owner.Some? && g.owner.value < |s.proxies|
        && Fits(cfg, g', s.proxies[g.owner.value], s.caches[c := w']))
  }

  function PutCache(s: State, c: nat, w: Cache, seg: Seg): State
    requires c < |s.caches| && w.seg < |s.segs|
  {
    s.(caches := s.caches[c := w], segs := s.segs[w.seg := seg])
  }

  lemma CacheMoveSeg(cfg: Config, s: State, c: nat, w': Cache, g': Seg, g: nat)
    requires CacheMove(cfg, s, c, w', g') && g < |s.segs|
    ensures SegInv(cfg, PutCache(s, c, w', g'), g)
  {
    var s' := PutCache(s, c, w', g');
    assert SegInv(cfg, s, g) && CacheInv(cfg, s, c);
    if InMq(s, g) {
      var i :| 0 <= i < |s.mq| && s.mq[i].seg == g;
      assert s'.mq[i].seg == g;
    }
  }

  /** The segment a cache worker is attached to has no message left in the queue. */
  lemma CacheMoveMq(cfg: Config, s: State, c: nat, w': Cache, g': Seg)
    requires CacheMove(cfg, s, c, w', g')
    ensures PoolInv(PutCache(s, c, w', g')) && MqInv(PutCache(s, c, w', g'))
  {
    hide Fits, ProxyLocal, CacheLocal;
    assert CacheInv(cfg, s, c);
  }

  /** The same for a cache worker's step after it has taken its message. */
  lemma CacheFrame(cfg: Config, s: State, c: nat, w': Cache, g': Seg)
    requires CacheMove(cfg, s, c, w', g')
    ensures Inv(cfg, PutCache(s, c, w', g'))
  {
    hide Fits, ProxyLocal, CacheLocal;
    var s' := PutCache(s, c, w', g');
    assert CacheInv(cfg, s, c) && SegInv(cfg, s, w'.seg);
    CacheMoveMq(cfg, s, c, w', g');
    forall g | 0 <= g < |s'.segs| ensures SegInv(cfg, s', g) {
      CacheMoveSeg(cfg, s, c, w', g', g);
    }
    forall q | 0 <= q < |s'.proxies| ensures ProxyInv(cfg, s', q) {
      assert ProxyInv(cfg, s, q);
    }
    forall d | 0 <= d < |s'.caches| ensures CacheInv(cfg, s', d) {
      assert CacheInv(cfg, s, d);
    }
    forall id | 0 <= id < |s'.progress| ensures ProgressInv(cfg, s', id) {
      assert ProgressInv(cfg, s, id);
    }
  }

  /** Sending a chunk extends what the client has by exactly the bytes the cache worker read. */
  lemma SendKeepsTransfer(cfg: Config, g: Seg, w: Proxy, cpc: CachePc, nread: nat)
    requires Transferring(cfg, g, w, cpc, nread) && w.pc == SendChunk
    ensures var (w', g') := ProxyLocal(w, g); Transferring(cfg, g', w', cpc, nread)
  {
    var body := cfg.Body(w.path);
    assert body[..w.transferred] + body[w.transferred..nread] == body[..nread];
  }

  lemma AskKeepsTransfer(cfg: Config, g: Seg, w: Proxy, cpc: CachePc, nread: nat)
    requires Transferring(cfg, g, w, cpc, nread) && Asking(w.pc) && CanStep(w, g)
    ensures var (w', g') := ProxyLocal(w, g); Transferring(cfg, g', w', cpc, nread)
  {
  }

  lemma LoopKeepsTransfer(cfg: Config, g: Seg, w: Proxy, cpc: CachePc, nread: nat)
    requires Transferring(cfg, g, w, cpc, nread) && Sending(w.pc) && w.pc != SendChunk && CanStep(w, g)
    ensures var (w', g') := ProxyLocal(w, g); Transferring(cfg, g', w', cpc, nread)
  {
  }

  lemma CloseKeepsTransfer(cfg: Config, g: Seg, w: Proxy, cpc: CachePc, nread: nat)
    requires Transferring(cfg, g, w, cpc, nread) && Closing(w.pc) && CanStep(w, g)
    ensures var (w', g') := ProxyLocal(w, g); Transferring(cfg, g', w', cpc, nread)
  {
  }

  lemma ProxyStepKeepsTransfer(cfg: Config, g: Seg, w: Proxy, cpc: CachePc, nread: nat)
    requires Transferring(cfg, g, w, cpc, nread) && CanStep(w, g)
    ensures var (w', g') := ProxyLocal(w, g); Transferring(cfg, g', w', cpc, nread)
  {
    assert Asking(w.pc) || Sending(w.pc) || Closing(w.pc);
    hide Handshake, Bytes, ProxyLocal;
    if Asking(w.pc) { AskKeepsTransfer(cfg, g, w, cpc, nread); }
    else if w.pc == SendChunk { SendKeepsTransfer(cfg, g, w, cpc, nread); }
    else if Sending(w.pc) { LoopKeepsTransfer(cfg, g, w, cpc, nread); }
    else { CloseKeepsTransfer(cfg, g, w, cpc, nread); }
  }

  predicate CanStep(w: Proxy, g: Seg) {
    && IsLocal(w, g)
    && (w.pc == WaitLen ==> g.filelenSem > 0)
    && (w.pc == WaitChunk ==> g.proxySem > 0)
  }

  /** A proxy worker's step does not disturb the cache worker that serves its segment: it clears
      `read_len` only when that worker is done. */
  lemma ProxyStepKeepsCopying(cfg: Config, g: Seg, w: Proxy, c: Cache)
    requires Transferring(cfg, g, w, c.pc, c.nread) && Copying(cfg, g, c) && CanStep(w, g) && c.path == w.path
    ensures Copying(cfg, ProxyLocal(w, g).1, c)
  {
  }

  lemma ProxyStepKeepsPreparing(cfg: Config, g: Seg, w: Proxy, caches: seq<Cache>)
    requires Fits(cfg, g, w, caches) && CanStep(w, g) && Preparing(w.pc)
    ensures var (w', g') := ProxyLocal(w, g); Fits(cfg, g', w', caches)
  {
  }

  lemma StaysPast(w: Proxy, g: Seg)
    requires Asking(w.pc) || Sending(w.pc) || Closing(w.pc)
    ensures var (w', g') := ProxyLocal(w, g); !Preparing(w'.pc) && w'.path == w.path && g'.server == g.server
  {
  }

  lemma NotYetAnswered(cfg: Config, g: Seg, w: Proxy, caches: seq<Cache>)
    requires Fits(cfg, g, w, caches) && CanStep(w, g)
    requires g.server != Nobody
    ensures g.server != Queued
    ensures !AnsweringPc(caches[g.server.c].pc)
  {
  }

  /** Each local step of a proxy worker keeps the fit of its segment. */
  lemma ProxyLocalFits(cfg: Config, g: Seg, w: Proxy, caches: seq<Cache>)
    requires Fits(cfg, g, w, caches) && CanStep(w, g)
    ensures var (w', g') := ProxyLocal(w, g); Fits(cfg, g', w', caches)
  {
    if Preparing(w.pc) {
      ProxyStepKeepsPreparing(cfg, g, w, caches);
    } else {
      StaysPast(w, g);
      if g.server == Nobody {
        ProxyStepKeepsTransfer(cfg, g, w, ReadTest, |cfg.Body(w.path)|);
      } else {
        NotYetAnswered(cfg, g, w, caches);
        var c := caches[g.server.c];
        ProxyStepKeepsTransfer(cfg, g, w, c.pc, c.nread);
        ProxyStepKeepsCopying(cfg, g, w, c);
      }
      hide Transferring, Copying, ProxyLocal;
    }
  }

  /** A proxy worker always finds one of the two statuses, so it never drops its segment. */
  lemma StatusIsKnown(cfg: Config, s: State, p: nat)
    requires Inv(cfg, s) && p < |s.proxies| && s.proxies[p].pc == ReadStatus
    ensures s.segs[s.proxies[p].seg].status == cfg.StatusOf(s.proxies[p].path)
  {
    assert ProxyInv(cfg, s, p) && SegInv(cfg, s, s.proxies[p].seg);
  }

  lemma ProxyLocalShape(w: Proxy, g: Seg)
    requires ActsInside(w.pc)
    ensures var (w', g') := ProxyLocal(w, g);
            && w'.seg == w.seg && w'.id == w.id && w'.path == w.path && Holding(w'.pc)
            && g'.owner == g.owner && g'.server == g.server && g'.data == g.data && g'.readLen <= g.readLen
            && (g.used ==> g'.used) && (Preparing(w.pc) <==> Preparing(w'.pc))
  {
  }

  lemma ProxyMoves(cfg: Config, s: State, p: nat)
    requires Inv(cfg, s) && p < |s.proxies| && ProxyEnabled(cfg, s, p) && ActsInside(s.proxies[p].pc)
    ensures var (w', g') := ProxyLocal(s.proxies[p], s.segs[s.proxies[p].seg]);
            && IsLocal(s.proxies[p], s.segs[s.proxies[p].seg])
            && ProxyMove(cfg, s, p, w', g')
  {
    var w := s.proxies[p];
    var g := s.segs[w.seg];
    assert ProxyInv(cfg, s, p) && SegInv(cfg, s, w.seg);
    if w.pc == ReadStatus {
      StatusIsKnown(cfg, s, p);
    }
    hide Fits, ProxyLocal;
    ProxyLocalFits(cfg, g, w, s.caches);
    ProxyLocalShape(w, g);
  }

  lemma ProxyLocalStep(cfg: Config, s: State, p: nat)
    requires Inv(cfg, s) && p < |s.proxies| && ProxyEnabled(cfg, s, p) && ActsInside(s.proxies[p].pc)
    ensures Inv(cfg, ProxyNext(cfg, s, p))
  {
    ProxyMoves(cfg, s, p);
    var (w', g') := ProxyLocal(s.proxies[p], s.segs[s.proxies[p].seg]);
    ProxyFrame(cfg, s, p, w', g');
  }

  predicate AnsweringPc(pc: CachePc) { pc == StoreSize || pc == StoreStatus || pc == PostLen }

  predicate CanCopy(cfg: Config, c: Cache, g: Seg, k: nat) {
    && (c.pc == WaitSpace ==> g.cacheSem > 0)
    && (c.pc == ReadFile ==> 1 <= k <= cfg.segsize && c.nread + k <= |cfg.Body(c.path)|)
  }

  lemma AnswerKeepsFit(cfg: Config, g: Seg, w: Proxy, caches: seq<Cache>, c: nat, k: nat)
    requires g.server == Worker(c) && Fits(cfg, g, w, caches) && AnsweringPc(caches[c].pc)
    ensures var (c', g') := CacheLocal(cfg, c, caches[c], g, k);
            Fits(cfg, g', w, caches[c := c'])
  {
  }

  lemma StoreKeepsTransfer(cfg: Config, g: Seg, w: Proxy, v: Cache, c: nat, k: nat)
    requires |g.data| == cfg.segsize && v.path == w.path && v.pc == StoreData
    requires Transferring(cfg, g, w, v.pc, v.nread) && Copying(cfg, g, v)
    ensures var (v', g') := CacheLocal(cfg, c, v, g, k);
            Transferring(cfg, g', w, v'.pc, v'.nread) && Attached(v') && Copying(cfg, g', v')
  {
    assert Overwrite(g.data, v.buf, v.nbytes)[..v.nbytes] == v.buf;
  }

  lemma CopyKeepsTransfer(cfg: Config, g: Seg, w: Proxy, v: Cache, c: nat, k: nat)
    requires |g.data| == cfg.segsize && v.path == w.path
    requires Attached(v) && !AnsweringPc(v.pc) && CanCopy(cfg, v, g, k)
    requires Transferring(cfg, g, w, v.pc, v.nread) && Copying(cfg, g, v)
    ensures var (v', g') := CacheLocal(cfg, c, v, g, k);
            && Transferring(cfg, g', w, v'.pc, v'.nread)
            && (Attached(v') ==> Copying(cfg, g', v'))
            && (!Attached(v') ==> v'.pc == ReadTest && v'.nread == |cfg.Body(w.path)|)
  {
    if v.pc == StoreData {
      StoreKeepsTransfer(cfg, g, w, v, c, k);
    }
  }

  /** What a step of the copying loop leaves as it was. */
  lemma CopyShape(cfg: Config, g: Seg, v: Cache, c: nat, k: nat)
    requires Attached(v) && !AnsweringPc(v.pc) && CanCopy(cfg, v, g, k) && g.server == Worker(c)
    ensures var (v', g') := CacheLocal(cfg, c, v, g, k);
            && v'.path == v.path && !AnsweringPc(v'.pc)
            && g'.server == (if Attached(v') then Worker(c) else Nobody)
  {
  }

  lemma PastPreparing(cfg: Config, g: Seg, w: Proxy, cpc: CachePc, nread: nat)
    requires Transferring(cfg, g, w, cpc, nread)
    ensures !Preparing(w.pc)
  {
  }

  /** Each step of an attached cache worker keeps the fit of its segment. */
  lemma CacheLocalFits(cfg: Config, g: Seg, w: Proxy, caches: seq<Cache>, c: nat, k: nat)
    requires |g.data| == cfg.segsize
    requires g.server == Worker(c) && Fits(cfg, g, w, caches) && CanCopy(cfg, caches[c], g, k)
    ensures var (c', g') := CacheLocal(cfg, c, caches[c], g, k);
            Fits(cfg, g', w, caches[c := c'])
  {
    if AnsweringPc(caches[c].pc) {
      AnswerKeepsFit(cfg, g, w, caches, c, k);
    } else {
      PastPreparing(cfg, g, w, caches[c].pc, caches[c].nread);
      CopyShape(cfg, g, caches[c], c, k);
      hide Transferring, Copying, CacheLocal;
      CopyKeepsTransfer(cfg, g, w, caches[c], c, k);
    }
  }

  lemma CacheLocalShape(cfg: Config, g: Seg, v: Cache, c: nat, k: nat)
    requires Attached(v) && CanCopy(cfg, v, g, k) && g.server == Worker(c)
    requires v.pc == StoreData ==> g.readLen == v.nbytes
    requires v.pc == StoreLen ==> v.nbytes <= |g.data|
    ensures var (v', g') := CacheLocal(cfg, c, v, g, k);
            && v'.seg == v.seg && v'.path == v.path
            && g'.owner == g.owner && g'.used == g.used && |g'.data| == |g.data|
            && g'.server == (if Attached(v') then Worker(c) else Nobody)
            && (g'.readLen == g.readLen || g'.readLen <= |g.data|)
  {
  }

  lemma ChunkFits(cfg: Config, g: Seg, w: Proxy, caches: seq<Cache>, c: nat)
    requires g.server == Worker(c) && Fits(cfg, g, w, caches)
    ensures caches[c].pc == StoreLen || caches[c].pc == StoreData ==> caches[c].nbytes <= cfg.segsize
    ensures caches[c].pc == StoreData ==> g.readLen == caches[c].nbytes
  {
  }

  lemma CacheMoves(cfg: Config, s: State, c: nat, k: nat)
    requires Inv(cfg, s) && c < |s.caches| && CacheEnabled(cfg, s, c, k)
    requires Attached(s.caches[c])
    ensures var (c', g') := CacheLocal(cfg, c, s.caches[c], s.segs[s.caches[c].seg], k);
            CacheMove(cfg, s, c, c', g')
  {
    var v := s.caches[c];
    var g := s.segs[v.seg];
    assert CacheInv(cfg, s, c) && SegInv(cfg, s, v.seg);
    hide Fits, CacheLocal;
    ChunkFits(cfg, g, s.proxies[g.owner.value], s.caches, c);
    CacheLocalFits(cfg, g, s.proxies[g.owner.value], s.caches, c, k);
    CacheLocalShape(cfg, g, v, c, k);
  }

  lemma CacheLocalStep(cfg: Config, s: State, c: nat, k: nat)
    requires Inv(cfg, s) && c < |s.caches| && CacheEnabled(cfg, s, c, k)
    requires Attached(s.caches[c])
    ensures Inv(cfg, CacheNext(cfg, s, c, k))
  {
    CacheMoves(cfg, s, c, k);
    var (c', g') := CacheLocal(cfg, c, s.caches[c], s.segs[s.caches[c].seg], k);
    CacheFrame(cfg, s, c, c', g');
  }
}
