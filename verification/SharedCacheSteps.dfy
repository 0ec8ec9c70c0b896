/** Every step of every worker keeps the invariant of the shared-memory cache protocol: the steps
    that reach beyond one segment, and the theorem that collects all of them. */
module SharedCacheSteps {
  import opened Basics
  import opened SharedCache
  import opened SharedCacheInvariant

  /** A message stays in the queue when the queue only grows. */
  lemma InMqGrows(s: State, s': State, g: nat)
    requires s.mq <= s'.mq && InMq(s, g)
    ensures InMq(s', g)
  {
    var i :| 0 <= i < |s.mq| && s.mq[i].seg == g;
    assert s'.mq[i].seg == g;
  }

  // ---------------------------------------------------------------- starting, sleeping, waking

  lemma StartStep(cfg: Config, s: State, p: nat)
    requires Inv(cfg, s) && p < |s.proxies| && s.proxies[p].pc == Idle && ProxyEnabled(cfg, s, p)
    ensures Inv(cfg, ProxyNext(cfg, s, p))
  {
    hide Fits, ProxyLocal, CacheLocal;
    var s' := ProxyNext(cfg, s, p);
    forall g | 0 <= g < |s'.segs| ensures SegInv(cfg, s', g) {
      assert SegInv(cfg, s, g);
      if InMq(s, g) { InMqGrows(s, s', g); }
    }
    forall q | 0 <= q < |s'.proxies| ensures ProxyInv(cfg, s', q) {
      assert ProxyInv(cfg, s, q);
    }
    forall c | 0 <= c < |s'.caches| ensures CacheInv(cfg, s', c) {
      assert CacheInv(cfg, s, c);
    }
    forall id | 0 <= id < |s'.progress| ensures ProgressInv(cfg, s', id) {
      assert ProgressInv(cfg, s, id);
    }
    MqFrame(cfg, s, s', p);
    SameSleepers(s, s', p);
  }

  /** A step after which p neither sleeps nor announces, and had not announced before. */
  lemma SameSleepers(s: State, s': State, p: nat)
    requires WakeInv(s) && p < |s.proxies| == |s'.proxies| && s'.pool == s.pool
    requires forall q :: 0 <= q < |s.proxies| && q != p ==> s'.proxies[q] == s.proxies[q]
    requires !Announcing(s.proxies[p].pc) && s'.proxies[p].pc != Asleep
    ensures WakeInv(s')
  {
    if s'.pool != [] && exists r :: 0 <= r < |s'.proxies| && s'.proxies[r].pc == Asleep {
      var r :| 0 <= r < |s'.proxies| && s'.proxies[r].pc == Asleep;
      assert s.proxies[r].pc == Asleep;
      var q :| 0 <= q < |s.proxies| && Announcing(s.proxies[q].pc);
      assert Announcing(s'.proxies[q].pc);
    }
  }

  /** The queued messages still name the request of their segment's owner when nothing but a
      worker without a segment changes. */
  lemma MqFrame(cfg: Config, s: State, s': State, p: nat)
    requires Inv(cfg, s) && p < |s.proxies| == |s'.proxies| && s'.mq == s.mq && s'.segs == s.segs
    requires forall q :: 0 <= q < |s.proxies| && q != p ==> s'.proxies[q] == s.proxies[q]
    requires !Holding(s.proxies[p].pc) || s'.proxies[p].path == s.proxies[p].path
    ensures MqInv(s')
  {
    hide Fits, ProxyLocal, CacheLocal;
    forall i | 0 <= i < |s.mq| ensures
      var o := s'.segs[s'.mq[i].seg].owner;
      o.Some? && o.value < |s'.proxies| && s'.proxies[o.value].path == s'.mq[i].path
    {
      assert SegInv(cfg, s, s.mq[i].seg);
    }
  }

  /** Falling asleep (with an empty pool) and being woken, by a broadcast or spuriously. */
  ghost predicate OnlyWaiting(s: State, s': State, p: nat, pc: ProxyPc) {
    && p < |s.proxies|
    && (s.proxies[p].pc == Acquire || s.proxies[p].pc == Asleep)
    && (pc == Acquire || (pc == Asleep && s.pool == []))
    && s' == PutProxy(s, p, s.proxies[p].(pc := pc))
  }

  lemma WaitingStep(cfg: Config, s: State, s': State, p: nat, pc: ProxyPc)
    requires Inv(cfg, s) && OnlyWaiting(s, s', p, pc)
    ensures Inv(cfg, s')
  {
    hide Fits, ProxyLocal, CacheLocal;
    forall g | 0 <= g < |s'.segs| ensures SegInv(cfg, s', g) {
      assert SegInv(cfg, s, g);
      if InMq(s, g) { InMqGrows(s, s', g); }
    }
    forall q | 0 <= q < |s'.proxies| ensures ProxyInv(cfg, s', q) {
      assert ProxyInv(cfg, s, q);
    }
    forall c | 0 <= c < |s'.caches| ensures CacheInv(cfg, s', c) {
      assert CacheInv(cfg, s, c);
    }
    forall id | 0 <= id < |s'.progress| ensures ProgressInv(cfg, s', id) {
      assert ProgressInv(cfg, s, id);
    }
    MqFrame(cfg, s, s', p);
    if s'.pool != [] {
      SameSleepers(s, s', p);
    }
  }

  // ---------------------------------------------------------------- taking a segment

  lemma PopKeepsPool(cfg: Config, s: State, p: nat)
    requires Inv(cfg, s) && p < |s.proxies| && s.proxies[p].pc == Acquire && s.pool != []
    ensures PoolInv(ProxyNext(cfg, s, p)) && MqInv(ProxyNext(cfg, s, p)) && WakeInv(ProxyNext(cfg, s, p))
  {
    hide Fits, ProxyLocal, CacheLocal;
    var s' := ProxyNext(cfg, s, p);
    var g := s.pool[0];
    assert SegInv(cfg, s, g);
    forall h | 0 <= h < |s'.segs| && s'.segs[h].owner == None ensures h in s'.pool {
      var i :| 0 <= i < |s.pool| && s.pool[i] == h;
      assert s'.pool[i - 1] == h;
    }
    assert Announcing(s'.proxies[p].pc);
  }

  lemma PopKeepsSeg(cfg: Config, s: State, p: nat, h: nat)
    requires Inv(cfg, s) && p < |s.proxies| && s.proxies[p].pc == Acquire && s.pool != [] && h < |s.segs|
    ensures SegInv(cfg, ProxyNext(cfg, s, p), h)
  {
    var s' := ProxyNext(cfg, s, p);
    assert SegInv(cfg, s, h) && ProxyInv(cfg, s, p);
    if h == s.pool[0] {
      assert Fits(cfg, s'.segs[h], s'.proxies[p], s'.caches);
    }
    hide Fits, ProxyLocal, CacheLocal;
    if InMq(s, h) { InMqGrows(s, s', h); }
  }

  lemma PopStep(cfg: Config, s: State, p: nat)
    requires Inv(cfg, s) && p < |s.proxies| && s.proxies[p].pc == Acquire && s.pool != []
    ensures Inv(cfg, ProxyNext(cfg, s, p))
  {
    hide Fits, ProxyLocal, CacheLocal;
    var s' := ProxyNext(cfg, s, p);
    PopKeepsPool(cfg, s, p);
    forall h | 0 <= h < |s'.segs| ensures SegInv(cfg, s', h) {
      PopKeepsSeg(cfg, s, p, h);
    }
    forall q | 0 <= q < |s'.proxies| ensures ProxyInv(cfg, s', q) {
      assert ProxyInv(cfg, s, q);
      assert Holding(s.proxies[q].pc) ==> s.proxies[q].seg != s.pool[0];
    }
    forall c | 0 <= c < |s'.caches| ensures CacheInv(cfg, s', c) {
      assert CacheInv(cfg, s, c);
    }
    forall id | 0 <= id < |s'.progress| ensures ProgressInv(cfg, s', id) {
      assert ProgressInv(cfg, s, id);
    }
  }

  // ---------------------------------------------------------------- broadcasts

  lemma AnnounceKeepsMq(cfg: Config, s: State, p: nat)
    requires Inv(cfg, s) && p < |s.proxies| && Announcing(s.proxies[p].pc)
    ensures PoolInv(ProxyNext(cfg, s, p)) && MqInv(ProxyNext(cfg, s, p)) && WakeInv(ProxyNext(cfg, s, p))
  {
    hide Fits, ProxyLocal, CacheLocal;
    var s' := ProxyNext(cfg, s, p);
    forall i | 0 <= i < |s.mq| ensures
      var o := s'.segs[s'.mq[i].seg].owner;
      o.Some? && o.value < |s'.proxies| && s'.proxies[o.value].path == s'.mq[i].path
    {
      assert SegInv(cfg, s, s.mq[i].seg);
    }
  }

  lemma AnnouncePopKeepsSeg(cfg: Config, s: State, p: nat, g: nat)
    requires Inv(cfg, s) && p < |s.proxies| && s.proxies[p].pc == AnnouncePop && g < |s.segs|
    ensures SegInv(cfg, ProxyNext(cfg, s, p), g)
  {
    var s' := ProxyNext(cfg, s, p);
    var own := s.proxies[p].seg;
    assert SegInv(cfg, s, g) && ProxyInv(cfg, s, p);
    if g == own {
      assert Fits(cfg, s'.segs[own], s'.proxies[p], s'.caches);
    }
    hide Fits, ProxyLocal, CacheLocal;
    if InMq(s, g) { InMqGrows(s, s', g); }
  }

  /** The broadcast after taking a segment. */
  lemma AnnouncePopStep(cfg: Config, s: State, p: nat)
    requires Inv(cfg, s) && p < |s.proxies| && s.proxies[p].pc == AnnouncePop
    ensures Inv(cfg, ProxyNext(cfg, s, p))
  {
    hide Fits, ProxyLocal, CacheLocal;
    var s' := ProxyNext(cfg, s, p);
    AnnounceKeepsMq(cfg, s, p);
    forall g | 0 <= g < |s'.segs| ensures SegInv(cfg, s', g) {
      AnnouncePopKeepsSeg(cfg, s, p, g);
    }
    forall q | 0 <= q < |s'.proxies| ensures ProxyInv(cfg, s', q) {
      assert ProxyInv(cfg, s, q);
    }
    forall c | 0 <= c < |s'.caches| ensures CacheInv(cfg, s', c) {
      assert CacheInv(cfg, s, c);
    }
    forall id | 0 <= id < |s'.progress| ensures ProgressInv(cfg, s', id) {
      assert ProgressInv(cfg, s, id);
    }
  }

  /** The broadcast after queueing a segment again, and the reply going out. */
  lemma AnnounceFreeStep(cfg: Config, s: State, p: nat)
    requires Inv(cfg, s) && p < |s.proxies| && s.proxies[p].pc == AnnounceFree
    ensures Inv(cfg, ProxyNext(cfg, s, p))
  {
    hide Fits, ProxyLocal, CacheLocal;
    var s' := ProxyNext(cfg, s, p);
    assert ProxyInv(cfg, s, p);
    AnnounceKeepsMq(cfg, s, p);
    forall g | 0 <= g < |s'.segs| ensures SegInv(cfg, s', g) {
      assert SegInv(cfg, s, g);
      if InMq(s, g) { InMqGrows(s, s', g); }
    }
    forall q | 0 <= q < |s'.proxies| ensures ProxyInv(cfg, s', q) {
      assert ProxyInv(cfg, s, q);
    }
    forall c | 0 <= c < |s'.caches| ensures CacheInv(cfg, s', c) {
      assert CacheInv(cfg, s, c);
    }
    forall id | 0 <= id < |s'.progress| ensures ProgressInv(cfg, s', id) {
      assert ProgressInv(cfg, s, id);
    }
  }

  // ---------------------------------------------------------------- the message queue

  /** A proxy worker about to send finds no message about its segment. */
  lemma NoMessageYet(cfg: Config, s: State, p: nat)
    requires Inv(cfg, s) && p < |s.proxies| && s.proxies[p].pc == SendMsg
    ensures s.segs[s.proxies[p].seg].server == Nobody && s.segs[s.proxies[p].seg].owner == Some(p)
  {
    assert ProxyInv(cfg, s, p) && SegInv(cfg, s, s.proxies[p].seg);
  }

  lemma SendMsgKeepsQueues(cfg: Config, s: State, p: nat)
    requires Inv(cfg, s) && p < |s.proxies| && s.proxies[p].pc == SendMsg && ProxyEnabled(cfg, s, p)
    ensures PoolInv(ProxyNext(cfg, s, p)) && MqInv(ProxyNext(cfg, s, p)) && WakeInv(ProxyNext(cfg, s, p))
  {
    hide Fits, ProxyLocal, CacheLocal;
    var s' := ProxyNext(cfg, s, p);
    NoMessageYet(cfg, s, p);
    SameSleepers(s, s', p);
  }

  lemma SendMsgKeepsSeg(cfg: Config, s: State, p: nat, g: nat)
    requires Inv(cfg, s) && p < |s.proxies| && s.proxies[p].pc == SendMsg && ProxyEnabled(cfg, s, p)
    requires g < |s.segs|
    ensures SegInv(cfg, ProxyNext(cfg, s, p), g)
  {
    var s' := ProxyNext(cfg, s, p);
    var own := s.proxies[p].seg;
    assert SegInv(cfg, s, g) && ProxyInv(cfg, s, p);
    if g == own {
      assert s'.mq[|s.mq|].seg == own;
      assert Fits(cfg, s'.segs[own], s'.proxies[p], s'.caches);
      hide Fits, ProxyLocal, CacheLocal;
    } else {
      hide Fits, ProxyLocal, CacheLocal;
      if InMq(s, g) { InMqGrows(s, s', g); }
      if s.segs[g].owner.Some? {
        assert s.segs[g].owner.value != p;
      }
    }
  }

  lemma SendMsgStep(cfg: Config, s: State, p: nat)
    requires Inv(cfg, s) && p < |s.proxies| && s.proxies[p].pc == SendMsg && ProxyEnabled(cfg, s, p)
    ensures Inv(cfg, ProxyNext(cfg, s, p))
  {
    hide Fits, SegInv, ProxyLocal, CacheLocal;
    var s' := ProxyNext(cfg, s, p);
    var own := s.proxies[p].seg;
    NoMessageYet(cfg, s, p);
    assert ProxyInv(cfg, s, p);
    SendMsgKeepsQueues(cfg, s, p);
    forall g | 0 <= g < |s'.segs| ensures SegInv(cfg, s', g) {
      SendMsgKeepsSeg(cfg, s, p, g);
    }
    forall q | 0 <= q < |s'.proxies| ensures ProxyInv(cfg, s', q) {
      assert ProxyInv(cfg, s, q);
    }
    forall c | 0 <= c < |s'.caches| ensures CacheInv(cfg, s', c) {
      assert CacheInv(cfg, s, c);
      assert Attached(s.caches[c]) ==> s.caches[c].seg != own;
    }
    forall id | 0 <= id < |s'.progress| ensures ProgressInv(cfg, s', id) {
      assert ProgressInv(cfg, s, id);
    }
  }

  lemma ReceiveKeepsMq(cfg: Config, s: State, c: nat, k: nat)
    requires Inv(cfg, s) && c < |s.caches| && s.caches[c].pc == Receive && s.mq != []
    ensures MqInv(CacheNext(cfg, s, c, k))
    ensures forall g :: 0 <= g < |s.segs| && InMq(s, g) && g != s.mq[0].seg ==> InMq(CacheNext(cfg, s, c, k), g)
  {
    hide Fits, ProxyLocal, CacheLocal;
    var s' := CacheNext(cfg, s, c, k);
    forall g | 0 <= g < |s.segs| && InMq(s, g) && g != s.mq[0].seg ensures InMq(s', g) {
      var i :| 0 <= i < |s.mq| && s.mq[i].seg == g;
      assert s'.mq[i - 1].seg == g;
    }
  }

  /** A cache worker with no segment to serve may change without disturbing any segment. */
  lemma OtherFits(cfg: Config, s: State, g: nat, c: nat, v: Cache)
    requires g < |s.segs| && SegInv(cfg, s, g) && c < |s.caches| && !Attached(s.caches[c])
    ensures s.segs[g].owner.Some? ==> Fits(cfg, s.segs[g], s.proxies[s.segs[g].owner.value], s.caches[c := v])
    ensures s.segs[g].owner.Some? ==> s.segs[g].server != Worker(c)
  {
  }

  lemma ReceiveKeepsSeg(cfg: Config, s: State, c: nat, k: nat, h: nat)
    requires Inv(cfg, s) && c < |s.caches| && s.caches[c].pc == Receive && s.mq != [] && h < |s.segs|
    ensures SegInv(cfg, CacheNext(cfg, s, c, k), h)
  {
    hide CacheLocal;
    var s' := CacheNext(cfg, s, c, k);
    assert SegInv(cfg, s, h);
    ReceiveKeepsMq(cfg, s, c, k);
    if h == s.mq[0].seg {
      assert Fits(cfg, s'.segs[h], s'.proxies[s.segs[h].owner.value], s'.caches);
    } else {
      OtherFits(cfg, s, h, c, s'.caches[c]);
    }
  }

  lemma ReceiveStep(cfg: Config, s: State, c: nat, k: nat)
    requires Inv(cfg, s) && c < |s.caches| && s.caches[c].pc == Receive && s.mq != []
    ensures Inv(cfg, CacheNext(cfg, s, c, k))
  {
    hide Fits, ProxyLocal, CacheLocal;
    var s' := CacheNext(cfg, s, c, k);
    var g := s.mq[0].seg;
    assert SegInv(cfg, s, g);
    ReceiveKeepsMq(cfg, s, c, k);
    forall h | 0 <= h < |s'.segs| ensures SegInv(cfg, s', h) {
      ReceiveKeepsSeg(cfg, s, c, k, h);
    }
    forall q | 0 <= q < |s'.proxies| ensures ProxyInv(cfg, s', q) {
      assert ProxyInv(cfg, s, q);
    }
    forall d | 0 <= d < |s'.caches| ensures CacheInv(cfg, s', d) {
      assert CacheInv(cfg, s, d);
      if d != c && Attached(s.caches[d]) {
        assert s.caches[d].seg != g;
      }
    }
    forall id | 0 <= id < |s'.progress| ensures ProgressInv(cfg, s', id) {
      assert ProgressInv(cfg, s, id);
    }
  }

  // ---------------------------------------------------------------- giving a segment back

  /** When a proxy worker queues its segment again, nobody serves it any more, its semaphores are back
      at their initial values, and its length fields are cleared. */
  lemma RequeueIsClean(cfg: Config, s: State, p: nat)
    requires Inv(cfg, s) && p < |s.proxies| && s.proxies[p].pc == Requeue
    ensures var w := s.proxies[p]; var g := s.segs[w.seg];
            && g.server == Nobody && Fresh(g) && g.used && g.readLen == 0 && g.filesize == 0
            && w.sent == cfg.Body(w.path) && w.found == cfg.Found(w.path)
            && w.header == if w.found then Some(Header(true, |w.sent|)) else None
  {
    assert ProxyInv(cfg, s, p) && SegInv(cfg, s, s.proxies[p].seg);
  }

  lemma RequeueKeepsQueues(cfg: Config, s: State, p: nat)
    requires Inv(cfg, s) && p < |s.proxies| && s.proxies[p].pc == Requeue
    ensures PoolInv(ProxyNext(cfg, s, p)) && MqInv(ProxyNext(cfg, s, p)) && WakeInv(ProxyNext(cfg, s, p))
  {
    hide Fits, ProxyLocal, CacheLocal;
    var s' := ProxyNext(cfg, s, p);
    var own := s.proxies[p].seg;
    RequeueIsClean(cfg, s, p);
    assert ProxyInv(cfg, s, p);
    assert s'.pool[|s.pool|] == own;
    forall h | 0 <= h < |s'.segs| && s'.segs[h].owner == None ensures h in s'.pool {
      assert h != own ==> h in s.pool;
    }
    assert Announcing(s'.proxies[p].pc);
  }

  lemma RequeueKeepsSeg(cfg: Config, s: State, p: nat, g: nat)
    requires Inv(cfg, s) && p < |s.proxies| && s.proxies[p].pc == Requeue && g < |s.segs|
    ensures SegInv(cfg, ProxyNext(cfg, s, p), g)
  {
    hide Fits, ProxyLocal, CacheLocal;
    RequeueIsClean(cfg, s, p);
    assert ProxyInv(cfg, s, p) && SegInv(cfg, s, g);
    if InMq(s, g) { InMqGrows(s, ProxyNext(cfg, s, p), g); }
    if g != s.proxies[p].seg && s.segs[g].owner.Some? {
      assert s.segs[g].owner.value != p;
    }
  }

  lemma RequeueStep(cfg: Config, s: State, p: nat)
    requires Inv(cfg, s) && p < |s.proxies| && s.proxies[p].pc == Requeue
    ensures Inv(cfg, ProxyNext(cfg, s, p))
  {
    hide Fits, SegInv, ProxyLocal, CacheLocal;
    var s' := ProxyNext(cfg, s, p);
    var own := s.proxies[p].seg;
    RequeueIsClean(cfg, s, p);
    RequeueKeepsQueues(cfg, s, p);
    assert ProxyInv(cfg, s, p);
    forall g | 0 <= g < |s'.segs| ensures SegInv(cfg, s', g) {
      RequeueKeepsSeg(cfg, s, p, g);
    }
    forall q | 0 <= q < |s'.proxies| ensures ProxyInv(cfg, s', q) {
      assert ProxyInv(cfg, s, q);
      assert q != p && Holding(s.proxies[q].pc) ==> s.proxies[q].seg != own;
    }
    forall c | 0 <= c < |s'.caches| ensures CacheInv(cfg, s', c) {
      assert CacheInv(cfg, s, c);
    }
    forall id | 0 <= id < |s'.progress| ensures ProgressInv(cfg, s', id) {
      assert ProgressInv(cfg, s, id);
    }
  }

  /** A cache worker that is done with its segment leaves its loop: no shared effect. */
  lemma LeaveStep(cfg: Config, s: State, c: nat, k: nat)
    requires Inv(cfg, s) && c < |s.caches| && s.caches[c].pc != Receive && !Attached(s.caches[c])
    ensures CacheNext(cfg, s, c, k) == s.(caches := s.caches[c := s.caches[c].(pc := Receive)])
    ensures Inv(cfg, CacheNext(cfg, s, c, k))
  {
    var s' := CacheNext(cfg, s, c, k);
    var v := s.caches[c];
    assert s.segs[v.seg := s.segs[v.seg]] == s.segs;
    forall g | 0 <= g < |s'.segs| ensures SegInv(cfg, s', g) {
      assert SegInv(cfg, s, g);
      if InMq(s, g) { InMqGrows(s, s', g); }
      OtherFits(cfg, s, g, c, s'.caches[c]);
    }
    hide Fits, ProxyLocal, CacheLocal;
    forall q | 0 <= q < |s'.proxies| ensures ProxyInv(cfg, s', q) {
      assert ProxyInv(cfg, s, q);
    }
    forall d | 0 <= d < |s'.caches| ensures CacheInv(cfg, s', d) {
      assert CacheInv(cfg, s, d);
    }
    forall id | 0 <= id < |s'.progress| ensures ProgressInv(cfg, s', id) {
      assert ProgressInv(cfg, s, id);
    }
  }

  // ---------------------------------------------------------------- all steps

  lemma ProxyStep(cfg: Config, s: State, p: nat)
    requires Inv(cfg, s) && p < |s.proxies| && ProxyEnabled(cfg, s, p)
    ensures Inv(cfg, ProxyNext(cfg, s, p))
  {
    var pc := s.proxies[p].pc;
    if ActsInside(pc) {
      ProxyLocalStep(cfg, s, p);
    } else {
      match pc
      case Idle => StartStep(cfg, s, p);
      case Acquire =>
        if s.pool == [] { WaitingStep(cfg, s, ProxyNext(cfg, s, p), p, Asleep); } else { PopStep(cfg, s, p); }
      case AnnouncePop => AnnouncePopStep(cfg, s, p);
      case SendMsg => SendMsgStep(cfg, s, p);
      case Requeue => RequeueStep(cfg, s, p);
      case AnnounceFree => AnnounceFreeStep(cfg, s, p);
    }
  }

  lemma CacheStep(cfg: Config, s: State, c: nat, k: nat)
    requires Inv(cfg, s) && c < |s.caches| && CacheEnabled(cfg, s, c, k)
    ensures Inv(cfg, CacheNext(cfg, s, c, k))
  {
    if s.caches[c].pc == Receive {
      ReceiveStep(cfg, s, c, k);
    } else if Attached(s.caches[c]) {
      CacheLocalStep(cfg, s, c, k);
    } else {
      LeaveStep(cfg, s, c, k);
    }
  }

  /** Every enabled step, by any worker and with any result of `pread`, keeps the invariant. */
  lemma StepInv(cfg: Config, s: State, a: Action)
    requires Inv(cfg, s) && Enabled(cfg, s, a)
    ensures Inv(cfg, Next(cfg, s, a))
  {
    match a
    case Run(p) => ProxyStep(cfg, s, p);
    case Serve(c, k) => CacheStep(cfg, s, c, k);
    case Spurious(p) => WaitingStep(cfg, s, Next(cfg, s, a), p, Acquire);
  }
}
