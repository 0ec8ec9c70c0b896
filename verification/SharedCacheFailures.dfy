/** What becomes of a segment when one gfs_send does not send the whole chunk.  Its result is kept
    in an unsigned variable, so the test for failure notices 0 only: -1 is added to the count of
    bytes like any other result.

    The run after the failing send is followed by the run that a complete send would have given
    (its shadow), in which the invariant holds. */
module SharedCacheFailures {
  import opened Basics
  import opened SharedCache
  import opened SharedCacheInvariant
  import Steps = SharedCacheSteps
  import opened SharedCacheTheorems

  /** `bytes_transferred += bytes_sent` on size_t, where -1 is the largest value. */
  function Added(t: nat, r: int): nat { (t + r) % (SIZE_MAX + 1) }

  /** The worker after gfs_send has returned r: how much of the chunk went out, or -1. */
  function SendReturns(w: Proxy, g: Seg, r: int): Proxy {
    if r == 0 then w.(pc := ClearLen)
    else w.(pc := PostSpace, transferred := Added(w.transferred, r),
            sent := w.sent + if r > 0 then Take(g.data, r) else [])
  }

  function AfterSend(cfg: Config, s: State, p: nat, r: int): State
    requires InRange(cfg, s) && p < |s.proxies| && s.proxies[p].pc == SendChunk
  {
    PutProxy(s, p, SendReturns(s.proxies[p], s.segs[s.proxies[p].seg], r))
  }

  /** The worker is about to send and the send falls short of the chunk. */
  ghost predicate FallsShort(cfg: Config, s: State, p: nat, r: int) {
    && Inv(cfg, s) && p < |s.proxies| && s.proxies[p].pc == SendChunk
    && -1 <= r < s.segs[s.proxies[p].seg].readLen
    && |cfg.Body(s.proxies[p].path)| <= SIZE_MAX
  }

  /** The results that make the worker leave its loop: 0 at once, and -1 before anything is
      counted, because the count then becomes the largest size_t. */
  predicate Stops(r: int, transferred: nat) {
    r == 0 || (r == -1 && transferred == 0)
  }

  predicate LastChunk(cfg: Config, s: State, p: nat)
    requires InRange(cfg, s) && p < |s.proxies| && Holding(s.proxies[p].pc)
  {
    s.proxies[p].transferred + s.segs[s.proxies[p].seg].readLen == |cfg.Body(s.proxies[p].path)|
  }

  /** A complete send is the step of the system. */
  lemma CompleteSendIsTheStep(cfg: Config, s: State, p: nat)
    requires Inv(cfg, s) && p < |s.proxies| && s.proxies[p].pc == SendChunk
    requires |cfg.Body(s.proxies[p].path)| <= SIZE_MAX
    ensures ProxyEnabled(cfg, s, p)
    ensures AfterSend(cfg, s, p, s.segs[s.proxies[p].seg].readLen) == ProxyNext(cfg, s, p)
  {
    ChunkFacts(cfg, s, p);
    assert s.segs[s.proxies[p].seg := s.segs[s.proxies[p].seg]] == s.segs;
  }

  lemma ChunkFacts(cfg: Config, s: State, p: nat)
    requires Inv(cfg, s) && p < |s.proxies| && s.proxies[p].pc == SendChunk
    ensures s.proxies[p].seg < |s.segs|
    ensures var w := s.proxies[p]; var g := s.segs[w.seg]; var body := cfg.Body(w.path);
            && 0 < g.readLen <= |g.data|
            && w.transferred + g.readLen <= |body|
            && w.sent == body[..w.transferred]
            && (g.server == Nobody <==> w.transferred + g.readLen == |body|)
            && g.server != Queued
            && g.owner == Some(p)
  {
    assert ProxyInv(cfg, s, p) && SegInv(cfg, s, s.proxies[p].seg);
  }

  /** What a short send leaves: the client has as much of the file as went out, the count is what
      size_t arithmetic makes of the result, and nothing else has changed. */
  lemma AfterShortSend(cfg: Config, s: State, p: nat, r: int)
    requires FallsShort(cfg, s, p, r)
    ensures InRange(cfg, s)
    ensures var d, w := AfterSend(cfg, s, p, r), s.proxies[p]; var w' := d.proxies[p];
            && d == s.(proxies := s.proxies[p := w'])
            && w'.pc == (if r == 0 then ClearLen else PostSpace)
            && w'.transferred == (if r >= 0 then w.transferred + r
                                  else if w.transferred > 0 then w.transferred - 1 else 0xFFFF_FFFF_FFFF_FFFF)
            && 0 <= w.transferred + Out(r) <= |cfg.Body(w.path)|
            && w'.sent == cfg.Body(w.path)[..w.transferred + Out(r)]
            && w'.id == w.id && w'.path == w.path && w'.seg == w.seg && w'.header == w.header && w'.found == w.found
  {
    hide Inv, InRange;
    InvInRange(cfg, s);
    ChunkFacts(cfg, s, p);
    NextBytes(cfg, s, p);
    var w := s.proxies[p];
    var g := s.segs[w.seg];
    var body := cfg.Body(w.path);
    assert g.data[..g.readLen][..Out(r)] == body[w.transferred..][..Out(r)];
    assert body[..w.transferred] + body[w.transferred..][..Out(r)] == body[..w.transferred + Out(r)];
  }

  /** How many bytes a result stands for: -1 means none. */
  function Out(r: int): nat { if r > 0 then r else 0 }

  lemma NextBytes(cfg: Config, s: State, p: nat)
    requires Inv(cfg, s) && p < |s.proxies| && s.proxies[p].pc == SendChunk
    ensures var w := s.proxies[p]; var g := s.segs[w.seg]; var body := cfg.Body(w.path);
            && 0 < g.readLen <= |g.data| && w.transferred + g.readLen <= |body|
            && g.data[..g.readLen] == body[w.transferred..][..g.readLen]
  {
    assert ProxyInv(cfg, s, p) && SegInv(cfg, s, s.proxies[p].seg);
  }

  // ---------------------------------------------------------------- the shadow

  /** State n with another worker p and other contents of read_len and filesize in segment g. */
  function Overlay(n: State, p: nat, w: Proxy, g: nat, readLen: nat, filesize: nat): State
    requires p < |n.proxies| && g < |n.segs|
  {
    n.(proxies := n.proxies[p := w], segs := n.segs[g := n.segs[g].(readLen := readLen, filesize := filesize)])
  }

  /** d differs from a state n of the system only in worker p, which is in its sending loop there,
      and in the two fields of its segment that it clears at the end. */
  ghost predicate Shadows(cfg: Config, d: State, n: State, p: nat, g: nat) {
    && Inv(cfg, n) && p < |n.proxies| == |d.proxies| && g < |n.segs| == |d.segs|
    && Sending(n.proxies[p].pc) && n.proxies[p].seg == g
    && (Sending(d.proxies[p].pc) || Closing(d.proxies[p].pc))
    && d.proxies[p].seg == g && d.proxies[p].id == n.proxies[p].id
    && d == Overlay(n, p, d.proxies[p], g, d.segs[g].readLen, d.segs[g].filesize)
  }

  lemma InvInRange(cfg: Config, n: State)
    requires Inv(cfg, n)
    ensures InRange(cfg, n)
  {
  }

  /** Nobody else holds g, and it is not in the pool. */
  lemma ShadowAlone(cfg: Config, n: State, p: nat, g: nat)
    requires Inv(cfg, n) && p < |n.proxies| && Sending(n.proxies[p].pc) && n.proxies[p].seg == g
    ensures g < |n.segs| && n.segs[g].owner == Some(p) && g !in n.pool
    ensures forall q :: 0 <= q < |n.proxies| && q != p && Holding(n.proxies[q].pc) ==> n.proxies[q].seg != g
    ensures forall i :: 0 <= i < |n.mq| ==> n.mq[i].seg != g
  {
    assert ProxyInv(cfg, n, p) && SegInv(cfg, n, g);
    forall q | 0 <= q < |n.proxies| && q != p && Holding(n.proxies[q].pc) ensures n.proxies[q].seg != g {
      assert ProxyInv(cfg, n, q);
    }
  }

  // ---------------------------------------------------------------- steps of other workers

  /** What the steps of another proxy worker need to be the same in both states. */
  predicate Apart(cfg: Config, n: State, p: nat, w: Proxy, g: nat, q: nat) {
    && p < |n.proxies| && g < |n.segs| && q < |n.proxies| && q != p
    && w.pc != Asleep && n.proxies[p].pc != Asleep
    && (Holding(n.proxies[q].pc) ==> n.proxies[q].seg != g)
    && g !in n.pool
  }

  lemma InsideCommutes(cfg: Config, n: State, p: nat, w: Proxy, g: nat, readLen: nat, filesize: nat, q: nat)
    requires Apart(cfg, n, p, w, g, q) && ActsInside(n.proxies[q].pc)
    requires InRange(cfg, n) && InRange(cfg, Overlay(n, p, w, g, readLen, filesize))
    requires ProxyEnabled(cfg, Overlay(n, p, w, g, readLen, filesize), q)
    ensures ProxyEnabled(cfg, n, q)
    ensures ProxyNext(cfg, Overlay(n, p, w, g, readLen, filesize), q)
         == Overlay(ProxyNext(cfg, n, q), p, w, g, readLen, filesize)
    ensures ProxyNext(cfg, n, q).proxies[p] == n.proxies[p] && ProxyNext(cfg, n, q).segs[g] == n.segs[g]
  {
    hide ProxyLocal, IsLocal;
    var d := Overlay(n, p, w, g, readLen, filesize);
    assert d.proxies[q] == n.proxies[q] && d.segs[n.proxies[q].seg] == n.segs[n.proxies[q].seg];
    assert ProxyNext(cfg, d, q).segs == Overlay(ProxyNext(cfg, n, q), p, w, g, readLen, filesize).segs;
    assert ProxyNext(cfg, d, q).proxies == Overlay(ProxyNext(cfg, n, q), p, w, g, readLen, filesize).proxies;
  }

  lemma OutsideCommutes(cfg: Config, n: State, p: nat, w: Proxy, g: nat, readLen: nat, filesize: nat, q: nat)
    requires Apart(cfg, n, p, w, g, q) && !ActsInside(n.proxies[q].pc)
    requires InRange(cfg, n) && InRange(cfg, Overlay(n, p, w, g, readLen, filesize))
    requires ProxyEnabled(cfg, Overlay(n, p, w, g, readLen, filesize), q)
    ensures ProxyEnabled(cfg, n, q)
    ensures ProxyNext(cfg, Overlay(n, p, w, g, readLen, filesize), q)
         == Overlay(ProxyNext(cfg, n, q), p, w, g, readLen, filesize)
    ensures ProxyNext(cfg, n, q).proxies[p] == n.proxies[p] && ProxyNext(cfg, n, q).segs[g] == n.segs[g]
  {
    hide ProxyLocal, IsLocal;
    var d := Overlay(n, p, w, g, readLen, filesize);
    assert d.proxies[q] == n.proxies[q];
    assert ProxyNext(cfg, d, q).segs == Overlay(ProxyNext(cfg, n, q), p, w, g, readLen, filesize).segs;
    assert ProxyNext(cfg, d, q).proxies == Overlay(ProxyNext(cfg, n, q), p, w, g, readLen, filesize).proxies;
  }

  /** The locals and the semaphores after a step of the cache worker do not depend on the two
      fields. */
  lemma CacheLocalIgnores(cfg: Config, c: nat, v: Cache, g: Seg, readLen: nat, filesize: nat, k: nat)
    requires v.pc == ReadFile ==> v.nread + k <= |cfg.Body(v.path)|
    ensures var (v', g') := CacheLocal(cfg, c, v, g, k);
            var (v2, g2) := CacheLocal(cfg, c, v, g.(readLen := readLen, filesize := filesize), k);
            v2 == v' && g2 == g'.(readLen := g2.readLen, filesize := g2.filesize)
  {
  }

  lemma CacheCommutes(cfg: Config, n: State, p: nat, w: Proxy, g: nat, readLen: nat, filesize: nat, c: nat, k: nat)
    requires p < |n.proxies| && g < |n.segs| && c < |n.caches| && n.caches[c].pc != Receive
    requires InRange(cfg, n) && InRange(cfg, Overlay(n, p, w, g, readLen, filesize))
    requires CacheEnabled(cfg, Overlay(n, p, w, g, readLen, filesize), c, k)
    ensures CacheEnabled(cfg, n, c, k)
    ensures var d' := CacheNext(cfg, Overlay(n, p, w, g, readLen, filesize), c, k);
            |d'.segs| == |n.segs| == |CacheNext(cfg, n, c, k).segs|
            && d' == Overlay(CacheNext(cfg, n, c, k), p, w, g, d'.segs[g].readLen, d'.segs[g].filesize)
  {
    hide CacheLocal;
    var d := Overlay(n, p, w, g, readLen, filesize);
    var d' := CacheNext(cfg, d, c, k);
    var v := n.caches[c];
    if v.seg == g {
      CacheLocalIgnores(cfg, c, v, n.segs[g], readLen, filesize, k);
    } else {
      assert d.segs[v.seg] == n.segs[v.seg];
    }
    assert d'.segs == Overlay(CacheNext(cfg, n, c, k), p, w, g, d'.segs[g].readLen, d'.segs[g].filesize).segs;
  }

  lemma ReceiveCommutes(cfg: Config, n: State, p: nat, w: Proxy, g: nat, readLen: nat, filesize: nat, c: nat, k: nat)
    requires p < |n.proxies| && g < |n.segs| && c < |n.caches| && n.caches[c].pc == Receive
    requires InRange(cfg, n) && InRange(cfg, Overlay(n, p, w, g, readLen, filesize))
    requires CacheEnabled(cfg, Overlay(n, p, w, g, readLen, filesize), c, k)
    requires forall i :: 0 <= i < |n.mq| ==> n.mq[i].seg != g
    ensures CacheEnabled(cfg, n, c, k)
    ensures CacheNext(cfg, Overlay(n, p, w, g, readLen, filesize), c, k)
         == Overlay(CacheNext(cfg, n, c, k), p, w, g, readLen, filesize)
    ensures CacheNext(cfg, n, c, k).segs[g] == n.segs[g]
  {
    hide CacheLocal;
    var d := Overlay(n, p, w, g, readLen, filesize);
    assert CacheNext(cfg, d, c, k).segs == Overlay(CacheNext(cfg, n, c, k), p, w, g, readLen, filesize).segs;
  }

  lemma SpuriousCommutes(cfg: Config, n: State, p: nat, w: Proxy, g: nat, readLen: nat, filesize: nat, q: nat)
    requires Apart(cfg, n, p, w, g, q)
    requires InRange(cfg, n) && InRange(cfg, Overlay(n, p, w, g, readLen, filesize))
    requires Enabled(cfg, Overlay(n, p, w, g, readLen, filesize), Spurious(q))
    ensures Enabled(cfg, n, Spurious(q))
    ensures Next(cfg, Overlay(n, p, w, g, readLen, filesize), Spurious(q))
         == Overlay(Next(cfg, n, Spurious(q)), p, w, g, readLen, filesize)
  {
    var d := Overlay(n, p, w, g, readLen, filesize);
    assert Next(cfg, d, Spurious(q)).proxies == Overlay(Next(cfg, n, Spurious(q)), p, w, g, readLen, filesize).proxies;
  }

  /** A segment that nobody serves, or whose worker has the token, is not touched by cache workers. */
  lemma CacheLeavesAlone(cfg: Config, n: State, p: nat, g: nat, c: nat, k: nat)
    requires Inv(cfg, n) && p < |n.proxies| && Sending(n.proxies[p].pc) && n.proxies[p].seg == g < |n.segs|
    requires c < |n.caches| && n.caches[c].pc != Receive && CacheEnabled(cfg, n, c, k)
    requires n.segs[g].server == Nobody || n.proxies[p].pc == SendChunk
    ensures CacheNext(cfg, n, c, k).segs[g] == n.segs[g]
  {
    assert ProxyInv(cfg, n, p) && SegInv(cfg, n, g) && CacheInv(cfg, n, c);
    if n.caches[c].seg == g {
      if Attached(n.caches[c]) {
        assert n.caches[c].pc == ReadTest;
      } else {
        Steps.LeaveStep(cfg, n, c, k);
      }
    }
  }

  /** What the step of a worker other than p does to both states. */
  ghost predicate InStep(cfg: Config, d: State, n: State, d': State, n': State, p: nat, g: nat)
    requires p < |n.proxies| && p < |d.proxies| && g < |n.segs|
  {
    && Shadows(cfg, d', n', p, g)
    && d'.proxies[p] == d.proxies[p] && n'.proxies[p] == n.proxies[p]
    && (d.segs == n.segs ==> d'.segs == n'.segs)
    && (n.segs[g].server == Nobody || n.proxies[p].pc == SendChunk ==> n'.segs[g] == n.segs[g])
  }

  lemma OtherRunFollows(cfg: Config, d: State, n: State, p: nat, g: nat, q: nat)
    requires Shadows(cfg, d, n, p, g) && InRange(cfg, d) && q != p && q < |d.proxies| && ProxyEnabled(cfg, d, q)
    ensures ProxyEnabled(cfg, n, q)
    ensures InStep(cfg, d, n, ProxyNext(cfg, d, q), ProxyNext(cfg, n, q), p, g)
  {
    var w, seg := d.proxies[p], d.segs[g];
    ShadowAlone(cfg, n, p, g);
    InvInRange(cfg, n);
    assert d.segs == n.segs ==> seg == n.segs[g];
    if ActsInside(n.proxies[q].pc) {
      InsideCommutes(cfg, n, p, w, g, seg.readLen, seg.filesize, q);
    } else {
      OutsideCommutes(cfg, n, p, w, g, seg.readLen, seg.filesize, q);
    }
    Steps.ProxyStep(cfg, n, q);
    hide Inv, InRange, ProxyNext, ProxyEnabled;
    ProxyNextInRange(cfg, n, q);
    var n' := ProxyNext(cfg, n, q);
    assert d.segs == n.segs ==> n'.segs[g := n'.segs[g].(readLen := seg.readLen, filesize := seg.filesize)] == n'.segs;
  }

  lemma ReceiveFollows(cfg: Config, d: State, n: State, p: nat, g: nat, c: nat, k: nat)
    requires Shadows(cfg, d, n, p, g) && InRange(cfg, d) && c < |d.caches| && CacheEnabled(cfg, d, c, k)
    requires d.caches[c].pc == Receive
    ensures CacheEnabled(cfg, n, c, k)
    ensures InStep(cfg, d, n, CacheNext(cfg, d, c, k), CacheNext(cfg, n, c, k), p, g)
  {
    hide Inv, InRange, CacheNext, CacheEnabled;
    ShadowAlone(cfg, n, p, g);
    InvInRange(cfg, n);
    ReceiveCommutes(cfg, n, p, d.proxies[p], g, d.segs[g].readLen, d.segs[g].filesize, c, k);
    SameSegsSameStep(cfg, d, n, c, k);
    CacheNextInRange(cfg, n, c, k);
    Steps.CacheStep(cfg, n, c, k);
  }

  lemma CopyFollows(cfg: Config, d: State, n: State, p: nat, g: nat, c: nat, k: nat)
    requires Shadows(cfg, d, n, p, g) && InRange(cfg, d) && c < |d.caches| && CacheEnabled(cfg, d, c, k)
    requires d.caches[c].pc != Receive
    ensures CacheEnabled(cfg, n, c, k)
    ensures InStep(cfg, d, n, CacheNext(cfg, d, c, k), CacheNext(cfg, n, c, k), p, g)
  {
    hide Inv, InRange, CacheNext, CacheEnabled;
    InvInRange(cfg, n);
    CacheCommutes(cfg, n, p, d.proxies[p], g, d.segs[g].readLen, d.segs[g].filesize, c, k);
    if n.segs[g].server == Nobody || n.proxies[p].pc == SendChunk {
      CacheLeavesAlone(cfg, n, p, g, c, k);
    }
    SameSegsSameStep(cfg, d, n, c, k);
    CacheNextInRange(cfg, n, c, k);
    Steps.CacheStep(cfg, n, c, k);
  }

  lemma SameSegsSameStep(cfg: Config, d: State, n: State, c: nat, k: nat)
    requires InRange(cfg, d) && InRange(cfg, n) && c < |d.caches| && d.caches == n.caches && d.mq == n.mq
    requires CacheEnabled(cfg, d, c, k) && CacheEnabled(cfg, n, c, k)
    ensures d.segs == n.segs ==> CacheNext(cfg, d, c, k).segs == CacheNext(cfg, n, c, k).segs
  {
    hide CacheLocal;
  }

  lemma SpuriousFollows(cfg: Config, d: State, n: State, p: nat, g: nat, q: nat)
    requires Shadows(cfg, d, n, p, g) && InRange(cfg, d) && Enabled(cfg, d, Spurious(q))
    ensures InRange(cfg, n) && Enabled(cfg, n, Spurious(q))
    ensures InStep(cfg, d, n, Next(cfg, d, Spurious(q)), Next(cfg, n, Spurious(q)), p, g)
  {
    ShadowAlone(cfg, n, p, g);
    InvInRange(cfg, n);
    SpuriousCommutes(cfg, n, p, d.proxies[p], g, d.segs[g].readLen, d.segs[g].filesize, q);
    Steps.StepInv(cfg, n, Spurious(q));
    hide Inv, InRange;
  }

  lemma OthersFollow(cfg: Config, d: State, n: State, p: nat, g: nat, a: Action)
    requires Shadows(cfg, d, n, p, g) && InRange(cfg, d) && Enabled(cfg, d, a) && a != Run(p)
    ensures InRange(cfg, n) && Enabled(cfg, n, a)
    ensures InStep(cfg, d, n, Next(cfg, d, a), Next(cfg, n, a), p, g)
  {
    InvInRange(cfg, n);
    hide Inv, InRange, Shadows, InStep;
    match a
    case Run(q) => OtherRunFollows(cfg, d, n, p, g, q);
    case Serve(c, k) =>
      if d.caches[c].pc == Receive { ReceiveFollows(cfg, d, n, p, g, c, k); } else { CopyFollows(cfg, d, n, p, g, c, k); }
    case Spurious(q) => SpuriousFollows(cfg, d, n, p, g, q);
  }

  // ---------------------------------------------------------------- steps of the worker itself

  lemma LoopFacts(cfg: Config, n: State, p: nat)
    requires Inv(cfg, n) && p < |n.proxies| && Sending(n.proxies[p].pc) && n.proxies[p].seg < |n.segs|
    ensures var w := n.proxies[p]; var g := n.segs[w.seg];
            && g.filesize == |cfg.Body(w.path)| && w.transferred <= |cfg.Body(w.path)|
            && (w.pc == SendChunk ==> Take(g.data, g.readLen) != [])
            && (w.pc == LoopTest && w.transferred == |cfg.Body(w.path)| ==> g.proxySem == 0)
            && w.id < n.issued && w.id < |n.progress| && n.progress[w.id] == Serving(p)
  {
    assert ProxyInv(cfg, n, p) && SegInv(cfg, n, n.proxies[p].seg);
  }

  /** From `from` on, dw has sent the same bytes as nw; before, it has sent `front`. */
  predicate SameFrom(dw: Proxy, nw: Proxy, front: seq<byte>, from: nat) {
    from <= |nw.sent| && dw.sent == front + nw.sent[from..]
  }

  /** Worker p has counted less than went out in the shadow.  It keeps pace, and when the shadow has
      sent everything it waits for a chunk that nobody stores. */
  ghost predicate Behind(cfg: Config, d: State, n: State, p: nat, front: seq<byte>, from: nat)
    requires p < |d.proxies| && p < |n.proxies|
  {
    var dw, nw := d.proxies[p], n.proxies[p];
    && d.segs == n.segs && dw.transferred < nw.transferred && SameFrom(dw, nw, front, from)
    && (dw.pc == nw.pc || (dw.pc == WaitChunk && nw.pc == LoopTest && nw.transferred == |cfg.Body(nw.path)|))
  }

  lemma LocalKeepsPace(dw: Proxy, nw: Proxy, g: Seg, front: seq<byte>, from: nat)
    requires dw.pc == nw.pc && Sending(nw.pc) && dw.transferred < nw.transferred && SameFrom(dw, nw, front, from)
    requires nw.pc == LoopTest ==> nw.transferred < g.filesize
    requires nw.pc == SendChunk ==> Take(g.data, g.readLen) != []
    ensures var (dw', g1) := ProxyLocal(dw, g); var (nw', g2) := ProxyLocal(nw, g);
            && g1 == g2 && dw'.pc == nw'.pc && Sending(nw'.pc) && dw'.transferred < nw'.transferred
            && SameFrom(dw', nw', front, from)
            && dw'.seg == dw.seg && dw'.id == dw.id && nw'.seg == nw.seg && nw'.id == nw.id && nw'.path == nw.path
            && g1.server == g.server
  {
    var chunk := Take(g.data, g.readLen);
    assert (nw.sent + chunk)[from..] == nw.sent[from..] + chunk;
  }

  lemma InsideStepIs(cfg: Config, s: State, p: nat)
    requires InRange(cfg, s) && p < |s.proxies| && ProxyEnabled(cfg, s, p)
    requires Sending(s.proxies[p].pc) || s.proxies[p].pc == ClearLen || s.proxies[p].pc == ClearSize
    ensures s.proxies[p].seg < |s.segs|
    ensures var (w', g') := ProxyLocal(s.proxies[p], s.segs[s.proxies[p].seg]);
            ProxyNext(cfg, s, p) == PutBoth(s, p, w', s.proxies[p].seg, g')
  {
    hide ProxyLocal;
  }

  lemma SameEnabled(cfg: Config, d: State, n: State, p: nat)
    requires InRange(cfg, d) && InRange(cfg, n) && p < |d.proxies| && p < |n.proxies|
    requires d.segs == n.segs && d.proxies[p].pc == n.proxies[p].pc && d.proxies[p].seg == n.proxies[p].seg
    requires Sending(n.proxies[p].pc) && ProxyEnabled(cfg, d, p)
    ensures ProxyEnabled(cfg, n, p)
  {
  }

  /** With equal segments only worker p differs. */
  lemma EqualSegs(d: State, n: State, p: nat, g: nat)
    requires p < |d.proxies| && p < |n.proxies| && g < |n.segs| && d.segs == n.segs
    requires d == n.(proxies := n.proxies[p := d.proxies[p]])
    ensures d == Overlay(n, p, d.proxies[p], g, d.segs[g].readLen, d.segs[g].filesize)
  {
    assert n.segs[g := n.segs[g]] == n.segs;
  }

  lemma PaceStep(cfg: Config, d: State, n: State, p: nat, g: nat, front: seq<byte>, from: nat)
    requires Shadows(cfg, d, n, p, g) && Behind(cfg, d, n, p, front, from) && InRange(cfg, d) && ProxyEnabled(cfg, d, p)
    requires d.proxies[p].pc == n.proxies[p].pc
    requires n.proxies[p].pc == LoopTest ==> n.proxies[p].transferred < n.segs[g].filesize
    requires n.proxies[p].pc == SendChunk ==> Take(n.segs[g].data, n.segs[g].readLen) != []
    ensures InRange(cfg, n) && ProxyEnabled(cfg, n, p)
    ensures var d', n' := ProxyNext(cfg, d, p), ProxyNext(cfg, n, p);
            && Shadows(cfg, d', n', p, g) && Behind(cfg, d', n', p, front, from)
            && n'.segs[g].server == n.segs[g].server && d'.proxies[p].id == d.proxies[p].id
  {
    hide Inv, InRange, ProxyNext, ProxyEnabled, ProxyLocal, Take;
    InvInRange(cfg, n);
    SameEnabled(cfg, d, n, p);
    LocalKeepsPace(d.proxies[p], n.proxies[p], n.segs[g], front, from);
    Steps.ProxyStep(cfg, n, p);
    InsideStepIs(cfg, d, p);
    InsideStepIs(cfg, n, p);
    var d', n' := ProxyNext(cfg, d, p), ProxyNext(cfg, n, p);
    assert d'.segs == n'.segs;
    assert d'.proxies == n'.proxies[p := d'.proxies[p]];
    EqualSegs(d', n', p, g);
  }

  lemma BehindStep(cfg: Config, d: State, n: State, p: nat, g: nat, front: seq<byte>, from: nat) returns (n': State)
    requires Shadows(cfg, d, n, p, g) && Behind(cfg, d, n, p, front, from) && InRange(cfg, d) && ProxyEnabled(cfg, d, p)
    ensures Shadows(cfg, ProxyNext(cfg, d, p), n', p, g) && Behind(cfg, ProxyNext(cfg, d, p), n', p, front, from)
    ensures n'.segs[g].server == n.segs[g].server
    ensures ProxyNext(cfg, d, p).proxies[p].id == d.proxies[p].id
  {
    LoopFacts(cfg, n, p);
    hide Inv, InRange, ProxyNext;
    InvInRange(cfg, n);
    assert d.proxies[p].pc == n.proxies[p].pc;
    if n.proxies[p].pc == LoopTest && n.proxies[p].transferred == |cfg.Body(n.proxies[p].path)| {
      n' := n;
      InsideStepIs(cfg, d, p);
      var d' := ProxyNext(cfg, d, p);
      assert d'.segs == n.segs && d'.proxies == n.proxies[p := d'.proxies[p]];
      EqualSegs(d', n, p, g);
    } else {
      hide ProxyEnabled, ProxyLocal, Take;
      PaceStep(cfg, d, n, p, g, front, from);
      n' := ProxyNext(cfg, n, p);
    }
  }

  /** Worker p is on its way out of the loop, with the shadow waiting where the loop was left. */
  ghost predicate Leaving(cfg: Config, d: State, n: State, p: nat, r: int)
    requires p < |d.proxies| && p < |n.proxies|
  {
    var dw, nw := d.proxies[p], n.proxies[p];
    || (Closing(dw.pc) && nw.pc == if r == 0 then SendChunk else LoopTest)
    || (r == -1 && dw.pc == nw.pc && (dw.pc == PostSpace || dw.pc == LoopTest) && d.segs == n.segs
        && dw.transferred == SIZE_MAX && |cfg.Body(nw.path)| <= SIZE_MAX)
  }

  /** Queueing the segment is the last thing a worker does for a request, besides announcing it. */
  predicate Gone(e: State, p: nat, id: nat) {
    p < |e.proxies| && id < e.issued && (e.proxies[p].pc == AnnounceFree || e.proxies[p].pc == Idle || e.proxies[p].id != id)
  }

  lemma GoneStaysInside(cfg: Config, e: State, p: nat, id: nat, q: nat)
    requires Gone(e, p, id) && InRange(cfg, e) && q < |e.proxies| && ProxyEnabled(cfg, e, q) && ActsInside(e.proxies[q].pc)
    ensures Gone(ProxyNext(cfg, e, q), p, id)
  {
    hide ProxyLocal, IsLocal;
    ProxyLocalKeepsNames(e.proxies[q], e.segs[e.proxies[q].seg]);
  }

  lemma GoneStaysOutside(cfg: Config, e: State, p: nat, id: nat, q: nat)
    requires Gone(e, p, id) && InRange(cfg, e) && q < |e.proxies| && ProxyEnabled(cfg, e, q) && !ActsInside(e.proxies[q].pc)
    ensures Gone(ProxyNext(cfg, e, q), p, id)
  {
    hide ProxyLocal, IsLocal;
  }

  lemma GoneStays(cfg: Config, e: State, p: nat, id: nat, a: Action)
    requires Gone(e, p, id) && InRange(cfg, e) && Enabled(cfg, e, a)
    ensures Gone(Next(cfg, e, a), p, id)
  {
    hide InRange, ProxyNext, ProxyEnabled, CacheLocal;
    match a
    case Run(q) => if ActsInside(e.proxies[q].pc) { GoneStaysInside(cfg, e, p, id, q); } else { GoneStaysOutside(cfg, e, p, id, q); }
    case Serve(c, k) => CacheNextInRange(cfg, e, c, k);
    case Spurious(q) =>
  }

  lemma PostBeforeLeaving(cfg: Config, d: State, n: State, p: nat, g: nat, r: int)
    requires Shadows(cfg, d, n, p, g) && Leaving(cfg, d, n, p, r) && InRange(cfg, d) && ProxyEnabled(cfg, d, p)
    requires d.proxies[p].pc == PostSpace
    ensures InRange(cfg, n) && ProxyEnabled(cfg, n, p)
    ensures var d', n' := ProxyNext(cfg, d, p), ProxyNext(cfg, n, p);
            && Shadows(cfg, d', n', p, g) && Leaving(cfg, d', n', p, r)
            && n'.segs[g].server == n.segs[g].server
            && d'.proxies[p].id == d.proxies[p].id && d'.proxies[p].sent == d.proxies[p].sent
  {
    hide Inv, InRange, ProxyNext, ProxyEnabled;
    InvInRange(cfg, n);
    SameEnabled(cfg, d, n, p);
    Steps.ProxyStep(cfg, n, p);
    InsideStepIs(cfg, d, p);
    InsideStepIs(cfg, n, p);
    var d', n' := ProxyNext(cfg, d, p), ProxyNext(cfg, n, p);
    assert d'.segs == n'.segs;
    assert d'.proxies == n'.proxies[p := d'.proxies[p]];
    EqualSegs(d', n', p, g);
  }

  lemma CloseWithoutShadow(cfg: Config, d: State, n: State, p: nat, g: nat, r: int)
    requires Shadows(cfg, d, n, p, g) && Leaving(cfg, d, n, p, r) && InRange(cfg, d) && ProxyEnabled(cfg, d, p)
    requires d.proxies[p].pc != Requeue && d.proxies[p].pc != PostSpace
    requires d.proxies[p].pc == LoopTest ==> d.segs[g].filesize <= SIZE_MAX
    ensures var d' := ProxyNext(cfg, d, p);
            && Shadows(cfg, d', n, p, g) && Leaving(cfg, d', n, p, r)
            && d'.proxies[p].id == d.proxies[p].id && d'.proxies[p].sent == d.proxies[p].sent
  {
    hide Inv, InRange, ProxyNext, ProxyEnabled;
    InsideStepIs(cfg, d, p);
    var d' := ProxyNext(cfg, d, p);
    assert d'.segs == n.segs[g := d'.segs[g]] && d'.proxies == n.proxies[p := d'.proxies[p]];
    assert d' == Overlay(n, p, d'.proxies[p], g, d'.segs[g].readLen, d'.segs[g].filesize);
  }

  lemma LeavingStep(cfg: Config, d: State, n: State, p: nat, g: nat, r: int) returns (n': State)
    requires Shadows(cfg, d, n, p, g) && Leaving(cfg, d, n, p, r) && InRange(cfg, d) && ProxyEnabled(cfg, d, p)
    requires d.proxies[p].pc != Requeue
    ensures Shadows(cfg, ProxyNext(cfg, d, p), n', p, g) && Leaving(cfg, ProxyNext(cfg, d, p), n', p, r)
    ensures n'.segs[g].server == n.segs[g].server
    ensures r == 0 ==> n' == n
    ensures var w := ProxyNext(cfg, d, p).proxies[p]; w.id == d.proxies[p].id && w.sent == d.proxies[p].sent
  {
    LoopFacts(cfg, n, p);
    hide Inv, InRange, ProxyNext, ProxyEnabled;
    if d.proxies[p].pc == PostSpace {
      PostBeforeLeaving(cfg, d, n, p, g, r);
      n' := ProxyNext(cfg, n, p);
    } else {
      CloseWithoutShadow(cfg, d, n, p, g, r);
      n' := n;
    }
  }

  // ---------------------------------------------------------------- whole runs after the failure

  /** s is the state before the failing send, d one after it, n the shadow of d. */
  ghost predicate Follows(cfg: Config, s: State, d: State, n: State, p: nat, r: int)
    requires p < |s.proxies| && s.proxies[p].seg < |s.segs|
  {
    var w, g := s.proxies[p], s.proxies[p].seg;
    && Shadows(cfg, d, n, p, g) && d.proxies[p].id == w.id
    && (s.segs[g].server == Nobody ==> n.segs[g].server == Nobody)
    && if Stops(r, w.transferred)
       then Leaving(cfg, d, n, p, r) && d.proxies[p].sent == w.sent
            && (r == 0 ==> n.proxies[p] == w && n.segs[g] == s.segs[g])
       else Behind(cfg, d, n, p, SendReturns(w, s.segs[g], r).sent, w.transferred + s.segs[g].readLen)
  }

  lemma SentFacts(w: Proxy, g: Seg, body: nat, r: int)
    requires w.pc == SendChunk && -1 <= r < g.readLen && w.transferred + g.readLen <= body <= SIZE_MAX
    ensures var dw := SendReturns(w, g, r);
            && dw.seg == w.seg && dw.id == w.id && dw.path == w.path
            && (r == 0 ==> dw.pc == ClearLen && dw.sent == w.sent)
            && (r != 0 ==> dw.pc == PostSpace)
            && (r == -1 ==> dw.sent == w.sent)
            && (r == -1 && w.transferred == 0 ==> dw.transferred == SIZE_MAX)
            && (!Stops(r, w.transferred) ==> dw.transferred < w.transferred + g.readLen)
  {
    assert w.sent + [] == w.sent;
  }

  lemma GivingUpStarts(cfg: Config, s: State, p: nat)
    requires FallsShort(cfg, s, p, 0)
    ensures InRange(cfg, s) && s.proxies[p].seg < |s.segs|
    ensures Follows(cfg, s, AfterSend(cfg, s, p, 0), s, p, 0)
  {
    hide Inv, InRange;
    InvInRange(cfg, s);
    ChunkFacts(cfg, s, p);
    EqualSegs(AfterSend(cfg, s, p, 0), s, p, s.proxies[p].seg);
  }

  lemma GoingOnStarts(cfg: Config, s: State, p: nat, r: int)
    requires FallsShort(cfg, s, p, r) && r != 0
    ensures InRange(cfg, s) && s.proxies[p].seg < |s.segs|
    ensures Follows(cfg, s, AfterSend(cfg, s, p, r), AfterSend(cfg, s, p, s.segs[s.proxies[p].seg].readLen), p, r)
  {
    hide Inv, InRange, ProxyNext, ProxyEnabled;
    InvInRange(cfg, s);
    ChunkFacts(cfg, s, p);
    var w, g := s.proxies[p], s.proxies[p].seg;
    SentFacts(w, s.segs[g], |cfg.Body(w.path)|, r);
    CompleteSendIsTheStep(cfg, s, p);
    Steps.ProxyStep(cfg, s, p);
    var d, n := AfterSend(cfg, s, p, r), AfterSend(cfg, s, p, s.segs[g].readLen);
    assert |n.proxies[p].sent| == w.transferred + s.segs[g].readLen;
    EqualSegs(d, n, p, g);
  }

  lemma FailureStarts(cfg: Config, s: State, p: nat, r: int) returns (n: State)
    requires FallsShort(cfg, s, p, r)
    ensures InRange(cfg, s) && s.proxies[p].seg < |s.segs|
    ensures Follows(cfg, s, AfterSend(cfg, s, p, r), n, p, r)
  {
    hide Inv, InRange, Follows;
    InvInRange(cfg, s);
    if r == 0 {
      GivingUpStarts(cfg, s, p);
      n := s;
    } else {
      GoingOnStarts(cfg, s, p, r);
      n := AfterSend(cfg, s, p, s.segs[s.proxies[p].seg].readLen);
    }
  }

  lemma ShadowSizes(cfg: Config, d: State, n: State, p: nat, g: nat)
    requires Shadows(cfg, d, n, p, g)
    ensures p < |d.proxies| && p < |n.proxies| && g < |d.segs| && g < |n.segs|
  {
  }

  lemma OtherKeepsMode(cfg: Config, d: State, n: State, d': State, n': State, p: nat, g: nat, r: int,
                       front: seq<byte>, from: nat)
    requires p < |d.proxies| && p < |n.proxies| && g < |n.segs| && InStep(cfg, d, n, d', n', p, g)
    requires Shadows(cfg, d, n, p, g)
    ensures p < |d'.proxies| && p < |n'.proxies| && g < |n'.segs|
    ensures Behind(cfg, d, n, p, front, from) ==> Behind(cfg, d', n', p, front, from)
    ensures Leaving(cfg, d, n, p, r) ==> Leaving(cfg, d', n', p, r)
    ensures Leaving(cfg, d, n, p, 0) ==> n'.segs[g] == n.segs[g]
  {
    hide Inv;
  }

  lemma QueueingGoes(cfg: Config, d: State, n: State, p: nat, g: nat)
    requires Shadows(cfg, d, n, p, g) && InRange(cfg, d) && d.proxies[p].pc == Requeue
    ensures ProxyEnabled(cfg, d, p) && Gone(ProxyNext(cfg, d, p), p, d.proxies[p].id)
  {
    LoopFacts(cfg, n, p);
  }

  lemma FollowStep(cfg: Config, s: State, d: State, n: State, p: nat, r: int, a: Action) returns (n': State)
    requires p < |s.proxies| && s.proxies[p].seg < |s.segs| && Follows(cfg, s, d, n, p, r)
    requires InRange(cfg, d) && Enabled(cfg, d, a)
    ensures || Follows(cfg, s, Next(cfg, d, a), n', p, r)
            || (Stops(r, s.proxies[p].transferred) && Gone(Next(cfg, d, a), p, s.proxies[p].id))
  {
    hide Inv, InRange, ProxyNext, CacheNext, ProxyEnabled, CacheEnabled, Shadows, Behind, Leaving, Gone, SendReturns;
    var g := s.proxies[p].seg;
    var front, from := SendReturns(s.proxies[p], s.segs[g], r).sent, s.proxies[p].transferred + s.segs[g].readLen;
    assert Shadows(cfg, d, n, p, g);
    ShadowSizes(cfg, d, n, p, g);
    n' := n;
    if a != Run(p) {
      OthersFollow(cfg, d, n, p, g, a);
      n' := Next(cfg, n, a);
      OtherKeepsMode(cfg, d, n, Next(cfg, d, a), n', p, g, r, front, from);
    } else if !Stops(r, s.proxies[p].transferred) {
      n' := BehindStep(cfg, d, n, p, g, front, from);
    } else if d.proxies[p].pc != Requeue {
      n' := LeavingStep(cfg, d, n, p, g, r);
    } else {
      QueueingGoes(cfg, d, n, p, g);
    }
  }

  lemma {:induction false} GoneRun(cfg: Config, e: State, p: nat, id: nat, more: seq<Action>)
    requires Gone(e, p, id) && IsRun(cfg, e, more)
    ensures Gone(After(cfg, e, more), p, id)
    decreases |more|
  {
    if more == [] {
    } else {
      GoneStays(cfg, e, p, id, more[0]);
      hide InRange, Next, Enabled, Gone;
      GoneRun(cfg, Next(cfg, e, more[0]), p, id, more[1..]);
    }
  }

  lemma {:induction false} FollowRun(cfg: Config, s: State, d: State, n: State, p: nat, r: int, more: seq<Action>)
    returns (n': State)
    requires p < |s.proxies| && s.proxies[p].seg < |s.segs| && Follows(cfg, s, d, n, p, r) && IsRun(cfg, d, more)
    ensures || Follows(cfg, s, After(cfg, d, more), n', p, r)
            || (Stops(r, s.proxies[p].transferred) && Gone(After(cfg, d, more), p, s.proxies[p].id))
    decreases |more|
  {
    if more == [] {
      n' := n;
    } else {
      hide InRange, Next, Enabled, Follows, Gone, Stops;
      n' := FollowStep(cfg, s, d, n, p, r, more[0]);
      if Follows(cfg, s, Next(cfg, d, more[0]), n', p, r) {
        n' := FollowRun(cfg, s, Next(cfg, d, more[0]), n', p, r, more[1..]);
      } else {
        GoneRun(cfg, Next(cfg, d, more[0]), p, s.proxies[p].id, more[1..]);
      }
    }
  }

  // ---------------------------------------------------------------- when the segment comes back

  /** A run at whose end the worker is about to queue the segment again, for request id. */
  ghost predicate ComesBack(cfg: Config, d: State, more: seq<Action>, p: nat, id: nat) {
    IsRun(cfg, d, more)
    && var e := After(cfg, d, more);
       p < |e.proxies| && e.proxies[p].pc == Requeue && e.proxies[p].id == id
  }

  lemma LoopSent(cfg: Config, n: State, p: nat)
    requires Inv(cfg, n) && p < |n.proxies| && Sending(n.proxies[p].pc)
    ensures var w := n.proxies[p];
            && w.transferred <= |cfg.Body(w.path)| && w.sent == cfg.Body(w.path)[..w.transferred]
            && w.id < |cfg.requests| && w.path == cfg.requests[w.id]
  {
    assert ProxyInv(cfg, n, p) && SegInv(cfg, n, n.proxies[p].seg);
  }

  /** The client of such a worker gets a file with a hole: what went out of the short chunk is followed
      by the next chunks. */
  lemma LeavesAHole(cfg: Config, s: State, p: nat, r: int, more: seq<Action>) returns (k: nat)
    requires FallsShort(cfg, s, p, r) && !Stops(r, s.proxies[p].transferred)
    requires InRange(cfg, s) && IsRun(cfg, AfterSend(cfg, s, p, r), more)
    ensures var e := After(cfg, AfterSend(cfg, s, p, r), more); var w := s.proxies[p]; var body := cfg.Body(w.path);
            && p < |e.proxies| && w.transferred + s.segs[w.seg].readLen <= k <= |body|
            && e.proxies[p].sent == body[..w.transferred + Out(r)] + body[w.transferred + s.segs[w.seg].readLen..k]
  {
    var w := s.proxies[p];
    var from := w.transferred + s.segs[w.seg].readLen;
    AfterShortSend(cfg, s, p, r);
    LoopSent(cfg, s, p);
    var n := FailureStarts(cfg, s, p, r);
    n := FollowRun(cfg, s, AfterSend(cfg, s, p, r), n, p, r, more);
    LoopSent(cfg, n, p);
    k := n.proxies[p].transferred;
    assert cfg.Body(w.path)[..k][from..] == cfg.Body(w.path)[from..k];
  }

  /** If the result is not one that ends the loop, the worker never gets out of it, however the
      run goes on: the segment is not queued again and the request is not answered. */
  lemma LostForGood(cfg: Config, s: State, p: nat, r: int, more: seq<Action>)
    requires FallsShort(cfg, s, p, r) && !Stops(r, s.proxies[p].transferred)
    requires InRange(cfg, s) && IsRun(cfg, AfterSend(cfg, s, p, r), more)
    ensures var e := After(cfg, AfterSend(cfg, s, p, r), more); var w := s.proxies[p];
            && p < |e.proxies| && Sending(e.proxies[p].pc) && e.proxies[p].seg == w.seg && w.seg !in e.pool
            && w.id < |e.progress| && e.progress[w.id] == Serving(p)
  {
    var n := FailureStarts(cfg, s, p, r);
    n := FollowRun(cfg, s, AfterSend(cfg, s, p, r), n, p, r, more);
    ShadowAlone(cfg, n, p, s.proxies[p].seg);
    LoopFacts(cfg, n, p);
  }

  /** If it is one that ends the loop, the client is left with what it had before, and the segment
      is free of cache workers if the failing chunk was the last one of the file. */
  lemma CutShort(cfg: Config, s: State, p: nat, r: int, more: seq<Action>)
    requires FallsShort(cfg, s, p, r) && Stops(r, s.proxies[p].transferred)
    requires InRange(cfg, s) && ComesBack(cfg, AfterSend(cfg, s, p, r), more, p, s.proxies[p].id)
    ensures var e := After(cfg, AfterSend(cfg, s, p, r), more); var w := s.proxies[p];
            && w.transferred < |cfg.Body(w.path)| && e.proxies[p].sent == cfg.Body(w.path)[..w.transferred]
            && (LastChunk(cfg, s, p) ==> Servers(e, w.seg) == {})
            && (r == 0 && !LastChunk(cfg, s, p) ==> Servers(e, w.seg) != {})
  {
    var w, g := s.proxies[p], s.proxies[p].seg;
    ChunkFacts(cfg, s, p);
    var n := FailureStarts(cfg, s, p, r);
    var d := AfterSend(cfg, s, p, r);
    hide Inv, InRange, AfterSend, IsRun, After;
    n := FollowRun(cfg, s, d, n, p, r, more);
    var e := After(cfg, d, more);
    assert Follows(cfg, s, e, n, p, r);
    ServersAre(cfg, n, g);
    assert Servers(e, g) == Servers(n, g);
  }

  predicate OnTheWayOut(d: State, p: nat) {
    && p < |d.proxies| && d.proxies[p].seg < |d.segs|
    && (var w := d.proxies[p];
        || Closing(w.pc)
        || ((w.pc == PostSpace || w.pc == LoopTest) && d.segs[w.seg].filesize <= w.transferred))
  }

  function StepsToRequeue(pc: ProxyPc): nat {
    match pc case PostSpace => 4 case LoopTest => 3 case ClearLen => 2 case ClearSize => 1 case _ => 0
  }

  lemma OneStepOut(cfg: Config, d: State, p: nat)
    requires InRange(cfg, d) && OnTheWayOut(d, p) && d.proxies[p].pc != Requeue
    ensures ProxyEnabled(cfg, d, p)
    ensures var d' := ProxyNext(cfg, d, p);
            && InRange(cfg, d') && OnTheWayOut(d', p) && d'.caches == d.caches && d'.proxies[p].id == d.proxies[p].id
            && StepsToRequeue(d'.proxies[p].pc) < StepsToRequeue(d.proxies[p].pc)
  {
    ProxyNextInRange(cfg, d, p);
    hide InRange;
    InsideStepIs(cfg, d, p);
  }

  /** The worker queues the segment by its own steps alone if nobody comes between. */
  lemma {:induction false} WayOut(cfg: Config, d: State, p: nat) returns (more: seq<Action>)
    requires InRange(cfg, d) && OnTheWayOut(d, p)
    ensures ComesBack(cfg, d, more, p, d.proxies[p].id) && After(cfg, d, more).caches == d.caches
    decreases StepsToRequeue(d.proxies[p].pc)
  {
    more := [];
    if d.proxies[p].pc == Requeue {
    } else {
      OneStepOut(cfg, d, p);
      hide InRange, OnTheWayOut, ProxyNext, ProxyEnabled;
      var rest := WayOut(cfg, ProxyNext(cfg, d, p), p);
      more := [Run(p)] + rest;
      assert more[1..] == rest;
    }
  }

  lemma StoppingLeaves(cfg: Config, s: State, p: nat, r: int)
    requires FallsShort(cfg, s, p, r) && Stops(r, s.proxies[p].transferred)
    ensures InRange(cfg, s)
    ensures var d := AfterSend(cfg, s, p, r);
            InRange(cfg, d) && OnTheWayOut(d, p) && d.caches == s.caches && d.proxies[p].id == s.proxies[p].id
  {
    InvInRange(cfg, s);
    LoopFacts(cfg, s, p);
    ChunkFacts(cfg, s, p);
    hide Inv;
    SentFacts(s.proxies[p], s.segs[s.proxies[p].seg], |cfg.Body(s.proxies[p].path)|, r);
  }

  /** After a send that falls short the segment can come back to the pool exactly if the result is 0,
      or -1 before anything was counted. */
  lemma ComesBackExactlyWhen(cfg: Config, s: State, p: nat, r: int)
    requires FallsShort(cfg, s, p, r)
    ensures InRange(cfg, s)
    ensures (exists more :: ComesBack(cfg, AfterSend(cfg, s, p, r), more, p, s.proxies[p].id))
            <==> Stops(r, s.proxies[p].transferred)
  {
    InvInRange(cfg, s);
    var d, id := AfterSend(cfg, s, p, r), s.proxies[p].id;
    if Stops(r, s.proxies[p].transferred) {
      StoppingLeaves(cfg, s, p, r);
      var more := WayOut(cfg, d, p);
      assert ComesBack(cfg, d, more, p, id);
    } else {
      hide Inv, InRange, AfterSend;
      forall more | IsRun(cfg, d, more) ensures !ComesBack(cfg, d, more, p, id) {
        LostForGood(cfg, s, p, r, more);
      }
    }
  }

  /** In some continuation it comes back while a cache worker still serves it, exactly if moreover
      the chunk was not the last one.  That worker is not told, and goes on to use a segment that
      the next request gets. */
  lemma ComesBackServedExactlyWhen(cfg: Config, s: State, p: nat, r: int)
    requires FallsShort(cfg, s, p, r)
    ensures InRange(cfg, s)
    ensures var d, w := AfterSend(cfg, s, p, r), s.proxies[p];
            (exists more :: ComesBack(cfg, d, more, p, w.id) && Servers(After(cfg, d, more), w.seg) != {})
            <==> Stops(r, w.transferred) && !LastChunk(cfg, s, p)
  {
    InvInRange(cfg, s);
    var d, w := AfterSend(cfg, s, p, r), s.proxies[p];
    if Stops(r, w.transferred) && !LastChunk(cfg, s, p) {
      StoppingLeaves(cfg, s, p, r);
      ChunkFacts(cfg, s, p);
      ServersAre(cfg, s, w.seg);
      var more := WayOut(cfg, d, p);
      assert Servers(After(cfg, d, more), w.seg) == Servers(s, w.seg);
    } else {
      hide Inv, InRange, AfterSend;
      forall more | ComesBack(cfg, d, more, p, w.id) ensures Servers(After(cfg, d, more), w.seg) == {} {
        if Stops(r, w.transferred) {
          CutShort(cfg, s, p, r, more);
        } else {
          LostForGood(cfg, s, p, r, more);
        }
      }
    }
  }

  // ---------------------------------------------------------------- a run that gets there

  /** One worker of each kind, one segment of two bytes, and one request for a file of three. */
  const EXAMPLE := Config(map["/f" := [1, 2, 3]], 2, ["/f"])

  const FRESH_SEGMENT := Seg(0, 0, 0, 0, 0, 0, [0, 0], None, Nobody, false)

  function Start(): State {
    State([FRESH_SEGMENT], [0], [], [Proxy(Idle, 0, "", 0, false, 0, None, [])], [Cache(Receive, "", 0, 0, 0, 0, [])],
          0, [Waiting])
  }

  /** The request has been handed out and the segment taken. */
  function Busy(w: Proxy, c: Cache, g: Seg, mq: seq<Msg>): State {
    State([g], [], mq, [w], [c], 1, [Serving(0)])
  }

  lemma Extend(s0: State, acts: seq<Action>, s: State, a: Action) returns (longer: seq<Action>)
    requires Reached(EXAMPLE, s0, acts, s)
    requires InRange(EXAMPLE, s) && Enabled(EXAMPLE, s, a)
    ensures Reached(EXAMPLE, s0, longer, Next(EXAMPLE, s, a))
  {
    hide Init, InRange, Enabled, Next;
    RunExtends(EXAMPLE, s0, acts, a);
    longer := acts + [a];
  }

  lemma ProxyTurn(s0: State, acts: seq<Action>, w: Proxy, c: Cache, g: Seg) returns (longer: seq<Action>)
    requires Reached(EXAMPLE, s0, acts, Busy(w, c, g, []))
    requires w.seg == 0 && w.id == 0 && c.seg == 0 && ActsInside(w.pc) && CanStep(w, g)
    ensures Reached(EXAMPLE, s0, longer, Busy(ProxyLocal(w, g).0, c, ProxyLocal(w, g).1, []))
  {
    hide ProxyLocal, Reached;
    var s := Busy(w, c, g, []);
    longer := Extend(s0, acts, s, Run(0));
    assert Next(EXAMPLE, s, Run(0)).segs == [ProxyLocal(w, g).1];
    assert Next(EXAMPLE, s, Run(0)).proxies == [ProxyLocal(w, g).0];
  }

  lemma CacheTurn(s0: State, acts: seq<Action>, w: Proxy, c: Cache, g: Seg, k: nat) returns (longer: seq<Action>)
    requires Reached(EXAMPLE, s0, acts, Busy(w, c, g, []))
    requires w.seg == 0 && w.id == 0 && c.seg == 0 && c.pc != Receive && CanCopy(EXAMPLE, c, g, k)
    ensures var (c', g') := CacheLocal(EXAMPLE, 0, c, g, k);
            Reached(EXAMPLE, s0, longer, Busy(w, c', g', []))
  {
    hide CacheLocal, Reached;
    var s := Busy(w, c, g, []);
    longer := Extend(s0, acts, s, Serve(0, k));
    assert Next(EXAMPLE, s, Serve(0, k)).segs == [CacheLocal(EXAMPLE, 0, c, g, k).1];
    assert Next(EXAMPLE, s, Serve(0, k)).caches == [CacheLocal(EXAMPLE, 0, c, g, k).0];
  }

  function Handed(pc: ProxyPc): Proxy { Proxy(pc, 0, "/f", 0, false, 0, None, []) }

  lemma RequestIsHanded() returns (acts: seq<Action>)
    ensures Reached(EXAMPLE, Start(), acts, Start().(proxies := [Handed(Acquire)], issued := 1, progress := [Serving(0)]))
  {
    var s := Start();
    acts := [];
    assert Reached(EXAMPLE, s, acts, s);
    hide Reached;
    acts := Extend(s, acts, s, Run(0));
    assert Next(EXAMPLE, s, Run(0)).proxies == [Handed(Acquire)];
    assert Next(EXAMPLE, s, Run(0)).progress == [Serving(0)];
  }

  lemma SegmentIsTaken() returns (acts: seq<Action>)
    ensures Reached(EXAMPLE, Start(), acts, Busy(Handed(InitLen), Start().caches[0], FRESH_SEGMENT.(owner := Some(0)), []))
  {
    hide Reached;
    acts := RequestIsHanded();
    var s := Start().(proxies := [Handed(Acquire)], issued := 1, progress := [Serving(0)]);
    acts := Extend(Start(), acts, s, Run(0));
    var popped := Next(EXAMPLE, s, Run(0));
    assert popped == Busy(Handed(AnnouncePop), Start().caches[0], FRESH_SEGMENT.(owner := Some(0)), []);
    acts := Extend(Start(), acts, popped, Run(0));
    assert Next(EXAMPLE, popped, Run(0)).proxies == [Handed(InitLen)];
  }

  function Served(pc: CachePc, nread: nat): Cache { Cache(pc, "/f", 0, 3, nread, 2, [1, 2]) }

  lemma MessageIsReceived() returns (acts: seq<Action>)
    ensures Reached(EXAMPLE, Start(), acts, Busy(Handed(WaitLen), Cache(StoreSize, "/f", 0, 0, 0, 0, []),
                                              Seg(0, 0, 1, 0, 0, 0, [0, 0], Some(0), Worker(0), true), []))
  {
    hide Reached;
    var c := Start().caches[0];
    var g := FRESH_SEGMENT.(owner := Some(0));
    acts := SegmentIsTaken();
    acts := ProxyTurn(Start(), acts, Handed(InitLen), c, g);
    acts := ProxyTurn(Start(), acts, Handed(InitProxy), c, g);
    acts := ProxyTurn(Start(), acts, Handed(InitCache), c, g);
    var s := Busy(Handed(SendMsg), c, g.(cacheSem := 1, used := true), []);
    acts := Extend(Start(), acts, s, Run(0));
    var sent := Next(EXAMPLE, s, Run(0));
    assert sent.proxies == [Handed(WaitLen)] && sent.mq == [Msg(0, "/f")];
    acts := Extend(Start(), acts, sent, Serve(0, 0));
    assert Next(EXAMPLE, sent, Serve(0, 0)).caches == [Cache(StoreSize, "/f", 0, 0, 0, 0, [])];
    assert Next(EXAMPLE, sent, Serve(0, 0)).segs == [Seg(0, 0, 1, 0, 0, 0, [0, 0], Some(0), Worker(0), true)];
  }

  lemma StatusIsPosted() returns (acts: seq<Action>)
    ensures Reached(EXAMPLE, Start(), acts, Busy(Handed(WaitLen), Cache(WaitSpace, "/f", 0, 3, 0, 0, []),
                                              Seg(1, 0, 1, 3, 200, 0, [0, 0], Some(0), Worker(0), true), []))
  {
    hide Reached;
    var c := Cache(StoreSize, "/f", 0, 0, 0, 0, []);
    var g := Seg(0, 0, 1, 0, 0, 0, [0, 0], Some(0), Worker(0), true);
    acts := MessageIsReceived();
    acts := CacheTurn(Start(), acts, Handed(WaitLen), c, g, 0);
    c, g := c.(pc := StoreStatus, filsize := 3), g.(filesize := 3);
    acts := CacheTurn(Start(), acts, Handed(WaitLen), c, g, 0);
    c, g := c.(pc := PostLen), g.(status := 200);
    acts := CacheTurn(Start(), acts, Handed(WaitLen), c, g, 0);
    acts := CacheTurn(Start(), acts, Handed(WaitLen), c.(pc := ReadTest), g.(filelenSem := 1), 0);
  }

  lemma ChunkIsStored() returns (acts: seq<Action>)
    ensures Reached(EXAMPLE, Start(), acts, Busy(Handed(WaitLen), Served(ReadTest, 2),
                                              Seg(1, 1, 0, 3, 200, 2, [1, 2], Some(0), Worker(0), true), []))
  {
    hide Reached;
    var c := Cache(WaitSpace, "/f", 0, 3, 0, 0, []);
    var g := Seg(1, 0, 1, 3, 200, 0, [0, 0], Some(0), Worker(0), true);
    acts := StatusIsPosted();
    acts := CacheTurn(Start(), acts, Handed(WaitLen), c, g, 2);
    g := g.(cacheSem := 0);
    assert EXAMPLE.Body("/f")[0..2] == [1, 2];
    acts := CacheTurn(Start(), acts, Handed(WaitLen), c.(pc := ReadFile), g, 2);
    acts := CacheTurn(Start(), acts, Handed(WaitLen), Served(StoreLen, 0), g, 2);
    g := g.(readLen := 2);
    assert Overwrite([0, 0], [1, 2], 2) == [1, 2];
    acts := CacheTurn(Start(), acts, Handed(WaitLen), Served(StoreData, 0), g, 2);
    g := g.(data := [1, 2]);
    acts := CacheTurn(Start(), acts, Handed(WaitLen), Served(PostChunk, 2), g, 2);
  }

  /** A reachable state in which the first of two chunks is about to be sent. */
  lemma ChunkIsDue() returns (acts: seq<Action>, s: State)
    ensures Reached(EXAMPLE, Start(), acts, s) && |s.proxies| == 1 && |s.segs| == 1
    ensures s.proxies[0].pc == SendChunk && s.proxies[0].transferred == 0 && s.proxies[0].path == "/f"
    ensures s.proxies[0].seg == 0 && s.segs[0].readLen == 2 && |EXAMPLE.Body("/f")| == 3
  {
    hide Reached;
    var c := Served(ReadTest, 2);
    var g := Seg(1, 1, 0, 3, 200, 2, [1, 2], Some(0), Worker(0), true);
    acts := ChunkIsStored();
    acts := ProxyTurn(Start(), acts, Handed(WaitLen), c, g);
    g := g.(filelenSem := 0);
    acts := ProxyTurn(Start(), acts, Handed(ReadStatus), c, g);
    var w := Handed(LoopTest).(found := true, header := Some(Header(true, 3)));
    acts := ProxyTurn(Start(), acts, w, c, g);
    acts := ProxyTurn(Start(), acts, w.(pc := WaitChunk), c, g);
    s := Busy(w.(pc := SendChunk), c, g.(proxySem := 0), []);
  }

  /** Both failures can happen: from this state results of 0 and -1 let the segment come back while
      it is being served, and a result of 1 loses it for good. */
  lemma FailuresHappen() returns (acts: seq<Action>, s: State)
    ensures Reached(EXAMPLE, Start(), acts, s) && InRange(EXAMPLE, s) && |s.proxies| == 1
    ensures s.proxies[0].pc == SendChunk
    ensures forall r :: r == 0 || r == -1 ==>
              exists more :: ComesBack(EXAMPLE, AfterSend(EXAMPLE, s, 0, r), more, 0, s.proxies[0].id)
                             && Servers(After(EXAMPLE, AfterSend(EXAMPLE, s, 0, r), more), s.proxies[0].seg) != {}
    ensures !exists more :: ComesBack(EXAMPLE, AfterSend(EXAMPLE, s, 0, 1), more, 0, s.proxies[0].id)
  {
    acts, s := ChunkIsDue();
    ReachedInv(EXAMPLE, Start(), acts, s);
    InvInRange(EXAMPLE, s);
    hide Inv, InRange, Reached, AfterSend, ComesBack;
    assert forall r :: -1 <= r <= 1 ==> FallsShort(EXAMPLE, s, 0, r);
    ComesBackServedExactlyWhen(EXAMPLE, s, 0, 0);
    ComesBackServedExactlyWhen(EXAMPLE, s, 0, -1);
    ComesBackExactlyWhen(EXAMPLE, s, 0, 1);
  }
}
