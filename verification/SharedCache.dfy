/** The shared-memory cache protocol as a system of atomic steps.

    Any number of proxy workers (handle_with_cache.c) and cache workers (simplecached.c) share
    a pool of segments and a bounded message queue.  A step is one semaphore operation, one
    mutex region, one message-queue operation, one store to the segment, or one local action.
    Every interleaving of these steps is a run. */
module SharedCache {
  import opened Basics

  type Path = string

  /** Capacity of the message queue, `attr.mq_maxmsg`. */
  const MAX_MESSAGES := 10
  const STATUS_OK := 200
  const STATUS_NOT_FOUND := 404
  /** What storing -1 in the unsigned field `filesize` leaves there. */
  const SIZE_MAX: nat := 0xFFFF_FFFF_FFFF_FFFF

  /** What does not change during a run: the indexed files, the segment size, and the requests
      in the order in which the web server hands them to idle proxy workers. */
  datatype Config = Config(files: map<Path, seq<byte>>, segsize: nat, requests: seq<Path>) {
    predicate Found(path: Path) { path in files }

    /** The bytes a client asking for `path` must receive. */
    function Body(path: Path): seq<byte> {
      if path in files then files[path] else []
    }

    function StatusOf(path: Path): int {
      if path in files then STATUS_OK else STATUS_NOT_FOUND
    }

    function SizeOf(path: Path): nat {
      if path in files then |files[path]| else SIZE_MAX
    }

    /** The reply the design promises for `path`. */
    function Expected(path: Path): Reply {
      if path in files then Reply(Header(true, |files[path]|), files[path])
      else Reply(Header(false, 0), [])
    }
  }

  datatype Header = Header(ok: bool, length: nat)
  datatype Reply = Reply(header: Header, bytes: seq<byte>)

  /** Who still has work to do on the cache side of a segment (an auxiliary variable). */
  datatype Server = Nobody | Queued | Worker(c: nat)

  /** A segment, `shm_details`.  The last three fields are auxiliary: no step tests them. */
  datatype Seg = Seg(
    filelenSem: nat, proxySem: nat, cacheSem: nat,
    filesize: nat, status: int, readLen: nat, data: seq<byte>,
    owner: Option<nat>, server: Server, used: bool)

  datatype Msg = Msg(seg: nat, path: Path)

  datatype ProxyPc =
    | Idle | Acquire | Asleep | AnnouncePop
    | InitLen | InitProxy | InitCache | SendMsg
    | WaitLen | ReadStatus | LoopTest | WaitChunk | SendChunk | PostSpace
    | ClearLen | ClearSize | Requeue | AnnounceFree

  /** A proxy worker: program counter and locals; `header` and `sent` are what its client has
      received so far, `id` is the number of the request it is serving. */
  datatype Proxy = Proxy(
    pc: ProxyPc, id: nat, path: Path, seg: nat,
    found: bool, transferred: nat, header: Option<Header>, sent: seq<byte>)

  datatype CachePc =
    | Receive | StoreSize | StoreStatus | PostLen
    | ReadTest | WaitSpace | ReadFile | StoreLen | StoreData | PostChunk

  /** A cache worker; `nread` is both `bytes_read` and `offset`, which move together. */
  datatype Cache = Cache(
    pc: CachePc, path: Path, seg: nat, filsize: nat, nread: nat, nbytes: nat, buf: seq<byte>)

  /** Where request number `id` stands (auxiliary, except that `Replied` records the result). */
  datatype Progress = Waiting | Serving(p: nat) | Replied(reply: Reply)

  datatype State = State(
    segs: seq<Seg>, pool: seq<nat>, mq: seq<Msg>,
    proxies: seq<Proxy>, caches: seq<Cache>,
    issued: nat, progress: seq<Progress>)

  /** `Run(p)` lets proxy worker p take its next step, `Serve(c, k)` cache worker c (with k the
      number of bytes `pread` returns, should that be the step), and `Spurious(p)` is a return
      from `pthread_cond_wait` that nobody caused. */
  datatype Action = Run(p: nat) | Serve(c: nat, k: nat) | Spurious(p: nat)

  // ---------------------------------------------------------------- proxy side

  /** pthread_cond_broadcast: every sleeper goes back to competing for the mutex. */
  function WakeAll(ps: seq<Proxy>): (r: seq<Proxy>)
    ensures |r| == |ps|
    ensures forall i :: 0 <= i < |ps| ==>
      r[i] == if ps[i].pc == Asleep then ps[i].(pc := Acquire) else ps[i]
  {
    seq(|ps|, i requires 0 <= i < |ps| => if ps[i].pc == Asleep then ps[i].(pc := Acquire) else ps[i])
  }

  function Take(data: seq<byte>, n: nat): seq<byte> {
    if n <= |data| then data[..n] else data
  }

  predicate Holding(pc: ProxyPc) {
    pc != Idle && pc != Acquire && pc != Asleep && pc != AnnounceFree
  }

  /** Everything a thread dereferences exists. */
  predicate InRange(cfg: Config, s: State) {
    && |s.progress| == |cfg.requests|
    && s.issued <= |cfg.requests|
    && (forall i :: 0 <= i < |s.pool| ==> s.pool[i] < |s.segs|)
    && (forall i :: 0 <= i < |s.mq| ==> s.mq[i].seg < |s.segs|)
    && (forall p :: 0 <= p < |s.proxies| && Holding(s.proxies[p].pc) ==> s.proxies[p].seg < |s.segs|)
    && (forall p :: 0 <= p < |s.proxies| && s.proxies[p].pc != Idle ==> s.proxies[p].id < |s.progress|)
    && (forall c :: 0 <= c < |s.caches| && s.caches[c].pc != Receive ==> s.caches[c].seg < |s.segs|)
  }

  predicate ProxyEnabled(cfg: Config, s: State, p: nat)
    requires InRange(cfg, s) && p < |s.proxies|
  {
    var w := s.proxies[p];
    match w.pc
    case Idle => s.issued < |cfg.requests|
    case Asleep => false
    case SendMsg => |s.mq| < MAX_MESSAGES
    case WaitLen => s.segs[w.seg].filelenSem > 0
    case WaitChunk => s.segs[w.seg].proxySem > 0
    case _ => true
  }

  function PutProxy(s: State, p: nat, w: Proxy): State
    requires p < |s.proxies|
  {
    s.(proxies := s.proxies[p := w])
  }

  function PutBoth(s: State, p: nat, w: Proxy, g: nat, seg: Seg): State
    requires p < |s.proxies| && g < |s.segs|
  {
    s.(proxies := s.proxies[p := w], segs := s.segs[g := seg])
  }

  /** The new values of the proxy worker and its segment for the steps that touch nothing else. */
  function ProxyLocal(w: Proxy, g: Seg): (Proxy, Seg)
  {
    match w.pc
    case InitLen => (w.(pc := InitProxy), g.(filelenSem := 0))
    case InitProxy => (w.(pc := InitCache), g.(proxySem := 0))
    case InitCache => (w.(pc := SendMsg), g.(cacheSem := 1, used := true))
    case WaitLen => (w.(pc := ReadStatus), g.(filelenSem := if g.filelenSem > 0 then g.filelenSem - 1 else 0))
    case LoopTest => (w.(pc := if w.transferred < g.filesize then WaitChunk else ClearLen), g)
    case WaitChunk => (w.(pc := SendChunk), g.(proxySem := if g.proxySem > 0 then g.proxySem - 1 else 0))
    case SendChunk =>
      var chunk := Take(g.data, g.readLen);
      // gfs_send writes the whole chunk (SharedCacheFailures has the other results); 0 leaves the loop
      if |chunk| == 0 then (w.(pc := ClearLen), g)
      else (w.(pc := PostSpace, transferred := w.transferred + |chunk|, sent := w.sent + chunk), g)
    case PostSpace => (w.(pc := LoopTest), g.(cacheSem := g.cacheSem + 1))
    case ClearLen => (w.(pc := ClearSize), g.(readLen := 0))
    case ClearSize => (w.(pc := Requeue), g.(filesize := 0))
    case ReadStatus =>
      if g.status == STATUS_OK
      then (w.(pc := LoopTest, found := true, header := Some(Header(true, g.filesize)), transferred := 0), g)
      else (w.(pc := ClearLen, found := false), g)
    case _ => (w, g)
  }

  predicate IsLocal(w: Proxy, g: Seg) {
    match w.pc
    case InitLen | InitProxy | InitCache | WaitLen | LoopTest | WaitChunk | SendChunk | PostSpace | ClearLen | ClearSize => true
    case ReadStatus => g.status == STATUS_OK || g.status == STATUS_NOT_FOUND
    case _ => false
  }

  function ProxyNext(cfg: Config, s: State, p: nat): State
    requires InRange(cfg, s) && p < |s.proxies| && ProxyEnabled(cfg, s, p)
  {
    var w := s.proxies[p];
    match w.pc
    case Idle =>
      PutProxy(s, p, Proxy(Acquire, s.issued, cfg.requests[s.issued], 0, false, 0, None, []))
        .(issued := s.issued + 1, progress := s.progress[s.issued := Serving(p)])
    case Acquire =>
      if s.pool == [] then PutProxy(s, p, w.(pc := Asleep))
      else
        var g := s.pool[0];
        PutBoth(s, p, w.(pc := AnnouncePop, seg := g), g, s.segs[g].(owner := Some(p))).(pool := s.pool[1..])
    case Asleep => s
    case AnnouncePop => s.(proxies := WakeAll(s.proxies[p := w.(pc := InitLen)]))
    case SendMsg =>
      PutBoth(s, p, w.(pc := WaitLen), w.seg, s.segs[w.seg].(server := Queued)).(mq := s.mq + [Msg(w.seg, w.path)])
    case Requeue =>
      PutBoth(s, p, w.(pc := AnnounceFree), w.seg, s.segs[w.seg].(owner := None)).(pool := s.pool + [w.seg])
    case AnnounceFree =>
      var reply := Reply(if w.found && w.header.Some? then w.header.value else Header(false, 0), w.sent);
      s.(proxies := WakeAll(s.proxies[p := w.(pc := Idle)]), progress := s.progress[w.id := Replied(reply)])
    case _ =>
      var g := s.segs[w.seg];
      if IsLocal(w, g) then
        var (w', g') := ProxyLocal(w, g);
        PutBoth(s, p, w', w.seg, g')
      else
        // neither 200 nor 404: processResponse returns without queueing the segment again
        PutProxy(s, p, w.(pc := Idle)).(progress := s.progress[w.id := Replied(Reply(Header(false, 0), []))])
  }

  // ---------------------------------------------------------------- cache side

  /** The worker will still touch its segment.  After its last post it only runs on locals. */
  predicate Attached(w: Cache) {
    && w.pc != Receive
    && (w.pc == ReadTest ==> w.nread < w.filsize)
  }

  predicate CacheEnabled(cfg: Config, s: State, c: nat, k: nat)
    requires InRange(cfg, s) && c < |s.caches|
  {
    var w := s.caches[c];
    match w.pc
    case Receive => s.mq != []
    case WaitSpace => s.segs[w.seg].cacheSem > 0
    case ReadFile => 1 <= k <= cfg.segsize && w.nread + k <= |cfg.Body(w.path)|
    case _ => true
  }

  /** `memcpy` of the first n bytes of the local buffer over the segment's data. */
  function Overwrite(data: seq<byte>, buf: seq<byte>, n: nat): (r: seq<byte>)
    ensures |r| == |data|
    ensures n <= |buf| && n <= |data| ==> forall i :: 0 <= i < |r| ==> r[i] == if i < n then buf[i] else data[i]
  {
    if n <= |buf| && n <= |data| then buf[..n] + data[n..] else data
  }

  /** The new values of the cache worker and its segment for the steps that touch nothing else. */
  function CacheLocal(cfg: Config, c: nat, w: Cache, g: Seg, k: nat): (Cache, Seg)
    requires w.pc == ReadFile ==> w.nread + k <= |cfg.Body(w.path)|
  {
    match w.pc
    case StoreSize =>
      (w.(pc := StoreStatus, filsize := |cfg.Body(w.path)|, nread := 0), g.(filesize := cfg.SizeOf(w.path)))
    case StoreStatus => (w.(pc := PostLen), g.(status := cfg.StatusOf(w.path)))
    case PostLen =>
      var w' := if cfg.Found(w.path) then w.(pc := ReadTest) else w.(pc := Receive);
      (w', g.(filelenSem := g.filelenSem + 1, server := if Attached(w') then Worker(c) else Nobody))
    case ReadTest => (w.(pc := if w.nread < w.filsize then WaitSpace else Receive), g)
    case WaitSpace => (w.(pc := ReadFile), g.(cacheSem := if g.cacheSem > 0 then g.cacheSem - 1 else 0))
    case ReadFile =>
      (w.(pc := StoreLen, nbytes := k, buf := cfg.Body(w.path)[w.nread..w.nread + k]), g)
    case StoreLen => (w.(pc := StoreData), g.(readLen := w.nbytes))
    case StoreData =>
      (w.(pc := PostChunk, nread := w.nread + w.nbytes), g.(data := Overwrite(g.data, w.buf, w.nbytes)))
    case PostChunk =>
      var w' := w.(pc := ReadTest);
      (w', g.(proxySem := g.proxySem + 1, server := if Attached(w') then Worker(c) else Nobody))
    case Receive => (w, g)
  }

  function CacheNext(cfg: Config, s: State, c: nat, k: nat): State
    requires InRange(cfg, s) && c < |s.caches| && CacheEnabled(cfg, s, c, k)
  {
    var w := s.caches[c];
    if w.pc == Receive then
      var m := s.mq[0];
      s.(mq := s.mq[1..],
         caches := s.caches[c := Cache(StoreSize, m.path, m.seg, 0, 0, 0, [])],
         segs := s.segs[m.seg := s.segs[m.seg].(server := Worker(c))])
    else
      var (w', g') := CacheLocal(cfg, c, w, s.segs[w.seg], k);
      s.(caches := s.caches[c := w'], segs := s.segs[w.seg := g'])
  }

  // ---------------------------------------------------------------- the system

  predicate Enabled(cfg: Config, s: State, a: Action)
    requires InRange(cfg, s)
  {
    match a
    case Run(p) => p < |s.proxies| && ProxyEnabled(cfg, s, p)
    case Serve(c, k) => c < |s.caches| && CacheEnabled(cfg, s, c, k)
    case Spurious(p) => p < |s.proxies| && s.proxies[p].pc == Asleep
  }

  function Next(cfg: Config, s: State, a: Action): State
    requires InRange(cfg, s) && Enabled(cfg, s, a)
  {
    match a
    case Run(p) => ProxyNext(cfg, s, p)
    case Serve(c, k) => CacheNext(cfg, s, c, k)
    case Spurious(p) => PutProxy(s, p, s.proxies[p].(pc := Acquire))
  }

  predicate ActsInside(pc: ProxyPc) {
    Holding(pc) && pc != AnnouncePop && pc != SendMsg && pc != Requeue
  }

  lemma ProxyLocalKeepsNames(w: Proxy, g: Seg)
    ensures ProxyLocal(w, g).0.seg == w.seg && ProxyLocal(w, g).0.id == w.id
  {
  }

  lemma InsideInRange(cfg: Config, s: State, p: nat)
    requires InRange(cfg, s) && p < |s.proxies| && ProxyEnabled(cfg, s, p) && ActsInside(s.proxies[p].pc)
    ensures InRange(cfg, ProxyNext(cfg, s, p))
  {
    hide ProxyLocal, IsLocal;
    ProxyLocalKeepsNames(s.proxies[p], s.segs[s.proxies[p].seg]);
  }

  lemma OutsideInRange(cfg: Config, s: State, p: nat)
    requires InRange(cfg, s) && p < |s.proxies| && ProxyEnabled(cfg, s, p) && !ActsInside(s.proxies[p].pc)
    ensures InRange(cfg, ProxyNext(cfg, s, p))
  {
    hide ProxyLocal, IsLocal;
  }

  lemma ProxyNextInRange(cfg: Config, s: State, p: nat)
    requires InRange(cfg, s) && p < |s.proxies| && ProxyEnabled(cfg, s, p)
    ensures InRange(cfg, ProxyNext(cfg, s, p))
    ensures |ProxyNext(cfg, s, p).segs| == |s.segs| && |ProxyNext(cfg, s, p).proxies| == |s.proxies|
    ensures ProxyNext(cfg, s, p).caches == s.caches
  {
    if ActsInside(s.proxies[p].pc) { InsideInRange(cfg, s, p); } else { OutsideInRange(cfg, s, p); }
  }

  lemma CacheNextInRange(cfg: Config, s: State, c: nat, k: nat)
    requires InRange(cfg, s) && c < |s.caches| && CacheEnabled(cfg, s, c, k)
    ensures InRange(cfg, CacheNext(cfg, s, c, k))
    ensures |CacheNext(cfg, s, c, k).segs| == |s.segs| && |CacheNext(cfg, s, c, k).caches| == |s.caches|
    ensures CacheNext(cfg, s, c, k).proxies == s.proxies
  {
  }

  lemma NextInRange(cfg: Config, s: State, a: Action)
    requires InRange(cfg, s) && Enabled(cfg, s, a)
    ensures InRange(cfg, Next(cfg, s, a))
    ensures |Next(cfg, s, a).segs| == |s.segs| && |Next(cfg, s, a).proxies| == |s.proxies|
    ensures |Next(cfg, s, a).caches| == |s.caches|
  {
    match a
    case Run(p) => ProxyNextInRange(cfg, s, p);
    case Serve(c, k) => CacheNextInRange(cfg, s, c, k);
    case Spurious(p) =>
  }

  /** initSharedMemory has queued every segment; the semaphores are not initialised yet, so
      they may hold anything; all workers are idle and no request has been handed out. */
  ghost predicate Init(cfg: Config, s: State) {
    && s.issued == 0 && |s.progress| == |cfg.requests| && s.mq == []
    && (forall i :: 0 <= i < |s.progress| ==> s.progress[i] == Waiting)
    && |s.pool| == |s.segs| && (forall g :: 0 <= g < |s.pool| ==> s.pool[g] == g)
    && (forall g :: 0 <= g < |s.segs| ==>
          && s.segs[g].owner == None && s.segs[g].server == Nobody && !s.segs[g].used
          && s.segs[g].filesize == 0 && s.segs[g].status == 0 && s.segs[g].readLen == 0
          && |s.segs[g].data| == cfg.segsize)
    && (forall p :: 0 <= p < |s.proxies| ==> s.proxies[p].pc == Idle)
    && (forall c :: 0 <= c < |s.caches| ==> s.caches[c].pc == Receive)
  }
}
