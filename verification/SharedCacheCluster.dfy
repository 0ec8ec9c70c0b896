/** The proxy and the cache as imperative code over shared objects.  Each method is one atomic
    step of one worker, updating segments, queues and locals in place; its contract ties the new
    state to the step function of SharedCache, about which everything else is proved.  The
    auxiliary fields are ghost here: no step tests them. */
module SharedCacheCluster {
  import opened Basics
  import opened SharedCache
  import Invariant = SharedCacheInvariant
  import Steps = SharedCacheSteps
  import Theorems = SharedCacheTheorems

  /** `shm_details` */
  class Segment {
    var filelenSem: nat
    var proxySem: nat
    var cacheSem: nat
    var filesize: nat
    var status: int
    var readLen: nat
    var data: seq<byte>
    ghost var owner: Option<nat>
    ghost var server: Server
    ghost var used: bool

    ghost function Value(): Seg
      reads this
    {
      Seg(filelenSem, proxySem, cacheSem, filesize, status, readLen, data, owner, server, used)
    }

    /** The part of initSharedMemory that fills one segment; its semaphores hold anything. */
    constructor (segsize: nat)
      ensures filesize == 0 && status == 0 && readLen == 0 && |data| == segsize
      ensures owner == None && server == Nobody && !used
    {
      filelenSem, proxySem, cacheSem := *, *, *;
      filesize, status, readLen := 0, 0, 0;
      data := seq(segsize, _ => 0);
      owner, server, used := None, Nobody, false;
    }
  }

  lemma SendIs(cfg: Config, s: State, p: nat)
    requires InRange(cfg, s) && p < |s.proxies| && s.proxies[p].pc == SendChunk && ProxyEnabled(cfg, s, p)
    ensures s.proxies[p].seg < |s.segs|
    ensures var w := s.proxies[p]; var g := s.segs[w.seg]; var chunk := Take(g.data, g.readLen);
            ProxyNext(cfg, s, p) == PutProxy(s, p, if |chunk| == 0 then w.(pc := ClearLen)
              else w.(pc := PostSpace, transferred := w.transferred + |chunk|, sent := w.sent + chunk))
  {
    hide Take;
    assert s.segs[s.proxies[p].seg := s.segs[s.proxies[p].seg]] == s.segs;
  }

  /** A step of a proxy worker inside its segment leaves the other segments as they were. */
  lemma ProxyStepIs(cfg: Config, s: State, p: nat)
    requires InRange(cfg, s) && p < |s.proxies| && ProxyEnabled(cfg, s, p)
    requires ActsInside(s.proxies[p].pc) && IsLocal(s.proxies[p], s.segs[s.proxies[p].seg])
    ensures s.proxies[p].seg < |s.segs|
    ensures s.proxies[p].pc == WaitLen ==> s.segs[s.proxies[p].seg].filelenSem > 0
    ensures s.proxies[p].pc == WaitChunk ==> s.segs[s.proxies[p].seg].proxySem > 0
    ensures var (w', g') := ProxyLocal(s.proxies[p], s.segs[s.proxies[p].seg]);
            ProxyNext(cfg, s, p) == PutBoth(s, p, w', s.proxies[p].seg, g')
  {
    hide ProxyLocal, IsLocal;
  }

  lemma PostSpaceIs(w: Proxy, g: Seg)
    requires w.pc == PostSpace
    ensures IsLocal(w, g) && ProxyLocal(w, g) == (w.(pc := LoopTest), g.(cacheSem := g.cacheSem + 1))
  {
  }

  /** A step of a cache worker that keeps its segment leaves the other segments as they were. */
  lemma CacheStepIs(cfg: Config, s: State, c: nat)
    requires InRange(cfg, s) && c < |s.caches| && s.caches[c].pc != Receive && CacheEnabled(cfg, s, c, 0)
    ensures s.caches[c].seg < |s.segs|
    ensures s.caches[c].pc == WaitSpace ==> s.segs[s.caches[c].seg].cacheSem > 0
    ensures var (w', g') := CacheLocal(cfg, c, s.caches[c], s.segs[s.caches[c].seg], 0);
            CacheNext(cfg, s, c, 0) == s.(caches := s.caches[c := w'], segs := s.segs[s.caches[c].seg := g'])
  {
    hide CacheLocal;
  }

  lemma PostChunkIs(cfg: Config, c: nat, w: Cache, g: Seg)
    requires w.pc == PostChunk
    ensures var w' := w.(pc := ReadTest);
            CacheLocal(cfg, c, w, g, 0)
            == (w', g.(proxySem := g.proxySem + 1, server := if Attached(w') then Worker(c) else Nobody))
  {
  }

  lemma PostLenIs(cfg: Config, c: nat, w: Cache, g: Seg)
    requires w.pc == PostLen
    ensures var w' := w.(pc := if w.path in cfg.files then ReadTest else Receive);
            CacheLocal(cfg, c, w, g, 0)
            == (w', g.(filelenSem := g.filelenSem + 1, server := if Attached(w') then Worker(c) else Nobody))
  {
  }

  lemma StoreDataIs(cfg: Config, c: nat, w: Cache, g: Seg)
    requires w.pc == StoreData
    ensures CacheLocal(cfg, c, w, g, 0)
            == (w.(pc := PostChunk, nread := w.nread + w.nbytes), g.(data := Overwrite(g.data, w.buf, w.nbytes)))
  {
  }

  class Cluster {
    const cfg: Config
    const segments: seq<Segment>
    var shmQueue: seq<nat>
    var messages: seq<Msg>
    var proxies: seq<Proxy>
    var caches: seq<Cache>
    var issued: nat
    ghost var progress: seq<Progress>

    ghost function Segs(): (r: seq<Seg>)
      reads segments
      ensures |r| == |segments|
      ensures forall i :: 0 <= i < |r| ==> r[i] == segments[i].Value()
    {
      seq(|segments|, i requires 0 <= i < |segments| reads segments => segments[i].Value())
    }

    ghost function View(): State
      reads this, segments
    {
      State(Segs(), shmQueue, messages, proxies, caches, issued, progress)
    }

    /** Storing in one segment leaves the others as they were. */
    twostate lemma OnlyOneChanged(g: nat)
      requires g < |segments| && forall i :: 0 <= i < |segments| && i != g ==> unchanged(segments[i])
      ensures Segs() == old(Segs())[g := segments[g].Value()]
    {
    }

    /** The segments are distinct objects, and everything a worker dereferences exists. */
    ghost predicate Coherent()
      reads this, segments
    {
      && (forall i, j :: 0 <= i < j < |segments| ==> segments[i] != segments[j])
      && InRange(cfg, View())
    }

    ghost predicate Valid()
      reads this, segments
    {
      Coherent() && Invariant.Inv(cfg, View())
    }

    /** initSharedMemory and the creation of the workers. */
    constructor (cfg: Config, nsegments: nat, nproxies: nat, ncaches: nat)
      ensures Valid() && Init(cfg, View()) && fresh(segments)
      ensures this.cfg == cfg && |segments| == nsegments && |proxies| == nproxies && |caches| == ncaches
    {
      var segs: seq<Segment> := [];
      var pool: seq<nat> := [];
      for m := 0 to nsegments
        invariant |segs| == |pool| == m
        invariant forall g :: 0 <= g < m ==> pool[g] == g && fresh(segs[g])
        invariant forall i, j :: 0 <= i < j < m ==> segs[i] != segs[j]
        invariant forall g :: 0 <= g < m ==>
          && segs[g].owner == None && segs[g].server == Nobody && !segs[g].used
          && segs[g].filesize == 0 && segs[g].status == 0 && segs[g].readLen == 0 && |segs[g].data| == cfg.segsize
      {
        var shm := new Segment(cfg.segsize);
        segs := segs + [shm];
        pool := pool + [m];
      }
      this.cfg, segments, shmQueue, messages, issued := cfg, segs, pool, [], 0;
      proxies := seq(nproxies, _ => Proxy(Idle, 0, "", 0, false, 0, None, []));
      caches := seq(ncaches, _ => Cache(Receive, "", 0, 0, 0, 0, []));
      progress := seq(|cfg.requests|, _ => Waiting);
      new;
      Invariant.InitInv(cfg, View());
    }

    ghost predicate Ready(p: nat, pc: ProxyPc)
      reads this, segments
    {
      Coherent() && p < |proxies| && proxies[p].pc == pc && ProxyEnabled(cfg, View(), p)
    }

    // -------------------------------------------------------------- handle_with_cache

    /** The web server hands the next request to an idle worker. */
    method Begin(p: nat)
      requires Ready(p, Idle)
      modifies this
      ensures Coherent() && View() == ProxyNext(cfg, old(View()), p)
    {
      NextInRange(cfg, View(), Run(p));
      proxies := proxies[p := Proxy(Acquire, issued, cfg.requests[issued], 0, false, 0, None, [])];
      progress := progress[issued := Serving(p)];
      issued := issued + 1;
    }

    /** Lock; sleep if the pool is empty, else take the first segment; unlock. */
    method TakeSegment(p: nat)
      requires Ready(p, Acquire)
      modifies this, segments
      ensures Coherent() && View() == ProxyNext(cfg, old(View()), p)
      ensures old(shmQueue) != [] ==> proxies[p].seg == old(shmQueue)[0] && shmQueue == old(shmQueue)[1..]
      ensures old(shmQueue) == [] ==> proxies[p].pc == Asleep && shmQueue == []
    {
      NextInRange(cfg, View(), Run(p));
      if shmQueue == [] {
        proxies := proxies[p := proxies[p].(pc := Asleep)];
      } else {
        var g := shmQueue[0];
        shmQueue := shmQueue[1..];
        proxies := proxies[p := proxies[p].(pc := AnnouncePop, seg := g)];
        segments[g].owner := Some(p);
        assert View() == ProxyNext(cfg, old(View()), p);
      }
    }

    /** pthread_cond_broadcast */
    method Broadcast()
      modifies this`proxies
      ensures proxies == WakeAll(old(proxies))
    {
      var i := 0;
      while i < |proxies|
        invariant 0 <= i <= |proxies| == |old(proxies)|
        invariant forall j :: 0 <= j < i ==> proxies[j] == WakeAll(old(proxies))[j]
        invariant forall j :: i <= j < |proxies| ==> proxies[j] == old(proxies)[j]
      {
        if proxies[i].pc == Asleep {
          proxies := proxies[i := proxies[i].(pc := Acquire)];
        }
        i := i + 1;
      }
    }

    method AnnounceTaken(p: nat)
      requires Ready(p, AnnouncePop)
      modifies this
      ensures Coherent() && View() == ProxyNext(cfg, old(View()), p)
    {
      NextInRange(cfg, View(), Run(p));
      proxies := proxies[p := proxies[p].(pc := InitLen)];
      Broadcast();
    }

    /** sem_init of filelen_sem */
    method InitFilelenSem(p: nat)
      requires Ready(p, InitLen)
      modifies this, segments
      ensures Coherent() && View() == ProxyNext(cfg, old(View()), p)
    {
      hide InRange, ProxyNext, ProxyEnabled;
      ProxyStepIs(cfg, View(), p);
      NextInRange(cfg, View(), Run(p));
      ghost var next := ProxyNext(cfg, View(), p);
      var w := proxies[p];
      var shm := segments[w.seg];
      shm.filelenSem := 0;
      proxies := proxies[p := w.(pc := InitProxy)];
      assert shm.Value() == next.segs[w.seg];
      OnlyOneChanged(w.seg);
    }

    /** sem_init of proxysem */
    method InitProxySem(p: nat)
      requires Ready(p, InitProxy)
      modifies this, segments
      ensures Coherent() && View() == ProxyNext(cfg, old(View()), p)
    {
      hide InRange, ProxyNext, ProxyEnabled;
      ProxyStepIs(cfg, View(), p);
      NextInRange(cfg, View(), Run(p));
      ghost var next := ProxyNext(cfg, View(), p);
      var w := proxies[p];
      var shm := segments[w.seg];
      shm.proxySem := 0;
      proxies := proxies[p := w.(pc := InitCache)];
      assert shm.Value() == next.segs[w.seg];
      OnlyOneChanged(w.seg);
    }

    /** sem_init of cachesem */
    method InitCacheSem(p: nat)
      requires Ready(p, InitCache)
      modifies this, segments
      ensures Coherent() && View() == ProxyNext(cfg, old(View()), p)
    {
      hide InRange, ProxyNext, ProxyEnabled;
      ProxyStepIs(cfg, View(), p);
      NextInRange(cfg, View(), Run(p));
      ghost var next := ProxyNext(cfg, View(), p);
      var w := proxies[p];
      var shm := segments[w.seg];
      shm.cacheSem := 1;
      shm.used := true;
      proxies := proxies[p := w.(pc := SendMsg)];
      assert shm.Value() == next.segs[w.seg];
      OnlyOneChanged(w.seg);
    }

    /** mq_send */
    method SendRequest(p: nat)
      requires Ready(p, SendMsg)
      modifies this, segments
      ensures Coherent() && View() == ProxyNext(cfg, old(View()), p)
    {
      NextInRange(cfg, View(), Run(p));
      var w := proxies[p];
      messages := messages + [Msg(w.seg, w.path)];
      segments[w.seg].server := Queued;
      proxies := proxies[p := w.(pc := WaitLen)];
      assert Segs() == old(Segs())[w.seg := segments[w.seg].Value()];
    }

    // -------------------------------------------------------------- processResponse

    /** sem_wait of filelen_sem */
    method WaitForAnswer(p: nat)
      requires Ready(p, WaitLen)
      modifies this, segments
      ensures Coherent() && View() == ProxyNext(cfg, old(View()), p)
    {
      hide InRange, ProxyNext, ProxyEnabled;
      ProxyStepIs(cfg, View(), p);
      NextInRange(cfg, View(), Run(p));
      ghost var next := ProxyNext(cfg, View(), p);
      var w := proxies[p];
      var shm := segments[w.seg];
      shm.filelenSem := shm.filelenSem - 1;
      proxies := proxies[p := w.(pc := ReadStatus)];
      assert shm.Value() == next.segs[w.seg];
      OnlyOneChanged(w.seg);
    }

    /** The three branches of processResponse. */
    method TestStatus(p: nat)
      requires Ready(p, ReadStatus)
      modifies this, segments
      ensures Coherent() && View() == ProxyNext(cfg, old(View()), p)
    {
      NextInRange(cfg, View(), Run(p));
      ghost var next := ProxyNext(cfg, View(), p);
      assert next.segs == Segs();
      var w := proxies[p];
      var shm := segments[w.seg];
      hide InRange;
      if shm.status == STATUS_OK {
        proxies := proxies[p := w.(pc := LoopTest, found := true, header := Some(Header(true, shm.filesize)), transferred := 0)];
      } else if shm.status == STATUS_NOT_FOUND {
        proxies := proxies[p := w.(pc := ClearLen, found := false)];
      } else {
        proxies := proxies[p := w.(pc := Idle)];
        progress := progress[w.id := Replied(Reply(Header(false, 0), []))];
      }
    }

    /** The guard of the sending loop. */
    method TestTransferred(p: nat)
      requires Ready(p, LoopTest)
      modifies this, segments
      ensures Coherent() && View() == ProxyNext(cfg, old(View()), p)
    {
      NextInRange(cfg, View(), Run(p));
      ghost var next := ProxyNext(cfg, View(), p);
      assert next.segs == Segs();
      var w := proxies[p];
      var shm := segments[w.seg];
      hide InRange;
      proxies := proxies[p := w.(pc := if w.transferred < shm.filesize then WaitChunk else ClearLen)];
    }

    /** sem_wait of proxysem */
    method WaitForChunk(p: nat)
      requires Ready(p, WaitChunk)
      modifies this, segments
      ensures Coherent() && View() == ProxyNext(cfg, old(View()), p)
    {
      hide InRange, ProxyNext, ProxyEnabled;
      ProxyStepIs(cfg, View(), p);
      NextInRange(cfg, View(), Run(p));
      ghost var next := ProxyNext(cfg, View(), p);
      var w := proxies[p];
      var shm := segments[w.seg];
      shm.proxySem := shm.proxySem - 1;
      proxies := proxies[p := w.(pc := SendChunk)];
      assert shm.Value() == next.segs[w.seg];
      OnlyOneChanged(w.seg);
    }

    /** gfs_send, and counting what it sent. */
    method SendTheChunk(p: nat)
      requires Ready(p, SendChunk)
      modifies this, segments
      ensures Coherent() && View() == ProxyNext(cfg, old(View()), p)
    {
      hide InRange, ProxyNext, ProxyLocal, ProxyEnabled;
      NextInRange(cfg, View(), Run(p));
      SendIs(cfg, View(), p);
      ghost var next := ProxyNext(cfg, View(), p);
      var w := proxies[p];
      var chunk := Take(segments[w.seg].data, segments[w.seg].readLen);
      if |chunk| == 0 {
        proxies := proxies[p := w.(pc := ClearLen)];
      } else {
        proxies := proxies[p := w.(pc := PostSpace, transferred := w.transferred + |chunk|, sent := w.sent + chunk)];
      }
      assert View() == next;
    }

    /** sem_post of cachesem */
    method PostCacheSem(p: nat)
      requires Ready(p, PostSpace)
      modifies this, segments
      ensures Coherent() && View() == ProxyNext(cfg, old(View()), p)
    {
      hide InRange, ProxyNext, ProxyEnabled, ProxyLocal;
      ProxyStepIs(cfg, View(), p);
      PostSpaceIs(proxies[p], segments[proxies[p].seg].Value());
      NextInRange(cfg, View(), Run(p));
      ghost var next := ProxyNext(cfg, View(), p);
      var w := proxies[p];
      var shm := segments[w.seg];
      shm.cacheSem := shm.cacheSem + 1;
      proxies := proxies[p := w.(pc := LoopTest)];
      assert shm.Value() == next.segs[w.seg];
      OnlyOneChanged(w.seg);
    }

    /** queueMemory: read_len */
    method ClearReadLen(p: nat)
      requires Ready(p, ClearLen)
      modifies this, segments
      ensures Coherent() && View() == ProxyNext(cfg, old(View()), p)
    {
      hide InRange, ProxyNext, ProxyEnabled;
      ProxyStepIs(cfg, View(), p);
      NextInRange(cfg, View(), Run(p));
      ghost var next := ProxyNext(cfg, View(), p);
      var w := proxies[p];
      var shm := segments[w.seg];
      shm.readLen := 0;
      proxies := proxies[p := w.(pc := ClearSize)];
      assert shm.Value() == next.segs[w.seg];
      OnlyOneChanged(w.seg);
    }

    /** queueMemory: filesize */
    method ClearFilesize(p: nat)
      requires Ready(p, ClearSize)
      modifies this, segments
      ensures Coherent() && View() == ProxyNext(cfg, old(View()), p)
    {
      hide InRange, ProxyNext, ProxyEnabled;
      ProxyStepIs(cfg, View(), p);
      NextInRange(cfg, View(), Run(p));
      ghost var next := ProxyNext(cfg, View(), p);
      var w := proxies[p];
      var shm := segments[w.seg];
      shm.filesize := 0;
      proxies := proxies[p := w.(pc := Requeue)];
      assert shm.Value() == next.segs[w.seg];
      OnlyOneChanged(w.seg);
    }

    /** queueMemory: the enqueue under the mutex */
    method QueueSegment(p: nat)
      requires Ready(p, Requeue)
      modifies this, segments
      ensures Coherent() && View() == ProxyNext(cfg, old(View()), p)
    {
      NextInRange(cfg, View(), Run(p));
      ghost var next := ProxyNext(cfg, View(), p);
      var w := proxies[p];
      var shm := segments[w.seg];
      hide InRange;
      shm.owner := None;
      shmQueue := shmQueue + [w.seg];
      proxies := proxies[p := w.(pc := AnnounceFree)];
      assert shm.Value() == next.segs[w.seg];
      OnlyOneChanged(w.seg);
    }

    /** The broadcast of queueMemory and the return of the worker function. */
    method Return(p: nat)
      requires Ready(p, AnnounceFree)
      modifies this
      ensures Coherent() && View() == ProxyNext(cfg, old(View()), p)
    {
      NextInRange(cfg, View(), Run(p));
      var w := proxies[p];
      var header := if w.found && w.header.Some? then w.header.value else Header(false, 0);
      progress := progress[w.id := Replied(Reply(header, w.sent))];
      proxies := proxies[p := w.(pc := Idle)];
      Broadcast();
    }

    // -------------------------------------------------------------- workerRoutine and sendResponse

    ghost predicate CacheReady(c: nat, pc: CachePc, k: nat)
      reads this, segments
    {
      Coherent() && c < |caches| && caches[c].pc == pc && CacheEnabled(cfg, View(), c, k)
    }

    /** mq_receive, and looking up the path. */
    method ReceiveRequest(c: nat)
      requires CacheReady(c, Receive, 0)
      modifies this, segments
      ensures Coherent() && View() == CacheNext(cfg, old(View()), c, 0)
    {
      NextInRange(cfg, View(), Serve(c, 0));
      var m := messages[0];
      messages := messages[1..];
      caches := caches[c := Cache(StoreSize, m.path, m.seg, 0, 0, 0, [])];
      segments[m.seg].server := Worker(c);
      assert Segs() == old(Segs())[m.seg := segments[m.seg].Value()];
    }

    /** lseek, and the store of filesize (-1 when the path is unknown) */
    method StoreFilesize(c: nat)
      requires CacheReady(c, StoreSize, 0)
      modifies this, segments
      ensures Coherent() && View() == CacheNext(cfg, old(View()), c, 0)
    {
      hide InRange, CacheNext, CacheEnabled;
      CacheStepIs(cfg, View(), c);
      NextInRange(cfg, View(), Serve(c, 0));
      ghost var next := CacheNext(cfg, View(), c, 0);
      var w := caches[c];
      var shm := segments[w.seg];
      if w.path in cfg.files {
        shm.filesize := |cfg.files[w.path]|;
        caches := caches[c := w.(pc := StoreStatus, filsize := |cfg.files[w.path]|, nread := 0)];
      } else {
        shm.filesize := SIZE_MAX;
        caches := caches[c := w.(pc := StoreStatus, filsize := 0, nread := 0)];
      }
      assert shm.Value() == next.segs[w.seg];
      OnlyOneChanged(w.seg);
    }

    /** The store of status. */
    method StoreTheStatus(c: nat)
      requires CacheReady(c, StoreStatus, 0)
      modifies this, segments
      ensures Coherent() && View() == CacheNext(cfg, old(View()), c, 0)
    {
      hide InRange, CacheNext, CacheEnabled;
      CacheStepIs(cfg, View(), c);
      NextInRange(cfg, View(), Serve(c, 0));
      ghost var next := CacheNext(cfg, View(), c, 0);
      var w := caches[c];
      var shm := segments[w.seg];
      shm.status := if w.path in cfg.files then STATUS_OK else STATUS_NOT_FOUND;
      caches := caches[c := w.(pc := PostLen)];
      assert shm.Value() == next.segs[w.seg];
      OnlyOneChanged(w.seg);
    }

    /** sem_post of filelen_sem */
    method PostFilelenSem(c: nat)
      requires CacheReady(c, PostLen, 0)
      modifies this, segments
      ensures Coherent() && View() == CacheNext(cfg, old(View()), c, 0)
    {
      hide InRange, CacheNext, CacheEnabled, CacheLocal;
      CacheStepIs(cfg, View(), c);
      PostLenIs(cfg, c, caches[c], segments[caches[c].seg].Value());
      NextInRange(cfg, View(), Serve(c, 0));
      ghost var next := CacheNext(cfg, View(), c, 0);
      var w := caches[c];
      var shm := segments[w.seg];
      shm.filelenSem := shm.filelenSem + 1;
      caches := caches[c := w.(pc := if w.path in cfg.files then ReadTest else Receive)];
      shm.server := if Attached(caches[c]) then Worker(c) else Nobody;
      assert shm.Value() == next.segs[w.seg];
      OnlyOneChanged(w.seg);
    }

    /** The guard of the copying loop. */
    method TestBytesRead(c: nat)
      requires CacheReady(c, ReadTest, 0)
      modifies this, segments
      ensures Coherent() && View() == CacheNext(cfg, old(View()), c, 0)
    {
      NextInRange(cfg, View(), Serve(c, 0));
      ghost var next := CacheNext(cfg, View(), c, 0);
      assert next.segs == Segs();
      var w := caches[c];
      var shm := segments[w.seg];
      hide InRange;
      caches := caches[c := w.(pc := if w.nread < w.filsize then WaitSpace else Receive)];
    }

    /** sem_wait of cachesem */
    method WaitForSpace(c: nat)
      requires CacheReady(c, WaitSpace, 0)
      modifies this, segments
      ensures Coherent() && View() == CacheNext(cfg, old(View()), c, 0)
    {
      hide InRange, CacheNext, CacheEnabled;
      CacheStepIs(cfg, View(), c);
      NextInRange(cfg, View(), Serve(c, 0));
      ghost var next := CacheNext(cfg, View(), c, 0);
      var w := caches[c];
      var shm := segments[w.seg];
      shm.cacheSem := shm.cacheSem - 1;
      caches := caches[c := w.(pc := ReadFile)];
      assert shm.Value() == next.segs[w.seg];
      OnlyOneChanged(w.seg);
    }

    /** pread of k bytes at the current offset, into the local buffer */
    method ReadFromFile(c: nat, k: nat)
      requires CacheReady(c, ReadFile, k)
      modifies this, segments
      ensures Coherent() && View() == CacheNext(cfg, old(View()), c, k)
    {
      NextInRange(cfg, View(), Serve(c, k));
      ghost var next := CacheNext(cfg, View(), c, k);
      assert next.segs == Segs();
      var w := caches[c];
      var shm := segments[w.seg];
      hide InRange;
      caches := caches[c := w.(pc := StoreLen, nbytes := k, buf := cfg.Body(w.path)[w.nread..w.nread + k])];
    }

    /** The copy of nbytes to read_len. */
    method StoreReadLen(c: nat)
      requires CacheReady(c, StoreLen, 0)
      modifies this, segments
      ensures Coherent() && View() == CacheNext(cfg, old(View()), c, 0)
    {
      hide InRange, CacheNext, CacheEnabled;
      CacheStepIs(cfg, View(), c);
      NextInRange(cfg, View(), Serve(c, 0));
      ghost var next := CacheNext(cfg, View(), c, 0);
      var w := caches[c];
      var shm := segments[w.seg];
      shm.readLen := w.nbytes;
      caches := caches[c := w.(pc := StoreData)];
      assert shm.Value() == next.segs[w.seg];
      OnlyOneChanged(w.seg);
    }

    /** The copy of the buffer to data. */
    method StoreChunk(c: nat)
      requires CacheReady(c, StoreData, 0)
      modifies this, segments
      ensures Coherent() && View() == CacheNext(cfg, old(View()), c, 0)
    {
      hide InRange, CacheNext, CacheEnabled, CacheLocal;
      CacheStepIs(cfg, View(), c);
      StoreDataIs(cfg, c, caches[c], segments[caches[c].seg].Value());
      NextInRange(cfg, View(), Serve(c, 0));
      ghost var next := CacheNext(cfg, View(), c, 0);
      var w := caches[c];
      var shm := segments[w.seg];
      shm.data := Overwrite(shm.data, w.buf, w.nbytes);
      caches := caches[c := w.(pc := PostChunk, nread := w.nread + w.nbytes)];
      assert shm.Value() == next.segs[w.seg];
      OnlyOneChanged(w.seg);
    }

    /** sem_post of proxysem */
    method PostProxySem(c: nat)
      requires CacheReady(c, PostChunk, 0)
      modifies this, segments
      ensures Coherent() && View() == CacheNext(cfg, old(View()), c, 0)
    {
      hide InRange, CacheNext, CacheEnabled, CacheLocal;
      CacheStepIs(cfg, View(), c);
      PostChunkIs(cfg, c, caches[c], segments[caches[c].seg].Value());
      NextInRange(cfg, View(), Serve(c, 0));
      ghost var next := CacheNext(cfg, View(), c, 0);
      var w := caches[c];
      var shm := segments[w.seg];
      shm.proxySem := shm.proxySem + 1;
      caches := caches[c := w.(pc := ReadTest)];
      shm.server := if Attached(caches[c]) then Worker(c) else Nobody;
      assert shm.Value() == next.segs[w.seg];
      OnlyOneChanged(w.seg);
    }

    // -------------------------------------------------------------- any schedule

    method CanRun(p: nat) returns (b: bool)
      requires Coherent()
      ensures b == (p < |proxies| && ProxyEnabled(cfg, View(), p))
    {
      if p >= |proxies| {
        return false;
      }
      var w := proxies[p];
      match w.pc
      case Idle => b := issued < |cfg.requests|;
      case Asleep => b := false;
      case SendMsg => b := |messages| < MAX_MESSAGES;
      case WaitLen => b := segments[w.seg].filelenSem > 0;
      case WaitChunk => b := segments[w.seg].proxySem > 0;
      case _ => b := true;
    }

    method CanServe(c: nat, k: nat) returns (b: bool)
      requires Coherent()
      ensures b == (c < |caches| && CacheEnabled(cfg, View(), c, k))
    {
      if c >= |caches| {
        return false;
      }
      var w := caches[c];
      match w.pc
      case Receive => b := messages != [];
      case WaitSpace => b := segments[w.seg].cacheSem > 0;
      case ReadFile => b := 1 <= k <= cfg.segsize && w.nread + k <= |cfg.Body(w.path)|;
      case _ => b := true;
    }

    method StepProxy(p: nat)
      requires Coherent() && p < |proxies| && ProxyEnabled(cfg, View(), p)
      modifies this, segments
      ensures Coherent() && View() == ProxyNext(cfg, old(View()), p)
    {
      match proxies[p].pc
      case Idle => Begin(p);
      case Acquire => TakeSegment(p);
      case AnnouncePop => AnnounceTaken(p);
      case InitLen => InitFilelenSem(p);
      case InitProxy => InitProxySem(p);
      case InitCache => InitCacheSem(p);
      case SendMsg => SendRequest(p);
      case WaitLen => WaitForAnswer(p);
      case ReadStatus => TestStatus(p);
      case LoopTest => TestTransferred(p);
      case WaitChunk => WaitForChunk(p);
      case SendChunk => SendTheChunk(p);
      case PostSpace => PostCacheSem(p);
      case ClearLen => ClearReadLen(p);
      case ClearSize => ClearFilesize(p);
      case Requeue => QueueSegment(p);
      case AnnounceFree => Return(p);
    }

    method StepCache(c: nat, k: nat)
      requires Coherent() && c < |caches| && CacheEnabled(cfg, View(), c, k)
      modifies this, segments
      ensures Coherent() && View() == CacheNext(cfg, old(View()), c, k)
    {
      match caches[c].pc
      case Receive => ReceiveRequest(c);
      case StoreSize => StoreFilesize(c);
      case StoreStatus => StoreTheStatus(c);
      case PostLen => PostFilelenSem(c);
      case ReadTest => TestBytesRead(c);
      case WaitSpace => WaitForSpace(c);
      case ReadFile => ReadFromFile(c, k);
      case StoreLen => StoreReadLen(c);
      case StoreData => StoreChunk(c);
      case PostChunk => PostProxySem(c);
    }

    /** A wakeup that no broadcast caused. */
    method WakeSpuriously(p: nat)
      requires Coherent() && p < |proxies| && proxies[p].pc == Asleep
      modifies this
      ensures Coherent() && View() == Next(cfg, old(View()), Spurious(p))
    {
      NextInRange(cfg, View(), Spurious(p));
      proxies := proxies[p := proxies[p].(pc := Acquire)];
    }

    /** One entry of a schedule: the worker named takes its step if it can. */
    method TryStep(a: Action) returns (moved: bool)
      requires Coherent()
      modifies this, segments
      ensures Coherent() && moved == old(Enabled(cfg, View(), a))
      ensures View() == if moved then Next(cfg, old(View()), a) else old(View())
    {
      moved := false;
      match a
      case Run(p) =>
        moved := CanRun(p);
        if moved { StepProxy(p); }
      case Serve(c, k) =>
        moved := CanServe(c, k);
        if moved { StepCache(c, k); }
      case Spurious(p) =>
        moved := p < |proxies| && proxies[p].pc == Asleep;
        if moved { WakeSpuriously(p); }
    }

    /** Runs the workers under an arbitrary schedule: an entry names a worker (and a result of
        `pread`), and is passed over when that worker cannot move.  The steps taken form a run. */
    method RunSchedule(schedule: seq<Action>) returns (ghost taken: seq<Action>)
      requires Valid()
      modifies this, segments
      ensures Valid()
      ensures Theorems.IsRun(cfg, old(View()), taken) && View() == Theorems.After(cfg, old(View()), taken)
    {
      taken := [];
      for i := 0 to |schedule|
        invariant Valid()
        invariant Theorems.IsRun(cfg, old(View()), taken) && View() == Theorems.After(cfg, old(View()), taken)
      {
        ghost var before := View();
        var moved := TryStep(schedule[i]);
        if moved {
          Steps.StepInv(cfg, before, schedule[i]);
          Theorems.RunExtends(cfg, old(View()), taken, schedule[i]);
          taken := taken + [schedule[i]];
        }
      }
    }
  }
}
