/** Over any history of online walks the root cache stands in for the server it was filled from. */
module RootReplay {
  import opened Wrappers
  import opened Hex
  import opened Text
  import opened RootCache

  type Server = nat -> Bytes

  /** The cached versions are exactly those after the embedded one up to `h`. */
  ghost predicate Covers(c: Config, files: Files, h: nat) {
    && c.embedded <= h < Upper(c)
    && (forall n: nat :: RootName(n) in files <==> c.embedded < n <= h)
  }

  /** Version `n`, if cached, has the server's bytes. */
  predicate FaithfulAt(files: Files, server: Server, n: nat) {
    RootName(n) in files ==> files[RootName(n)] == server(n)
  }

  ghost predicate Faithful(files: Files, server: Server) {
    forall n: nat :: FaithfulAt(files, server, n)
  }

  /** Every cached root is at least a leading piece of the server's. */
  ghost predicate Pieces(files: Files, server: Server) {
    forall n: nat :: RootName(n) in files ==> files[RootName(n)] <= server(n)
  }

  /** A server that has published versions up to `latest` and never withdraws one. */
  ghost predicate AppendOnly(env: nat -> Reply, latest: nat) {
    && (forall n: nat :: env(n).Served? ==> n <= latest)
    && (forall n: nat :: env(n).Missing? ==> n > latest)
  }

  predicate IsTorn(r: Reply) {
    r.Served? && r.disk.Torn?
  }

  // ---- One walk ----

  function Max(a: nat, b: nat): nat {
    if a < b then b else a
  }

  lemma StoreCovers(c: Config, files: Files, h: nat, n: nat, dt: Bytes)
    requires Covers(c, files, h) && c.embedded < n <= h + 1 && n < Upper(c)
    ensures Covers(c, files[RootName(n) := dt], Max(h, n))
    ensures forall m: nat :: m != n && RootName(m) in files ==>
              files[RootName(n) := dt][RootName(m)] == files[RootName(m)]
  {
    forall m: nat
      ensures RootName(m) == RootName(n) ==> m == n
    {
      RootNameInjective(m, n);
    }
  }

  lemma StoreKeepsPieces(files: Files, server: Server, n: nat, dt: Bytes)
    requires Pieces(files, server) && dt <= server(n)
    ensures var files' := files[RootName(n) := dt];
            && Pieces(files', server)
            && (dt == server(n) && Faithful(files, server) ==> Faithful(files', server))
  {
    var files' := files[RootName(n) := dt];
    forall m: nat
      ensures RootName(m) in files' ==> files'[RootName(m)] <= server(m)
      ensures dt == server(n) && FaithfulAt(files, server, m) ==> FaithfulAt(files', server, m)
    {
      RootNameInjective(m, n);
    }
  }

  /**
   * However a walk ends, the cached versions stay contiguous, include every version it accepted
   * and hold nothing but the server's bytes.
   */
  lemma {:induction false} WalkCovers(
    c: Config, files: Files, server: Server, env: nat -> Reply, latest: nat, n: nat, chain: seq<Bytes>, h: nat)
    returns (h': nat)
    requires LawfulConfig(c) && Covers(c, files, h) && c.embedded < n <= h + 1
    requires AppendOnly(env, latest) && h <= latest
    requires Pieces(files, server)
    ensures var (files', w) := OnlineWalk(c, files, server, env, n, chain);
            && Covers(c, files', h') && h <= h' <= latest && Pieces(files', server)
            && n + |w.chain| <= h' + 1 + |chain|
            && (Faithful(files, server) && (forall m: nat :: !IsTorn(env(m))) ==> Faithful(files', server))
    decreases Upper(c) - n
  {
    h' := h;
    if n < Upper(c) && env(n).Served? {
      var disk := env(n).disk;
      OnlineRoot(c, files, n, server(n), disk);
      if disk.Torn? || disk.Written? {
        var dt := if disk.Torn? then server(n)[..Min(disk.k, |server(n)|)] else server(n);
        StoreCovers(c, files, h, n, dt);
        StoreKeepsPieces(files, server, n, dt);
        h' := Max(h, n);
        if disk.Written? && c.accepts(chain, server(n)) && env(n).persists {
          h' := WalkCovers(c, files[RootName(n) := dt], server, env, latest, n + 1, chain + [server(n)], h');
        }
      }
    }
  }

  ghost predicate FaithfulBelow(files: Files, server: Server, n: nat) {
    forall m: nat :: m < n ==> FaithfulAt(files, server, m)
  }

  lemma StoreHeals(files: Files, server: Server, n: nat)
    requires FaithfulBelow(files, server, n)
    ensures FaithfulBelow(files[RootName(n) := server(n)], server, n + 1)
  {
    var files' := files[RootName(n) := server(n)];
    forall m: nat | m <= n
      ensures FaithfulAt(files', server, m)
    {
      RootNameInjective(m, n);
      assert m < n ==> FaithfulAt(files, server, m);
    }
  }

  /**
   * A walk that ends normally has rewritten every cached version, torn or not, and was the walk
   * of a server whose latest version is the highest one now cached.
   */
  lemma {:induction false} CompleteWalkHeals(
    c: Config, files: Files, server: Server, env: nat -> Reply, latest: nat, n: nat, chain: seq<Bytes>, h: nat)
    returns (h': nat)
    requires LawfulConfig(c) && Covers(c, files, h) && c.embedded < n <= h + 1
    requires AppendOnly(env, latest) && h <= latest
    requires FaithfulBelow(files, server, n)
    requires OnlineWalk(c, files, server, env, n, chain).1.end == Complete
    ensures var (files', w) := OnlineWalk(c, files, server, env, n, chain);
            && h <= h' && Covers(c, files', h') && Faithful(files', server)
            && w == ServerWalk(c, server, h', n, chain)
    decreases Upper(c) - n
  {
    h' := h;
    if n < Upper(c) && env(n).Served? {
      OnlineRoot(c, files, n, server(n), env(n).disk);
      StoreCovers(c, files, h, n, server(n));
      var files' := files[RootName(n) := server(n)];
      StoreHeals(files, server, n);
      h' := CompleteWalkHeals(c, files', server, env, latest, n + 1, chain + [server(n)], Max(h, n));
    }
  }

  /** The offline walk over faithful files is the walk of a server frozen at the highest cached version. */
  lemma {:induction false} OfflineIsServerWalk(
    c: Config, files: Files, timestamp: Option<Bytes>, server: Server, h: nat, n: nat, chain: seq<Bytes>)
    requires LawfulConfig(c) && Covers(c, files, h) && c.embedded < n
    requires forall m: nat :: n <= m <= h ==> FaithfulAt(files, server, m)
    ensures OfflineWalk(c, files, timestamp, n, chain) == ServerWalk(c, server, h, n, chain)
    decreases Upper(c) - n
  {
    if n < Upper(c) {
      OfflineRoot(c, files, timestamp, n, Written);
      if n <= h {
        assert FaithfulAt(files, server, n);
        if c.accepts(chain, server(n)) {
          OfflineIsServerWalk(c, files, timestamp, server, h, n + 1, chain + [server(n)]);
        }
      }
    }
  }

  // ---- The offline walk over the cached files alone ----

  /** Local files that cooperate throughout. */
  const HEALTHY: nat -> Reply := _ => Served(Written, true)

  /** The offline walk without the URLs: what it answers depends on the cached versions only. */
  function CacheWalk(c: Config, files: Files, env: nat -> Reply, n: nat, chain: seq<Bytes>): Walk
    decreases Upper(c) - n
  {
    if n >= Upper(c) then Walk(chain, Complete)
    else if DiskOf(env(n)).NoCache? then Walk(chain, Aborted(Local))
    else if RootName(n) !in files || DiskOf(env(n)).NotOpened? then Walk(chain, Complete)
    else if !c.accepts(chain, files[RootName(n)]) then Walk(chain, Rejected)
    else if !Persists(env(n)) then Walk(chain + [files[RootName(n)]], Aborted(Local))
    else CacheWalk(c, files, env, n + 1, chain + [files[RootName(n)]])
  }

  lemma {:induction false} LocalIsCacheWalk(
    c: Config, files: Files, timestamp: Option<Bytes>, env: nat -> Reply, n: nat, chain: seq<Bytes>)
    requires LawfulConfig(c)
    ensures LocalWalk(c, files, timestamp, env, n, chain) == CacheWalk(c, files, env, n, chain)
    decreases Upper(c) - n
  {
    if n < Upper(c) {
      OfflineRoot(c, files, timestamp, n, DiskOf(env(n)));
      if RootName(n) in files {
        LocalIsCacheWalk(c, files, timestamp, env, n + 1, chain + [files[RootName(n)]]);
      }
    }
  }

  lemma {:induction false} OfflineIsCacheWalk(
    c: Config, files: Files, timestamp: Option<Bytes>, n: nat, chain: seq<Bytes>)
    requires LawfulConfig(c)
    ensures OfflineWalk(c, files, timestamp, n, chain) == CacheWalk(c, files, HEALTHY, n, chain)
    decreases Upper(c) - n
  {
    if n < Upper(c) {
      OfflineRoot(c, files, timestamp, n, Written);
      if RootName(n) in files {
        OfflineIsCacheWalk(c, files, timestamp, n + 1, chain + [files[RootName(n)]]);
      }
    }
  }

  // ---- The server's chain ----

  /** The server's roots after the embedded one up to version `n`. */
  function Roots(c: Config, server: Server, n: nat): seq<Bytes> {
    if n <= c.embedded then [] else Roots(c, server, n - 1) + [server(n)]
  }

  lemma {:induction false} CountRoots(c: Config, server: Server, n: nat)
    ensures |Roots(c, server, n)| == if n <= c.embedded then 0 else n - c.embedded
  {
    if n > c.embedded {
      CountRoots(c, server, n - 1);
    }
  }

  /** go-tuf accepts the server's version `n` after all before it. */
  predicate Accepted(c: Config, server: Server, n: nat)
    requires n > c.embedded
  {
    c.accepts(Roots(c, server, n - 1), server(n))
  }

  ghost predicate ValidUpTo(c: Config, server: Server, h: nat) {
    forall n: nat :: c.embedded < n <= h ==> Accepted(c, server, n)
  }

  /** A server's walk ends on 404 exactly when its roots are valid, and then returns all of them. */
  lemma {:induction false} ServerWalkIsRoots(c: Config, server: Server, h: nat, n: nat)
    requires c.embedded < n <= h + 1 && h < Upper(c)
    ensures var w := ServerWalk(c, server, h, n, Roots(c, server, n - 1));
            && (w.end == Complete <==> forall i: nat :: n <= i <= h ==> Accepted(c, server, i))
            && (w.end == Complete ==> w.chain == Roots(c, server, h))
            && !w.end.Aborted?
    decreases Upper(c) - n
  {
    if n <= h {
      if Accepted(c, server, n) {
        ServerWalkIsRoots(c, server, h, n + 1);
      }
    }
  }

  // ---- Downloads in general ----

  /**
   * Offline the cached timestamp is what keeps the repository usable: it is answered exactly when
   * it is there and reads, with an error when the cache directory does not open, else as missing.
   */
  lemma OfflineTimestamp(
    c: Config, files: Files, timestamp: Option<Bytes>, net: Result<Bytes, DownloadError>, disk: Disk)
    ensures var (files', r) := Download(c, false, files, timestamp, c.base + "/timestamp.json", net, disk);
            && files' == files
            && (forall dt :: r == Success(dt) <==> timestamp == Some(dt) && disk != NoCache && disk != NotOpened)
            && (r == Failure(Local) <==> disk == NoCache)
            && (r == Failure(NotFound) <==> disk != NoCache && (timestamp.None? || disk == NotOpened))
  {
    var url := c.base + "/timestamp.json";
    assert url[|c.base|..] == "/timestamp.json";
    assert url[|url| - 10] == 's' && ".root.json"[0] == '.';
  }

  /**
   * Online a download answers with the server's own bytes or not at all, passes the server's own
   * error on, and changes nothing but the file of a root: the name after the last slash, in a path
   * that ends in ".root.json".
   */
  lemma OnlineIsTransparent(
    c: Config, files: Files, timestamp: Option<Bytes>, url: string, net: Result<Bytes, DownloadError>, disk: Disk)
    ensures var (files', r) := Download(c, true, files, timestamp, url, net, disk);
            && (r.Success? ==> net == r)
            && (net.Failure? ==> r == net && files' == files)
            && (net.Success? ==>
                  (r == net <==> c.parse(url).Some? && disk != NoCache
                                 && (HasSuffix(c.parse(url).value, ".root.json") ==> disk == Written)))
            && (c.parse(url).None? || !HasSuffix(c.parse(url).value, ".root.json") ==> files' == files)
            && (forall name :: c.parse(url).Some? && name != PathBase(c.parse(url).value) ==>
                  (name in files' <==> name in files) && (name in files ==> files'[name] == files[name]))
  {}

  /** A server that has versions up to `latest` and no failure anywhere. */
  ghost predicate AllWell(env: nat -> Reply, latest: nat) {
    forall n: nat :: env(n) == if n <= latest then Served(Written, true) else Missing
  }

  /** Where nothing fails the online walk is the server's own. */
  lemma {:induction false} HealthyOnlineWalk(
    c: Config, files: Files, server: Server, env: nat -> Reply, latest: nat, n: nat, chain: seq<Bytes>)
    requires LawfulConfig(c) && AllWell(env, latest)
    ensures OnlineWalk(c, files, server, env, n, chain).1 == ServerWalk(c, server, latest, n, chain)
    decreases Upper(c) - n
  {
    if n < Upper(c) && n <= latest {
      OnlineRoot(c, files, n, server(n), Written);
      HealthyOnlineWalk(c, files[RootName(n) := server(n)], server, env, latest, n + 1, chain + [server(n)]);
    }
  }

  /**
   * So online with nothing failing a walk returns all of the server's roots and stops on 404, if
   * and only if they are valid.
   */
  lemma HealthyOnlineWalkIsComplete(c: Config, files: Files, server: Server, env: nat -> Reply, latest: nat)
    requires LawfulConfig(c) && AllWell(env, latest) && c.embedded <= latest < Upper(c)
    ensures OnlineWalk(c, files, server, env, c.embedded + 1, []).1 == Walk(Roots(c, server, latest), Complete)
            <==> ValidUpTo(c, server, latest)
  {
    HealthyOnlineWalk(c, files, server, env, latest, c.embedded + 1, []);
    ServerWalkIsRoots(c, server, latest, c.embedded + 1);
  }

  // ---- Any history ----

  /** What may happen to the cache while online: a walk, or a download of some other file. */
  datatype Event =
    | RootWalk(env: nat -> Reply, latest: nat)
    | OtherDownload(url: string, net: Result<Bytes, DownloadError>, disk: Disk)

  function After(c: Config, server: Server, files: Files, e: Event): Files {
    match e
    case RootWalk(env, _) => OnlineWalk(c, files, server, env, c.embedded + 1, []).0
    case OtherDownload(url, net, disk) => OnlineDownload(c, files, url, net, disk).0
  }

  function AfterAll(c: Config, server: Server, files: Files, events: seq<Event>): Files {
    if events == [] then files
    else After(c, server, AfterAll(c, server, files, events[..|events| - 1]), events[|events| - 1])
  }

  /** The URL is not stored under the name of any root version. */
  ghost predicate Harmless(c: Config, url: string) {
    c.parse(url).Some? ==> forall n: nat :: PathBase(c.parse(url).value) != RootName(n)
  }

  /** The latest version the server had published when the events were over. */
  function Latest(c: Config, events: seq<Event>): nat {
    if events == [] then c.embedded
    else match events[|events| - 1]
      case RootWalk(_, latest) => latest
      case OtherDownload(_, _, _) => Latest(c, events[..|events| - 1])
  }

  /** The highest version any walk accepted. */
  function Reached(c: Config, server: Server, events: seq<Event>): nat {
    if events == [] then c.embedded
    else
      var before := events[..|events| - 1];
      match events[|events| - 1]
      case RootWalk(env, _) =>
        var w := OnlineWalk(c, AfterAll(c, server, map[], before), server, env, c.embedded + 1, []).1;
        Max(Reached(c, server, before), c.embedded + |w.chain|)
      case OtherDownload(_, _, _) => Reached(c, server, before)
  }

  /** The server only ever appends, and the other downloads are harmless. */
  ghost predicate History(c: Config, events: seq<Event>) {
    events == [] ||
    var before, e := events[..|events| - 1], events[|events| - 1];
    && History(c, before)
    && match e
       case RootWalk(env, latest) => Latest(c, before) <= latest && AppendOnly(env, latest)
       case OtherDownload(url, _, _) => Harmless(c, url)
  }

  ghost predicate TearsNothing(events: seq<Event>) {
    forall i, n: nat :: 0 <= i < |events| && events[i].RootWalk? ==> !IsTorn(events[i].env(n))
  }

  lemma HarmlessKeeps(c: Config, files: Files, server: Server, e: Event, h: nat)
    requires e.OtherDownload? && Harmless(c, e.url) && Covers(c, files, h) && Pieces(files, server)
    ensures var files' := After(c, server, files, e);
            && Covers(c, files', h) && Pieces(files', server)
            && (Faithful(files, server) ==> Faithful(files', server))
  {
    var files' := After(c, server, files, e);
    forall n: nat
      ensures RootName(n) in files <==> RootName(n) in files'
      ensures RootName(n) in files ==> files[RootName(n)] == files'[RootName(n)]
      ensures FaithfulAt(files, server, n) ==> FaithfulAt(files', server, n)
    {}
  }

  /** After any history the cached versions run on from the embedded one, at least to the highest one reached. */
  lemma {:induction false} HistoryCovers(c: Config, server: Server, events: seq<Event>) returns (h: nat)
    requires LawfulConfig(c) && History(c, events)
    ensures var files := AfterAll(c, server, map[], events);
            && Covers(c, files, h) && Reached(c, server, events) <= h <= Latest(c, events) && Pieces(files, server)
            && (TearsNothing(events) ==> Faithful(files, server))
  {
    if events == [] {
      h := c.embedded;
    } else {
      var before, e := events[..|events| - 1], events[|events| - 1];
      h := HistoryCovers(c, server, before);
      var files := AfterAll(c, server, map[], before);
      assert TearsNothing(events) ==> TearsNothing(before);
      assert TearsNothing(events) && e.RootWalk? ==> forall n: nat :: !IsTorn(e.env(n));
      match e
      case RootWalk(env, latest) =>
        h := WalkCovers(c, files, server, env, latest, c.embedded + 1, [], h);
      case OtherDownload(_, _, _) =>
        HarmlessKeeps(c, files, server, e, h);
    }
  }

  /** A walk caches at most one version past those it accepts. */
  lemma {:induction false} WalkCachesNext(
    c: Config, files: Files, server: Server, env: nat -> Reply, n: nat, chain: seq<Bytes>, m: nat)
    requires LawfulConfig(c)
    ensures var (files', w) := OnlineWalk(c, files, server, env, n, chain);
            && |chain| <= |w.chain|
            && (RootName(m) in files' && RootName(m) !in files ==> m <= n + |w.chain| - |chain|)
    decreases Upper(c) - n
  {
    if n < Upper(c) && env(n).Served? {
      OnlineRoot(c, files, n, server(n), env(n).disk);
      RootNameInjective(m, n);
      WalkCachesNext(c, files[RootName(n) := server(n)], server, env, n + 1, chain + [server(n)], m);
    }
  }

  lemma CoversOnce(c: Config, files: Files, h: nat, h': nat)
    requires Covers(c, files, h) && Covers(c, files, h')
    ensures h == h'
  {
    assert RootName(h) in files <==> c.embedded < h <= h';
    assert RootName(h') in files <==> c.embedded < h' <= h;
  }

  /** So after any history the cache ends with the highest version reached or the one after it. */
  lemma {:induction false} CacheEndsAtReached(c: Config, server: Server, events: seq<Event>, h: nat)
    requires LawfulConfig(c) && History(c, events) && Covers(c, AfterAll(c, server, map[], events), h)
    ensures Reached(c, server, events) <= h <= Reached(c, server, events) + 1
  {
    var files := AfterAll(c, server, map[], events);
    var top := HistoryCovers(c, server, events);
    CoversOnce(c, files, h, top);
    if events == [] {
      CoversOnce(c, files, h, c.embedded);
    } else {
      var before, e := events[..|events| - 1], events[|events| - 1];
      var files' := AfterAll(c, server, map[], before);
      var h' := HistoryCovers(c, server, before);
      CacheEndsAtReached(c, server, before, h');
      match e
      case RootWalk(env, _) =>
        WalkCachesNext(c, files', server, env, c.embedded + 1, [], h);
      case OtherDownload(_, _, _) =>
        HarmlessKeeps(c, files', server, e, h');
        CoversOnce(c, files, h, h');
    }
  }

  /**
   * After any history of complete, interrupted and failed walks that tore no write, the cache
   * covers the versions up to the highest reached, or beyond, and the offline walk does byte for
   * byte what a server with exactly those versions would: it returns them all and stops on 404,
   * if and only if they are valid.
   */
  lemma OfflineReplaysHistory(c: Config, server: Server, events: seq<Event>, timestamp: Option<Bytes>) returns (h: nat)
    requires LawfulConfig(c) && History(c, events) && TearsNothing(events)
    ensures var (files, first) := (AfterAll(c, server, map[], events), c.embedded + 1);
            && Covers(c, files, h) && Reached(c, server, events) <= h && Faithful(files, server)
            && OfflineWalk(c, files, timestamp, first, []) == ServerWalk(c, server, h, first, [])
            && (OfflineWalk(c, files, timestamp, first, []) == Walk(Roots(c, server, h), Complete)
                <==> ValidUpTo(c, server, h))
  {
    h := HistoryCovers(c, server, events);
    OfflineIsServerWalk(c, AfterAll(c, server, map[], events), timestamp, server, h, c.embedded + 1, []);
    ServerWalkIsRoots(c, server, h, c.embedded + 1);
  }

  /**
   * Right after a walk that ended normally the offline walk returns that walk's own result,
   * whatever was torn before.
   */
  lemma OfflineRepeatsCompleteWalk(
    c: Config, server: Server, events: seq<Event>, env: nat -> Reply, latest: nat, timestamp: Option<Bytes>)
    requires LawfulConfig(c) && History(c, events) && Latest(c, events) <= latest && AppendOnly(env, latest)
    requires OnlineWalk(c, AfterAll(c, server, map[], events), server, env, c.embedded + 1, []).1.end == Complete
    ensures var (files', w) := OnlineWalk(c, AfterAll(c, server, map[], events), server, env, c.embedded + 1, []);
            OfflineWalk(c, files', timestamp, c.embedded + 1, []) == w
  {
    var files := AfterAll(c, server, map[], events);
    var h := HistoryCovers(c, server, events);
    var h' := CompleteWalkHeals(c, files, server, env, latest, c.embedded + 1, [], h);
    var files' := OnlineWalk(c, files, server, env, c.embedded + 1, []).0;
    OfflineIsServerWalk(c, files', timestamp, server, h', c.embedded + 1, []);
  }

  // ---- What exactly is on disk ----

  /** Version `n` is downloaded, cached, accepted and persisted, so that a walk goes on. */
  predicate Passes(c: Config, server: Server, env: nat -> Reply, n: nat)
    requires n > c.embedded
  {
    env(n) == Served(Written, true) && Accepted(c, server, n)
  }

  ghost predicate Requests(c: Config, server: Server, env: nat -> Reply, m: nat) {
    c.embedded < m < Upper(c) && forall i: nat :: c.embedded < i < m ==> Passes(c, server, env, i)
  }

  predicate Stores(r: Reply) {
    r.Served? && (r.disk.Torn? || r.disk.Written?)
  }

  /** How the file of version `m` is written in a walk, if it is. */
  ghost function WalkWrote(c: Config, server: Server, env: nat -> Reply, m: nat): Option<Disk> {
    if Requests(c, server, env, m) && Stores(env(m)) then Some(env(m).disk) else None
  }

  /** What a write of `dt` leaves in the file. */
  function Left(dt: Bytes, disk: Disk): Bytes {
    if disk.Torn? then dt[..Min(disk.k, |dt|)] else dt
  }

  function Lookup(files: Files, n: nat): Option<Bytes> {
    if RootName(n) in files then Some(files[RootName(n)]) else None
  }

  /** One version of the online walk, as far as the cache goes. */
  lemma OnlineStep(c: Config, files: Files, server: Server, env: nat -> Reply, n: nat)
    requires LawfulConfig(c) && c.embedded < n < Upper(c)
    ensures var files' := if Stores(env(n)) then files[RootName(n) := Left(server(n), env(n).disk)] else files;
            OnlineWalk(c, files, server, env, n, Roots(c, server, n - 1)).0
            == if Passes(c, server, env, n) then OnlineWalk(c, files', server, env, n + 1, Roots(c, server, n)).0
               else files'
  {
    if env(n).Served? {
      OnlineRoot(c, files, n, server(n), env(n).disk);
    }
  }

  /** The cache after an online walk, without the URLs. */
  function Stored(c: Config, files: Files, server: Server, env: nat -> Reply, n: nat): Files
    requires n > c.embedded
    decreases Upper(c) - n
  {
    if n >= Upper(c) then files
    else
      var files' := if Stores(env(n)) then files[RootName(n) := Left(server(n), env(n).disk)] else files;
      if Passes(c, server, env, n) then Stored(c, files', server, env, n + 1) else files'
  }

  lemma {:induction false} OnlineWalkStores(c: Config, files: Files, server: Server, env: nat -> Reply, n: nat)
    requires LawfulConfig(c) && c.embedded < n
    ensures OnlineWalk(c, files, server, env, n, Roots(c, server, n - 1)).0 == Stored(c, files, server, env, n)
    decreases Upper(c) - n
  {
    if n < Upper(c) {
      OnlineStep(c, files, server, env, n);
      if Passes(c, server, env, n) {
        OnlineWalkStores(c, files[RootName(n) := server(n)], server, env, n + 1);
      }
    }
  }

  lemma {:induction false} StoredAt(c: Config, files: Files, server: Server, env: nat -> Reply, n: nat, m: nat)
    requires c.embedded < n
    requires forall i: nat :: c.embedded < i < n ==> Passes(c, server, env, i)
    ensures Lookup(Stored(c, files, server, env, n), m)
            == match WalkWrote(c, server, env, m)
               case Some(disk) => if n <= m then Some(Left(server(m), disk)) else Lookup(files, m)
               case None => Lookup(files, m)
    decreases Upper(c) - n
  {
    if n < Upper(c) {
      RootNameInjective(m, n);
      if Passes(c, server, env, n) {
        StoredAt(c, files[RootName(n) := server(n)], server, env, n + 1, m);
      } else {
        assert m > n ==> !Requests(c, server, env, m);
      }
    }
  }

  /** A walk writes exactly the versions it requests, each as the disk allows, and leaves the others alone. */
  lemma WalkStores(c: Config, files: Files, server: Server, env: nat -> Reply, m: nat)
    requires LawfulConfig(c)
    ensures Lookup(OnlineWalk(c, files, server, env, c.embedded + 1, []).0, m)
            == match WalkWrote(c, server, env, m)
               case Some(disk) => Some(Left(server(m), disk))
               case None => Lookup(files, m)
  {
    OnlineWalkStores(c, files, server, env, c.embedded + 1);
    StoredAt(c, files, server, env, c.embedded + 1, m);
  }

  /** How the file of version `m` was last written, if it ever was. */
  ghost function LastWrote(c: Config, server: Server, events: seq<Event>, m: nat): Option<Disk> {
    if events == [] then None
    else
      var before := LastWrote(c, server, events[..|events| - 1], m);
      match events[|events| - 1]
      case RootWalk(env, _) => if WalkWrote(c, server, env, m).Some? then WalkWrote(c, server, env, m) else before
      case OtherDownload(_, _, _) => before
  }

  lemma HarmlessLookup(c: Config, server: Server, files: Files, e: Event, m: nat)
    requires e.OtherDownload? && Harmless(c, e.url)
    ensures Lookup(After(c, server, files, e), m) == Lookup(files, m)
  {}

  /** After any history the file of each version is what its last write left, and absent if there was none. */
  lemma {:induction false} CacheIsLastWrites(c: Config, server: Server, events: seq<Event>, m: nat)
    requires LawfulConfig(c) && History(c, events)
    ensures Lookup(AfterAll(c, server, map[], events), m)
            == match LastWrote(c, server, events, m)
               case Some(disk) => Some(Left(server(m), disk))
               case None => None
  {
    if events != [] {
      var before, e := events[..|events| - 1], events[|events| - 1];
      CacheIsLastWrites(c, server, before, m);
      match e
      case RootWalk(env, _) =>
        WalkStores(c, AfterAll(c, server, map[], before), server, env, m);
      case OtherDownload(_, _, _) =>
        HarmlessLookup(c, server, AfterAll(c, server, map[], before), e, m);
    }
  }

  /** Only versions whose predecessors all passed go-tuf's check are ever written. */
  lemma {:induction false} WrittenIsChecked(c: Config, server: Server, events: seq<Event>, m: nat)
    requires LastWrote(c, server, events, m).Some?
    ensures c.embedded < m && ValidUpTo(c, server, m - 1)
  {
    var before, e := events[..|events| - 1], events[|events| - 1];
    if e.RootWalk? && WalkWrote(c, server, e.env, m).Some? {
      forall i: nat | c.embedded < i <= m - 1
        ensures Accepted(c, server, i)
      {
        assert Passes(c, server, e.env, i);
      }
    } else {
      WrittenIsChecked(c, server, before, m);
    }
  }

  // ---- Exactly when the cache replays ----

  /** The write failed and left less than the whole root. */
  predicate TornShort(disk: Option<Disk>, dt: Bytes) {
    disk.Some? && disk.value.Torn? && disk.value.k < |dt|
  }

  /** No cached root differs from the server's exactly when no last write was torn short. */
  lemma FaithfulExactly(c: Config, server: Server, events: seq<Event>)
    requires LawfulConfig(c) && History(c, events)
    ensures Faithful(AfterAll(c, server, map[], events), server)
            <==> forall m: nat :: !TornShort(LastWrote(c, server, events, m), server(m))
  {
    var files := AfterAll(c, server, map[], events);
    forall m: nat
      ensures FaithfulAt(files, server, m) <==> !TornShort(LastWrote(c, server, events, m), server(m))
    {
      CacheIsLastWrites(c, server, events, m);
    }
  }

  /** Version `m` is cached with other bytes than the server's, and go-tuf would not reject both. */
  predicate Diverges(c: Config, files: Files, server: Server, m: nat)
    requires m > c.embedded
  {
    && !FaithfulAt(files, server, m)
    && (Accepted(c, server, m) || c.accepts(Roots(c, server, m - 1), files[RootName(m)]))
  }

  lemma {:induction false} CacheWalkExtends(c: Config, files: Files, env: nat -> Reply, n: nat, chain: seq<Bytes>)
    ensures chain <= CacheWalk(c, files, env, n, chain).chain
    decreases Upper(c) - n
  {
    if n < Upper(c) && RootName(n) in files {
      CacheWalkExtends(c, files, env, n + 1, chain + [files[RootName(n)]]);
    }
  }

  lemma {:induction false} ServerWalkExtends(c: Config, server: Server, h: nat, n: nat, chain: seq<Bytes>)
    ensures chain <= ServerWalk(c, server, h, n, chain).chain
    decreases Upper(c) - n
  {
    if n < Upper(c) {
      ServerWalkExtends(c, server, h, n + 1, chain + [server(n)]);
    }
  }

  lemma ExtensionsDiffer(chain: seq<Bytes>, a: Bytes, b: Bytes, r: seq<Bytes>)
    requires a != b && chain + [a] <= r
    ensures !(chain + [b] <= r) && r != chain
  {
    assert (chain + [a])[|chain|] == a && (chain + [b])[|chain|] == b;
  }

  /** Where the cached bytes diverge the two walks part. */
  lemma WalksPart(c: Config, files: Files, server: Server, h: nat, n: nat)
    requires Covers(c, files, h) && c.embedded < n <= h && Diverges(c, files, server, n)
    ensures var chain := Roots(c, server, n - 1);
            CacheWalk(c, files, HEALTHY, n, chain).chain != ServerWalk(c, server, h, n, chain).chain
  {
    var (chain, dt) := (Roots(c, server, n - 1), files[RootName(n)]);
    CacheWalkExtends(c, files, HEALTHY, n + 1, chain + [dt]);
    ServerWalkExtends(c, server, h, n + 1, chain + [server(n)]);
    if c.accepts(chain, dt) {
      ExtensionsDiffer(chain, dt, server(n), CacheWalk(c, files, HEALTHY, n, chain).chain);
    } else {
      ExtensionsDiffer(chain, server(n), dt, ServerWalk(c, server, h, n, chain).chain);
    }
  }

  /** Where they do not diverge the walks go on together, or stop together. */
  lemma WalksStayTogether(c: Config, files: Files, server: Server, h: nat, n: nat)
    requires Covers(c, files, h) && c.embedded < n <= h && !Diverges(c, files, server, n)
    ensures var (chain, chain') := (Roots(c, server, n - 1), Roots(c, server, n));
            if Accepted(c, server, n) then
              && CacheWalk(c, files, HEALTHY, n, chain) == CacheWalk(c, files, HEALTHY, n + 1, chain')
              && ServerWalk(c, server, h, n, chain) == ServerWalk(c, server, h, n + 1, chain')
            else CacheWalk(c, files, HEALTHY, n, chain) == ServerWalk(c, server, h, n, chain)
  {}

  lemma {:induction false} WalksAgree(c: Config, files: Files, server: Server, h: nat, n: nat)
    requires Covers(c, files, h) && c.embedded < n
    requires forall m: nat :: n <= m <= h ==> !Diverges(c, files, server, m)
    ensures var chain := Roots(c, server, n - 1);
            CacheWalk(c, files, HEALTHY, n, chain) == ServerWalk(c, server, h, n, chain)
    decreases Upper(c) - n
  {
    if n <= h {
      WalksStayTogether(c, files, server, h, n);
      if Accepted(c, server, n) {
        WalksAgree(c, files, server, h, n + 1);
      }
    }
  }

  lemma {:induction false} WalksDiffer(c: Config, files: Files, server: Server, h: nat, n: nat, m: nat)
    requires Covers(c, files, h) && c.embedded < n <= m <= h
    requires forall i: nat :: n <= i < m ==> Accepted(c, server, i)
    requires Diverges(c, files, server, m)
    ensures var chain := Roots(c, server, n - 1);
            CacheWalk(c, files, HEALTHY, n, chain) != ServerWalk(c, server, h, n, chain)
    decreases m - n
  {
    if Diverges(c, files, server, n) {
      WalksPart(c, files, server, h, n);
    } else {
      WalksStayTogether(c, files, server, h, n);
      WalksDiffer(c, files, server, h, n + 1, m);
    }
  }

  lemma WalksAgreeExactly(c: Config, files: Files, timestamp: Option<Bytes>, server: Server, h: nat)
    requires LawfulConfig(c) && Covers(c, files, h)
    requires forall i: nat :: c.embedded < i < h ==> Accepted(c, server, i)
    ensures OfflineWalk(c, files, timestamp, c.embedded + 1, []) == ServerWalk(c, server, h, c.embedded + 1, [])
            <==> forall m: nat :: c.embedded < m <= h ==> !Diverges(c, files, server, m)
  {
    OfflineIsCacheWalk(c, files, timestamp, c.embedded + 1, []);
    if m: nat :| c.embedded < m <= h && Diverges(c, files, server, m) {
      WalksDiffer(c, files, server, h, c.embedded + 1, m);
    } else {
      WalksAgree(c, files, server, h, c.embedded + 1);
    }
  }

  /**
   * If the server's chain is valid up to the highest cached version, the offline walk repeats it
   * if and only if no cached root was left torn.
   */
  lemma ReplaysExactlyWhenFaithful(c: Config, files: Files, timestamp: Option<Bytes>, server: Server, h: nat)
    requires LawfulConfig(c) && Covers(c, files, h)
    requires ServerWalk(c, server, h, c.embedded + 1, []).end == Complete
    ensures OfflineWalk(c, files, timestamp, c.embedded + 1, []) == ServerWalk(c, server, h, c.embedded + 1, [])
            <==> Faithful(files, server)
  {
    ServerWalkIsRoots(c, server, h, c.embedded + 1);
    WalksAgreeExactly(c, files, timestamp, server, h);
    forall m: nat
      ensures FaithfulAt(files, server, m) <==> !(c.embedded < m <= h && Diverges(c, files, server, m))
    {
      assert RootName(m) in files <==> c.embedded < m <= h;
    }
  }

  /** The last write of version `m` was torn short, and go-tuf would not reject both the whole and the piece. */
  ghost predicate TearMatters(c: Config, server: Server, events: seq<Event>, m: nat)
    requires m > c.embedded
  {
    var disk := LastWrote(c, server, events, m);
    && TornShort(disk, server(m))
    && (Accepted(c, server, m) || c.accepts(Roots(c, server, m - 1), server(m)[..disk.value.k]))
  }

  /**
   * After any history at all, with torn writes and a server whose roots may be rejected, the
   * offline walk repeats the server's exactly when no last write of a root was torn short in a
   * way that matters. A later whole write of the same version heals it.
   */
  lemma ReplaysExactlyWhenUntorn(c: Config, server: Server, events: seq<Event>, timestamp: Option<Bytes>)
    returns (h: nat)
    requires LawfulConfig(c) && History(c, events)
    ensures var (files, first) := (AfterAll(c, server, map[], events), c.embedded + 1);
            && Covers(c, files, h) && Reached(c, server, events) <= h
            && (OfflineWalk(c, files, timestamp, first, []) == ServerWalk(c, server, h, first, [])
                <==> forall m: nat :: m > c.embedded ==> !TearMatters(c, server, events, m))
  {
    h := HistoryCovers(c, server, events);
    var files := AfterAll(c, server, map[], events);
    CacheIsLastWrites(c, server, events, h);
    if h > c.embedded {
      WrittenIsChecked(c, server, events, h);
    }
    WalksAgreeExactly(c, files, timestamp, server, h);
    forall m: nat | m > c.embedded
      ensures m <= h && Diverges(c, files, server, m) <==> TearMatters(c, server, events, m)
    {
      CacheIsLastWrites(c, server, events, m);
      assert RootName(m) in files <==> m <= h;
    }
  }

  /** A write torn short leaves the cache unfaithful. */
  lemma TornWriteIsUnfaithful(c: Config, files: Files, server: Server, n: nat, k: nat)
    requires LawfulConfig(c) && k < |server(n)|
    ensures var (files', r) := OnlineDownload(c, files, RootURL(c.base, n), Success(server(n)), Torn(k));
            r == Failure(Local) && !FaithfulAt(files', server, n)
  {
    OnlineRoot(c, files, n, server(n), Torn(k));
  }

  /** Every version up to `n` is served and accepted, but the write of the last one is torn. */
  function TornAt(n: nat, k: nat): nat -> Reply {
    m => if m < n then Served(Written, true) else if m == n then Served(Torn(k), true) else Missing
  }

  /**
   * "After any sequence of interrupted walks the offline walk repeats the server's" is false: for
   * every valid server, one walk from the empty cache whose last write is torn short is a history
   * after which it does not.
   */
  lemma TornWriteBreaksReplay(c: Config, server: Server, n: nat, k: nat, timestamp: Option<Bytes>) returns (h: nat)
    requires LawfulConfig(c) && c.embedded < n < Upper(c) && k < |server(n)| && ValidUpTo(c, server, n)
    ensures var (events, first) := ([RootWalk(TornAt(n, k), n)], c.embedded + 1);
            var files := AfterAll(c, server, map[], events);
            && History(c, events) && Covers(c, files, h)
            && OfflineWalk(c, files, timestamp, first, []) != ServerWalk(c, server, h, first, [])
  {
    var events := [RootWalk(TornAt(n, k), n)];
    assert events[..0] == [] && History(c, []);
    forall i: nat | c.embedded < i < n
      ensures Passes(c, server, TornAt(n, k), i)
    {
      assert Accepted(c, server, i);
    }
    assert WalkWrote(c, server, TornAt(n, k), n) == Some(Torn(k));
    assert LastWrote(c, server, events, n) == Some(Torn(k));
    assert TearMatters(c, server, events, n);
    h := ReplaysExactlyWhenUntorn(c, server, events, timestamp);
  }

  // ---- Why the other downloads must be harmless, and the base must not end in a slash ----

  /**
   * Online the cache key is only the last path element, offline the whole URL is compared: a
   * file elsewhere on the server with a root's name replaces that root, and is not found itself.
   */
  lemma ForeignFileReplacesRoot(c: Config, files: Files, timestamp: Option<Bytes>, url: string, n: nat, dt: Bytes)
    requires LawfulConfig(c) && url != RootURL(c.base, n)
    requires c.parse(url).Some?
    requires PathBase(c.parse(url).value) == RootName(n) && HasSuffix(c.parse(url).value, ROOT_SUFFIX)
    requires url != c.base + "/timestamp.json"
    ensures var (files', r) := OnlineDownload(c, files, url, Success(dt), Written);
            && r == Success(dt)
            && OfflineDownload(c, files', timestamp, RootURL(c.base, n), Written) == Success(dt)
            && OfflineDownload(c, files', timestamp, url, Written) == Failure(NotFound)
  {
    var files' := OnlineDownload(c, files, url, Success(dt), Written).0;
    OfflineRoot(c, files', timestamp, n, Written);
    KeysAgree(c, n);
  }

  /** A cached root is found offline if and only if the base URL does not end in a slash. */
  lemma OfflineNeedsPlainBase(c: Config, files: Files, timestamp: Option<Bytes>, n: nat)
    requires c.parse(RootURL(c.base, n)) == Some(c.prefix + "/" + RootName(n))
    requires RootName(n) in files
    ensures OfflineDownload(c, files, timestamp, RootURL(c.base, n), Written)
            == if HasSuffix(c.base, "/") then Failure(NotFound) else Success(files[RootName(n)])
  {
    RootPath(c.prefix, n);
    RootNameShape(n);
    SuffixOfConcat(c.base, RootName(n), ROOT_SUFFIX);
    SuffixOfConcat(c.base + "/", RootName(n), ROOT_SUFFIX);
    NotTimestamp(c.base, n);
  }
}
