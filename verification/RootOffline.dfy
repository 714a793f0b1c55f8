/** What local failures do to an offline walk: which of them matter, and what they leave of it. */
module RootOffline {
  import opened Wrappers
  import opened Hex
  import opened RootCache
  import opened RootReplay

  // ---- Where a healthy offline walk ends ----

  /** The version at which a walk from `n` stopped. */
  function Top(w: Walk, n: nat, chain: seq<Bytes>): int {
    n + |w.chain| - |chain|
  }

  /** It ends on 404 or a rejection, never on an error, and rejects exactly when its last version is cached. */
  lemma {:induction false} CacheWalkEnds(c: Config, files: Files, n: nat, chain: seq<Bytes>)
    requires n <= Upper(c)
    ensures var w := CacheWalk(c, files, HEALTHY, n, chain);
            var top := Top(w, n, chain);
            && chain <= w.chain && n <= top <= Upper(c) && !w.end.Aborted?
            && (w.end == Rejected <==> top < Upper(c) && RootName(top) in files)
            && (forall i: nat :: n <= i < top ==> RootName(i) in files)
    decreases Upper(c) - n
  {
    if n < Upper(c) {
      if RootName(n) in files && c.accepts(chain, files[RootName(n)]) {
        CacheWalkEnds(c, files, n + 1, chain + [files[RootName(n)]]);
      }
    }
  }

  // ---- Which failures matter ----

  /**
   * A failure at version `m` that a walk stopping at `top` runs into: the cache directory does not
   * open, a file that is there does not read, or an accepted root is not persisted.
   */
  predicate Hinders(c: Config, files: Files, env: nat -> Reply, top: int, m: nat) {
    && c.embedded < m <= top && m < Upper(c)
    && (|| DiskOf(env(m)).NoCache?
        || (DiskOf(env(m)).NotOpened? && RootName(m) in files)
        || (m < top && !Persists(env(m))))
  }

  /** What is left of walk `w` when version number `k` of it meets such a failure. */
  function Cut(w: Walk, disk: Disk, k: nat): Walk
    requires k < |w.chain| || (k == |w.chain| && (disk.NoCache? || disk.NotOpened?))
  {
    if disk.NoCache? then Walk(w.chain[..k], Aborted(Local))
    else if disk.NotOpened? then Walk(w.chain[..k], Complete)
    else Walk(w.chain[..k + 1], Aborted(Local))
  }

  /** Short of the healthy walk's end, a version that nothing hinders takes both walks on. */
  lemma BothGoOn(c: Config, files: Files, env: nat -> Reply, n: nat, chain: seq<Bytes>)
    requires c.embedded < n < Upper(c)
    requires var top := Top(CacheWalk(c, files, HEALTHY, n, chain), n, chain);
             n < top && !Hinders(c, files, env, top, n)
    ensures RootName(n) in files
    ensures var chain' := chain + [files[RootName(n)]];
            && CacheWalk(c, files, env, n, chain) == CacheWalk(c, files, env, n + 1, chain')
            && CacheWalk(c, files, HEALTHY, n, chain) == CacheWalk(c, files, HEALTHY, n + 1, chain')
  {
    CacheWalkEnds(c, files, n, chain);
  }

  /** At the healthy walk's end, if nothing hinders there, both stop. */
  lemma BothStop(c: Config, files: Files, env: nat -> Reply, n: nat, chain: seq<Bytes>)
    requires c.embedded < n <= Upper(c)
    requires var top := Top(CacheWalk(c, files, HEALTHY, n, chain), n, chain);
             n == top && !Hinders(c, files, env, top, n)
    ensures CacheWalk(c, files, env, n, chain) == CacheWalk(c, files, HEALTHY, n, chain)
  {
    if n < Upper(c) {
      if RootName(n) in files && c.accepts(chain, files[RootName(n)]) {
        CacheWalkEnds(c, files, n + 1, chain + [files[RootName(n)]]);
        assert false;
      }
    }
  }

  lemma {:induction false} UnhinderedWalk(
    c: Config, files: Files, env: nat -> Reply, n: nat, chain: seq<Bytes>)
    requires c.embedded < n <= Upper(c)
    requires var top := Top(CacheWalk(c, files, HEALTHY, n, chain), n, chain);
             forall m: nat :: n <= m ==> !Hinders(c, files, env, top, m)
    ensures CacheWalk(c, files, env, n, chain) == CacheWalk(c, files, HEALTHY, n, chain)
    decreases Upper(c) - n
  {
    CacheWalkEnds(c, files, n, chain);
    var top := Top(CacheWalk(c, files, HEALTHY, n, chain), n, chain);
    assert !Hinders(c, files, env, top, n);
    if n == top {
      BothStop(c, files, env, n, chain);
    } else {
      BothGoOn(c, files, env, n, chain);
      UnhinderedWalk(c, files, env, n + 1, chain + [files[RootName(n)]]);
    }
  }

  lemma CutHere(c: Config, files: Files, env: nat -> Reply, n: nat, chain: seq<Bytes>)
    requires c.embedded < n < Upper(c)
    requires Hinders(c, files, env, Top(CacheWalk(c, files, HEALTHY, n, chain), n, chain), n)
    ensures var w := CacheWalk(c, files, HEALTHY, n, chain);
            && |chain| <= |w.chain|
            && (|chain| == |w.chain| ==> DiskOf(env(n)).NoCache? || DiskOf(env(n)).NotOpened?)
            && CacheWalk(c, files, env, n, chain) == Cut(w, DiskOf(env(n)), |chain|)
  {
    CacheWalkEnds(c, files, n, chain);
    if RootName(n) in files && c.accepts(chain, files[RootName(n)]) {
      CacheWalkEnds(c, files, n + 1, chain + [files[RootName(n)]]);
    }
  }

  /** Up to the first failure that matters the walk goes on as if the local files were healthy. */
  lemma {:induction false} HinderedWalk(
    c: Config, files: Files, env: nat -> Reply, n: nat, chain: seq<Bytes>, m: nat)
    requires c.embedded < n <= m < Upper(c)
    requires var top := Top(CacheWalk(c, files, HEALTHY, n, chain), n, chain);
             && Hinders(c, files, env, top, m)
             && (forall i: nat :: n <= i < m ==> !Hinders(c, files, env, top, i))
    ensures var (w, k) := (CacheWalk(c, files, HEALTHY, n, chain), |chain| + m - n);
            && k <= |w.chain|
            && (k == |w.chain| ==> DiskOf(env(m)).NoCache? || DiskOf(env(m)).NotOpened?)
            && CacheWalk(c, files, env, n, chain) == Cut(w, DiskOf(env(m)), k)
    decreases m - n
  {
    if n == m {
      CutHere(c, files, env, n, chain);
    } else {
      assert !Hinders(c, files, env, Top(CacheWalk(c, files, HEALTHY, n, chain), n, chain), n);
      BothGoOn(c, files, env, n, chain);
      HinderedWalk(c, files, env, n + 1, chain + [files[RootName(n)]], m);
    }
  }

  lemma {:induction false} FirstHindrance(c: Config, files: Files, env: nat -> Reply, top: int, m: nat) returns (l: nat)
    requires Hinders(c, files, env, top, m)
    ensures Hinders(c, files, env, top, l) && forall i: nat :: i < l ==> !Hinders(c, files, env, top, i)
  {
    l := m;
    if i: nat :| i < m && Hinders(c, files, env, top, i) {
      l := FirstHindrance(c, files, env, top, i);
    }
  }

  /** A cut walk is never the whole one. */
  lemma CutDiffers(c: Config, files: Files, env: nat -> Reply, m: nat)
    requires Hinders(c, files, env, Top(CacheWalk(c, files, HEALTHY, c.embedded + 1, []), c.embedded + 1, []), m)
    ensures var (w, k) := (CacheWalk(c, files, HEALTHY, c.embedded + 1, []), m - c.embedded - 1);
            && (k < |w.chain| || (k == |w.chain| && (DiskOf(env(m)).NoCache? || DiskOf(env(m)).NotOpened?)))
            && Cut(w, DiskOf(env(m)), k) != w
  {
    CacheWalkEnds(c, files, c.embedded + 1, []);
  }

  /** The walk from the embedded root with healthy local files, and the version at which it stops. */
  function Healthy(c: Config, files: Files, timestamp: Option<Bytes>): Walk {
    OfflineWalk(c, files, timestamp, c.embedded + 1, [])
  }

  function Stop(c: Config, w: Walk): int {
    Top(w, c.embedded + 1, [])
  }

  /** `w'` is what the failure at version `m`, the first that hinders `w`, leaves of it. */
  ghost predicate CutBy(c: Config, files: Files, env: nat -> Reply, w: Walk, w': Walk, m: nat) {
    && Hinders(c, files, env, Stop(c, w), m)
    && (forall i: nat :: i < m ==> !Hinders(c, files, env, Stop(c, w), i))
    && var (disk, k) := (DiskOf(env(m)), m - c.embedded - 1);
    && (k < |w.chain| || (k == |w.chain| && (disk.NoCache? || disk.NotOpened?)))
    && w' == Cut(w, disk, k)
  }

  lemma CacheFailuresDecide(c: Config, files: Files, env: nat -> Reply) returns (m: nat)
    ensures var w := CacheWalk(c, files, HEALTHY, c.embedded + 1, []);
            var w' := CacheWalk(c, files, env, c.embedded + 1, []);
            && (w' == w <==> forall i: nat :: !Hinders(c, files, env, Stop(c, w), i))
            && (w' != w ==> CutBy(c, files, env, w, w', m))
  {
    m := 0;
    var top := Stop(c, CacheWalk(c, files, HEALTHY, c.embedded + 1, []));
    if i: nat :| Hinders(c, files, env, top, i) {
      m := FirstHindrance(c, files, env, top, i);
      HinderedWalk(c, files, env, c.embedded + 1, [], m);
      CutDiffers(c, files, env, m);
    } else {
      UnhinderedWalk(c, files, env, c.embedded + 1, []);
    }
  }

  /**
   * An offline walk is the healthy one if and only if no local failure hinders it. Otherwise the
   * first that does decides: a file that does not read ends the walk normally, on a chain that is
   * silently shorter, and the other failures end it with an error.
   */
  lemma LocalFailuresDecideExactly(c: Config, files: Files, timestamp: Option<Bytes>, env: nat -> Reply)
    returns (m: nat)
    requires LawfulConfig(c)
    ensures var (w, w') := (Healthy(c, files, timestamp), LocalWalk(c, files, timestamp, env, c.embedded + 1, []));
            && (w' == w <==> forall i: nat :: !Hinders(c, files, env, Stop(c, w), i))
            && (w' != w ==> CutBy(c, files, env, w, w', m))
  {
    LocalIsCacheWalk(c, files, timestamp, env, c.embedded + 1, []);
    OfflineIsCacheWalk(c, files, timestamp, c.embedded + 1, []);
    m := CacheFailuresDecide(c, files, env);
  }

  // ---- Replay under local failures ----

  /** A walk cut short is not the server's either: the server's would go past the file that did not read. */
  lemma CutIsNotServerWalk(c: Config, files: Files, timestamp: Option<Bytes>, env: nat -> Reply, server: Server, h: nat)
    requires LawfulConfig(c) && Covers(c, files, h)
    requires LocalWalk(c, files, timestamp, env, c.embedded + 1, []) != Healthy(c, files, timestamp)
    ensures LocalWalk(c, files, timestamp, env, c.embedded + 1, []) != ServerWalk(c, server, h, c.embedded + 1, [])
  {
    var m := LocalFailuresDecideExactly(c, files, timestamp, env);
    OfflineIsCacheWalk(c, files, timestamp, c.embedded + 1, []);
    CacheWalkEnds(c, files, c.embedded + 1, []);
    ServerWalkIsRoots(c, server, h, c.embedded + 1);
    CountRoots(c, server, h);
    assert RootName(m) in files <==> c.embedded < m <= h;
  }

  /**
   * After any history at all, an offline walk under any local failures repeats the server's if and
   * only if no last write of a root was torn short in a way that matters and no local failure
   * hinders the walk: every version it asks for opens and reads, every one it accepts persists.
   */
  lemma ReplaysExactlyUnhindered(
    c: Config, server: Server, events: seq<Event>, timestamp: Option<Bytes>, env: nat -> Reply) returns (h: nat)
    requires LawfulConfig(c) && History(c, events)
    ensures var (files, first) := (AfterAll(c, server, map[], events), c.embedded + 1);
            var w := ServerWalk(c, server, h, first, []);
            && Covers(c, files, h) && Reached(c, server, events) <= h
            && (LocalWalk(c, files, timestamp, env, first, []) == w
                <==> && (forall m: nat :: m > c.embedded ==> !TearMatters(c, server, events, m))
                     && (forall m: nat :: !Hinders(c, files, env, Stop(c, w), m)))
  {
    h := ReplaysExactlyWhenUntorn(c, server, events, timestamp);
    var files := AfterAll(c, server, map[], events);
    var m := LocalFailuresDecideExactly(c, files, timestamp, env);
    if LocalWalk(c, files, timestamp, env, c.embedded + 1, []) != Healthy(c, files, timestamp) {
      CutIsNotServerWalk(c, files, timestamp, env, server, h);
    }
  }
}
