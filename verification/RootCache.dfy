/**
 * `airgappedFetcher` in `roots/roots.go`: caching the TUF root chain while online so that the
 * walk of section 5.3 of the TUF specification can be repeated offline.
 */
module RootCache {
  import opened Wrappers
  import opened Hex
  import opened Text
  import opened Decimal

  const ROOT_SUFFIX := ".root.json"
  const MAX_ROOT_ROTATIONS: nat := 256

  type Files = map<string, Bytes>

  /**
   * How far the local side of a download gets; a torn write leaves the first `k` bytes. Offline,
   * where nothing is written, `NoCache` means that the cache directory does not open and
   * `NotOpened` that a file which is there does not read.
   */
  datatype Disk = NoCache | NoDirectory | NotOpened | Torn(k: nat) | Written

  datatype DownloadError = NotFound | Network | BadURL | Local

  /**
   * `base` is the repository URL; `parse` gives the path of a URL; `accepts` is go-tuf's check
   * of a new root against the chain so far; `embedded` is the version of the embedded root.
   */
  datatype Config = Config(
    base: string, parse: string -> Option<string>, prefix: string,
    accepts: (seq<Bytes>, Bytes) -> bool, embedded: nat)

  // ---- path.Base and the root URLs ----

  function StripSlashes(p: string): string {
    if p != "" && p[|p| - 1] == '/' then StripSlashes(p[..|p| - 1]) else p
  }

  function AfterLastSlash(p: string): string {
    if p == "" || p[|p| - 1] == '/' then "" else AfterLastSlash(p[..|p| - 1]) + [p[|p| - 1]]
  }

  /** `path.Base`. */
  function PathBase(p: string): string {
    if p == "" then "."
    else if StripSlashes(p) == "" then "/"
    else AfterLastSlash(StripSlashes(p))
  }

  function RootName(n: nat): string {
    Digits(n) + ROOT_SUFFIX
  }

  /** go-tuf's URL of root version `n`: a slash is added only if the base does not end in one. */
  function RootURL(base: string, n: nat): string {
    (if HasSuffix(base, "/") then base else base + "/") + RootName(n)
  }

  /** `url.Parse` on the root URLs: the path is some prefix, a slash and the name. */
  ghost predicate LawfulConfig(c: Config) {
    && !HasSuffix(c.base, "/")
    && (forall n: nat :: c.parse(RootURL(c.base, n)) == Some(c.prefix + "/" + RootName(n)))
  }

  lemma {:induction false} AfterLastSlashOf(p: string, name: string)
    requires '/' !in name
    ensures AfterLastSlash(p + "/" + name) == name
  {
    var s := p + "/" + name;
    if name != "" {
      assert s[..|s| - 1] == p + "/" + name[..|name| - 1];
      AfterLastSlashOf(p, name[..|name| - 1]);
      assert name == name[..|name| - 1] + [name[|name| - 1]];
    }
  }

  lemma RootNameShape(n: nat)
    ensures '/' !in RootName(n) && HasSuffix(RootName(n), ROOT_SUFFIX) && |RootName(n)| > |ROOT_SUFFIX|
  {
    assert RootName(n)[|Digits(n)|..] == ROOT_SUFFIX;
    assert forall c :: c in Digits(n) ==> IsDigit(c);
    assert '/' !in ROOT_SUFFIX;
  }

  lemma RootNameInjective(m: nat, n: nat)
    ensures RootName(m) == RootName(n) ==> m == n
  {
    ValueOfDigits(m);
    ValueOfDigits(n);
    assert RootName(m)[..|RootName(m)| - |ROOT_SUFFIX|] == Digits(m);
    assert RootName(n)[..|RootName(n)| - |ROOT_SUFFIX|] == Digits(n);
  }

  lemma SuffixOfConcat(a: string, b: string, suffix: string)
    requires HasSuffix(b, suffix)
    ensures HasSuffix(a + b, suffix)
  {
    assert (a + b)[|a + b| - |suffix|..] == b[|b| - |suffix|..];
  }

  /** The last element of a root's path is its name. */
  lemma RootPath(prefix: string, n: nat)
    ensures var path := prefix + "/" + RootName(n);
            HasSuffix(path, ROOT_SUFFIX) && PathBase(path) == RootName(n)
  {
    RootNameShape(n);
    var path := prefix + "/" + RootName(n);
    assert path == (prefix + "/") + RootName(n);
    SuffixOfConcat(prefix + "/", RootName(n), ROOT_SUFFIX);
    AfterLastSlashOf(prefix, RootName(n));
    assert path[|path| - 1] == RootName(n)[|RootName(n)| - 1];
    assert StripSlashes(path) == path;
  }

  lemma NotTimestamp(base: string, n: nat)
    ensures base + "/" + RootName(n) != base + "/timestamp.json"
    ensures HasSuffix(base, "/") ==> base + RootName(n) != base + "/timestamp.json"
  {
    assert IsDigit(Digits(n)[0]);
    assert (base + "/" + RootName(n))[|base| + 1] == RootName(n)[0] == Digits(n)[0];
    assert (base + RootName(n))[|base|] == Digits(n)[0];
    assert (base + "/timestamp.json")[|base| + 1] == 't' && (base + "/timestamp.json")[|base|] == '/';
  }

  /**
   * For every version the name a root is cached under online and the name it is looked up by
   * offline agree, and the URL is not mistaken for the timestamp's.
   */
  lemma KeysAgree(c: Config, n: nat)
    requires LawfulConfig(c)
    ensures var path := c.parse(RootURL(c.base, n)).value;
            HasSuffix(path, ROOT_SUFFIX) && PathBase(path) == RootName(n)
    ensures HasSuffix(RootURL(c.base, n), ROOT_SUFFIX) && RootURL(c.base, n) == c.base + "/" + RootName(n)
    ensures RootURL(c.base, n) != c.base + "/timestamp.json"
  {
    RootPath(c.prefix, n);
    RootNameShape(n);
    SuffixOfConcat(c.base + "/", RootName(n), ROOT_SUFFIX);
    NotTimestamp(c.base, n);
  }

  // ---- DownloadFile ----

  function Min(a: nat, b: nat): nat {
    if a < b then a else b
  }

  /** The cache and the answer after a download while online. */
  function OnlineDownload(c: Config, files: Files, url: string, net: Result<Bytes, DownloadError>, disk: Disk)
    : (Files, Result<Bytes, DownloadError>)
  {
    match net
    case Failure(e) => (files, Failure(e))
    case Success(dt) =>
      match c.parse(url)
      case None => (files, Failure(BadURL))
      case Some(path) =>
        if disk.NoCache? then (files, Failure(Local))
        else if !HasSuffix(path, ROOT_SUFFIX) then (files, Success(dt))
        else match disk
          case Torn(k) => (files[PathBase(path) := dt[..Min(k, |dt|)]], Failure(Local))
          case Written => (files[PathBase(path) := dt], Success(dt))
          case _ => (files, Failure(Local))
  }

  /** The answer of a download while offline; a file that does not read is answered like a missing one. */
  function OfflineDownload(c: Config, files: Files, timestamp: Option<Bytes>, url: string, disk: Disk)
    : Result<Bytes, DownloadError>
  {
    if url == c.base + "/timestamp.json" && disk.NoCache? then Failure(Local)
    else if url == c.base + "/timestamp.json" && timestamp.Some? && !disk.NotOpened? then Success(timestamp.value)
    else if HasSuffix(url, ROOT_SUFFIX) && c.parse(url).Some? then
      var base := PathBase(c.parse(url).value);
      if url == c.base + "/" + base && HasSuffix(base, ROOT_SUFFIX) then
        if disk.NoCache? then Failure(Local)
        else if base in files && !disk.NotOpened? then Success(files[base])
        else Failure(NotFound)
      else Failure(NotFound)
    else Failure(NotFound)
  }

  /** Online, a served root is cached under its version's name and nothing else changes. */
  lemma OnlineRoot(c: Config, files: Files, n: nat, dt: Bytes, disk: Disk)
    requires LawfulConfig(c)
    ensures OnlineDownload(c, files, RootURL(c.base, n), Success(dt), disk)
            == match disk
               case Torn(k) => (files[RootName(n) := dt[..Min(k, |dt|)]], Failure(Local))
               case Written => (files[RootName(n) := dt], Success(dt))
               case _ => (files, Failure(Local))
  {
    KeysAgree(c, n);
  }

  /** Offline, a root is answered from the cache by its version alone, if the file reads. */
  lemma OfflineRoot(c: Config, files: Files, timestamp: Option<Bytes>, n: nat, disk: Disk)
    requires LawfulConfig(c)
    ensures OfflineDownload(c, files, timestamp, RootURL(c.base, n), disk)
            == if disk.NoCache? then Failure(Local)
               else if RootName(n) in files && !disk.NotOpened? then Success(files[RootName(n)])
               else Failure(NotFound)
  {
    KeysAgree(c, n);
    RootNameShape(n);
  }

  // ---- The walk of section 5.3, as go-tuf's loadRoot makes it ----

  datatype End = Complete | Rejected | Aborted(e: DownloadError)

  datatype Walk = Walk(chain: seq<Bytes>, end: End)

  /**
   * What happens when version `n` is requested: how far the cache's files cooperate, and whether
   * go-tuf can persist the root after accepting it.
   */
  datatype Reply = Served(disk: Disk, persists: bool) | Missing | Broken

  function Upper(c: Config): nat {
    c.embedded + 1 + MAX_ROOT_ROTATIONS
  }

  function NetReply(server: nat -> Bytes, env: nat -> Reply, n: nat): (Result<Bytes, DownloadError>, Disk) {
    match env(n)
    case Served(disk, _) => (Success(server(n)), disk)
    case Missing => (Failure(NotFound), Written)
    case Broken => (Failure(Network), Written)
  }

  predicate Persists(r: Reply) {
    r.Served? ==> r.persists
  }

  function OnlineWalk(c: Config, files: Files, server: nat -> Bytes, env: nat -> Reply, n: nat, chain: seq<Bytes>)
    : (Files, Walk)
    decreases Upper(c) - n
  {
    if n >= Upper(c) then (files, Walk(chain, Complete))
    else
      var (net, disk) := NetReply(server, env, n);
      var (files', r) := OnlineDownload(c, files, RootURL(c.base, n), net, disk);
      match r
      case Failure(e) => (files', Walk(chain, if e == NotFound then Complete else Aborted(e)))
      case Success(dt) =>
        if !c.accepts(chain, dt) then (files', Walk(chain, Rejected))
        else if !Persists(env(n)) then (files', Walk(chain + [dt], Aborted(Local)))
        else OnlineWalk(c, files', server, env, n + 1, chain + [dt])
  }

  /** The offline walk while the local files cooperate. */
  function OfflineWalk(c: Config, files: Files, timestamp: Option<Bytes>, n: nat, chain: seq<Bytes>): Walk
    decreases Upper(c) - n
  {
    if n >= Upper(c) then Walk(chain, Complete)
    else match OfflineDownload(c, files, timestamp, RootURL(c.base, n), Written)
      case Failure(e) => Walk(chain, if e == NotFound then Complete else Aborted(e))
      case Success(dt) =>
        if !c.accepts(chain, dt) then Walk(chain, Rejected)
        else OfflineWalk(c, files, timestamp, n + 1, chain + [dt])
  }

  function DiskOf(r: Reply): Disk {
    if r.Served? then r.disk else Written
  }

  /** The offline walk whatever the local files do, which is all that `env` tells here. */
  function LocalWalk(
    c: Config, files: Files, timestamp: Option<Bytes>, env: nat -> Reply, n: nat, chain: seq<Bytes>): Walk
    decreases Upper(c) - n
  {
    if n >= Upper(c) then Walk(chain, Complete)
    else match OfflineDownload(c, files, timestamp, RootURL(c.base, n), DiskOf(env(n)))
      case Failure(e) => Walk(chain, if e == NotFound then Complete else Aborted(e))
      case Success(dt) =>
        if !c.accepts(chain, dt) then Walk(chain, Rejected)
        else if !Persists(env(n)) then Walk(chain + [dt], Aborted(Local))
        else LocalWalk(c, files, timestamp, env, n + 1, chain + [dt])
  }

  /** The walk against a server whose latest root is version `h`, on a healthy network and disk. */
  function ServerWalk(c: Config, server: nat -> Bytes, h: nat, n: nat, chain: seq<Bytes>): Walk
    decreases Upper(c) - n
  {
    if n >= Upper(c) || n > h then Walk(chain, Complete)
    else if !c.accepts(chain, server(n)) then Walk(chain, Rejected)
    else ServerWalk(c, server, h, n + 1, chain + [server(n)])
  }

  /** What a download answers in either mode, with the cache after it. */
  function Download(
    c: Config, online: bool, files: Files, timestamp: Option<Bytes>, url: string,
    net: Result<Bytes, DownloadError>, disk: Disk): (Files, Result<Bytes, DownloadError>)
  {
    if online then OnlineDownload(c, files, url, net, disk)
    else (files, OfflineDownload(c, files, timestamp, url, disk))
  }

  /** The walk in either mode. */
  function RootWalk(
    c: Config, online: bool, files: Files, timestamp: Option<Bytes>,
    server: nat -> Bytes, env: nat -> Reply, n: nat, chain: seq<Bytes>): (Files, Walk)
    decreases Upper(c) - n
  {
    if n >= Upper(c) then (files, Walk(chain, Complete))
    else
      var (net, disk) := NetReply(server, env, n);
      var (files', r) := Download(c, online, files, timestamp, RootURL(c.base, n), net, disk);
      match r
      case Failure(e) => (files', Walk(chain, if e == NotFound then Complete else Aborted(e)))
      case Success(dt) =>
        if !c.accepts(chain, dt) then (files', Walk(chain, Rejected))
        else if !Persists(env(n)) then (files', Walk(chain + [dt], Aborted(Local)))
        else RootWalk(c, online, files', timestamp, server, env, n + 1, chain + [dt])
  }

  lemma {:induction false} RootWalkOnline(
    c: Config, files: Files, timestamp: Option<Bytes>,
    server: nat -> Bytes, env: nat -> Reply, n: nat, chain: seq<Bytes>)
    ensures RootWalk(c, true, files, timestamp, server, env, n, chain) == OnlineWalk(c, files, server, env, n, chain)
    decreases Upper(c) - n
  {
    if n < Upper(c) {
      var (net, disk) := NetReply(server, env, n);
      var (files', r) := OnlineDownload(c, files, RootURL(c.base, n), net, disk);
      if r.Success? {
        RootWalkOnline(c, files', timestamp, server, env, n + 1, chain + [r.value]);
      }
    }
  }

  lemma {:induction false} RootWalkOffline(
    c: Config, files: Files, timestamp: Option<Bytes>,
    server: nat -> Bytes, env: nat -> Reply, n: nat, chain: seq<Bytes>)
    ensures RootWalk(c, false, files, timestamp, server, env, n, chain)
            == (files, LocalWalk(c, files, timestamp, env, n, chain))
    decreases Upper(c) - n
  {
    if n < Upper(c) {
      var r := OfflineDownload(c, files, timestamp, RootURL(c.base, n), DiskOf(env(n)));
      if r.Success? {
        RootWalkOffline(c, files, timestamp, server, env, n + 1, chain + [r.value]);
      }
    }
  }

  class AirgappedFetcher {
    const c: Config
    var files: Files                 // cacheDir/roots
    var timestamp: Option<Bytes>     // cacheDir/timestamp.json
    var isOnline: bool

    constructor (c: Config, timestamp: Option<Bytes>)
      ensures this.c == c && files == map[] && isOnline && this.timestamp == timestamp
    {
      this.c, this.files, this.isOnline, this.timestamp := c, map[], true, timestamp;
    }

    /** `net` is what the online fetcher answers, `disk` how far the local files cooperate. */
    method DownloadFile(urlPath: string, net: Result<Bytes, DownloadError>, disk: Disk)
      returns (r: Result<Bytes, DownloadError>)
      modifies this`files
      ensures (files, r) == Download(c, isOnline, old(files), timestamp, urlPath, net, disk)
    {
      if isOnline {
        var dt :- net;
        var path := c.parse(urlPath);
        if path.None? {
          return Failure(BadURL);
        }
        if disk.NoCache? {
          return Failure(Local);
        }
        if HasSuffix(path.value, ROOT_SUFFIX) {
          var base := PathBase(path.value);
          if disk.NoDirectory? || disk.NotOpened? {
            return Failure(Local);
          }
          files := files[base := if disk.Torn? then dt[..Min(disk.k, |dt|)] else dt];
          if disk.Torn? {
            return Failure(Local);
          }
        }
        return Success(dt);
      }
      if urlPath == c.base + "/timestamp.json" {
        if disk.NoCache? {
          return Failure(Local);
        }
        if timestamp.Some? && !disk.NotOpened? {
          return Success(timestamp.value);
        }
      }
      if HasSuffix(urlPath, ROOT_SUFFIX) {
        var path := c.parse(urlPath);
        if path.Some? {
          var base := PathBase(path.value);
          if urlPath == c.base + "/" + base && HasSuffix(base, ROOT_SUFFIX) {
            if disk.NoCache? {
              return Failure(Local);
            }
            if base in files && !disk.NotOpened? {
              return Success(files[base]);
            }
          }
        }
      }
      return Failure(NotFound);
    }

    /** go-tuf's `loadRoot` over this fetcher, starting from the embedded root. */
    method LoadRoot(server: nat -> Bytes, env: nat -> Reply) returns (w: Walk)
      modifies this`files
      ensures isOnline ==> (files, w) == OnlineWalk(c, old(files), server, env, c.embedded + 1, [])
      ensures !isOnline ==> files == old(files) && w == LocalWalk(c, files, timestamp, env, c.embedded + 1, [])
    {
      RootWalkOnline(c, files, timestamp, server, env, c.embedded + 1, []);
      RootWalkOffline(c, files, timestamp, server, env, c.embedded + 1, []);
      w := WalkFrom(server, env, c.embedded + 1);
    }

    /** Its loop over versions. */
    method WalkFrom(server: nat -> Bytes, env: nat -> Reply, lowerBound: nat) returns (w: Walk)
      modifies this`files
      ensures (files, w) == RootWalk(c, isOnline, old(files), timestamp, server, env, lowerBound, [])
    {
      var n, chain := lowerBound, [];
      while n < Upper(c)
        invariant RootWalk(c, isOnline, old(files), timestamp, server, env, lowerBound, [])
                  == RootWalk(c, isOnline, files, timestamp, server, env, n, chain)
      {
        var (net, disk) := NetReply(server, env, n);
        var r := DownloadFile(RootURL(c.base, n), net, disk);
        if r.Failure? {
          return Walk(chain, if r.error == NotFound then Complete else Aborted(r.error));
        }
        if !c.accepts(chain, r.value) {
          return Walk(chain, Rejected);
        }
        chain := chain + [r.value];
        if !Persists(env(n)) {
          return Walk(chain, Aborted(Local));
        }
        n := n + 1;
      }
      return Walk(chain, Complete);
    }
  }
}
