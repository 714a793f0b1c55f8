/** `VerifyArtifact` in `verifier.go`: options, the transparency-log threshold and the verdict. */
module VerifyArtifact {
  import opened Wrappers
  import opened Hex
  import Oci
  import Resolve
  import N = Naming
  import V = VerifyImage

  datatype Opt = SLSANotRequired | TlogThreshold(n: int)

  datatype Opts = Opts(slsaNotRequired: bool, tlogThreshold: Option<int>)

  type LogID = Bytes

  /** A bundle, as far as the threshold goes: the log of each of its entries. */
  datatype Bundle = Bundle(dt: Bytes, entries: seq<LogID>)

  datatype Outcome = Outcome(certificate: Option<N.Signer>, predicateType: string, timestamps: seq<N.Timestamp>,
                             verifiedLogs: set<LogID>)

  datatype Error =
    | NegativeThreshold | BadDigest | BadBundle | NoTrustProvider | NoTrustedRoot
    | BadVerifierOptions | VerificationFailed | NoValidSignature | UnexpectedPredicate

  datatype Env = Env(
    loadBundle: Bytes -> Option<Bundle>,
    trustProviderLoads: bool,
    trustedRoot: Option<int>,
    optionsValid: seq<V.VerifierOption> -> bool,
    verify: (int, seq<V.VerifierOption>, Bundle, V.ArtifactDigest) -> Option<Outcome>)

  /** The sigstore verifier counts distinct logs: it verifies logs of the bundle only, and enough of them. */
  ghost predicate CountsLogs(env: Env, root: int, options: seq<V.VerifierOption>, b: Bundle, policy: V.ArtifactDigest) {
    var v := env.verify(root, options, b, policy);
    v.Some? ==>
      && v.value.verifiedLogs <= LogIDs(b.entries)
      && (forall i :: 0 <= i < |options| && options[i].TransparencyLog? ==> |v.value.verifiedLogs| >= options[i].n)
  }

  ghost predicate LawfulVerifier(env: Env) {
    forall root, options, b, policy :: CountsLogs(env, root, options, b, policy)
  }

  datatype Accepted = Accepted(info: N.SignatureInfo, verifiedLogs: set<LogID>)

  // ---- Options ----

  /** What the last threshold option says; the earlier ones do not matter. */
  function LastThreshold(opts: seq<Opt>): Option<int> {
    if opts == [] then None
    else match opts[|opts| - 1]
      case TlogThreshold(n) => Some(n)
      case SLSANotRequired => LastThreshold(opts[..|opts| - 1])
  }

  method ApplyOpts(opt: seq<Opt>) returns (opts: Opts)
    ensures opts == Opts(SLSANotRequired in opt, LastThreshold(opt))
  {
    opts := Opts(false, None);
    for i := 0 to |opt|
      invariant opts == Opts(SLSANotRequired in opt[..i], LastThreshold(opt[..i]))
    {
      assert opt[..i + 1] == opt[..i] + [opt[i]];
      match opt[i]
      case SLSANotRequired => opts := opts.(slsaNotRequired := true);
      case TlogThreshold(n) => opts := opts.(tlogThreshold := Some(n));
    }
    assert opt[..|opt|] == opt;
  }

  // ---- Distinct logs ----

  function LogIDs(entries: seq<LogID>): set<LogID> {
    set e | e in entries
  }

  method DistinctLogs(entries: seq<LogID>) returns (n: nat)
    ensures n == |LogIDs(entries)|
  {
    var logIDs: map<LogID, ()> := map[];
    for i := 0 to |entries|
      invariant logIDs.Keys == LogIDs(entries[..i])
    {
      assert entries[..i + 1] == entries[..i] + [entries[i]];
      logIDs := logIDs[entries[i] := ()];
    }
    assert entries[..|entries|] == entries;
    return |logIDs|;
  }

  // ---- The verdict ----

  /** All distinct logs of the bundle, unless a threshold option says otherwise. */
  function Threshold(opt: seq<Opt>, entries: seq<LogID>): int {
    match LastThreshold(opt) case Some(n) => n case None => |LogIDs(entries)|
  }

  function OptionsFor(threshold: int): seq<V.VerifierOption> {
    [V.SignedCertificateTimestamps(1), V.ObserverTimestamps(1)]
    + if threshold > 0 then [V.TransparencyLog(threshold)] else []
  }

  function Classified(v: Outcome): Accepted
    requires v.certificate.Some?
  {
    var info := N.SignatureInfo(0, N.BUNDLE_V03, v.certificate, v.timestamps, "", false);
    Accepted(info.(kind := N.DetectKind(info)), v.verifiedLogs)
  }

  function Verdict(env: Env, dgst: Oci.Digest, dt: Bytes, opt: seq<Opt>): Result<Accepted, Error> {
    if LastThreshold(opt).Some? && LastThreshold(opt).value < 0 then Failure(NegativeThreshold)
    else if Oci.RawDigest(dgst).None? then Failure(BadDigest)
    else if env.loadBundle(dt).None? then Failure(BadBundle)
    else if !env.trustProviderLoads then Failure(NoTrustProvider)
    else if env.trustedRoot.None? then Failure(NoTrustedRoot)
    else
      var b := env.loadBundle(dt).value;
      var options := OptionsFor(Threshold(opt, b.entries));
      if !env.optionsValid(options) then Failure(BadVerifierOptions)
      else match env.verify(env.trustedRoot.value, options, b, Oci.RawDigest(dgst).value)
        case None => Failure(VerificationFailed)
        case Some(v) =>
          if v.certificate.None? then Failure(NoValidSignature)
          else if SLSANotRequired !in opt && !Resolve.IsSLSAPredicateType(v.predicateType) then
            Failure(UnexpectedPredicate)
          else Success(Classified(v))
  }

  method VerifyArtifact(env: Env, dgst: Oci.Digest, dt: Bytes, opt: seq<Opt>) returns (r: Result<Accepted, Error>)
    ensures r == Verdict(env, dgst, dt, opt)
  {
    var opts := ApplyOpts(opt);
    if opts.tlogThreshold.Some? && opts.tlogThreshold.value < 0 {
      return Failure(NegativeThreshold);
    }
    var policy := Oci.RawDigest(dgst);
    if policy.None? {
      return Failure(BadDigest);
    }
    var loaded := env.loadBundle(dt);
    if loaded.None? {
      return Failure(BadBundle);
    }
    var b := loaded.value;
    if !env.trustProviderLoads {
      return Failure(NoTrustProvider);
    }
    if env.trustedRoot.None? {
      return Failure(NoTrustedRoot);
    }
    var verifierOpts := [V.SignedCertificateTimestamps(1), V.ObserverTimestamps(1)];
    var tlogThreshold: int := DistinctLogs(b.entries);
    if opts.tlogThreshold.Some? {
      tlogThreshold := opts.tlogThreshold.value;
    }
    if tlogThreshold > 0 {
      verifierOpts := verifierOpts + [V.TransparencyLog(tlogThreshold)];
    }
    assert verifierOpts == OptionsFor(Threshold(opt, b.entries));
    if !env.optionsValid(verifierOpts) {
      return Failure(BadVerifierOptions);
    }
    var result := env.verify(env.trustedRoot.value, verifierOpts, b, policy.value);
    if result.None? {
      return Failure(VerificationFailed);
    }
    var v := result.value;
    if v.certificate.None? {
      return Failure(NoValidSignature);
    }
    if !opts.slsaNotRequired && !Resolve.IsSLSAPredicateType(v.predicateType) {
      return Failure(UnexpectedPredicate);
    }
    return Success(Classified(v));
  }

  // ---- What a successful verification says about the logs ----

  lemma SubsetOfSameSize<T>(a: set<T>, b: set<T>)
    requires a <= b && |a| >= |b|
    ensures a == b
  {
    assert b == (b - a) + a;
    assert |b| == |b - a| + |a|;
    assert b - a == {};
  }

  /**
   * Success without a threshold option verified every distinct log of the bundle; with one, at
   * least as many as the last such option asks, all of them logs of the bundle.
   */
  lemma VerifiedLogs(env: Env, dgst: Oci.Digest, dt: Bytes, opt: seq<Opt>, a: Accepted)
    requires LawfulVerifier(env)
    requires Verdict(env, dgst, dt, opt) == Success(a)
    ensures var logs := LogIDs(env.loadBundle(dt).value.entries);
            match LastThreshold(opt)
            case None => a.verifiedLogs == logs
            case Some(n) => n >= 0 && a.verifiedLogs <= logs && |a.verifiedLogs| >= n
  {
    var b := env.loadBundle(dt).value;
    var options := OptionsFor(Threshold(opt, b.entries));
    assert CountsLogs(env, env.trustedRoot.value, options, b, Oci.RawDigest(dgst).value);
    if Threshold(opt, b.entries) > 0 {
      assert options[2] == V.TransparencyLog(Threshold(opt, b.entries));
    }
    if LastThreshold(opt).None? {
      SubsetOfSameSize(a.verifiedLogs, LogIDs(b.entries));
    }
  }

  /** Only the value that finally holds is tested: a negative one set earlier and overridden is harmless. */
  lemma OnlyLastThresholdIsTested(env: Env, dgst: Oci.Digest, dt: Bytes, before: seq<Opt>, n: int)
    ensures Verdict(env, dgst, dt, before + [TlogThreshold(n)]) == Failure(NegativeThreshold) <==> n < 0
    ensures LastThreshold(before + [TlogThreshold(n), SLSANotRequired]) == Some(n)
  {
    var opt := before + [TlogThreshold(n), SLSANotRequired];
    assert opt[..|opt| - 1] == before + [TlogThreshold(n)];
  }

  // ---- Exactly which artifacts are accepted ----

  /** The verifier's options: timestamps always, and the transparency log with the threshold unless that is zero. */
  function Demands(n: int): seq<V.VerifierOption> {
    if n > 0 then [V.SignedCertificateTimestamps(1), V.ObserverTimestamps(1), V.TransparencyLog(n)]
    else [V.SignedCertificateTimestamps(1), V.ObserverTimestamps(1)]
  }

  /** `n` is the last threshold given, or the number of distinct logs if none is. */
  predicate IsThreshold(opt: seq<Opt>, entries: seq<LogID>, n: int) {
    if forall i :: 0 <= i < |opt| ==> !opt[i].TlogThreshold? then n == |set e | e in entries|
    else exists i :: 0 <= i < |opt| && opt[i] == TlogThreshold(n)
                     && forall j :: i < j < |opt| ==> !opt[j].TlogThreshold?
  }

  lemma {:induction false} LastThresholdIsLast(opt: seq<Opt>)
    ensures match LastThreshold(opt)
            case None => forall i :: 0 <= i < |opt| ==> !opt[i].TlogThreshold?
            case Some(n) => exists i :: 0 <= i < |opt| && opt[i] == TlogThreshold(n)
                                        && forall j :: i < j < |opt| ==> !opt[j].TlogThreshold?
  {
    if opt != [] {
      var init, last := opt[..|opt| - 1], |opt| - 1;
      if opt[last].TlogThreshold? {
        assert opt[last] == TlogThreshold(opt[last].n);
      } else {
        LastThresholdIsLast(init);
        if LastThreshold(init).Some? {
          var i :| 0 <= i < |init| && init[i] == TlogThreshold(LastThreshold(init).value)
                   && forall j :: i < j < |init| ==> !init[j].TlogThreshold?;
          assert opt[i] == init[i];
          assert forall j :: i < j < |opt| ==> j == last || opt[j] == init[j];
        } else {
          assert forall j :: 0 <= j < |opt| ==> j == last || opt[j] == init[j];
        }
      }
    }
  }

  lemma ThresholdExactly(opt: seq<Opt>, entries: seq<LogID>, n: int)
    ensures Threshold(opt, entries) == n <==> IsThreshold(opt, entries, n)
  {
    LastThresholdIsLast(opt);
    assert LogIDs(entries) == set e | e in entries;
    if LastThreshold(opt).Some? {
      var i :| 0 <= i < |opt| && opt[i] == TlogThreshold(LastThreshold(opt).value)
               && forall j :: i < j < |opt| ==> !opt[j].TlogThreshold?;
      forall k | 0 <= k < |opt| && opt[k].TlogThreshold? && (forall j :: k < j < |opt| ==> !opt[j].TlogThreshold?)
        ensures k == i
      {}
    }
  }

  /** The bundle vouches for the artifact whose hash under `alg` is `raw`, and the answer is reported as it is. */
  ghost predicate Vouched(
    env: Env, alg: string, raw: Bytes, dt: Bytes, opt: seq<Opt>, n: int, v: Outcome, a: Accepted)
  {
    && env.loadBundle(dt).Some? && env.trustProviderLoads && env.trustedRoot.Some?
    && var b := env.loadBundle(dt).value;
    && n >= 0 && IsThreshold(opt, b.entries, n)
    && env.optionsValid(Demands(n))
    && env.verify(env.trustedRoot.value, Demands(n), b, (alg, raw)) == Some(v)
    && v.certificate.Some?
    && (SLSANotRequired in opt
        || v.predicateType == "https://slsa.dev/provenance/v0.2" || v.predicateType == "https://slsa.dev/provenance/v1")
    && a.info.signer == v.certificate && a.info.timestamps == v.timestamps && a.verifiedLogs == v.verifiedLogs
    && a.info.signatureType == 1 && a.info.dockerReference == "" && !a.info.isDHI
    && a.info.kind == N.DetectKind(a.info)
  }

  /**
   * `VerifyArtifact` accepts exactly when the bundle, with the options that were asked for, vouches
   * for the very artifact digest that was given: its algorithm, and the hash in base16 after the colon.
   */
  lemma AcceptedExactly(env: Env, dgst: Oci.Digest, dt: Bytes, opt: seq<Opt>, a: Accepted)
    ensures Verdict(env, dgst, dt, opt) == Success(a)
            <==> exists alg, hex, raw, n, v ::
                   && dgst == alg + ":" + hex && ':' !in alg && Decode(hex) == Some(raw)
                   && Vouched(env, alg, raw, dt, opt, n, v, a)
  {
    if Verdict(env, dgst, dt, opt) == Success(a) {
      var (alg, raw) := Oci.RawDigest(dgst).value;
      Oci.RawDigestExactly(dgst, alg, raw);
      var hex :| dgst == alg + ":" + hex && ':' !in alg && Decode(hex) == Some(raw);
      var b := env.loadBundle(dt).value;
      var n := Threshold(opt, b.entries);
      ThresholdExactly(opt, b.entries, n);
      assert OptionsFor(n) == Demands(n);
      var v := env.verify(env.trustedRoot.value, Demands(n), b, (alg, raw)).value;
      assert Vouched(env, alg, raw, dt, opt, n, v, a);
    }
    forall alg, hex, raw, n, v | dgst == alg + ":" + hex && ':' !in alg && Decode(hex) == Some(raw)
                                 && Vouched(env, alg, raw, dt, opt, n, v, a)
      ensures Verdict(env, dgst, dt, opt) == Success(a)
    {
      Oci.RawDigestExactly(dgst, alg, raw);
      ThresholdExactly(opt, env.loadBundle(dt).value.entries, n);
      assert OptionsFor(n) == Demands(n);
    }
  }
}
