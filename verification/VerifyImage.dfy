/** `VerifyImage` in `verifier.go`: from an image index to a verified, classified signature. */
module VerifyImage {
  import opened Wrappers
  import opened Hex
  import opened Oci
  import opened Resolve
  import N = Naming
  import R = RekorBundle

  const ANNOTATION_CERT := "dev.sigstore.cosign/certificate"
  const ANNOTATION_SIGNATURE := "dev.cosignproject.cosign/signature"
  const ANNOTATION_BUNDLE := "dev.sigstore.cosign/bundle"
  const COSIGN_SIGNATURE_TYPE := "cosign container image signature"

  datatype Root = Fulcio(id: int) | DHIRoot(fulcio: int)

  datatype VerifierOption =
    | ObserverTimestamps(n: int)
    | TransparencyLog(n: int)
    | SignedCertificateTimestamps(n: int)
    | NoObserverTimestamps

  datatype Identity = AnyCertificate | WithoutIdentities

  type ArtifactDigest = (string, Bytes)

  datatype Entity =
    | BundleEntity(dt: Bytes)
    | RecordEntity(annotations: Annotations, dhi: bool)

  datatype Verification = Verification(hasSignature: bool, certificate: Option<N.Signer>, timestamps: seq<N.Timestamp>)

  /** The trust root and the sigstore verifier, as one run of `VerifyImage` meets them. */
  datatype Env = Env(
    trustProviderLoads: bool,
    trustedRoot: Option<int>,
    dhiRootLoads: bool,
    base64Decodes: string -> bool,
    certificateParses: string -> bool,
    optionsValid: seq<VerifierOption> -> bool,
    verify: (Root, seq<VerifierOption>, Entity, ArtifactDigest, Identity) -> Option<Verification>,
    codec: R.Codec)

  /** The information returned, with the image and the artifact digest that were checked to get it. */
  datatype Accepted = Accepted(info: N.SignatureInfo, image: Descriptor, policy: ArtifactDigest)

  // ---- The links of the chain ----

  /** A manifest's subject names `target` by digest, size and an image media type. */
  predicate LinksTo(manifest: Manifest, target: Descriptor) {
    && manifest.subject.Some?
    && var subject := manifest.subject.value;
    && subject.digest == target.digest
    && (subject.mediaType == MEDIA_TYPE_IMAGE_MANIFEST || subject.mediaType == MEDIA_TYPE_IMAGE_INDEX)
    && subject.size == target.size
  }

  predicate IsSLSALayer(d: Descriptor) {
    IsSLSAPredicateType(Get(d.annotations, ANNOTATION_PREDICATE_TYPE))
  }

  method HasSLSALayer(layers: seq<Descriptor>) returns (found: bool)
    ensures found <==> exists l :: l in layers && IsSLSALayer(l)
  {
    found := false;
    for i := 0 to |layers|
      invariant !found && forall l :: l in layers[..i] ==> !IsSLSALayer(l)
    {
      if IsSLSAPredicateType(Get(layers[i].annotations, ANNOTATION_PREDICATE_TYPE)) {
        assert layers[i] in layers;
        return true;
      }
      assert layers[..i + 1] == layers[..i] + [layers[i]];
    }
    assert layers[..|layers|] == layers;
  }

  /** A manifest read by call number `call`, which must parse. */
  function ReadManifest(lib: Library, p: Provider, dhi: bool, call: nat, desc: Descriptor, bad: Error)
    : Result<Manifest, Error>
  {
    var dt :- ReadBlob(lib, p, dhi, call, desc);
    match lib.parseManifest(Content(dt)) case Some(m) => Success(m) case None => Failure(bad)
  }

  /** The attestation manifest of a chain, linked to the image and carrying SLSA provenance. */
  function AttestationLink(lib: Library, p: Provider, chain: SignatureChain): Result<Manifest, Error>
    requires chain.attestation.Some?
  {
    var m :- ReadManifest(lib, p, chain.dhi, 3, chain.attestation.value, BadAttestation);
    if !LinksTo(m, chain.image) then Failure(AttestationMismatch)
    else if !exists l :: l in m.layers && IsSLSALayer(l) then Failure(NoSLSALayer)
    else Success(m)
  }

  /** The signature manifest of a chain, linked to the attestation and with at least one layer. */
  function SignatureLink(lib: Library, p: Provider, chain: SignatureChain): (r: Result<Manifest, Error>)
    requires chain.attestation.Some? && chain.signature.Some?
    ensures r.Success? ==> |r.value.layers| > 0
  {
    var m :- ReadManifest(lib, p, chain.dhi, 4, chain.signature.value, BadSignatureManifest);
    if !LinksTo(m, chain.attestation.value) then Failure(SignatureMismatch)
    else if |m.layers| == 0 then Failure(NoLayers)
    else Success(m)
  }

  /** `newHashedRecordSignedEntity` on the first layer of a manifest. */
  function NewRecordEntity(env: Env, layer: Descriptor, dhi: bool): Option<Entity> {
    if ANNOTATION_SIGNATURE !in layer.annotations then None
    else if !env.base64Decodes(layer.annotations[ANNOTATION_SIGNATURE]) then None
    else if RawDigest(layer.digest).None? then None
    else if !dhi && !env.certificateParses(Get(layer.annotations, ANNOTATION_CERT)) then None
    else Some(RecordEntity(layer.annotations, dhi))
  }

  datatype Signed = Signed(entity: Entity, policy: ArtifactDigest, signatureType: int, dockerReference: string)

  function ReadBundleLayer(lib: Library, p: Provider, chain: SignatureChain, m: Manifest): Result<Signed, Error>
    requires chain.attestation.Some? && |m.layers| > 0
  {
    if m.artifactType != ARTIFACT_TYPE_SIGSTORE_BUNDLE then Failure(NotABundle)
    else
      var dt :- ReadBlob(lib, p, chain.dhi, 5, m.layers[0]);
      if !lib.isBundle(Content(dt)) then Failure(BadBundle)
      else match RawDigest(chain.attestation.value.digest)
        case None => Failure(BadDigest)
        case Some(policy) => Success(Signed(BundleEntity(Content(dt)), policy, N.BUNDLE_V03, ""))
  }

  function ReadSimpleSigningLayer(lib: Library, env: Env, p: Provider, chain: SignatureChain, m: Manifest)
    : Result<Signed, Error>
    requires chain.attestation.Some? && |m.layers| > 0
  {
    var layer := m.layers[0];
    var dt :- ReadBlob(lib, p, chain.dhi, 5, layer);
    match lib.parsePayload(Content(dt))
    case None => Failure(BadPayload)
    case Some(payload) =>
      if payload.dockerManifestDigest != chain.attestation.value.digest then Failure(PayloadMismatch)
      else if payload.critType != COSIGN_SIGNATURE_TYPE then Failure(BadPayload)
      else match (NewRecordEntity(env, layer, chain.dhi), RawDigest(layer.digest))
        case (None, _) => Failure(BadRecord)
        case (_, None) => Failure(BadDigest)
        case (Some(entity), Some(policy)) =>
          Success(Signed(entity, policy, N.SIMPLE_SIGNING_V1, payload.dockerReference))
  }

  /** What the signature manifest's first layer says was signed, and by which entity. */
  function SignedLayer(lib: Library, env: Env, p: Provider, chain: SignatureChain, m: Manifest): Result<Signed, Error>
    requires chain.attestation.Some? && |m.layers| > 0
  {
    if m.layers[0].mediaType == ARTIFACT_TYPE_SIGSTORE_BUNDLE then ReadBundleLayer(lib, p, chain, m)
    else if m.layers[0].mediaType == MEDIA_TYPE_COSIGN_SIMPLE_SIGNING then ReadSimpleSigningLayer(lib, env, p, chain, m)
    else Failure(BadLayerType)
  }

  /** The options the verifier is given, and whether a certificate identity is demanded. */
  function OptionsFor(dhi: bool, layer: Descriptor): seq<VerifierOption> {
    if dhi && ANNOTATION_BUNDLE !in layer.annotations then [NoObserverTimestamps]
    else if dhi then [ObserverTimestamps(1), TransparencyLog(1)]
    else [ObserverTimestamps(1), TransparencyLog(1), SignedCertificateTimestamps(1)]
  }

  /** The final verification and the classification of what it returned. */
  function VerifySigned(env: Env, root: int, chain: SignatureChain, layer: Descriptor, signed: Signed)
    : Result<Accepted, Error>
  {
    var options := OptionsFor(chain.dhi, layer);
    var trusted := if chain.dhi then DHIRoot(root) else Fulcio(root);
    var identity := if chain.dhi then WithoutIdentities else AnyCertificate;
    if chain.dhi && !env.dhiRootLoads then Failure(NoDHIRoot)
    else if !env.optionsValid(options) then Failure(BadVerifierOptions)
    else match env.verify(trusted, options, signed.entity, signed.policy, identity)
      case None => Failure(VerificationFailed)
      case Some(v) =>
        if !v.hasSignature || (v.certificate.None? && !chain.dhi) then Failure(NoValidSignature)
        else
          var info := N.SignatureInfo(
            0, signed.signatureType, v.certificate, v.timestamps, signed.dockerReference, chain.dhi);
          Success(Accepted(info.(kind := N.DetectKind(info)), chain.image, signed.policy))
  }

  /** What a resolved chain verifies to. */
  function ChainVerdict(lib: Library, env: Env, p: Provider, chain: SignatureChain): Result<Accepted, Error> {
    if chain.attestation.None? || chain.signature.None? then Failure(NoSigChain(chain.attestation.Some?))
    else
      var attestation :- AttestationLink(lib, p, chain);
      if !env.trustProviderLoads then Failure(NoTrustProvider)
      else if env.trustedRoot.None? then Failure(NoTrustedRoot)
      else
        var m :- SignatureLink(lib, p, chain);
        var signed :- SignedLayer(lib, env, p, chain, m);
        VerifySigned(env, env.trustedRoot.value, chain, m.layers[0], signed)
  }

  function Verdict(lib: Library, env: Env, p: Provider, desc: Descriptor, platform: Option<Platform>)
    : Result<Accepted, Error>
  {
    var chain :- ChainOf(lib, p, desc, platform);
    ChainVerdict(lib, env, p, chain)
  }

  method VerifyImage(lib: Library, env: Env, p: Provider, desc: Descriptor, platform: Option<Platform>)
    returns (r: Result<Accepted, Error>)
    requires LawfulLibrary(lib)
    ensures r == Verdict(lib, env, p, desc, platform)
  {
    var chain :- ResolveSignatureChain(lib, p, desc, platform);
    if chain.attestation.None? || chain.signature.None? {
      return Failure(NoSigChain(chain.attestation.Some?));
    }
    var attestationBytes :- ReadBlob(lib, p, chain.dhi, 3, chain.attestation.value);
    var attestation := lib.parseManifest(Content(attestationBytes));
    if attestation.None? {
      return Failure(BadAttestation);
    }
    if !LinksTo(attestation.value, chain.image) {
      return Failure(AttestationMismatch);
    }
    var hasSLSA := HasSLSALayer(attestation.value.layers);
    if !hasSLSA {
      return Failure(NoSLSALayer);
    }
    if !env.trustProviderLoads {
      return Failure(NoTrustProvider);
    }
    if env.trustedRoot.None? {
      return Failure(NoTrustedRoot);
    }
    var fulcioRoot := env.trustedRoot.value;
    var signatureBytes :- ReadBlob(lib, p, chain.dhi, 4, chain.signature.value);
    var parsed := lib.parseManifest(Content(signatureBytes));
    if parsed.None? {
      return Failure(BadSignatureManifest);
    }
    var mfst := parsed.value;
    if !LinksTo(mfst, chain.attestation.value) {
      return Failure(SignatureMismatch);
    }
    if |mfst.layers| == 0 {
      return Failure(NoLayers);
    }
    var signed :- SignedLayer(lib, env, p, chain, mfst);
    r := VerifyEntity(env, fulcioRoot, chain, mfst.layers[0], signed);
  }

  /** The tail of `VerifyImage`: choosing the policy step by step and running the verifier. */
  method VerifyEntity(env: Env, fulcioRoot: int, chain: SignatureChain, layer: Descriptor, signed: Signed)
    returns (r: Result<Accepted, Error>)
    ensures r == VerifySigned(env, fulcioRoot, chain, layer, signed)
  {
    var identity := AnyCertificate;
    var verifierOpts := [];
    var trustedRoot: Root;
    if chain.dhi {
      if !env.dhiRootLoads {
        return Failure(NoDHIRoot);
      }
      trustedRoot := DHIRoot(fulcioRoot);
      if ANNOTATION_BUNDLE !in layer.annotations {
        verifierOpts := verifierOpts + [NoObserverTimestamps];
      } else {
        verifierOpts := verifierOpts + [ObserverTimestamps(1), TransparencyLog(1)];
      }
      identity := WithoutIdentities;
    } else {
      trustedRoot := Fulcio(fulcioRoot);
      verifierOpts := verifierOpts + [ObserverTimestamps(1), TransparencyLog(1), SignedCertificateTimestamps(1)];
    }
    assert verifierOpts == OptionsFor(chain.dhi, layer);
    if !env.optionsValid(verifierOpts) {
      return Failure(BadVerifierOptions);
    }
    var result := env.verify(trustedRoot, verifierOpts, signed.entity, signed.policy, identity);
    if result.None? {
      return Failure(VerificationFailed);
    }
    var v := result.value;
    if !v.hasSignature || (v.certificate.None? && !chain.dhi) {
      return Failure(NoValidSignature);
    }
    var info := N.SignatureInfo(
      0, signed.signatureType, v.certificate, v.timestamps, signed.dockerReference, chain.dhi);
    info := info.(kind := N.DetectKind(info));
    return Success(Accepted(info, chain.image, signed.policy));
  }

  // ---- What was signed determines which image was resolved ----

  /** A manifest that parsed was read whole: its descriptor carries the digest of its bytes. */
  lemma ManifestIsAuthentic(lib: Library, p: Provider, dhi: bool, call: nat, desc: Descriptor, bad: Error)
    returns (dt: Bytes)
    requires LawfulLibrary(lib) && ReadManifest(lib, p, dhi, call, desc, bad).Success?
    ensures desc.digest == DigestOf(lib, dt)
    ensures lib.parseManifest(dt) == Some(ReadManifest(lib, p, dhi, call, desc, bad).value)
  {
    dt := Content(ReadBlob(lib, p, dhi, call, desc).value);
  }

  /**
   * The custody chain behind an acceptance: attestation bytes whose subject is the image, and
   * signed bytes that are either the attestation itself or a payload naming its digest.
   */
  ghost predicate Custody(lib: Library, a: Accepted, attestation: Bytes, signed: Bytes) {
    && a.policy == ("sha256", lib.sha256(signed))
    && lib.parseManifest(attestation).Some?
    && LinksTo(lib.parseManifest(attestation).value, a.image)
    && SignedNames(lib, a.info.signatureType, a.info.dockerReference, attestation, signed)
  }

  ghost predicate SignedNames(lib: Library, signatureType: int, reference: string, attestation: Bytes, signed: Bytes) {
    if signatureType == N.BUNDLE_V03 then signed == attestation && reference == ""
    else
      && lib.parsePayload(signed).Some?
      && lib.parsePayload(signed).value.dockerManifestDigest == DigestOf(lib, attestation)
      && lib.parsePayload(signed).value.dockerReference == reference
  }

  /** The layer is the first one of the signature manifest this chain was verified with. */
  predicate IsSignedLayer(lib: Library, p: Provider, chain: SignatureChain, layer: Descriptor) {
    && chain.attestation.Some? && chain.signature.Some?
    && SignatureLink(lib, p, chain).Success?
    && layer == SignatureLink(lib, p, chain).value.layers[0]
  }

  /** A simple-signing layer carries the digest of the payload that was signed. */
  predicate NamesPayload(lib: Library, layer: Descriptor, signed: Bytes) {
    layer.mediaType == MEDIA_TYPE_COSIGN_SIMPLE_SIGNING ==> layer.digest == DigestOf(lib, signed)
  }

  /** The signed layer names the attestation, directly or through its payload. */
  lemma LayerNamesAttestation(
    lib: Library, env: Env, p: Provider, chain: SignatureChain, m: Manifest, attestation: Bytes) returns (signed: Bytes)
    requires LawfulLibrary(lib) && chain.attestation.Some? && |m.layers| > 0
    requires chain.attestation.value.digest == DigestOf(lib, attestation)
    requires SignedLayer(lib, env, p, chain, m).Success?
    ensures var s := SignedLayer(lib, env, p, chain, m).value;
            && s.policy == ("sha256", lib.sha256(signed))
            && SignedNames(lib, s.signatureType, s.dockerReference, attestation, signed)
    ensures NamesPayload(lib, m.layers[0], signed)
  {
    var layer := m.layers[0];
    if layer.mediaType == ARTIFACT_TYPE_SIGSTORE_BUNDLE {
      signed := attestation;
    } else {
      signed := Content(ReadBlob(lib, p, chain.dhi, 5, layer).value);
      assert layer.digest == DigestOf(lib, signed);
    }
    RawDigestOf(lib, signed);
  }

  /** Every acceptance has a custody chain, whatever the provider answered. */
  lemma AcceptedHasCustody(lib: Library, env: Env, p: Provider, desc: Descriptor, platform: Option<Platform>)
    returns (attestation: Bytes, signed: Bytes)
    requires LawfulLibrary(lib) && Verdict(lib, env, p, desc, platform).Success?
    ensures Custody(lib, Verdict(lib, env, p, desc, platform).value, attestation, signed)
  {
    var chain := ChainOf(lib, p, desc, platform).value;
    attestation, signed := ChainHasCustody(lib, env, p, chain);
  }

  lemma ChainHasCustody(lib: Library, env: Env, p: Provider, chain: SignatureChain)
    returns (attestation: Bytes, signed: Bytes)
    requires LawfulLibrary(lib) && ChainVerdict(lib, env, p, chain).Success?
    ensures Custody(lib, ChainVerdict(lib, env, p, chain).value, attestation, signed)
    ensures forall layer :: IsSignedLayer(lib, p, chain, layer) ==> NamesPayload(lib, layer, signed)
  {
    attestation := ManifestIsAuthentic(lib, p, chain.dhi, 3, chain.attestation.value, BadAttestation);
    var m := SignatureLink(lib, p, chain).value;
    signed := LayerNamesAttestation(lib, env, p, chain, m, attestation);
  }

  lemma CustodyDeterminesImage(
    lib: Library, a: Accepted, attestation: Bytes, signed: Bytes, a': Accepted, attestation': Bytes, signed': Bytes)
    requires CollisionFree(lib)
    requires Custody(lib, a, attestation, signed) && Custody(lib, a', attestation', signed')
    requires a.policy == a'.policy && a.info.signatureType == a'.info.signatureType
    ensures a.image.digest == a'.image.digest && a.image.size == a'.image.size
    ensures a.info.dockerReference == a'.info.dockerReference
  {
    assert signed == signed';
    if a.info.signatureType != N.BUNDLE_V03 {
      DigestDeterminesContent(lib, attestation, attestation');
    }
  }

  /**
   * Two acceptances of the same signature format and the same artifact digest, over any two
   * registries, index descriptors, platforms and environments, are of the same image.
   */
  lemma SignedDeterminesImage(
    lib: Library,
    env: Env, p: Provider, desc: Descriptor, platform: Option<Platform>,
    env': Env, p': Provider, desc': Descriptor, platform': Option<Platform>, a: Accepted, a': Accepted)
    requires LawfulLibrary(lib) && CollisionFree(lib)
    requires Verdict(lib, env, p, desc, platform) == Success(a)
    requires Verdict(lib, env', p', desc', platform') == Success(a')
    requires a.policy == a'.policy && a.info.signatureType == a'.info.signatureType
    ensures a.image.digest == a'.image.digest && a.image.size == a'.image.size
    ensures a.info.dockerReference == a'.info.dockerReference
  {
    var attestation, signed := AcceptedHasCustody(lib, env, p, desc, platform);
    var attestation', signed' := AcceptedHasCustody(lib, env', p', desc', platform');
    CustodyDeterminesImage(lib, a, attestation, signed, a', attestation', signed');
  }

  // ---- Hardened images ----

  /** `TlogEntries` of an entity built from a simple-signing layer. */
  function RecordTlogEntries(env: Env, entity: Entity): Result<seq<R.Entry>, R.ParseError>
    requires entity.RecordEntity?
  {
    R.TlogEntries(env.codec, Get(entity.annotations, ANNOTATION_BUNDLE))
  }

  /** The layer is a simple-signing one and the verifier accepted it against the hardened-image key. */
  ghost predicate VerifiedByHardenedKey(env: Env, layer: Descriptor, policy: ArtifactDigest) {
    && layer.mediaType == MEDIA_TYPE_COSIGN_SIMPLE_SIGNING
    && env.trustedRoot.Some?
    && env.verify(DHIRoot(env.trustedRoot.value), OptionsFor(true, layer),
                  RecordEntity(layer.annotations, true), policy, WithoutIdentities).Some?
  }

  lemma HardenedSigned(env: Env, root: int, chain: SignatureChain, layer: Descriptor, signed: Signed, a: Accepted)
    requires VerifySigned(env, root, chain, layer, signed) == Success(a)
    requires a.info.kind == N.DOCKER_HARDENED_IMAGE
    ensures chain.dhi && a.info.dockerReference == signed.dockerReference != ""
    ensures a.info.signatureType == signed.signatureType && a.policy == signed.policy
    ensures env.verify(DHIRoot(root), OptionsFor(true, layer), signed.entity, a.policy, WithoutIdentities).Some?
  {}

  lemma HardenedChain(lib: Library, env: Env, p: Provider, chain: SignatureChain, a: Accepted)
    returns (layer: Descriptor)
    requires ChainVerdict(lib, env, p, chain) == Success(a)
    requires a.info.kind == N.DOCKER_HARDENED_IMAGE
    ensures chain.dhi && a.info.dockerReference != "" && a.info.signatureType == N.SIMPLE_SIGNING_V1
    ensures IsSignedLayer(lib, p, chain, layer)
    ensures VerifiedByHardenedKey(env, layer, a.policy)
  {
    var m := SignatureLink(lib, p, chain).value;
    layer := m.layers[0];
    HardenedSigned(env, env.trustedRoot.value, chain, layer, SignedLayer(lib, env, p, chain, m).value, a);
  }

  /**
   * The bytes the index descriptor names decide whether the chain is marked hardened, and
   * together with the platform which image it is.
   */
  lemma IndexIsAuthentic(lib: Library, p: Provider, desc: Descriptor, platform: Option<Platform>) returns (index: Bytes)
    requires LawfulLibrary(lib) && ChainOf(lib, p, desc, platform).Success?
    ensures desc.digest == DigestOf(lib, index) && lib.parseIndex(index).Some?
    ensures var (chain, idx) := (ChainOf(lib, p, desc, platform).value, lib.parseIndex(index).value);
            && (chain.dhi <==> IsDHIIndex(idx))
            && Scan(idx.manifests, lib.only(PlatformOr(lib, platform))) == Some(chain.image)
  {
    index := Content(ReadBlob(lib, p, false, 0, desc).value);
  }

  /** Over any two registries one index digest and one platform resolve to the same image. */
  lemma IndexDeterminesImage(
    lib: Library, p: Provider, desc: Descriptor, p': Provider, desc': Descriptor, platform: Option<Platform>)
    requires LawfulLibrary(lib) && CollisionFree(lib) && desc.digest == desc'.digest
    requires ChainOf(lib, p, desc, platform).Success? && ChainOf(lib, p', desc', platform).Success?
    ensures var (chain, chain') := (ChainOf(lib, p, desc, platform).value, ChainOf(lib, p', desc', platform).value);
            chain.image == chain'.image && chain.dhi == chain'.dhi
  {
    var index := IndexIsAuthentic(lib, p, desc, platform);
    var index' := IndexIsAuthentic(lib, p', desc', platform);
    DigestDeterminesContent(lib, index, index');
  }

  /**
   * The simple-signing layer of this chain's signature manifest was verified by the hardened-image
   * key, and the payload it names binds a non-empty reference to the attestation. If no observer
   * timestamps were demanded, the entity that was verified has no transparency entries.
   */
  ghost predicate HardenedBy(
    lib: Library, env: Env, p: Provider, chain: SignatureChain, a: Accepted,
    attestation: Bytes, payload: Bytes, layer: Descriptor)
  {
    && Custody(lib, a, attestation, payload)
    && a.info.dockerReference != "" && a.info.signatureType == N.SIMPLE_SIGNING_V1
    && IsSignedLayer(lib, p, chain, layer) && layer.digest == DigestOf(lib, payload)
    && VerifiedByHardenedKey(env, layer, a.policy)
    && (NoObserverTimestamps in OptionsFor(true, layer)
        ==> RecordTlogEntries(env, RecordEntity(layer.annotations, true)) == Success([]))
  }

  lemma HardenedCustody(lib: Library, env: Env, p: Provider, chain: SignatureChain, a: Accepted)
    returns (attestation: Bytes, payload: Bytes, layer: Descriptor)
    requires LawfulLibrary(lib) && ChainVerdict(lib, env, p, chain) == Success(a)
    requires a.info.kind == N.DOCKER_HARDENED_IMAGE
    ensures HardenedBy(lib, env, p, chain, a, attestation, payload, layer)
  {
    layer := HardenedChain(lib, env, p, chain, a);
    attestation, payload := ChainHasCustody(lib, env, p, chain);
    assert NamesPayload(lib, layer, payload);
  }

  lemma HardenedChainIsMarked(lib: Library, env: Env, p: Provider, chain: SignatureChain, a: Accepted)
    requires ChainVerdict(lib, env, p, chain) == Success(a)
    requires a.info.kind == N.DOCKER_HARDENED_IMAGE
    ensures chain.dhi
  {
    var layer := HardenedChain(lib, env, p, chain, a);
  }

  /** An acceptance goes through the chain that its index descriptor resolves to. */
  lemma AcceptedChain(
    lib: Library, env: Env, p: Provider, desc: Descriptor, platform: Option<Platform>, a: Accepted)
    returns (chain: SignatureChain)
    requires Verdict(lib, env, p, desc, platform) == Success(a)
    ensures ChainOf(lib, p, desc, platform) == Success(chain) && chain.image == a.image
    ensures ChainVerdict(lib, env, p, chain) == Success(a)
  {
    chain := ChainOf(lib, p, desc, platform).value;
  }

  /**
   * `KindDockerHardenedImage` comes only from an authentic index classified as hardened, and from
   * a simple-signing layer of this run's own signature manifest.
   */
  lemma HardenedImageProvenance(
    lib: Library, env: Env, p: Provider, desc: Descriptor, platform: Option<Platform>, a: Accepted)
    returns (chain: SignatureChain, index: Bytes, attestation: Bytes, payload: Bytes, layer: Descriptor)
    requires LawfulLibrary(lib)
    requires Verdict(lib, env, p, desc, platform) == Success(a)
    requires a.info.kind == N.DOCKER_HARDENED_IMAGE
    ensures ChainOf(lib, p, desc, platform) == Success(chain) && chain.image == a.image
    ensures desc.digest == DigestOf(lib, index)
    ensures lib.parseIndex(index).Some? && IsDHIIndex(lib.parseIndex(index).value)
    ensures HardenedBy(lib, env, p, chain, a, attestation, payload, layer)
  {
    chain := AcceptedChain(lib, env, p, desc, platform, a);
    attestation, payload, layer := HardenedCustody(lib, env, p, chain, a);
    HardenedChainIsMarked(lib, env, p, chain, a);
    index := IndexIsAuthentic(lib, p, desc, platform);
  }

  // ---- Certified signers ----

  /** The hardened-image trust root has no certificate authorities, so it vouches for no certificate. */
  ghost predicate KeyOnly(env: Env) {
    forall root, options, entity, policy, identity ::
      var v := env.verify(DHIRoot(root), options, entity, policy, identity);
      v.Some? ==> v.value.certificate.None?
  }

  /** Verified against Fulcio with every demand made, giving exactly this certificate. */
  predicate VerifiedByFulcio(env: Env, entity: Entity, a: Accepted) {
    && env.trustedRoot.Some?
    && var options := [ObserverTimestamps(1), TransparencyLog(1), SignedCertificateTimestamps(1)];
       var v := env.verify(Fulcio(env.trustedRoot.value), options, entity, a.policy, AnyCertificate);
    && v.Some? && v.value.certificate == a.info.signer && v.value.timestamps == a.info.timestamps
  }

  predicate IsCertifiedKind(kind: N.Kind) {
    kind in {N.DOCKER_GITHUB_BUILDER, N.SELF_SIGNED_GITHUB_REPO, N.SELF_SIGNED}
  }

  lemma CertifiedSigned(env: Env, root: int, chain: SignatureChain, layer: Descriptor, signed: Signed, a: Accepted)
    requires KeyOnly(env) && env.trustedRoot == Some(root)
    requires VerifySigned(env, root, chain, layer, signed) == Success(a)
    ensures IsCertifiedKind(a.info.kind) <==>
            !chain.dhi && a.info.signer.Some? && a.info.signer.value.certificateIssuer == N.SIGSTORE_ISSUER
    ensures IsCertifiedKind(a.info.kind) ==> VerifiedByFulcio(env, signed.entity, a)
    ensures chain.dhi ==> a.info.signer.None? && a.info.kind in {N.DOCKER_HARDENED_IMAGE, N.UNTRUSTED}
  {}

  /**
   * A kind that names a certified signer comes exactly from a chain that is not hardened and a
   * certificate of the Sigstore issuer; what was verified then is the signature manifest's own
   * layer, against Fulcio, with timestamp, transparency log, SCT and certificate identity. A
   * hardened chain is either a hardened image or untrusted.
   */
  lemma CertifiedKindsComeFromFulcio(
    lib: Library, env: Env, p: Provider, desc: Descriptor, platform: Option<Platform>, a: Accepted)
    returns (chain: SignatureChain, m: Manifest)
    requires KeyOnly(env) && Verdict(lib, env, p, desc, platform) == Success(a)
    ensures ChainOf(lib, p, desc, platform) == Success(chain)
    ensures IsCertifiedKind(a.info.kind) <==>
            !chain.dhi && a.info.signer.Some? && a.info.signer.value.certificateIssuer == N.SIGSTORE_ISSUER
    ensures chain.attestation.Some? && chain.signature.Some? && SignatureLink(lib, p, chain) == Success(m)
    ensures SignedLayer(lib, env, p, chain, m).Success?
    ensures IsCertifiedKind(a.info.kind) ==>
              VerifiedByFulcio(env, SignedLayer(lib, env, p, chain, m).value.entity, a)
    ensures chain.dhi ==> a.info.kind in {N.DOCKER_HARDENED_IMAGE, N.UNTRUSTED}
  {
    chain := AcceptedChain(lib, env, p, desc, platform, a);
    m := SignatureLink(lib, p, chain).value;
    var signed := SignedLayer(lib, env, p, chain, m).value;
    CertifiedSigned(env, env.trustedRoot.value, chain, m.layers[0], signed, a);
  }
}
