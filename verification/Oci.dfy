/** OCI descriptors and manifests, and the outside world an image verification runs against. */
module Oci {
  import opened Wrappers
  import opened Hex
  import opened StableSort

  type Digest = string

  const MEDIA_TYPE_IMAGE_INDEX := "application/vnd.oci.image.index.v1+json"
  const MEDIA_TYPE_IMAGE_MANIFEST := "application/vnd.oci.image.manifest.v1+json"
  const MEDIA_TYPE_DOCKER_MANIFEST := "application/vnd.docker.distribution.manifest.v2+json"

  const ARTIFACT_TYPE_COSIGN_SIGNATURE := "application/vnd.dev.cosign.artifact.sig.v1+json"
  const ARTIFACT_TYPE_SIGSTORE_BUNDLE := "application/vnd.dev.sigstore.bundle.v0.3+json"
  const ARTIFACT_TYPE_IN_TOTO_JSON := "application/vnd.in-toto+json"
  const MEDIA_TYPE_COSIGN_SIMPLE_SIGNING := "application/vnd.dev.cosign.simplesigning.v1+json"
  const SLSA_PROVENANCE_02 := "https://slsa.dev/provenance/v0.2"
  const SLSA_PROVENANCE_1 := "https://slsa.dev/provenance/v1"

  const ANNOTATION_REFERENCE_DIGEST := "vnd.docker.reference.digest"
  const ANNOTATION_REFERENCE_TYPE := "vnd.docker.reference.type"
  const ANNOTATION_PREDICATE_TYPE := "in-toto.io/predicate-type"
  const ANNOTATION_DHI_BUILD_ID := "com.docker.dhi.build.id"
  const ANNOTATION_TITLE := "org.opencontainers.image.title"
  const ATTESTATION_MANIFEST_TYPE := "attestation-manifest"

  type Annotations = map<string, string>

  /** Indexing a Go map: a missing key reads as the empty string. */
  function Get(a: Annotations, key: string): string {
    if key in a then a[key] else ""
  }

  datatype Platform = Platform(
    os: string, architecture: string, variant: string, osVersion: string, osFeatures: seq<string>)

  datatype Descriptor = Descriptor(
    mediaType: string, digest: Digest, size: int, artifactType: string,
    annotations: Annotations, platform: Option<Platform>, data: Option<Bytes>)

  datatype Index = Index(manifests: seq<Descriptor>, annotations: Annotations)

  datatype Manifest = Manifest(artifactType: string, subject: Option<Descriptor>, layers: seq<Descriptor>)

  /** `platforms.MatchComparer`. */
  datatype Matcher = Matcher(accepts: Platform -> bool, less: (Platform, Platform) -> bool)

  /** The fields of a simple-signing payload that are read. */
  datatype Payload = Payload(dockerReference: string, dockerManifestDigest: string, critType: string)

  /** Every way `VerifyImage` and what it calls can fail. */
  datatype Error =
    | Provider(message: string)
    | NotAnIndex | BadIndex | NoManifestForPlatform | NoAttestationReferrer
    | NoSigChain(hasAttestation: bool)
    | BadAttestation | AttestationMismatch | NoSLSALayer
    | NoTrustProvider | NoTrustedRoot
    | BadSignatureManifest | SignatureMismatch | NoLayers | NotABundle | BadBundle
    | BadManifest | BadPayload | PayloadMismatch | BadRecord | BadLayerType | BadDigest
    | NoDHIRoot | BadVerifierOptions | VerificationFailed | NoValidSignature

  /**
   * A registry as one caller sees it. It may answer the same request differently each time, so
   * every answer also depends on which call of the run it is; the first argument tells whether
   * the request carries the DHI context.
   */
  datatype Provider = Provider(
    read: (bool, nat, Descriptor) -> Result<Bytes, Error>,
    referrers: (bool, nat, Digest) -> Result<seq<Descriptor>, Error>)

  /** Deterministic library functions: hashing and parsing. */
  datatype Library = Library(
    sha256: Bytes -> Bytes,
    parseIndex: Bytes -> Option<Index>,
    parseManifest: Bytes -> Option<Manifest>,
    parsePayload: Bytes -> Option<Payload>,
    isBundle: Bytes -> bool,
    only: Platform -> Matcher,
    defaultPlatform: Platform)

  /** No parser accepts empty input, and platform comparison is a strict weak order. */
  ghost predicate LawfulLibrary(lib: Library) {
    && lib.parseIndex([]).None? && lib.parseManifest([]).None? && lib.parsePayload([]).None? && !lib.isBundle([])
    && (forall p :: StrictWeakOrder(lib.only(p).less))
  }

  ghost predicate CollisionFree(lib: Library) {
    forall a, b :: lib.sha256(a) == lib.sha256(b) ==> a == b
  }

  // ---- Digests ----

  /** `digest.FromBytes`. */
  function DigestOf(lib: Library, dt: Bytes): Digest {
    "sha256:" + Encode(lib.sha256(dt))
  }

  function IndexOf(s: string, c: char): nat
    ensures IndexOf(s, c) <= |s|
    ensures IndexOf(s, c) < |s| ==> s[IndexOf(s, c)] == c
  {
    if s == "" then 0 else if s[0] == c then 0 else 1 + IndexOf(s[1..], c)
  }

  /** `rawDigest`; `None` also stands for the panic on a digest without a colon. */
  function RawDigest(d: Digest): Option<(string, Bytes)> {
    var i := IndexOf(d, ':');
    if i == |d| then None
    else match Decode(d[i + 1..])
      case None => None
      case Some(raw) => Some((d[..i], raw))
  }

  lemma {:induction false} IndexOfFirst(before: string, c: char, after: string)
    requires c !in before
    ensures IndexOf(before + [c] + after, c) == |before|
  {
    var s := before + [c] + after;
    if before != "" {
      assert s[1..] == before[1..] + [c] + after;
      IndexOfFirst(before[1..], c, after);
    }
  }

  lemma RawDigestOf(lib: Library, dt: Bytes)
    ensures RawDigest(DigestOf(lib, dt)) == Some(("sha256", lib.sha256(dt)))
  {
    var d := DigestOf(lib, dt);
    assert d == "sha256" + [':'] + Encode(lib.sha256(dt));
    IndexOfFirst("sha256", ':', Encode(lib.sha256(dt)));
    assert d[..6] == "sha256" && d[7..] == Encode(lib.sha256(dt));
    DecodeEncode(lib.sha256(dt));
  }

  /** In general: algorithm, colon and base16 of the hash, and nothing else has a raw digest. */
  lemma RawDigestExactly(d: Digest, alg: string, raw: Bytes)
    ensures RawDigest(d) == Some((alg, raw)) <==>
            exists hex :: d == alg + ":" + hex && ':' !in alg && Decode(hex) == Some(raw)
  {
    IndexOfIsFirst(d, ':');
    var i := IndexOf(d, ':');
    if RawDigest(d) == Some((alg, raw)) {
      assert d == alg + ":" + d[i + 1..];
    }
    forall hex | d == alg + ":" + hex && ':' !in alg && Decode(hex) == Some(raw)
      ensures RawDigest(d) == Some((alg, raw))
    {
      assert d == alg + [':'] + hex;
      IndexOfFirst(alg, ':', hex);
      assert d[..|alg|] == alg && d[|alg| + 1..] == hex;
    }
  }

  lemma {:induction false} IndexOfIsFirst(s: string, c: char)
    ensures c !in s[..IndexOf(s, c)]
  {
    if s != "" && s[0] != c {
      IndexOfIsFirst(s[1..], c);
      assert s[..IndexOf(s, c)] == [s[0]] + s[1..][..IndexOf(s[1..], c)];
    }
  }

  /** With a collision-free hash the digest, and even the raw digest, determines the content. */
  lemma DigestDeterminesContent(lib: Library, a: Bytes, b: Bytes)
    requires CollisionFree(lib)
    requires RawDigest(DigestOf(lib, a)) == RawDigest(DigestOf(lib, b))
    ensures a == b
  {
    RawDigestOf(lib, a);
    RawDigestOf(lib, b);
  }

  // ---- ReadBlob ----

  /** The content of a possibly nil byte slice. */
  function Content(dt: Option<Bytes>): Bytes {
    match dt case Some(b) => b case None => []
  }

  /** containerd's `content.ReadBlob`: inline data when it is what the descriptor says, else a fetch. */
  function FetchBlob(lib: Library, p: Provider, dhi: bool, call: nat, desc: Descriptor): Result<Option<Bytes>, Error> {
    var inline := Content(desc.data);
    if |inline| == desc.size && DigestOf(lib, inline) == desc.digest then Success(desc.data)
    else match p.read(dhi, call, desc)
      case Success(dt) => Success(Some(dt))
      case Failure(e) => Failure(e)
  }

  /**
   * `image.ReadBlob`. On a digest mismatch it wraps the error of the fetch, which is nil there,
   * and wrapping nil gives nil: the caller receives no bytes and no error.
   */
  function ReadBlob(lib: Library, p: Provider, dhi: bool, call: nat, desc: Descriptor): Result<Option<Bytes>, Error> {
    var dt :- FetchBlob(lib, p, dhi, call, desc);
    if desc.digest != DigestOf(lib, Content(dt)) then Success(None) else Success(dt)
  }

  /** A read without error that gave no bytes may hide a mismatch; one that gave bytes never does. */
  lemma ReadBlobVerdict(lib: Library, p: Provider, dhi: bool, call: nat, desc: Descriptor)
    requires ReadBlob(lib, p, dhi, call, desc).Success?
    ensures var dt := ReadBlob(lib, p, dhi, call, desc).value;
            desc.digest == DigestOf(lib, Content(dt))
            <==> desc.digest == DigestOf(lib, Content(FetchBlob(lib, p, dhi, call, desc).value))
                 || desc.digest == DigestOf(lib, [])
    ensures var dt := ReadBlob(lib, p, dhi, call, desc).value;
            Content(dt) != [] ==> desc.digest == DigestOf(lib, Content(dt))
  {}

  /** The bytes have the descriptor's digest; they are its inline data if that has it, else the fetched ones. */
  predicate ReadsAs(lib: Library, p: Provider, dhi: bool, call: nat, desc: Descriptor, bytes: Bytes) {
    var inline := Content(desc.data);
    && desc.digest == DigestOf(lib, bytes)
    && if |inline| == desc.size && desc.digest == DigestOf(lib, inline) then bytes == inline
       else p.read(dhi, call, desc) == Success(bytes)
  }

  /** `ReadBlob` gives some bytes exactly when they are right. */
  lemma ReadBlobExactly(lib: Library, p: Provider, dhi: bool, call: nat, desc: Descriptor, bytes: Bytes)
    requires bytes != []
    ensures (var r := ReadBlob(lib, p, dhi, call, desc); r.Success? && Content(r.value) == bytes)
            <==> ReadsAs(lib, p, dhi, call, desc, bytes)
  {}

  /** The nil result with a nil error does occur: any fetch of the wrong bytes gives it. */
  lemma MismatchIsSilent(lib: Library, p: Provider, dhi: bool, call: nat, desc: Descriptor, dt: Bytes)
    requires desc.data.None? && desc.size != 0
    requires p.read(dhi, call, desc) == Success(dt) && desc.digest != DigestOf(lib, dt)
    ensures ReadBlob(lib, p, dhi, call, desc) == Success(None)
  {}
}
