/** A small registry whose hardened image is accepted: the premises of the image theorems can be met. */
module HardenedExample {
  import opened Wrappers
  import opened Hex
  import opened Oci
  import opened Resolve
  import opened VerifyImage
  import N = Naming
  import R = RekorBundle

  const INDEX_BYTES: Bytes := [1]
  const ATTESTATION_BYTES: Bytes := [2]
  const SIGNATURE_BYTES: Bytes := [3]
  const PAYLOAD_BYTES: Bytes := [4]

  /** A digest under the identity hash, which has no collisions. */
  function Named(dt: Bytes): Digest {
    "sha256:" + Encode(dt)
  }

  function Plain(mediaType: string, digest: Digest, artifactType: string, annotations: Annotations): Descriptor {
    Descriptor(mediaType, digest, 1, artifactType, annotations, None, None)
  }

  const IMAGE := Plain(MEDIA_TYPE_IMAGE_MANIFEST, Named([5]), "", map[ANNOTATION_DHI_BUILD_ID := "1"])
  const PROVENANCE: Annotations := map[ANNOTATION_PREDICATE_TYPE := SLSA_PROVENANCE_1]
  const ATTESTATION :=
    Plain(MEDIA_TYPE_IMAGE_MANIFEST, Named(ATTESTATION_BYTES), ARTIFACT_TYPE_IN_TOTO_JSON, PROVENANCE)
  const SIGNATURE := Plain(MEDIA_TYPE_IMAGE_MANIFEST, Named(SIGNATURE_BYTES), ARTIFACT_TYPE_COSIGN_SIGNATURE, map[])
  const LAYER := Plain(MEDIA_TYPE_COSIGN_SIMPLE_SIGNING, Named(PAYLOAD_BYTES), "", map[ANNOTATION_SIGNATURE := "c2ln"])
  const STATEMENT := Plain("", "", "", PROVENANCE)

  const INDEX := Index([IMAGE], map[ANNOTATION_TITLE := "dhi/alpine"])
  const ATTESTATION_MANIFEST := Manifest("", Some(IMAGE), [STATEMENT])
  const SIGNATURE_MANIFEST := Manifest("", Some(ATTESTATION), [LAYER])
  const PAYLOAD := Payload("dhi.io/alpine", Named(ATTESTATION_BYTES), COSIGN_SIGNATURE_TYPE)

  const ANY_PLATFORM := Matcher(_ => true, (_, _) => false)
  const LINUX := Platform("linux", "amd64", "", "", [])

  const LIBRARY := Library(
    x => x,
    dt => if dt == INDEX_BYTES then Some(INDEX) else None,
    dt => if dt == ATTESTATION_BYTES then Some(ATTESTATION_MANIFEST)
          else if dt == SIGNATURE_BYTES then Some(SIGNATURE_MANIFEST) else None,
    dt => if dt == PAYLOAD_BYTES then Some(PAYLOAD) else None,
    _ => false,
    _ => ANY_PLATFORM,
    LINUX)

  const REGISTRY := Provider.Provider(
    (_, call, _) => Success(if call == 0 then INDEX_BYTES else if call == 3 then ATTESTATION_BYTES
                            else if call == 4 then SIGNATURE_BYTES else PAYLOAD_BYTES),
    (_, call, _) => Success(if call == 1 then [ATTESTATION] else [SIGNATURE]))

  const CODEC := R.Codec(_ => None, _ => None, _ => None, _ => 0, c => c, _ => true)

  const ENV := Env(true, Some(0), true, _ => true, _ => true, _ => true,
                   (_, _, _, _, _) => Some(Verification(true, None, [])), CODEC)

  const REQUEST := Plain(MEDIA_TYPE_IMAGE_INDEX, Named(INDEX_BYTES), "", map[])
  const CHAIN := SignatureChain(IMAGE, Some(ATTESTATION), Some(SIGNATURE), true)

  lemma ExampleIsLawful()
    ensures LawfulLibrary(LIBRARY) && CollisionFree(LIBRARY)
  {}

  lemma ExampleReads(dhi: bool, call: nat, desc: Descriptor, dt: Bytes)
    requires desc.data.None? && desc.size == 1 && desc.digest == Named(dt)
    requires REGISTRY.read(dhi, call, desc) == Success(dt)
    ensures ReadBlob(LIBRARY, REGISTRY, dhi, call, desc) == Success(Some(dt))
  {}

  lemma ExampleChain()
    ensures ChainOf(LIBRARY, REGISTRY, REQUEST, None) == Success(CHAIN)
  {
    ExampleReads(false, 0, REQUEST, INDEX_BYTES);
    assert Eligible(ANY_PLATFORM, IMAGE);
    assert INDEX.manifests[..0] == [];
    assert Scan(INDEX.manifests, ANY_PLATFORM) == Some(IMAGE);
    assert IsDHIIndex(INDEX);
    assert FirstWhere([ATTESTATION], IsProvenance) == Some(ATTESTATION);
    FirstWhereNone([SIGNATURE], IsBundle);
    assert PreferredSignature([SIGNATURE]) == Some(SIGNATURE);
  }

  lemma ExampleLinks()
    ensures AttestationLink(LIBRARY, REGISTRY, CHAIN) == Success(ATTESTATION_MANIFEST)
    ensures SignatureLink(LIBRARY, REGISTRY, CHAIN) == Success(SIGNATURE_MANIFEST)
  {
    ExampleReads(true, 3, ATTESTATION, ATTESTATION_BYTES);
    ExampleReads(true, 4, SIGNATURE, SIGNATURE_BYTES);
    assert STATEMENT in ATTESTATION_MANIFEST.layers && IsSLSALayer(STATEMENT);
  }

  lemma ExampleLayer()
    ensures SignedLayer(LIBRARY, ENV, REGISTRY, CHAIN, SIGNATURE_MANIFEST)
            == Success(Signed(RecordEntity(LAYER.annotations, true), ("sha256", PAYLOAD_BYTES),
                              N.SIMPLE_SIGNING_V1, "dhi.io/alpine"))
  {
    ExampleReads(true, 5, LAYER, PAYLOAD_BYTES);
    RawDigestOf(LIBRARY, PAYLOAD_BYTES);
  }

  /** An honest hardened image is accepted, as what it is, without any transparency entry. */
  lemma HardenedImageIsAccepted() returns (a: Accepted)
    ensures LawfulLibrary(LIBRARY) && CollisionFree(LIBRARY) && KeyOnly(ENV)
    ensures Verdict(LIBRARY, ENV, REGISTRY, REQUEST, None) == Success(a)
    ensures a.info.kind == N.DOCKER_HARDENED_IMAGE && a.image == IMAGE && a.info.dockerReference == "dhi.io/alpine"
    ensures a.policy == ("sha256", PAYLOAD_BYTES)
  {
    ExampleIsLawful();
    ExampleChain();
    ExampleLinks();
    ExampleLayer();
    a := Verdict(LIBRARY, ENV, REGISTRY, REQUEST, None).value;
  }
}
