/**
 * Exactly which images are accepted, said over the bytes that were read with every media type,
 * annotation and verifier option written out.
 */
module VerifyImageExactly {
  import opened Wrappers
  import opened Hex
  import opened Oci
  import opened Resolve
  import opened VerifyImage
  import X = ResolveExactly
  import N = Naming

  /** The manifest's subject is `target`: digest, size, and the media type of a manifest or an index. */
  predicate SubjectIs(m: Manifest, target: Descriptor) {
    && m.subject.Some?
    && m.subject.value.digest == target.digest
    && m.subject.value.size == target.size
    && m.subject.value.mediaType
       in {"application/vnd.oci.image.manifest.v1+json", "application/vnd.oci.image.index.v1+json"}
  }

  /** The attestation's bytes: a manifest about the image, with a layer of SLSA provenance. */
  predicate Attests(lib: Library, attestation: Bytes, image: Descriptor) {
    && lib.parseManifest(attestation).Some?
    && var m := lib.parseManifest(attestation).value;
    && SubjectIs(m, image)
    && (exists l :: l in m.layers && X.At(l.annotations, "in-toto.io/predicate-type") in X.SLSA_TYPES)
  }

  /** The signature manifest's bytes: a manifest about the attestation, whose first layer is `layer`. */
  predicate Signs(lib: Library, signature: Bytes, attestation: Descriptor, layer: Descriptor) {
    && lib.parseManifest(signature).Some?
    && var m := lib.parseManifest(signature).value;
    && SubjectIs(m, attestation)
    && m.layers != [] && m.layers[0] == layer
  }

  /** A bundle layer: the bundle is verified against the attestation's own digest. */
  predicate IsBundleLayer(
    lib: Library, signature: Bytes, attestation: Bytes, layer: Descriptor, blob: Bytes, signed: Signed)
  {
    && layer.mediaType == "application/vnd.dev.sigstore.bundle.v0.3+json"
    && lib.parseManifest(signature).Some?
    && lib.parseManifest(signature).value.artifactType == "application/vnd.dev.sigstore.bundle.v0.3+json"
    && lib.isBundle(blob)
    && signed == Signed(BundleEntity(blob), ("sha256", lib.sha256(attestation)), 1, "")
  }

  /** A simple-signing layer: the payload names the attestation, and its own digest is verified. */
  predicate IsSimpleSigningLayer(
    lib: Library, env: Env, dhi: bool, attestation: Bytes, layer: Descriptor, blob: Bytes, signed: Signed)
  {
    && layer.mediaType == "application/vnd.dev.cosign.simplesigning.v1+json"
    && lib.parsePayload(blob).Some?
    && var payload := lib.parsePayload(blob).value;
    && payload.dockerManifestDigest == DigestOf(lib, attestation)
    && payload.critType == "cosign container image signature"
    && "dev.cosignproject.cosign/signature" in layer.annotations
    && env.base64Decodes(layer.annotations["dev.cosignproject.cosign/signature"])
    && (dhi || env.certificateParses(X.At(layer.annotations, "dev.sigstore.cosign/certificate")))
    && signed == Signed(RecordEntity(layer.annotations, dhi), ("sha256", lib.sha256(blob)), 2, payload.dockerReference)
  }

  /**
   * What the verifier is asked and answers. Of a hardened image: against the hardened-image key,
   * without identities, and without observer timestamps only if there is no bundle annotation.
   * Of any other: against Fulcio, for any certificate, with all three demands.
   */
  predicate Answers(env: Env, dhi: bool, layer: Descriptor, signed: Signed, v: Verification) {
    && env.trustProviderLoads && env.trustedRoot.Some?
    && var root := env.trustedRoot.value;
    && if dhi then
         && env.dhiRootLoads
         && var options :=
              if "dev.sigstore.cosign/bundle" in layer.annotations then [ObserverTimestamps(1), TransparencyLog(1)]
              else [NoObserverTimestamps];
         && env.optionsValid(options)
         && env.verify(DHIRoot(root), options, signed.entity, signed.policy, WithoutIdentities) == Some(v)
         && v.hasSignature
       else
         var options := [ObserverTimestamps(1), TransparencyLog(1), SignedCertificateTimestamps(1)];
         && env.optionsValid(options)
         && env.verify(Fulcio(root), options, signed.entity, signed.policy, AnyCertificate) == Some(v)
         && v.hasSignature && v.certificate.Some?
  }

  /** What is reported of an answer. */
  predicate Reports(a: Accepted, dhi: bool, image: Descriptor, signed: Signed, v: Verification) {
    && a.image == image && a.policy == signed.policy
    && a.info.signer == v.certificate && a.info.timestamps == v.timestamps
    && a.info.signatureType == signed.signatureType && a.info.dockerReference == signed.dockerReference
    && a.info.isDHI == dhi
    && a.info.kind == N.DetectKind(a.info)
  }

  datatype Evidence = Evidence(
    attestation: Bytes, signature: Bytes, layer: Descriptor, blob: Bytes, signed: Signed, answer: Verification)

  predicate Endorsed(lib: Library, env: Env, p: Provider, chain: SignatureChain, e: Evidence, a: Accepted) {
    && chain.attestation.Some? && chain.signature.Some?
    && ReadsAs(lib, p, chain.dhi, 3, chain.attestation.value, e.attestation)
    && Attests(lib, e.attestation, chain.image)
    && ReadsAs(lib, p, chain.dhi, 4, chain.signature.value, e.signature)
    && Signs(lib, e.signature, chain.attestation.value, e.layer)
    && ReadsAs(lib, p, chain.dhi, 5, e.layer, e.blob)
    && (|| IsBundleLayer(lib, e.signature, e.attestation, e.layer, e.blob, e.signed)
        || IsSimpleSigningLayer(lib, env, chain.dhi, e.attestation, e.layer, e.blob, e.signed))
    && Answers(env, chain.dhi, e.layer, e.signed, e.answer)
    && Reports(a, chain.dhi, chain.image, e.signed, e.answer)
  }

  // ---- Link by link ----

  lemma ReadsExactly(
    lib: Library, p: Provider, dhi: bool, call: nat, desc: Descriptor, bad: Error, dt: Bytes, m: Manifest)
    requires LawfulLibrary(lib) && lib.parseManifest(dt) == Some(m) && ReadsAs(lib, p, dhi, call, desc, dt)
    ensures ReadManifest(lib, p, dhi, call, desc, bad) == Success(m)
  {
    ReadBlobExactly(lib, p, dhi, call, desc, dt);
  }

  lemma ManifestWasRead(lib: Library, p: Provider, dhi: bool, call: nat, desc: Descriptor, bad: Error)
    returns (dt: Bytes)
    requires LawfulLibrary(lib) && ReadManifest(lib, p, dhi, call, desc, bad).Success?
    ensures ReadsAs(lib, p, dhi, call, desc, dt)
    ensures lib.parseManifest(dt) == Some(ReadManifest(lib, p, dhi, call, desc, bad).value)
  {
    dt := Content(ReadBlob(lib, p, dhi, call, desc).value);
    ReadBlobExactly(lib, p, dhi, call, desc, dt);
  }

  lemma AttestationLinkExactly(lib: Library, p: Provider, chain: SignatureChain, dt: Bytes)
    requires LawfulLibrary(lib) && chain.attestation.Some?
    requires ReadsAs(lib, p, chain.dhi, 3, chain.attestation.value, dt) && lib.parseManifest(dt).Some?
    ensures AttestationLink(lib, p, chain).Success? <==> Attests(lib, dt, chain.image)
  {
    var m := lib.parseManifest(dt).value;
    ReadsExactly(lib, p, chain.dhi, 3, chain.attestation.value, BadAttestation, dt, m);
    assert forall l :: IsSLSALayer(l) <==> X.At(l.annotations, "in-toto.io/predicate-type") in X.SLSA_TYPES;
  }

  lemma SignatureLinkExactly(lib: Library, p: Provider, chain: SignatureChain, dt: Bytes)
    requires LawfulLibrary(lib) && chain.attestation.Some? && chain.signature.Some?
    requires ReadsAs(lib, p, chain.dhi, 4, chain.signature.value, dt) && lib.parseManifest(dt).Some?
    ensures var (r, m) := (SignatureLink(lib, p, chain), lib.parseManifest(dt).value);
            && (r.Success? <==> m.layers != [] && Signs(lib, dt, chain.attestation.value, m.layers[0]))
            && (r.Success? ==> r.value == m)
  {
    ReadsExactly(lib, p, chain.dhi, 4, chain.signature.value, BadSignatureManifest, dt, lib.parseManifest(dt).value);
  }

  predicate IsLayer(
    lib: Library, env: Env, dhi: bool, signature: Bytes, attestation: Bytes, layer: Descriptor, blob: Bytes,
    signed: Signed)
  {
    || IsBundleLayer(lib, signature, attestation, layer, blob, signed)
    || IsSimpleSigningLayer(lib, env, dhi, attestation, layer, blob, signed)
  }

  lemma LayerIsSigned(
    lib: Library, env: Env, p: Provider, chain: SignatureChain, signature: Bytes, attestation: Bytes,
    layer: Descriptor, blob: Bytes, signed: Signed)
    requires LawfulLibrary(lib)
    requires chain.attestation.Some? && chain.attestation.value.digest == DigestOf(lib, attestation)
    requires lib.parseManifest(signature).Some? && lib.parseManifest(signature).value.layers != []
    requires layer == lib.parseManifest(signature).value.layers[0]
    requires ReadsAs(lib, p, chain.dhi, 5, layer, blob)
    requires IsLayer(lib, env, chain.dhi, signature, attestation, layer, blob, signed)
    ensures SignedLayer(lib, env, p, chain, lib.parseManifest(signature).value) == Success(signed)
  {
    ReadBlobExactly(lib, p, chain.dhi, 5, layer, blob);
    RawDigestOf(lib, attestation);
    RawDigestOf(lib, blob);
  }

  lemma SignedIsLayer(
    lib: Library, env: Env, p: Provider, chain: SignatureChain, signature: Bytes, attestation: Bytes)
    returns (blob: Bytes)
    requires LawfulLibrary(lib)
    requires chain.attestation.Some? && chain.attestation.value.digest == DigestOf(lib, attestation)
    requires lib.parseManifest(signature).Some? && lib.parseManifest(signature).value.layers != []
    requires SignedLayer(lib, env, p, chain, lib.parseManifest(signature).value).Success?
    ensures var (layer, signed) := (lib.parseManifest(signature).value.layers[0],
                                    SignedLayer(lib, env, p, chain, lib.parseManifest(signature).value).value);
            && ReadsAs(lib, p, chain.dhi, 5, layer, blob)
            && IsLayer(lib, env, chain.dhi, signature, attestation, layer, blob, signed)
  {
    var layer := lib.parseManifest(signature).value.layers[0];
    blob := Content(ReadBlob(lib, p, chain.dhi, 5, layer).value);
    ReadBlobExactly(lib, p, chain.dhi, 5, layer, blob);
    RawDigestOf(lib, attestation);
    RawDigestOf(lib, blob);
  }

  lemma AnswerExactly(env: Env, chain: SignatureChain, layer: Descriptor, signed: Signed, a: Accepted)
    requires env.trustProviderLoads && env.trustedRoot.Some?
    ensures VerifySigned(env, env.trustedRoot.value, chain, layer, signed) == Success(a)
            <==> exists v :: Answers(env, chain.dhi, layer, signed, v) && Reports(a, chain.dhi, chain.image, signed, v)
  {
    var root := env.trustedRoot.value;
    var trusted := if chain.dhi then DHIRoot(root) else Fulcio(root);
    var identity := if chain.dhi then WithoutIdentities else AnyCertificate;
    var r := env.verify(trusted, OptionsFor(chain.dhi, layer), signed.entity, signed.policy, identity);
    if VerifySigned(env, root, chain, layer, signed) == Success(a) {
      assert Answers(env, chain.dhi, layer, signed, r.value) && Reports(a, chain.dhi, chain.image, signed, r.value);
    }
    forall v | Answers(env, chain.dhi, layer, signed, v) && Reports(a, chain.dhi, chain.image, signed, v)
      ensures VerifySigned(env, root, chain, layer, signed) == Success(a)
    {
      assert r == Some(v);
    }
  }

  // ---- The whole ----

  lemma EndorsedIsAccepted(lib: Library, env: Env, p: Provider, chain: SignatureChain, e: Evidence, a: Accepted)
    requires LawfulLibrary(lib) && Endorsed(lib, env, p, chain, e, a)
    ensures ChainVerdict(lib, env, p, chain) == Success(a)
  {
    AttestationLinkExactly(lib, p, chain, e.attestation);
    SignatureLinkExactly(lib, p, chain, e.signature);
    LayerIsSigned(lib, env, p, chain, e.signature, e.attestation, e.layer, e.blob, e.signed);
    AnswerExactly(env, chain, e.layer, e.signed, a);
  }

  lemma AcceptedIsEndorsed(lib: Library, env: Env, p: Provider, chain: SignatureChain, a: Accepted)
    returns (e: Evidence)
    requires LawfulLibrary(lib) && ChainVerdict(lib, env, p, chain) == Success(a)
    ensures Endorsed(lib, env, p, chain, e, a)
  {
    var attestation := ManifestWasRead(lib, p, chain.dhi, 3, chain.attestation.value, BadAttestation);
    var signature := ManifestWasRead(lib, p, chain.dhi, 4, chain.signature.value, BadSignatureManifest);
    AttestationLinkExactly(lib, p, chain, attestation);
    SignatureLinkExactly(lib, p, chain, signature);
    var m := lib.parseManifest(signature).value;
    var blob := SignedIsLayer(lib, env, p, chain, signature, attestation);
    var signed := SignedLayer(lib, env, p, chain, m).value;
    AnswerExactly(env, chain, m.layers[0], signed, a);
    var v :| Answers(env, chain.dhi, m.layers[0], signed, v) && Reports(a, chain.dhi, chain.image, signed, v);
    e := Evidence(attestation, signature, m.layers[0], blob, signed, v);
  }

  /**
   * `VerifyImage` accepts exactly when the index resolves to a chain whose attestation is about
   * the image and carries SLSA provenance, whose signature manifest is about that attestation,
   * and whose first layer is a bundle or a simple-signing payload for it that the verifier
   * vouches for.
   */
  lemma AcceptedExactly(
    lib: Library, env: Env, p: Provider, desc: Descriptor, platform: Option<Platform>, a: Accepted)
    requires LawfulLibrary(lib)
    ensures Verdict(lib, env, p, desc, platform) == Success(a)
            <==> exists chain, index, e ::
                   X.Resolves(lib, p, desc, platform, index, chain) && Endorsed(lib, env, p, chain, e, a)
  {
    if Verdict(lib, env, p, desc, platform) == Success(a) {
      var chain := AcceptedChain(lib, env, p, desc, platform, a);
      X.ChainExactly(lib, p, desc, platform, chain);
      var index :| X.Resolves(lib, p, desc, platform, index, chain);
      var e := AcceptedIsEndorsed(lib, env, p, chain, a);
      assert X.Resolves(lib, p, desc, platform, index, chain) && Endorsed(lib, env, p, chain, e, a);
    }
    forall chain, index, e | X.Resolves(lib, p, desc, platform, index, chain) && Endorsed(lib, env, p, chain, e, a)
      ensures Verdict(lib, env, p, desc, platform) == Success(a)
    {
      X.ChainExactly(lib, p, desc, platform, chain);
      EndorsedIsAccepted(lib, env, p, chain, e, a);
    }
  }

  /**
   * The error that says a signature chain is missing is given exactly when the index resolves to a
   * chain without a signature, and tells whether it has an attestation.
   */
  lemma NoSigChainExactly(
    lib: Library, env: Env, p: Provider, desc: Descriptor, platform: Option<Platform>, hasAttestation: bool)
    requires LawfulLibrary(lib) && OwnErrors(p)
    ensures Verdict(lib, env, p, desc, platform) == Failure(NoSigChain(hasAttestation))
            <==> exists chain, index :: X.Resolves(lib, p, desc, platform, index, chain)
                                        && chain.signature.None? && hasAttestation == chain.attestation.Some?
  {
    var r := ChainOf(lib, p, desc, platform);
    if r.Success? {
      X.ChainExactly(lib, p, desc, platform, r.value);
      NoSigChainOf(lib, env, p, r.value, hasAttestation);
    }
    forall chain, index | X.Resolves(lib, p, desc, platform, index, chain)
      ensures r == Success(chain)
    {
      X.ChainExactly(lib, p, desc, platform, chain);
    }
  }

  /** The registry does not give the library's own missing-chain error. */
  ghost predicate OwnErrors(p: Provider) {
    && (forall dhi, call, d, b :: p.read(dhi, call, d) != Failure(NoSigChain(b)))
    && (forall dhi, call, d, b :: p.referrers(dhi, call, d) != Failure(NoSigChain(b)))
  }

  lemma LinksHaveChain(lib: Library, env: Env, p: Provider, chain: SignatureChain, b: bool)
    requires OwnErrors(p) && chain.attestation.Some? && chain.signature.Some?
    ensures AttestationLink(lib, p, chain) != Failure(NoSigChain(b))
    ensures SignatureLink(lib, p, chain) != Failure(NoSigChain(b))
    ensures SignatureLink(lib, p, chain).Success? ==>
              SignedLayer(lib, env, p, chain, SignatureLink(lib, p, chain).value) != Failure(NoSigChain(b))
  {}

  lemma NoSigChainOf(lib: Library, env: Env, p: Provider, chain: SignatureChain, hasAttestation: bool)
    requires OwnErrors(p) && (chain.attestation.None? ==> chain.signature.None?)
    ensures ChainVerdict(lib, env, p, chain) == Failure(NoSigChain(hasAttestation))
            <==> chain.signature.None? && hasAttestation == chain.attestation.Some?
  {
    if chain.signature.Some? {
      LinksHaveChain(lib, env, p, chain, hasAttestation);
    }
  }
}
