/**
 * Which signature chain an index resolves to, said over the index and the registry's answers with
 * every media type and annotation written out.
 */
module ResolveExactly {
  import opened Wrappers
  import opened Hex
  import opened StableSort
  import opened Oci
  import opened Resolve

  const SLSA_TYPES := {"https://slsa.dev/provenance/v0.2", "https://slsa.dev/provenance/v1"}

  function At(a: Annotations, key: string): string {
    if key in a then a[key] else ""
  }

  // ---- The first entry of a kind ----

  /** `r` is the earliest wanted element, or there is none. */
  ghost predicate IsFirst(xs: seq<Descriptor>, want: Descriptor -> bool, r: Option<Descriptor>) {
    match r
    case None => forall x :: x in xs ==> !want(x)
    case Some(d) => exists i :: 0 <= i < |xs| && xs[i] == d && want(d) && forall j :: 0 <= j < i ==> !want(xs[j])
  }

  lemma {:induction false} FirstWhereIsFirst(xs: seq<Descriptor>, p: Descriptor -> bool, want: Descriptor -> bool)
    requires forall x :: p(x) <==> want(x)
    ensures IsFirst(xs, want, FirstWhere(xs, p))
  {
    if xs != [] && !p(xs[0]) {
      FirstWhereIsFirst(xs[1..], p, want);
      var r := FirstWhere(xs[1..], p);
      if r.Some? {
        var i :| 0 <= i < |xs[1..]| && xs[1..][i] == r.value && want(r.value)
                 && forall j :: 0 <= j < i ==> !want(xs[1..][j]);
        forall j | 0 <= j < i + 1
          ensures !want(xs[j])
        {
          assert j > 0 ==> xs[j] == xs[1..][j - 1];
        }
        assert xs[i + 1] == r.value;
      } else {
        assert xs == [xs[0]] + xs[1..];
      }
    } else if xs != [] {
      assert xs[0] == xs[0] && want(xs[0]);
    }
  }

  lemma FirstIsUnique(xs: seq<Descriptor>, want: Descriptor -> bool, r: Option<Descriptor>, r': Option<Descriptor>)
    requires IsFirst(xs, want, r) && IsFirst(xs, want, r')
    ensures r == r'
  {
    if r.Some? && r'.Some? {
      var i :| 0 <= i < |xs| && xs[i] == r.value && want(r.value) && forall j :: 0 <= j < i ==> !want(xs[j]);
      var i' :| 0 <= i' < |xs| && xs[i'] == r'.value && want(r'.value) && forall j :: 0 <= j < i' ==> !want(xs[j]);
      assert i == i';
    }
  }

  /** `FirstWhere` of a test is the first entry of the kind the test stands for. */
  lemma FirstExactly(
    xs: seq<Descriptor>, p: Descriptor -> bool, want: Descriptor -> bool, r: Option<Descriptor>)
    requires forall x :: p(x) <==> want(x)
    ensures FirstWhere(xs, p) == r <==> IsFirst(xs, want, r)
  {
    FirstWhereIsFirst(xs, p, want);
    if IsFirst(xs, want, r) {
      FirstIsUnique(xs, want, r, FirstWhere(xs, p));
    }
  }

  // ---- The kinds of entries ----

  function AttestationEntry(image: Digest): Descriptor -> bool {
    (d: Descriptor) =>
      && At(d.annotations, "vnd.docker.reference.type") == "attestation-manifest"
      && At(d.annotations, "vnd.docker.reference.digest") == image
  }

  function Provenance(): Descriptor -> bool {
    (d: Descriptor) =>
      && d.artifactType == "application/vnd.in-toto+json"
      && At(d.annotations, "in-toto.io/predicate-type") in SLSA_TYPES
  }

  function Bundle(): Descriptor -> bool {
    (d: Descriptor) => d.artifactType == "application/vnd.dev.sigstore.bundle.v0.3+json"
  }

  function Cosign(): Descriptor -> bool {
    (d: Descriptor) => d.artifactType == "application/vnd.dev.cosign.artifact.sig.v1+json"
  }

  // ---- The image ----

  predicate Suits(m: Matcher, d: Descriptor) {
    && (|| d.mediaType == "application/vnd.docker.distribution.manifest.v2+json"
        || d.mediaType == "application/vnd.oci.image.manifest.v1+json")
    && (d.platform.None? || m.accepts(d.platform.value))
  }

  predicate Beats(m: Matcher, a: Descriptor, b: Descriptor) {
    a.platform.Some? && (b.platform.None? || m.less(a.platform.value, b.platform.value))
  }

  /** Manifest `i` suits the platform, none that suits is better, and every earlier one is worse. */
  predicate IsImageAt(manifests: seq<Descriptor>, m: Matcher, i: nat) {
    && i < |manifests| && Suits(m, manifests[i])
    && (forall j :: 0 <= j < |manifests| && Suits(m, manifests[j]) ==>
          !Beats(m, manifests[j], manifests[i]) && (j < i ==> Beats(m, manifests[i], manifests[j])))
  }

  ghost predicate IsImage(manifests: seq<Descriptor>, m: Matcher, d: Descriptor) {
    exists i: nat :: IsImageAt(manifests, m, i) && manifests[i] == d
  }

  lemma ImageAtExactly(manifests: seq<Descriptor>, m: Matcher, i: nat)
    ensures IsImageAt(manifests, m, i) <==> Chosen(manifests, m, i)
  {
    assert forall d :: Suits(m, d) <==> Eligible(m, d);
    assert forall a, b :: Beats(m, a, b) <==> PlatformLess(m, a, b);
  }

  lemma ImageExactly(manifests: seq<Descriptor>, m: Matcher, d: Descriptor)
    requires StrictWeakOrder(m.less)
    ensures Scan(manifests, m) == Some(d) <==> IsImage(manifests, m, d)
  {
    var k := FirstOfSorted(manifests, m);
    if Scan(manifests, m).Some? {
      ImageAtExactly(manifests, m, k);
    }
    forall i: nat | IsImageAt(manifests, m, i)
      ensures Scan(manifests, m) == Some(manifests[i])
    {
      ImageAtExactly(manifests, m, i);
      assert Eligible(m, manifests[i]);
      ChosenIsUnique(manifests, m, i, k);
    }
  }

  // ---- The chain ----

  predicate IsHardenedIndex(index: Index) {
    && (forall d :: d in index.manifests ==> At(d.annotations, "com.docker.dhi.build.id") != "")
    && "dhi/" <= At(index.annotations, "org.opencontainers.image.title")
  }

  /** The attestation: of a hardened image a referrer, which there must be, else an entry of the index, if any. */
  ghost predicate IsAttestation(p: Provider, index: Index, chain: SignatureChain) {
    if chain.dhi then
      var refs := p.referrers(true, 1, chain.image.digest);
      refs.Success? && chain.attestation.Some? && IsFirst(refs.value, Provenance(), chain.attestation)
    else IsFirst(index.manifests, AttestationEntry(chain.image.digest), chain.attestation)
  }

  /** The signature: of the attestation's referrers the first bundle, else the first cosign one, else none. */
  ghost predicate IsSignatureOf(p: Provider, chain: SignatureChain) {
    match chain.attestation
    case None => chain.signature.None?
    case Some(a) =>
      var refs := p.referrers(chain.dhi, 2, a.digest);
      && refs.Success?
      && if exists d :: d in refs.value && Bundle()(d) then IsFirst(refs.value, Bundle(), chain.signature)
         else IsFirst(refs.value, Cosign(), chain.signature)
  }

  ghost predicate Resolves(
    lib: Library, p: Provider, desc: Descriptor, platform: Option<Platform>, index: Bytes, chain: SignatureChain)
  {
    && desc.mediaType == "application/vnd.oci.image.index.v1+json"
    && ReadsAs(lib, p, false, 0, desc, index)
    && lib.parseIndex(index).Some?
    && var idx := lib.parseIndex(index).value;
    && IsImage(idx.manifests, lib.only(if platform.Some? then platform.value else lib.defaultPlatform), chain.image)
    && (chain.dhi <==> IsHardenedIndex(idx))
    && IsAttestation(p, idx, chain)
    && IsSignatureOf(p, chain)
  }

  lemma SignatureExactly(refs: seq<Descriptor>, r: Option<Descriptor>)
    ensures PreferredSignature(refs) == r
            <==> if exists d :: d in refs && Bundle()(d) then IsFirst(refs, Bundle(), r) else IsFirst(refs, Cosign(), r)
  {
    FirstExactly(refs, IsBundle, Bundle(), r);
    FirstExactly(refs, IsCosign, Cosign(), r);
    FirstWhereNone(refs, IsBundle);
  }

  lemma AttestationExactly(p: Provider, index: Index, chain: SignatureChain)
    requires chain.dhi <==> IsHardenedIndex(index)
    ensures Resolve.AttestationOf(p, index, chain.image.digest) == Success(chain.attestation)
            <==> IsAttestation(p, index, chain)
  {
    assert IsHardenedIndex(index) <==> IsDHIIndex(index);
    if chain.dhi {
      var refs := p.referrers(true, 1, chain.image.digest);
      if refs.Success? {
        FirstExactly(refs.value, IsProvenance, Provenance(), chain.attestation);
      }
    } else {
      var image := chain.image.digest;
      FirstExactly(index.manifests, AttestationsFor(image), AttestationEntry(image), chain.attestation);
    }
  }

  lemma ChainFromExactly(p: Provider, index: Index, image: Descriptor, chain: SignatureChain)
    ensures ChainFrom(p, index, image) == Success(chain)
            <==> chain.image == image && (chain.dhi <==> IsHardenedIndex(index))
                 && IsAttestation(p, index, chain) && IsSignatureOf(p, chain)
  {
    assert IsHardenedIndex(index) <==> IsDHIIndex(index);
    if chain.image == image && (chain.dhi <==> IsHardenedIndex(index)) {
      AttestationExactly(p, index, chain);
      if chain.attestation.Some? {
        var refs := p.referrers(chain.dhi, 2, chain.attestation.value.digest);
        if refs.Success? {
          SignatureExactly(refs.value, chain.signature);
        }
      }
    }
  }

  lemma IndexExactly(
    lib: Library, p: Provider, desc: Descriptor, platform: Option<Platform>, index: Bytes, chain: SignatureChain)
    requires LawfulLibrary(lib) && desc.mediaType == "application/vnd.oci.image.index.v1+json"
    requires ReadsAs(lib, p, false, 0, desc, index) && lib.parseIndex(index).Some?
    ensures ChainOf(lib, p, desc, platform) == Success(chain) <==> Resolves(lib, p, desc, platform, index, chain)
  {
    ReadBlobExactly(lib, p, false, 0, desc, index);
    var idx := lib.parseIndex(index).value;
    var m := lib.only(PlatformOr(lib, platform));
    ImageExactly(idx.manifests, m, chain.image);
    var image := Scan(idx.manifests, m);
    if image.Some? {
      ChainFromExactly(p, idx, image.value, chain);
    }
  }

  /** An index descriptor resolves to a chain exactly when the index it names and the referrers say so. */
  lemma ChainExactly(
    lib: Library, p: Provider, desc: Descriptor, platform: Option<Platform>, chain: SignatureChain)
    requires LawfulLibrary(lib)
    ensures ChainOf(lib, p, desc, platform) == Success(chain)
            <==> exists index :: Resolves(lib, p, desc, platform, index, chain)
  {
    if ChainOf(lib, p, desc, platform) == Success(chain) {
      var index := Content(ReadBlob(lib, p, false, 0, desc).value);
      ReadBlobExactly(lib, p, false, 0, desc, index);
      IndexExactly(lib, p, desc, platform, index, chain);
    }
    forall index | Resolves(lib, p, desc, platform, index, chain)
      ensures ChainOf(lib, p, desc, platform) == Success(chain)
    {
      IndexExactly(lib, p, desc, platform, index, chain);
    }
  }
}
