/** `image/resolve.go`: from an image index to its image, attestation and signature manifests. */
module Resolve {
  import opened Wrappers
  import opened Text
  import opened StableSort
  import opened Oci

  // ---- resolveImageManifest ----

  predicate IsManifestType(mediaType: string) {
    mediaType == MEDIA_TYPE_DOCKER_MANIFEST || mediaType == MEDIA_TYPE_IMAGE_MANIFEST
  }

  predicate Eligible(m: Matcher, d: Descriptor) {
    IsManifestType(d.mediaType) && (d.platform.None? || m.accepts(d.platform.value))
  }

  /** The comparator: descriptors without a platform come last. */
  predicate PlatformLess(m: Matcher, a: Descriptor, b: Descriptor) {
    if a.platform.None? then false
    else if b.platform.None? then true
    else m.less(a.platform.value, b.platform.value)
  }

  function ByPlatform(m: Matcher): (Descriptor, Descriptor) -> bool {
    (a, b) => PlatformLess(m, a, b)
  }

  lemma ByPlatformIsStrictWeakOrder(m: Matcher)
    requires StrictWeakOrder(m.less)
    ensures StrictWeakOrder(ByPlatform(m))
  {}

  function EligibleFor(m: Matcher): Descriptor -> bool {
    d => Eligible(m, d)
  }

  function Filter<T>(xs: seq<T>, keep: T -> bool): seq<T> {
    if xs == [] then []
    else Filter(xs[..|xs| - 1], keep) + if keep(xs[|xs| - 1]) then [xs[|xs| - 1]] else []
  }

  /** Manifest `i` is eligible, nothing eligible is strictly better, and no equal comes earlier. */
  predicate Chosen(manifests: seq<Descriptor>, m: Matcher, i: nat) {
    && i < |manifests| && Eligible(m, manifests[i])
    && (forall j :: 0 <= j < |manifests| && Eligible(m, manifests[j]) ==>
          !PlatformLess(m, manifests[j], manifests[i])
          && (j < i ==> PlatformLess(m, manifests[i], manifests[j])))
  }

  predicate SomeEligible(manifests: seq<Descriptor>, m: Matcher) {
    exists j :: 0 <= j < |manifests| && Eligible(m, manifests[j])
  }

  method FilterManifests(manifests: seq<Descriptor>, m: Matcher) returns (descs: seq<Descriptor>)
    ensures descs == Filter(manifests, EligibleFor(m))
  {
    descs := [];
    for i := 0 to |manifests|
      invariant descs == Filter(manifests[..i], EligibleFor(m))
    {
      var d := manifests[i];
      assert manifests[..i + 1][..i] == manifests[..i];
      if !IsManifestType(d.mediaType) {
        continue;
      }
      if d.platform.None? || m.accepts(d.platform.value) {
        descs := descs + [d];
      }
    }
    assert manifests[..|manifests|] == manifests;
  }

  /** `first` is the chosen manifest, found at `i`, or nothing if nothing is eligible. */
  predicate Picks(manifests: seq<Descriptor>, m: Matcher, i: nat, first: Option<Descriptor>) {
    match first
    case None => !SomeEligible(manifests, m)
    case Some(d) => Chosen(manifests, m, i) && manifests[i] == d
  }

  /** One more manifest takes over exactly when it is eligible and strictly better. */
  function Better(m: Matcher, first: Option<Descriptor>, x: Descriptor): Option<Descriptor> {
    if Eligible(m, x) && (first.None? || PlatformLess(m, x, first.value)) then Some(x) else first
  }

  function Scan(manifests: seq<Descriptor>, m: Matcher): Option<Descriptor> {
    if manifests == [] then None
    else Better(m, Scan(manifests[..|manifests| - 1], m), manifests[|manifests| - 1])
  }

  lemma PicksStep(init: seq<Descriptor>, x: Descriptor, m: Matcher, i: nat, first: Option<Descriptor>)
    requires StrictWeakOrder(m.less)
    requires Picks(init, m, i, first)
    ensures Picks(init + [x], m, if Better(m, first, x) == first then i else |init|, Better(m, first, x))
  {}

  function First<T>(xs: seq<T>): Option<T> {
    if xs == [] then None else Some(xs[0])
  }

  lemma HeadWithOneMore(kept: seq<Descriptor>, x: Descriptor, m: Matcher)
    requires StrictWeakOrder(m.less) && Eligible(m, x)
    ensures First(Sorted(kept + [x], ByPlatform(m))) == Better(m, First(Sorted(kept, ByPlatform(m))), x)
  {
    ByPlatformIsStrictWeakOrder(m);
    assert (kept + [x])[..|kept|] == kept;
    HeadOfInsert(kept, x, ByPlatform(m));
  }

  /** Filtering, stable-sorting and taking the first is a scan for the earliest least manifest. */
  lemma {:induction false} FirstOfSorted(manifests: seq<Descriptor>, m: Matcher) returns (i: nat)
    requires StrictWeakOrder(m.less)
    ensures First(Sorted(Filter(manifests, EligibleFor(m)), ByPlatform(m))) == Scan(manifests, m)
    ensures Picks(manifests, m, i, Scan(manifests, m))
  {
    i := 0;
    if manifests != [] {
      var n := |manifests| - 1;
      var init, x := manifests[..n], manifests[n];
      assert manifests == init + [x];
      i := FirstOfSorted(init, m);
      var kept := Filter(init, EligibleFor(m));
      var first := Scan(init, m);
      PicksStep(init, x, m, i, first);
      i := if Better(m, first, x) == first then i else n;
      if Eligible(m, x) {
        HeadWithOneMore(kept, x, m);
      } else {
        assert Filter(manifests, EligibleFor(m)) == kept;
      }
    }
  }

  method ResolveImageManifest(manifests: seq<Descriptor>, m: Matcher) returns (r: Result<Descriptor, Error>)
    requires StrictWeakOrder(m.less)
    ensures match r
            case Success(d) =>
              Scan(manifests, m) == Some(d) && exists i: nat :: Chosen(manifests, m, i) && manifests[i] == d
            case Failure(e) => e == NoManifestForPlatform && Scan(manifests, m).None? && !SomeEligible(manifests, m)
  {
    var descs := FilterManifests(manifests, m);
    descs := Sorted(descs, ByPlatform(m));
    ghost var i := FirstOfSorted(manifests, m);
    if |descs| == 0 {
      return Failure(NoManifestForPlatform);
    }
    return Success(descs[0]);
  }

  /** The choice is unique, and it has no platform only if no eligible manifest has one. */
  lemma ChosenIsUnique(manifests: seq<Descriptor>, m: Matcher, i: nat, j: nat)
    requires StrictWeakOrder(m.less)
    requires Chosen(manifests, m, i)
    ensures Chosen(manifests, m, j) ==> i == j
    ensures manifests[i].platform.None? <==>
            forall k :: 0 <= k < |manifests| && Eligible(m, manifests[k]) ==> manifests[k].platform.None?
  {}

  // ---- Referrers ----

  predicate IsBundle(d: Descriptor) {
    d.artifactType == ARTIFACT_TYPE_SIGSTORE_BUNDLE
  }

  predicate IsCosign(d: Descriptor) {
    d.artifactType == ARTIFACT_TYPE_COSIGN_SIGNATURE
  }

  /** The three-way comparison handed to `slices.SortStableFunc`. */
  function CompareRefs(a: Descriptor, b: Descriptor): int {
    if IsBundle(a) && !IsBundle(b) then -1 else if !IsBundle(a) && IsBundle(b) then 1 else 0
  }

  function BundlesFirst(): (Descriptor, Descriptor) -> bool {
    (a, b) => CompareRefs(a, b) < 0
  }

  function Bundles(refs: seq<Descriptor>): seq<Descriptor> {
    Filter(refs, IsBundle)
  }

  function Others(refs: seq<Descriptor>): seq<Descriptor> {
    Filter(refs, NotBundle)
  }

  predicate NotBundle(d: Descriptor) {
    !IsBundle(d)
  }

  lemma {:induction false} InsertIntoPartition(bundles: seq<Descriptor>, others: seq<Descriptor>, x: Descriptor)
    requires forall d :: d in bundles ==> IsBundle(d)
    requires forall d :: d in others ==> !IsBundle(d)
    ensures Insert(bundles + others, x, BundlesFirst())
            == if IsBundle(x) then bundles + [x] + others else bundles + others + [x]
  {
    var ys := bundles + others;
    if others != [] && IsBundle(x) {
      var last, rest := others[|others| - 1], others[..|others| - 1];
      InsertIntoPartition(bundles, rest, x);
      assert ys[|ys| - 1] == last && last in others;
      assert ys[..|ys| - 1] == bundles + rest;
      assert bundles + [x] + others == bundles + [x] + rest + [last];
    } else if ys != [] && IsBundle(x) {
      assert ys[|ys| - 1] in bundles;
    }
  }

  lemma {:induction false} FilterKeeps<T(!new)>(xs: seq<T>, keep: T -> bool)
    ensures forall x :: x in Filter(xs, keep) <==> x in xs && keep(x)
  {
    if xs != [] {
      FilterKeeps(xs[..|xs| - 1], keep);
      assert xs == xs[..|xs| - 1] + [xs[|xs| - 1]];
    }
  }

  /** The stable sort is exactly a stable partition: bundles, then the rest, each in original order. */
  lemma {:induction false} SortIsStablePartition(refs: seq<Descriptor>)
    ensures Sorted(refs, BundlesFirst()) == Bundles(refs) + Others(refs)
  {
    if refs != [] {
      var init, x := refs[..|refs| - 1], refs[|refs| - 1];
      SortIsStablePartition(init);
      FilterKeeps(init, IsBundle);
      FilterKeeps(init, NotBundle);
      InsertIntoPartition(Bundles(init), Others(init), x);
    }
  }

  function FirstWhere<T>(xs: seq<T>, p: T -> bool): Option<T> {
    if xs == [] then None else if p(xs[0]) then Some(xs[0]) else FirstWhere(xs[1..], p)
  }

  lemma {:induction false} FirstWhereExtends<T(!new)>(xs: seq<T>, x: T, p: T -> bool)
    ensures FirstWhere(xs + [x], p)
            == if FirstWhere(xs, p).Some? then FirstWhere(xs, p) else if p(x) then Some(x) else None
  {
    if xs != [] {
      assert (xs + [x])[1..] == xs[1..] + [x];
      FirstWhereExtends(xs[1..], x, p);
    }
  }

  lemma {:induction false} FirstOfFilter<T(!new)>(xs: seq<T>, p: T -> bool)
    ensures First(Filter(xs, p)) == FirstWhere(xs, p)
  {
    if xs != [] {
      var init, x := xs[..|xs| - 1], xs[|xs| - 1];
      FirstOfFilter(init, p);
      FirstWhereExtends(init, x, p);
      assert init + [x] == xs;
    }
  }

  /** The preferred signature: the first bundle, else the first cosign signature. */
  function PreferredSignature(refs: seq<Descriptor>): Option<Descriptor> {
    var bundle := FirstWhere(refs, IsBundle);
    if bundle.Some? then bundle else FirstWhere(refs, IsCosign)
  }

  predicate IsSignature(d: Descriptor) {
    IsBundle(d) || IsCosign(d)
  }

  lemma {:induction false} FilterOfFilter<T(!new)>(xs: seq<T>, p: T -> bool, q: T -> bool, both: T -> bool)
    requires forall x :: both(x) <==> p(x) && q(x)
    ensures Filter(Filter(xs, p), q) == Filter(xs, both)
  {
    if xs != [] {
      var init, x := xs[..|xs| - 1], xs[|xs| - 1];
      FilterOfFilter(init, p, q, both);
      if p(x) {
        assert (Filter(init, p) + [x])[..|Filter(init, p)|] == Filter(init, p);
      } else {
        assert Filter(xs, p) == Filter(init, p);
      }
    }
  }

  lemma FirstOfSortedRefs(refs: seq<Descriptor>)
    ensures First(Sorted(Filter(refs, IsSignature), BundlesFirst())) == PreferredSignature(refs)
  {
    var kept := Filter(refs, IsSignature);
    SortIsStablePartition(kept);
    FilterOfFilter(refs, IsSignature, IsBundle, IsBundle);
    FilterOfFilter(refs, IsSignature, NotBundle, IsCosign);
    FirstOfFilter(refs, IsBundle);
    FirstOfFilter(refs, IsCosign);
  }

  method SelectSignature(allRefs: seq<Descriptor>) returns (r: Option<Descriptor>)
    ensures r == PreferredSignature(allRefs)
  {
    var refs := [];
    for i := 0 to |allRefs|
      invariant refs == Filter(allRefs[..i], IsSignature)
    {
      var d := allRefs[i];
      assert allRefs[..i + 1][..i] == allRefs[..i];
      if d.artifactType == ARTIFACT_TYPE_SIGSTORE_BUNDLE || d.artifactType == ARTIFACT_TYPE_COSIGN_SIGNATURE {
        refs := refs + [d];
      }
    }
    assert allRefs[..|allRefs|] == allRefs;
    FirstOfSortedRefs(allRefs);
    if |refs| == 0 {
      return None;
    }
    refs := Sorted(refs, BundlesFirst());
    return Some(refs[0]);
  }

  // ---- ResolveSignatureChain ----

  datatype SignatureChain = SignatureChain(
    image: Descriptor,
    attestation: Option<Descriptor>,
    signature: Option<Descriptor>,
    dhi: bool)

  predicate IsDHIIndex(index: Index) {
    && (forall d :: d in index.manifests ==> Get(d.annotations, ANNOTATION_DHI_BUILD_ID) != "")
    && HasPrefix(Get(index.annotations, ANNOTATION_TITLE), "dhi/")
  }

  predicate IsAttestationFor(image: Digest, d: Descriptor) {
    && Get(d.annotations, ANNOTATION_REFERENCE_TYPE) == ATTESTATION_MANIFEST_TYPE
    && Get(d.annotations, ANNOTATION_REFERENCE_DIGEST) == image
  }

  predicate IsProvenance(d: Descriptor) {
    && d.artifactType == ARTIFACT_TYPE_IN_TOTO_JSON
    && IsSLSAPredicateType(Get(d.annotations, ANNOTATION_PREDICATE_TYPE))
  }

  predicate IsSLSAPredicateType(predicateType: string) {
    predicateType == SLSA_PROVENANCE_02 || predicateType == SLSA_PROVENANCE_1
  }

  function AttestationsFor(image: Digest): Descriptor -> bool {
    d => IsAttestationFor(image, d)
  }

  method FindAttestation(manifests: seq<Descriptor>, image: Digest) returns (r: Option<Descriptor>)
    ensures r == FirstWhere(manifests, AttestationsFor(image))
  {
    r := None;
    for i := 0 to |manifests|
      invariant FirstWhere(manifests, AttestationsFor(image)) == FirstWhere(manifests[i..], AttestationsFor(image))
    {
      var d := manifests[i];
      if && Get(d.annotations, ANNOTATION_REFERENCE_TYPE) == ATTESTATION_MANIFEST_TYPE
         && Get(d.annotations, ANNOTATION_REFERENCE_DIGEST) == image {
        return Some(d);
      }
      assert manifests[i..][1..] == manifests[i + 1..];
    }
  }

  method FirstProvenance(allRefs: seq<Descriptor>) returns (r: Option<Descriptor>)
    ensures r == FirstWhere(allRefs, IsProvenance)
  {
    var refs := [];
    for i := 0 to |allRefs|
      invariant refs == Filter(allRefs[..i], IsProvenance)
    {
      var d := allRefs[i];
      assert allRefs[..i + 1][..i] == allRefs[..i];
      if d.artifactType == ARTIFACT_TYPE_IN_TOTO_JSON {
        if IsSLSAPredicateType(Get(d.annotations, ANNOTATION_PREDICATE_TYPE)) {
          refs := refs + [d];
        }
      }
    }
    assert allRefs[..|allRefs|] == allRefs;
    FirstOfFilter(allRefs, IsProvenance);
    r := First(refs);
  }

  /** The attestation of an image: a DHI referrer, which must exist, or an index entry, which may not. */
  function AttestationOf(p: Provider, index: Index, image: Digest): Result<Option<Descriptor>, Error> {
    if IsDHIIndex(index) then
      var refs :- p.referrers(true, 1, image);
      match FirstWhere(refs, IsProvenance)
      case Some(d) => Success(Some(d))
      case None => Failure(NoAttestationReferrer)
    else Success(FirstWhere(index.manifests, AttestationsFor(image)))
  }

  function ChainFrom(p: Provider, index: Index, image: Descriptor): Result<SignatureChain, Error> {
    var dhi := IsDHIIndex(index);
    var attestation :- AttestationOf(p, index, image.digest);
    match attestation
    case None => Success(SignatureChain(image, None, None, dhi))
    case Some(a) =>
      var refs :- p.referrers(dhi, 2, a.digest);
      Success(SignatureChain(image, attestation, PreferredSignature(refs), dhi))
  }

  /** The chain an index descriptor resolves to, without the filtering and sorting that finds it. */
  function ChainOf(lib: Library, p: Provider, desc: Descriptor, platform: Option<Platform>)
    : Result<SignatureChain, Error>
  {
    if desc.mediaType != MEDIA_TYPE_IMAGE_INDEX then Failure(NotAnIndex)
    else
      var dt :- ReadBlob(lib, p, false, 0, desc);
      match lib.parseIndex(Content(dt))
      case None => Failure(BadIndex)
      case Some(index) =>
        match Scan(index.manifests, lib.only(PlatformOr(lib, platform)))
        case None => Failure(NoManifestForPlatform)
        case Some(image) => ChainFrom(p, index, image)
  }

  function PlatformOr(lib: Library, platform: Option<Platform>): Platform {
    match platform case Some(pl) => pl case None => lib.defaultPlatform
  }

  method ResolveSignatureChain(lib: Library, p: Provider, desc: Descriptor, platform: Option<Platform>)
    returns (r: Result<SignatureChain, Error>)
    requires LawfulLibrary(lib)
    ensures r == ChainOf(lib, p, desc, platform)
  {
    if desc.mediaType != MEDIA_TYPE_IMAGE_INDEX {
      return Failure(NotAnIndex);
    }
    var dt :- ReadBlob(lib, p, false, 0, desc);
    var parsed := lib.parseIndex(Content(dt));
    if parsed.None? {
      return Failure(BadIndex);
    }
    var index := parsed.value;
    var dhi := IsDHIIndex(index);
    var image :- ResolveImageManifest(index.manifests, lib.only(PlatformOr(lib, platform)));
    var attestation: Option<Descriptor>;
    if dhi {
      var allRefs :- p.referrers(true, 1, image.digest);
      attestation := FirstProvenance(allRefs);
      if attestation.None? {
        return Failure(NoAttestationReferrer);
      }
    } else {
      attestation := FindAttestation(index.manifests, image.digest);
    }
    var chain := SignatureChain(image, None, None, dhi);
    if attestation.None? {
      return Success(chain);
    }
    chain := chain.(attestation := attestation);
    var allRefs :- p.referrers(dhi, 2, attestation.value.digest);
    var signature := SelectSignature(allRefs);
    if signature.None? {
      return Success(chain);
    }
    chain := chain.(signature := signature);
    return Success(chain);
  }

  /** The chain has no signature exactly when it has no attestation or no referrer has either type. */
  lemma SignatureMissingExactly(lib: Library, p: Provider, desc: Descriptor, platform: Option<Platform>)
    requires ChainOf(lib, p, desc, platform).Success?
    ensures var chain := ChainOf(lib, p, desc, platform).value;
            chain.signature.None? <==>
              || chain.attestation.None?
              || var refs := p.referrers(chain.dhi, 2, chain.attestation.value.digest);
                 refs.Success? && forall d :: d in refs.value ==> !IsSignature(d)
  {
    var chain := ChainOf(lib, p, desc, platform).value;
    if chain.attestation.Some? {
      var refs := p.referrers(chain.dhi, 2, chain.attestation.value.digest).value;
      FirstWhereNone(refs, IsBundle);
      FirstWhereNone(refs, IsCosign);
    }
  }

  lemma {:induction false} FirstWhereNone<T(!new)>(xs: seq<T>, p: T -> bool)
    ensures FirstWhere(xs, p).None? <==> forall x :: x in xs ==> !p(x)
    ensures FirstWhere(xs, p).Some? ==> FirstWhere(xs, p).value in xs && p(FirstWhere(xs, p).value)
  {
    if xs != [] {
      FirstWhereNone(xs[1..], p);
      assert xs == [xs[0]] + xs[1..];
    }
  }
}
