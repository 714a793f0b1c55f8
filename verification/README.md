# Verification of the image signature policy library

This project models the Go library that resolves the signature chain of an OCI image, verifies it
against Sigstore trust roots and classifies the signer, and proves what the library relies on:

- **the trust provider** (`roots/roots.go`): `update`, `wait` and `TrustedRoot` goroutines over a file
  lock and a read-write mutex, as interleaved steps; every lock, unlock, read and write is a step;
- **the root cache** (`airgappedFetcher`): filled by online downloads, it has to replay the root walk of
  section 5.3 of the TUF specification while offline;
- **the signature chain** (`image/resolve.go`, `VerifyImage` in `verifier.go`): from an index to an image,
  its attestation and its signature, over content-addressed blobs from an untrusted registry;
- **once-only state** (`Manifest`'s memo fields, `loadTrustProvider`);
- **`readerAt`** (`cmd/policy-helper/utils.go`): random access over a sequential stream;
- **parsing and naming** (`hashedrecordbundle.go`, `types/name.go`).

Cryptography, hashing, JSON, base64, X.509 and URL parsing, registries, networks and disks are
parameters: function-valued fields of `Library`, `Env`, `Codec`, `Config` and `Provider`, about which
only the stated laws (`LawfulLibrary`, `LawfulCodec`, `LawfulConfig`, `LawfulVerifier`, `CollisionFree`)
are assumed, and only where a lemma lists them. `Provider` may answer the same request differently
each time.

## Where the code does not do what one would expect

- `ReadBlob` returns nil bytes and a nil error on a digest mismatch, because it wraps an error that is nil
  there (`Oci.MismatchIsSilent`). `VerifyImage` is saved by its parsers, all of which reject empty input:
  `VerifyImage.SignedDeterminesImage` holds with the mismatch included.
- "The status is the outcome of the last update in file-lock order" is false, because a failing `update`
  gives up the file lock before it reports (`TrustProviderOrder.LateFailureOverwrites`). With nothing in
  flight it holds exactly when no failure is reported after that outcome (or only one that reads the same), and
  always when the status has no error
  (`LastLockedDecidesExactly`, `SuccessIsNeverStale`).
- `TrustedRoot` returns a status whose `LastUpdated` is always nil (`TrustProviderSafety.TrustedRootClient`).
- The root cache does not replay after every interrupted walk, because a failed write can leave a torn file
  (`RootReplay.TornWriteBreaksReplay`). After any history it replays exactly when no version's last write was
  torn short, save for a version of which go-tuf rejects both the whole root and the piece
  (`RootReplay.ReplaysExactlyWhenUntorn`); a later whole write
  of the same version heals it, and a walk that ends normally heals all. That is with local files that
  open and read. Offline, a cached root that is there but does not read is answered like a missing one
  (roots/roots.go:300-309), so that the walk ends normally on a silently shorter chain;
  `RootOffline.LocalFailuresDecideExactly` and `ReplaysExactlyUnhindered` give the exact condition with
  every local failure.
- Online the cache key is the last path element only, so a file elsewhere on the server under a root's
  name would replace that root (`RootReplay.ForeignFileReplacesRoot`); offline nothing is found if the
  base URL ends in a slash (`RootReplay.OfflineNeedsPlainBase`). Neither input occurs today: `NewTrustProvider`
  always takes the default base URL, without a slash (roots/roots.go:52, 83), and of targets only
  `trusted_root.json` is asked for (roots/roots.go:237).
- A builder repository URI with an '@' makes two different signatures share one name
  (`Naming.AtSignMakesNamesAmbiguous`); `Naming.NameRoundTrip` is exact about that one exception.
- From a JSON number `anyToInt64` is exact up to 2^53 and, while the rounded value fits in int64, loses every
  odd integer of greater magnitude (`Float64.OddIntegerIsLost`).

## Layout

`Wrappers`, `Text`, `Hex`, `Decimal`, `Float64` and `StableSort` hold what the Go standard library does;
`Naming`, `RekorBundle`, `Oci`, `Resolve`, `VerifyImage`, `VerifyArtifact`, `ManifestMemo`,
`ProviderLoading`, `ReaderAt`, `RootCache`, `RootReplay` and `RootOffline` follow the source files;
`HardenedExample` is a registry whose image is accepted.
`ResolveExactly` and `VerifyImageExactly` say what is resolved and accepted, with every constant of the
formats written out once more and without the code's own predicates.
`TrustProvider` is the step system, `TrustProviderSafety`, `TrustProviderProgress`, `TrustProviderOrder` and
`TrustProviderCauses` what is proved of it. `dafny verify dfyconfig.toml` checks everything.

## Model

| member | source | states |
|---|---|---|
| `TrustProviderSafety.RunKeepsInv` | roots/roots.go:149-243 | every interleaving of constructor, updates, waiters, ticks and other processes keeps the lock ownership, status and channel invariant, and the history of writes under `mu` only grows |
| `TrustProviderSafety.PublishedIsFold` | roots/roots.go:149-181 | whenever no writer is inside `mu`, status and client are the fold over the history: the client is the latest success's or the constructor's, updated from the first success on, in error exactly when the latest write failed |
| `TrustProviderSafety.LastUpdatedStays` | roots/roots.go:149-181 | `LastUpdated` once set never goes back to nil in any continuation |
| `TrustProviderSafety.TrustedRootClient` | roots/roots.go:183-243 | a finished `TrustedRoot` has a client and no `LastUpdated`; without error the latest write it could see was the success that published its very client |
| `TrustProviderCauses.LatestWriteDecides` | roots/roots.go:183-202 | what `wait` does next is decided by the latest write it saw: after a success that success's client at once and without error, after a failure the first time an update of its own, otherwise waiting |
| `TrustProviderCauses.SelectActsOnOutcome` | roots/roots.go:202-211 | in the select a waiter acts on the outcome its update really wrote: a success sends it back to look, a failure ends the call with it, the context with its cause, the timer sends it back |
| `TrustProviderCauses.EverythingHasACause` | roots/roots.go:149-243 | in every run a call fails only with its own context's cause or the error of the update it launched; every published client and reported error is what the library gave that update, the first client what it gave the constructor |
| `TrustProviderCauses.HealthyCallSucceeds` | roots/roots.go:183-193 | a call that finds the latest update successful and `mu` free gets its client without an error |
| `TrustProviderCauses.SuccessIsTimed` | roots/roots.go:176-179 | a success is timed by the clock of its own write: not before any moment at which its update had yet to write, not after any at which it had written |
| `TrustProviderCauses.OfflineAttemptSaves` | roots/roots.go:95-113 | if the online attempt fails and the offline one gives a client, construction succeeds with it and is online again |
| `TrustProviderSafety.CreationIsExclusive` | roots/roots.go:62-66 | at most one thread, constructor or process is ever inside locked client creation or refresh |
| `TrustProviderSafety.OfflineOnlyInConstructor` | roots/roots.go:95-113 | the fetcher is offline only in the constructor's second attempt under the file lock, or after a failed construction; no update exists then |
| `TrustProviderSafety.LastUpdatedIsMonotone` | roots/roots.go:176-180 | success times never decrease along the history nor exceed the clock |
| `TrustProviderSafety.LockOrder` | roots/roots.go:149-162 | whoever waits for the file lock, or waits before or inside `mu.Lock` to report a failure, holds no lock; no channel holds more than one message |
| `TrustProviderSafety.UpdateStepGood` | roots/roots.go:149-181 | each step of `update` keeps the shared and its own part of the invariant and changes nothing but what its locks allow |
| `TrustProviderSafety.WaitStepGood` | roots/roots.go:183-237 | each step of `wait` and `TrustedRoot` keeps the invariant and changes only the set of readers |
| `TrustProviderSafety.OthersKeepGood` | roots/roots.go:149-243 | a step of one task keeps every other task's part of the invariant |
| `TrustProviderSafety.SendKeepsInv` | roots/roots.go:196-203 | the send on the waiter's channel keeps the invariant |
| `TrustProviderSafety.LaunchKeepsInv` | roots/roots.go:195-200 | the `go` statement of `wait` keeps the invariant |
| `TrustProviderSafety.ConstructKeepsInv` | roots/roots.go:48-127 | each step of the constructor keeps the invariant |
| `TrustProvider.ReplayMeaning` | roots/roots.go:150-181 | what the fold says of client, `LastUpdated` and error, for any history |
| `TrustProvider.ReadyMeaning` | roots/roots.go:191-193 | `wait` returns at once exactly when the very last write was a success, and then with that success's client |
| `TrustProviderProgress.NobodyIsStuck` | roots/roots.go:149-243 | no deadlock, with pending writers keeping readers out: from every reachable state every update and every `TrustedRoot` can run to its end |
| `TrustProviderProgress.UpdateCanFinish` | roots/roots.go:149-203 | an update can always finish, even after the `wait` that launched it returned |
| `TrustProviderProgress.RootCanFinish` | roots/roots.go:183-237 | a `TrustedRoot` call can always reach its answer |
| `TrustProviderProgress.ReleaseFile` | roots/roots.go:158-162 | whoever holds the file lock can give it up while another update waits for it |
| `TrustProviderProgress.DrainMu` | roots/roots.go:149-212 | whoever is inside `mu` or announced to it can leave it without help from anybody outside |
| `TrustProviderProgress.DrainReaders` | roots/roots.go:186-189 | the readers inside `mu` can all leave, also while a pending writer keeps new ones out |
| `TrustProviderProgress.UpdateAdvances` | roots/roots.go:149-203 | an update whose lock is free has an enabled step that brings it nearer its end |
| `TrustProviderProgress.SendAdvances` | roots/roots.go:185-199 | the send of a launched update never blocks, whether or not its waiter still reads the channel |
| `TrustProviderOrder.RunKeepsOrder` | roots/roots.go:149-181 | in every run each update locks at most once and writes one outcome, and a success is written after every run that locked and wrote before |
| `TrustProviderOrder.SuccessesFollowLockOrder` | roots/roots.go:158-180 | successes are published in the order in which the file lock was taken |
| `TrustProviderOrder.LastLockedDecidesExactly` | roots/roots.go:149-181 | with nothing in flight the status shows the last write, and that is the outcome of the last run to lock if and only if no failure was reported after it; the shown status is then that outcome, or happens to be the same error |
| `TrustProviderOrder.SuccessIsNeverStale` | roots/roots.go:149-181 | with nothing in flight a status without error is the success of the last run to lock |
| `TrustProviderOrder.LateFailureOverwrites` | roots/roots.go:150-162 | a concrete run in which the first run's failure, reported late, overwrites the second run's success |
| `RootCache.AirgappedFetcher.DownloadFile` | roots/roots.go:252-310 | the new cache and the answer, online and offline, with every local failure: a directory that does not open, a torn write, and offline a file that is there but does not read |
| `RootCache.AirgappedFetcher.LoadRoot` | vendor/github.com/theupdateframework/go-tuf/v2/metadata/updater/updater.go:487-522 | the loop over versions, with every download, read and persisting failure, computes the recursive online or offline walk |
| `RootReplay.OfflineTimestamp` | roots/roots.go:279-289 | offline the cached timestamp is answered exactly when it is there and reads, an error when the directory does not open, else 404 |
| `RootReplay.OnlineIsTransparent` | roots/roots.go:253-278 | online a download answers with the server's own bytes or error, and changes nothing but the file of a root |
| `RootReplay.HealthyOnlineWalk` | vendor/github.com/theupdateframework/go-tuf/v2/metadata/updater/updater.go:487-522 | where nothing fails the online walk is the server's own |
| `RootReplay.HealthyOnlineWalkIsComplete` | vendor/github.com/theupdateframework/go-tuf/v2/metadata/updater/updater.go:487-522 | and returns all of the server's roots, ending on 404, if and only if they are valid |
| `RootCache.KeysAgree` | roots/roots.go:268-294 | for every version the online cache key and the offline exact-URL test agree, and the URL is not the timestamp's |
| `RootCache.RootNameInjective` | roots/roots.go:269-273 | different versions are cached under different names |
| `RootCache.OnlineRoot` | roots/roots.go:253-278 | a served root is cached under its version's name, whole, torn or not at all |
| `RootCache.OfflineRoot` | roots/roots.go:290-309 | offline a root is answered from the cache by its version alone, and one that does not read like a missing one |
| `RootReplay.WalkCovers` | roots/roots.go:252-278 | however one online walk ends, the cached versions stay contiguous, include every version the walk accepted and hold only pieces of the server's bytes |
| `RootReplay.CompleteWalkHeals` | roots/roots.go:252-278 | a walk that ends normally leaves every cached version faithful and was the walk of a server at the highest cached version |
| `RootReplay.HistoryCovers` | roots/roots.go:252-278 | after any history of walks and other downloads the cached versions run on from the embedded one at least to the highest reached and no further than the server went |
| `RootReplay.CacheEndsAtReached` | roots/roots.go:252-278 | after any history the cache ends with the highest version reached or the one after it |
| `RootReplay.OfflineIsServerWalk` | roots/roots.go:290-309 | the offline walk over faithful files is the walk of a server frozen at the highest cached version |
| `RootReplay.OfflineReplaysHistory` | roots/roots.go:252-310 | after any history that tore no write the cache reaches at least the highest version reached, and the offline walk is that of the server: it returns the server's roots byte for byte and stops on 404 if and only if they are valid |
| `RootReplay.OfflineRepeatsCompleteWalk` | roots/roots.go:252-310 | right after a walk that ended normally the offline walk returns that walk's own result, whatever was torn before |
| `RootReplay.ReplaysExactlyWhenFaithful` | roots/roots.go:252-310 | over any contiguous cache the offline walk repeats a valid chain if and only if every cached root has the server's bytes |
| `RootReplay.ReplaysExactlyWhenUntorn` | roots/roots.go:252-310 | after any history at all the offline walk, with local files that open and read, repeats the server's if and only if no version's last write was torn short with go-tuf accepting the whole or the piece |
| `RootOffline.ReplaysExactlyUnhindered` | roots/roots.go:279-309 | after any history and under any local failures the offline walk repeats the server's if and only if no torn write matters, every version it asks for opens and reads, and every one it accepts persists |
| `RootOffline.LocalFailuresDecideExactly` | roots/roots.go:281-309 | an offline walk is the healthy one if and only if no local failure hinders it; otherwise the first that does decides where it is cut, normally for a file that does not read and with an error for the others |
| `RootOffline.HinderedWalk` | roots/roots.go:290-309 | up to the first failure that matters the walk goes on as if the local files were healthy |
| `RootReplay.CacheIsLastWrites` | roots/roots.go:268-276 | after any history the file of each version is exactly what its last write left, and absent if it was never written |
| `RootReplay.FaithfulExactly` | roots/roots.go:268-276 | every cached root has the server's bytes if and only if no version's last write was torn short |
| `RootReplay.WalkStores` | roots/roots.go:252-278 | one walk writes exactly the versions it requests, each as the disk allowed, and leaves the others alone |
| `RootReplay.WrittenIsChecked` | vendor/github.com/theupdateframework/go-tuf/v2/metadata/updater/updater.go:493-520 | only versions whose predecessors were all accepted are ever written |
| `RootReplay.ServerWalkIsRoots` | vendor/github.com/theupdateframework/go-tuf/v2/metadata/updater/updater.go:487-522 | the server's walk ends on 404 exactly when its roots are valid, and then returns all of them |
| `RootReplay.TornWriteBreaksReplay` | roots/roots.go:273-275 | for every valid server a single walk whose last write is torn short is a history after which the offline walk is not the server's |
| `RootReplay.TornWriteIsUnfaithful` | roots/roots.go:273-275 | a failed write leaves a torn file that is not the server's |
| `RootReplay.ForeignFileReplacesRoot` | roots/roots.go:268-294 | a foreign URL whose last element is a root's name replaces that root in the cache and is itself not found offline |
| `RootReplay.OfflineNeedsPlainBase` | roots/roots.go:290-309 | a cached root is found offline if and only if the base URL does not end in a slash |
| `VerifyImage.VerifyImage` | verifier.go:128-339 | every branch and error of the method, in order, as one specification function |
| `VerifyImageExactly.AcceptedExactly` | verifier.go:128-339 | acceptance is equivalent to the written-out conditions on the bytes read: image, attestation with SLSA provenance about it, signature manifest about that, layer, payload, verifier options and answer, and the information reported |
| `VerifyImageExactly.NoSigChainExactly` | verifier.go:134-139 | the missing-chain error is given exactly when the index resolves to a chain without signature, and tells whether there is an attestation (registries do not give that error of the library) |
| `VerifyImage.HasSLSALayer` | verifier.go:163-172 | the loop finds a SLSA layer if and only if there is one |
| `VerifyImage.ManifestIsAuthentic` | image/resolve.go:230-239 | a manifest that parsed was read whole and carries its descriptor's digest, silent mismatch included |
| `VerifyImage.LayerNamesAttestation` | verifier.go:222-284 | what was signed is the attestation itself or a payload naming its digest, and then the layer carries the payload's digest |
| `VerifyImage.AcceptedHasCustody` | verifier.go:128-339 | every acceptance has a custody chain: signed bytes, attestation bytes, subject, image |
| `VerifyImage.CustodyDeterminesImage` | verifier.go:151-162 | with a collision-free digest two custody chains over the same signed digest end at one image digest, size and reference |
| `VerifyImage.SignedDeterminesImage` | verifier.go:128-339 | two acceptances of the same format and artifact digest, over any registries, indexes, platforms and environments, are of the same image |
| `VerifyImage.IndexIsAuthentic` | image/resolve.go:125-144 | the bytes named by the index descriptor decide whether the chain is marked hardened, and with the platform which image it is |
| `VerifyImage.IndexDeterminesImage` | image/resolve.go:125-144 | with a collision-free digest, one index digest and one platform resolve to the same image over any two registries |
| `VerifyImage.HardenedImageProvenance` | verifier.go:222-338 | the hardened-image kind comes only from an authentic hardened index and the simple-signing layer of this run's own signature manifest, whose digest is that of a payload binding a non-empty reference to the attestation; without observer timestamps the entity verified has no transparency entries |
| `VerifyImage.CertifiedKindsComeFromFulcio` | verifier.go:286-338 | a kind that names a certified signer comes exactly from a chain that is not hardened and a Sigstore certificate, and then this run's signature layer was verified against Fulcio with timestamp, transparency log, SCT and certificate identity; a hardened chain is hardened or untrusted (the hardened root has no certificate authorities) |
| `HardenedExample.HardenedImageIsAccepted` | verifier.go:128-339 | the premises of the image theorems can be met: in a small honest registry a hardened image is accepted as such |
| `Oci.RawDigestOf` | verifier.go:422-429 | the raw digest of a computed digest is its algorithm and its hash |
| `Oci.RawDigestExactly` | verifier.go:422-429 | a raw digest is exactly algorithm, colon and base16 of the hash |
| `Oci.DigestDeterminesContent` | verifier.go:422-429 | with a collision-free hash the raw digest determines the content |
| `Oci.ReadBlobVerdict` | image/resolve.go:230-239 | bytes returned are never of the wrong digest; no bytes may hide a mismatch |
| `Oci.ReadBlobExactly` | image/resolve.go:230-239 | bytes are returned exactly when they have the digest and are the inline data that has it or else what the registry answered |
| `Oci.MismatchIsSilent` | image/resolve.go:235-237 | fetching the wrong bytes gives no bytes and no error |
| `Resolve.ResolveImageManifest` | image/resolve.go:40-68 | the result of filter, stable sort and first is the earliest least eligible manifest; the error arises exactly when nothing is eligible |
| `Resolve.FilterManifests` | image/resolve.go:43-52 | the loop keeps exactly the eligible manifests, in order |
| `Resolve.ByPlatformIsStrictWeakOrder` | image/resolve.go:54-62 | the nil-last comparator is a strict weak order whenever the platform order is |
| `Resolve.FirstOfSorted` | image/resolve.go:40-68 | filter, stable sort, first is a one-pass scan for the earliest least manifest |
| `Resolve.ChosenIsUnique` | image/resolve.go:54-67 | the choice is unique, and lacks a platform exactly when every eligible manifest does |
| `Resolve.SortIsStablePartition` | image/resolve.go:213-222 | sorting the referrers is the stable partition into bundles and the rest |
| `Resolve.SelectSignature` | image/resolve.go:200-226 | the signature is the first bundle, else the first cosign entry, else none |
| `Resolve.FirstProvenance` | image/resolve.go:157-169 | the first in-toto referrer with a SLSA predicate type |
| `Resolve.FindAttestation` | image/resolve.go:171-176 | the first index entry that is an attestation of the image |
| `Resolve.ResolveSignatureChain` | image/resolve.go:120-228 | the whole resolution as one specification without filtering and sorting |
| `ResolveExactly.ChainExactly` | image/resolve.go:120-228 | an index resolves to a chain exactly when, with all media types and annotations written out, the image is the best for the platform, the attestation the first that refers to it and the signature the preferred referrer |
| `ResolveExactly.AttestationExactly` | image/resolve.go:146-177 | the attestation is the earliest index entry whose annotations make it an attestation of this very image, or of a hardened image its earliest provenance referrer, and there is none exactly if there is no such entry |
| `ResolveExactly.ImageExactly` | image/resolve.go:40-68 | the image is the earliest of the best manifests of the two media types that suit the platform |
| `ResolveExactly.SignatureExactly` | image/resolve.go:200-226 | the signature is the earliest referrer with the bundle type if any, else the earliest with the cosign type |
| `Resolve.SignatureMissingExactly` | image/resolve.go:186-227 | there is no signature exactly when there is no attestation or no referrer of either type |
| `StableSort.SortedIsStable` | image/resolve.go:54-62 | the modelled sort is an ordered permutation that keeps equivalent elements in order |
| `StableSort.StableSortIsUnique` | image/resolve.go:54-62 | a sequence is a stable sort of another if and only if it is the modelled one, so the library's algorithm does not matter |
| `ManifestMemo.RunKeepsInv` | image/resolve.go:85-118 | in every interleaving data hashes to its digest, the manifest is the parse of the data, and neither changes once stored |
| `ManifestMemo.CallersAgree` | image/resolve.go:85-118 | at most one fetch stores; all bytes handed out are equal; no caller gets a nil manifest with a nil error; every manifest is the parse of those bytes |
| `ManifestMemo.HonestCallersSucceed` | image/resolve.go:85-118 | where the provider answers with the bytes the descriptor names every caller that returns gets them or their parse |
| `ManifestMemo.NoDeadlock` | image/resolve.go:85-118 | a caller that cannot step waits for the mutex, whose holder can |
| `ProviderLoading.OneProvider` | verifier.go:341-365 | in every run at most one provider is constructed, `v.tp` is written at most once, and every successful caller gets that provider |
| `ProviderLoading.FailedFlightRetries` | verifier.go:341-356 | a failed flight leaves `v.tp` nil and the next caller constructs again |
| `ProviderLoading.FailuresHaveCauses` | verifier.go:341-365 | a caller fails only with the error of a construction that failed in the run; where none fails every caller gets the provider |
| `ProviderLoading.LaterCallersSucceed` | verifier.go:341-365 | once a provider is stored every later caller gets it and none fails |
| `ProviderLoading.RunKeepsInv` | vendor/golang.org/x/sync/singleflight/singleflight.go:91-115 | every run keeps the flight, result and memo invariant, and `v.tp` once set stays |
| `ProviderLoading.NoDeadlock` | vendor/golang.org/x/sync/singleflight/singleflight.go:91-115 | a caller that cannot step waits for a call whose leader can |
| `VerifyArtifact.VerifyArtifact` | verifier.go:50-126 | every branch and error of the method, in order, as one specification function |
| `VerifyArtifact.AcceptedExactly` | verifier.go:50-126 | acceptance is equivalent to the bundle, with the demands written out, vouching for the very digest given, by a certificate and unless waived for SLSA provenance, and the answer reported as it is |
| `VerifyArtifact.ThresholdExactly` | verifier.go:89-96 | the threshold is the last one given, or the number of distinct logs if none is |
| `VerifyArtifact.ApplyOpts` | verifier.go:50-54 | of any option list the last threshold option decides |
| `VerifyArtifact.DistinctLogs` | verifier.go:88-93 | the map loop computes the number of distinct logs |
| `VerifyArtifact.VerifiedLogs` | verifier.go:84-108 | success with the default threshold verified every distinct log of the bundle, otherwise at least as many as the last option asks |
| `VerifyArtifact.OnlyLastThresholdIsTested` | verifier.go:55-57 | only the final threshold is tested for being negative |
| `ReaderAt.ReaderAt.ReadAt` | cmd/policy-helper/utils.go:145-175 | `offset` is the stream's position; a nil error means the whole buffer is the content at `off`, any other result is a correct prefix; and over a stream that does not fail a reachable offset gives all that was asked for or all there is and EOF |
| `ReaderAt.ReaderAt.ReadFull` | cmd/policy-helper/utils.go:161-174 | the loop over short reads and EOF fills the buffer from the current position, or stops with an error |
| `ReaderAt.ReaderAt.ReadBlob` | vendor/github.com/containerd/containerd/v2/core/content/helpers.go:95-105 | over this reader no error means exactly the first `size` bytes, and over a stream that does not fail there is none exactly when the content is that long |
| `ReaderAt.SlicesJoin` | cmd/policy-helper/utils.go:162-169 | consecutive correct reads make one correct read |
| `Naming.BothTestsPinRepository` | types/name.go:87-172 | a signer passing both GitHub tests has a builder repository or one extending it by the workflows directory |
| `Naming.BothTestsExactly` | types/name.go:87-172 | exactly which repositories some signature passes both tests with |
| `Naming.OrderOfGithubTestsImmaterial` | types/name.go:19-33 | swapping the two tests changes the kind exactly when both pass on a signature that is not hardened |
| `Naming.KindExactly` | types/name.go:19-33 | what each kind certifies, with every issuer, prefix, runner, timestamp and format written out, and that nothing else gives it |
| `Naming.WorkflowsSelfOverlap` | types/name.go:158-165 | two occurrences of the workflows path overlap at most in one character |
| `Naming.NameDefined` | types/name.go:35-75 | `Name` dereferences a nil signer exactly when the kind needs one and there is none, never on a detected kind |
| `Naming.NameRoundTrip` | types/name.go:35-75 | a parser recovers everything the name was printed from, except for a builder repository with an '@' |
| `Naming.AtSignMakesNamesAmbiguous` | types/name.go:45-53 | with an '@' two different signatures share a name, so no parser can do better |
| `Naming.BuilderRoundTrip` | types/name.go:40-53 | the builder's name is recovered if and only if its repository URI has no '@' |
| `Naming.PersonalRoundTrip` | types/name.go:59-70 | local flag, issuer class and subject are recovered |
| `RekorBundle.ParseRekorBundle` | hashedrecordbundle.go:235-323 | the field-by-field parse is the meaning of the JSON value |
| `RekorBundle.FillFromOld` | hashedrecordbundle.go:291-322 | of top-level and nested fields the first useful one wins |
| `RekorBundle.SpellingsAgree` | hashedrecordbundle.go:235-323 | all spellings of one signed record, new or old shape, strings or numbers, top level, nested or both, parse to it |
| `RekorBundle.SpelledNew` | hashedrecordbundle.go:253-271 | every new-shape spelling of a signed record is recognised as new and read as that record, log ID in lower case |
| `RekorBundle.UselessFieldIsAbsent` | hashedrecordbundle.go:296-321 | a top-level field that is zero, empty or unusable behaves as absent |
| `RekorBundle.SpelledInt` | hashedrecordbundle.go:325-345 | decimal strings over the int64 range and JSON numbers up to 2^53 read back exactly |
| `RekorBundle.LogKeyAsWritten` | hashedrecordbundle.go:105-118 | lower-casing the log ID leaves the decoded log key as written |
| `RekorBundle.EntryIsTheRecord` | hashedrecordbundle.go:105-136 | a record's text gives exactly one entry with the record's own index, time, key, body and signature, if the library accepts it |
| `RekorBundle.TopLevelWins` | hashedrecordbundle.go:291-321 | in the old shape a useful top-level field wins over whatever is nested |
| `Hex.DecodeIgnoresCase` | hashedrecordbundle.go:114-117 | lower-casing never changes what base16 decodes to, nor whether it decodes (section 8 of RFC 4648) |
| `Hex.DecodeEncode` | verifier.go:422-429 | base16 decoding inverts encoding |
| `Hex.EncodeDecode` | hashedrecordbundle.go:114-117 | what decodes is, in lower case, the encoding of what it decodes to |
| `Decimal.ParseFormat` | hashedrecordbundle.go:333-337 | decimal strings round-trip on the whole int64 range and fail outside it |
| `Decimal.ParseIntExactly` | hashedrecordbundle.go:333-337 | exactly the int64 values in decimal digits with an optional sign are parsed |
| `Float64.IntegerThroughFloat` | hashedrecordbundle.go:329-330 | a JSON integer is off by at most half a unit in the last place, and exact if and only if it is a binary64 value |
| `Float64.SmallIntegerThroughFloat` | hashedrecordbundle.go:329-330 | every integer of magnitude at most 2^53 is exact |
| `Float64.TruncatesTowardZero` | hashedrecordbundle.go:329-330 | a fraction is dropped towards zero on both sides of it |
| `Float64.OddIntegerIsLost` | hashedrecordbundle.go:329-330 | every odd integer of magnitude beyond 2^53 whose rounded value fits in int64 is lost |

## Left out

- Cryptography, certificates, transparency proofs: `verify` is an oracle; only `VerifiedLogs` assumes anything of it (it counts distinct logs of the bundle).
- TUF metadata signatures, expiry and versions: `accepts` is an arbitrary check of a new root against the chain so far.
- What go-tuf persists in its own metadata directory: its failure after an accepted root ends the walk, but the files themselves are not modelled.
- JSON text: parsing is an abstract function to a JSON value; case-insensitive and duplicate keys, partially decoded values after a type error, and overflow inside a discarded `any` are not modelled.
- Base64, X.509, PEM and URL parsing: arbitrary functions.
- `strings.ToLower` beyond ASCII: any function that makes no base16 digit of a character that is none.
- Fairness: a pending writer keeps new readers out of `mu`, as in Go, but which waiting task goes next is arbitrary; the progress lemmas say that a finishing continuation exists, not that every scheduler takes it. Other processes are taken to be able to release the file lock.
- `TrustProvider`, `Manifest` and `Verifier` are values changed by steps rather than classes, because their fields are shared by concurrent goroutines; what that does not capture is aliasing of the client after it was handed out.
- The target lookup after `wait` (`GetTarget`, parsing the trusted root) and concurrent use of one TUF client by several goroutines.
- Panics: in `singleflight`, and in `VerifyArtifact` when a verified bundle has no statement; a digest without a colon, on which the digest library panics, counts as an error in `Oci.RawDigest`.
- `sort.SliceStable` and `slices.SortStableFunc` are an insertion sort; `StableSortIsUnique` shows that any stable sort gives the same result.
- `platforms.Only`: an arbitrary match predicate and strict weak order.
- A seek that fails is taken to leave the stream where it was, and a stream to make only finitely many empty reads without an error; `Close` is not modelled.
- `time.After` and context deadlines: steps that may happen at any time.
- `copyEmbeddedRoot`, `providerFromRef`, the registry hosts, `githubapi`, the `image/dhi.go` context wrappers, the command line and formatting: plumbing that would add only easy members.
