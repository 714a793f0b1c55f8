/**
 * The memo fields of `image.Manifest` under any number of concurrent `ManifestBytes` and
 * `OCIManifest` callers: a step system in which every lock, unlock, read and write is a step.
 */
module ManifestMemo {
  import opened Wrappers
  import opened Hex
  import opened Oci

  type Read = Result<Option<Bytes>, Error>

  /** Where a caller is. `oci` tells `OCIManifest`'s inner call of `ManifestBytes` from a direct one. */
  datatype Pc =
    | OciLock                          // before the lock of line 100
    | OciCheck                         // locked, before the nil test of `m.manifest`
    | OciUnlock(hit: bool)             // locked, test made
    | OciReload                        // unlocked after a hit, about to read `m.manifest` again
    | BytesLock(oci: bool)             // before the lock of line 86
    | BytesCheck(oci: bool)            // locked, before the nil test of `m.data`
    | Fetching(oci: bool)              // locked, inside ReadBlob
    | BytesUnlock(oci: bool, r: Read)  // locked, result in hand
    | Parsing(r: Read)                 // unlocked, about to unmarshal
    | StoreLock(m: Manifest)           // before the lock of line 114
    | Store(m: Manifest)               // locked, before the write
    | StoreUnlock(m: Manifest)         // locked, written
    | BytesDone(r: Read)
    | OciDone(result: Result<Option<Manifest>, Error>)
  {
    predicate Holds() {
      OciCheck? || OciUnlock? || BytesCheck? || Fetching? || BytesUnlock? || Store? || StoreUnlock?
    }

    predicate Finished() {
      BytesDone? || OciDone?
    }
  }

  /** The shared fields; `stores` counts the fetches whose bytes were stored. */
  datatype Memo = Memo(mu: Option<nat>, data: Option<Bytes>, manifest: Option<Manifest>, stores: nat)

  datatype State = State(memo: Memo, threads: map<nat, Pc>)

  const INITIAL := State(Memo(None, None, None, 0), map[])

  /** `Advance` runs one step of a caller; `reply` is what the provider answers if it is fetching. */
  datatype Step = Call(t: nat, oci: bool) | Advance(t: nat, reply: Result<Bytes, Error>)

  function Answering(reply: Result<Bytes, Error>): Provider {
    Provider.Provider((_, _, _) => reply, (_, _, _) => Success([]))
  }

  function AfterParse(lib: Library, r: Read): Pc {
    match r
    case Failure(e) => OciDone(Failure(e))
    case Success(dt) =>
      match lib.parseManifest(Content(dt)) case Some(m) => StoreLock(m) case None => OciDone(Failure(BadManifest))
  }

  /** One step of caller `t` at `pc`; `None` when it is finished or waits for the lock. */
  function Advanced(lib: Library, desc: Descriptor, s: Memo, t: nat, pc: Pc, reply: Result<Bytes, Error>)
    : Option<(Memo, Pc)>
  {
    match pc
    case OciLock => if s.mu.Some? then None else Some((s.(mu := Some(t)), OciCheck))
    case OciCheck => Some((s, OciUnlock(s.manifest.Some?)))
    case OciUnlock(hit) => Some((s.(mu := None), if hit then OciReload else BytesLock(true)))
    case OciReload => Some((s, OciDone(Success(s.manifest))))
    case BytesLock(oci) => if s.mu.Some? then None else Some((s.(mu := Some(t)), BytesCheck(oci)))
    case BytesCheck(oci) => Some((s, if s.data.Some? then BytesUnlock(oci, Success(s.data)) else Fetching(oci)))
    case Fetching(oci) =>
      var r := ReadBlob(lib, Answering(reply), false, 0, desc);
      var s' := if r.Success? && r.value.Some? then s.(data := r.value, stores := s.stores + 1) else s;
      Some((s', BytesUnlock(oci, r)))
    case BytesUnlock(oci, r) => Some((s.(mu := None), if oci then Parsing(r) else BytesDone(r)))
    case Parsing(r) => Some((s, AfterParse(lib, r)))
    case StoreLock(m) => if s.mu.Some? then None else Some((s.(mu := Some(t)), Store(m)))
    case Store(m) => Some((s.(manifest := Some(m)), StoreUnlock(m)))
    case StoreUnlock(m) => Some((s.(mu := None), OciDone(Success(Some(m)))))
    case _ => None
  }

  function Next(lib: Library, desc: Descriptor, s: State, step: Step): Option<State> {
    match step
    case Call(t, oci) =>
      if t in s.threads then None else Some(s.(threads := s.threads[t := if oci then OciLock else BytesLock(false)]))
    case Advance(t, reply) =>
      if t !in s.threads then None
      else match Advanced(lib, desc, s.memo, t, s.threads[t], reply)
        case Some((memo, pc)) => Some(State(memo, s.threads[t := pc]))
        case None => None
  }

  function Run(lib: Library, desc: Descriptor, s: State, steps: seq<Step>): Option<State>
    decreases |steps|
  {
    if steps == [] then Some(s)
    else match Next(lib, desc, s, steps[0])
      case Some(s') => Run(lib, desc, s', steps[1..])
      case None => None
  }

  // ---- The invariant ----

  /** The memo holds a manifest only as the parse of the data it also holds. */
  predicate IsParse(lib: Library, s: Memo, m: Manifest) {
    s.data.Some? && lib.parseManifest(s.data.value) == Some(m)
  }

  predicate GoodMemo(lib: Library, desc: Descriptor, s: Memo) {
    && (s.data.Some? ==> desc.digest == DigestOf(lib, s.data.value))
    && (s.manifest.Some? ==> IsParse(lib, s, s.manifest.value))
    && s.stores == (if s.data.Some? then 1 else 0)
  }

  predicate GoodRead(s: Memo, r: Read) {
    r.Success? && r.value.Some? ==> s.data == r.value
  }

  predicate GoodThread(lib: Library, s: Memo, t: nat, pc: Pc) {
    && (pc.Holds() <==> s.mu == Some(t))
    && match pc
       case OciUnlock(hit) => hit ==> s.manifest.Some?
       case OciReload => s.manifest.Some?
       case Fetching(_) => s.data.None?
       case BytesUnlock(_, r) => GoodRead(s, r)
       case Parsing(r) => GoodRead(s, r)
       case StoreLock(m) => IsParse(lib, s, m)
       case Store(m) => IsParse(lib, s, m)
       case StoreUnlock(m) => IsParse(lib, s, m)
       case BytesDone(r) => GoodRead(s, r)
       case OciDone(r) => r.Success? ==> r.value.Some? && IsParse(lib, s, r.value.value)
       case _ => true
  }

  predicate Inv(lib: Library, desc: Descriptor, s: State) {
    && GoodMemo(lib, desc, s.memo)
    && (s.memo.mu.Some? ==> s.memo.mu.value in s.threads)
    && (forall t :: t in s.threads ==> GoodThread(lib, s.memo, t, s.threads[t]))
  }

  /** What no step undoes: bytes once stored, the manifest once stored. */
  predicate Preserves(s: Memo, s': Memo) {
    && (s.data.Some? ==> s'.data == s.data)
    && (s.manifest.Some? ==> s'.manifest == s.manifest)
  }

  lemma OwnStep(lib: Library, desc: Descriptor, s: Memo, t: nat, pc: Pc, reply: Result<Bytes, Error>)
    requires LawfulLibrary(lib) && GoodMemo(lib, desc, s) && GoodThread(lib, s, t, pc)
    requires Advanced(lib, desc, s, t, pc, reply).Some?
    ensures var (s', pc') := Advanced(lib, desc, s, t, pc, reply).value;
            && GoodMemo(lib, desc, s') && GoodThread(lib, s', t, pc') && Preserves(s, s')
            && (s'.data != s.data ==> s.mu == Some(t))
            && (if s.mu == Some(t) then s'.mu in {None, Some(t)} else s'.mu == s.mu || (s.mu.None? && s'.mu == Some(t)))
  {}

  lemma OthersStep(lib: Library, s: Memo, s': Memo, t: nat, u: nat, pc: Pc)
    requires GoodThread(lib, s, u, pc) && u != t && Preserves(s, s')
    requires s'.data != s.data ==> s.mu == Some(t)
    requires if s.mu == Some(t) then s'.mu in {None, Some(t)} else s'.mu == s.mu || (s.mu.None? && s'.mu == Some(t))
    ensures GoodThread(lib, s', u, pc)
  {}

  lemma StepKeepsInv(lib: Library, desc: Descriptor, s: State, step: Step)
    requires LawfulLibrary(lib) && Inv(lib, desc, s)
    requires Next(lib, desc, s, step).Some?
    ensures Inv(lib, desc, Next(lib, desc, s, step).value)
    ensures Preserves(s.memo, Next(lib, desc, s, step).value.memo)
  {
    var s' := Next(lib, desc, s, step).value;
    match step
    case Call(t, oci) =>
    case Advance(t, reply) =>
      OwnStep(lib, desc, s.memo, t, s.threads[t], reply);
      forall u | u in s'.threads
        ensures GoodThread(lib, s'.memo, u, s'.threads[u])
      {
        if u != t {
          OthersStep(lib, s.memo, s'.memo, t, u, s.threads[u]);
        }
      }
  }

  /** In every run: the invariant holds, and stored bytes and manifest never change. */
  lemma {:induction false} RunKeepsInv(lib: Library, desc: Descriptor, s: State, steps: seq<Step>)
    requires LawfulLibrary(lib) && Inv(lib, desc, s)
    requires Run(lib, desc, s, steps).Some?
    ensures Inv(lib, desc, Run(lib, desc, s, steps).value)
    ensures Preserves(s.memo, Run(lib, desc, s, steps).value.memo)
    decreases |steps|
  {
    if steps != [] {
      StepKeepsInv(lib, desc, s, steps[0]);
      RunKeepsInv(lib, desc, Next(lib, desc, s, steps[0]).value, steps[1..]);
    }
  }

  // ---- What the callers see ----

  predicate ReturnedBytes(s: State, t: nat, dt: Bytes) {
    t in s.threads && s.threads[t] == BytesDone(Success(Some(dt)))
  }

  predicate ReturnedManifest(s: State, t: nat, m: Option<Manifest>) {
    t in s.threads && s.threads[t] == OciDone(Success(m))
  }

  /**
   * However the callers interleave and whatever the provider answers, at most one fetch stores
   * anything; all bytes handed out are the same and have the descriptor's digest; and a
   * manifest handed out without error is not nil and is the parse of those bytes.
   */
  lemma CallersAgree(lib: Library, desc: Descriptor, steps: seq<Step>, s: State)
    requires LawfulLibrary(lib)
    requires Run(lib, desc, INITIAL, steps) == Some(s)
    ensures s.memo.stores <= 1
    ensures forall t, dt :: ReturnedBytes(s, t, dt) ==> desc.digest == DigestOf(lib, dt)
    ensures forall t, u, dt, dt' :: ReturnedBytes(s, t, dt) && ReturnedBytes(s, u, dt') ==> dt == dt'
    ensures forall t, m :: ReturnedManifest(s, t, m) ==>
              m.Some? && s.memo.data.Some? && desc.digest == DigestOf(lib, s.memo.data.value)
              && lib.parseManifest(s.memo.data.value) == m
    ensures forall t, u, dt, m :: ReturnedBytes(s, t, dt) && ReturnedManifest(s, u, m) ==> lib.parseManifest(dt) == m
  {
    RunKeepsInv(lib, desc, INITIAL, steps);
    forall t, dt | ReturnedBytes(s, t, dt)
      ensures s.memo.data == Some(dt)
    {
      assert GoodThread(lib, s.memo, t, s.threads[t]);
    }
    forall t, m | ReturnedManifest(s, t, m)
      ensures m.Some? && IsParse(lib, s.memo, m.value)
    {
      assert GoodThread(lib, s.memo, t, s.threads[t]);
    }
  }

  // ---- What an honest provider's callers get ----

  /** Whatever a caller has in hand is the right bytes or their parse. */
  predicate HonestPc(pc: Pc, dt: Bytes, m: Manifest) {
    match pc
    case BytesUnlock(_, r) => r == Success(Some(dt))
    case Parsing(r) => r == Success(Some(dt))
    case StoreLock(m') => m' == m
    case Store(m') => m' == m
    case StoreUnlock(m') => m' == m
    case BytesDone(r) => r == Success(Some(dt))
    case OciDone(r) => r == Success(Some(m))
    case _ => true
  }

  predicate HonestState(s: State, dt: Bytes, m: Manifest) {
    && (s.memo.data.Some? ==> s.memo.data.value == dt)
    && (s.memo.manifest.Some? ==> s.memo.manifest.value == m)
    && (forall t :: t in s.threads ==> HonestPc(s.threads[t], dt, m))
  }

  /** Every fetch in the run is answered with `dt`. */
  predicate AnswersWith(steps: seq<Step>, dt: Bytes) {
    forall i :: 0 <= i < |steps| && steps[i].Advance? ==> steps[i].reply == Success(dt)
  }

  lemma HonestStep(lib: Library, desc: Descriptor, s: State, step: Step, dt: Bytes, m: Manifest)
    requires Inv(lib, desc, s) && HonestState(s, dt, m) && lib.parseManifest(dt) == Some(m)
    requires ReadsAs(lib, Answering(Success(dt)), false, 0, desc, dt) && dt != []
    requires Next(lib, desc, s, step).Some? && (step.Advance? ==> step.reply == Success(dt))
    ensures HonestState(Next(lib, desc, s, step).value, dt, m)
  {
    ReadBlobExactly(lib, Answering(Success(dt)), false, 0, desc, dt);
    if step.Advance? {
      assert GoodThread(lib, s.memo, step.t, s.threads[step.t]) && HonestPc(s.threads[step.t], dt, m);
    }
  }

  lemma {:induction false} HonestRun(lib: Library, desc: Descriptor, s: State, steps: seq<Step>, dt: Bytes, m: Manifest)
    requires LawfulLibrary(lib) && Inv(lib, desc, s) && HonestState(s, dt, m) && lib.parseManifest(dt) == Some(m)
    requires ReadsAs(lib, Answering(Success(dt)), false, 0, desc, dt)
    requires Run(lib, desc, s, steps).Some? && AnswersWith(steps, dt)
    ensures HonestState(Run(lib, desc, s, steps).value, dt, m)
    decreases |steps|
  {
    if steps != [] {
      HonestStep(lib, desc, s, steps[0], dt, m);
      StepKeepsInv(lib, desc, s, steps[0]);
      HonestRun(lib, desc, Next(lib, desc, s, steps[0]).value, steps[1..], dt, m);
    }
  }

  /**
   * Where the provider answers with the bytes that the descriptor names, every caller that returns
   * gets those bytes, or their parse, and none fails.
   */
  lemma HonestCallersSucceed(
    lib: Library, desc: Descriptor, steps: seq<Step>, s: State, dt: Bytes, m: Manifest, t: nat)
    requires LawfulLibrary(lib) && lib.parseManifest(dt) == Some(m)
    requires ReadsAs(lib, Answering(Success(dt)), false, 0, desc, dt)
    requires Run(lib, desc, INITIAL, steps) == Some(s) && AnswersWith(steps, dt)
    requires t in s.threads && s.threads[t].Finished()
    ensures s.threads[t] == BytesDone(Success(Some(dt))) || s.threads[t] == OciDone(Success(Some(m)))
  {
    HonestRun(lib, desc, INITIAL, steps, dt, m);
    assert HonestPc(s.threads[t], dt, m);
  }

  /** No caller is ever stuck: one that cannot step waits for the lock, whose holder can. */
  lemma NoDeadlock(lib: Library, desc: Descriptor, steps: seq<Step>, s: State, t: nat, reply: Result<Bytes, Error>)
    requires LawfulLibrary(lib)
    requires Run(lib, desc, INITIAL, steps) == Some(s)
    requires t in s.threads && !s.threads[t].Finished()
    ensures || Next(lib, desc, s, Advance(t, reply)).Some?
            || (s.memo.mu.Some? && Next(lib, desc, s, Advance(s.memo.mu.value, reply)).Some?)
  {
    RunKeepsInv(lib, desc, INITIAL, steps);
    if s.memo.mu.Some? {
      assert GoodThread(lib, s.memo, s.memo.mu.value, s.threads[s.memo.mu.value]);
    }
  }
}
