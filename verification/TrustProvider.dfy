/**
 * `TrustProvider` in `roots/roots.go` as a step system: the constructor, any number of `update`
 * and `TrustedRoot` callers, and other processes sharing the file lock, interleaved arbitrarily.
 * Every lock, unlock, read and write of shared state is a step of its own.
 */
module TrustProvider {
  import opened Wrappers

  type Client = nat
  type Time = nat
  type Message = string

  datatype Status = Status(error: Option<Message>, lastUpdated: Option<Time>)

  /** A critical section of `update` run `author` that changed the provider while holding `mu` for writing. */
  datatype Write = Published(author: nat, client: Client, now: Time) | Reported(author: nat, e: Message)

  datatype Holder = Constructor | Thread(t: nat) | Process(p: nat)

  /** Where the constructor is; it holds the file lock from `CtorPrepare` to `CtorUnlock`. */
  datatype Ctor =
    | CtorStart
    | CtorPrepare
    | CtorFirst                    // inside tuf.New, online
    | CtorSecond                   // inside tuf.New, offline
    | CtorGotClient(c: Client)     // before the write of `tp.client`
    | CtorClientSet                // before `isOnline = true`
    | CtorSpawn                    // before `go tp.update()`
    | CtorUnlock(ok: bool)
    | CtorDone(ok: bool)
  {
    predicate HoldsFile() {
      !CtorStart? && !CtorDone?
    }

    /** Past the point where the first `update` is started. */
    predicate Serving() {
      CtorSpawn? || this == CtorUnlock(true) || this == CtorDone(true)
    }

    predicate HasClient() {
      CtorClientSet? || Serving()
    }
  }

  datatype Pc =
    // update()
    | UpLock                             // before the file lock
    | UpWork                             // file lock held: options, tuf.New, Refresh
    | UpFail(e: Message)                 // file lock held, deferred unlock next
    | UpWantMu(c: Client)                // file lock held, before mu.Lock
    | UpAwaitMu(c: Client)               // inside mu.Lock: readers shut out, waiting for those inside
    | UpHold(c: Client)                  // both held, before the write of `status`
    | UpWrote(c: Client, now: Time)      // both held, before the write of `client`
    | UpPublished                        // both held, deferred mu.Unlock next
    | UpRelease                          // file lock held, deferred unlock next
    | UpReportWant(e: Message)           // nothing held, before mu.Lock of the error defer
    | UpReportAwait(e: Message)          // inside mu.Lock: readers shut out, waiting for those inside
    | UpReport(e: Message)               // mu held, before the write of `status.Error`
    | UpReported(e: Message)             // mu held, before mu.Unlock
    | UpSend(r: Option<Message>)         // returned, about to send on the channel if there is one
    | UpDone
    // wait()
    | WaitWant                           // before mu.RLock
    | WaitRead                           // read lock held, before the read of `status`
    | WaitReadClient(st: Status)         // read lock held, before the read of `client`
    | WaitRelease(st: Status, client: Option<Client>)   // read lock held, before mu.RUnlock
    | WaitDecide(st: Status, client: Option<Client>)
    | WaitSelect
    // the rest of TrustedRoot()
    | RootWant(e: Message)               // wait failed, before mu.RLock
    | RootRead(e: Message)               // read lock held, before the read of `client`
    | RootRelease(e: Message, client: Option<Client>)   // read lock held, before mu.RUnlock
    | RootDone(client: Option<Client>, st: Status)      // about to ask `client` for the target
  {
    predicate HoldsFile() {
      UpWork? || UpFail? || UpWantMu? || UpAwaitMu? || UpHold? || UpWrote? || UpPublished? || UpRelease?
    }

    predicate HoldsMu() {
      UpHold? || UpWrote? || UpPublished? || UpReport? || UpReported?
    }

    predicate AwaitsMu() {
      UpAwaitMu? || UpReportAwait?
    }

    predicate HoldsRead() {
      WaitRead? || WaitReadClient? || WaitRelease? || RootRead? || RootRelease?
    }

    predicate IsUpdate() {
      UpLock? || HoldsFile() || UpReportWant? || UpReportAwait? || UpReport? || UpReported? || UpSend? || UpDone?
    }
  }

  /**
   * An `update` run knows the waiter that launched it, if any. A waiter has its channel and the
   * update it launched (none is `first == true`); `seen` counts the writes made before its last
   * mu.RLock.
   */
  datatype Task = Task(pc: Pc, owner: Option<nat>, child: Option<nat>, ch: seq<Option<Message>>, seen: nat)

  /**
   * `pending` is the writer inside mu.Lock that already keeps new readers out; `history` records
   * the writes under `mu`, `lockOrder` who took the file lock, both in order.
   */
  datatype Shared = Shared(
    status: Status, client: Option<Client>, isOnline: bool,
    file: Option<Holder>, pending: Option<nat>, writer: Option<nat>, readers: set<nat>,
    clock: Time, ctor: Ctor, initial: Client, history: seq<Write>, lockOrder: seq<nat>)

  datatype State = State(shared: Shared, tasks: map<nat, Task>)

  const INITIAL := State(
    Shared(Status(None, None), None, true, None, None, None, {}, 0, CtorStart, 0, [], []), map[])

  /** How the library calls, the clock and `select` resolve in a step. */
  datatype Choice =
    Proceed | Fail(e: Message) | Got(c: Client) | Receive | Cancel(e: Message) | Timeout | Launch(u: nat)

  datatype Step =
    | Construct(choice: Choice)
    | Advance(t: nat, choice: Choice)
    | StartUpdate(t: nat)
    | StartTrustedRoot(t: nat)
    | Tick(d: nat)
    | Take(p: nat)
    | Drop(p: nat)

  // ---- Steps ----

  function ConstructStep(s: Shared, choice: Choice): Option<Shared> {
    match s.ctor
    case CtorStart =>
      if choice.Fail? then Some(s.(ctor := CtorDone(false)))
      else if s.file.None? then Some(s.(file := Some(Constructor), ctor := CtorPrepare))
      else None
    case CtorPrepare => Some(s.(ctor := if choice.Fail? then CtorUnlock(false) else CtorFirst))
    case CtorFirst =>
      if choice.Got? then Some(s.(ctor := CtorGotClient(choice.c)))
      else if choice.Fail? then Some(s.(isOnline := false, ctor := CtorSecond))
      else None
    case CtorSecond =>
      if choice.Got? then Some(s.(ctor := CtorGotClient(choice.c)))
      else if choice.Fail? then Some(s.(ctor := CtorUnlock(false)))
      else None
    case CtorGotClient(c) => Some(s.(client := Some(c), initial := c, ctor := CtorClientSet))
    case CtorClientSet => Some(s.(isOnline := true, ctor := CtorSpawn))
    case CtorSpawn => Some(s.(ctor := CtorUnlock(true)))
    case CtorUnlock(ok) => Some(s.(file := None, ctor := CtorDone(ok)))
    case CtorDone(_) => None
  }

  /** mu.Lock announces the writer, once no other writer is in or announced; from then on readers wait. */
  function AnnounceMu(s: Shared, t: nat): Option<Shared> {
    if s.writer.None? && s.pending.None? then Some(s.(pending := Some(t))) else None
  }

  /** mu.Lock returns when the readers that were inside have left. */
  function LockMu(s: Shared, t: nat): Option<Shared> {
    if s.pending == Some(t) && s.readers == {} then Some(s.(pending := None, writer := Some(t))) else None
  }

  function RLockMu(s: Shared, t: nat): Option<Shared> {
    if s.writer.None? && s.pending.None? then Some(s.(readers := s.readers + {t})) else None
  }

  function UpdateStep(s: Shared, t: nat, pc: Pc, choice: Choice): Option<(Shared, Pc)>
    requires pc.IsUpdate()
  {
    match pc
    case UpLock =>
      if choice.Fail? then Some((s, UpReportWant(choice.e)))
      else if s.file.None? then Some((s.(file := Some(Thread(t)), lockOrder := s.lockOrder + [t]), UpWork))
      else None
    case UpWork =>
      if choice.Fail? then Some((s, UpFail(choice.e)))
      else if choice.Got? then Some((s, UpWantMu(choice.c)))
      else None
    case UpFail(e) => Some((s.(file := None), UpReportWant(e)))
    case UpWantMu(c) => (match AnnounceMu(s, t) case Some(s') => Some((s', UpAwaitMu(c))) case None => None)
    case UpAwaitMu(c) => (match LockMu(s, t) case Some(s') => Some((s', UpHold(c))) case None => None)
    case UpHold(c) => Some((s.(status := Status(None, Some(s.clock))), UpWrote(c, s.clock)))
    case UpWrote(c, now) => Some((s.(client := Some(c), history := s.history + [Published(t, c, now)]), UpPublished))
    case UpPublished => Some((s.(writer := None), UpRelease))
    case UpRelease => Some((s.(file := None), UpSend(None)))
    case UpReportWant(e) => (match AnnounceMu(s, t) case Some(s') => Some((s', UpReportAwait(e))) case None => None)
    case UpReportAwait(e) => (match LockMu(s, t) case Some(s') => Some((s', UpReport(e))) case None => None)
    case UpReport(e) =>
      Some((s.(status := s.status.(error := Some(e)), history := s.history + [Reported(t, e)]), UpReported(e)))
    case UpReported(e) => Some((s.(writer := None), UpSend(Some(e))))
    case _ => None
  }

  /** Whether `wait` returns at once: updated before, and no error. */
  predicate Ready(st: Status) {
    st.lastUpdated.Some? && st.error.None?
  }

  function WaitStep(s: Shared, t: nat, task: Task, choice: Choice): Option<(Shared, Task)>
    requires !task.pc.IsUpdate()
  {
    match task.pc
    case WaitWant =>
      (match RLockMu(s, t) case Some(s') => Some((s', task.(pc := WaitRead, seen := |s.history|))) case None => None)
    case WaitRead => Some((s, task.(pc := WaitReadClient(s.status))))
    case WaitReadClient(st) => Some((s, task.(pc := WaitRelease(st, s.client))))
    case WaitRelease(st, c) => Some((s.(readers := s.readers - {t}), task.(pc := WaitDecide(st, c))))
    case WaitDecide(st, c) =>
      if Ready(st) then Some((s, task.(pc := RootDone(c, Status(None, None)))))
      else if st.error.Some? && task.child.None? then None
      else Some((s, task.(pc := WaitSelect)))
    case WaitSelect =>
      if choice.Receive? && task.ch != [] then
        var pc' := match task.ch[0] case Some(e) => RootWant(e) case None => WaitWant;
        Some((s, task.(ch := task.ch[1..], pc := pc')))
      else if choice.Cancel? then Some((s, task.(pc := RootWant(choice.e))))
      else if choice.Timeout? then Some((s, task.(pc := WaitWant)))
      else None
    case RootWant(e) =>
      (match RLockMu(s, t) case Some(s') => Some((s', task.(pc := RootRead(e), seen := |s.history|))) case None => None)
    case RootRead(e) => Some((s, task.(pc := RootRelease(e, s.client))))
    case RootRelease(e, c) =>
      Some((s.(readers := s.readers - {t}), task.(pc := RootDone(c, Status(Some(e), None)))))
    case RootDone(_, _) => None
  }

  /** A step that touches nothing but the shared state and its own task. */
  function OwnStep(s: Shared, t: nat, task: Task, choice: Choice): Option<(Shared, Task)> {
    if task.pc.UpSend? then
      if task.owner.None? then Some((s, task.(pc := UpDone))) else None
    else if task.pc.IsUpdate() then
      match UpdateStep(s, t, task.pc, choice)
      case Some((s', pc')) => Some((s', task.(pc := pc')))
      case None => None
    else WaitStep(s, t, task, choice)
  }

  /** The send on the waiter's channel, which holds one message; it blocks while that is unread. */
  function SendStep(s: State, t: nat): Option<State>
    requires t in s.tasks && s.tasks[t].pc.UpSend?
  {
    var task := s.tasks[t];
    if && task.owner.Some? && task.owner.value in s.tasks && task.owner.value != t
       && |s.tasks[task.owner.value].ch| < 1 then
      var w := s.tasks[task.owner.value];
      Some(s.(tasks := s.tasks[t := task.(pc := UpDone)][task.owner.value := w.(ch := w.ch + [task.pc.r])]))
    else None
  }

  /** The `go` statement of `wait`. */
  function LaunchStep(s: State, t: nat, u: nat): Option<State>
    requires t in s.tasks
  {
    if u in s.tasks then None
    else Some(s.(tasks := s.tasks[t := s.tasks[t].(pc := WaitSelect, child := Some(u))]
                                 [u := Task(UpLock, Some(t), None, [], 0)]))
  }

  predicate Launches(task: Task) {
    task.pc.WaitDecide? && !Ready(task.pc.st) && task.pc.st.error.Some? && task.child.None?
  }

  function AdvanceStep(s: State, t: nat, choice: Choice): Option<State>
    requires t in s.tasks
  {
    var task := s.tasks[t];
    if task.pc.UpSend? && task.owner.Some? then SendStep(s, t)
    else if Launches(task) then if choice.Launch? then LaunchStep(s, t, choice.u) else None
    else match OwnStep(s.shared, t, task, choice)
      case Some((shared, task')) => Some(State(shared, s.tasks[t := task']))
      case None => None
  }

  function Next(s: State, step: Step): Option<State> {
    match step
    case Construct(choice) =>
      (match ConstructStep(s.shared, choice) case Some(shared) => Some(s.(shared := shared)) case None => None)
    case Advance(t, choice) => if t in s.tasks then AdvanceStep(s, t, choice) else None
    case StartUpdate(t) =>
      if t in s.tasks || !s.shared.ctor.Serving() then None
      else Some(s.(tasks := s.tasks[t := Task(UpLock, None, None, [], 0)]))
    case StartTrustedRoot(t) =>
      if t in s.tasks || s.shared.ctor != CtorDone(true) then None
      else Some(s.(tasks := s.tasks[t := Task(WaitWant, None, None, [], 0)]))
    case Tick(d) => Some(s.(shared := s.shared.(clock := s.shared.clock + d)))
    case Take(p) => if s.shared.file.None? then Some(s.(shared := s.shared.(file := Some(Process(p))))) else None
    case Drop(p) =>
      if s.shared.file == Some(Process(p)) then Some(s.(shared := s.shared.(file := None))) else None
  }

  function Run(s: State, steps: seq<Step>): Option<State>
    decreases |steps|
  {
    if steps == [] then Some(s)
    else match Next(s, steps[0])
      case Some(s') => Run(s', steps[1..])
      case None => None
  }

  // ---- What the history amounts to ----

  /** The fold over the writes made under `mu`. */
  function Replay(initial: Client, history: seq<Write>): (Status, Client) {
    if history == [] then (Status(None, None), initial)
    else
      var (st, c) := Replay(initial, history[..|history| - 1]);
      match history[|history| - 1]
      case Published(_, c', now) => (Status(None, Some(now)), c')
      case Reported(_, e) => (st.(error := Some(e)), c)
  }

  /** The client of the latest success, or the constructor's. */
  function LatestClient(initial: Client, history: seq<Write>): Client {
    if history == [] then initial
    else match history[|history| - 1]
      case Published(_, c, _) => c
      case Reported(_, _) => LatestClient(initial, history[..|history| - 1])
  }

  predicate AnySuccess(history: seq<Write>) {
    exists i :: 0 <= i < |history| && history[i].Published?
  }

  lemma AnySuccessLast(history: seq<Write>)
    requires history != []
    ensures AnySuccess(history) <==> AnySuccess(history[..|history| - 1]) || history[|history| - 1].Published?
  {
    var init := history[..|history| - 1];
    if AnySuccess(init) {
      var i :| 0 <= i < |init| && init[i].Published?;
      assert history[i].Published?;
    }
    if AnySuccess(history) && !history[|history| - 1].Published? {
      var i :| 0 <= i < |history| && history[i].Published?;
      assert init[i].Published?;
    }
  }

  /**
   * What the fold says: the client is the latest success's or the constructor's; the provider
   * counts as updated from the first success on; it is in error exactly after a failure.
   */
  lemma {:induction false} ReplayMeaning(initial: Client, history: seq<Write>)
    ensures Replay(initial, history).1 == LatestClient(initial, history)
    ensures Replay(initial, history).0.lastUpdated.Some? <==> AnySuccess(history)
    ensures Replay(initial, history).0.error.Some? <==> history != [] && history[|history| - 1].Reported?
  {
    if history != [] {
      ReplayMeaning(initial, history[..|history| - 1]);
      AnySuccessLast(history);
    }
  }

  /** Being ready means that the very last write was the success of the client then published. */
  lemma ReadyMeaning(initial: Client, history: seq<Write>)
    ensures Ready(Replay(initial, history).0) <==> history != [] && history[|history| - 1].Published?
    ensures Ready(Replay(initial, history).0) ==> history[|history| - 1].client == Replay(initial, history).1
  {
    ReplayMeaning(initial, history);
  }

  /** Success times are in order and none is later than `bound`. */
  predicate Timely(history: seq<Write>, bound: Time) {
    && (forall i :: 0 <= i < |history| && history[i].Published? ==> history[i].now <= bound)
    && (forall i, j :: 0 <= i < j < |history| && history[i].Published? && history[j].Published? ==>
          history[i].now <= history[j].now)
  }
}
