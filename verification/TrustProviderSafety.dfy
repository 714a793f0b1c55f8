/** What every interleaving of the trust provider keeps, and what its callers see. */
module TrustProviderSafety {
  import opened Wrappers
  import opened TrustProvider

  // ---- The invariant ----

  /** The published fields are the fold over the history. */
  predicate Consistent(s: Shared) {
    && s.status == Replay(s.initial, s.history).0
    && s.client == if s.ctor.HasClient() then Some(Replay(s.initial, s.history).1) else None
  }

  predicate GoodShared(s: Shared) {
    && (s.file == Some(Constructor) <==> s.ctor.HoldsFile())
    && (!s.ctor.HasClient() ==> s.history == [])
    && (s.readers != {} || s.pending.Some? ==> s.writer.None?)
    && (s.writer.None? ==> Consistent(s))
    && Timely(s.history, s.clock)
    && (s.isOnline || s.ctor.CtorSecond? || s.ctor.CtorGotClient? || s.ctor.CtorClientSet?
        || s.ctor == CtorUnlock(false) || s.ctor == CtorDone(false))
  }

  /** What the last read section of a task saw. */
  function Seen(s: Shared, task: Task): (Status, Client)
    requires task.seen <= |s.history|
  {
    Replay(s.initial, s.history[..task.seen])
  }

  predicate GoodPc(s: Shared, task: Task)
    requires task.seen <= |s.history|
  {
    match task.pc
    case UpHold(_) => Consistent(s)
    case UpWrote(c, now) =>
      && s.status == Status(None, Some(now)) && s.client == Some(Replay(s.initial, s.history).1)
      && Timely(s.history, now) && now <= s.clock
    case UpPublished => Consistent(s)
    case UpReport(_) => Consistent(s)
    case UpReported(_) => Consistent(s)
    case WaitRead => task.seen == |s.history|
    case WaitReadClient(st) => task.seen == |s.history| && st == Seen(s, task).0
    case WaitRelease(st, c) => st == Seen(s, task).0 && c == Some(Seen(s, task).1)
    case WaitDecide(st, c) => st == Seen(s, task).0 && c == Some(Seen(s, task).1)
    case RootRead(_) => task.seen == |s.history|
    case RootRelease(_, c) => c == Some(Seen(s, task).1)
    case RootDone(c, st) =>
      c == Some(Seen(s, task).1) && (st.error.None? ==> Ready(Seen(s, task).0)) && st.lastUpdated.None?
    case _ => true
  }

  predicate GoodTask(s: Shared, t: nat, task: Task) {
    && (task.pc.HoldsFile() <==> s.file == Some(Thread(t)))
    && (task.pc.HoldsMu() <==> s.writer == Some(t))
    && (task.pc.AwaitsMu() <==> s.pending == Some(t))
    && (task.pc.HoldsRead() <==> t in s.readers)
    && task.seen <= |s.history|
    && GoodPc(s, task)
  }

  /** A launched update and its waiter know each other, and the channel holds at most its one message. */
  predicate Linked(tasks: map<nat, Task>, t: nat)
    requires t in tasks
  {
    var task := tasks[t];
    && (task.pc.IsUpdate() ==> task.child.None? && task.ch == [])
    && (task.owner.Some? ==>
          && task.pc.IsUpdate() && task.owner.value in tasks
          && !tasks[task.owner.value].pc.IsUpdate() && tasks[task.owner.value].child == Some(t))
    && (task.child.Some? ==> task.child.value in tasks && tasks[task.child.value].owner == Some(t))
    && |task.ch| <= 1
    && (task.ch != [] ==> task.child.Some? && task.child.value in tasks && tasks[task.child.value].pc.UpDone?)
  }

  predicate Inv(s: State) {
    && GoodShared(s.shared)
    && (s.shared.file.Some? && s.shared.file.value.Thread? ==> s.shared.file.value.t in s.tasks)
    && (s.shared.writer.Some? ==> s.shared.writer.value in s.tasks)
    && (s.shared.pending.Some? ==> s.shared.pending.value in s.tasks)
    && s.shared.readers <= s.tasks.Keys
    && (s.tasks != map[] ==> s.shared.ctor.Serving())
    && (forall t :: t in s.tasks ==> GoodTask(s.shared, t, s.tasks[t]))
    && (forall t :: t in s.tasks ==> Linked(s.tasks, t))
  }

  // ---- A task's own step, and what it leaves alone ----

  /** What a step of task `t` may change. */
  predicate StepBy(s: Shared, s': Shared, t: nat) {
    && (s'.file == s.file
        || (s.file == Some(Thread(t)) && s'.file.None?)
        || (s.file.None? && s'.file == Some(Thread(t))))
    && (s'.writer == s.writer
        || (s.writer == Some(t) && s'.writer.None?)
        || (s.pending == Some(t) && s.writer.None? && s.readers == {} && s'.writer == Some(t)))
    && (s'.pending == s.pending
        || (s.pending == Some(t) && s'.pending.None?)
        || (s.pending.None? && s.writer.None? && s'.pending == Some(t)))
    && s'.readers - {t} == s.readers - {t}
    && s.history <= s'.history
    && (s.writer != Some(t) ==> s'.status == s.status && s'.client == s.client && s'.history == s.history)
    && s'.clock == s.clock && s'.ctor == s.ctor && s'.initial == s.initial && s'.isOnline == s.isOnline
  }

  predicate SameLinks(task: Task, task': Task) {
    && task'.owner == task.owner && task'.child == task.child
    && (task'.ch == task.ch || task'.ch == [])
    && (task'.pc.IsUpdate() <==> task.pc.IsUpdate())
  }

  lemma TimelyAppend(history: seq<Write>, bound: Time, w: Write)
    requires Timely(history, bound)
    requires w.Published? ==> Timely(history, w.now) && w.now <= bound
    ensures Timely(history + [w], bound)
  {}

  lemma UpdateStepGood(s: Shared, t: nat, task: Task, choice: Choice)
    requires GoodShared(s) && GoodTask(s, t, task) && s.ctor.Serving()
    requires task.pc.IsUpdate() && UpdateStep(s, t, task.pc, choice).Some?
    ensures var (s', pc') := UpdateStep(s, t, task.pc, choice).value;
            && GoodShared(s') && GoodTask(s', t, task.(pc := pc')) && StepBy(s, s', t) && pc'.IsUpdate()
  {
    var (s', pc') := UpdateStep(s, t, task.pc, choice).value;
    match task.pc
    case UpWrote(c, now) =>
      TimelyAppend(s.history, s.clock, Published(t, c, now));
      assert s'.history[..|s.history|] == s.history;
    case UpReport(e) =>
      TimelyAppend(s.history, s.clock, Reported(t, e));
      assert s'.history[..|s.history|] == s.history;
    case _ =>
  }

  /** A waiter's step changes nothing but the set of readers, and that only by itself. */
  lemma WaitStepFrame(s: Shared, t: nat, task: Task, choice: Choice)
    requires (task.pc.HoldsRead() <==> t in s.readers) && (s.readers != {} ==> s.writer.None?)
    requires !task.pc.IsUpdate() && |task.ch| <= 1 && WaitStep(s, t, task, choice).Some?
    ensures var (s', task') := WaitStep(s, t, task, choice).value;
            && s' == s.(readers := s'.readers) && SameLinks(task, task')
            && (s'.readers == s.readers || s'.readers == s.readers - {t}
                || (s.writer.None? && s'.readers == s.readers + {t}))
            && (task'.pc.HoldsRead() <==> t in s'.readers)
  {}

  lemma WaitStepPc(s: Shared, t: nat, task: Task, choice: Choice)
    requires task.seen <= |s.history| && GoodPc(s, task)
    requires task.pc.HoldsRead() ==> Consistent(s)
    requires s.ctor.Serving()
    requires !task.pc.IsUpdate() && WaitStep(s, t, task, choice).Some?
    ensures var (s', task') := WaitStep(s, t, task, choice).value;
            task'.seen <= |s'.history| && GoodPc(s', task')
  {
    assert s.history[..|s.history|] == s.history;
  }

  lemma WaitStepGood(s: Shared, t: nat, task: Task, choice: Choice)
    requires GoodShared(s) && GoodTask(s, t, task) && s.ctor.Serving()
    requires !task.pc.IsUpdate() && |task.ch| <= 1 && WaitStep(s, t, task, choice).Some?
    ensures var (s', task') := WaitStep(s, t, task, choice).value;
            && GoodShared(s') && GoodTask(s', t, task') && StepBy(s, s', t) && SameLinks(task, task')
  {
    WaitStepFrame(s, t, task, choice);
    WaitStepPc(s, t, task, choice);
  }

  lemma OthersKeepGood(s: Shared, s': Shared, t: nat, u: nat, task: Task)
    requires GoodShared(s) && GoodTask(s, u, task) && u != t
    requires StepBy(s, s', t)
    ensures GoodTask(s', u, task)
  {
    assert s'.history[..task.seen] == s.history[..task.seen];
    assert u in s.readers <==> u in s.readers - {t};
    assert u in s'.readers <==> u in s'.readers - {t};
  }

  lemma OwnStepGood(s: State, t: nat, choice: Choice)
    requires Inv(s) && t in s.tasks && OwnStep(s.shared, t, s.tasks[t], choice).Some?
    ensures var (shared, task) := OwnStep(s.shared, t, s.tasks[t], choice).value;
            && GoodShared(shared) && GoodTask(shared, t, task) && StepBy(s.shared, shared, t)
            && SameLinks(s.tasks[t], task) && !s.tasks[t].pc.UpDone?
  {
    var task := s.tasks[t];
    assert GoodTask(s.shared, t, task) && Linked(s.tasks, t);
    if task.pc.IsUpdate() {
      if !task.pc.UpSend? {
        UpdateStepGood(s.shared, t, task, choice);
      }
    } else {
      WaitStepGood(s.shared, t, task, choice);
    }
  }

  lemma OthersAllGood(s: State, s': State, t: nat)
    requires Inv(s) && t in s.tasks && t in s'.tasks && s'.tasks == s.tasks[t := s'.tasks[t]]
    requires GoodTask(s'.shared, t, s'.tasks[t]) && StepBy(s.shared, s'.shared, t)
    ensures forall u :: u in s'.tasks ==> GoodTask(s'.shared, u, s'.tasks[u])
  {
    forall u | u in s.tasks && u != t
      ensures GoodTask(s'.shared, u, s'.tasks[u])
    {
      OthersKeepGood(s.shared, s'.shared, t, u, s.tasks[u]);
    }
  }

  lemma AllStillLinked(tasks: map<nat, Task>, tasks': map<nat, Task>, t: nat)
    requires forall u :: u in tasks ==> Linked(tasks, u)
    requires t in tasks && t in tasks' && tasks' == tasks[t := tasks'[t]]
    requires SameLinks(tasks[t], tasks'[t]) && !tasks[t].pc.UpDone?
    ensures forall u :: u in tasks' ==> Linked(tasks', u)
  {
    forall u | u in tasks'
      ensures Linked(tasks', u)
    {
      assert Linked(tasks, u);
    }
  }

  // ---- Every step keeps the invariant ----

  lemma SendLinks(tasks: map<nat, Task>, t: nat, w: nat, tasks': map<nat, Task>)
    requires forall v :: v in tasks ==> Linked(tasks, v)
    requires t in tasks && w in tasks && w != t && tasks[t].pc.UpSend? && tasks[t].owner == Some(w) && tasks[w].ch == []
    requires tasks' == tasks[t := tasks[t].(pc := UpDone)][w := tasks[w].(ch := tasks[w].ch + [tasks[t].pc.r])]
    ensures forall v :: v in tasks' ==> Linked(tasks', v)
  {
    assert Linked(tasks, t) && Linked(tasks, w);
    forall v | v in tasks'
      ensures Linked(tasks', v)
    {
      assert Linked(tasks, v);
    }
  }

  lemma SendLeavesGood(shared: Shared, tasks: map<nat, Task>, t: nat, w: nat, tasks': map<nat, Task>)
    requires forall u :: u in tasks ==> GoodTask(shared, u, tasks[u])
    requires t in tasks && w in tasks && w != t && tasks[t].pc.UpSend?
    requires tasks' == tasks[t := tasks[t].(pc := UpDone)][w := tasks[w].(ch := tasks[w].ch + [tasks[t].pc.r])]
    ensures forall u :: u in tasks' ==> GoodTask(shared, u, tasks'[u])
  {
    forall u | u in tasks'
      ensures GoodTask(shared, u, tasks'[u])
    {
      assert GoodTask(shared, u, tasks[u]);
    }
  }

  lemma SendKeepsInv(s: State, t: nat)
    requires Inv(s) && t in s.tasks && s.tasks[t].pc.UpSend? && SendStep(s, t).Some?
    ensures Inv(SendStep(s, t).value)
  {
    var s' := SendStep(s, t).value;
    var w := s.tasks[t].owner.value;
    assert s.tasks[w].ch == [];
    SendLinks(s.tasks, t, w, s'.tasks);
    SendLeavesGood(s.shared, s.tasks, t, w, s'.tasks);
  }

  lemma LaunchLinks(tasks: map<nat, Task>, t: nat, u: nat, tasks': map<nat, Task>)
    requires forall v :: v in tasks ==> Linked(tasks, v)
    requires t in tasks && u !in tasks && !tasks[t].pc.IsUpdate() && tasks[t].child.None?
    requires tasks' == tasks[t := tasks[t].(pc := WaitSelect, child := Some(u))]
                            [u := Task(UpLock, Some(t), None, [], 0)]
    ensures forall v :: v in tasks' ==> Linked(tasks', v)
  {
    forall v | v in tasks'
      ensures Linked(tasks', v)
    {
      if v in tasks {
        assert Linked(tasks, v);
      }
    }
  }

  lemma LaunchLeavesGood(shared: Shared, tasks: map<nat, Task>, t: nat, u: nat, tasks': map<nat, Task>)
    requires forall v :: v in tasks ==> GoodTask(shared, v, tasks[v])
    requires t in tasks && u !in tasks && tasks[t].pc.WaitDecide?
    requires shared.file != Some(Thread(u)) && shared.writer != Some(u)
    requires shared.pending != Some(u) && u !in shared.readers
    requires tasks' == tasks[t := tasks[t].(pc := WaitSelect, child := Some(u))]
                            [u := Task(UpLock, Some(t), None, [], 0)]
    ensures forall v :: v in tasks' ==> GoodTask(shared, v, tasks'[v])
  {
    forall v | v in tasks'
      ensures GoodTask(shared, v, tasks'[v])
    {
      if v in tasks {
        assert GoodTask(shared, v, tasks[v]);
      }
    }
  }

  lemma LaunchKeepsInv(s: State, t: nat, u: nat)
    requires Inv(s) && t in s.tasks && Launches(s.tasks[t]) && LaunchStep(s, t, u).Some?
    ensures Inv(LaunchStep(s, t, u).value)
  {
    var s' := LaunchStep(s, t, u).value;
    LaunchLinks(s.tasks, t, u, s'.tasks);
    LaunchLeavesGood(s.shared, s.tasks, t, u, s'.tasks);
  }

  lemma OneTaskMoved(s: State, t: nat, shared: Shared, task: Task)
    requires Inv(s) && t in s.tasks && !s.tasks[t].pc.UpDone?
    requires GoodShared(shared) && GoodTask(shared, t, task)
    requires StepBy(s.shared, shared, t) && SameLinks(s.tasks[t], task)
    ensures Inv(State(shared, s.tasks[t := task]))
  {
    var s' := State(shared, s.tasks[t := task]);
    OthersAllGood(s, s', t);
    AllStillLinked(s.tasks, s'.tasks, t);
    assert shared.readers <= (shared.readers - {t}) + {t};
    assert s.shared.readers - {t} <= s.tasks.Keys;
  }

  lemma OwnStepKeepsInv(s: State, t: nat, choice: Choice)
    requires Inv(s) && t in s.tasks && OwnStep(s.shared, t, s.tasks[t], choice).Some?
    ensures var (shared, task) := OwnStep(s.shared, t, s.tasks[t], choice).value;
            Inv(State(shared, s.tasks[t := task])) && s.shared.history <= shared.history
  {
    OwnStepGood(s, t, choice);
    var (shared, task) := OwnStep(s.shared, t, s.tasks[t], choice).value;
    OneTaskMoved(s, t, shared, task);
  }

  lemma AdvanceKeepsInv(s: State, t: nat, choice: Choice)
    requires Inv(s) && t in s.tasks && AdvanceStep(s, t, choice).Some?
    ensures Inv(AdvanceStep(s, t, choice).value)
    ensures s.shared.history <= AdvanceStep(s, t, choice).value.shared.history
  {
    if s.tasks[t].pc.UpSend? && s.tasks[t].owner.Some? {
      SendKeepsInv(s, t);
    } else if Launches(s.tasks[t]) {
      LaunchKeepsInv(s, t, choice.u);
    } else {
      OwnStepKeepsInv(s, t, choice);
    }
  }

  lemma ConstructKeepsShared(s: Shared, choice: Choice)
    requires GoodShared(s) && ConstructStep(s, choice).Some?
    ensures GoodShared(ConstructStep(s, choice).value)
  {}

  lemma ConstructLeavesGood(s: Shared, choice: Choice, tasks: map<nat, Task>)
    requires s.ctor.Serving() && ConstructStep(s, choice).Some? && (s.file == Some(Constructor) <==> s.ctor.HoldsFile())
    requires forall t :: t in tasks ==> GoodTask(s, t, tasks[t])
    ensures forall t :: t in tasks ==> GoodTask(ConstructStep(s, choice).value, t, tasks[t])
  {
    forall t | t in tasks
      ensures GoodTask(ConstructStep(s, choice).value, t, tasks[t])
    {
      assert GoodTask(s, t, tasks[t]);
    }
  }

  lemma ConstructKeepsInv(s: State, choice: Choice)
    requires Inv(s) && ConstructStep(s.shared, choice).Some?
    ensures Inv(s.(shared := ConstructStep(s.shared, choice).value))
  {
    ConstructKeepsShared(s.shared, choice);
    if s.tasks != map[] {
      ConstructLeavesGood(s.shared, choice, s.tasks);
    }
  }

  lemma StartKeepsInv(s: State, t: nat, pc: Pc)
    requires Inv(s) && t !in s.tasks && s.shared.ctor.Serving() && (pc.UpLock? || pc.WaitWant?)
    ensures Inv(s.(tasks := s.tasks[t := Task(pc, None, None, [], 0)]))
  {
    var tasks := s.tasks[t := Task(pc, None, None, [], 0)];
    forall u | u in tasks
      ensures GoodTask(s.shared, u, tasks[u]) && Linked(tasks, u)
    {
      if u in s.tasks {
        assert GoodTask(s.shared, u, s.tasks[u]) && Linked(s.tasks, u);
      }
    }
  }

  lemma EnvironmentKeepsInv(s: State, step: Step)
    requires Inv(s) && (step.Tick? || step.Take? || step.Drop?) && Next(s, step).Some?
    ensures Inv(Next(s, step).value)
  {
    var s' := Next(s, step).value;
    forall t | t in s'.tasks
      ensures GoodTask(s'.shared, t, s'.tasks[t])
    {
      assert GoodTask(s.shared, t, s.tasks[t]);
    }
  }

  lemma StepKeepsInv(s: State, step: Step)
    requires Inv(s) && Next(s, step).Some?
    ensures Inv(Next(s, step).value)
    ensures s.shared.history <= Next(s, step).value.shared.history
  {
    match step
    case Construct(choice) => ConstructKeepsInv(s, choice);
    case Advance(t, choice) => AdvanceKeepsInv(s, t, choice);
    case StartUpdate(t) => StartKeepsInv(s, t, UpLock);
    case StartTrustedRoot(t) => StartKeepsInv(s, t, WaitWant);
    case _ => EnvironmentKeepsInv(s, step);
  }

  /** The invariant holds in every run, and the history of writes only grows. */
  lemma {:induction false} RunKeepsInv(s: State, steps: seq<Step>)
    requires Inv(s) && Run(s, steps).Some?
    ensures Inv(Run(s, steps).value)
    ensures s.shared.history <= Run(s, steps).value.shared.history
    decreases |steps|
  {
    if steps != [] {
      StepKeepsInv(s, steps[0]);
      RunKeepsInv(Next(s, steps[0]).value, steps[1..]);
    }
  }

  lemma InitialInv()
    ensures Inv(INITIAL)
  {}

  // ---- Safety over whole runs ----

  /**
   * Whenever nobody holds `mu` for writing, in particular whenever anybody reads, the published
   * fields are the fold over the history: the client is non-nil and the latest success's or the
   * constructor's, the provider counts as updated from the first success on, and it is in error
   * exactly when the latest write was a failure.
   */
  lemma PublishedIsFold(steps: seq<Step>, s: State)
    requires Run(INITIAL, steps) == Some(s)
    requires s.shared.writer.None? || s.shared.readers != {}
    ensures var sh := s.shared;
            && sh.status == Replay(sh.initial, sh.history).0
            && (sh.ctor.HasClient() ==> sh.client == Some(LatestClient(sh.initial, sh.history)))
            && (sh.status.lastUpdated.Some? <==> AnySuccess(sh.history))
            && (sh.status.error.Some? <==> sh.history != [] && sh.history[|sh.history| - 1].Reported?)
  {
    InitialInv();
    RunKeepsInv(INITIAL, steps);
    ReplayMeaning(s.shared.initial, s.shared.history);
  }

  lemma {:induction false} LastUpdatedStays(s: State, steps: seq<Step>)
    requires Run(s, steps).Some?
    ensures s.shared.status.lastUpdated.Some? ==> Run(s, steps).value.shared.status.lastUpdated.Some?
    decreases |steps|
  {
    if steps != [] {
      LastUpdatedStays(Next(s, steps[0]).value, steps[1..]);
    }
  }

  /**
   * A finished `TrustedRoot` never has a nil client and never copies `LastUpdated`. Without
   * error, the latest write it could see was the success that published its very client; with
   * one, its client is the latest published when it looked again.
   */
  lemma TrustedRootClient(steps: seq<Step>, s: State, t: nat)
    requires Run(INITIAL, steps) == Some(s)
    requires t in s.tasks && s.tasks[t].pc.RootDone?
    ensures var (sh, task) := (s.shared, s.tasks[t]);
            && task.pc.client.Some? && task.pc.st.lastUpdated.None?
            && task.seen <= |sh.history|
            && task.pc.client.value == LatestClient(sh.initial, sh.history[..task.seen])
            && (task.pc.st.error.None? ==>
                  task.seen > 0 && sh.history[task.seen - 1].Published?
                  && sh.history[task.seen - 1].client == task.pc.client.value)
  {
    InitialInv();
    RunKeepsInv(INITIAL, steps);
    var (sh, task) := (s.shared, s.tasks[t]);
    assert GoodTask(sh, t, task);
    ReplayMeaning(sh.initial, sh.history[..task.seen]);
    ReadyMeaning(sh.initial, sh.history[..task.seen]);
  }

  /** `h` is inside locked client creation or refresh: a thread, the constructor or another process. */
  predicate Inside(s: State, h: Holder) {
    match h
    case Thread(t) => t in s.tasks && s.tasks[t].pc.HoldsFile()
    case Constructor => s.shared.ctor.HoldsFile()
    case Process(_) => s.shared.file == Some(h)
  }

  /** At most one thread, constructor or process is ever inside locked client creation or refresh. */
  lemma CreationIsExclusive(steps: seq<Step>, s: State, h: Holder, h': Holder)
    requires Run(INITIAL, steps) == Some(s)
    requires Inside(s, h) && Inside(s, h')
    ensures h == h' && s.shared.file == Some(h)
  {
    InitialInv();
    RunKeepsInv(INITIAL, steps);
    if h.Thread? {
      assert GoodTask(s.shared, h.t, s.tasks[h.t]);
    }
    if h'.Thread? {
      assert GoodTask(s.shared, h'.t, s.tasks[h'.t]);
    }
  }

  /**
   * The fetcher is offline only from the constructor's second attempt to the end of it, with the
   * file lock held, or after a construction that failed; no `update` ever runs then.
   */
  lemma OfflineOnlyInConstructor(steps: seq<Step>, s: State)
    requires Run(INITIAL, steps) == Some(s) && !s.shared.isOnline
    ensures s.tasks == map[]
    ensures (s.shared.ctor.HoldsFile() && s.shared.file == Some(Constructor)) || s.shared.ctor == CtorDone(false)
  {
    InitialInv();
    RunKeepsInv(INITIAL, steps);
  }

  /** Success times never decrease along the history, nor exceed the clock. */
  lemma LastUpdatedIsMonotone(steps: seq<Step>, s: State, i: nat, j: nat)
    requires Run(INITIAL, steps) == Some(s)
    requires i <= j < |s.shared.history| && s.shared.history[i].Published? && s.shared.history[j].Published?
    ensures s.shared.history[i].now <= s.shared.history[j].now <= s.shared.clock
  {
    InitialInv();
    RunKeepsInv(INITIAL, steps);
  }

  /**
   * Lock order: whoever waits for the file lock holds no lock at all, and so does a failed
   * `update` waiting for `mu` to report; and no channel ever holds more than one message.
   */
  lemma LockOrder(steps: seq<Step>, s: State, t: nat)
    requires Run(INITIAL, steps) == Some(s) && t in s.tasks
    ensures s.tasks[t].pc.UpLock? || s.tasks[t].pc.UpReportWant? || s.tasks[t].pc.UpReportAwait? ==>
              s.shared.file != Some(Thread(t)) && s.shared.writer != Some(t) && t !in s.shared.readers
    ensures |s.tasks[t].ch| <= 1
  {
    InitialInv();
    RunKeepsInv(INITIAL, steps);
    assert GoodTask(s.shared, t, s.tasks[t]) && Linked(s.tasks, t);
  }
}
