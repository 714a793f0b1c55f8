/** How the order of the published outcomes relates to the order in which the file lock was taken. */
module TrustProviderOrder {
  import opened Wrappers
  import opened TrustProvider
  import opened TrustProviderSafety
  import opened TrustProviderProgress

  /** Past the write of its outcome. */
  predicate HasWritten(pc: Pc) {
    pc.UpPublished? || pc.UpRelease? || pc.UpReported? || pc.UpSend? || pc.UpDone?
  }

  predicate WroteOutcome(history: seq<Write>, t: nat) {
    exists i :: 0 <= i < |history| && history[i].author == t
  }

  predicate LockedBefore(lockOrder: seq<nat>, t: nat, u: nat) {
    exists a, b :: 0 <= a < b < |lockOrder| && lockOrder[a] == t && lockOrder[b] == u
  }

  /** Each `update` takes the file lock at most once, and the thread that holds it took it last. */
  predicate LocksOnce(s: State) {
    var lo := s.shared.lockOrder;
    && (forall a, b :: 0 <= a < b < |lo| ==> lo[a] != lo[b])
    && (forall t :: t in lo ==> t in s.tasks && s.tasks[t].pc.IsUpdate() && !s.tasks[t].pc.UpLock?)
    && (s.shared.file.Some? && s.shared.file.value.Thread? ==> lo != [] && lo[|lo| - 1] == s.shared.file.value.t)
  }

  /** Each `update` writes one outcome. */
  predicate WritesOnce(s: State) {
    var hist := s.shared.history;
    && (forall i, j :: 0 <= i < j < |hist| ==> hist[i].author != hist[j].author)
    && (forall i :: 0 <= i < |hist| ==> hist[i].author in s.tasks && HasWritten(s.tasks[hist[i].author].pc))
    && (forall t :: t in s.shared.lockOrder && t in s.tasks && HasWritten(s.tasks[t].pc) ==> WroteOutcome(hist, t))
  }

  /** A success is published by a run that has locked, and after every run that locked and wrote before. */
  predicate PublishesInOrder(hist: seq<Write>, lo: seq<nat>) {
    && (forall i :: 0 <= i < |hist| && hist[i].Published? ==> hist[i].author in lo)
    && (forall i, j :: 0 <= j < i < |hist| && hist[i].Published? && hist[j].author in lo ==>
          LockedBefore(lo, hist[j].author, hist[i].author))
  }

  predicate Ordered(s: State) {
    LocksOnce(s) && WritesOnce(s) && PublishesInOrder(s.shared.history, s.shared.lockOrder)
  }

  // ---- Every step keeps the order ----

  /** A step that neither takes the file lock for a thread nor writes an outcome. */
  predicate Calm(s: State, s': State) {
    && s'.shared.history == s.shared.history && s'.shared.lockOrder == s.shared.lockOrder
    && (s'.shared.file == s.shared.file || s'.shared.file.None? || !s'.shared.file.value.Thread?)
    && (forall t :: t in s.tasks ==>
          t in s'.tasks && (s'.tasks[t].pc.IsUpdate() <==> s.tasks[t].pc.IsUpdate())
          && (HasWritten(s'.tasks[t].pc) <==> HasWritten(s.tasks[t].pc))
          && (s'.tasks[t].pc.UpLock? ==> s.tasks[t].pc.UpLock?))
  }

  lemma CalmKeepsOrder(s: State, s': State)
    requires Ordered(s) && Calm(s, s')
    ensures Ordered(s')
  {}

  lemma LockExtends(hist: seq<Write>, lo: seq<nat>, t: nat)
    requires PublishesInOrder(hist, lo) && !WroteOutcome(hist, t)
    ensures PublishesInOrder(hist, lo + [t])
  {
    forall i, j | 0 <= j < i < |hist| && hist[i].Published? && hist[j].author in lo + [t]
      ensures LockedBefore(lo + [t], hist[j].author, hist[i].author)
    {
      var a, b :| 0 <= a < b < |lo| && lo[a] == hist[j].author && lo[b] == hist[i].author;
      assert (lo + [t])[a] == lo[a] && (lo + [t])[b] == lo[b];
    }
  }

  lemma LockKeepsOrder(s: State, s': State, t: nat)
    requires Ordered(s) && t in s.tasks && s.tasks[t].pc.UpLock?
    requires s'.tasks == s.tasks[t := s.tasks[t].(pc := UpWork)]
    requires s'.shared == s.shared.(file := Some(Thread(t)), lockOrder := s.shared.lockOrder + [t])
    ensures Ordered(s')
  {
    LockExtends(s.shared.history, s.shared.lockOrder, t);
  }

  lemma WriteExtends(hist: seq<Write>, lo: seq<nat>, w: Write)
    requires PublishesInOrder(hist, lo) && !WroteOutcome(hist, w.author)
    requires w.Published? ==> lo != [] && lo[|lo| - 1] == w.author
    ensures PublishesInOrder(hist + [w], lo)
  {
    forall j | 0 <= j < |hist| && w.Published? && hist[j].author in lo
      ensures LockedBefore(lo, hist[j].author, w.author)
    {
      var a :| 0 <= a < |lo| && lo[a] == hist[j].author;
      assert a < |lo| - 1;
    }
  }

  lemma WriteOnceMore(s: State, s': State, t: nat, w: Write)
    requires LocksOnce(s) && WritesOnce(s) && t in s.tasks && !HasWritten(s.tasks[t].pc) && w.author == t
    requires t in s'.tasks && s'.tasks == s.tasks[t := s'.tasks[t]] && HasWritten(s'.tasks[t].pc)
    requires s'.shared.history == s.shared.history + [w] && s'.shared.lockOrder == s.shared.lockOrder
    ensures WritesOnce(s')
  {
    var (hist, hist') := (s.shared.history, s'.shared.history);
    assert hist'[|hist|].author == t;
    forall u | WroteOutcome(hist, u)
      ensures WroteOutcome(hist', u)
    {
      var i :| 0 <= i < |hist| && hist[i].author == u;
      assert hist'[i].author == u;
    }
  }

  lemma WriteKeepsOrder(s: State, s': State, t: nat, w: Write)
    requires Ordered(s) && t in s.tasks
    requires s.tasks[t].pc.IsUpdate() && !s.tasks[t].pc.UpLock? && !HasWritten(s.tasks[t].pc)
    requires w.author == t && (w.Published? ==> s.shared.file == Some(Thread(t)))
    requires t in s'.tasks && s'.tasks == s.tasks[t := s'.tasks[t]]
    requires s'.tasks[t].pc.IsUpdate() && HasWritten(s'.tasks[t].pc)
    requires s'.shared.history == s.shared.history + [w]
    requires s'.shared.lockOrder == s.shared.lockOrder && s'.shared.file == s.shared.file
    ensures Ordered(s')
  {
    WriteOnceMore(s, s', t, w);
    WriteExtends(s.shared.history, s.shared.lockOrder, w);
  }

  predicate LocksOrWrites(pc: Pc, choice: Choice) {
    (pc.UpLock? && !choice.Fail?) || pc.UpWrote? || pc.UpReport?
  }

  lemma UpdateStepIsCalm(s: Shared, t: nat, pc: Pc, choice: Choice)
    requires pc.IsUpdate() && !LocksOrWrites(pc, choice) && UpdateStep(s, t, pc, choice).Some?
    ensures var (s', pc') := UpdateStep(s, t, pc, choice).value;
            && s'.history == s.history && s'.lockOrder == s.lockOrder && (s'.file == s.file || s'.file.None?)
            && pc'.IsUpdate() && !pc'.UpLock? && (HasWritten(pc') <==> HasWritten(pc))
  {}

  lemma OwnStepIsCalm(s: Shared, t: nat, task: Task, choice: Choice)
    requires GoodTask(s, t, task) && (s.readers != {} ==> s.writer.None?) && |task.ch| <= 1
    requires !LocksOrWrites(task.pc, choice) && OwnStep(s, t, task, choice).Some?
    ensures var (s', task') := OwnStep(s, t, task, choice).value;
            && s'.history == s.history && s'.lockOrder == s.lockOrder && (s'.file == s.file || s'.file.None?)
            && (task'.pc.IsUpdate() <==> task.pc.IsUpdate()) && !task'.pc.UpLock?
            && (HasWritten(task'.pc) <==> HasWritten(task.pc))
  {
    if task.pc.IsUpdate() {
      if !task.pc.UpSend? {
        UpdateStepIsCalm(s, t, task.pc, choice);
      }
    } else {
      WaitStepFrame(s, t, task, choice);
    }
  }

  lemma OtherStepsAreCalm(s: State, t: nat, choice: Choice)
    requires t in s.tasks && Linked(s.tasks, t) && AdvanceStep(s, t, choice).Some?
    requires GoodTask(s.shared, t, s.tasks[t]) && (s.shared.readers != {} ==> s.shared.writer.None?)
    requires !LocksOrWrites(s.tasks[t].pc, choice)
    ensures Calm(s, AdvanceStep(s, t, choice).value)
  {
    var task := s.tasks[t];
    if !(task.pc.UpSend? && task.owner.Some?) && !Launches(task) {
      OwnStepIsCalm(s.shared, t, task, choice);
    }
  }

  lemma AdvanceKeepsOrder(s: State, t: nat, choice: Choice)
    requires Inv(s) && Ordered(s) && t in s.tasks && AdvanceStep(s, t, choice).Some?
    ensures Ordered(AdvanceStep(s, t, choice).value)
  {
    var s' := AdvanceStep(s, t, choice).value;
    var pc := s.tasks[t].pc;
    assert GoodTask(s.shared, t, s.tasks[t]);
    assert Linked(s.tasks, t);
    if pc.UpLock? && !choice.Fail? {
      LockKeepsOrder(s, s', t);
    } else if pc.UpWrote? || pc.UpReport? {
      WriteKeepsOrder(s, s', t, if pc.UpWrote? then Published(t, pc.c, pc.now) else Reported(t, pc.e));
    } else {
      OtherStepsAreCalm(s, t, choice);
      CalmKeepsOrder(s, s');
    }
  }

  lemma StepKeepsOrder(s: State, step: Step)
    requires Inv(s) && Ordered(s) && Next(s, step).Some?
    ensures Ordered(Next(s, step).value)
  {
    if step.Advance? {
      AdvanceKeepsOrder(s, step.t, step.choice);
    } else {
      CalmKeepsOrder(s, Next(s, step).value);
    }
  }

  lemma {:induction false} RunKeepsOrder(s: State, steps: seq<Step>)
    requires Inv(s) && Ordered(s) && Run(s, steps).Some?
    ensures Ordered(Run(s, steps).value)
    decreases |steps|
  {
    if steps != [] {
      StepKeepsOrder(s, steps[0]);
      StepKeepsInv(s, steps[0]);
      RunKeepsOrder(Next(s, steps[0]).value, steps[1..]);
    }
  }

  // ---- Which outcome stays ----

  /** No `update` is between its start and the write of its outcome. */
  predicate Quiet(s: State) {
    forall t :: t in s.tasks && s.tasks[t].pc.IsUpdate() ==> HasWritten(s.tasks[t].pc)
  }

  /** Successes are published in the order in which their runs took the file lock. */
  lemma SuccessesFollowLockOrder(steps: seq<Step>, s: State, i: nat, j: nat)
    requires Run(INITIAL, steps) == Some(s)
    requires j < i < |s.shared.history| && s.shared.history[j].Published? && s.shared.history[i].Published?
    ensures LockedBefore(s.shared.lockOrder, s.shared.history[j].author, s.shared.history[i].author)
  {
    InitialInv();
    RunKeepsOrder(INITIAL, steps);
  }

  /** After the outcome of the last run to take the lock, only failures of other runs can be written. */
  lemma OnlyFailuresComeLate(s: State, i: nat, j: nat)
    requires Ordered(s) && s.shared.lockOrder != []
    requires i < j < |s.shared.history| && s.shared.history[i].author == s.shared.lockOrder[|s.shared.lockOrder| - 1]
    ensures s.shared.history[j].Reported? && s.shared.history[j].author != s.shared.history[i].author
  {}

  /** The published status tells the outcome `w`. */
  predicate Shows(st: Status, w: Write) {
    match w
    case Published(_, _, now) => st == Status(None, Some(now))
    case Reported(_, e) => st.error == Some(e)
  }

  /** A run past its write leaves the published fields complete, even if it still holds `mu`. */
  lemma QuietShowsLastWrite(s: State)
    requires Inv(s) && Quiet(s) && s.shared.history != []
    ensures Shows(s.shared.status, s.shared.history[|s.shared.history| - 1])
  {
    if s.shared.writer.Some? {
      assert GoodTask(s.shared, s.shared.writer.value, s.tasks[s.shared.writer.value]);
    }
    assert Consistent(s.shared);
    ReplayMeaning(s.shared.initial, s.shared.history);
  }

  /** With nothing in flight the last write is the last locker's exactly when no failure was written after its own. */
  lemma LastLockedWrites(s: State) returns (i: nat)
    requires Ordered(s) && Quiet(s) && s.shared.lockOrder != []
    ensures var (hist, lo) := (s.shared.history, s.shared.lockOrder);
            && i < |hist| && hist[i].author == lo[|lo| - 1]
            && (i == |hist| - 1 || (hist[|hist| - 1].Reported? && hist[|hist| - 1].author != lo[|lo| - 1]))
  {
    var (hist, lo) := (s.shared.history, s.shared.lockOrder);
    assert lo[|lo| - 1] in lo;
    assert WroteOutcome(hist, lo[|lo| - 1]);
    i :| 0 <= i < |hist| && hist[i].author == lo[|lo| - 1];
    if i < |hist| - 1 {
      OnlyFailuresComeLate(s, i, |hist| - 1);
    }
  }

  /** Some failure was reported after write `i`. */
  predicate ReportedAfter(hist: seq<Write>, i: nat) {
    exists j :: i < j < |hist| && hist[j].Reported?
  }

  lemma ShownOutcome(hist: seq<Write>, st: Status, t: nat, i: nat)
    requires i < |hist| && hist[i].author == t && Shows(st, hist[|hist| - 1])
    requires i == |hist| - 1 || (hist[|hist| - 1].Reported? && hist[|hist| - 1].author != t)
    ensures var last := |hist| - 1;
            && (hist[last].author == t <==> !ReportedAfter(hist, i))
            && (Shows(st, hist[i]) <==>
                  !ReportedAfter(hist, i)
                  || (hist[i].Reported? && hist[last].Reported? && hist[i].e == hist[last].e))
  {
    assert i < |hist| - 1 ==> hist[|hist| - 1].Reported?;
  }

  /** The published status is the outcome `hist[i]` of the last locker, unless a later failure shows instead. */
  predicate DecidedBy(s: Shared, i: nat) {
    var (hist, lo) := (s.history, s.lockOrder);
    && i < |hist| && lo != [] && hist[i].author == lo[|lo| - 1]
    && var last := |hist| - 1;
    && (hist[last].author == lo[|lo| - 1] <==> !ReportedAfter(hist, i))
    && Shows(s.status, hist[last])
    && (Shows(s.status, hist[i]) <==>
          !ReportedAfter(hist, i) || (hist[i].Reported? && hist[last].Reported? && hist[i].e == hist[last].e))
  }

  lemma QuietIsDecided(s: State) returns (i: nat)
    requires Inv(s) && Ordered(s) && Quiet(s) && s.shared.lockOrder != []
    ensures DecidedBy(s.shared, i)
  {
    i := LastLockedWrites(s);
    QuietShowsLastWrite(s);
    var lo := s.shared.lockOrder;
    ShownOutcome(s.shared.history, s.shared.status, lo[|lo| - 1], i);
  }

  /**
   * With nothing in flight, the published status is the outcome of the last run to take the file
   * lock exactly when no failure was reported after that outcome; a later failure shows instead,
   * which is the same only if both failed with the same error.
   */
  lemma LastLockedDecidesExactly(steps: seq<Step>, s: State) returns (i: nat)
    requires Run(INITIAL, steps) == Some(s) && Quiet(s) && s.shared.lockOrder != []
    ensures DecidedBy(s.shared, i)
  {
    InitialInv();
    RunKeepsInv(INITIAL, steps);
    RunKeepsOrder(INITIAL, steps);
    i := QuietIsDecided(s);
  }

  /** So with nothing in flight a status without error is never stale. */
  lemma SuccessIsNeverStale(steps: seq<Step>, s: State)
    requires Run(INITIAL, steps) == Some(s) && Quiet(s) && s.shared.lockOrder != []
    requires s.shared.status.error.None?
    ensures var (hist, lo) := (s.shared.history, s.shared.lockOrder);
            hist != [] && hist[|hist| - 1].Published? && hist[|hist| - 1].author == lo[|lo| - 1]
  {
    InitialInv();
    RunKeepsInv(INITIAL, steps);
    RunKeepsOrder(INITIAL, steps);
    var i := LastLockedWrites(s);
    QuietShowsLastWrite(s);
  }

  // ---- A late failure ----

  lemma Then(s0: State, s: State, step: Step) returns (s': State)
    requires Reaches(s0, s) && Next(s, step).Some?
    ensures s' == Next(s, step).value && Reaches(s0, s')
  {
    s' := Next(s, step).value;
    assert [step][1..] == [];
    assert Run(s, [step]) == Run(s', []);
    ReachesThen(s0, s, s');
  }

  /** The provider was built with client 7; updates 1 and 2 run, nobody reads, the clock stands at 0. */
  function Snapshot(
    status: Status, client: Client, file: Option<Holder>, pending: Option<nat>, writer: Option<nat>,
    history: seq<Write>, lockOrder: seq<nat>, first: Pc, second: Pc): State
  {
    State(Shared(status, Some(client), true, file, pending, writer, {}, 0, CtorDone(true), 7, history, lockOrder),
          map[1 := Task(first, None, None, [], 0), 2 := Task(second, None, None, [], 0)])
  }

  const NOT_YET := Status(None, None)
  const UPDATED := Status(None, Some(0))

  /** Construction succeeds online and two updates start. */
  lemma TwoUpdatesStarted() returns (s: State)
    ensures Reaches(INITIAL, s) && s == Snapshot(NOT_YET, 7, None, None, None, [], [], UpLock, UpLock)
  {
    ReachesRefl(INITIAL);
    s := Then(INITIAL, INITIAL, Construct(Proceed));
    s := Then(INITIAL, s, Construct(Proceed));
    s := Then(INITIAL, s, Construct(Got(7)));
    s := Then(INITIAL, s, Construct(Proceed));
    s := Then(INITIAL, s, Construct(Proceed));
    s := Then(INITIAL, s, Construct(Proceed));
    s := Then(INITIAL, s, Construct(Proceed));
    s := Then(INITIAL, s, StartUpdate(1));
    s := Then(INITIAL, s, StartUpdate(2));
  }

  /** The first update locks, fails and gives up the file lock. */
  lemma FirstGivesUp() returns (s: State)
    ensures Reaches(INITIAL, s)
    ensures s == Snapshot(NOT_YET, 7, None, None, None, [], [1], UpReportWant("late"), UpLock)
  {
    s := TwoUpdatesStarted();
    s := Then(INITIAL, s, Advance(1, Proceed));
    s := Then(INITIAL, s, Advance(1, Fail("late")));
    s := Then(INITIAL, s, Advance(1, Proceed));
  }

  /** The second takes the file lock, creates its client and locks `mu`. */
  lemma SecondLocks() returns (s: State)
    ensures Reaches(INITIAL, s)
    ensures s == Snapshot(NOT_YET, 7, Some(Thread(2)), None, Some(2), [], [1, 2], UpReportWant("late"), UpHold(8))
  {
    s := FirstGivesUp();
    s := Then(INITIAL, s, Advance(2, Proceed));
    s := Then(INITIAL, s, Advance(2, Got(8)));
    assert s.tasks[2].pc == UpWantMu(8);
    s := Then(INITIAL, s, Advance(2, Proceed));
    s := Then(INITIAL, s, Advance(2, Proceed));
  }

  /** It publishes status and client and unlocks `mu`. */
  lemma SecondPublishes() returns (s: State)
    ensures Reaches(INITIAL, s)
    ensures s == Snapshot(UPDATED, 8, Some(Thread(2)), None, None, [Published(2, 8, 0)], [1, 2],
                          UpReportWant("late"), UpRelease)
  {
    s := SecondLocks();
    s := Then(INITIAL, s, Advance(2, Proceed));
    s := Then(INITIAL, s, Advance(2, Proceed));
    s := Then(INITIAL, s, Advance(2, Proceed));
  }

  /** It ends. */
  lemma SecondEnds() returns (s: State)
    ensures Reaches(INITIAL, s)
    ensures s == Snapshot(UPDATED, 8, None, None, None, [Published(2, 8, 0)], [1, 2], UpReportWant("late"), UpDone)
  {
    s := SecondPublishes();
    s := Then(INITIAL, s, Advance(2, Proceed));
    s := Then(INITIAL, s, Advance(2, Proceed));
  }

  /** The first locks `mu` to report. */
  lemma FirstReturns() returns (s: State)
    ensures Reaches(INITIAL, s)
    ensures s == Snapshot(UPDATED, 8, None, None, Some(1), [Published(2, 8, 0)], [1, 2], UpReport("late"), UpDone)
  {
    s := SecondEnds();
    s := Then(INITIAL, s, Advance(1, Proceed));
    s := Then(INITIAL, s, Advance(1, Proceed));
  }

  /** It reports. */
  lemma FirstReportsLate() returns (s: State)
    ensures Reaches(INITIAL, s)
    ensures s == Snapshot(Status(Some("late"), Some(0)), 8, None, None, None,
                          [Published(2, 8, 0), Reported(1, "late")], [1, 2], UpSend(Some("late")), UpDone)
  {
    s := FirstReturns();
    s := Then(INITIAL, s, Advance(1, Proceed));
    s := Then(INITIAL, s, Advance(1, Proceed));
  }

  /**
   * "The status is the outcome of the last update in file-lock order" is false: the first run's
   * failure, reported after its file lock was released, overwrites the second run's success.
   */
  lemma LateFailureOverwrites() returns (s: State)
    ensures Reaches(INITIAL, s) && Quiet(s) && s.shared.writer.None?
    ensures s.shared.lockOrder == [1, 2] && s.shared.history == [Published(2, 8, 0), Reported(1, "late")]
    ensures s.shared.client == Some(8) && s.shared.status == Status(Some("late"), Some(0))
  {
    s := FirstReportsLate();
  }
}
