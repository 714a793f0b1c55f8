/** Where the clients, errors and times of the trust provider come from, and what a caller gets when. */
module TrustProviderCauses {
  import opened Wrappers
  import opened TrustProvider
  import opened TrustProviderSafety
  import opened TrustProviderProgress
  import opened TrustProviderOrder

  // ---- Every client and every error has its cause in the run ----

  /** The caller's own context ended with `e`, or the update it launched failed with it. */
  predicate ErrorCaused(past: seq<Step>, hist: seq<Write>, t: nat, task: Task, e: Message) {
    Advance(t, Cancel(e)) in past || (task.child.Some? && Reported(task.child.value, e) in hist)
  }

  predicate Succeeded(hist: seq<Write>, t: nat) {
    exists i :: 0 <= i < |hist| && hist[i].Published? && hist[i].author == t
  }

  /** What `update` run `t` returned is what it wrote. */
  predicate OutcomeOf(hist: seq<Write>, t: nat, r: Option<Message>) {
    match r
    case Some(e) => Reported(t, e) in hist
    case None => Succeeded(hist, t)
  }

  predicate PcCaused(past: seq<Step>, hist: seq<Write>, t: nat, task: Task) {
    match task.pc
    case UpWantMu(c) => Advance(t, Got(c)) in past
    case UpAwaitMu(c) => Advance(t, Got(c)) in past
    case UpHold(c) => Advance(t, Got(c)) in past
    case UpWrote(c, _) => Advance(t, Got(c)) in past
    case UpFail(e) => Advance(t, Fail(e)) in past
    case UpReportWant(e) => Advance(t, Fail(e)) in past
    case UpReportAwait(e) => Advance(t, Fail(e)) in past
    case UpReport(e) => Advance(t, Fail(e)) in past
    case UpReported(e) => Reported(t, e) in hist
    case UpPublished => Succeeded(hist, t)
    case UpRelease => Succeeded(hist, t)
    case UpSend(r) => OutcomeOf(hist, t, r)
    case RootWant(e) => ErrorCaused(past, hist, t, task, e)
    case RootRead(e) => ErrorCaused(past, hist, t, task, e)
    case RootRelease(e, _) => ErrorCaused(past, hist, t, task, e)
    case RootDone(_, st) => st.error.Some? ==> ErrorCaused(past, hist, t, task, st.error.value)
    case _ => true
  }

  predicate TaskCaused(past: seq<Step>, hist: seq<Write>, t: nat, task: Task) {
    && PcCaused(past, hist, t, task)
    && (task.ch != [] ==> task.child.Some? && OutcomeOf(hist, task.child.value, task.ch[0]))
  }

  predicate WriteCaused(past: seq<Step>, w: Write) {
    match w
    case Published(t, c, _) => Advance(t, Got(c)) in past
    case Reported(t, e) => Advance(t, Fail(e)) in past
  }

  predicate SomeConstructFailed(past: seq<Step>) {
    exists i :: 0 <= i < |past| && past[i].Construct? && past[i].choice.Fail?
  }

  /** The constructor's client came from one of its two attempts, and it fails only after a failure. */
  predicate CtorCaused(past: seq<Step>, s: Shared) {
    && (s.ctor.CtorGotClient? ==> Construct(Got(s.ctor.c)) in past)
    && (s.ctor.HasClient() ==> Construct(Got(s.initial)) in past)
    && (s.ctor.CtorSecond? || s.ctor == CtorUnlock(false) || s.ctor == CtorDone(false) ==> SomeConstructFailed(past))
  }

  predicate Caused(past: seq<Step>, s: State) {
    && CtorCaused(past, s.shared)
    && (forall w :: w in s.shared.history ==> WriteCaused(past, w))
    && (forall t :: t in s.tasks ==> TaskCaused(past, s.shared.history, t, s.tasks[t]))
  }

  lemma MoreCaused(past: seq<Step>, step: Step, hist: seq<Write>, hist': seq<Write>, t: nat, task: Task)
    requires TaskCaused(past, hist, t, task) && hist <= hist'
    ensures TaskCaused(past + [step], hist', t, task)
  {
    assert forall w :: w in hist ==> w in hist';
    forall u | Succeeded(hist, u)
      ensures Succeeded(hist', u)
    {
      var i :| 0 <= i < |hist| && hist[i].Published? && hist[i].author == u;
      assert hist'[i] == hist[i];
    }
  }

  lemma UpdateStepCaused(past: seq<Step>, s: Shared, t: nat, task: Task, choice: Choice)
    requires task.pc.IsUpdate() && task.ch == [] && UpdateStep(s, t, task.pc, choice).Some?
    requires PcCaused(past, s.history, t, task)
    ensures var (s', pc') := UpdateStep(s, t, task.pc, choice).value;
            && TaskCaused(past + [Advance(t, choice)], s'.history, t, task.(pc := pc'))
            && s.history <= s'.history
            && (forall w :: w in s'.history ==> w in s.history || WriteCaused(past, w))
            && CtorFrame(s, s')
  {
    assert Advance(t, choice) in past + [Advance(t, choice)];
    var s' := UpdateStep(s, t, task.pc, choice).value.0;
    assert task.pc.UpWrote? ==> s'.history[|s.history|].Published?;
    MoreCaused(past, Advance(t, choice), s.history, s'.history, t, task);
  }

  predicate CtorFrame(s: Shared, s': Shared) {
    s'.ctor == s.ctor && s'.initial == s.initial
  }

  lemma WaitStepCaused(past: seq<Step>, s: Shared, t: nat, task: Task, choice: Choice)
    requires !task.pc.IsUpdate() && |task.ch| <= 1 && WaitStep(s, t, task, choice).Some?
    requires TaskCaused(past, s.history, t, task)
    ensures var (s', task') := WaitStep(s, t, task, choice).value;
            && TaskCaused(past + [Advance(t, choice)], s'.history, t, task')
            && s'.history == s.history && CtorFrame(s, s')
  {
    assert Advance(t, choice) in past + [Advance(t, choice)];
  }

  lemma OwnStepCaused(past: seq<Step>, s: State, t: nat, choice: Choice)
    requires Inv(s) && Caused(past, s) && t in s.tasks && OwnStep(s.shared, t, s.tasks[t], choice).Some?
    ensures var (s', task') := OwnStep(s.shared, t, s.tasks[t], choice).value;
            && TaskCaused(past + [Advance(t, choice)], s'.history, t, task')
            && s.shared.history <= s'.history
            && (forall w :: w in s'.history ==> w in s.shared.history || WriteCaused(past, w))
            && CtorFrame(s.shared, s')
  {
    var task := s.tasks[t];
    assert Linked(s.tasks, t) && TaskCaused(past, s.shared.history, t, task);
    if task.pc.IsUpdate() {
      if !task.pc.UpSend? {
        UpdateStepCaused(past, s.shared, t, task, choice);
      }
    } else {
      WaitStepCaused(past, s.shared, t, task, choice);
    }
  }

  lemma OneTaskCaused(past: seq<Step>, step: Step, s: State, t: nat, shared: Shared, task: Task)
    requires Caused(past, s) && t in s.tasks
    requires TaskCaused(past + [step], shared.history, t, task) && s.shared.history <= shared.history
    requires forall w :: w in shared.history ==> w in s.shared.history || WriteCaused(past, w)
    requires CtorFrame(s.shared, shared)
    ensures Caused(past + [step], State(shared, s.tasks[t := task]))
  {
    CtorStillCaused(past, step, s.shared, shared);
    forall u | u in s.tasks && u != t
      ensures TaskCaused(past + [step], shared.history, u, s.tasks[u])
    {
      MoreCaused(past, step, s.shared.history, shared.history, u, s.tasks[u]);
    }
  }

  lemma CtorStillCaused(past: seq<Step>, step: Step, s: Shared, s': Shared)
    requires CtorCaused(past, s) && CtorFrame(s, s')
    ensures CtorCaused(past + [step], s')
  {
    if SomeConstructFailed(past) {
      var i :| 0 <= i < |past| && past[i].Construct? && past[i].choice.Fail?;
      assert (past + [step])[i] == past[i];
    }
  }

  lemma ConstructCaused(past: seq<Step>, s: Shared, choice: Choice)
    requires CtorCaused(past, s) && ConstructStep(s, choice).Some?
    ensures CtorCaused(past + [Construct(choice)], ConstructStep(s, choice).value)
  {
    var past' := past + [Construct(choice)];
    assert past'[|past|] == Construct(choice);
    CtorStillCaused(past, Construct(choice), s, s);
  }

  lemma SameTasksCaused(past: seq<Step>, step: Step, s: State, s': State)
    requires Caused(past, s) && CtorCaused(past + [step], s'.shared) && s'.shared.history == s.shared.history
    requires forall t :: t in s'.tasks ==> (t in s.tasks && s'.tasks[t] == s.tasks[t])
                                           || TaskCaused(past, s.shared.history, t, s'.tasks[t])
    ensures Caused(past + [step], s')
  {
    forall t | t in s'.tasks
      ensures TaskCaused(past + [step], s'.shared.history, t, s'.tasks[t])
    {
      MoreCaused(past, step, s.shared.history, s.shared.history, t, s'.tasks[t]);
    }
  }

  lemma SendCaused(past: seq<Step>, hist: seq<Write>, t: nat, task: Task, w: nat, waiter: Task)
    requires TaskCaused(past, hist, t, task) && TaskCaused(past, hist, w, waiter)
    requires task.pc.UpSend? && waiter.ch == [] && waiter.child == Some(t) && task.ch == []
    ensures TaskCaused(past, hist, t, task.(pc := UpDone))
    ensures TaskCaused(past, hist, w, waiter.(ch := waiter.ch + [task.pc.r]))
  {}

  lemma SendStepCaused(past: seq<Step>, s: State, t: nat)
    requires Inv(s) && Caused(past, s) && t in s.tasks && s.tasks[t].pc.UpSend? && SendStep(s, t).Some?
    ensures var s' := SendStep(s, t).value;
            s'.shared == s.shared && forall u :: u in s'.tasks ==> TaskCaused(past, s.shared.history, u, s'.tasks[u])
  {
    var w := s.tasks[t].owner.value;
    assert Linked(s.tasks, t) && Linked(s.tasks, w);
    assert TaskCaused(past, s.shared.history, t, s.tasks[t]) && TaskCaused(past, s.shared.history, w, s.tasks[w]);
    SendCaused(past, s.shared.history, t, s.tasks[t], w, s.tasks[w]);
  }

  lemma LaunchStepCaused(past: seq<Step>, s: State, t: nat, u: nat)
    requires Caused(past, s) && t in s.tasks && Launches(s.tasks[t]) && LaunchStep(s, t, u).Some?
    requires Linked(s.tasks, t)
    ensures var s' := LaunchStep(s, t, u).value;
            s'.shared == s.shared && forall v :: v in s'.tasks ==> TaskCaused(past, s.shared.history, v, s'.tasks[v])
  {
    assert TaskCaused(past, s.shared.history, t, s.tasks[t]);
  }

  lemma AdvanceCaused(past: seq<Step>, s: State, t: nat, choice: Choice)
    requires Inv(s) && Caused(past, s) && t in s.tasks && AdvanceStep(s, t, choice).Some?
    ensures Caused(past + [Advance(t, choice)], AdvanceStep(s, t, choice).value)
  {
    var (task, s', step) := (s.tasks[t], AdvanceStep(s, t, choice).value, Advance(t, choice));
    if task.pc.UpSend? && task.owner.Some? {
      SendStepCaused(past, s, t);
      CtorStillCaused(past, step, s.shared, s'.shared);
      SameTasksCaused(past, step, s, s');
    } else if Launches(task) {
      assert Linked(s.tasks, t);
      LaunchStepCaused(past, s, t, choice.u);
      CtorStillCaused(past, step, s.shared, s'.shared);
      SameTasksCaused(past, step, s, s');
    } else {
      OwnStepCaused(past, s, t, choice);
      var (shared, task') := OwnStep(s.shared, t, task, choice).value;
      OneTaskCaused(past, step, s, t, shared, task');
    }
  }

  lemma StartCaused(past: seq<Step>, s: State, step: Step, t: nat, pc: Pc)
    requires Caused(past, s) && (pc.UpLock? || pc.WaitWant?)
    ensures Caused(past + [step], s.(tasks := s.tasks[t := Task(pc, None, None, [], 0)]))
  {
    CtorStillCaused(past, step, s.shared, s.shared);
    SameTasksCaused(past, step, s, s.(tasks := s.tasks[t := Task(pc, None, None, [], 0)]));
  }

  lemma EnvironmentCaused(past: seq<Step>, s: State, step: Step)
    requires Caused(past, s) && (step.Tick? || step.Take? || step.Drop?) && Next(s, step).Some?
    ensures Caused(past + [step], Next(s, step).value)
  {
    CtorStillCaused(past, step, s.shared, Next(s, step).value.shared);
    SameTasksCaused(past, step, s, Next(s, step).value);
  }

  lemma ConstructStepCaused(past: seq<Step>, s: State, choice: Choice)
    requires Caused(past, s) && ConstructStep(s.shared, choice).Some?
    ensures Caused(past + [Construct(choice)], s.(shared := ConstructStep(s.shared, choice).value))
  {
    ConstructCaused(past, s.shared, choice);
    SameTasksCaused(past, Construct(choice), s, s.(shared := ConstructStep(s.shared, choice).value));
  }

  lemma StepCaused(past: seq<Step>, s: State, step: Step)
    requires Inv(s) && Caused(past, s) && Next(s, step).Some?
    ensures Caused(past + [step], Next(s, step).value)
  {
    match step
    case Advance(t, choice) => AdvanceCaused(past, s, t, choice);
    case Construct(choice) => ConstructStepCaused(past, s, choice);
    case StartUpdate(t) => StartCaused(past, s, step, t, UpLock);
    case StartTrustedRoot(t) => StartCaused(past, s, step, t, WaitWant);
    case _ => EnvironmentCaused(past, s, step);
  }

  lemma StepCausedInv(past: seq<Step>, s: State, step: Step)
    requires Inv(s) && Caused(past, s) && Next(s, step).Some?
    ensures Inv(Next(s, step).value) && Caused(past + [step], Next(s, step).value)
  {
    StepCaused(past, s, step);
    StepKeepsInv(s, step);
  }

  lemma RunTail(past: seq<Step>, s: State, steps: seq<Step>)
    requires steps != [] && Run(s, steps).Some?
    ensures Next(s, steps[0]).Some? && Run(Next(s, steps[0]).value, steps[1..]) == Run(s, steps)
    ensures past + [steps[0]] + steps[1..] == past + steps
  {}

  lemma {:induction false} RunCaused(past: seq<Step>, s: State, steps: seq<Step>)
    requires Inv(s) && Caused(past, s) && Run(s, steps).Some?
    ensures Caused(past + steps, Run(s, steps).value)
    decreases |steps|
  {
    if steps == [] {
      assert past + steps == past;
    } else {
      RunTail(past, s, steps);
      var (past', s') := (past + [steps[0]], Next(s, steps[0]).value);
      StepCausedInv(past, s, steps[0]);
      RunCaused(past', s', steps[1..]);
    }
  }

  /**
   * In every run: a `TrustedRoot` fails only with the cause of its own context's end or with the
   * error of the update it launched; every published client and every reported error is what the
   * library gave that very update; and the first client what it gave the constructor.
   */
  lemma EverythingHasACause(steps: seq<Step>, s: State)
    requires Run(INITIAL, steps) == Some(s)
    ensures forall t :: t in s.tasks && s.tasks[t].pc.RootDone? && s.tasks[t].pc.st.error.Some? ==>
              ErrorCaused(steps, s.shared.history, t, s.tasks[t], s.tasks[t].pc.st.error.value)
    ensures forall w :: w in s.shared.history ==>
              if w.Published? then Advance(w.author, Got(w.client)) in steps else Advance(w.author, Fail(w.e)) in steps
    ensures s.shared.ctor.HasClient() ==> Construct(Got(s.shared.initial)) in steps
    ensures s.shared.ctor == CtorDone(false) ==> SomeConstructFailed(steps)
  {
    InitialInv();
    RunCaused([], INITIAL, steps);
    assert [] + steps == steps;
    forall t | t in s.tasks
      ensures TaskCaused(steps, s.shared.history, t, s.tasks[t])
    {}
    forall w | w in s.shared.history
      ensures WriteCaused(steps, w)
    {}
  }

  // ---- What a caller of TrustedRoot gets, and when ----

  /** The writes that a waiter's last look under the read lock saw. */
  function Looked(s: State, t: nat): seq<Write>
    requires t in s.tasks && s.tasks[t].seen <= |s.shared.history|
  {
    s.shared.history[..s.tasks[t].seen]
  }

  /**
   * What `wait` does next is decided by the latest write it saw: after a success it returns that
   * success's client at once and without an error; after a failure, the first time, it launches
   * an update of its own; and otherwise it goes to wait.
   */
  lemma LatestWriteDecides(steps: seq<Step>, s: State, t: nat, choice: Choice)
    requires Run(INITIAL, steps) == Some(s)
    requires t in s.tasks && s.tasks[t].pc.WaitDecide?
    ensures s.tasks[t].seen <= |s.shared.history|
    ensures var (seen, s') := (Looked(s, t), Next(s, Advance(t, choice)));
            if seen == [] then s' == Some(s.(tasks := s.tasks[t := s.tasks[t].(pc := WaitSelect)]))
            else match seen[|seen| - 1]
              case Published(_, c, _) =>
                s' == Some(s.(tasks := s.tasks[t := s.tasks[t].(pc := RootDone(Some(c), Status(None, None)))]))
              case Reported(_, _) =>
                if s.tasks[t].child.Some? then s' == Some(s.(tasks := s.tasks[t := s.tasks[t].(pc := WaitSelect)]))
                else if choice.Launch? && choice.u !in s.tasks then
                  s' == Some(s.(tasks := s.tasks[t := s.tasks[t].(pc := WaitSelect, child := Some(choice.u))]
                                                [choice.u := Task(UpLock, Some(t), None, [], 0)]))
                else s'.None?
  {
    InitialInv();
    RunKeepsInv(INITIAL, steps);
    assert GoodTask(s.shared, t, s.tasks[t]);
    ReplayMeaning(s.shared.initial, Looked(s, t));
    ReadyMeaning(s.shared.initial, Looked(s, t));
  }

  /** Between the read lock and the decision, nothing written can have escaped a waiter. */
  predicate LooksNow(s: State, t: nat) {
    && t in s.tasks
    && var task := s.tasks[t];
    && (|| (task.pc.WaitWant? && s.shared.writer.None? && s.shared.pending.None?)
        || ((task.pc.WaitRead? || task.pc.WaitReadClient? || task.pc.WaitRelease?) && task.seen == |s.shared.history|))
  }

  /** What a task in the select does next, with a message in hand or not. */
  predicate ActsOn(s: State, t: nat, task: Task, choice: Choice, s': Option<State>) {
    match choice
    case Receive =>
      if task.ch == [] then s'.None?
      else
        var pc := if task.ch[0].Some? then RootWant(task.ch[0].value) else WaitWant;
        s' == Some(s.(tasks := s.tasks[t := task.(pc := pc, ch := [])]))
    case Cancel(e) => s' == Some(s.(tasks := s.tasks[t := task.(pc := RootWant(e))]))
    case Timeout => s' == Some(s.(tasks := s.tasks[t := task.(pc := WaitWant)]))
    case _ => s'.None?
  }

  lemma SelectStep(s: State, t: nat, choice: Choice)
    requires t in s.tasks && s.tasks[t].pc.WaitSelect? && |s.tasks[t].ch| <= 1
    ensures ActsOn(s, t, s.tasks[t], choice, Next(s, Advance(t, choice)))
  {
    assert s.tasks[t].ch != [] ==> s.tasks[t].ch[1..] == [];
  }

  /**
   * In the select a waiter acts on what its update really did: a success sends it back to look
   * again, a failure ends the call with that failure, the end of its context with its cause, and
   * the timer sends it back.
   */
  lemma SelectActsOnOutcome(steps: seq<Step>, s: State, t: nat, choice: Choice)
    requires Run(INITIAL, steps) == Some(s) && t in s.tasks && s.tasks[t].pc.WaitSelect?
    ensures ActsOn(s, t, s.tasks[t], choice, Next(s, Advance(t, choice)))
    ensures var task := s.tasks[t];
            task.ch != [] ==> task.child.Some? && OutcomeOf(s.shared.history, task.child.value, task.ch[0])
  {
    InitialInv();
    RunKeepsInv(INITIAL, steps);
    RunCaused([], INITIAL, steps);
    assert Linked(s.tasks, t) && TaskCaused([] + steps, s.shared.history, t, s.tasks[t]);
    SelectStep(s, t, choice);
  }

  lemma LooksOnce(s: State, t: nat)
    requires LooksNow(s, t) && GoodTask(s.shared, t, s.tasks[t])
    ensures Next(s, Advance(t, Proceed)).Some?
    ensures var s' := Next(s, Advance(t, Proceed)).value;
            && t in s'.tasks && s'.shared == s.shared.(readers := s'.shared.readers)
            && s'.tasks[t].seen == |s.shared.history|
            && (LooksNow(s', t) || s'.tasks[t].pc.WaitDecide?)
            && RootRank(s'.tasks[t].pc) < RootRank(s.tasks[t].pc)
  {}

  lemma {:induction false} Looks(s: State, t: nat) returns (s': State)
    requires Inv(s) && LooksNow(s, t)
    ensures Inv(s') && Reaches(s, s') && s'.shared == s.shared.(readers := s'.shared.readers)
    ensures t in s'.tasks && s'.tasks[t].pc.WaitDecide? && s'.tasks[t].seen == |s.shared.history|
    decreases RootRank(s.tasks[t].pc)
  {
    assert GoodTask(s.shared, t, s.tasks[t]);
    LooksOnce(s, t);
    s' := ReachesStep(s, Advance(t, Proceed));
    if !s'.tasks[t].pc.WaitDecide? {
      var s1 := s';
      s' := Looks(s1, t);
      ReachesThen(s, s1, s');
    }
  }

  /** A call that finds the latest update successful and `mu` free gets its client without an error. */
  lemma HealthyCallSucceeds(steps: seq<Step>, s: State, t: nat) returns (s': State)
    requires Run(INITIAL, steps) == Some(s) && t in s.tasks && s.tasks[t].pc.WaitWant?
    requires s.shared.writer.None? && s.shared.pending.None?
    requires s.shared.history != [] && s.shared.history[|s.shared.history| - 1].Published?
    ensures Reaches(s, s') && t in s'.tasks
    ensures s'.tasks[t].pc == RootDone(Some(s.shared.history[|s.shared.history| - 1].client), Status(None, None))
  {
    InitialInv();
    RunKeepsInv(INITIAL, steps);
    var s1 := Looks(s, t);
    assert GoodTask(s1.shared, t, s1.tasks[t]);
    ReadyMeaning(s1.shared.initial, s1.shared.history);
    assert s1.shared.history[..|s1.shared.history|] == s1.shared.history;
    s' := ReachesStep(s1, Advance(t, Proceed));
    ReachesThen(s, s1, s');
  }

  /** If the online attempt fails and the offline one gives a client, construction succeeds with it, online again. */
  lemma OfflineAttemptSaves(s: State, e: Message, c: Client) returns (s': State)
    requires Inv(s) && s.shared.ctor.CtorFirst?
    ensures Reaches(s, s') && s'.shared.ctor == CtorDone(true)
    ensures s'.shared.client == Some(c) && s'.shared.isOnline && s'.shared.file.None?
  {
    var s1 := ReachesStep(s, Construct(Fail(e)));
    var s2 := ReachesStep(s1, Construct(Got(c)));
    var s3 := ReachesStep(s2, Construct(Proceed));
    var s4 := ReachesStep(s3, Construct(Proceed));
    var s5 := ReachesStep(s4, Construct(Proceed));
    s' := ReachesStep(s5, Construct(Proceed));
    ReachesThen(s, s1, s2);
    ReachesThen(s, s2, s3);
    ReachesThen(s, s3, s4);
    ReachesThen(s, s4, s5);
    ReachesThen(s, s5, s');
  }

  // ---- The time of a success ----

  /** What `t` writes is timed at `since` or later. */
  predicate TimedSince(s: State, t: nat, since: Time) {
    && since <= s.shared.clock
    && (t in s.tasks && s.tasks[t].pc.UpWrote? ==> since <= s.tasks[t].pc.now)
    && (forall w :: w in s.shared.history && w.Published? && w.author == t ==> since <= w.now)
  }

  predicate NewWriteTimed(s: Shared, s': Shared, u: nat, pc: Pc) {
    forall w :: w in s'.history ==>
      (w in s.history || w.Reported? || (w.author == u && pc.UpWrote? && w.now == pc.now))
  }

  lemma OwnStepTimed(s: Shared, u: nat, task: Task, choice: Choice)
    requires (task.pc.HoldsRead() <==> u in s.readers) && (s.readers != {} ==> s.writer.None?) && |task.ch| <= 1
    requires OwnStep(s, u, task, choice).Some?
    ensures var (s', task') := OwnStep(s, u, task, choice).value;
            s'.clock == s.clock && (task'.pc.UpWrote? ==> task'.pc.now == s.clock) && NewWriteTimed(s, s', u, task.pc)
  {
    if !task.pc.IsUpdate() {
      WaitStepFrame(s, u, task, choice);
    }
  }

  lemma AdvanceTimed(s: State, u: nat, choice: Choice, t: nat, since: Time)
    requires Inv(s) && TimedSince(s, t, since) && u in s.tasks && AdvanceStep(s, u, choice).Some?
    ensures TimedSince(AdvanceStep(s, u, choice).value, t, since)
  {
    var task := s.tasks[u];
    assert GoodTask(s.shared, u, task) && Linked(s.tasks, u);
    if !(task.pc.UpSend? && task.owner.Some?) && !Launches(task) {
      OwnStepTimed(s.shared, u, task, choice);
    }
  }

  lemma StepTimed(s: State, step: Step, t: nat, since: Time)
    requires Inv(s) && TimedSince(s, t, since) && Next(s, step).Some?
    ensures TimedSince(Next(s, step).value, t, since)
  {
    if step.Advance? {
      AdvanceTimed(s, step.t, step.choice, t, since);
    }
  }

  lemma {:induction false} RunTimed(s: State, steps: seq<Step>, t: nat, since: Time)
    requires Inv(s) && TimedSince(s, t, since) && Run(s, steps).Some?
    ensures TimedSince(Run(s, steps).value, t, since)
    decreases |steps|
  {
    if steps != [] {
      StepTimed(s, steps[0], t, since);
      StepKeepsInv(s, steps[0]);
      RunTimed(Next(s, steps[0]).value, steps[1..], t, since);
    }
  }

  /**
   * A success is timed by the clock of its own write: not before any moment at which its update
   * had yet to write, and not after any at which it had written.
   */
  lemma SuccessIsTimed(before: seq<Step>, s: State, after: seq<Step>, s': State, w: Write)
    requires Run(INITIAL, before) == Some(s) && Run(s, after) == Some(s')
    requires w.author in s.tasks ==> !HasWritten(s.tasks[w.author].pc) && !s.tasks[w.author].pc.UpWrote?
    requires w in s'.shared.history && w.Published?
    ensures s.shared.clock <= w.now <= s'.shared.clock
  {
    InitialInv();
    RunKeepsInv(INITIAL, before);
    RunKeepsOrder(INITIAL, before);
    RunTimed(s, after, w.author, s.shared.clock);
    RunKeepsInv(s, after);
  }
}
