/** No run of the trust provider can get stuck. */
module TrustProviderProgress {
  import opened Wrappers
  import opened TrustProvider
  import opened TrustProviderSafety

  /** Some continuation leads from `s` to `s'`. */
  ghost predicate Reaches(s: State, s': State) {
    exists steps :: Run(s, steps) == Some(s')
  }

  lemma {:induction false} RunAppend(s: State, a: seq<Step>, b: seq<Step>)
    requires Run(s, a).Some?
    ensures Run(s, a + b) == Run(Run(s, a).value, b)
    decreases |a|
  {
    if a == [] {
      assert a + b == b;
    } else {
      assert (a + b)[0] == a[0] && (a + b)[1..] == a[1..] + b;
      RunAppend(Next(s, a[0]).value, a[1..], b);
    }
  }

  lemma ReachesRefl(s: State)
    ensures Reaches(s, s)
  {
    assert Run(s, []) == Some(s);
  }

  lemma ReachesThen(s: State, s': State, s'': State)
    requires Reaches(s, s') && Reaches(s', s'')
    ensures Reaches(s, s'')
  {
    var a :| Run(s, a) == Some(s');
    var b :| Run(s', b) == Some(s'');
    RunAppend(s, a, b);
  }

  /** A single step, with the invariant it keeps. */
  lemma ReachesStep(s: State, step: Step) returns (s': State)
    requires Inv(s) && Next(s, step).Some?
    ensures s' == Next(s, step).value && Inv(s') && Reaches(s, s')
  {
    s' := Next(s, step).value;
    StepKeepsInv(s, step);
    assert [step][1..] == [];
    assert Run(s, [step]) == Run(s', []);
  }

  // ---- Draining mu ----

  function WriterRank(pc: Pc): nat {
    match pc
    case UpHold(_) => 3
    case UpWrote(_, _) => 2
    case UpPublished => 1
    case UpReport(_) => 2
    case UpReported(_) => 1
    case _ => 0
  }

  function ReaderRank(pc: Pc): nat {
    match pc
    case WaitRead => 3
    case WaitReadClient(_) => 2
    case WaitRelease(_, _) => 1
    case RootRead(_) => 2
    case RootRelease(_, _) => 1
    case _ => 0
  }

  /** Nothing changed but tasks that were reading under `mu`. */
  predicate OnlyReadersMoved(s: State, s': State) {
    && s'.shared.file == s.shared.file && s'.shared.ctor == s.shared.ctor
    && s'.tasks.Keys == s.tasks.Keys
    && (forall t :: t in s.tasks && !s.tasks[t].pc.HoldsRead() ==> s'.tasks[t] == s.tasks[t])
  }

  predicate InMu(pc: Pc) {
    pc.HoldsMu() || pc.AwaitsMu() || pc.HoldsRead()
  }

  /** Nothing outside `mu` changed but tasks that were inside it or announced to it. */
  predicate OnlyMuMoved(s: State, s': State) {
    && s'.shared.file == s.shared.file && s'.shared.ctor == s.shared.ctor
    && s'.tasks.Keys == s.tasks.Keys
    && (forall t :: t in s.tasks && !InMu(s.tasks[t].pc) ==> s'.tasks[t] == s.tasks[t])
  }

  lemma ReaderAdvances(s: State, r: nat)
    requires r in s.tasks && GoodTask(s.shared, r, s.tasks[r]) && r in s.shared.readers
    ensures Next(s, Advance(r, Proceed)).Some?
    ensures var s' := Next(s, Advance(r, Proceed)).value;
            && r in s'.tasks && OnlyReadersMoved(s, s')
            && s'.shared.writer == s.shared.writer && s'.shared.pending == s.shared.pending
            && (s'.shared.readers == if s'.tasks[r].pc.HoldsRead() then s.shared.readers else s.shared.readers - {r})
            && ReaderRank(s'.tasks[r].pc) < ReaderRank(s.tasks[r].pc)
  {}

  lemma {:induction false} DrainReader(s: State, r: nat) returns (s': State)
    requires Inv(s) && r in s.shared.readers
    ensures Inv(s') && Reaches(s, s') && OnlyReadersMoved(s, s')
    ensures s'.shared.writer == s.shared.writer && s'.shared.pending == s.shared.pending
    ensures s'.shared.readers == s.shared.readers - {r}
    decreases ReaderRank(s.tasks[r].pc)
  {
    ReaderAdvances(s, r);
    s' := ReachesStep(s, Advance(r, Proceed));
    if r in s'.shared.readers {
      var s1 := s';
      s' := DrainReader(s1, r);
      ReachesThen(s, s1, s');
    }
  }

  /** The readers inside can all leave, also while a writer waits for them. */
  lemma {:induction false} DrainReaders(s: State) returns (s': State)
    requires Inv(s)
    ensures Inv(s') && Reaches(s, s') && OnlyReadersMoved(s, s')
    ensures s'.shared.writer == s.shared.writer && s'.shared.pending == s.shared.pending
    ensures s'.shared.readers == {}
    decreases |s.shared.readers|
  {
    if s.shared.readers == {} {
      s' := s;
      ReachesRefl(s);
    } else {
      var r :| r in s.shared.readers;
      var s1 := DrainReader(s, r);
      s' := DrainReaders(s1);
      ReachesThen(s, s1, s');
    }
  }

  lemma WriterAdvances(s: State, w: nat)
    requires w in s.tasks && GoodTask(s.shared, w, s.tasks[w]) && s.shared.writer == Some(w)
    ensures Next(s, Advance(w, Proceed)).Some?
    ensures var s' := Next(s, Advance(w, Proceed)).value;
            && w in s'.tasks && OnlyMuMoved(s, s')
            && s'.shared.readers == s.shared.readers && s'.shared.pending == s.shared.pending
            && (s'.shared.writer == if s'.tasks[w].pc.HoldsMu() then Some(w) else None)
            && WriterRank(s'.tasks[w].pc) < WriterRank(s.tasks[w].pc)
  {}

  lemma {:induction false} DrainWriter(s: State, w: nat) returns (s': State)
    requires Inv(s) && s.shared.writer == Some(w)
    ensures Inv(s') && Reaches(s, s') && OnlyMuMoved(s, s')
    ensures s'.shared.writer.None? && s'.shared.pending.None? && s'.shared.readers == {}
    decreases WriterRank(s.tasks[w].pc)
  {
    WriterAdvances(s, w);
    s' := ReachesStep(s, Advance(w, Proceed));
    if s'.shared.writer.Some? {
      var s1 := s';
      s' := DrainWriter(s1, w);
      ReachesThen(s, s1, s');
    }
  }

  lemma PendingAdvances(s: State, w: nat)
    requires w in s.tasks && GoodTask(s.shared, w, s.tasks[w]) && s.shared.pending == Some(w) && s.shared.readers == {}
    ensures Next(s, Advance(w, Proceed)).Some?
    ensures var s' := Next(s, Advance(w, Proceed)).value;
            OnlyMuMoved(s, s') && s'.shared.writer == Some(w)
  {}

  /** An announced writer gets in and out once the readers are gone. */
  lemma DrainPending(s: State, w: nat) returns (s': State)
    requires Inv(s) && s.shared.pending == Some(w) && s.shared.readers == {}
    ensures Inv(s') && Reaches(s, s') && OnlyMuMoved(s, s')
    ensures s'.shared.writer.None? && s'.shared.pending.None? && s'.shared.readers == {}
  {
    PendingAdvances(s, w);
    var s1 := ReachesStep(s, Advance(w, Proceed));
    s' := DrainWriter(s1, w);
    ReachesThen(s, s1, s');
  }

  /** Whoever is inside `mu` or announced to it can leave it, without help from anybody else. */
  lemma DrainMu(s: State) returns (s': State)
    requires Inv(s)
    ensures Inv(s') && Reaches(s, s') && OnlyMuMoved(s, s')
    ensures s'.shared.writer.None? && s'.shared.pending.None? && s'.shared.readers == {}
  {
    var s1 := DrainReaders(s);
    if s1.shared.writer.Some? {
      s' := DrainWriter(s1, s1.shared.writer.value);
      ReachesThen(s, s1, s');
    } else if s1.shared.pending.Some? {
      s' := DrainPending(s1, s1.shared.pending.value);
      ReachesThen(s, s1, s');
    } else {
      s' := s1;
    }
  }

  // ---- Releasing the file lock ----

  function FileRank(pc: Pc): nat {
    match pc
    case UpWork => 8
    case UpWantMu(_) => 7
    case UpAwaitMu(_) => 6
    case UpHold(_) => 5
    case UpWrote(_, _) => 4
    case UpPublished => 3
    case UpRelease => 2
    case UpFail(_) => 1
    case _ => 0
  }

  /** The lock a task waits for, if any, is free. */
  predicate Unblocked(s: Shared, pc: Pc) {
    && (pc.UpLock? ==> s.file.None?)
    && (WantsMu(pc) ==> s.writer.None? && s.pending.None?)
    && (pc.AwaitsMu() ==> s.readers == {})
  }

  /** A library call that returns, if only with an error; otherwise the next statement. */
  function Resolving(pc: Pc): Choice {
    if pc.UpWork? then Fail("") else Proceed
  }

  lemma HolderAdvances(s: State, h: nat)
    requires h in s.tasks && GoodTask(s.shared, h, s.tasks[h]) && s.shared.file == Some(Thread(h))
    requires Unblocked(s.shared, s.tasks[h].pc)
    ensures Next(s, Advance(h, Resolving(s.tasks[h].pc))).Some?
    ensures var s' := Next(s, Advance(h, Resolving(s.tasks[h].pc))).value;
            && h in s'.tasks && s'.tasks == s.tasks[h := s'.tasks[h]] && s'.shared.ctor == s.shared.ctor
            && (s'.shared.file == if s'.tasks[h].pc.HoldsFile() then s.shared.file else None)
            && FileRank(s'.tasks[h].pc) < FileRank(s.tasks[h].pc)
  {}

  /** `h` has not moved, nor has any task that waits for the file lock, nor the file lock. */
  predicate Spares(s: State, s': State, h: nat) {
    && s'.shared.file == s.shared.file
    && h in s.tasks && h in s'.tasks && s'.tasks[h] == s.tasks[h]
    && (forall t :: t in s.tasks && s.tasks[t].pc.UpLock? ==> t in s'.tasks && s'.tasks[t] == s.tasks[t])
  }

  lemma MuSpares(s: State, s': State, h: nat)
    requires OnlyMuMoved(s, s') && h in s.tasks && !InMu(s.tasks[h].pc)
    ensures Spares(s, s', h)
  {}

  lemma ReadersSpare(s: State, s': State, h: nat)
    requires OnlyReadersMoved(s, s') && h in s.tasks && !s.tasks[h].pc.HoldsRead()
    ensures Spares(s, s', h)
  {}

  predicate WantsMu(pc: Pc) {
    pc.UpWantMu? || pc.UpReportWant? || pc.WaitWant? || pc.RootWant?
  }

  /** Unless it waits for the file lock, a task can be unblocked without moving it or any that does. */
  lemma UnblockMu(s: State, h: nat) returns (s': State)
    requires Inv(s) && h in s.tasks && !s.tasks[h].pc.UpLock?
    ensures Inv(s') && Reaches(s, s') && Spares(s, s', h) && Unblocked(s'.shared, s.tasks[h].pc)
  {
    if s.tasks[h].pc.AwaitsMu() {
      s' := DrainReaders(s);
      ReadersSpare(s, s', h);
    } else if WantsMu(s.tasks[h].pc) {
      s' := DrainMu(s);
      MuSpares(s, s', h);
    } else {
      s' := s;
      ReachesRefl(s);
    }
  }

  lemma HolderSteps(s: State, h: nat, t: nat) returns (s': State)
    requires Inv(s) && s.shared.file == Some(Thread(h))
    requires t in s.tasks && s.tasks[t].pc.UpLock?
    ensures Inv(s') && Reaches(s, s') && (s'.shared.file == s.shared.file || s'.shared.file.None?)
    ensures h in s.tasks && h in s'.tasks && FileRank(s'.tasks[h].pc) < FileRank(s.tasks[h].pc)
    ensures t in s'.tasks && s'.tasks[t] == s.tasks[t]
  {
    assert GoodTask(s.shared, h, s.tasks[h]);
    var s1 := UnblockMu(s, h);
    assert GoodTask(s1.shared, h, s1.tasks[h]);
    HolderAdvances(s1, h);
    s' := ReachesStep(s1, Advance(h, Resolving(s1.tasks[h].pc)));
    ReachesThen(s, s1, s');
  }

  lemma {:induction false} ReleaseThread(s: State, h: nat, t: nat) returns (s': State)
    requires Inv(s) && s.shared.file == Some(Thread(h))
    requires t in s.tasks && s.tasks[t].pc.UpLock?
    ensures Inv(s') && Reaches(s, s') && s'.shared.file.None?
    ensures t in s'.tasks && s'.tasks[t] == s.tasks[t]
    decreases FileRank(s.tasks[h].pc)
  {
    s' := HolderSteps(s, h, t);
    if s'.shared.file.Some? {
      var s1 := s';
      s' := ReleaseThread(s1, h, t);
      ReachesThen(s, s1, s');
    }
  }

  lemma {:induction false} ReleaseConstructor(s: State) returns (s': State)
    requires Inv(s) && s.shared.file == Some(Constructor) && s.tasks != map[]
    ensures Inv(s') && Reaches(s, s') && s'.shared.file.None? && s'.tasks == s.tasks
    decreases s.shared.ctor.CtorSpawn?
  {
    var s1 := ReachesStep(s, Construct(Proceed));
    if s.shared.ctor.CtorUnlock? {
      s' := s1;
    } else {
      s' := ReleaseConstructor(s1);
      ReachesThen(s, s1, s');
    }
  }

  /** Whoever holds the file lock can give it up while `t` waits for it. */
  lemma ReleaseFile(s: State, t: nat) returns (s': State)
    requires Inv(s) && t in s.tasks && s.tasks[t].pc.UpLock?
    ensures Inv(s') && Reaches(s, s') && s'.shared.file.None?
    ensures t in s'.tasks && s'.tasks[t] == s.tasks[t]
  {
    match s.shared.file
    case None =>
      s' := s;
      ReachesRefl(s);
    case Some(Thread(h)) => s' := ReleaseThread(s, h, t);
    case Some(Constructor) => s' := ReleaseConstructor(s);
    case Some(Process(p)) => s' := ReachesStep(s, Drop(p));
  }

  // ---- Everybody can finish ----

  function UpdateRank(pc: Pc): nat {
    match pc
    case UpLock => 15
    case UpWork => 14
    case UpFail(_) => 13
    case UpWantMu(_) => 12
    case UpAwaitMu(_) => 11
    case UpHold(_) => 10
    case UpWrote(_, _) => 9
    case UpPublished => 8
    case UpRelease => 7
    case UpReportWant(_) => 6
    case UpReportAwait(_) => 5
    case UpReport(_) => 4
    case UpReported(_) => 3
    case UpSend(_) => 2
    case _ => 1
  }

  /** The send never blocks: the channel is empty, whether or not anybody still reads it. */
  lemma SendAdvances(s: State, t: nat)
    requires t in s.tasks && Linked(s.tasks, t) && s.tasks[t].pc.UpSend?
    requires s.tasks[t].owner.Some? ==> s.tasks[t].owner.value in s.tasks && Linked(s.tasks, s.tasks[t].owner.value)
    ensures Next(s, Advance(t, Proceed)).Some?
    ensures t in Next(s, Advance(t, Proceed)).value.tasks
    ensures Next(s, Advance(t, Proceed)).value.tasks[t].pc.UpDone?
  {}

  /** Once the lock it waits for is free, an `update` advances. */
  lemma UpdateAdvances(s: State, t: nat)
    requires t in s.tasks && GoodTask(s.shared, t, s.tasks[t])
    requires s.tasks[t].pc.IsUpdate() && !s.tasks[t].pc.UpSend? && !s.tasks[t].pc.UpDone?
    requires Unblocked(s.shared, s.tasks[t].pc)
    ensures Next(s, Advance(t, Resolving(s.tasks[t].pc))).Some?
    ensures var s' := Next(s, Advance(t, Resolving(s.tasks[t].pc))).value;
            t in s'.tasks && s'.tasks[t].pc.IsUpdate() && UpdateRank(s'.tasks[t].pc) < UpdateRank(s.tasks[t].pc)
  {}

  lemma Unblock(s: State, t: nat) returns (s': State)
    requires Inv(s) && t in s.tasks
    ensures Inv(s') && Reaches(s, s') && t in s'.tasks && s'.tasks[t] == s.tasks[t]
    ensures Unblocked(s'.shared, s'.tasks[t].pc)
  {
    if s.tasks[t].pc.UpLock? {
      s' := ReleaseFile(s, t);
    } else {
      s' := UnblockMu(s, t);
    }
  }

  lemma UpdateSteps(s: State, t: nat) returns (s': State)
    requires Inv(s) && t in s.tasks && s.tasks[t].pc.IsUpdate() && !s.tasks[t].pc.UpDone?
    requires Unblocked(s.shared, s.tasks[t].pc)
    ensures Inv(s') && Reaches(s, s') && t in s'.tasks && s'.tasks[t].pc.IsUpdate()
    ensures UpdateRank(s'.tasks[t].pc) < UpdateRank(s.tasks[t].pc)
  {
    assert GoodTask(s.shared, t, s.tasks[t]) && Linked(s.tasks, t);
    if s.tasks[t].pc.UpSend? {
      SendAdvances(s, t);
    } else {
      UpdateAdvances(s, t);
    }
    s' := ReachesStep(s, Advance(t, Resolving(s.tasks[t].pc)));
  }

  lemma {:induction false} UpdateCanFinish(s: State, t: nat) returns (s': State)
    requires Inv(s) && t in s.tasks && s.tasks[t].pc.IsUpdate()
    ensures Reaches(s, s') && t in s'.tasks && s'.tasks[t].pc.UpDone?
    decreases UpdateRank(s.tasks[t].pc)
  {
    if s.tasks[t].pc.UpDone? {
      s' := s;
      ReachesRefl(s);
    } else {
      var s1 := Unblock(s, t);
      var s2 := UpdateSteps(s1, t);
      ReachesThen(s, s1, s2);
      s' := UpdateCanFinish(s2, t);
      ReachesThen(s, s2, s');
    }
  }

  function RootRank(pc: Pc): nat {
    match pc
    case WaitWant => 9
    case WaitRead => 8
    case WaitReadClient(_) => 7
    case WaitRelease(_, _) => 6
    case WaitDecide(_, _) => 5
    case WaitSelect => 4
    case RootWant(_) => 3
    case RootRead(_) => 2
    case RootRelease(_, _) => 1
    case _ => 0
  }

  lemma {:induction false} FreshThread(used: set<nat>) returns (u: nat)
    ensures forall t :: t in used ==> t < u
  {
    if used == {} {
      u := 0;
    } else {
      var t :| t in used;
      u := FreshThread(used - {t});
      u := if u <= t then t + 1 else u;
      assert used == used - {t} + {t};
    }
  }

  /** The context's deadline ends the select; a launch takes a fresh thread. */
  function Deciding(task: Task, unused: nat): Choice {
    if task.pc.WaitSelect? then Cancel("") else if Launches(task) then Launch(unused) else Proceed
  }

  lemma LaunchAdvances(s: State, t: nat, unused: nat)
    requires t in s.tasks && unused !in s.tasks && Launches(s.tasks[t])
    ensures Next(s, Advance(t, Launch(unused))).Some?
    ensures t in Next(s, Advance(t, Launch(unused))).value.tasks
    ensures Next(s, Advance(t, Launch(unused))).value.tasks[t].pc.WaitSelect?
  {}

  lemma RootAdvances(s: State, t: nat, unused: nat)
    requires t in s.tasks && GoodTask(s.shared, t, s.tasks[t]) && !Launches(s.tasks[t])
    requires !s.tasks[t].pc.IsUpdate() && !s.tasks[t].pc.RootDone? && Unblocked(s.shared, s.tasks[t].pc)
    ensures Next(s, Advance(t, Deciding(s.tasks[t], unused))).Some?
    ensures var s' := Next(s, Advance(t, Deciding(s.tasks[t], unused))).value;
            t in s'.tasks && !s'.tasks[t].pc.IsUpdate() && RootRank(s'.tasks[t].pc) < RootRank(s.tasks[t].pc)
  {}

  lemma {:induction false} RootCanFinish(s: State, t: nat) returns (s': State)
    requires Inv(s) && t in s.tasks && !s.tasks[t].pc.IsUpdate()
    ensures Reaches(s, s') && t in s'.tasks && s'.tasks[t].pc.RootDone?
    decreases RootRank(s.tasks[t].pc)
  {
    if s.tasks[t].pc.RootDone? {
      s' := s;
      ReachesRefl(s);
    } else {
      var s1 := Unblock(s, t);
      assert GoodTask(s1.shared, t, s1.tasks[t]);
      var unused := FreshThread(s1.tasks.Keys);
      if Launches(s1.tasks[t]) {
        LaunchAdvances(s1, t, unused);
      } else {
        RootAdvances(s1, t, unused);
      }
      var s2 := ReachesStep(s1, Advance(t, Deciding(s1.tasks[t], unused)));
      ReachesThen(s, s1, s2);
      s' := RootCanFinish(s2, t);
      ReachesThen(s, s2, s');
    }
  }

  predicate Finished(s: State, t: nat) {
    t in s.tasks && (s.tasks[t].pc.UpDone? || s.tasks[t].pc.RootDone?)
  }

  /**
   * The provider never deadlocks: from every reachable state every `update` can run to its end,
   * whether or not the `wait` that launched it is still there, and every `TrustedRoot` to its.
   */
  lemma NobodyIsStuck(steps: seq<Step>, s: State, t: nat) returns (s': State)
    requires Run(INITIAL, steps) == Some(s) && t in s.tasks
    ensures Reaches(s, s') && Finished(s', t)
  {
    InitialInv();
    RunKeepsInv(INITIAL, steps);
    if s.tasks[t].pc.IsUpdate() {
      s' := UpdateCanFinish(s, t);
    } else {
      s' := RootCanFinish(s, t);
    }
  }
}
