/**
 * `loadTrustProvider` in `verifier.go`: any number of concurrent and repeated callers sharing
 * one `singleflight.Group` and the field `v.tp`.
 */
module ProviderLoading {
  import opened Wrappers

  type Provider = nat
  type Outcome = Result<Provider, string>

  datatype Pc =
    | Enter                        // before the group's mutex
    | Wait(call: nat)              // found a call in flight, waiting for it
    | Check                        // leading, before the nil test of `v.tp`
    | Build                        // leading, inside NewTrustProvider
    | Store(p: Provider)           // leading, before the write of `v.tp`
    | Finish(r: Outcome)           // leading, function returned, before the group's mutex
    | Done(r: Outcome)
  {
    predicate Leads() {
      Check? || Build? || Store? || Finish?
    }
  }

  /** The call in flight and the caller that runs it. */
  datatype Flight = Flight(call: nat, leader: nat)

  /** `calls` has the result of every call of the group so far; `built` every provider constructed. */
  datatype State = State(
    tp: Option<Provider>, flight: Option<Flight>, calls: seq<Option<Outcome>>,
    threads: map<nat, Pc>, built: seq<Provider>, writes: nat)

  const INITIAL := State(None, None, [], map[], [], 0)

  /** `failure` is the error of NewTrustProvider, if it fails in this step. */
  datatype Step = Call(t: nat) | Advance(t: nat, failure: Option<string>)

  function Goto(s: State, t: nat, pc: Pc): State {
    s.(threads := s.threads[t := pc])
  }

  /** The body of `Do` under the group's mutex: join the call in flight or start one. */
  function Entered(s: State, t: nat): State {
    match s.flight
    case Some(f) => Goto(s, t, Wait(f.call))
    case None => Goto(s, t, Check).(flight := Some(Flight(|s.calls|, t)), calls := s.calls + [None])
  }

  function Built(s: State, t: nat, failure: Option<string>): State {
    match failure
    case Some(e) => Goto(s, t, Finish(Failure(e)))
    case None => Goto(s, t, Store(|s.built|)).(built := s.built + [|s.built|])
  }

  /** Publishing the result and forgetting the call, both under the group's mutex. */
  function Finished(s: State, t: nat, r: Outcome): State {
    var s' := Goto(s, t, Done(r)).(flight := None);
    if s.flight.Some? && s.flight.value.call < |s.calls|
    then s'.(calls := s.calls[s.flight.value.call := Some(r)])
    else s'
  }

  function Next(s: State, step: Step): Option<State> {
    match step
    case Call(t) => if t in s.threads then None else Some(Goto(s, t, Enter))
    case Advance(t, failure) =>
      if t !in s.threads then None
      else match s.threads[t]
        case Enter => Some(Entered(s, t))
        case Wait(c) => if c < |s.calls| && s.calls[c].Some? then Some(Goto(s, t, Done(s.calls[c].value))) else None
        case Check => Some(Goto(s, t, if s.tp.Some? then Finish(Success(s.tp.value)) else Build))
        case Build => Some(Built(s, t, failure))
        case Store(p) => Some(Goto(s, t, Finish(Success(p))).(tp := Some(p), writes := s.writes + 1))
        case Finish(r) => Some(Finished(s, t, r))
        case Done(_) => None
  }

  function Run(s: State, steps: seq<Step>): Option<State>
    decreases |steps|
  {
    if steps == [] then Some(s)
    else match Next(s, steps[0])
      case Some(s') => Run(s', steps[1..])
      case None => None
  }

  // ---- The invariant ----

  predicate Agrees(s: State, r: Outcome) {
    r.Success? ==> s.tp == Some(r.value)
  }

  predicate GoodFlight(s: State) {
    match s.flight
    case None => forall c :: 0 <= c < |s.calls| ==> s.calls[c].Some?
    case Some(f) =>
      && f.leader in s.threads && s.threads[f.leader].Leads()
      && f.call < |s.calls|
      && (forall c :: 0 <= c < |s.calls| ==> (s.calls[c].Some? <==> c != f.call))
  }

  /** A provider has been built but not stored only while its builder is about to store it. */
  predicate GoodMemo(s: State) {
    && s.writes == (if s.tp.Some? then 1 else 0)
    && (if s.tp.Some? then s.built == [s.tp.value]
        else s.built == [] || (s.flight.Some? && s.flight.value.leader in s.threads
                               && s.threads[s.flight.value.leader].Store?))
  }

  predicate GoodThread(s: State, t: nat, pc: Pc) {
    && (pc.Leads() <==> s.flight.Some? && s.flight.value.leader == t)
    && match pc
       case Wait(c) => c < |s.calls|
       case Build => s.tp.None? && s.built == []
       case Store(p) => s.tp.None? && s.built == [p]
       case Finish(r) => Agrees(s, r) && (r.Failure? ==> s.tp.None?)
       case Done(r) => Agrees(s, r)
       case _ => true
  }

  predicate Inv(s: State) {
    && GoodFlight(s)
    && GoodMemo(s)
    && (forall c :: 0 <= c < |s.calls| && s.calls[c].Some? ==> Agrees(s, s.calls[c].value))
    && (forall t :: t in s.threads ==> GoodThread(s, t, s.threads[t]))
  }

  lemma ThreadsStayGood(s: State, step: Step)
    requires Inv(s) && Next(s, step).Some?
    ensures var s' := Next(s, step).value; forall u :: u in s'.threads ==> GoodThread(s', u, s'.threads[u])
  {
    var s' := Next(s, step).value;
    if step.Advance? {
      assert GoodThread(s, step.t, s.threads[step.t]);
    }
    forall u | u in s'.threads
      ensures GoodThread(s', u, s'.threads[u])
    {
      if u in s.threads {
        assert GoodThread(s, u, s.threads[u]);
      }
    }
  }

  lemma FlightStaysGood(s: State, step: Step)
    requires Inv(s) && Next(s, step).Some?
    ensures GoodFlight(Next(s, step).value)
  {
    if step.Advance? {
      assert GoodThread(s, step.t, s.threads[step.t]);
    }
  }

  lemma StepKeepsInv(s: State, step: Step)
    requires Inv(s) && Next(s, step).Some?
    ensures Inv(Next(s, step).value)
    ensures s.tp.Some? ==> Next(s, step).value.tp == s.tp
  {
    ThreadsStayGood(s, step);
    FlightStaysGood(s, step);
    if step.Advance? {
      assert GoodThread(s, step.t, s.threads[step.t]);
    }
  }

  lemma {:induction false} RunKeepsInv(s: State, steps: seq<Step>)
    requires Inv(s) && Run(s, steps).Some?
    ensures Inv(Run(s, steps).value)
    ensures s.tp.Some? ==> Run(s, steps).value.tp == s.tp
    decreases |steps|
  {
    if steps != [] {
      StepKeepsInv(s, steps[0]);
      RunKeepsInv(Next(s, steps[0]).value, steps[1..]);
    }
  }

  // ---- Once only ----

  predicate Returned(s: State, t: nat, r: Outcome) {
    t in s.threads && s.threads[t] == Done(r)
  }

  /**
   * In every run at most one provider is ever constructed, `v.tp` is written at most once, and
   * every caller that succeeds gets that one provider.
   */
  lemma OneProvider(steps: seq<Step>, s: State)
    requires Run(INITIAL, steps) == Some(s)
    ensures |s.built| <= 1 && s.writes <= 1
    ensures forall t, p: Provider :: Returned(s, t, Success(p)) ==> s.tp == Some(p) && s.built == [p]
  {
    RunKeepsInv(INITIAL, steps);
    if s.built != [] && s.tp.None? {
      assert GoodThread(s, s.flight.value.leader, s.threads[s.flight.value.leader]);
    }
    forall t, p: Provider | Returned(s, t, Success(p))
      ensures s.tp == Some(p)
    {
      assert GoodThread(s, t, s.threads[t]);
    }
  }

  /** A failed flight leaves `v.tp` nil, and the next caller constructs again. */
  lemma FailedFlightRetries(steps: seq<Step>, s: State, t: nat, e: string, u: nat)
    requires Run(INITIAL, steps) == Some(s)
    requires t in s.threads && s.threads[t] == Finish(Failure(e)) && u !in s.threads
    ensures var s' := Run(s, [Advance(t, None), Call(u), Advance(u, None), Advance(u, None)]);
            s'.Some? && Returned(s'.value, t, Failure(e)) && s'.value.tp.None?
            && u in s'.value.threads && s'.value.threads[u] == Build
  {
    RunKeepsInv(INITIAL, steps);
    assert GoodThread(s, t, s.threads[t]);
    var s1 := Next(s, Advance(t, None)).value;
    var s2 := Next(s1, Call(u)).value;
    var s3 := Next(s2, Advance(u, None)).value;
    assert s3.threads[u] == Check;
    var s4 := Next(s3, Advance(u, None)).value;
    var rest := [Advance(u, None), Advance(u, None)];
    assert [Advance(t, None), Call(u), Advance(u, None), Advance(u, None)][1..] == [Call(u)] + rest;
    assert ([Call(u)] + rest)[1..] == rest;
    assert rest[1..] == [Advance(u, None)] && [Advance(u, None)][1..] == [];
    assert Run(s3, [Advance(u, None)]) == Some(s4);
    assert Run(s2, rest) == Some(s4);
    assert Run(s1, [Call(u)] + rest) == Some(s4);
  }

  // ---- Every failure has its cause ----

  /** Some construction in the run failed with `e`. */
  predicate FailedWith(past: seq<Step>, e: string) {
    exists i :: 0 <= i < |past| && past[i].Advance? && past[i].failure == Some(e)
  }

  predicate OutcomeCaused(past: seq<Step>, r: Outcome) {
    r.Failure? ==> FailedWith(past, r.error)
  }

  predicate Caused(past: seq<Step>, s: State) {
    && (forall c :: 0 <= c < |s.calls| && s.calls[c].Some? ==> OutcomeCaused(past, s.calls[c].value))
    && (forall t :: t in s.threads && s.threads[t].Finish? ==> OutcomeCaused(past, s.threads[t].r))
    && (forall t :: t in s.threads && s.threads[t].Done? ==> OutcomeCaused(past, s.threads[t].r))
  }

  lemma StillFailed(past: seq<Step>, step: Step)
    ensures forall e :: FailedWith(past, e) ==> FailedWith(past + [step], e)
    ensures step.Advance? && step.failure.Some? ==> FailedWith(past + [step], step.failure.value)
  {
    forall e | FailedWith(past, e)
      ensures FailedWith(past + [step], e)
    {
      var i :| 0 <= i < |past| && past[i].Advance? && past[i].failure == Some(e);
      assert (past + [step])[i] == past[i];
    }
    assert (past + [step])[|past|] == step;
  }

  lemma StepCaused(past: seq<Step>, s: State, step: Step)
    requires Caused(past, s) && Next(s, step).Some?
    ensures Caused(past + [step], Next(s, step).value)
  {
    StillFailed(past, step);
  }

  lemma {:induction false} RunCaused(past: seq<Step>, s: State, steps: seq<Step>)
    requires Caused(past, s) && Run(s, steps).Some?
    ensures Caused(past + steps, Run(s, steps).value)
    decreases |steps|
  {
    if steps == [] {
      assert past + steps == past;
    } else {
      StepCaused(past, s, steps[0]);
      RunCaused(past + [steps[0]], Next(s, steps[0]).value, steps[1..]);
      assert past + [steps[0]] + steps[1..] == past + steps;
    }
  }

  /**
   * A caller fails only with the error of a construction that failed in the run. So where none
   * fails, every caller that returns gets the one provider.
   */
  lemma FailuresHaveCauses(steps: seq<Step>, s: State, t: nat, r: Outcome)
    requires Run(INITIAL, steps) == Some(s) && Returned(s, t, r)
    ensures r.Failure? ==> FailedWith(steps, r.error)
    ensures (forall e :: !FailedWith(steps, e)) ==> r.Success? && s.tp == Some(r.value) && s.built == [r.value]
  {
    RunCaused([], INITIAL, steps);
    assert [] + steps == steps;
    OneProvider(steps, s);
  }

  // ---- No failure after a success ----

  /** Caller `u` started after the provider `p` was stored: whatever it joins can only give `p`. */
  predicate Settled(s: State, u: nat, p: Provider) {
    && s.tp == Some(p)
    && (u in s.threads ==>
          match s.threads[u]
          case Wait(c) => c < |s.calls| && (s.calls[c].Some? ==> s.calls[c].value == Success(p))
          case Done(r) => r == Success(p)
          case _ => true)
  }

  lemma StepKeepsSettled(s: State, step: Step, u: nat, p: Provider)
    requires Inv(s) && Settled(s, u, p) && Next(s, step).Some?
    ensures Settled(Next(s, step).value, u, p)
  {
    if step.Advance? {
      assert GoodThread(s, step.t, s.threads[step.t]);
    }
  }

  lemma {:induction false} RunKeepsSettled(s: State, steps: seq<Step>, u: nat, p: Provider)
    requires Inv(s) && Settled(s, u, p) && Run(s, steps).Some?
    ensures Settled(Run(s, steps).value, u, p)
    decreases |steps|
  {
    if steps != [] {
      StepKeepsInv(s, steps[0]);
      StepKeepsSettled(s, steps[0], u, p);
      RunKeepsSettled(Next(s, steps[0]).value, steps[1..], u, p);
    }
  }

  /** Once a provider is stored, every caller that arrives later gets it: no later call fails. */
  lemma LaterCallersSucceed(before: seq<Step>, s: State, after: seq<Step>, s': State, u: nat, r: Outcome)
    requires Run(INITIAL, before) == Some(s) && s.tp.Some? && u !in s.threads
    requires Run(s, after) == Some(s') && Returned(s', u, r)
    ensures r == Success(s.tp.value)
  {
    RunKeepsInv(INITIAL, before);
    RunKeepsSettled(s, after, u, s.tp.value);
  }

  /** No caller is stuck: one that cannot step waits for a call whose leader can. */
  lemma NoDeadlock(steps: seq<Step>, s: State, t: nat, failure: Option<string>)
    requires Run(INITIAL, steps) == Some(s) && t in s.threads && !s.threads[t].Done?
    ensures || Next(s, Advance(t, failure)).Some?
            || (s.flight.Some? && s.threads[t] == Wait(s.flight.value.call)
                && Next(s, Advance(s.flight.value.leader, failure)).Some?)
  {
    RunKeepsInv(INITIAL, steps);
    assert GoodThread(s, t, s.threads[t]);
  }
}
