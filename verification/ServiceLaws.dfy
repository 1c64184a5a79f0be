/** What every run of the daemon guarantees. */
module ServiceLaws {
  import opened Text
  import Journals
  import opened Worlds
  import opened Staging
  import opened ServiceState
  import opened ServiceRuns
  import opened ServiceInvariants

  predicate Inv(cfg: Config, s: Daemon) {
    && Routed(s.pc) && Slotted(s) && Histories(s) && Accounting(s) && Caching(cfg, s) && Issuing(s) && Answers(s)
  }

  lemma StartHolds(cfg: Config, s: Daemon)
    requires IsStart(cfg, s)
    ensures Inv(cfg, s) && Coherent(s)
  {
  }

  lemma StepHolds(cfg: Config, s: Daemon, e: Event)
    requires Inv(cfg, s) && Enabled(s, e)
    ensures Inv(cfg, Step(cfg, s, e))
    ensures Coherent(s) ==> (Coherent(Step(cfg, s, e)) <==> !Drops(cfg, s, e))
    ensures Wedged(s) ==> Wedged(Step(cfg, s, e))
  {
    RoutedStep(cfg, s, e);
    if Coherent(s) {
      CoherentStep(cfg, s, e);
    } else {
      WedgedStep(cfg, s, e);
    }
    HistoriesStep(cfg, s, e);
    AccountingStep(cfg, s, e);
    CachingStep(cfg, s, e);
    IssuingStep(cfg, s, e);
    AnswersStep(cfg, s, e);
    hide Step, Drops, Histories, Accounting, Caching, Issuing, Answers, Coherent, Enabled;
  }

  /** Some step of the run is a Dismiss that drops the record of a running job. */
  predicate Dropped(cfg: Config, s: Daemon, es: seq<Event>)
    requires IsRun(cfg, s, es)
    decreases |es|
  {
    es != [] && (Drops(cfg, s, es[0]) || Dropped(cfg, Step(cfg, s, es[0]), es[1..]))
  }

  lemma {:induction false} RunHolds(cfg: Config, s: Daemon, es: seq<Event>)
    requires Inv(cfg, s) && IsRun(cfg, s, es)
    ensures Inv(cfg, Run(cfg, s, es))
    ensures Coherent(s) ==> (Coherent(Run(cfg, s, es)) <==> !Dropped(cfg, s, es))
    ensures Wedged(s) ==> Wedged(Run(cfg, s, es))
    decreases |es|
  {
    if es != [] {
      StepHolds(cfg, s, es[0]);
      CoherentIsNotWedged(s);
      CoherentIsNotWedged(Step(cfg, s, es[0]));
      CoherentIsNotWedged(Run(cfg, s, es));
      hide Inv, Coherent, Wedged, Step, Drops;
      RunHolds(cfg, Step(cfg, s, es[0]), es[1..]);
    }
  }

  lemma CoherentIsNotWedged(s: Daemon)
    ensures !(Coherent(s) && Wedged(s))
  {
  }

  /** The invariant in every reachable interleaving.  With the Dismiss that puts `active` back,
      state and slot always agree.  With the one as written they agree exactly as long as nobody
      dismissed while a job was running; from then on the daemon is wedged. */
  lemma EveryReachableState(cfg: Config, s: Daemon, es: seq<Event>)
    requires IsStart(cfg, s) && IsRun(cfg, s, es)
    ensures Inv(cfg, Run(cfg, s, es))
    ensures Coherent(Run(cfg, s, es)) <==> !Dropped(cfg, s, es)
    ensures Dropped(cfg, s, es) ==> Wedged(Run(cfg, s, es))
    ensures cfg.restores ==> Coherent(Run(cfg, s, es))
  {
    StartHolds(cfg, s);
    RunHolds(cfg, s, es);
    if cfg.restores {
      NothingDropped(cfg, s, es);
    }
    hide Coherent, Wedged, IsStart;
  }

  lemma {:induction false} NothingDropped(cfg: Config, s: Daemon, es: seq<Event>)
    requires cfg.restores && IsRun(cfg, s, es)
    ensures !Dropped(cfg, s, es)
    decreases |es|
  {
    if es != [] {
      NothingDropped(cfg, Step(cfg, s, es[0]), es[1..]);
    }
  }

  /** At most one end: in every run of fewer than 2^64 proposals the engine is called at most once
      for an identifier, always one it accepts, and no identifier is both Applied and Dismissed,
      or either of them twice. */
  lemma OneEndPerProposal(cfg: Config, s: Daemon, es: seq<Event>)
    requires IsStart(cfg, s) && IsRun(cfg, s, es) && |Run(cfg, s, es).issued| < U64_LIMIT
    ensures var t := Run(cfg, s, es);
            && (forall a, b | 0 <= a < b < |t.called| :: t.called[a] != t.called[b])
            && (forall a | 0 <= a < |t.called| :: Journals.ValidTransactionId(t.called[a]))
            && (forall a, b | 0 <= a < b < |t.terminalLog| ::
                  t.terminalLog[a].proposalId != t.terminalLog[b].proposalId)
  {
    EveryReachableState(cfg, s, es);
    var t := Run(cfg, s, es);
    EndsOnce(t);
    forall a | 0 <= a < |t.called| ensures Journals.ValidTransactionId(t.called[a]) {
      IssuedIdIsAccepted(t, t.calls[a] - 1);
    }
  }

  lemma IssuedIdIsAccepted(s: Daemon, k: nat)
    requires Issuing(s) && k < |s.issued|
    ensures Journals.ValidTransactionId(s.issued[k])
  {
    assert IssuedAs(s.issued[k], (k + 1) % U64_LIMIT);
    var ms :| 0 <= ms < U64_LIMIT && s.issued[k] == ProposalId(ms, (k + 1) % U64_LIMIT);
    GeneratedIdIsSafe(ms, (k + 1) % U64_LIMIT);
  }

  // ---- the mishap ----

  lemma First(cfg: Config, s: Daemon, e: Event, rest: seq<Event>)
    requires Routed(s.pc) && Enabled(s, e) && IsRun(cfg, Step(cfg, s, e), rest)
    ensures IsRun(cfg, s, [e] + rest) && Run(cfg, s, [e] + rest) == Run(cfg, Step(cfg, s, e), rest)
  {
    assert ([e] + rest)[1..] == rest;
  }

  lemma OneStep(cfg: Config, s: Daemon, e: Event)
    requires Routed(s.pc) && Enabled(s, e)
    ensures IsRun(cfg, s, [e]) && Run(cfg, s, [e]) == Step(cfg, s, e)
  {
    assert [e][1..] == [];
    assert IsRun(cfg, Step(cfg, s, e), []);
  }

  lemma {:induction false} RunAppend(cfg: Config, s: Daemon, a: seq<Event>, b: seq<Event>)
    requires IsRun(cfg, s, a) && IsRun(cfg, Run(cfg, s, a), b)
    ensures IsRun(cfg, s, a + b) && Run(cfg, s, a + b) == Run(cfg, Run(cfg, s, a), b)
    decreases |a|
  {
    hide Step, Routed, Enabled;
    if a == [] {
      assert a + b == b;
    } else {
      assert (a + b)[0] == a[0] && (a + b)[1..] == a[1..] + b;
      RunAppend(cfg, Step(cfg, s, a[0]), a[1..], b);
    }
  }

  lemma LookupStep(cfg: Config, s: Daemon, r: Request)
    requires s.pc == Lookup(r) && Find(s.inner.requests, r.requestId).None? && Objection(r).None?
    ensures Step(cfg, s, Advance(0)) == s.(pc := Dispatch(r))
  {
    hide Find, Objection;
  }

  lemma DispatchStep(cfg: Config, s: Daemon, r: Request)
    requires s.pc == Dispatch(r)
    ensures Step(cfg, s, Advance(0)) == s.(pc := Dispatched(cfg, s.inner, r))
  {
    hide Dispatched;
  }

  /** A request that is new and valid, up to where it is dispatched. */
  lemma Admitted(cfg: Config, s: Daemon, r: Request) returns (es: seq<Event>)
    requires s.pc.Free? && Find(s.inner.requests, r.requestId).None? && Objection(r).None?
    ensures es == [Arrive(r), Advance(0), Advance(0)]
    ensures IsRun(cfg, s, es) && Run(cfg, s, es) == s.(pc := Dispatched(cfg, s.inner, r))
  {
    var a, b := s.(pc := Lookup(r)), s.(pc := Dispatch(r));
    assert Step(cfg, s, Arrive(r)) == a;
    LookupStep(cfg, a, r);
    DispatchStep(cfg, b, r);
    OneStep(cfg, b, Advance(0));
    hide Step, Find, Objection, Dispatched, Run, IsRun;
    First(cfg, a, Advance(0), [Advance(0)]);
    First(cfg, s, Arrive(r), [Advance(0)] + [Advance(0)]);
    es := [Arrive(r)] + ([Advance(0)] + [Advance(0)]);
  }

  /** A Dismiss that comes while a job is running: from any such state, with a new request
      identifier and a proposal not on record as dismissed, it wedges the daemon. */
  lemma DismissWhileRunning(cfg: Config, s: Daemon, r: Request) returns (es: seq<Event>)
    requires !cfg.restores && Coherent(s) && s.pc.Free? && s.inner.state == State.Working
    requires Find(s.inner.requests, r.requestId).None?
    requires r.contractVersion == CONTRACT_VERSION && r.operation.ProposalDismiss?
    requires !HasEnded(s.inner, r.operation.proposalId, TerminalOutcome.Dismissed)
    ensures es == [Arrive(r), Advance(0), Advance(0), Advance(0)]
    ensures IsRun(cfg, s, es) && Wedged(Run(cfg, s, es))
  {
    var head := Admitted(cfg, s, r);
    var c := s.(pc := Section(r));
    assert Dispatched(cfg, s.inner, r) == Section(r);
    CoherentStep(cfg, c, Advance(0));
    OneStep(cfg, c, Advance(0));
    hide Step, Coherent, Wedged, Run, IsRun, Find, HasEnded;
    RunAppend(cfg, s, head, [Advance(0)]);
    es := head + [Advance(0)];
  }

  /** A submission to an idle daemon, from its arrival to the job. */
  lemma SubmissionIsServed(cfg: Config, s: Daemon, r: Request) returns (es: seq<Event>)
    requires cfg.executor && s.pc.Free? && s.inner.state == State.Idle
    requires r.operation.Submit? && Objection(r).None? && Find(s.inner.requests, r.requestId).None?
    ensures IsRun(cfg, s, es) && Run(cfg, s, es) == Step(cfg, s.(pc := SubmitBegin(r)), Advance(0))
  {
    var head := Admitted(cfg, s, r);
    var c, d, e := s.(pc := SubmitCheck(r)), s.(pc := Investigate(r)), s.(pc := SubmitBegin(r));
    assert Dispatched(cfg, s.inner, r) == SubmitCheck(r);
    NotBusyStep(cfg, c);
    OneStep(cfg, e, Advance(0));
    hide Step, Objection, Find, Run, IsRun;
    First(cfg, d, Investigated(None), [Advance(0)]);
    First(cfg, c, Advance(0), [Investigated(None)] + [Advance(0)]);
    RunAppend(cfg, s, head, [Advance(0)] + ([Investigated(None)] + [Advance(0)]));
    es := head + ([Advance(0)] + ([Investigated(None)] + [Advance(0)]));
  }

  lemma NotBusyStep(cfg: Config, s: Daemon)
    requires Routed(s.pc) && s.pc.SubmitCheck? && !IsBusy(s.inner.state)
    ensures Step(cfg, s, Advance(0)) == s.(pc := Investigate(s.pc.request))
    ensures Step(cfg, s.(pc := Investigate(s.pc.request)), Investigated(None)) == s.(pc := SubmitBegin(s.pc.request))
  {
  }

  /** What the first submission leaves once it is answered. */
  lemma FirstJobRuns(cfg: Config, r: Request)
    requires r.operation.Submit?
    ensures var t := Step(cfg, Start(State.Idle).(pc := SubmitBegin(r)), Advance(0));
            && t.pc.Reply?
            && var u := Step(cfg, t, Advance(0));
               && Coherent(u) && u.pc.Free? && u.inner.state == State.Working && u.inner.terminal == []
               && |u.inner.requests| == 1 && u.inner.requests[0].requestId == r.requestId
  {
  }

  /** The agreement of state and slot does fail of the Dismiss as written: one submission and
      one Dismiss, to a daemon that has just been started, are enough. */
  lemma MishapHappens(cfg: Config) returns (es: seq<Event>)
    requires cfg.executor && !cfg.restores
    ensures IsStart(cfg, Start(State.Idle)) && IsRun(cfg, Start(State.Idle), es)
    ensures Wedged(Run(cfg, Start(State.Idle), es))
  {
    var submit := Request(CONTRACT_VERSION, "first", Submit("job", "repository", "error"));
    var dismiss := Request(CONTRACT_VERSION, "second", ProposalDismiss("p"));
    assert "first"[0] != "second"[0];
    es := MishapFrom(cfg, submit, dismiss);
  }

  lemma MishapFrom(cfg: Config, submit: Request, dismiss: Request) returns (es: seq<Event>)
    requires cfg.executor && !cfg.restores
    requires submit.operation.Submit? && Objection(submit).None?
    requires dismiss.contractVersion == CONTRACT_VERSION && dismiss.operation.ProposalDismiss?
    requires submit.requestId != dismiss.requestId
    ensures IsRun(cfg, Start(State.Idle), es) && Wedged(Run(cfg, Start(State.Idle), es))
  {
    var s := Start(State.Idle);
    var begun := s.(pc := SubmitBegin(submit));
    FirstJobRuns(cfg, submit);
    var one := SubmissionIsServed(cfg, s, submit);
    hide Step, Run, IsRun, Wedged, Coherent, Objection;
    var t := Step(cfg, begun, Advance(0));
    var u := Step(cfg, t, Advance(0));
    OneStep(cfg, t, Advance(0));
    RunAppend(cfg, s, one, [Advance(0)]);
    var two := DismissWhileRunning(cfg, u, dismiss);
    RunAppend(cfg, s, one + [Advance(0)], two);
    es := one + [Advance(0)] + two;
  }

  // ---- states without exit ----

  /** Neither accepts work nor touches the engine. */
  predicate Idles(s: Daemon, t: Daemon) {
    && t.inner.state == s.inner.state && t.submissions == s.submissions
    && t.calls == s.calls && t.terminalLog == s.terminalLog && t.issued == s.issued
  }

  /** The wedge: a job the literal Dismiss dropped can finish, be cancelled or be asked about, and
      any request can come: the state stays Working, no submission is accepted, nothing is
      proposed and nothing is applied, in any run. */
  lemma {:induction false} WedgedForever(cfg: Config, s: Daemon, es: seq<Event>)
    requires Wedged(s) && Routed(s.pc) && IsRun(cfg, s, es)
    ensures Wedged(Run(cfg, s, es)) && Idles(s, Run(cfg, s, es))
    decreases |es|
  {
    if es != [] {
      WedgedStep(cfg, s, es[0]);
      WedgedIdles(cfg, s, es[0]);
      RoutedStep(cfg, s, es[0]);
      hide Wedged, Step, Routed, Enabled;
      WedgedForever(cfg, Step(cfg, s, es[0]), es[1..]);
    }
  }

  lemma WedgedIdles(cfg: Config, s: Daemon, e: Event)
    requires Wedged(s) && Routed(s.pc) && Enabled(s, e)
    ensures Idles(s, Step(cfg, s, e))
  {
    hide Pushed, Find, Objection, StatusOf, BodyOf, HasEnded;
  }

  predicate Locked(s: Daemon) {
    Coherent(s) && s.inner.state == State.RecoveryRequired
  }

  /** RecoveryRequired is absorbing: no job is left to finish, and until a restart no event leads
      out of it, starts a job or reaches the engine. */
  lemma {:induction false} RecoveryRequiredStays(cfg: Config, s: Daemon, es: seq<Event>)
    requires Locked(s) && Routed(s.pc) && IsRun(cfg, s, es)
    ensures Locked(Run(cfg, s, es)) && Idles(s, Run(cfg, s, es)) && s.jobs == [] == Run(cfg, s, es).jobs
    decreases |es|
  {
    if es != [] {
      CoherentStep(cfg, s, es[0]);
      LockedIdles(cfg, s, es[0]);
      RoutedStep(cfg, s, es[0]);
      hide Step, Routed, Enabled, IsBusy, CodeFits;
      RecoveryRequiredStays(cfg, Step(cfg, s, es[0]), es[1..]);
    }
  }

  lemma LockedIdles(cfg: Config, s: Daemon, e: Event)
    requires Locked(s) && Routed(s.pc) && Enabled(s, e)
    ensures Idles(s, Step(cfg, s, e)) && !Drops(cfg, s, e)
  {
    hide Pushed, Find, Objection, StatusOf, BodyOf, HasEnded;
  }

  // ---- bodies ----

  /** Show and Copy hand out the active patch and leave no trace: memory and cache stay as they
      were. */
  lemma BodiesLeaveNoTrace(cfg: Config, s: Daemon, ms: nat, ms': nat)
    requires Routed(s.pc) && s.pc.Section? && ms < U64_LIMIT && ms' < U64_LIMIT
    requires s.pc.request.operation.ProposalShow? || s.pc.request.operation.ProposalCopy?
    requires Awaiting(s.inner, s.pc.request.operation.proposalId).Some?
    ensures var t := Step(cfg, s, Advance(ms));
            && t.pc.Reply? && ContainsBody(t.pc.payload)
            && t.pc.payload.patch == s.inner.active.value.record.proposal.patch.raw
            && Step(cfg, t, Advance(ms')) ==
               s.(pc := Free, replies := s.replies + [Response(s.pc.request.requestId, t.pc.payload)])
  {
  }

  /** Where the two forms of Dismiss differ: exactly on a running job, not already dismissed. */
  lemma DismissFormsDiffer(i: Inner, executor: bool, id: string, ms: nat)
    ensures LiteralDismiss(i, executor, id, ms) == RestoringDismiss(i, executor, id, ms)
       <==> !(i.active.Some? && i.active.value.Working? && !HasEnded(i, id, TerminalOutcome.Dismissed))
  {
    hide Ended, HasEnded;
  }
}
