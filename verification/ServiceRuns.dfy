/** Requests and background jobs interleaved (crates/premonition-daemon/src/lib.rs:63-606).  One
    request at a time holds the gate and passes through its locked sections; a finishing job may
    come between any two of them. */
module ServiceRuns {
  import opened Text
  import opened Patches
  import opened Worlds
  import opened Staging
  import opened ServiceState

  /** `restores` says which Dismiss runs: the code as written, or the one that puts `active` back. */
  datatype Config = Config(
    executor: bool, restores: bool, digest: Request -> string, repositories: seq<(string, string)>)

  /** Where the request that holds the gate is. */
  datatype Phase =
    | Free
    | Lookup(request: Request)
    | Dispatch(request: Request)
    | SubmitCheck(request: Request)
    | Investigate(request: Request)
    | SubmitBegin(request: Request)
    | ApplyCheck(request: Request)
    | ApplyTake(request: Request)
    | Engine(request: Request, record: ProposalRecord)
    | ApplyDone(request: Request, record: ProposalRecord, result: Result<nat, ApplyError>)
    | Section(request: Request)
    | Reply(request: Request, payload: Payload)

  datatype Job = Job(correlationId: string, repositoryId: string)

  /** What a finished job found, and when. */
  datatype Finding = Finding(candidate: Candidate, createdMs: nat)

  /** The daemon, with everything it ever did on record: `issued` lists the proposal identifiers;
      `calls` and `ends` hold the numbers of the proposals given to the engine and brought to an
      end, `called` and `terminalLog` their identifiers; `asked` the requests behind `cacheLog`;
      `submissions` the accepted jobs, `findings` what the ones that were issued had found. */
  datatype Daemon = Daemon(
    inner: Inner, pc: Phase, jobs: seq<Job>,
    issued: seq<string>, calls: seq<nat>, called: seq<string>, ends: seq<nat>,
    recentLog: seq<RecentSummary>, terminalLog: seq<TerminalRecord>, cacheLog: seq<CachedRequest>, asked: seq<Request>,
    submissions: seq<Job>, findings: seq<Finding>, failedApplies: nat, replies: seq<Response>)

  datatype Event =
    | Arrive(request: Request)
    | Advance(ms: nat)
    | Investigated(refusal: Option<CoreError>)
    | EngineReturns(result: Result<nat, ApplyError>)
    | Finish(job: nat, low: Result<Candidate, JobError>, medium: Result<Candidate, JobError>, ms: nat, createdMs: nat)

  function Start(state: State): Daemon {
    Daemon(Blank(state), Free, [], [], [], [], [], [], [], [], [], [], [], 0, [])
  }

  predicate IsStart(cfg: Config, s: Daemon) {
    s == Start(State.RecoveryRequired) || s == Start(IdleState(cfg.executor))
  }

  // ---- one step ----

  /** Phases only hold the operations sent to them. */
  predicate Routed(pc: Phase) {
    && (pc.SubmitCheck? || pc.Investigate? || pc.SubmitBegin? ==> pc.request.operation.Submit?)
    && (pc.ApplyCheck? || pc.ApplyTake? || pc.Engine? || pc.ApplyDone? ==> pc.request.operation.ProposalApply?)
    && (pc.Section? ==> !pc.request.operation.Submit? && !pc.request.operation.ProposalApply?)
  }

  /** What `validate_candidate` guarantees of a finished job. */
  predicate CandidateOk(c: Result<Candidate, JobError>) {
    c.Ok? ==> ProposalOk(c.value.proposal)
  }

  predicate ProposalOk(q: Proposal) {
    WellFormed(q.patch) && StartsWith(q.root, "/")
  }

  predicate Enabled(s: Daemon, e: Event) {
    match e
    case Arrive(_) => s.pc.Free?
    case Advance(ms) => ms < U64_LIMIT && !s.pc.Free? && !s.pc.Investigate? && !s.pc.Engine?
    case Investigated(_) => s.pc.Investigate?
    case EngineReturns(_) => s.pc.Engine?
    case Finish(job, low, medium, ms, createdMs) =>
      job < |s.jobs| && ms < U64_LIMIT && createdMs < U64_LIMIT && CandidateOk(low) && CandidateOk(medium)
  }

  function Step(cfg: Config, s: Daemon, e: Event): Daemon
    requires Routed(s.pc) && Enabled(s, e)
  {
    match e
    case Arrive(r) => s.(pc := Lookup(r))
    case Advance(ms) => Advanced(cfg, s, ms)
    case Investigated(refusal) =>
      s.(pc := if refusal.None? then SubmitBegin(s.pc.request)
               else Reply(s.pc.request, Refusal(MapCoreError(refusal.value))))
    case EngineReturns(result) => s.(pc := ApplyDone(s.pc.request, s.pc.record, result))
    case Finish(job, low, medium, ms, createdMs) => JobDone(s, job, Completion(low, medium), ms, createdMs)
  }

  function Advanced(cfg: Config, s: Daemon, ms: nat): Daemon
    requires Routed(s.pc) && Enabled(s, Advance(ms))
  {
    var i, r := s.inner, s.pc.request;
    match s.pc
    case Lookup(_) =>
      (match Recalled(i, r, cfg.digest(r))
       case Some(p) => s.(pc := Free, replies := s.replies + [Response(r.requestId, p)])
       case None => s.(pc := if Objection(r).Some? then Reply(r, Refusal(Objection(r).value)) else Dispatch(r)))
    case Dispatch(_) => s.(pc := Dispatched(cfg, i, r))
    case SubmitCheck(_) => s.(pc := if IsBusy(i.state) then Reply(r, Refusal(Busy)) else Investigate(r))
    case SubmitBegin(_) =>
      var c, repository := r.operation.correlationId, r.operation.repositoryId;
      s.(inner := Begun(i, c, repository), jobs := s.jobs + [Job(c, repository)], submissions := s.submissions + [Job(c, repository)],
         pc := Reply(r, Accepted(c)))
    case ApplyCheck(_) =>
      var answer := ApplyAnswer(i, r.operation.proposalId);
      s.(pc := if answer.Some? then Reply(r, answer.value) else ApplyTake(r))
    case ApplyTake(_) =>
      (match Awaiting(i, r.operation.proposalId)
       case None => s.(pc := Reply(r, Refusal(UnknownProposal)))
       case Some(record) =>
         s.(inner := i.(state := State.Applying), pc := Engine(r, record),
            calls := s.calls + [|s.issued|], called := s.called + [record.proposalId]))
    case ApplyDone(_, record, result) =>
      var (inner, p) := ApplyClosed(i, cfg.executor, record, result, ms);
      var t := s.(inner := inner, pc := Reply(r, p));
      if result.Ok? then WithEnd(t, record, true, ms) else t.(failedApplies := s.failedApplies + 1)
    case Section(_) => InSection(cfg, s, ms)
    case Reply(_, p) =>
      var t := s.(inner := Remembered(i, r, cfg.digest(r), p), pc := Free,
                  replies := s.replies + [Response(r.requestId, p)]);
      if ContainsBody(p) then t
      else t.(cacheLog := s.cacheLog + [CachedRequest(r.requestId, cfg.digest(r), Response(r.requestId, p))],
              asked := s.asked + [r])
  }

  /** `dispatch`. */
  function Dispatched(cfg: Config, i: Inner, r: Request): Phase {
    if !r.operation.Status? && !r.operation.Health? && i.state == State.RecoveryRequired
    then Reply(r, Refusal(ErrorCode.RecoveryRequired))
    else if r.operation.Submit? then
      if cfg.executor then SubmitCheck(r) else Reply(r, Refusal(ErrorCode.RuntimeMissing))
    else if r.operation.ProposalApply? then ApplyCheck(r)
    else Section(r)
  }

  function Dismissal(cfg: Config, i: Inner, id: string, ms: nat): (Inner, Payload) {
    if cfg.restores then RestoringDismiss(i, cfg.executor, id, ms) else LiteralDismiss(i, cfg.executor, id, ms)
  }

  /** The operations that take the lock once or not at all. */
  function InSection(cfg: Config, s: Daemon, ms: nat): Daemon
    requires s.pc.Section? && Routed(s.pc)
  {
    var i, r := s.inner, s.pc.request;
    match r.operation
    case Status => s.(pc := Reply(r, StatusOf(i)))
    case ProposalShow(id) => s.(pc := Reply(r, BodyOf(i, id, false)))
    case ProposalCopy(id) => s.(pc := Reply(r, BodyOf(i, id, true)))
    case ProposalDismiss(id) =>
      var (inner, p) := Dismissal(cfg, i, id, ms);
      var t := s.(inner := inner, pc := Reply(r, p));
      if p == DismissedReply(id, false) && Awaiting(i, id).Some? then WithEnd(t, Awaiting(i, id).value, false, ms)
      else t
    case Cancel => s.(inner := CancelledIn(i).0, pc := Reply(r, CancelledIn(i).1))
    case Repositories => s.(pc := Reply(r, RepositoryList(cfg.repositories)))
    case Health => s.(pc := Reply(r, HealthReport(i.state == State.RecoveryRequired, cfg.executor)))
  }

  /** The records of a proposal's end. */
  function WithEnd(s: Daemon, record: ProposalRecord, applied: bool, ms: nat): Daemon {
    s.(ends := s.ends + [|s.issued|],
       terminalLog := s.terminalLog + [EndRecord(record, applied)],
       recentLog := s.recentLog
         + [SummaryOf(record, if applied then RecentOutcome.Applied else RecentOutcome.Dismissed, ms)])
  }

  function JobDone(s: Daemon, job: nat, done: Result<Candidate, JobError>, ms: nat, createdMs: nat): Daemon
    requires job < |s.jobs|
  {
    var Job(c, repository) := s.jobs[job];
    var inner := Finished(s.inner, c, repository, done, ms, createdMs);
    var t := s.(inner := inner, jobs := s.jobs[..job] + s.jobs[job + 1..]);
    if !IsRunning(s.inner, c) then t
    else if done.Err? then
      t.(recentLog := s.recentLog + [RecentSummary(c, repository, FailedJob(done.error).2, ms)])
    else if inner.active.Some? && inner.active.value.Ready? then
      t.(issued := s.issued + [inner.active.value.record.proposalId],
         findings := s.findings + [Finding(done.value, createdMs)])
    else t
  }

  // ---- runs ----

  predicate IsRun(cfg: Config, s: Daemon, es: seq<Event>)
    decreases |es|
  {
    es == [] || (Routed(s.pc) && Enabled(s, es[0]) && IsRun(cfg, Step(cfg, s, es[0]), es[1..]))
  }

  function Run(cfg: Config, s: Daemon, es: seq<Event>): Daemon
    requires IsRun(cfg, s, es)
    decreases |es|
  {
    if es == [] then s else Run(cfg, Step(cfg, s, es[0]), es[1..])
  }
}
