/** What the daemon holds in memory and what each of its locked sections does to it
    (crates/premonition-daemon/src/lib.rs). */
module ServiceState {
  import opened Text
  import opened Diff
  import opened Worlds
  import opened Staging

  const CONTRACT_VERSION: nat := 1
  const MAX_INPUT_BYTES: nat := 32 * 1024
  const MAX_RECENT: nat := 20
  const TERMINAL_LIMIT: nat := 20
  const REQUEST_CACHE_LIMIT: nat := 64

  // ---- the wire ----

  datatype State = Idle | Working | Ready | Invalid | Error | RuntimeMissing | Applying | RecoveryRequired

  datatype ErrorCode =
    | UnsupportedContract | InvalidRequest | RequestIdReuse | RuntimeMissing | Busy | UnknownRepository
    | RepositoryUnsafe | InputTooLarge | SnapshotTooLarge | ExecutorTimeout | Cancelled | CandidateInvalid
    | Stale | ApplyCheckFailed | ApplyInProgress | RecoveryRequired | UnknownProposal | Internal

  datatype Operation =
    | Status
    | Submit(correlationId: string, repositoryId: string, input: string)
    | ProposalShow(proposalId: string)
    | ProposalApply(proposalId: string)
    | ProposalDismiss(proposalId: string)
    | ProposalCopy(proposalId: string)
    | Cancel
    | Repositories
    | Health

  datatype Request = Request(contractVersion: nat, requestId: string, operation: Operation)

  datatype RecentOutcome = Applied | Dismissed | Cancelled | Invalid | Error

  datatype RecentSummary = RecentSummary(
    correlationId: string, repositoryId: string, outcome: RecentOutcome, completedMs: nat)

  datatype Payload =
    | StatusReport(
        state: State, shownProposal: Option<string>, shownCorrelation: Option<string>,
        shownRepository: Option<string>, shownCreatedMs: Option<nat>, patchBytes: Option<nat>, files: Option<nat>,
        failureCode: Option<ErrorCode>, recent: seq<RecentSummary>)
    | Accepted(correlationId: string)
    | ProposalBody(
        proposalId: string, repositoryId: string, patch: string, rationale: string, fileCount: nat,
        createdMs: nat, evidence: string)
    | CopyPayload(proposalId: string, patch: string)
    | AppliedReply(proposalId: string, already: bool)
    | DismissedReply(proposalId: string, already: bool)
    | CancelledReply(alreadyTerminal: bool)
    | RepositoryList(repositories: seq<(string, string)>)
    | HealthReport(recoveryRequired: bool, executorAvailable: bool)
    | Refusal(code: ErrorCode)

  datatype Response = Response(requestId: string, payload: Payload)

  /** `Request::validate`, with the code the daemon answers. */
  function Objection(r: Request): Option<ErrorCode> {
    if r.contractVersion != CONTRACT_VERSION then Some(UnsupportedContract)
    else if !r.operation.Submit? then None
    else if r.operation.input == "" then Some(InvalidRequest)
    else if |r.operation.input| > MAX_INPUT_BYTES then Some(InputTooLarge)
    else if '\0' in r.operation.input then Some(InvalidRequest)
    else None
  }

  predicate ContainsBody(p: Payload) {
    p.ProposalBody? || p.CopyPayload?
  }

  // ---- memory ----

  datatype ProposalRecord = ProposalRecord(
    proposalId: string, correlationId: string, repositoryId: string, createdMs: nat, rationale: string,
    evidence: string, proposal: Proposal)

  datatype Active =
    | Working(correlationId: string, repositoryId: string, cancelled: bool)
    | Ready(record: ProposalRecord)

  datatype TerminalOutcome = Applied | Dismissed

  datatype TerminalRecord = TerminalRecord(proposalId: string, outcome: TerminalOutcome)

  datatype CachedRequest = CachedRequest(requestId: string, digest: string, response: Response)

  datatype Inner = Inner(
    state: State, active: Option<Active>, failure: Option<ErrorCode>,
    recent: seq<RecentSummary>, terminal: seq<TerminalRecord>, requests: seq<CachedRequest>, sequence: nat)

  function Blank(state: State): Inner {
    Inner(state, None, None, [], [], [], 0)
  }

  function IdleState(executor: bool): State {
    if executor then State.Idle else State.RuntimeMissing
  }

  predicate IsBusy(s: State) {
    s == State.Working || s == State.Ready || s == State.Applying
  }

  /** Failure codes go with failed states. */
  predicate CodeFits(i: Inner) {
    && (i.state == State.Idle || IsBusy(i.state) ==> i.failure == None)
    && (i.state == State.Invalid || i.state == State.Error ==> i.failure.Some?)
  }

  /** State, slot and failure code agree. */
  predicate Agrees(i: Inner) {
    && CodeFits(i)
    && (i.state == State.Working <==> i.active.Some? && i.active.value.Working?)
    && (i.state == State.Ready || i.state == State.Applying <==> i.active.Some? && i.active.value.Ready?)
  }

  // ---- bounded queues ----

  function Pushed<T>(q: seq<T>, limit: nat, x: T): seq<T>
    requires limit > 0
  {
    (if |q| == limit then q[1..] else q) + [x]
  }

  function Newest<T>(log: seq<T>, limit: nat): seq<T> {
    if |log| <= limit then log else log[|log| - limit..]
  }

  /** A bounded queue holds the newest entries of everything ever pushed. */
  lemma PushedIsNewest<T>(log: seq<T>, limit: nat, x: T)
    requires limit > 0
    ensures Pushed(Newest(log, limit), limit, x) == Newest(log + [x], limit)
  {
    if |log| >= limit {
      assert log[|log| - limit..][1..] == log[|log| - limit + 1..];
      assert (log + [x])[|log| + 1 - limit..] == log[|log| - limit + 1..] + [x];
    }
  }

  function SummaryOf(record: ProposalRecord, outcome: RecentOutcome, ms: nat): RecentSummary {
    RecentSummary(record.correlationId, record.repositoryId, outcome, ms)
  }

  function Ended(i: Inner, record: ProposalRecord, applied: bool, ms: nat): Inner {
    i.(recent := Pushed(i.recent, MAX_RECENT,
                        SummaryOf(record, if applied then RecentOutcome.Applied else RecentOutcome.Dismissed, ms)),
       terminal := Pushed(i.terminal, TERMINAL_LIMIT, EndRecord(record, applied)))
  }

  function EndRecord(record: ProposalRecord, applied: bool): TerminalRecord {
    TerminalRecord(record.proposalId, if applied then TerminalOutcome.Applied else TerminalOutcome.Dismissed)
  }

  // ---- the cache ----

  function Find(requests: seq<CachedRequest>, id: string): (r: Option<CachedRequest>)
    ensures r.None? <==> forall k | 0 <= k < |requests| :: requests[k].requestId != id
    ensures r.Some? ==> r.value in requests && r.value.requestId == id
  {
    if requests == [] then None
    else if requests[0].requestId == id then Some(requests[0])
    else Find(requests[1..], id)
  }

  /** The answer the cache has ready, if any. */
  function Recalled(i: Inner, r: Request, digest: string): Option<Payload> {
    match Find(i.requests, r.requestId)
    case None => None
    case Some(c) => Some(if c.digest == digest then c.response.payload else Refusal(RequestIdReuse))
  }

  function Remembered(i: Inner, r: Request, digest: string, p: Payload): Inner {
    if ContainsBody(p) then i
    else i.(requests := Pushed(i.requests, REQUEST_CACHE_LIMIT,
                               CachedRequest(r.requestId, digest, Response(r.requestId, p))))
  }

  // ---- reading sections ----

  function StatusOf(i: Inner): Payload {
    match i.active
    case None => StatusReport(i.state, None, None, None, None, None, None, i.failure, i.recent)
    case Some(Working(correlation, repository, _)) =>
      StatusReport(i.state, None, Some(correlation), Some(repository), None, None, None, i.failure, i.recent)
    case Some(Ready(p)) =>
      StatusReport(i.state, Some(p.proposalId), Some(p.correlationId), Some(p.repositoryId), Some(p.createdMs),
                   Some(|p.proposal.patch.raw|), Some(|p.proposal.patch.files|), i.failure, i.recent)
  }

  /** The active proposal, if it bears this identifier. */
  function Awaiting(i: Inner, id: string): Option<ProposalRecord> {
    if i.active.Some? && i.active.value.Ready? && i.active.value.record.proposalId == id
    then Some(i.active.value.record)
    else None
  }

  function BodyOf(i: Inner, id: string, copyOnly: bool): Payload {
    match Awaiting(i, id)
    case None => Refusal(UnknownProposal)
    case Some(p) =>
      if copyOnly then CopyPayload(id, p.proposal.patch.raw)
      else ProposalBody(id, p.repositoryId, p.proposal.patch.raw, p.rationale, |p.proposal.patch.files|,
                        p.createdMs, p.evidence)
  }

  predicate HasEnded(i: Inner, id: string, outcome: TerminalOutcome) {
    TerminalRecord(id, outcome) in i.terminal
  }

  // ---- Submit ----

  function Begun(i: Inner, correlation: string, repository: string): Inner {
    i.(state := State.Working, failure := None, active := Some(Active.Working(correlation, repository, false)))
  }

  // ---- Apply ----

  /** The first section of Apply: the answers that need no proposal. */
  function ApplyAnswer(i: Inner, id: string): Option<Payload> {
    if HasEnded(i, id, TerminalOutcome.Applied) then Some(AppliedReply(id, true))
    else if i.state == State.Applying then Some(Refusal(ApplyInProgress))
    else None
  }

  function MapApplyError(e: ApplyError): ErrorCode {
    match e
    case Stale => ErrorCode.Stale
    case Git => ApplyCheckFailed
    case RecoveryRequired | State => ErrorCode.RecoveryRequired
    case Repository | Snapshot => RepositoryUnsafe
    case Identifier | TransactionExists => Internal
  }

  /** The last section of Apply: what the engine's result does. */
  function ApplyClosed(i: Inner, executor: bool, record: ProposalRecord, result: Result<nat, ApplyError>, ms: nat)
    : (Inner, Payload)
  {
    match result
    case Ok(_) =>
      (Ended(i.(active := None, state := IdleState(executor), failure := None), record, true, ms),
       AppliedReply(record.proposalId, false))
    case Err(e) =>
      var code := MapApplyError(e);
      (i.(active := None, failure := Some(code),
          state := if code == ErrorCode.RecoveryRequired then State.RecoveryRequired else State.Error),
       Refusal(code))
  }

  // ---- Dismiss ----

  /** `dismiss` as written: `active` is taken before it is looked at, and put back only when it
      is a proposal with another identifier. */
  function LiteralDismiss(i: Inner, executor: bool, id: string, ms: nat): (Inner, Payload) {
    if HasEnded(i, id, TerminalOutcome.Dismissed) then (i, DismissedReply(id, true))
    else
      match i.active
      case Some(Ready(record)) =>
        if record.proposalId != id then (i, Refusal(UnknownProposal))
        else (Ended(i.(active := None, state := IdleState(executor), failure := None), record, false, ms),
              DismissedReply(id, false))
      case _ => (i.(active := None), Refusal(UnknownProposal))
  }

  /** `dismiss` with `active` put back on any mismatch. */
  function RestoringDismiss(i: Inner, executor: bool, id: string, ms: nat): (Inner, Payload) {
    match (HasEnded(i, id, TerminalOutcome.Dismissed), Awaiting(i, id))
    case (true, _) => (i, DismissedReply(id, true))
    case (false, None) => (i, Refusal(UnknownProposal))
    case (false, Some(record)) =>
      (Ended(i.(active := None, state := IdleState(executor), failure := None), record, false, ms),
       DismissedReply(id, false))
  }

  // ---- Cancel ----

  function CancelledIn(i: Inner): (Inner, Payload) {
    match i.active
    case Some(Working(c, r, _)) => (i.(active := Some(Active.Working(c, r, true))), CancelledReply(false))
    case _ => (i, if i.state == State.Applying then Refusal(ApplyInProgress) else CancelledReply(true))
  }

  // ---- the job ----

  datatype ExecutorError =
    | Configuration | Input | Repository | Spawn | Io | Timeout | Cancelled | OutputLimit | Crash | MalformedOutput

  datatype CoreError =
    | UnknownRepository | OtherRepository | SnapshotTooLarge | SnapshotStale | OtherSnapshot | BadDiff | NotApplicable

  datatype JobError = Executor(executor: ExecutorError) | Core(core: CoreError)

  datatype Candidate = Candidate(proposal: Proposal, rationale: string, evidence: string)

  function MapExecutorError(e: ExecutorError): ErrorCode {
    match e
    case Configuration | Spawn => ErrorCode.RuntimeMissing
    case Timeout => ExecutorTimeout
    case Cancelled => ErrorCode.Cancelled
    case Input => InputTooLarge
    case MalformedOutput | OutputLimit => CandidateInvalid
    case Repository => RepositoryUnsafe
    case Io | Crash => Internal
  }

  function MapCoreError(e: CoreError): ErrorCode {
    match e
    case UnknownRepository => ErrorCode.UnknownRepository
    case SnapshotTooLarge => ErrorCode.SnapshotTooLarge
    case SnapshotStale => ErrorCode.Stale
    case BadDiff => CandidateInvalid
    case NotApplicable => ApplyCheckFailed
    case OtherRepository | OtherSnapshot => RepositoryUnsafe
  }

  predicate RetryableLowFailure(e: JobError) {
    e == Executor(MalformedOutput) || e == Core(BadDiff) || e == Core(NotApplicable)
  }

  /** The job's outcome from its Low attempt and, if that one may be retried, its Medium one. */
  function Completion(low: Result<Candidate, JobError>, medium: Result<Candidate, JobError>)
    : Result<Candidate, JobError>
  {
    if low.Err? && RetryableLowFailure(low.error) then medium else low
  }

  /** `SafeId::new`. */
  predicate IsSafeId(s: string) {
    0 < |s| <= 64 && forall c | c in s :: IsAlphanumeric(c) || c == '.' || c == '_' || c == '-'
  }

  function ProposalId(ms: nat, sequence: nat): string {
    "p-" + Decimal(ms) + "-" + Decimal(sequence)
  }

  function FailedJob(e: JobError): (State, ErrorCode, RecentOutcome) {
    match e
    case Executor(Cancelled) => (State.Idle, ErrorCode.Cancelled, RecentOutcome.Cancelled)
    case Executor(x) =>
      var code := MapExecutorError(x);
      if code == ErrorCode.RuntimeMissing then (State.RuntimeMissing, code, RecentOutcome.Error)
      else if code == CandidateInvalid then (State.Invalid, code, RecentOutcome.Invalid)
      else (State.Error, code, RecentOutcome.Error)
    case Core(x) => (State.Invalid, MapCoreError(x), RecentOutcome.Invalid)
  }

  predicate IsRunning(i: Inner, correlation: string) {
    i.active.Some? && i.active.value.Working? && i.active.value.correlationId == correlation
  }

  /** `finish_job`: nothing, unless the job is still the active one. */
  function Finished(i: Inner, correlation: string, repository: string, done: Result<Candidate, JobError>,
                    ms: nat, createdMs: nat)
    : Inner
  {
    if !IsRunning(i, correlation) then i
    else
      match done
      case Ok(c) =>
        var sequence := (i.sequence + 1) % U64_LIMIT;
        var id := ProposalId(ms, sequence);
        if !IsSafeId(id) then i.(sequence := sequence, state := State.Error, failure := Some(Internal), active := None)
        else
          i.(sequence := sequence, state := State.Ready, failure := None,
             active := Some(Active.Ready(
               ProposalRecord(id, correlation, repository, createdMs, c.rationale, c.evidence, c.proposal))))
      case Err(e) =>
        var (state, code, outcome) := FailedJob(e);
        i.(state := state, failure := if state == State.Idle then None else Some(code), active := None,
           recent := Pushed(i.recent, MAX_RECENT, RecentSummary(correlation, repository, outcome, ms)))
  }
}
