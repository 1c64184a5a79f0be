/** The daemon on top of the engine: requests, background jobs, transactions, kills and restarts
    in any order, over one worktree. */
module Systems {
  import opened Text
  import opened Patches
  import Journals
  import opened TransactionState
  import opened Recoverables
  import opened Undisturbed
  import opened Worlds
  import opened Staging
  import opened Apply
  import opened ServiceState
  import opened ServiceRuns
  import opened ServiceInvariants
  import opened ServiceLaws

  datatype Process = Down | Up(daemon: Daemon)

  /** One change of the worktree: an edit by somebody else, or a whole transaction. */
  datatype Change = Edited(disk: Disk) | Committed(plan: Plan)

  /** `dirs` are the transaction directories in the state root; `open` is the last transaction
      that was left unresolved, `done` whether its Committed journal was put in place, `edited`
      whether others have changed the worktree since; `origin` and `history` tell what happened
      to the worktree since the process started. */
  datatype Host = Host(
    process: Process, disk: Disk, dirs: set<string>, open: Option<Plan>, done: bool, edited: bool,
    origin: Disk, history: seq<Change>)

  datatype Env = Env(cfg: Config, digest: string -> string, sizeOf: Journals.Journal -> nat)

  datatype Event =
    | Serve(step: ServiceRuns.Event)
    | Edit(disk: Disk)
    | Publish(posts: seq<string>, outcome: Outcome<nat>, disk: Disk, dirs: set<string>, done: bool)
    | Kill(posts: seq<string>, disk: Disk, dirs: set<string>, done: bool)
    | Boot(outcome: Outcome<nat>, disk: Disk, dirs: set<string>)

  function Initial(disk: Disk): Host {
    Host(Down, disk, {}, None, false, false, disk, [])
  }

  // ---- steps ----

  predicate InEngine(h: Host) {
    h.process.Up? && h.process.daemon.pc.Engine?
  }

  /** The transaction the engine has been given. */
  function PlanAt(h: Host, posts: seq<string>): Plan
    requires InEngine(h)
  {
    var record := h.process.daemon.pc.record;
    ApplyEngine.PlanOver(record.proposalId, record.proposal, posts, h.disk, h.dirs)
  }

  ghost predicate EngineLeaves(env: Env, h: Host, posts: seq<string>, outcome: Outcome<nat>, disk: Disk,
                            dirs: set<string>, done: bool) {
    InEngine(h)
    && ApplyEngine.ApplyLeaves(PlanAt(h, posts), disk, dirs, done, outcome, env.digest, env.sizeOf)
  }

  /** The open transaction, as far as a start can count on it. */
  function Known(h: Host): Option<Plan> {
    if h.dirs == {} || h.edited then None else h.open
  }

  /** What may happen.  A published or killed Apply leaves what `Apply` promises, a start what
      `Recover` promises; others may edit the worktree at any time between. */
  ghost predicate Allowed(env: Env, h: Host, e: Event) {
    match e
    case Serve(step) =>
      h.process.Up? && !step.EngineReturns? && Routed(h.process.daemon.pc) && Enabled(h.process.daemon, step)
    case Edit(disk) => WorktreeEdited(h.disk, disk)
    case Publish(posts, outcome, disk, dirs, done) => EngineLeaves(env, h, posts, outcome, disk, dirs, done)
    case Kill(posts, disk, dirs, done) =>
      h.process.Up? &&
      if InEngine(h) then EngineLeaves(env, h, posts, Crashed, disk, dirs, done)
      else disk == h.disk && dirs == h.dirs && done == h.done
    case Boot(outcome, disk, dirs) =>
      && h.process.Down?
      && ApplyEngine.RecoverLeaves(Known(h), h.disk, h.dirs, disk, dirs, h.done, outcome,
                                   env.digest, env.sizeOf)
  }

  /** `spawn_blocking`: a run of the engine that broke off reads as RecoveryRequired. */
  function ResultOf(outcome: Outcome<nat>): Result<nat, ApplyError> {
    match outcome
    case Success(n) => Ok(n)
    case Failure(e) => Err(e)
    case Crashed => Err(ApplyError.RecoveryRequired)
  }

  ghost function After(env: Env, h: Host, e: Event): Host
    requires Allowed(env, h, e)
  {
    match e
    case Serve(step) => h.(process := Up(Step(env.cfg, h.process.daemon, step)))
    case Edit(disk) =>
      h.(disk := disk, edited := h.dirs != {}, history := h.history + [Edited(disk)])
    case Publish(posts, outcome, disk, dirs, done) =>
      h.(process := Up(EngineDone(h.process.daemon, ResultOf(outcome))), disk := disk, dirs := dirs,
         open := Some(PlanAt(h, posts)), done := done, edited := false,
         history := if outcome.Success? then h.history + [Committed(PlanAt(h, posts))] else h.history)
    case Kill(posts, disk, dirs, done) =>
      h.(process := Down, disk := disk, dirs := dirs, done := done,
         open := if InEngine(h) then Some(PlanAt(h, posts)) else h.open, edited := h.edited && !InEngine(h))
    case Boot(outcome, disk, dirs) =>
      h.(process := match outcome
                    case Crashed => Down
                    case Success(_) => Up(Start(IdleState(env.cfg.executor)))
                    case Failure(_) => Up(Start(State.RecoveryRequired)),
         disk := disk, dirs := dirs, edited := h.edited && dirs != {}, origin := disk, history := [])
  }

  function EngineDone(d: Daemon, result: Result<nat, ApplyError>): Daemon
    requires d.pc.Engine?
  {
    d.(pc := ApplyDone(d.pc.request, d.pc.record, result))
  }

  // ---- what the worktree went through ----

  function Latest(origin: Disk, history: seq<Change>): Disk {
    if history == [] then origin
    else
      match history[|history| - 1]
      case Edited(disk) => disk
      case Committed(p) => if |p.posts| == Size(p) then PostImage(p, Size(p)) else p.base
  }

  /** Every transaction started from what was there before it. */
  predicate Linked(origin: Disk, history: seq<Change>) {
    forall k | 0 <= k < |history| && history[k].Committed? :: history[k].plan.base == Latest(origin, history[..k])
  }

  function CommittedIds(history: seq<Change>): seq<string> {
    if history == [] then []
    else CommittedIds(history[..|history| - 1])
         + match history[|history| - 1] case Edited(_) => [] case Committed(p) => [p.id]
  }

  function AppliedIds(log: seq<TerminalRecord>): seq<string> {
    if log == [] then []
    else AppliedIds(log[..|log| - 1])
         + (if log[|log| - 1].outcome == TerminalOutcome.Applied then [log[|log| - 1].proposalId] else [])
  }

  /** What the engine has published and the daemon not yet recorded. */
  function Pending(pc: Phase): seq<string> {
    if pc.ApplyDone? && pc.result.Ok? then [pc.record.proposalId] else []
  }

  // ---- the invariant ----

  /** The daemon is in RecoveryRequired, or about to be. */
  predicate Unresolved(d: Daemon) {
    || d.inner.state == State.RecoveryRequired
    || (d.pc.ApplyDone? && d.pc.result.Err? && MapApplyError(d.pc.result.error) == ErrorCode.RecoveryRequired)
  }

  /** The record, if there is one, is a journal of the transaction. */
  ghost predicate Recorded(p: Plan, d: Disk, digest: string -> string, sizeOf: Journals.Journal -> nat) {
    && PlanOk(p) && PlanApart(p)
    && (RecordLoc(p.id) in d ==>
          && d[RecordLoc(p.id)].Log?
          && JournalOf(p, d[RecordLoc(p.id)].journal, digest)
          && sizeOf(d[RecordLoc(p.id)].journal) <= Journals.MAX_JOURNAL_BYTES)
  }

  /** The one transaction in the state root, and all that is known of it once others have edited
      the worktree. */
  ghost predicate OpenOk(env: Env, h: Host) {
    h.dirs != {} ==>
      && h.open.Some? && h.open.value.dirs == {} && h.dirs == {h.open.value.id}
      && Recorded(h.open.value, h.disk, env.digest, env.sizeOf)
      && (!h.edited ==> Recoverable(h.open.value, h.disk, h.dirs, h.done, env.digest, env.sizeOf))
  }

  ghost predicate HostInv(env: Env, h: Host) {
    && OpenOk(env, h)
    && (h.process.Up? ==>
          && Inv(env.cfg, h.process.daemon)
          && (!Unresolved(h.process.daemon) ==> h.dirs == {} && h.disk == Latest(h.origin, h.history))
          && Linked(h.origin, h.history)
          && CommittedIds(h.history) == AppliedIds(h.process.daemon.terminalLog) + Pending(h.process.daemon.pc))
  }

  lemma Appended(origin: Disk, history: seq<Change>, c: Change)
    requires Linked(origin, history) && (c.Committed? ==> c.plan.base == Latest(origin, history))
    ensures Linked(origin, history + [c])
    ensures CommittedIds(history + [c]) == CommittedIds(history) + (if c.Committed? then [c.plan.id] else [])
  {
    var longer := history + [c];
    assert longer[..|history|] == history;
    forall k | 0 <= k < |longer| && longer[k].Committed?
      ensures longer[k].plan.base == Latest(origin, longer[..k])
    {
      assert k < |history| ==> longer[..k] == history[..k];
    }
  }

  lemma AppliedPush(log: seq<TerminalRecord>, end: TerminalRecord)
    ensures AppliedIds(log + [end])
         == AppliedIds(log) + if end.outcome == TerminalOutcome.Applied then [end.proposalId] else []
  {
    assert (log + [end])[..|log|] == log;
  }

  /** The daemon's own steps record exactly what the engine published. */
  lemma RecordsKept(cfg: Config, d: Daemon, e: ServiceRuns.Event)
    requires Routed(d.pc) && Enabled(d, e) && !e.EngineReturns?
    ensures var t := Step(cfg, d, e);
            AppliedIds(t.terminalLog) + Pending(t.pc) == AppliedIds(d.terminalLog) + Pending(d.pc)
  {
    match e
    case Advance(ms) =>
      if d.pc.Section? {
        SectionNumbers(cfg, d, ms);
        if d.inner.active.Some? && d.inner.active.value.Ready? {
          AppliedPush(d.terminalLog, EndRecord(d.inner.active.value.record, false));
        }
      } else if d.pc.ApplyDone? {
        AppliedPush(d.terminalLog, EndRecord(d.pc.record, true));
        DoneRecorded(cfg, d, ms);
      } else {
        NothingRecorded(cfg, d, ms);
      }
    case Finish(job, low, medium, ms, createdMs) =>
      JobDoneIssues(d, job, Completion(low, medium), ms, createdMs);
    case _ =>
    hide AppliedIds, JobDone, InSection, Advanced;
  }

  lemma DoneRecorded(cfg: Config, d: Daemon, ms: nat)
    requires Routed(d.pc) && Enabled(d, Advance(ms)) && d.pc.ApplyDone?
    ensures var t := Advanced(cfg, d, ms);
            && t.terminalLog == d.terminalLog + (if d.pc.result.Ok? then [EndRecord(d.pc.record, true)] else [])
            && t.pc.Reply?
  {
    hide Pushed, MapApplyError;
  }

  lemma NothingRecorded(cfg: Config, d: Daemon, ms: nat)
    requires Routed(d.pc) && Enabled(d, Advance(ms)) && !d.pc.Section? && !d.pc.ApplyDone?
    ensures var t := Advanced(cfg, d, ms); t.terminalLog == d.terminalLog && Pending(t.pc) == [] == Pending(d.pc)
  {
    hide Recalled, Objection, Remembered, Begun, ApplyAnswer, Awaiting;
  }

  /** Nothing the daemon does alone gets it out of RecoveryRequired. */
  lemma UnresolvedStays(cfg: Config, d: Daemon, e: ServiceRuns.Event)
    requires Inv(cfg, d) && Enabled(d, e) && Unresolved(d)
    ensures Unresolved(Step(cfg, d, e))
  {
    if d.inner.state == State.RecoveryRequired {
      LockedIdles(cfg, d, e);
    } else if e.Advance? {
      UnresolvedDone(cfg, d, e.ms);
    }
    hide Inv, JobDone, Advanced;
  }

  lemma UnresolvedDone(cfg: Config, d: Daemon, ms: nat)
    requires Routed(d.pc) && Enabled(d, Advance(ms)) && Unresolved(d) && d.pc.ApplyDone? && d.inner.state != State.RecoveryRequired
    ensures Unresolved(Advanced(cfg, d, ms))
  {
    hide Pushed, MapApplyError;
  }

  // ---- every run ----

  lemma ServeHolds(env: Env, h: Host, step: ServiceRuns.Event)
    requires HostInv(env, h) && Allowed(env, h, Serve(step))
    ensures HostInv(env, After(env, h, Serve(step)))
  {
    var d := h.process.daemon;
    StepHolds(env.cfg, d, step);
    RecordsKept(env.cfg, d, step);
    if Unresolved(d) {
      UnresolvedStays(env.cfg, d, step);
    }
    hide Inv, Step, OpenOk, Linked, Latest, CommittedIds, AppliedIds, Pending, Unresolved;
  }

  /** While the engine runs the state root holds nothing else. */
  lemma EngineStartsClean(env: Env, h: Host)
    requires HostInv(env, h) && InEngine(h)
    ensures h.dirs == {} && h.disk == Latest(h.origin, h.history) && Pending(h.process.daemon.pc) == []
  {
    hide Inv, Histories, Accounting, Caching, Issuing, Answers, Linked, Latest, CommittedIds, AppliedIds, OpenOk;
    assert Slotted(h.process.daemon) by { InvSlots(env.cfg, h.process.daemon); }
  }

  lemma InvSlots(cfg: Config, d: Daemon)
    requires Inv(cfg, d)
    ensures Slotted(d) && Routed(d.pc)
  {
  }

  /** What Apply leaves, as the daemon's codes tell it. */
  lemma LeavesByCode(p: Plan, d: Disk, dirs: set<string>, done: bool, outcome: Outcome<nat>,
                     digest: string -> string, sizeOf: Journals.Journal -> nat)
    requires p.dirs == {} && ApplyEngine.ApplyLeaves(p, d, dirs, done, outcome, digest, sizeOf)
    ensures dirs == {} || (dirs == {p.id} && Recoverable(p, d, dirs, done, digest, sizeOf)
                           && Recorded(p, d, digest, sizeOf))
    ensures var result := ResultOf(outcome);
            && (result.Ok? ==> dirs == {} && |p.posts| == Size(p) && d == PostImage(p, Size(p)))
            && (result.Err? && MapApplyError(result.error) != ErrorCode.RecoveryRequired ==> dirs == {} && d == p.base)
  {
    if Recoverable(p, d, dirs, done, digest, sizeOf) {
      RecoverableIsRecorded(p, d, dirs, done, digest, sizeOf);
    }
    hide Recoverable, PostImage, Recorded;
  }

  lemma RecoverableIsRecorded(p: Plan, d: Disk, dirs: set<string>, done: bool,
                              digest: string -> string, sizeOf: Journals.Journal -> nat)
    requires Recoverable(p, d, dirs, done, digest, sizeOf)
    ensures Recorded(p, d, digest, sizeOf) && (p.dirs == {} && dirs != {} ==> dirs == {p.id})
  {
    hide PlanOk, PlanApart, JournalOf, PathLoc;
  }

  lemma PublishHolds(env: Env, h: Host, posts: seq<string>, outcome: Outcome<nat>, disk: Disk, dirs: set<string>,
                     done: bool)
    requires HostInv(env, h) && EngineLeaves(env, h, posts, outcome, disk, dirs, done)
    ensures HostInv(env, After(env, h, Publish(posts, outcome, disk, dirs, done)))
  {
    EngineStartsClean(env, h);
    EngineIsApplying(env, h);
    EngineDoneHolds(env.cfg, h.process.daemon, ResultOf(outcome));
    PublishOpens(env, h, posts, outcome, disk, dirs, done);
    PublishTells(env, h, posts, outcome, disk, dirs, done);
    hide Inv, OpenOk, Linked, Latest, CommittedIds, AppliedIds, Pending, EngineLeaves, PlanAt, Unresolved;
  }

  lemma PublishOpens(env: Env, h: Host, posts: seq<string>, outcome: Outcome<nat>, disk: Disk, dirs: set<string>,
                     done: bool)
    requires EngineLeaves(env, h, posts, outcome, disk, dirs, done) && h.dirs == {}
    ensures OpenOk(env, After(env, h, Publish(posts, outcome, disk, dirs, done)))
  {
    LeavesByCode(PlanAt(h, posts), disk, dirs, done, outcome, env.digest, env.sizeOf);
    hide Recoverable, Recorded, ApplyEngine.ApplyLeaves;
  }

  lemma PublishTells(env: Env, h: Host, posts: seq<string>, outcome: Outcome<nat>, disk: Disk, dirs: set<string>,
                     done: bool)
    requires EngineLeaves(env, h, posts, outcome, disk, dirs, done) && h.dirs == {}
    requires h.process.daemon.inner.state == State.Applying
    requires h.disk == Latest(h.origin, h.history) && Linked(h.origin, h.history)
    requires CommittedIds(h.history) == AppliedIds(h.process.daemon.terminalLog) + Pending(h.process.daemon.pc)
    ensures var t := After(env, h, Publish(posts, outcome, disk, dirs, done));
            && (!Unresolved(t.process.daemon) ==> t.dirs == {} && t.disk == Latest(t.origin, t.history))
            && Linked(t.origin, t.history)
            && CommittedIds(t.history) == AppliedIds(t.process.daemon.terminalLog) + Pending(t.process.daemon.pc)
  {
    var d, p, result := h.process.daemon, PlanAt(h, posts), ResultOf(outcome);
    PublishRecorded(h, p, d, result);
    LeavesByCode(p, disk, dirs, done, outcome, env.digest, env.sizeOf);
    hide Recoverable, Recorded, Linked, Latest, CommittedIds, AppliedIds, PostImage, ApplyEngine.ApplyLeaves,
      MapApplyError, Pending;
  }

  /** The history after the engine, which the daemon has still to record. */
  lemma PublishRecorded(h: Host, p: Plan, d: Daemon, result: Result<nat, ApplyError>)
    requires Linked(h.origin, h.history) && p.base == Latest(h.origin, h.history) && d.pc.Engine?
    requires p.id == d.pc.record.proposalId && CommittedIds(h.history) == AppliedIds(d.terminalLog) + Pending(d.pc)
    ensures var history := if result.Ok? then h.history + [Committed(p)] else h.history;
            && Linked(h.origin, history)
            && (result.Ok? && |p.posts| == Size(p) ==> Latest(h.origin, history) == PostImage(p, Size(p)))
            && (result.Err? ==> history == h.history)
            && CommittedIds(history) == AppliedIds(d.terminalLog) + Pending(EngineDone(d, result).pc)
  {
    Appended(h.origin, h.history, Committed(p));
    LatestIs(h.origin, h.history, Committed(p));
    hide Linked, Latest, CommittedIds, AppliedIds, PostImage;
  }

  lemma EngineDoneHolds(cfg: Config, d: Daemon, result: Result<nat, ApplyError>)
    requires Inv(cfg, d) && d.pc.Engine?
    ensures Inv(cfg, EngineDone(d, result))
  {
    StepHolds(cfg, d, EngineReturns(result));
    hide Inv;
  }

  lemma LatestIs(origin: Disk, history: seq<Change>, c: Change)
    ensures c.Edited? ==> Latest(origin, history + [c]) == c.disk
    ensures c.Committed? && |c.plan.posts| == Size(c.plan) ==>
              Latest(origin, history + [c]) == PostImage(c.plan, Size(c.plan))
  {
  }

  lemma EngineIsApplying(env: Env, h: Host)
    requires HostInv(env, h) && InEngine(h)
    ensures h.process.daemon.inner.state == State.Applying
  {
    hide Inv;
    InvSlots(env.cfg, h.process.daemon);
  }

  lemma EditHolds(env: Env, h: Host, disk: Disk)
    requires HostInv(env, h) && Allowed(env, h, Edit(disk))
    ensures HostInv(env, After(env, h, Edit(disk)))
  {
    if h.process.Up? {
      Appended(h.origin, h.history, Edited(disk));
    }
    LatestIs(h.origin, h.history, Edited(disk));
    EditKeepsRecord(env, h, disk);
    hide Inv, Linked, Latest, CommittedIds, AppliedIds, Unresolved, OpenOk;
  }

  lemma EditKeepsRecord(env: Env, h: Host, disk: Disk)
    requires OpenOk(env, h) && Allowed(env, h, Edit(disk))
    ensures OpenOk(env, After(env, h, Edit(disk)))
  {
    if h.dirs != {} {
      assert At(disk, RecordLoc(h.open.value.id)) == At(h.disk, RecordLoc(h.open.value.id));
    }
    hide Recoverable, PlanOk, PlanApart, JournalOf;
  }

  lemma KillHolds(env: Env, h: Host, posts: seq<string>, disk: Disk, dirs: set<string>, done: bool)
    requires HostInv(env, h) && Allowed(env, h, Kill(posts, disk, dirs, done))
    ensures HostInv(env, After(env, h, Kill(posts, disk, dirs, done)))
  {
    if InEngine(h) {
      EngineStartsClean(env, h);
      LeavesByCode(PlanAt(h, posts), disk, dirs, done, Crashed, env.digest, env.sizeOf);
    }
    hide Inv, Recoverable, PostImage, Linked, Latest, CommittedIds, AppliedIds, ApplyEngine.ApplyLeaves;
    DownHolds(env, After(env, h, Kill(posts, disk, dirs, done)));
  }

  lemma BootHolds(env: Env, h: Host, outcome: Outcome<nat>, disk: Disk, dirs: set<string>)
    requires HostInv(env, h) && Allowed(env, h, Boot(outcome, disk, dirs))
    ensures HostInv(env, After(env, h, Boot(outcome, disk, dirs)))
  {
    BootLeaves(env, h, outcome, disk, dirs);
    var h' := After(env, h, Boot(outcome, disk, dirs));
    hide HostInv, OpenOk, Allowed, Start;
    match outcome
    case Success(_) => UpHolds(env, h', IdleState(env.cfg.executor));
    case Failure(_) => UpHolds(env, h', State.RecoveryRequired);
    case Crashed => DownHolds(env, h');
  }

  lemma DownHolds(env: Env, h: Host)
    requires OpenOk(env, h) && h.process.Down?
    ensures HostInv(env, h)
  {
  }

  lemma UpHolds(env: Env, h: Host, state: State)
    requires OpenOk(env, h) && h.process == Up(Start(state)) && h.origin == h.disk && h.history == []
    requires state == State.RecoveryRequired || (state == IdleState(env.cfg.executor) && h.dirs == {})
    ensures HostInv(env, h)
  {
    StartHolds(env.cfg, Start(state));
    hide Inv, OpenOk;
  }

  lemma BootLeaves(env: Env, h: Host, outcome: Outcome<nat>, disk: Disk, dirs: set<string>)
    requires OpenOk(env, h) && Allowed(env, h, Boot(outcome, disk, dirs))
    ensures OpenOk(env, After(env, h, Boot(outcome, disk, dirs)))
    ensures outcome.Success? ==> dirs == {}
  {
    if dirs != {} {
      var p := h.open.value;
      assert p.id in dirs;
      if !h.edited {
        RecoverableIsRecorded(p, disk, dirs, h.done, env.digest, env.sizeOf);
      }
    }
    hide Recoverable, Backlog, PostImage, PlanOk, PlanApart, JournalOf, ApplyEngine.Respects;
  }

  lemma HostStep(env: Env, h: Host, e: Event)
    requires HostInv(env, h) && Allowed(env, h, e)
    ensures HostInv(env, After(env, h, e))
  {
    match e
    case Serve(step) => ServeHolds(env, h, step);
    case Edit(disk) => EditHolds(env, h, disk);
    case Publish(posts, outcome, disk, dirs, done) => PublishHolds(env, h, posts, outcome, disk, dirs, done);
    case Kill(posts, disk, dirs, done) => KillHolds(env, h, posts, disk, dirs, done);
    case Boot(outcome, disk, dirs) => BootHolds(env, h, outcome, disk, dirs);
    hide HostInv, Allowed, After;
  }

  ghost predicate IsHistory(env: Env, h: Host, es: seq<Event>)
    decreases |es|
  {
    es == [] || (Allowed(env, h, es[0]) && IsHistory(env, After(env, h, es[0]), es[1..]))
  }

  ghost function Finally(env: Env, h: Host, es: seq<Event>): Host
    requires IsHistory(env, h, es)
    decreases |es|
  {
    if es == [] then h else Finally(env, After(env, h, es[0]), es[1..])
  }

  lemma {:induction false} HostRun(env: Env, h: Host, es: seq<Event>)
    requires HostInv(env, h) && IsHistory(env, h, es)
    ensures HostInv(env, Finally(env, h, es))
    decreases |es|
  {
    if es != [] {
      HostStep(env, h, es[0]);
      HostRun(env, After(env, h, es[0]), es[1..]);
    }
  }

  lemma AtMostOne(s: set<string>, x: string)
    requires s <= {x}
    ensures |s| <= 1
  {
    if x in s {
      assert s == {x};
    } else {
      assert s == {};
    }
  }

  /** The whole system, in every run from a clean host: at most one transaction is ever
      unresolved; and whenever the daemon is between requests and does not say RecoveryRequired,
      none is, and the worktree is what it was plus, in order, exactly the edits of others and
      the transactions the daemon answered as applied, each of them whole. */
  lemma WorktreeIsWhatWasReported(env: Env, disk: Disk, es: seq<Event>)
    requires IsHistory(env, Initial(disk), es)
    ensures var h := Finally(env, Initial(disk), es);
            && |h.dirs| <= 1
            && (h.process.Up? && h.process.daemon.pc.Free? && h.process.daemon.inner.state != State.RecoveryRequired ==>
                  && h.dirs == {}
                  && h.disk == Latest(h.origin, h.history) && Linked(h.origin, h.history)
                  && CommittedIds(h.history) == AppliedIds(h.process.daemon.terminalLog))
  {
    HostRun(env, Initial(disk), es);
    var h := Finally(env, Initial(disk), es);
    if h.dirs != {} {
      AtMostOne(h.dirs, h.open.value.id);
    }
    hide Inv, Latest, Linked, CommittedIds, AppliedIds, Recorded;
  }

  /** From wherever a run has got to, a start whose recovery succeeds empties the state root.  If
      nobody has edited the worktree since the transaction was left, it is all or nothing;
      otherwise every foreign target is spared that recovery does not overwrite for a link. */
  lemma NextStartResolves(env: Env, disk: Disk, es: seq<Event>, found: Disk, dirs: set<string>, n: nat)
    requires IsHistory(env, Initial(disk), es)
    requires Allowed(env, Finally(env, Initial(disk), es), Boot(Success(n), found, dirs))
    ensures var h := Finally(env, Initial(disk), es);
            && dirs == {} && n == |h.dirs| <= 1
            && if h.dirs == {} then found == h.disk
               else && h.open.Some? && |h.open.value.posts| == Size(h.open.value)
                    && if h.edited
                       then var j := ApplyEngine.JournalAt(h.disk, h.open.value.id);
                            j.Some? ==>
                              && !Blocked(h.disk, j.value, env.digest)
                              && (!Overwrites(h.disk, j.value, env.digest) ==> Spares(h.disk, found, j.value, env.digest))
                       else found == if h.done then PostImage(h.open.value, Size(h.open.value)) else h.open.value.base
  {
    HostRun(env, Initial(disk), es);
    WorktreeIsWhatWasReported(env, disk, es);
    var h := Finally(env, Initial(disk), es);
    if h.dirs != {} {
      RecordedIsApart(h.open.value, h.disk, env.digest, env.sizeOf);
      StartRespects(env, h, found, dirs, n);
    }
    hide Backlog, Inv, Blocked, Overwrites, Spares, Recoverable, Recorded;
  }

  lemma RecordedIsApart(p: Plan, d: Disk, digest: string -> string, sizeOf: Journals.Journal -> nat)
    requires Recorded(p, d, digest, sizeOf)
    ensures |p.posts| == Size(p)
    ensures var j := ApplyEngine.JournalAt(d, p.id); j.Some? ==> Apart(j.value.root, j.value.entries)
  {
    var j := ApplyEngine.JournalAt(d, p.id);
    if j.Some? {
      PlanEntriesApart(p, j.value, digest);
    }
  }

  lemma StartRespects(env: Env, h: Host, found: Disk, dirs: set<string>, n: nat)
    requires OpenOk(env, h) && h.dirs != {} && Allowed(env, h, Boot(Success(n), found, dirs))
    ensures var j := ApplyEngine.JournalAt(h.disk, h.open.value.id);
            j.Some? ==>
              && !Blocked(h.disk, j.value, env.digest)
              && (!Overwrites(h.disk, j.value, env.digest) ==> Spares(h.disk, found, j.value, env.digest))
  {
    RecordedIsApart(h.open.value, h.disk, env.digest, env.sizeOf);
    hide Backlog, Blocked, Overwrites, Spares, Recoverable, Apart, Recorded;
    var id := h.open.value.id;
    assert id in h.dirs;
    if ApplyEngine.JournalAt(h.disk, id).Some? {
      assert ApplyEngine.OnlyJournal(h.disk, h.dirs, id).Some?;
    }
  }

  /** RecoveryRequired holds out: whatever is asked, finishes or is edited meanwhile, until the
      process is killed the daemon stays there and the state root as it is. */
  lemma {:induction false} RecoveryRequiredHoldsOut(env: Env, h: Host, es: seq<Event>)
    requires HostInv(env, h) && h.process.Up? && h.process.daemon.inner.state == State.RecoveryRequired
    requires IsHistory(env, h, es) && forall e | e in es :: !e.Kill?
    ensures var t := Finally(env, h, es);
            && t.process.Up? && t.process.daemon.inner.state == State.RecoveryRequired
            && t.dirs == h.dirs && WorktreeEdited(h.disk, t.disk)
            && AppliedIds(t.process.daemon.terminalLog) == AppliedIds(h.process.daemon.terminalLog)
    decreases |es|
  {
    if es != [] {
      HostStep(env, h, es[0]);
      HoldsOutStep(env, h, es[0]);
      var t := After(env, h, es[0]);
      hide HostInv, Allowed, After, AppliedIds;
      RecoveryRequiredHoldsOut(env, t, es[1..]);
    }
  }

  lemma HoldsOutStep(env: Env, h: Host, e: Event)
    requires HostInv(env, h) && h.process.Up? && h.process.daemon.inner.state == State.RecoveryRequired
    requires Allowed(env, h, e) && !e.Kill?
    ensures var t := After(env, h, e);
            && t.process.Up? && t.process.daemon.inner.state == State.RecoveryRequired
            && t.dirs == h.dirs && WorktreeEdited(h.disk, t.disk)
            && t.process.daemon.terminalLog == h.process.daemon.terminalLog
  {
    var d := h.process.daemon;
    InvSlots(env.cfg, d);
    if InEngine(h) {
      EngineIsApplying(env, h);
    }
    if e.Serve? {
      LockedIdles(env.cfg, d, e.step);
    }
    hide Inv, Step, OpenOk, Linked, Latest, CommittedIds, AppliedIds, Unresolved, ApplyEngine.ApplyLeaves,
      ApplyEngine.RecoverLeaves;
  }

  /** When Apply has done everything and answers State, the daemon says RecoveryRequired over a
      whole patch and an empty state root, and records no Applied. */
  lemma WholeButRecoveryRequired(env: Env, h: Host, posts: seq<string>, disk: Disk, dirs: set<string>, ms: nat)
    returns (answered: Host, t: Host)
    requires HostInv(env, h) && ms < U64_LIMIT
    requires Allowed(env, h, Publish(posts, Failure(ApplyError.State), disk, dirs, true))
    ensures answered == After(env, h, Publish(posts, Failure(ApplyError.State), disk, dirs, true))
    ensures Allowed(env, answered, Serve(Advance(ms))) && t == After(env, answered, Serve(Advance(ms)))
    ensures t.process.Up? && t.process.daemon.inner.state == State.RecoveryRequired
    ensures h.process.Up? && t.process.daemon.terminalLog == h.process.daemon.terminalLog
    ensures InEngine(h) && t.dirs == {} && |posts| == Size(PlanAt(h, posts))
    ensures t.disk == PostImage(PlanAt(h, posts), |posts|)
  {
    var d := h.process.daemon;
    answered := PublishedHost(env, h, posts, disk, dirs);
    EngineStartsClean(env, h);
    InvSlots(env.cfg, d);
    StateIsAnswered(env.cfg, d, ms);
    hide HostInv, EngineLeaves, PostImage, Step, Inv, ApplyEngine.ApplyLeaves;
    WholeIfCommitted(PlanAt(h, posts), disk, dirs, env.digest, env.sizeOf);
    t := After(env, answered, Serve(Advance(ms)));
  }

  lemma PublishedHost(env: Env, h: Host, posts: seq<string>, disk: Disk, dirs: set<string>) returns (answered: Host)
    requires Allowed(env, h, Publish(posts, Failure(ApplyError.State), disk, dirs, true))
    ensures answered == After(env, h, Publish(posts, Failure(ApplyError.State), disk, dirs, true))
    ensures InEngine(h) && answered.process == Up(EngineDone(h.process.daemon, Err(ApplyError.State)))
    ensures answered.disk == disk && answered.dirs == dirs
    ensures ApplyEngine.ApplyLeaves(PlanAt(h, posts), disk, dirs, true, Failure(ApplyError.State), env.digest, env.sizeOf)
  {
    hide ApplyEngine.ApplyLeaves;
    answered := After(env, h, Publish(posts, Failure(ApplyError.State), disk, dirs, true));
  }

  lemma StateIsAnswered(cfg: Config, d: Daemon, ms: nat)
    requires d.pc.Engine? && Routed(d.pc) && ms < U64_LIMIT
    ensures var done := EngineDone(d, Err(ApplyError.State));
            && Routed(done.pc) && Enabled(done, Advance(ms))
            && var t := Step(cfg, done, Advance(ms));
               && t.inner.state == State.RecoveryRequired && t.terminalLog == d.terminalLog
               && t.pc == Reply(d.pc.request, Refusal(ErrorCode.RecoveryRequired))
  {
  }

  lemma WholeIfCommitted(p: Plan, d: Disk, dirs: set<string>, digest: string -> string,
                         sizeOf: Journals.Journal -> nat)
    requires p.dirs == {} && ApplyEngine.ApplyLeaves(p, d, dirs, true, Failure(ApplyError.State), digest, sizeOf)
    ensures dirs == {} && |p.posts| == Size(p) && d == PostImage(p, Size(p))
  {
    hide Recoverable, PostImage;
  }
}
