/** The engine behind the system's steps: wherever a run of the system has got to, calling `Apply`
    or `Recover` on the disk makes a step the system allows. */
module Refinements {
  import opened Text
  import opened Patches
  import Journals
  import opened TransactionState
  import opened Recoverables
  import opened Worlds
  import opened Staging
  import opened Apply
  import opened ServiceState
  import opened ServiceRuns
  import opened ServiceInvariants
  import opened ServiceLaws
  import opened Systems
  import opened Lifetimes

  /** The disk of the system is the disk of the engine. */
  ghost predicate Matches(env: Env, h: Host, w: World)
    reads w
  {
    w.disk == h.disk && w.dirs == h.dirs && w.digest == env.digest && w.sizeOf == env.sizeOf && !w.strays
  }

  /** What the daemon hands to the engine is what Apply asks for: a well-formed patch, an absolute
      root, an identifier it accepts, and an empty state root. */
  lemma EngineIsCalledProperly(env: Env, h: Host)
    requires HostInv(env, h) && InEngine(h)
    ensures var record := h.process.daemon.pc.record;
            && ProposalOk(record.proposal) && Journals.ValidTransactionId(record.proposalId) && h.dirs == {}
  {
    var d := h.process.daemon;
    EngineStartsClean(env, h);
    EngineIsApplying(env, h);
    InvSlots(env.cfg, d);
    assert Issuing(d);
    hide HostInv, Inv, Numbered, Tally, ProposalOk, Below;
    assert d.inner.active == Some(Active.Ready(d.pc.record));
    IssuedIdIsAccepted(d, |d.issued| - 1);
  }

  /** Nothing but the sync of the repository root stands in the way of this proposal. */
  ghost predicate Smooth(w: World, id: string, q: Proposal, posts: seq<string>)
    requires |posts| == |q.patch.files|
    reads w
  {
    var p := ApplyEngine.PlanOver(id, q, posts, w.disk, w.dirs);
    && w.Quiet() && w.verdicts == Verdicts(true, true, true, true)
    && FreshThrice(w.sight, q.snapshot, w.sha) && TargetsFit(w.disk, q.root, q.patch.files) && PostsFit(p)
    && ApplyEngine.SyncTo(p, Size(p), w.unsyncable)
    && forall j :: w.sizeOf(j) <= Journals.MAX_JOURNAL_BYTES
  }

  /** The sync of the root decides the answer. */
  ghost predicate Decided(w: World, id: string, q: Proposal, r: Outcome<nat>)
    reads w
  {
    if Work(q.root, "") in w.unsyncable then r == Failure(ApplyError.State) && id in w.committed else r.Success?
  }

  method CallEngine(w: World, id: string, q: Proposal, posts: seq<string>) returns (r: Outcome<nat>)
    requires ApplyEngine.Admissible(w, id, q, posts) && Journals.ValidTransactionId(id) && id !in w.dirs
    modifies w`fates, w`failures, w`sight, w`disk, w`dirs, w`committed
    ensures ApplyEngine.ApplyLeaves(ApplyEngine.PlanOver(id, q, posts, old(w.disk), old(w.dirs)), w.disk, w.dirs,
                                    id in w.committed, r, w.digest, w.sizeOf)
    ensures r != Failure(Identifier)
    ensures old(Smooth(w, id, q, posts)) ==> Decided(w, id, q, r)
  {
    SeenLater(w.sight);
    hide ApplyEngine.ApplyLeaves, Journals.ValidTransactionId, FreshNames, WellFormed, PostsFit, TargetsFit, Fresh,
      ApplyEngine.SyncTo, Seen, Passed;
    var engine := new ApplyEngine(w);
    if Smooth(w, id, q, posts) {
      SmoothPasses(engine, id, q, posts);
    }
    hide FreshThrice, ApplyEngine.Verdict, ApplyEngine.StageAgrees;
    r := engine.Apply(id, q, posts);
  }

  /** A smooth proposal passes every check on the way. */
  lemma SmoothPasses(engine: ApplyEngine, id: string, q: Proposal, posts: seq<string>)
    requires |posts| == |q.patch.files| && Smooth(engine.w, id, q, posts) && Journals.ValidTransactionId(id)
    ensures engine.Verdict(id, q, engine.w.sight, engine.w.disk).Success?
    ensures engine.StageAgrees(Passed(Passed(engine.w.sight)), q.snapshot)
  {
    SeenLater(engine.w.sight);
    hide Fresh, TargetsFit, PostsFit, Journals.ValidTransactionId;
  }

  method RunEngine(env: Env, ghost h: Host, w: World, record: ProposalRecord, posts: seq<string>)
    returns (r: Outcome<nat>)
    requires HostInv(env, h) && InEngine(h) && Matches(env, h, w) && record == h.process.daemon.pc.record
    requires |posts| == |record.proposal.patch.files| && record.proposalId !in w.committed
    requires FreshNames(h.disk, record.proposalId, record.proposal.root, record.proposal.patch.files)
    modifies w`fates, w`failures, w`sight, w`disk, w`dirs, w`committed
    ensures Allowed(env, h, Publish(posts, r, w.disk, w.dirs, record.proposalId in w.committed))
    ensures r != Failure(Identifier)
    ensures old(Smooth(w, record.proposalId, record.proposal, posts)) ==>
              Decided(w, record.proposalId, record.proposal, r)
  {
    EngineIsCalledProperly(env, h);
    hide HostInv, ApplyEngine.ApplyLeaves, Journals.ValidTransactionId, FreshNames, WellFormed, Smooth;
    r := CallEngine(w, record.proposalId, record.proposal, posts);
  }

  method BootEngine(env: Env, ghost h: Host, w: World) returns (r: Outcome<nat>)
    requires HostInv(env, h) && h.process.Down? && Matches(env, h, w)
    requires h.dirs != {} && !h.edited ==> (h.done <==> h.open.value.id in w.committed)
    modifies w`fates, w`failures, w`sight, w`disk, w`dirs, w`committed
    ensures Allowed(env, h, Boot(r, w.disk, w.dirs))
    ensures old(w.Quiet()) && w.unsyncable == {} && !h.edited ==> w.Quiet() && r.Success?
  {
    ghost var plan := Known(h);
    assert OpenOk(env, h);
    if h.dirs != {} {
      OpenFacts(env, h);
    }
    hide HostInv, OpenOk, Recoverable, ApplyEngine.RecoverLeaves;
    var engine := new ApplyEngine(w);
    r := engine.Recover(plan);
  }

  lemma OpenFacts(env: Env, h: Host)
    requires OpenOk(env, h) && h.dirs != {}
    ensures h.open.Some? && h.dirs == {h.open.value.id} && h.open.value.dirs == {}
    ensures !h.edited ==> Recoverable(h.open.value, h.disk, h.dirs, h.done, env.digest, env.sizeOf)
    ensures var j := ApplyEngine.JournalAt(h.disk, h.open.value.id); j.Some? ==> Apart(j.value.root, j.value.entries)
  {
    RecordedIsApart(h.open.value, h.disk, env.digest, env.sizeOf);
    hide Recoverable, Recorded, Apart;
  }

  /** With a repository root that cannot be synced, and nothing else in the way, the real Apply
      takes the system there: the whole patch in the worktree, an empty state root, and
      RecoveryRequired for an answer. */
  method AnswerWithoutApplied(env: Env, ghost h: Host, w: World, record: ProposalRecord, posts: seq<string>)
    returns (r: Outcome<nat>, ghost answered: Host, ghost t: Host)
    requires HostInv(env, h) && InEngine(h) && Matches(env, h, w) && record == h.process.daemon.pc.record
    requires |posts| == |record.proposal.patch.files| && record.proposalId !in w.committed
    requires FreshNames(h.disk, record.proposalId, record.proposal.root, record.proposal.patch.files)
    requires Smooth(w, record.proposalId, record.proposal, posts) && Work(record.proposal.root, "") in w.unsyncable
    modifies w`fates, w`failures, w`sight, w`disk, w`dirs, w`committed
    ensures r == Failure(ApplyError.State) && Allowed(env, h, Publish(posts, r, w.disk, w.dirs, true))
    ensures answered == After(env, h, Publish(posts, r, w.disk, w.dirs, true))
    ensures Allowed(env, answered, Serve(Advance(0))) && t == After(env, answered, Serve(Advance(0)))
    ensures t.process.Up? && t.process.daemon.inner.state == State.RecoveryRequired
    ensures t.process.daemon.terminalLog == h.process.daemon.terminalLog
    ensures t.dirs == {} && t.disk == PostImage(PlanAt(h, posts), |posts|)
  {
    hide HostInv, EngineLeaves, FreshNames, WellFormed, Smooth, PostImage, Step;
    r := RunEngine(env, h, w, record, posts);
    answered, t := WholeButRecoveryRequired(env, h, posts, w.disk, w.dirs, 0);
  }
}
