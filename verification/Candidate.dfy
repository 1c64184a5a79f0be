/** What a validated proposal is (crates/premonition-core/src/lib.rs:67-88). */
module Candidates {
  import opened Text
  import opened SafePaths
  import opened DiffGrammar
  import opened Diff
  import opened Patches
  import opened PatchParser
  import opened Staging
  import opened ServiceState
  import opened ServiceRuns
  import Containment
  import opened Worlds
  import NulPaths
  import Snapshots
  import TransactionState

  predicate IsAccepted(tree: Containment.Tree, root: Containment.Path, change: FileChange) {
    Containment.Accepted(tree, root, Components(change.path), change.kind)
  }

  /** Every path of the patch leads, on this tree, to where its text says. */
  predicate AllAccepted(tree: Containment.Tree, root: Containment.Path, files: seq<FileChange>) {
    forall i | 0 <= i < |files| :: IsAccepted(tree, root, files[i])
  }

  /** The text of an absolute path. */
  function RootText(root: Containment.Path): (text: string)
    ensures StartsWith(text, "/")
  {
    var text := "/" + if root == [] then "" else Join(root, '/');
    assert text[..1] == "/";
    text
  }

  /** How a snapshot's refusal reaches the caller. */
  function CoreOf(e: NulPaths.SnapshotError): CoreError {
    match e
    case TooLarge => CoreError.SnapshotTooLarge
    case Stale => SnapshotStale
    case _ => OtherSnapshot
  }

  /** What a look that is not fresh is answered with. */
  function StaleCode(o: Snapshots.Observation): CoreError {
    match Snapshots.Capture(o)
    case Ok(_) => SnapshotStale
    case Err(e) => CoreOf(e)
  }

  /** `validate_candidate`.  `current` says whether the repository still resolves to the same
      identity, `first` and `second` are the two looks at it, `applies` is what Git answers. */
  method ValidateCandidate(
      current: Result<bool, CoreError>, snapshot: Snapshots.Snapshot, first: Snapshots.Observation, raw: string,
      tree: Containment.Tree, root: Containment.Path, links: nat, applies: bool, second: Snapshots.Observation,
      sha: string -> string)
    returns (r: Result<Proposal, CoreError>)
    requires Containment.RealDir(tree, root)
    ensures r.Ok? ==>
              && r.value.root == RootText(root) && r.value.snapshot == snapshot && r.value.patch.raw == raw
              && ProposalOk(r.value) && AllAccepted(tree, root, r.value.patch.files)
    ensures r.Ok? <==>
              && current == Ok(true) && Fresh(first, snapshot, sha) && Fresh(second, snapshot, sha) && applies
              && Read(raw).Ok? && AllAccepted(tree, root, Summary(raw, Read(raw)).value.files)
    ensures current.Err? ==> r == Err(current.error)
    ensures current == Ok(false) ==> r == Err(OtherRepository)
    ensures current == Ok(true) && !Fresh(first, snapshot, sha) ==> r == Err(StaleCode(first))
    ensures r.Err? && current == Ok(true) && Fresh(first, snapshot, sha) ==>
              r.error == if Read(raw).Err? then BadDiff
                         else if !AllAccepted(tree, root, Summary(raw, Read(raw)).value.files) then OtherRepository
                         else if !applies then NotApplicable
                         else StaleCode(second)
  {
    if current.Err? {
      return Err(current.error);
    }
    if !current.value {
      return Err(OtherRepository);
    }
    hide AllAccepted, Containment.RealDir, WellFormed, Read, Fresh, StaleCode, RootText, IsPatch;
    var _ :- LookAgain(snapshot, first, sha);
    var parsed := Parse(raw);
    if parsed.Err? {
      return Err(BadDiff);
    }
    var patch := parsed.value;
    var accepted := ValidateChanges(tree, root, patch, links);
    if !accepted {
      return Err(OtherRepository);
    }
    if !applies {
      return Err(NotApplicable);
    }
    var _ :- LookAgain(snapshot, second, sha);
    return Ok(Proposal(RootText(root), patch, snapshot));
  }

  method LookAgain(snapshot: Snapshots.Snapshot, o: Snapshots.Observation, sha: string -> string)
    returns (r: Result<(), CoreError>)
    ensures r == if Fresh(o, snapshot, sha) then Ok(()) else Err(StaleCode(o))
  {
    hide Snapshots.Capture;
    var look := Snapshots.Revalidate(snapshot, o, sha);
    return if look.Ok? then Ok(()) else Err(CoreOf(look.error));
  }

  /** The file tree at a root and a disk show the same files. */
  ghost predicate Pictures(tree: Containment.Tree, root: Containment.Path, d: TransactionState.Disk) {
    forall path | SafePath(path) ::
      var l, at := TransactionState.Work(RootText(root), path), root + Components(path);
      && (at in tree && tree[at].File? ==>
            l in d && d[l].Data? && |d[l].bytes| == tree[at].len)
      && (at !in tree ==> l !in d)
  }

  /** What the walk over the tree accepts fits the disk at the proposal's own root: Apply finds
      there what was validated. */
  lemma AcceptedTargetsFit(tree: Containment.Tree, root: Containment.Path, d: TransactionState.Disk, q: Proposal)
    requires AllAccepted(tree, root, q.patch.files) && WellFormed(q.patch) && q.root == RootText(root)
    requires Pictures(tree, root, d)
    ensures TransactionState.TargetsFit(d, q.root, q.patch.files)
  {
    var files := q.patch.files;
    forall i | 0 <= i < |files| ensures TransactionState.TargetFits(d, q.root, files[i]) {
      assert IsAccepted(tree, root, files[i]) && SafePath(files[i].path);
    }
  }

  method ValidateChanges(tree: Containment.Tree, root: Containment.Path, patch: ParsedPatch, links: nat)
    returns (accepted: bool)
    requires Containment.RealDir(tree, root) && WellFormed(patch)
    ensures accepted <==> AllAccepted(tree, root, patch.files)
  {
    var files := patch.files;
    assert forall i | 0 <= i < |files| :: SafePath(files[i].path);
    hide WellFormed, SafePath, Components, Containment.RealDir, Containment.Accepted;
    for i := 0 to |files|
      invariant forall k | 0 <= k < i :: IsAccepted(tree, root, files[k])
    {
      var ok := Containment.ValidateChangePath(tree, root, files[i].path, files[i].kind, true, links);
      if ok.Err? {
        assert !IsAccepted(tree, root, files[i]);
        return false;
      }
    }
    return true;
  }

  /** The targets of one validated patch are different places, none inside another, and each is
      where its path says even with links followed. */
  lemma TargetsStandApart(tree: Containment.Tree, root: Containment.Path, patch: ParsedPatch, i: nat, k: nat, links: nat)
    requires Containment.RealDir(tree, root) && WellFormed(patch) && AllAccepted(tree, root, patch.files)
    requires i < |patch.files| && k < |patch.files| && i != k
    ensures var a, b := Components(patch.files[i].path), Components(patch.files[k].path);
            && a != b && !(a < b)
            && Containment.Resolve(tree, [], root + a, links)
               == if patch.files[i].kind == Add then Containment.Absent else Containment.At(root + a)
  {
    var x, y := patch.files[i], patch.files[k];
    var a, b := Components(x.path), Components(y.path);
    assert IsAccepted(tree, root, x) && IsAccepted(tree, root, y);
    Containment.AcceptedPathsStayInside(tree, root, x.path, x.kind, links);
    if a < b {
      Containment.AcceptedTargetsDoNotNest(tree, root, a, x.kind, b, y.kind);
    }
    JoinSplit(x.path, '/');
    JoinSplit(y.path, '/');
    assert x.path != y.path by {
      assert forall p, q | 0 <= p < q < |patch.files| :: patch.files[p].path != patch.files[q].path;
    }
  }
}
