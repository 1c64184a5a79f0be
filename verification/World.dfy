/** The disk an Apply runs on, one file operation at a time.  A schedule of fates decides of each
    operation whether it happens, fails without effect, or is cut off by a crash; once the
    schedule is used up every operation happens, but for the sync of a directory that cannot be
    synced. */
module Worlds {
  import opened Text
  import opened DiffGrammar
  import opened Journals
  import opened TransactionState
  import opened Recoverables
  import Snapshots

  datatype Fate = Proceed | Fault | Crash

  datatype Io = Done | Failed | Stopped

  datatype ApplyError =
    | State | Identifier | TransactionExists | Repository | Snapshot | Stale | Git | RecoveryRequired

  /** The result of a procedure, or none because a crash cut it off. */
  datatype Outcome<+T> = Success(value: T) | Failure(error: ApplyError) | Crashed {
    predicate IsFailure() {
      !Success?
    }

    function PropagateFailure<U>(): Outcome<U>
      requires IsFailure()
    {
      if Crashed? then Crashed else Failure(error)
    }

    function Extract(): T
      requires Success?
    {
      value
    }
  }

  /** `map_err` and `?` on one operation. */
  function Try(io: Io, error: ApplyError): Outcome<()> {
    match io
    case Done => Success(())
    case Failed => Failure(error)
    case Stopped => Crashed
  }

  const BUFFER_BYTES: nat := 8192

  /** What a look at the repository sees: now, and at the looks after it; the last one lasts. */
  datatype Sight = Sight(now: Snapshots.Observation, next: seq<Snapshots.Observation>)

  function Passed(s: Sight): Sight {
    if s.next == [] then s else Sight(s.next[0], s.next[1..])
  }

  /** The look after `k` others. */
  function Seen(s: Sight, k: nat): Snapshots.Observation
    decreases k
  {
    if k == 0 then s.now else Seen(Passed(s), k - 1)
  }

  /** The repository as it was when the snapshot was taken. */
  predicate Fresh(o: Snapshots.Observation, snapshot: Snapshots.Snapshot, sha: string -> string) {
    Snapshots.Sealed(Snapshots.Capture(o), sha) == Ok(snapshot)
  }

  /** What Git answers to the questions an Apply asks it, if it can be asked. */
  datatype Verdicts = Verdicts(operationSafe: bool, rootCheck: bool, stageCheck: bool, stageApply: bool)

  class World {
    var disk: Disk
    var dirs: set<string>
    var strays: bool
    var fates: seq<Fate>
    /** Directories that cannot be opened for a sync; the repository root is `Work(root, "")`. */
    var unsyncable: set<Loc>
    /** What the looks at the repository see. */
    var sight: Sight
    /** How many operations have failed. */
    ghost var failures: nat
    /** Transactions whose Committed journal has been put in place. */
    ghost var committed: set<string>
    const verdicts: Verdicts
    const sha: string -> string
    const digest: string -> string
    const sizeOf: Journal -> nat

    constructor (disk: Disk, fates: seq<Fate>, unsyncable: set<Loc>, sight: Sight, verdicts: Verdicts,
                 sha: string -> string, digest: string -> string, sizeOf: Journal -> nat)
      ensures this.disk == disk && dirs == {} && !strays && this.fates == fates && this.unsyncable == unsyncable
      ensures this.sight == sight && this.verdicts == verdicts && committed == {}
      ensures this.sha == sha && this.digest == digest && this.sizeOf == sizeOf
    {
      this.disk, dirs, strays, this.fates, this.unsyncable := disk, {}, false, fates, unsyncable;
      this.sight, this.verdicts := sight, verdicts;
      committed, failures := {}, 0;
      this.sha, this.digest, this.sizeOf := sha, digest, sizeOf;
    }

    /** Nothing fails from here on, but for the sync of an unsyncable directory. */
    ghost predicate Quiet()
      reads this
    {
      fates == []
    }

    // ---- single operations ----

    method Step() returns (io: Io)
      modifies this`fates, this`failures
      ensures failures == old(failures) + if io.Failed? then 1 else 0
      ensures old(Quiet()) ==> Quiet() && io == Done
    {
      if fates == [] {
        return Done;
      }
      var fate := fates[0];
      fates := fates[1..];
      match fate {
        case Proceed => return Done;
        case Fault =>
          failures := failures + 1;
          return Failed;
        case Crash => return Stopped;
      }
    }

    method Rename(src: Loc, dst: Loc) returns (io: Io)
      modifies this`fates, this`failures, this`disk, this`committed
      ensures io.Done? ==> src in old(disk) && disk == Moved(old(disk), src, dst)
      ensures io.Done? ==> committed == old(committed) + Commits(dst, old(disk)[src])
      ensures !io.Done? ==> disk == old(disk) && committed == old(committed)
      ensures failures == old(failures) + if io.Failed? then 1 else 0
      ensures old(Quiet()) ==> Quiet() && io == if src in old(disk) then Done else Failed
    {
      io := Step();
      if io.Done? {
        if src !in disk {
          failures := failures + 1;
          return Failed;
        }
        committed := committed + Commits(dst, disk[src]);
        disk := Moved(disk, src, dst);
      }
    }

    static ghost function Commits(dst: Loc, node: Node): set<string> {
      if dst.Tx? && dst.item == Record && node.Log? && node.journal.phase == Committed then {dst.id} else {}
    }

    method Remove(l: Loc) returns (io: Io)
      modifies this`fates, this`failures, this`disk
      ensures io.Done? ==> l in old(disk) && disk == old(disk) - {l}
      ensures !io.Done? ==> disk == old(disk)
      ensures failures == old(failures) + if io.Failed? then 1 else 0
      ensures old(Quiet()) ==> Quiet() && io == if l in old(disk) then Done else Failed
    {
      io := Step();
      if io.Done? {
        if l !in disk {
          failures := failures + 1;
          return Failed;
        }
        disk := disk - {l};
      }
    }

    /** `sync_directory` of a worktree directory. */
    method Sync(dir: Loc) returns (io: Io)
      modifies this`fates, this`failures
      ensures io.Done? ==> dir !in unsyncable
      ensures failures == old(failures) + if io.Failed? then 1 else 0
      ensures old(Quiet()) ==> Quiet() && io == if dir in unsyncable then Failed else Done
    {
      io := Step();
      if io.Done? && dir in unsyncable {
        failures := failures + 1;
        return Failed;
      }
    }

    /** What one step of a foreign process does to one of its files. */
    method Replace(l: Loc, node: Option<Node>) returns (io: Io)
      modifies this`fates, this`failures, this`disk
      ensures io.Done? ==> disk == if node.Some? then old(disk)[l := node.value] else old(disk) - {l}
      ensures !io.Done? ==> disk == old(disk)
      ensures failures == old(failures) + if io.Failed? then 1 else 0
      ensures old(Quiet()) ==> Quiet() && io == Done
    {
      io := Step();
      if io.Done? {
        disk := if node.Some? then disk[l := node.value] else disk - {l};
      }
    }

    /** A question to a foreign process; `answer` is what it says if it can be asked. */
    method Ask(answer: bool) returns (io: Io)
      modifies this`fates, this`failures
      ensures failures == old(failures) + if io.Failed? then 1 else 0
      ensures io.Done? ==> answer
      ensures old(Quiet()) ==> Quiet() && io == if answer then Done else Failed
    {
      io := Step();
      if io.Done? && !answer {
        failures := failures + 1;
        return Failed;
      }
    }

    /** One look at the repository. */
    method Look() returns (o: Snapshots.Observation)
      modifies this`sight
      ensures o == old(sight).now && sight == Passed(old(sight))
    {
      o := sight.now;
      sight := Passed(sight);
    }

    /** Opening with `create_new`. */
    method Create(l: Loc) returns (io: Io)
      modifies this`fates, this`failures, this`disk
      ensures io.Done? ==> l !in old(disk) && disk == old(disk)[l := Data("")]
      ensures !io.Done? ==> disk == old(disk)
      ensures failures == old(failures) + if io.Failed? then 1 else 0
      ensures old(Quiet()) ==> Quiet() && io == if l !in old(disk) then Done else Failed
    {
      io := Step();
      if io.Done? {
        if l in disk {
          failures := failures + 1;
          return Failed;
        }
        disk := disk[l := Data("")];
      }
    }

    /** Writing to an open file. */
    method Write(l: Loc, node: Node) returns (io: Io)
      requires l in disk
      modifies this`fates, this`failures, this`disk
      ensures io.Done? ==> disk == old(disk)[l := node]
      ensures !io.Done? ==> disk == old(disk)
      ensures failures == old(failures) + if io.Failed? then 1 else 0
      ensures old(Quiet()) ==> Quiet() && io == Done
    {
      io := Step();
      if io.Done? {
        disk := disk[l := node];
      }
    }

    // ---- files ----

    /** `hash_file`: an ordinary file of bounded size, or an error.  Links are not followed.  The
        reads add up to what the metadata said, so the second look at the bound finds nothing. */
    method HashFile(l: Loc) returns (r: Outcome<string>)
      modifies this`fates, this`failures
      ensures r.Success? ==> failures == old(failures)
      ensures r.Success? ==> HashIs(disk, l, Some(r.value), digest)
      ensures r.Failure? ==> r.error == State
      ensures old(Quiet()) ==> Quiet() && !r.Crashed?
      ensures old(Quiet()) && l in disk && disk[l].Data? && |disk[l].bytes| <= MAX_RESULT_FILE_BYTES ==> r.Success?
    {
      var io := Step();
      var _ :- Try(io, State);
      if l !in disk || !disk[l].Data? || |disk[l].bytes| > MAX_RESULT_FILE_BYTES {
        return Failure(State);
      }
      var content := disk[l].bytes;
      var hashed, total := "", 0;
      while total < |content|
        invariant total <= |content| && hashed == content[..total]
        invariant old(Quiet()) ==> Quiet()
        invariant failures == old(failures)
      {
        io := Step();
        var _ :- Try(io, State);
        var count: nat :| 1 <= count <= BUFFER_BYTES && total + count <= |content|;
        assert hashed + content[total..total + count] == content[..total + count];
        total := total + count;
        assert total <= MAX_RESULT_FILE_BYTES;
        hashed := hashed + content[total - count..total];
      }
      assert hashed == content;
      return Success(digest(hashed));
    }

    static lemma OnlyThere(d: Disk, d': Disk, l: Loc)
      requires d' - {l} == d - {l} && l in d'
      ensures d' == d[l := d'[l]]
    {
      assert forall x | x in d' && x != l :: x in d' - {l};
      assert forall x | x in d && x != l :: x in d - {l};
    }

    /** What opening a place for reading gives; a link is followed. */
    static function Readable(d: Disk, l: Loc): Option<string> {
      if l !in d || d[l].Log? then None else if d[l].Data? then Some(d[l].bytes) else d[l].content
    }

    /** `copy_file_bounded`: reads of any size up to the buffer, each checked against the bound
        before it is written.  A cut leaves a partial destination and touches nothing else. */
    method CopyFileBounded(src: Loc, dst: Loc, max: nat) returns (r: Outcome<nat>)
      requires src != dst
      modifies this`fates, this`failures, this`disk
      ensures r.Success? ==> failures == old(failures)
      ensures disk - {dst} == old(disk) - {dst}
      ensures dst in old(disk) ==> disk == old(disk) && !r.Success?
      ensures dst !in old(disk) && dst in disk ==> disk[dst].Data?
      ensures r.Success? ==>
                var content := Readable(old(disk), src);
                && content.Some? && |content.value| <= max
                && disk == old(disk)[dst := Data(content.value)] && r.value == |content.value|
      ensures r.Failure? ==> r.error == State
      ensures old(Quiet()) ==> Quiet() && !r.Crashed?
      ensures (old(Quiet()) && dst !in old(disk)
               && Readable(old(disk), src).Some? && |Readable(old(disk), src).value| <= max) ==> r.Success?
    {
      var io := Step();
      var _ :- Try(io, State);
      var source := Readable(disk, src);
      if source.None? {
        return Failure(State);
      }
      io := Create(dst);
      var _ :- Try(io, State);
      var input := source.value;
      var total := 0;
      while total < |input|
        invariant total <= |input| && total <= max
        invariant dst in disk && disk[dst] == Data(input[..total])
        invariant disk - {dst} == old(disk) - {dst}
        invariant old(Quiet()) ==> Quiet()
        invariant failures == old(failures)
      {
        var count: nat :| 1 <= count <= BUFFER_BYTES && total + count <= |input|;
        io := Step();
        var _ :- Try(io, State);
        if total + count > max {
          return Failure(State);
        }
        io := Write(dst, Data(input[..total] + input[total..total + count]));
        var _ :- Try(io, State);
        assert input[..total] + input[total..total + count] == input[..total + count];
        total := total + count;
      }
      assert input[..total] == input;
      OnlyThere(old(disk), disk, dst);
      io := Step();
      var _ :- Try(io, State);
      return Success(total);
    }
  }
}
