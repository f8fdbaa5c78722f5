/** Stopping the recorded engine, while other processes start and exit and reuse its number. */
module ProcessStop {
  import opened Texts
  import opened ProcessRecords
  import opened ProcessManager

  datatype StopStatus = Stopped | NotRunning | IdentityMismatch | Failed

  datatype Process = Process(creationTime: nat, image: string)

  /** The process is the recorded one: its creation time and, up to case, its image. */
  predicate IsRecorded(p: Process, r: Record) { p.creationTime == r.creationTime && SameImage(p.image, r.image) }

  /** All processes by number, the record file, the handle that the manager has open, what the
      manager has ended, and the live processes that it took for dead ones.  `failed` says that some
      call has not answered or done what it was asked for, and `steady` that the process `subject`
      was alive at every call. */
  class Processes {
    var live: map<nat, Process>
    var stored: Option<Record>
    var handle: Option<Record>
    ghost var ended: seq<Record>
    ghost var missed: seq<Process>
    ghost const subject: Option<Record>
    ghost var failed: bool
    ghost var steady: bool

    constructor (live: map<nat, Process>, stored: Option<Record>, ghost subject: Option<Record>)
      ensures this.live == live && this.stored == stored && handle == None && ended == [] && missed == []
      ensures this.subject == subject && !failed && steady
    {
      this.live, this.stored, handle, ended, missed := live, stored, None, [], [];
      this.subject, failed, steady := subject, false, true;
    }

    /** An open handle keeps the number of its process from being given to another one. */
    ghost predicate Valid()
      reads this
    {
      handle.Some? && handle.value.pid in live ==>
        live[handle.value.pid] == Process(handle.value.creationTime, handle.value.image)
    }

    /** Any processes exit and any others start, between any two queries. */
    method Drift()
      requires Valid()
      modifies `live, `steady
      ensures Valid() && steady == (old(steady) && IsThere())
    {
      var next: map<nat, Process> := *;
      if handle.Some? {
        var pid, exits: bool := handle.value.pid, *;
        next := next - {pid};
        if !exits && pid in live { next := next[pid := live[pid]]; }
      }
      live := next;
      steady := steady && IsThere();
    }

    /** The process in question is alive. */
    ghost predicate IsThere()
      reads this
    {
      subject.Some? && subject.value.pid in live && IsRecorded(live[subject.value.pid], subject.value)
    }

    /** A process that cannot be opened is taken for a dead one. */
    method IsAlive(pid: nat) returns (alive: bool)
      requires Valid()
      modifies `live, `steady, `missed, `failed
      ensures Valid() && (alive ==> pid in live)
      ensures steady == (old(steady) && IsThere()) && failed == (old(failed) || (!alive && pid in live))
      ensures missed == if !alive && pid in live then old(missed) + [live[pid]] else old(missed)
    {
      Drift();
      var granted: bool := *;
      alive := granted && pid in live;
      if !alive && pid in live {
        missed := missed + [live[pid]];
        failed := true;
      }
    }

    /** A query by number, which sees whatever process has it now; it may also fail. */
    method Query(pid: nat) returns (p: Option<Process>)
      requires Valid()
      modifies `live, `steady, `failed
      ensures Valid() && (p.Some? ==> pid in live && live[pid] == p.value)
      ensures steady == (old(steady) && IsThere()) && failed == (old(failed) || (p.None? && pid in live))
    {
      Drift();
      var answers: bool := *;
      p := if answers && pid in live then Some(live[pid]) else None;
      failed := failed || (p.None? && pid in live);
    }

    method OpenProcess(pid: nat) returns (ok: bool)
      requires Valid() && handle.None?
      modifies `live, `steady, `handle, `failed
      ensures Valid() && (ok ==> handle.Some? && handle.value.pid == pid) && (!ok ==> handle.None?)
      ensures ok ==> pid in live && handle == Some(Record(pid, live[pid].creationTime, live[pid].image))
      ensures steady == (old(steady) && IsThere()) && failed == (old(failed) || (!ok && pid in live))
    {
      Drift();
      var granted: bool := *;
      ok := granted && pid in live;
      failed := failed || (!ok && pid in live);
      if ok { handle := Some(Record(pid, live[pid].creationTime, live[pid].image)); }
    }

    /** A query on the handle, which sees its process whatever has become of it. */
    method QueryHandle() returns (r: Option<Record>)
      requires Valid() && handle.Some?
      modifies `live, `steady, `failed
      ensures Valid() && (r.Some? ==> r == handle)
      ensures steady == (old(steady) && IsThere()) && failed == (old(failed) || r.None?)
    {
      Drift();
      var answers: bool := *;
      r := if answers then handle else None;
      failed := failed || r.None?;
    }

    method Terminate() returns (ok: bool)
      requires Valid() && handle.Some?
      modifies `live, `steady, `ended, `failed
      ensures Valid() && ended == if ok then old(ended) + [handle.value] else old(ended)
      ensures (steady ==> old(steady)) && failed == (old(failed) || !ok)
    {
      Drift();
      ok := *;
      failed := failed || !ok;
      if ok {
        live := live - {handle.value.pid};
        ended := ended + [handle.value];
      }
    }

    method CloseHandle()
      requires Valid()
      modifies `handle
      ensures Valid() && handle.None?
    {
      handle := None;
    }

    method DeleteRecord()
      modifies `stored
      ensures stored == None || stored == old(stored)
    {
      var deleted: bool := *;
      if deleted { stored := None; }
    }
  }

  /** `IdentityMatches`: the number, the creation time and the image, each queried by itself. */
  method IdentityMatches(r: Record, ps: Processes) returns (matches: bool)
    requires ps.Valid()
    modifies ps`live, ps`steady, ps`missed, ps`failed
    ensures ps.Valid() && (ps.steady ==> old(ps.steady)) && (old(ps.failed) ==> ps.failed)
    ensures ProcessRecords.Valid(r) && ps.subject == Some(r) && ps.steady && !ps.failed ==> matches
    ensures matches ==> ProcessRecords.Valid(r) && r.pid in ps.live && SameImage(ps.live[r.pid].image, r.image)
  {
    if !ProcessRecords.Valid(r) { return false; }
    var alive := ps.IsAlive(r.pid);
    if !alive { return false; }
    var time := ps.Query(r.pid);
    if time.None? || time.value.creationTime != r.creationTime { return false; }
    var image := ps.Query(r.pid);
    if image.None? { return false; }
    matches := SameImage(image.value.image, r.image);
  }

  class Stopper {
    const root: string
    var record: Option<Record>

    constructor (root: string, record: Option<Record>)
      ensures this.root == root && this.record == record
    {
      this.root, this.record := root, record;
    }

    /** Ends at most one process, and only the one that the record names: its number, its
        creation time and its image are the recorded ones, and the image is an engine under the
        runtime root.  The record is given up only when the process is gone, or was taken for gone
        while alive: then it is given up although the process lives on.  When no call fails and the
        recorded engine is there until it is ended, the answer is Stopped. */
    method Stop(ps: Processes, confirmed: bool) returns (status: StopStatus)
      requires ps.Valid() && ps.handle.None? && ps.subject == record && ps.steady && !ps.failed
      modifies ps, `record
      ensures old(record).Some? && ProcessRecords.Valid(old(record).value)
              && IsExpectedWinwsImage(old(record).value.image, root) && ps.steady && !ps.failed && confirmed
              ==> status == Stopped
      ensures ps.Valid() && ps.handle.None?
      ensures ps.ended == old(ps.ended) || EndedRecorded(old(ps.ended), ps.ended, old(record), root)
      ensures status == Stopped ==> EndedRecorded(old(ps.ended), ps.ended, old(record), root) && record == None
      ensures status.NotRunning? || status.IdentityMismatch? ==> ps.ended == old(ps.ended)
      ensures status.IdentityMismatch? || status.Failed? ==> record == old(record) && ps.stored == old(ps.stored)
      ensures status.NotRunning? && record != old(record) ==>
                old(record).Some? && (old(record).value.pid !in ps.live
                                      || ps.missed == old(ps.missed) + [ps.live[old(record).value.pid]])
      ensures status.NotRunning? ==> record == None || (record == old(record) && !ProcessRecords.Valid(record.value))
    {
      if record.None? || !ProcessRecords.Valid(record.value) { return NotRunning; }
      var r := record.value;
      if !IsExpectedWinwsImage(r.image, root) { return IdentityMismatch; }
      hide IsExpectedWinwsImage, Lower;
      var alive := ps.IsAlive(r.pid);
      if !alive {
        ps.DeleteRecord();
        record := None;
        return NotRunning;
      }
      var matches := IdentityMatches(r, ps);
      if !matches { return IdentityMismatch; }
      var granted := ps.OpenProcess(r.pid);
      if !granted { return Failed; }
      var id := ps.QueryHandle();
      if id.None? || id.value.creationTime != r.creationTime || !SameImage(id.value.image, r.image) {
        ps.CloseHandle();
        return IdentityMismatch;
      }
      SameImageExpected(id.value.image, r.image, root);
      var done := ps.Terminate();
      if !done || !confirmed {
        ps.CloseHandle();
        return Failed;
      }
      ps.CloseHandle();
      ps.DeleteRecord();
      record := None;
      return Stopped;
    }
  }

  /** One more process has been ended, and it is the recorded one. */
  ghost predicate EndedRecorded(before: seq<Record>, after: seq<Record>, record: Option<Record>, root: string) {
    && record.Some? && |after| == |before| + 1 && after[..|before|] == before
    && after[|before|].pid == record.value.pid && after[|before|].creationTime == record.value.creationTime
    && SameImage(after[|before|].image, record.value.image) && IsExpectedWinwsImage(after[|before|].image, root)
  }

  lemma SameImageExpected(a: string, b: string, root: string)
    requires SameImage(a, b)
    ensures IsExpectedWinwsImage(a, root) == IsExpectedWinwsImage(b, root)
  {
    hide Framed;
    assert |Lower(a)| == |a| && |Lower(b)| == |b|;
  }
}
