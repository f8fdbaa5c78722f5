/** Starting and stopping the engine process: the start as a transaction over a job object, the
    stop over process identities. */
module ProcessManager {
  import opened Texts
  import opened ProcessRecords

  // ---- IsExpectedWinwsImage -----------------------------------------------------------------

  const SUFFIX: string := "\\bin\\winws.exe"

  /** The runtime root with its separator, folded. */
  function FoldedRoot(root: string): string {
    var r := Lower(root);
    if r != "" && r[|r| - 1] != '\\' then r + "\\" else r
  }

  /** The folded image starts with the folded root and ends with the engine's place under it. */
  predicate IsExpectedWinwsImage(image: string, root: string) {
    image != "" && root != "" && Framed(Lower(image), FoldedRoot(root))
  }

  predicate Framed(l: string, r: string) {
    r <= l && |SUFFIX| <= |l| && l[|l| - |SUFFIX|..] == SUFFIX
  }

  /** `l` is `r`, some text and the suffix. */
  predicate Below(l: string, r: string) {
    |r| + |SUFFIX| <= |l| && l == r + l[|r|..|l| - |SUFFIX|] + SUFFIX
  }

  predicate EndsInBin(r: string) { |r| >= 5 && r[|r| - 5..] == SUFFIX[..5] }

  /** Up to case, the expected images are the root followed by a path to an engine, by
      `bin\winws.exe` itself, or by `winws.exe` if the root is a `bin` directory. */
  lemma ExpectedExactly(image: string, root: string)
    requires root != ""
    ensures var l, r := Lower(image), FoldedRoot(root);
            IsExpectedWinwsImage(image, root)
            <==> (exists middle: string :: l == r + middle + "\\bin\\winws.exe")
                 || l == r + "bin\\winws.exe" || (l == r + "winws.exe" && |r| >= 5 && r[|r| - 5..] == "\\bin\\")
  {
    SuffixParts();
    hide Lower, FoldedRoot, Below, Framed, SUFFIX;
    var l, r := Lower(image), FoldedRoot(root);
    BelowExactly(l, r);
    RootEnds(root);
    if Framed(l, r) { FramedParts(l, r); }
    if Below(l, r) { BelowFramed(l, r); }
    if l == r + SUFFIX[1..] { MeetsAtSeparator(r); }
    if l == r + SUFFIX[5..] && EndsInBin(r) { MeetsAtBin(r); }
  }

  lemma SuffixParts()
    ensures SUFFIX[1..] == "bin\\winws.exe" && SUFFIX[5..] == "winws.exe" && SUFFIX[..5] == "\\bin\\"
  {}

  lemma BelowExactly(l: string, r: string)
    ensures Below(l, r) <==> exists middle: string :: l == r + middle + "\\bin\\winws.exe"
  {
    if middle: string :| l == r + middle + "\\bin\\winws.exe" {
      assert l[|r|..|l| - |SUFFIX|] == middle;
    }
  }

  lemma RootEnds(root: string)
    requires root != ""
    ensures var r := FoldedRoot(root); r != "" && r[|r| - 1] == '\\'
    ensures |SUFFIX| == 14
  {}

  lemma BelowFramed(l: string, r: string)
    requires Below(l, r)
    ensures Framed(l, r) && l != ""
  {
    var front := r + l[|r|..|l| - |SUFFIX|];
    assert l[|front|..] == SUFFIX;
  }

  /** The suffix whose first k characters are the end of `r`. */
  lemma Meets(r: string, k: nat)
    requires k <= |SUFFIX| && k <= |r| && r[|r| - k..] == SUFFIX[..k]
    ensures Framed(r + SUFFIX[k..], r) && r + SUFFIX[k..] != ""
  {
    var l := r + SUFFIX[k..];
    assert l[|l| - |SUFFIX|..] == r[|r| - k..] + SUFFIX[k..];
  }

  lemma MeetsAtSeparator(r: string)
    requires r != "" && r[|r| - 1] == '\\'
    ensures Framed(r + SUFFIX[1..], r) && r + SUFFIX[1..] != ""
  {
    assert r[|r| - 1..] == SUFFIX[..1];
    Meets(r, 1);
  }

  lemma MeetsAtBin(r: string)
    requires EndsInBin(r)
    ensures Framed(r + SUFFIX[5..], r) && r + SUFFIX[5..] != ""
  {
    Meets(r, 5);
  }

  lemma SuffixSeparators(k: nat)
    requires 0 < k <= |SUFFIX| && SUFFIX[k - 1] == '\\'
    ensures k == 1 || k == 5
  {}

  /** Where the root and the suffix may meet. */
  lemma FramedParts(l: string, r: string)
    requires Framed(l, r) && r != "" && r[|r| - 1] == '\\'
    ensures Below(l, r) || l == r + SUFFIX[1..] || (l == r + SUFFIX[5..] && EndsInBin(r))
  {
    var at := |l| - |SUFFIX|;
    var tail := l[at..];
    hide SUFFIX;
    if |r| <= at {
      assert l == l[..|r|] + l[|r|..at] + tail;
    } else {
      var k := |r| - at;
      assert SUFFIX[k - 1] == tail[k - 1] == l[|r| - 1] == r[|r| - 1];
      SuffixSeparators(k);
      assert l == l[..|r|] + l[|r|..] && l[|r|..] == tail[k..];
      if k == 5 { assert r[|r| - 5..] == l[at..|r|] == tail[..5]; }
    }
  }

  // ---- the kernel, as a start sees it --------------------------------------------------------

  /** The process that a start creates. */
  datatype Child = NoChild | Child(id: Record, alive: bool, resumed: bool, inJob: bool)

  /** The job object of a start, while its handle is open. */
  datatype Job = NoJob | Job(killOnClose: bool)

  /** What a crash of the launcher finds: the handles close, the record stays on disk. */
  datatype Moment = Moment(child: Child, job: Job, stored: Option<Record>)

  /** The child is still running after the launcher has ended at this moment. */
  predicate LeavesEngine(m: Moment) {
    m.child.Child? && m.child.alive && m.child.resumed && !(m.child.inJob && m.job == Job(true))
  }

  /** Whoever starts the launcher next can recognise the running engine: the record on disk names
      it, and it is the image that was asked for, under the runtime root. */
  predicate Recognised(m: Moment, exe: string, root: string) {
    m.child.Child? ==> m.stored == Some(m.child.id) && SameImage(m.child.id.image, exe)
                       && IsExpectedWinwsImage(m.child.id.image, root)
  }

  /** Every moment leaves no running engine, or one that the next launcher recognises. */
  ghost predicate CrashSafe(history: seq<Moment>, exe: string, root: string) {
    forall i | 0 <= i < |history| :: LeavesEngine(history[i]) ==> Recognised(history[i], exe, root)
  }

  ghost predicate LeavesNone(history: seq<Moment>) {
    forall i | 0 <= i < |history| :: !LeavesEngine(history[i])
  }

  lemma MomentsSnoc(h: seq<Moment>, m: Moment, exe: string, root: string)
    ensures CrashSafe(h + [m], exe, root) == (CrashSafe(h, exe, root) && (LeavesEngine(m) ==> Recognised(m, exe, root)))
    ensures LeavesNone(h + [m]) == (LeavesNone(h) && !LeavesEngine(m))
  {
    hide LeavesEngine, Recognised;
    var all := h + [m];
    assert all[|h|] == m && forall i | 0 <= i < |h| :: all[i] == h[i];
  }

  /** The kernel and the record file during one start of the engine `exe`.  `history` holds a
      moment for every effect; `safe` and `quiet` say what holds of all of them.  `worked` says that
      no call has failed, `exited` that the child has exited by itself, and `confirmed` that it has been found alive with
      its identity. */
  class Kernel {
    ghost const exe: string
    ghost const root: string
    var child: Child
    var job: Job
    var stored: Option<Record>
    ghost var history: seq<Moment>
    ghost var safe: bool
    ghost var quiet: bool
    ghost var worked: bool
    ghost var exited: bool
    ghost var confirmed: bool

    ghost predicate Valid()
      reads this
    {
      safe == CrashSafe(history, exe, root) && quiet == LeavesNone(history)
    }

    constructor (exe: string, root: string, stored: Option<Record>)
      ensures Valid() && child == NoChild && job == NoJob && this.stored == stored && history == [] && safe && quiet && worked && !exited && !confirmed
      ensures this.exe == exe && this.root == root
    {
      this.exe, this.root := exe, root;
      child, job, this.stored, history, safe, quiet := NoChild, NoJob, stored, [], true, true;
      worked, exited, confirmed := true, false, false;
    }

    function Now(): Moment
      reads this
    {
      Moment(child, job, stored)
    }

    /** What every effect adds to the record of what happened. */
    twostate predicate Logged()
      reads this
    {
      && history == old(history) + [Now()]
      && safe == (old(safe) && (LeavesEngine(Now()) ==> Recognised(Now(), exe, root)))
      && quiet == (old(quiet) && !LeavesEngine(Now()))
    }

    ghost method Log()
      requires Valid()
      modifies `history, `safe, `quiet
      ensures Valid() && Logged()
    {
      MomentsSnoc(history, Now(), exe, root);
      history := history + [Now()];
      safe := safe && (LeavesEngine(Now()) ==> Recognised(Now(), exe, root));
      quiet := quiet && !LeavesEngine(Now());
    }

    /** The child may exit at any time. */
    method Drift()
      requires Valid()
      modifies `child, `history, `safe, `quiet, `exited
      ensures child == old(child) || (old(child).Child? && child == old(child).(alive := false) && exited)
      ensures (old(exited) ==> exited) && Valid() && Logged()
    {
      var exits: bool := *;
      if exits && child.Child? {
        child := child.(alive := false);
        exited := true;
      }
      Log();
    }

    method CreateJob() returns (ok: bool)
      requires Valid()
      modifies `job, `history, `safe, `quiet, `worked
      ensures job == (if ok then Job(false) else NoJob) && Valid() && Logged()
      ensures worked == (old(worked) && ok)
    {
      ok := *;
      worked := worked && ok;
      job := if ok then Job(false) else NoJob;
      Log();
    }

    method SetKillOnClose(kill: bool) returns (ok: bool)
      requires job.Job?
      requires Valid()
      modifies `job, `history, `safe, `quiet, `worked
      ensures job == (if ok then Job(kill) else old(job)) && Valid() && Logged()
      ensures worked == (old(worked) && ok)
    {
      ok := *;
      worked := worked && ok;
      if ok { job := Job(kill); }
      Log();
    }

    /** A suspended process of any image that the system may have chosen. */
    method CreateSuspended() returns (ok: bool)
      requires Valid()
      modifies `child, `history, `safe, `quiet, `worked
      ensures ok ==> child.Child? && child.alive && !child.resumed && !child.inJob
      ensures !ok ==> child == NoChild
      ensures Valid() && Logged() && worked == (old(worked) && ok)
    {
      ok := *;
      worked := worked && ok;
      var id: Record := *;
      child := if ok then Child(id, true, false, false) else NoChild;
      Log();
    }

    method AssignToJob() returns (ok: bool)
      requires child.Child? && job.Job?
      requires Valid()
      modifies `child, `history, `safe, `quiet, `worked
      ensures child == (if ok then old(child).(inJob := true) else old(child)) && Valid() && Logged()
      ensures worked == (old(worked) && ok)
    {
      ok := *;
      worked := worked && ok;
      if ok { child := child.(inJob := true); }
      Log();
    }

    /** What the child's own handle says of its identity. */
    method Query() returns (id: Option<Record>)
      requires child.Child? && Valid()
      modifies `worked
      ensures id.Some? ==> id.value == child.id
      ensures Valid() && worked == (old(worked) && id.Some?)
    {
      var answers: bool := *;
      worked := worked && answers;
      id := if answers then Some(child.id) else None;
    }

    method Resume() returns (ok: bool)
      requires child.Child?
      requires Valid()
      modifies `child, `history, `safe, `quiet, `worked
      ensures child == (if ok then old(child).(resumed := true) else old(child)) && Valid() && Logged()
      ensures worked == (old(worked) && ok)
    {
      ok := *;
      worked := worked && ok;
      if ok { child := child.(resumed := true); }
      Log();
    }

    /** `TerminateProcess`, which may fail. */
    method Terminate()
      requires child.Child?
      requires Valid()
      modifies `child, `history, `safe, `quiet
      ensures child == old(child) || child == old(child).(alive := false)
      ensures Valid() && Logged()
    {
      var effective: bool := *;
      if effective { child := child.(alive := false); }
      Log();
    }

    /** Closing the last handle of a kill-on-close job ends what is in it. */
    method CloseJob()
      requires Valid()
      modifies `child, `job, `history, `safe, `quiet
      ensures job == NoJob && Valid() && Logged()
      ensures child == if old(child).Child? && old(child).inJob && old(job) == Job(true)
                       then old(child).(alive := false) else old(child)
    {
      if child.Child? && child.inJob && job == Job(true) { child := child.(alive := false); }
      job := NoJob;
      Log();
    }

    /** `SaveRecord`: a failure may come after the file has been replaced. */
    method SaveRecord(r: Record) returns (ok: bool)
      requires Valid()
      modifies `stored, `history, `safe, `quiet, `worked
      ensures stored == old(stored) || stored == Some(r)
      ensures ok ==> stored == Some(r)
      ensures Valid() && Logged() && worked == (old(worked) && ok)
    {
      ok := *;
      worked := worked && ok;
      var replaced: bool := *;
      if ok || replaced { stored := Some(r); }
      Log();
    }

    method DeleteRecord()
      requires Valid()
      modifies `stored, `history, `safe, `quiet
      ensures stored == None || stored == old(stored)
      ensures Valid() && Logged()
    {
      var deleted: bool := *;
      if deleted { stored := None; }
      Log();
    }

    /** `IdentityMatches`: the child is alive and is the recorded process.  It may fail to answer. */
    method IdentityMatches(r: Record) returns (matches: bool)
      requires child.Child? && Valid()
      modifies `worked, `confirmed
      ensures matches ==> child.alive && r == child.id
      ensures confirmed == (old(confirmed) || matches)
      ensures Valid() && worked == (old(worked) && (child.alive && r == child.id ==> matches))
    {
      var answers: bool := *;
      matches := answers && child.alive && r == child.id;
      worked := worked && (child.alive && r == child.id ==> matches);
      confirmed := confirmed || matches;
    }
  }

  // ---- Start -----------------------------------------------------------------------------------

  datatype StartStatus =
    | Ok | InvalidExecutable | RedirectFailed | JobFailed | CreateFailed | AssignJobFailed
    | ResumeFailed | IdentityFailed | ExitedEarly | RecordFailed

  datatype Waited = Exited | TimedOut | WaitFailed

  /** The process is of the image that was asked for, under the runtime root. */
  predicate IsAsked(id: Record, exe: string, root: string) {
    SameImage(id.image, exe) && IsExpectedWinwsImage(id.image, root)
  }

  class Manager {
    const root: string
    var record: Option<Record>

    constructor (root: string)
      ensures this.root == root && record == None
    {
      this.root, record := root, None;
    }

    /** The rollback of a start: terminate, close the job, drop the record. */
    method Rollback(k: Kernel)
      requires k.Valid() && k.child.Child? && (k.child.resumed ==> k.child.inJob && k.job == Job(true))
      modifies k, `record
      ensures k.Valid() && k.safe == old(k.safe) && k.quiet == old(k.quiet)
      ensures record == None && k.job == NoJob
      ensures k.child.Child? && k.child.id == old(k.child).id && k.child.resumed == old(k.child).resumed
      ensures old(k.child).inJob && old(k.job) == Job(true) ==> !k.child.alive
      ensures k.worked == old(k.worked) && (old(k.exited) ==> k.exited)
    {
      hide k.Valid;
      k.Terminate();
      k.CloseJob();
      k.Drift();
      k.DeleteRecord();
      record := None;
    }

    /** The start as a transaction.  A launcher that ends anywhere in it leaves no running engine,
        or one that the record on disk names.  If the start fails, no moment of it leaves a
        running engine, and once the child was in the job it is dead, even where terminating it
        failed.  If it succeeds, the child runs after the wait, its identity was checked, and the
        record names it.  It succeeds whenever no call failed, the child that the system made is the
        one that was asked for, and it has not exited. */
    method Start(k: Kernel, exe: string, validExecutable: bool, redirected: bool, attributes: bool, waited: Waited)
      returns (status: StartStatus, ghost inJob: bool)
      requires k.Valid() && k.exe == exe && k.root == root && k.history == [] && k.child.NoChild? && k.job.NoJob?
      requires k.worked && !k.exited
      modifies k, `record
      ensures CrashSafe(k.history, exe, root)
      ensures status != Ok ==> LeavesNone(k.history) && k.job == NoJob
      ensures status != Ok && inJob ==> k.child.Child? && !k.child.alive && record == None
      ensures status != Ok && !inJob && k.child.Child? ==> !k.child.resumed
      ensures status == Ok ==> k.child.Child? && k.child.resumed && k.child.inJob && k.job == Job(false)
      ensures status == Ok ==> record == Some(k.child.id) && Recognised(k.Now(), exe, root)
      ensures status == Ok ==> waited == TimedOut && k.confirmed && k.worked
      ensures status == InvalidExecutable <==> !validExecutable || !IsExpectedWinwsImage(exe, root)
      ensures status == RedirectFailed <==> validExecutable && IsExpectedWinwsImage(exe, root) && !redirected
      ensures validExecutable && IsExpectedWinwsImage(exe, root) && redirected && attributes && k.worked ==>
                k.child.Child? && (IsAsked(k.child.id, exe, root) && waited == TimedOut && !k.exited ==> status == Ok)
    {
      assert k.safe && k.quiet;
      inJob := false;
      if !validExecutable || !IsExpectedWinwsImage(exe, root) { return InvalidExecutable, false; }
      if !redirected { return RedirectFailed, false; }
      if !attributes { return CreateFailed, false; }
      var ok := k.CreateJob();
      if !ok { return JobFailed, false; }
      ok := k.SetKillOnClose(true);
      if !ok {
        k.CloseJob();
        return JobFailed, false;
      }
      ok := k.CreateSuspended();
      if !ok {
        k.CloseJob();
        return CreateFailed, false;
      }
      status, inJob := Launch(k, exe, waited);
    }

    /** The child has been created, suspended. */
    method Launch(k: Kernel, exe: string, waited: Waited) returns (status: StartStatus, ghost inJob: bool)
      requires k.Valid() && k.exe == exe && k.root == root && k.safe && k.quiet
      requires k.child.Child? && !k.child.inJob && !k.child.resumed && k.job == Job(true)
      requires k.child.alive || k.exited
      modifies k, `record
      ensures k.child.Child? && k.child.id == old(k.child).id && (k.worked ==> old(k.worked))
      ensures status == Ok ==> waited == TimedOut && k.confirmed && k.worked == old(k.worked)
      ensures IsAsked(k.child.id, exe, root) && waited == TimedOut && !k.exited && k.worked ==> status == Ok
      ensures status != InvalidExecutable && status != RedirectFailed
      ensures k.Valid() && k.safe && (status != Ok ==> k.quiet && k.job == NoJob)
      ensures status != Ok && inJob ==> k.child.Child? && !k.child.alive && record == None
      ensures status != Ok && !inJob ==> k.child.Child? && !k.child.resumed
      ensures status == Ok ==> k.child.Child? && k.child.resumed && k.child.inJob && k.job == Job(false)
      ensures status == Ok ==> record == Some(k.child.id) && Recognised(k.Now(), exe, root)
    {
      hide k.Valid, IsExpectedWinwsImage, Lower;
      var ok := k.AssignToJob();
      if !ok {
        Rollback(k);
        return AssignJobFailed, false;
      }
      inJob := true;
      var id := k.Query();
      if id.None? || !SameImage(id.value.image, exe) || !IsExpectedWinwsImage(id.value.image, root) {
        Rollback(k);
        return IdentityFailed, true;
      }
      record := id;
      status := Commit(k, exe, waited);
    }

    /** The child is in the job and its identity is pinned. */
    method Commit(k: Kernel, exe: string, waited: Waited) returns (status: StartStatus)
      requires k.Valid() && k.exe == exe && k.root == root && k.safe && k.quiet
      requires k.child.Child? && k.child.inJob && !k.child.resumed && k.job == Job(true)
      requires record == Some(k.child.id)
      requires SameImage(k.child.id.image, exe) && IsExpectedWinwsImage(k.child.id.image, root)
      requires k.child.alive || k.exited
      modifies k, `record
      ensures k.child.Child? && k.child.id == old(k.child).id && (k.worked ==> old(k.worked))
      ensures status == Ok ==> waited == TimedOut && k.confirmed && k.worked == old(k.worked)
      ensures waited == TimedOut && !k.exited && k.worked ==> status == Ok
      ensures status != InvalidExecutable && status != RedirectFailed
      ensures k.Valid() && k.safe && (status != Ok ==> k.quiet && k.job == NoJob)
      ensures status != Ok ==> k.child.Child? && !k.child.alive && record == None
      ensures status == Ok ==> k.child.Child? && k.child.resumed && k.child.inJob && k.job == Job(false)
      ensures status == Ok ==> record == Some(k.child.id) && Recognised(k.Now(), exe, root)
    {
      hide k.Valid, IsExpectedWinwsImage, SameImage;
      var ok := k.Resume();
      if !ok {
        Rollback(k);
        return ResumeFailed;
      }
      k.Drift();
      if waited.Exited? {
        k.DeleteRecord();
        k.CloseJob();
        record := None;
        return ExitedEarly;
      }
      var matches := k.IdentityMatches(record.value);
      if !waited.TimedOut? || !matches {
        Rollback(k);
        return IdentityFailed;
      }
      ok := k.SaveRecord(record.value);
      if !ok {
        Rollback(k);
        return RecordFailed;
      }
      ok := k.SetKillOnClose(false);
      if !ok {
        Rollback(k);
        return JobFailed;
      }
      return Ok;
    }
  }
}
