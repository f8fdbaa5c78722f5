/** The background update check: one owner thread and one worker thread over a mutex.  A state
    holds the fields of the object, who holds the mutex and where each thread stands; an event is
    one atomic step of one of the threads. */
module UpdateCheckService {
  import opened Texts

  datatype Phase = Idle | Running | Ready | Taken | Cancelled

  datatype Holder = Free | Owner | Worker

  /** What a check produced; which one is up to the check. */
  type Answer = int

  /** Where the worker stands.  Checks are numbered by the starts that made them. */
  datatype Thread =
    | NoThread
    | Checking(check: nat)                  // running the check, without the mutex
    | Checked(check: nat, answer: Answer)   // about to lock
    | Writing(check: nat, answer: Answer)   // locked, nothing written yet
    | Releasing(check: nat)                 // written, still locked
    | Finished(check: nat)                  // ended, to be joined

  /** Where the owner stands inside a call; `Outside` between calls. */
  datatype Call =
    | Outside
    | StartLock | StartDecide | StartRelease(go: bool) | StartJoin | StartStore | StartSpawn
    | TakeLock | TakeDecide | TakeRelease
    | CancelStore | CancelJoin | CancelLock | CancelSet | CancelRelease

  datatype Delivery = Delivery(check: nat, answer: Answer)

  /** The object and the two threads.  `starts`, `produced` and `delivered` only record what
      happened: how many workers were started, what each check produced, what was handed out. */
  datatype State = State(
    phase: Phase,
    result: Option<Delivery>,
    cancel: bool,
    thread: Thread,
    mutex: Holder,
    call: Call,
    hasCheck: bool,
    starts: nat,
    produced: map<nat, Answer>,
    delivered: seq<Delivery>)

  datatype Event = CallStart | CallTake | CallCancel | OwnerStep | WorkerStep(answer: Answer)

  function Created(hasCheck: bool): State {
    State(Idle, None, false, NoThread, Free, Outside, hasCheck, 0, map[], [])
  }

  // ---- the steps --------------------------------------------------------------------------

  predicate Joinable(t: Thread) { t.NoThread? || t.Finished? }

  function WithCall(s: State, call: Call): State { s.(call := call) }

  function Lock(s: State, next: Call): Option<State> {
    if s.mutex.Free? then Some(s.(mutex := Owner, call := next)) else None
  }

  function Release(s: State, next: Call): State { s.(mutex := Free, call := next) }

  function Join(s: State, next: Call): Option<State> {
    if Joinable(s.thread) then Some(s.(thread := NoThread, call := next)) else None
  }

  /** The next atomic step of the owner; nothing while it is outside or has to wait. */
  function OwnerNext(s: State): Option<State> {
    match s.call
    case Outside => None
    case StartLock => Lock(s, StartDecide)
    case StartDecide =>
      if s.phase.Running? || s.phase.Ready? || s.phase.Cancelled? || !s.hasCheck then
        Some(WithCall(s, StartRelease(false)))
      else Some(s.(phase := Running, call := StartRelease(true)))
    case StartRelease(go) => Some(Release(s, if go then StartJoin else Outside))
    case StartJoin => Join(s, StartStore)
    case StartStore => Some(s.(cancel := false, call := StartSpawn))
    case StartSpawn => Some(s.(thread := Checking(s.starts + 1), starts := s.starts + 1, call := Outside))
    case TakeLock => Lock(s, TakeDecide)
    case TakeDecide =>
      if !s.phase.Ready? || s.result.None? then Some(WithCall(s, TakeRelease))
      else Some(s.(delivered := s.delivered + [s.result.value], result := None, phase := Taken, call := TakeRelease))
    case TakeRelease => Some(Release(s, Outside))
    case CancelStore => Some(s.(cancel := true, call := CancelJoin))
    case CancelJoin => Join(s, CancelLock)
    case CancelLock => Lock(s, CancelSet)
    case CancelSet => Some(s.(phase := Cancelled, result := None, call := CancelRelease))
    case CancelRelease => Some(Release(s, Outside))
  }

  /** The next atomic step of the worker; `answer` is what the check produces, or stands for the
      exception that it ends in. */
  function WorkerNext(s: State, answer: Answer): Option<State> {
    match s.thread
    case Checking(n) => Some(s.(thread := Checked(n, answer), produced := s.produced[n := answer]))
    case Checked(n, a) => if s.mutex.Free? then Some(s.(mutex := Worker, thread := Writing(n, a))) else None
    case Writing(n, a) =>
      Some(s.(result := Some(Delivery(n, a)),
              phase := if s.phase.Running? then Ready else s.phase,
              thread := Releasing(n)))
    case Releasing(n) => Some(s.(mutex := Free, thread := Finished(n)))
    case _ => None
  }

  function Next(s: State, e: Event): Option<State> {
    match e
    case CallStart => if s.call.Outside? then Some(WithCall(s, StartLock)) else None
    case CallTake => if s.call.Outside? then Some(WithCall(s, TakeLock)) else None
    case CallCancel => if s.call.Outside? then Some(WithCall(s, CancelStore)) else None
    case OwnerStep => OwnerNext(s)
    case WorkerStep(answer) => WorkerNext(s, answer)
  }

  /** The state after a run; nothing when a step of it was not possible. */
  function Run(s: State, run: seq<Event>): Option<State> {
    if run == [] then Some(s) else
    match Run(s, run[..|run| - 1])
    case None => None
    case Some(t) => Next(t, run[|run| - 1])
  }

  // ---- the invariant ----------------------------------------------------------------------

  /** The owner is between deciding to start and starting the worker. */
  predicate Starting(c: Call) { c == StartRelease(true) || c.StartJoin? || c.StartStore? || c.StartSpawn? }

  predicate OwnerHolds(c: Call) {
    c.StartDecide? || c.StartRelease? || c.TakeDecide? || c.TakeRelease? || c.CancelSet? || c.CancelRelease?
  }

  predicate Cancelling(c: Call) { c.CancelJoin? || c.CancelLock? || c.CancelSet? || c.CancelRelease? }

  /** The worker has not yet stored its result. */
  predicate Active(t: Thread) { t.Checking? || t.Checked? || t.Writing? }

  /** Who holds the mutex, read off from where the threads stand. */
  predicate MutexOk(s: State) {
    && (s.mutex.Owner? <==> OwnerHolds(s.call))
    && (s.mutex.Worker? <==> s.thread.Writing? || s.thread.Releasing?)
  }

  /** How the phase, the result and the threads go together. */
  predicate PhaseOk(s: State) {
    && (s.result.Some? <==> s.phase.Ready?)
    && (s.phase.Ready? ==> s.result.value.check == s.starts)
    && (!s.thread.NoThread? ==> s.thread.check == s.starts)
    && (s.phase.Running? <==> Starting(s.call) || Active(s.thread))
    && (Starting(s.call) ==> Joinable(s.thread))
    && (s.thread.Releasing? ==> s.phase.Ready?)
    && (s.call == StartStore || s.call == StartSpawn || s.call == CancelLock || s.call == CancelSet ==> s.thread.NoThread?)
    && (s.phase.Cancelled? ==> s.thread.NoThread?)
    && (s.phase.Idle? ==> s.thread.NoThread? && s.starts == 0)
    && (s.call.CancelRelease? ==> s.phase.Cancelled?)
  }

  predicate CancelOk(s: State) { Cancelling(s.call) || s.phase.Cancelled? ==> s.cancel }

  /** What was delivered: in the order of the starts, each check once, with what it produced; and
      the current check has not been delivered while it runs or waits to be taken. */
  predicate DeliveredOk(s: State) {
    && (forall i, j | 0 <= i < j < |s.delivered| :: s.delivered[i].check < s.delivered[j].check)
    && (forall i | 0 <= i < |s.delivered| :: s.delivered[i].check <= s.starts)
    && (Active(s.thread) || s.phase.Ready? ==> forall i | 0 <= i < |s.delivered| :: s.delivered[i].check < s.starts)
    && (forall i | 0 <= i < |s.delivered| :: Honest(s, s.delivered[i]))
    && (s.result.Some? ==> Honest(s, s.result.value))
    && (s.thread.Checked? || s.thread.Writing? ==> Honest(s, Delivery(s.thread.check, s.thread.answer)))
  }

  /** A check and what it produced. */
  predicate Honest(s: State, d: Delivery) { d.check in s.produced && s.produced[d.check] == d.answer }

  predicate Inv(s: State) { MutexOk(s) && PhaseOk(s) && CancelOk(s) && DeliveredOk(s) }

  lemma StartInv(hasCheck: bool)
    ensures Inv(Created(hasCheck))
  {}

  lemma MutexOwnerStep(s: State)
    requires MutexOk(s) && PhaseOk(s) && OwnerNext(s).Some?
    ensures MutexOk(OwnerNext(s).value)
  {}

  lemma MutexWorkerStep(s: State, answer: Answer)
    requires MutexOk(s) && WorkerNext(s, answer).Some?
    ensures MutexOk(WorkerNext(s, answer).value)
  {}

  predicate InStart(c: Call) {
    c.StartLock? || c.StartDecide? || c.StartRelease? || c.StartJoin? || c.StartStore? || c.StartSpawn?
  }

  lemma PhaseStartStep(s: State)
    requires PhaseOk(s) && CancelOk(s) && MutexOk(s) && InStart(s.call) && OwnerNext(s).Some?
    ensures PhaseOk(OwnerNext(s).value) && CancelOk(OwnerNext(s).value)
  {}

  lemma PhaseOtherStep(s: State)
    requires PhaseOk(s) && CancelOk(s) && MutexOk(s) && !InStart(s.call) && OwnerNext(s).Some?
    ensures PhaseOk(OwnerNext(s).value) && CancelOk(OwnerNext(s).value)
  {}

  lemma PhaseOwnerStep(s: State)
    requires PhaseOk(s) && CancelOk(s) && MutexOk(s) && OwnerNext(s).Some?
    ensures PhaseOk(OwnerNext(s).value) && CancelOk(OwnerNext(s).value)
  {
    hide PhaseOk, CancelOk, MutexOk, OwnerNext;
    if InStart(s.call) { PhaseStartStep(s); } else { PhaseOtherStep(s); }
  }

  lemma PhaseWorkerStep(s: State, answer: Answer)
    requires PhaseOk(s) && CancelOk(s) && WorkerNext(s, answer).Some?
    ensures PhaseOk(WorkerNext(s, answer).value) && CancelOk(WorkerNext(s, answer).value)
  {}

  /** A step that hands nothing out and starts nothing keeps the record of what was delivered. */
  lemma DeliveredSame(s: State, t: State)
    requires DeliveredOk(s) && t.delivered == s.delivered && t.produced == s.produced && t.starts == s.starts
    requires Active(t.thread) || t.phase.Ready? ==> Active(s.thread) || s.phase.Ready?
    requires t.result == s.result || t.result.None?
    requires t.thread == s.thread || t.thread.NoThread?
    ensures DeliveredOk(t)
  {}

  lemma DeliveredOwnerStep(s: State)
    requires DeliveredOk(s) && PhaseOk(s) && OwnerNext(s).Some?
    ensures DeliveredOk(OwnerNext(s).value)
  {
    hide DeliveredOk;
    if s.call.TakeDecide? {
      DeliveredTake(s);
    } else if s.call.StartSpawn? {
      DeliveredSpawn(s);
    } else {
      DeliveredSame(s, OwnerNext(s).value);
    }
  }

  lemma DeliveredTake(s: State)
    requires DeliveredOk(s) && PhaseOk(s) && s.call.TakeDecide?
    ensures DeliveredOk(OwnerNext(s).value)
  {}

  lemma DeliveredSpawn(s: State)
    requires DeliveredOk(s) && PhaseOk(s) && s.call.StartSpawn?
    ensures DeliveredOk(OwnerNext(s).value)
  {}

  lemma DeliveredChecked(s: State, answer: Answer)
    requires DeliveredOk(s) && PhaseOk(s) && s.thread.Checking?
    ensures DeliveredOk(WorkerNext(s, answer).value)
  {}

  lemma DeliveredWorkerStep(s: State, answer: Answer)
    requires DeliveredOk(s) && PhaseOk(s) && WorkerNext(s, answer).Some?
    ensures DeliveredOk(WorkerNext(s, answer).value)
  {
    if s.thread.Checking? { DeliveredChecked(s, answer); }
  }

  lemma InvStep(s: State, e: Event)
    requires Inv(s) && Next(s, e).Some?
    ensures Inv(Next(s, e).value)
  {
    hide Inv, OwnerNext, WorkerNext;
    match e
    case OwnerStep => InvOwnerStep(s);
    case WorkerStep(answer) => InvWorkerStep(s, answer);
    case _ => InvCall(s, e);
  }

  lemma InvCall(s: State, e: Event)
    requires Inv(s) && Next(s, e).Some? && !e.OwnerStep? && !e.WorkerStep?
    ensures Inv(Next(s, e).value)
  {
    hide DeliveredOk;
    DeliveredSame(s, Next(s, e).value);
  }

  lemma InvOwnerStep(s: State)
    requires Inv(s) && OwnerNext(s).Some?
    ensures Inv(OwnerNext(s).value)
  {
    hide MutexOk, PhaseOk, CancelOk, DeliveredOk, OwnerNext;
    MutexOwnerStep(s);
    PhaseOwnerStep(s);
    DeliveredOwnerStep(s);
  }

  lemma InvWorkerStep(s: State, answer: Answer)
    requires Inv(s) && WorkerNext(s, answer).Some?
    ensures Inv(WorkerNext(s, answer).value)
  {
    hide MutexOk, PhaseOk, CancelOk, DeliveredOk, WorkerNext;
    MutexWorkerStep(s, answer);
    PhaseWorkerStep(s, answer);
    DeliveredWorkerStep(s, answer);
  }

  lemma {:induction false} InvRun(s: State, run: seq<Event>)
    requires Inv(s) && Run(s, run).Some?
    ensures Inv(Run(s, run).value)
  {
    hide Inv, Next;
    if run != [] {
      InvRun(s, run[..|run| - 1]);
      InvStep(Run(s, run[..|run| - 1]).value, run[|run| - 1]);
    }
  }

  // ---- what the callers may rely on ---------------------------------------------------------

  /** Every state that a new object can reach. */
  ghost predicate Reachable(s: State) {
    exists hasCheck: bool, run: seq<Event> :: Run(Created(hasCheck), run) == Some(s)
  }

  lemma ReachableInv(s: State)
    requires Reachable(s)
    ensures Inv(s)
  {
    hide Inv, Run;
    var hasCheck: bool, run: seq<Event> :| Run(Created(hasCheck), run) == Some(s);
    StartInv(hasCheck);
    InvRun(Created(hasCheck), run);
  }

  /** Under every interleaving: what was delivered came in the order of the starts, each check at
      most once, and is what that check produced; a result that waits belongs to the latest start;
      and the owner never joins the worker while it holds the mutex. */
  lemma Deliveries(s: State)
    requires Reachable(s)
    ensures forall i, j | 0 <= i < j < |s.delivered| :: s.delivered[i].check < s.delivered[j].check
    ensures forall i | 0 <= i < |s.delivered| :: Honest(s, s.delivered[i])
    ensures s.phase.Ready? ==> s.result.Some? && s.result.value.check == s.starts && Honest(s, s.result.value)
    ensures s.call.StartJoin? || s.call.CancelJoin? ==> !s.mutex.Owner?
  {
    ReachableInv(s);
  }

  /** A completed check is not lost: once its worker has ended, its result waits, unless it has
      been taken, the next start has begun or the object was cancelled. */
  lemma NotLost(s: State)
    requires Reachable(s) && s.thread.Finished?
    ensures s.phase.Ready? || s.phase.Taken? || Starting(s.call)
    ensures s.phase.Ready? ==> s.result.Some? && s.result.value.check == s.thread.check
  {
    ReachableInv(s);
  }

  // ---- what a call does ------------------------------------------------------------------------

  /** The threads go on, and no further call is made. */
  predicate NoCalls(run: seq<Event>) { forall i | 0 <= i < |run| :: run[i].OwnerStep? || run[i].WorkerStep? }

  /** A worker may be started: none has been yet, or the last result was taken. */
  predicate MayStart(s: State) { s.hasCheck && (s.phase.Idle? || s.phase.Taken?) }

  predicate StartGoesOn(t: State, starts: nat, may: bool) {
    match t.call
    case StartLock => t.starts == starts && MayStart(t) == may
    case StartDecide => t.starts == starts && MayStart(t) == may
    case StartRelease(go) => t.starts == starts && go == may
    case StartJoin => t.starts == starts && may
    case StartStore => t.starts == starts && may
    case StartSpawn => t.starts == starts && may
    case Outside => t.starts == if may then starts + 1 else starts
    case _ => false
  }

  lemma StartStep(s: State, e: Event, starts: nat, may: bool)
    requires Inv(s) && StartGoesOn(s, starts, may) && (e.OwnerStep? || e.WorkerStep?) && Next(s, e).Some?
    ensures StartGoesOn(Next(s, e).value, starts, may)
  {
    hide DeliveredOk;
  }

  lemma {:induction false} StartRun(s: State, run: seq<Event>)
    requires Reachable(s) && s.call.StartLock? && NoCalls(run) && Run(s, run).Some?
    ensures Inv(Run(s, run).value) && StartGoesOn(Run(s, run).value, s.starts, MayStart(s))
  {
    hide Inv, Next, StartGoesOn, MayStart;
    ReachableInv(s);
    if run == [] {
      StartBegins(s);
    } else {
      var n := |run| - 1;
      assert forall i | 0 <= i < n :: run[..n][i] == run[i];
      StartRun(s, run[..n]);
      InvStep(Run(s, run[..n]).value, run[n]);
      StartStep(Run(s, run[..n]).value, run[n], s.starts, MayStart(s));
    }
  }

  lemma StartBegins(s: State)
    requires s.call.StartLock?
    ensures StartGoesOn(s, s.starts, MayStart(s))
  {}

  /** Under every interleaving, when `Start` returns it has started one worker if none had been
      started or the last result had been taken, and none otherwise. */
  lemma StartExactly(s: State, run: seq<Event>)
    requires Reachable(s) && s.call.StartLock? && NoCalls(run) && Run(s, run).Some?
    requires Run(s, run).value.call.Outside?
    ensures Run(s, run).value.starts == s.starts + (if s.hasCheck && (s.phase.Idle? || s.phase.Taken?) then 1 else 0)
  {
    hide Run;
    StartRun(s, run);
  }

  predicate TakeGoesOn(t: State, delivered: seq<Delivery>, ready: Option<Delivery>) {
    match t.call
    case TakeLock => t.delivered == delivered && !t.phase.Running? && (if t.phase.Ready? then ready.Some? && t.result == ready else ready.None?)
    case TakeDecide => t.delivered == delivered && !t.phase.Running? && (if t.phase.Ready? then ready.Some? && t.result == ready else ready.None?)
    case TakeRelease => t.delivered == delivered + (if ready.Some? then [ready.value] else [])
    case Outside => t.delivered == delivered + (if ready.Some? then [ready.value] else [])
    case _ => false
  }

  lemma TakeStep(s: State, e: Event, delivered: seq<Delivery>, ready: Option<Delivery>)
    requires Inv(s) && TakeGoesOn(s, delivered, ready) && (e.OwnerStep? || e.WorkerStep?) && Next(s, e).Some?
    ensures TakeGoesOn(Next(s, e).value, delivered, ready)
  {
    hide DeliveredOk;
  }

  lemma {:induction false} TakeRun(s: State, run: seq<Event>)
    requires Reachable(s) && s.call.TakeLock? && !s.phase.Running? && NoCalls(run) && Run(s, run).Some?
    ensures Inv(Run(s, run).value) && TakeGoesOn(Run(s, run).value, s.delivered, s.result)
  {
    hide Inv, Next, TakeGoesOn;
    ReachableInv(s);
    if run == [] {
      TakeBegins(s);
    } else {
      var n := |run| - 1;
      assert forall i | 0 <= i < n :: run[..n][i] == run[i];
      TakeRun(s, run[..n]);
      InvStep(Run(s, run[..n]).value, run[n]);
      TakeStep(Run(s, run[..n]).value, run[n], s.delivered, s.result);
    }
  }

  lemma TakeBegins(s: State)
    requires Inv(s) && s.call.TakeLock? && !s.phase.Running?
    ensures TakeGoesOn(s, s.delivered, s.result)
  {}

  /** When no check is running, `TryTakeResult` hands out exactly the result that waits: the one of the
      latest start, which is what its check produced; with none waiting it hands out nothing. */
  lemma TakeExactly(s: State, run: seq<Event>)
    requires Reachable(s) && s.call.TakeLock? && !s.phase.Running? && NoCalls(run) && Run(s, run).Some?
    requires Run(s, run).value.call.Outside?
    ensures var t := Run(s, run).value;
            if s.phase.Ready? then s.starts in s.produced && t.delivered == s.delivered + [Delivery(s.starts, s.produced[s.starts])]
            else t.delivered == s.delivered
  {
    hide Run;
    ReachableInv(s);
    TakeRun(s, run);
  }

  // ---- after Cancel ---------------------------------------------------------------------------

  /** `Cancel` has returned, or a later call is under way. */
  predicate Stopped(s: State) {
    s.phase.Cancelled? && s.thread.NoThread? && s.result.None? && s.cancel && !Starting(s.call)
  }

  /** When `Cancel` returns the object is stopped. */
  lemma CancelStops(s: State)
    requires Reachable(s) && s.call.CancelRelease?
    ensures OwnerNext(s).Some? && Stopped(OwnerNext(s).value) && OwnerNext(s).value.call.Outside?
  {
    ReachableInv(s);
  }

  lemma StoppedStep(s: State, e: Event)
    requires Stopped(s) && Next(s, e).Some?
    ensures var t := Next(s, e).value;
            Stopped(t) && t.delivered == s.delivered && t.starts == s.starts && t.produced == s.produced
  {}

  /** A stopped object stays stopped, whatever is called: no worker is alive, none is started, no
      check runs and nothing is delivered, and the phase stays `Cancelled`. */
  lemma {:induction false} StoppedForever(s: State, run: seq<Event>)
    requires Stopped(s) && Run(s, run).Some?
    ensures var t := Run(s, run).value;
            Stopped(t) && t.delivered == s.delivered && t.starts == s.starts && t.produced == s.produced
  {
    hide Stopped, Next;
    if run != [] {
      StoppedForever(s, run[..|run| - 1]);
      StoppedStep(Run(s, run[..|run| - 1]).value, run[|run| - 1]);
    }
  }

  // ---- every call returns ------------------------------------------------------------------------

  /** The steps that the worker has left, once its check has produced something. */
  function WorkerLeft(t: Thread): nat {
    match t
    case Checking(_) => 4
    case Checked(_, _) => 3
    case Writing(_, _) => 2
    case Releasing(_) => 1
    case _ => 0
  }

  /** The steps that the owner's call has left; starting a worker adds the worker's. */
  function OwnerLeft(c: Call): nat {
    match c
    case Outside => 0
    case StartLock => 10
    case StartDecide => 9
    case StartRelease(_) => 8
    case StartJoin => 7
    case StartStore => 6
    case StartSpawn => 5
    case TakeLock => 3
    case TakeDecide => 2
    case TakeRelease => 1
    case CancelStore => 5
    case CancelJoin => 4
    case CancelLock => 3
    case CancelSet => 2
    case CancelRelease => 1
  }

  function Left(s: State): nat { OwnerLeft(s.call) + WorkerLeft(s.thread) }

  /** While a call has not returned, one of the threads can move: there is no deadlock. */
  lemma NoDeadlock(s: State, answer: Answer)
    requires Reachable(s) && !s.call.Outside?
    ensures OwnerNext(s).Some? || WorkerNext(s, answer).Some?
  {
    ReachableInv(s);
  }

  lemma StepsAreFewer(s: State, e: Event)
    requires (e.OwnerStep? || e.WorkerStep?) && Next(s, e).Some?
    ensures Left(Next(s, e).value) < Left(s)
  {}

  /** However the two threads are scheduled, a call returns after at most 14 of their steps. */
  lemma {:induction false} CallsReturn(s: State, run: seq<Event>)
    requires Run(s, run).Some? && forall i | 0 <= i < |run| :: run[i].OwnerStep? || run[i].WorkerStep?
    ensures |run| + Left(Run(s, run).value) <= Left(s) <= 14
  {
    hide Next, Left;
    LeftBound(s);
    if run != [] {
      CallsReturn(s, run[..|run| - 1]);
      StepsAreFewer(Run(s, run[..|run| - 1]).value, run[|run| - 1]);
    }
  }

  lemma LeftBound(s: State)
    ensures Left(s) <= 14
  {}
}
