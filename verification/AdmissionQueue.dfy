/**
 The admission protocol of the request queue, as a transition system
 (pkg/kthena-router/datastore/fairness_queue.go, session_boost_queue.go and the
 caller side in pkg/kthena-router/router/router.go).

 Every mutex section, channel operation and atomic operation is one step, and the
 steps of the dequeue loop, of the callers and of the environment interleave freely.
 Which request the heap hands out is left open here; RequestHeap decides it.
 */
module AdmissionQueue {
  import opened Common

  type Id = nat

  /** MaxConcurrent > 0, session boost, or the fixed-rate fallback. */
  datatype Mode = Semaphore | SessionBoost | FixedRate

  datatype Config = Config(mode: Mode, capacity: nat, grace: bool)

  /** Where the dequeue loop stands: each value names what it does next. */
  datatype Loop =
    | Idle                    // the outer select
    | Grace                   // holding a freed slot for a follow-up
    | MaybeHold               // an arrival or refresh was received; is a release pending too?
    | ReadPods                // start of an admission pass: compute the inflight limit
    | ReadInflight
    | CheckBackend
    | DrainFull               // inflight limit reached: drain cancelled requests, then wait
    | DrainBusy               // backends busy: drain cancelled requests, then wait
    | CheckLength
    | Popping                 // popWhenAvailable, about to take the lock
    | Waiting                 // popWhenAvailable, heap found empty
    | Holding(id: Id)         // popped
    | Checked(id: Id)         // popped and not cancelled; waiting for a permit
    | HasPermit(id: Id)       // permit taken, admission not committed
    | NoAdmit                 // admission refused, permit to be returned
    | Signalling(id: Id)      // committed, NotifyChan to be closed
    | Requeueing(id: Id)      // stopped while waiting for a permit
    | Exited

  datatype Caller =
    | Enqueuing               // inside PushRequest, request in the heap, arrival not yet signalled
    | Queued                  // waiting for NotifyChan or cancellation
    | Running                 // NotifyChan received
    | MustRelease             // gave up, but admission came first
    | Done

  datatype State = State(
    loop: Loop,
    heap: set<Id>,
    gauge: int,               // the queue-size metric
    pusher: Option<Id>,       // the caller that holds the queue lock inside PushRequest
    stopped: bool,
    ctxDone: bool,
    pending: set<Id>,         // taken out by Close, still to be cancelled
    permits: int,             // semaphore occupancy, or the inflight count
    notifySig: bool,
    releaseSig: bool,
    recheckSig: bool,
    limit: int,               // InflightPerPod times the pod count
    passLimit: int,           // the limit read by the latest admission pass
    backendOk: bool,
    rechecks: nat,            // threads between a backend change and reading the heap length
    resends: nat,             // threads that saw a held request and are about to signal
    accepted: set<Id>,
    admitted: set<Id>,
    abandoned: set<Id>,
    cancelled: set<Id>,
    notified: set<Id>,        // NotifyChan closed
    released: set<Id>,
    releasing: set<Id>,       // inflight count decremented, release not yet signalled
    callers: map<Id, Caller>)

  /** Steps of the session-boost loop that decide whether to admit. */
  datatype PassStep =
    | TakeRelease | TakeNotify | TakeRecheck | HoldPendingRelease | GraceOver | GraceStopped
    | PodsRead | InflightRead | BackendChecked | Drain | LengthChecked

  /** Steps of popWhenAvailable; a priority refresh that reinserts the request changes nothing here. */
  datatype PopStep = PopSkip(id: Id) | Pop(id: Id) | PopEmpty | WakeInPop | StopInPop

  /** What the loops do with a popped request, and how they end. */
  datatype AdmitStep =
    | CancelCheck | Acquire | GiveUp | Requeue | CancelHeld | Commit | Refuse | ReturnPermit | Notify | Tick | Exit

  datatype CallerStep =
    | PushBegin(id: Id) | PushEnd | Proceed(id: Id) | Release(id: Id) | SignalRelease(id: Id) | Finish(id: Id)
    | Abandon(id: Id) | AbandonAdmitted(id: Id)

  datatype EnvStep =
    | Cancel(id: Id) | BackendChange(ok: bool) | PodsChange(newLimit: int) | RecheckRead | RecheckSend
    | CtxDone | Close | CloseCancel(id: Id)

  datatype Step = Pass(p: PassStep) | Popped(o: PopStep) | Admission(d: AdmitStep) | ByCaller(q: CallerStep) | ByEnv(e: EnvStep)

  // ----- The steps -----

  ghost predicate Stopping(s: State) { s.stopped || s.ctxDone }

  ghost predicate PassEnabled(c: Config, s: State, a: PassStep) {
    && c.mode.SessionBoost?
    && match a
       case TakeRelease => s.loop.Idle? && s.releaseSig
       case TakeNotify => s.loop.Idle? && s.notifySig
       case TakeRecheck => s.loop.Idle? && s.recheckSig
       case HoldPendingRelease => s.loop.MaybeHold?
       case GraceOver => s.loop.Grace?
       case GraceStopped => s.loop.Grace? && Stopping(s)
       case PodsRead => s.loop.ReadPods?
       case InflightRead => s.loop.ReadInflight?
       case BackendChecked => s.loop.CheckBackend?
       case Drain => (s.loop.DrainFull? || s.loop.DrainBusy?) && s.pusher.None?
       case LengthChecked => s.loop.CheckLength? && s.pusher.None?
  }

  ghost function DoPass(c: Config, s: State, a: PassStep): State
    requires PassEnabled(c, s, a)
  {
    match a
    case TakeRelease => s.(releaseSig := false, loop := if c.grace then Grace else ReadPods)
    case TakeNotify => s.(notifySig := false, loop := if c.grace then MaybeHold else ReadPods)
    case TakeRecheck => s.(recheckSig := false, loop := if c.grace then MaybeHold else ReadPods)
    case HoldPendingRelease => s.(releaseSig := false, loop := if s.releaseSig then Grace else ReadPods)
    case GraceOver => s.(loop := ReadPods)
    case GraceStopped => s.(loop := Idle)
    case PodsRead => s.(passLimit := s.limit, loop := ReadInflight)
    case InflightRead => s.(loop := if s.permits >= s.passLimit then DrainFull else CheckBackend)
    case BackendChecked => s.(loop := if s.backendOk then CheckLength else DrainBusy)
    case Drain => s.(gauge := s.gauge - |s.heap * s.cancelled|, heap := s.heap - s.cancelled, loop := Idle)
    case LengthChecked => s.(loop := if s.heap == {} then Idle else Popping)
  }

  ghost predicate PopEnabled(s: State, a: PopStep) {
    match a
    case PopSkip(id) => s.loop.Popping? && s.pusher.None? && id in s.heap && id in s.cancelled
    case Pop(id) => s.loop.Popping? && s.pusher.None? && id in s.heap && id !in s.cancelled
    case PopEmpty => s.loop.Popping? && s.pusher.None? && s.heap == {}
    case WakeInPop => s.loop.Waiting? && s.notifySig
    case StopInPop => s.loop.Waiting? && Stopping(s)
  }

  ghost function DoPop(c: Config, s: State, a: PopStep): State
    requires PopEnabled(s, a)
  {
    match a
    case PopSkip(id) => s.(gauge := s.gauge - 1, heap := s.heap - {id})
    case Pop(id) => s.(gauge := s.gauge - 1, heap := s.heap - {id}, loop := Holding(id))
    case PopEmpty => s.(loop := Waiting)
    case WakeInPop => s.(notifySig := false, loop := Popping)
    case StopInPop => s.(loop := if c.mode.SessionBoost? then Idle else Exited)
  }

  /** commitAdmission: in semaphore mode the permit comes first, in session-boost mode the count is raised with it. */
  ghost predicate ReadyToCommit(c: Config, s: State) {
    if c.mode.SessionBoost? then s.loop.Holding? else s.loop.HasPermit?
  }

  ghost predicate AdmitEnabled(c: Config, s: State, a: AdmitStep) {
    match a
    case CancelCheck => c.mode.Semaphore? && s.loop.Holding?
    case Acquire => s.loop.Checked? && s.permits < c.capacity
    case GiveUp => s.loop.Checked? && Stopping(s)
    case Requeue => s.loop.Requeueing? && s.pusher.None? && !s.stopped
    case CancelHeld => s.loop.Requeueing? && s.pusher.None? && s.stopped
    case Commit => ReadyToCommit(c, s) && s.loop.id !in s.abandoned
    case Refuse => ReadyToCommit(c, s) && s.loop.id in s.abandoned
    case ReturnPermit => s.loop.NoAdmit?
    case Notify => s.loop.Signalling? || (c.mode.FixedRate? && s.loop.Holding?)
    case Tick => c.mode.FixedRate? && s.loop.Idle?
    case Exit => s.loop.Idle? && Stopping(s)
  }

  ghost function DoAdmit(c: Config, s: State, a: AdmitStep): State
    requires AdmitEnabled(c, s, a)
  {
    match a
    case CancelCheck => s.(loop := if s.loop.id in s.cancelled then Popping else Checked(s.loop.id))
    case Acquire => s.(permits := s.permits + 1, loop := HasPermit(s.loop.id))
    case GiveUp => s.(loop := Requeueing(s.loop.id))
    case Requeue => s.(heap := s.heap + {s.loop.id}, gauge := s.gauge + 1, notifySig := true, loop := Exited)
    case CancelHeld => s.(cancelled := s.cancelled + {s.loop.id}, loop := Exited)
    case Commit => s.(admitted := s.admitted + {s.loop.id}, loop := Signalling(s.loop.id),
                      permits := if c.mode.SessionBoost? then s.permits + 1 else s.permits)
    case Refuse => s.(loop := if c.mode.SessionBoost? then ReadInflight else NoAdmit)
    case ReturnPermit => s.(permits := s.permits - 1, loop := Popping)
    case Notify =>
      s.(notified := s.notified + {s.loop.id},
         loop := match c.mode case Semaphore => Popping case SessionBoost => ReadInflight case FixedRate => Idle)
    case Tick => s.(loop := Popping)
    case Exit => s.(loop := Exited)
  }

  ghost predicate Is(s: State, id: Id, what: Caller) {
    id in s.callers && s.callers[id] == what
  }

  ghost predicate CallerEnabled(c: Config, s: State, a: CallerStep) {
    match a
    case PushBegin(id) => s.pusher.None? && !s.stopped && id !in s.callers
    case PushEnd => s.pusher.Some?
    case Proceed(id) => Is(s, id, Queued) && id in s.notified
    case Release(id) => !c.mode.FixedRate? && (Is(s, id, Running) || Is(s, id, MustRelease))
    case SignalRelease(id) => id in s.releasing
    case Finish(id) => c.mode.FixedRate? && Is(s, id, Running)
    case Abandon(id) => Is(s, id, Queued) && id in s.cancelled && id !in s.admitted
    case AbandonAdmitted(id) => Is(s, id, Queued) && id in s.cancelled && id in s.admitted
  }

  ghost function DoCaller(c: Config, s: State, a: CallerStep): State
    requires CallerEnabled(c, s, a)
  {
    match a
    case PushBegin(id) => s.(pusher := Some(id), heap := s.heap + {id}, gauge := s.gauge + 1,
                             accepted := s.accepted + {id}, callers := s.callers[id := Enqueuing])
    case PushEnd => s.(pusher := None, notifySig := true, callers := s.callers[s.pusher.value := Queued])
    case Proceed(id) => s.(callers := s.callers[id := Running])
    case Release(id) => s.(permits := s.permits - 1, released := s.released + {id}, callers := s.callers[id := Done],
                           releasing := if c.mode.SessionBoost? then s.releasing + {id} else s.releasing)
    case SignalRelease(id) => s.(releaseSig := true, releasing := s.releasing - {id})
    case Finish(id) => s.(callers := s.callers[id := Done])
    case Abandon(id) => s.(abandoned := s.abandoned + {id}, callers := s.callers[id := Done])
    case AbandonAdmitted(id) => s.(callers := s.callers[id := MustRelease])
  }

  ghost predicate EnvEnabled(s: State, a: EnvStep) {
    match a
    case Cancel(id) => id in s.accepted
    case BackendChange(ok) => true
    case PodsChange(newLimit) => true
    case RecheckRead => s.rechecks > 0 && s.pusher.None?
    case RecheckSend => s.resends > 0
    case CtxDone => true
    case Close => !s.stopped && s.pusher.None?
    case CloseCancel(id) => id in s.pending
  }

  ghost function DoEnv(s: State, a: EnvStep): State
    requires EnvEnabled(s, a)
  {
    match a
    case Cancel(id) => s.(cancelled := s.cancelled + {id})
    case BackendChange(ok) => s.(backendOk := ok, rechecks := s.rechecks + 1)
    case PodsChange(newLimit) => s.(limit := newLimit, rechecks := s.rechecks + 1)
    case RecheckRead => s.(rechecks := s.rechecks - 1, resends := if s.heap == {} then s.resends else s.resends + 1)
    case RecheckSend => s.(resends := s.resends - 1, recheckSig := true)
    case CtxDone => s.(ctxDone := true)
    case Close => s.(stopped := true, pending := s.heap, heap := {}, gauge := s.gauge - |s.heap|)
    case CloseCancel(id) => s.(pending := s.pending - {id}, cancelled := s.cancelled + {id})
  }

  ghost predicate Enabled(c: Config, s: State, a: Step) {
    match a
    case Pass(p) => PassEnabled(c, s, p)
    case Popped(o) => PopEnabled(s, o)
    case Admission(d) => AdmitEnabled(c, s, d)
    case ByCaller(q) => CallerEnabled(c, s, q)
    case ByEnv(e) => EnvEnabled(s, e)
  }

  ghost function Do(c: Config, s: State, a: Step): State
    requires Enabled(c, s, a)
  {
    match a
    case Pass(p) => DoPass(c, s, p)
    case Popped(o) => DoPop(c, s, o)
    case Admission(d) => DoAdmit(c, s, d)
    case ByCaller(q) => DoCaller(c, s, q)
    case ByEnv(e) => DoEnv(s, e)
  }

  ghost function Init(c: Config, limit: int, backendOk: bool): State {
    State(if c.mode.Semaphore? then Popping else Idle, {}, 0, None, false, false, {}, 0,
          false, false, false, limit, limit, backendOk, 0, 0, {}, {}, {}, {}, {}, {}, {}, map[])
  }

  /** The state `t` is reached from `s` by the steps `run`. */
  ghost predicate Reaches(c: Config, s: State, run: seq<Step>, t: State)
    decreases |run|
  {
    if run == [] then s == t
    else Enabled(c, s, run[0]) && Reaches(c, Do(c, s, run[0]), run[1..], t)
  }

  // ----- Invariants -----

  /** The loop has taken the request out of the heap and not yet dealt with it. */
  ghost predicate Held(s: State, id: Id) {
    (s.loop.Holding? || s.loop.Checked? || s.loop.HasPermit? || s.loop.Requeueing?) && s.loop.id == id
  }

  ghost predicate CallerInv(c: Config, s: State, id: Id, caller: Caller) {
    match caller
    case Enqueuing => id !in s.abandoned && id !in s.released
    case Queued => id !in s.abandoned && id !in s.released
    case Running => id in s.notified && id !in s.released && (!c.mode.FixedRate? ==> id in s.admitted)
    case MustRelease => id in s.admitted && id !in s.released
    case Done => id in s.released || id in s.abandoned || c.mode.FixedRate?
  }

  /** One request: it is in at most one place, never lost, and its permit flags agree with where its caller stands. */
  ghost predicate RequestInv(c: Config, s: State, id: Id) {
    var fixed := c.mode.FixedRate?;
    && (id in s.accepted <==> id in s.callers)
    && (id in s.heap || id in s.pending || Held(s, id) || id in s.admitted || id in s.notified || id in s.cancelled ==> id in s.accepted)
    && (id in s.heap || id in s.pending || Held(s, id) ==> id !in s.admitted && id !in s.notified)
    && (id in s.heap || id in s.pending ==> !Held(s, id))
    && (id in s.accepted ==>
          id in s.heap || id in s.pending || Held(s, id) || id in s.admitted || id in s.notified || id in s.cancelled)
    && (id in s.abandoned ==> id in s.cancelled && id !in s.admitted)
    && (id in s.released ==> id in s.admitted)
    && (fixed ==> id !in s.admitted)
    && (!fixed && id in s.notified ==> id in s.admitted)
    && (id in s.callers ==> CallerInv(c, s, id, s.callers[id]))
  }

  ghost predicate RequestsInv(c: Config, s: State) {
    forall id :: RequestInv(c, s, id)
  }

  ghost predicate ModeInv(c: Config, l: Loop) {
    match c.mode
    case Semaphore => l.Popping? || l.Waiting? || l.Holding? || l.Checked? || l.HasPermit? || l.NoAdmit? || l.Signalling? || l.Requeueing? || l.Exited?
    case SessionBoost => !l.Checked? && !l.HasPermit? && !l.NoAdmit? && !l.Requeueing?
    case FixedRate => l.Idle? || l.Popping? || l.Waiting? || l.Holding? || l.Exited?
  }

  /** The gauge is the heap length, a closed queue is empty, and no arrival is missed while the loop waits for one. */
  ghost predicate QueueInv(c: Config, s: State) {
    && s.gauge == |s.heap|
    && (s.stopped ==> s.heap == {} && s.pusher.None?)
    && (!s.stopped ==> s.pending == {})
    && (s.pusher.Some? ==> Is(s, s.pusher.value, Enqueuing))
    && (s.loop.Signalling? ==> s.loop.id in s.admitted && s.loop.id !in s.notified)
    && (s.loop.Waiting? && s.heap != {} ==> s.notifySig || s.pusher.Some?)
    && ModeInv(c, s.loop)
  }

  /** Each permit belongs to one admitted and unreleased request, or to the loop between taking it and committing. */
  ghost predicate PermitsInv(c: Config, s: State) {
    && s.permits == |s.admitted - s.released| + (if s.loop.HasPermit? || s.loop.NoAdmit? then 1 else 0)
    && (c.mode.Semaphore? ==> s.permits <= c.capacity)
  }

  /** Some signal to the loop is pending, or some thread is between its state change and its signal. */
  ghost predicate Awake(s: State) {
    || s.releaseSig || s.notifySig || s.recheckSig
    || s.pusher.Some? || s.releasing != {} || s.rechecks > 0 || s.resends > 0
  }

  ghost predicate BoostInv(s: State) {
    && (s.loop.CheckBackend? || s.loop.CheckLength? || s.loop.Popping? || s.loop.Waiting? || s.loop.Holding? ==>
          s.permits < s.passLimit)
    && (s.loop.DrainFull? && s.permits < s.passLimit ==> s.releaseSig || s.releasing != {})
    && (s.loop.DrainBusy? && s.heap != {} && s.backendOk ==> Awake(s))
    && (s.loop.Idle? && !s.stopped && !s.ctxDone && s.heap != {} && s.backendOk && s.permits < s.passLimit ==> Awake(s))
  }

  ghost predicate Inv(c: Config, s: State) {
    RequestsInv(c, s) && QueueInv(c, s) && PermitsInv(c, s) && (c.mode.SessionBoost? ==> BoostInv(s))
  }

  // ----- Every step keeps the invariants -----

  lemma {:induction false} PassKeepsRequest(c: Config, s: State, a: PassStep, id: Id)
    requires RequestInv(c, s, id) && QueueInv(c, s) && PassEnabled(c, s, a)
    ensures RequestInv(c, DoPass(c, s, a), id)
  {
  }

  lemma {:induction false} PassKeepsQueue(c: Config, s: State, a: PassStep)
    requires RequestsInv(c, s) && QueueInv(c, s) && PassEnabled(c, s, a)
    ensures QueueInv(c, DoPass(c, s, a))
  {
  }

  lemma {:induction false} PassKeepsPermits(c: Config, s: State, a: PassStep)
    requires RequestsInv(c, s) && QueueInv(c, s) && PermitsInv(c, s) && PassEnabled(c, s, a)
    ensures PermitsInv(c, DoPass(c, s, a))
  {
  }

  lemma {:induction false} PodsReadKeepsBoost(c: Config, s: State)
    requires QueueInv(c, s) && BoostInv(s) && PassEnabled(c, s, PodsRead)
    ensures BoostInv(DoPass(c, s, PodsRead))
  {
  }

  lemma {:induction false} InflightReadKeepsBoost(c: Config, s: State)
    requires QueueInv(c, s) && BoostInv(s) && PassEnabled(c, s, InflightRead)
    ensures BoostInv(DoPass(c, s, InflightRead))
  {
  }

  lemma {:induction false} BackendCheckedKeepsBoost(c: Config, s: State)
    requires QueueInv(c, s) && BoostInv(s) && PassEnabled(c, s, BackendChecked)
    ensures BoostInv(DoPass(c, s, BackendChecked))
  {
  }

  lemma {:induction false} DrainKeepsBoost(c: Config, s: State)
    requires QueueInv(c, s) && BoostInv(s) && PassEnabled(c, s, Drain)
    ensures BoostInv(DoPass(c, s, Drain))
  {
  }

  lemma {:induction false} LengthCheckedKeepsBoost(c: Config, s: State)
    requires QueueInv(c, s) && BoostInv(s) && PassEnabled(c, s, LengthChecked)
    ensures BoostInv(DoPass(c, s, LengthChecked))
  {
  }

  lemma {:induction false} PassKeepsBoost(c: Config, s: State, a: PassStep)
    requires c.mode.SessionBoost? && QueueInv(c, s) && BoostInv(s) && PassEnabled(c, s, a)
    ensures BoostInv(DoPass(c, s, a))
  {
    if a.PodsRead? {
      PodsReadKeepsBoost(c, s);
    } else if a.InflightRead? {
      InflightReadKeepsBoost(c, s);
    } else if a.BackendChecked? {
      BackendCheckedKeepsBoost(c, s);
    } else if a.Drain? {
      DrainKeepsBoost(c, s);
    } else if a.LengthChecked? {
      LengthCheckedKeepsBoost(c, s);
    }
  }

  lemma {:induction false} PopKeepsRequest(c: Config, s: State, a: PopStep, id: Id)
    requires RequestInv(c, s, id) && QueueInv(c, s) && PopEnabled(s, a)
    ensures RequestInv(c, DoPop(c, s, a), id)
  {
  }

  lemma {:induction false} PopKeepsQueue(c: Config, s: State, a: PopStep)
    requires RequestsInv(c, s) && QueueInv(c, s) && PopEnabled(s, a)
    ensures QueueInv(c, DoPop(c, s, a))
  {
  }

  lemma {:induction false} PopKeepsPermits(c: Config, s: State, a: PopStep)
    requires RequestsInv(c, s) && QueueInv(c, s) && PermitsInv(c, s) && PopEnabled(s, a)
    ensures PermitsInv(c, DoPop(c, s, a))
  {
  }

  lemma {:induction false} PopKeepsBoost(c: Config, s: State, a: PopStep)
    requires c.mode.SessionBoost? && QueueInv(c, s) && BoostInv(s) && PopEnabled(s, a)
    ensures BoostInv(DoPop(c, s, a))
  {
  }

  lemma {:induction false} RequeueKeepsRequest(c: Config, s: State, id: Id)
    requires RequestInv(c, s, id) && QueueInv(c, s) && AdmitEnabled(c, s, Requeue)
    ensures RequestInv(c, DoAdmit(c, s, Requeue), id)
  {
  }

  lemma {:induction false} CancelHeldKeepsRequest(c: Config, s: State, id: Id)
    requires RequestInv(c, s, id) && QueueInv(c, s) && AdmitEnabled(c, s, CancelHeld)
    ensures RequestInv(c, DoAdmit(c, s, CancelHeld), id)
  {
  }

  lemma {:induction false} CommitKeepsRequest(c: Config, s: State, id: Id)
    requires RequestInv(c, s, id) && QueueInv(c, s) && AdmitEnabled(c, s, Commit)
    ensures RequestInv(c, DoAdmit(c, s, Commit), id)
  {
  }

  lemma {:induction false} NotifyKeepsRequest(c: Config, s: State, id: Id)
    requires RequestInv(c, s, id) && QueueInv(c, s) && AdmitEnabled(c, s, Notify)
    ensures RequestInv(c, DoAdmit(c, s, Notify), id)
  {
  }

  lemma {:induction false} AdmitKeepsRequest(c: Config, s: State, a: AdmitStep, id: Id)
    requires RequestInv(c, s, id) && QueueInv(c, s) && AdmitEnabled(c, s, a)
    ensures RequestInv(c, DoAdmit(c, s, a), id)
  {
    if a.Requeue? {
      RequeueKeepsRequest(c, s, id);
    } else if a.CancelHeld? {
      CancelHeldKeepsRequest(c, s, id);
    } else if a.Commit? {
      CommitKeepsRequest(c, s, id);
    } else if a.Notify? {
      NotifyKeepsRequest(c, s, id);
    }
  }

  lemma {:induction false} AdmitKeepsQueue(c: Config, s: State, a: AdmitStep)
    requires RequestsInv(c, s) && QueueInv(c, s) && AdmitEnabled(c, s, a)
    ensures QueueInv(c, DoAdmit(c, s, a))
  {
    if a.Commit? || a.Requeue? {
      assert RequestInv(c, s, s.loop.id);
    }
  }

  lemma {:induction false} CommitKeepsPermits(c: Config, s: State)
    requires RequestsInv(c, s) && QueueInv(c, s) && PermitsInv(c, s) && AdmitEnabled(c, s, Commit)
    ensures PermitsInv(c, DoAdmit(c, s, Commit))
  {
    assert RequestInv(c, s, s.loop.id);
    assert (s.admitted + {s.loop.id}) - s.released == (s.admitted - s.released) + {s.loop.id};
  }

  lemma {:induction false} AdmitKeepsPermits(c: Config, s: State, a: AdmitStep)
    requires RequestsInv(c, s) && QueueInv(c, s) && PermitsInv(c, s) && AdmitEnabled(c, s, a)
    ensures PermitsInv(c, DoAdmit(c, s, a))
  {
    if a.Commit? {
      CommitKeepsPermits(c, s);
    }
  }

  lemma {:induction false} AdmitKeepsBoost(c: Config, s: State, a: AdmitStep)
    requires c.mode.SessionBoost? && QueueInv(c, s) && BoostInv(s) && AdmitEnabled(c, s, a)
    ensures BoostInv(DoAdmit(c, s, a))
  {
  }

  lemma {:induction false} CallerKeepsRequest(c: Config, s: State, a: CallerStep, id: Id)
    requires RequestInv(c, s, id) && QueueInv(c, s) && CallerEnabled(c, s, a)
    ensures RequestInv(c, DoCaller(c, s, a), id)
  {
  }

  lemma {:induction false} CallerKeepsQueue(c: Config, s: State, a: CallerStep)
    requires RequestsInv(c, s) && QueueInv(c, s) && CallerEnabled(c, s, a)
    ensures QueueInv(c, DoCaller(c, s, a))
  {
    if a.PushBegin? {
      assert RequestInv(c, s, a.id);
    }
  }

  lemma {:induction false} CallerKeepsPermits(c: Config, s: State, a: CallerStep)
    requires RequestsInv(c, s) && QueueInv(c, s) && PermitsInv(c, s) && CallerEnabled(c, s, a)
    ensures PermitsInv(c, DoCaller(c, s, a))
  {
    if a.Release? {
      assert RequestInv(c, s, a.id);
      assert s.admitted - (s.released + {a.id}) == (s.admitted - s.released) - {a.id};
    }
  }

  lemma {:induction false} CallerKeepsBoost(c: Config, s: State, a: CallerStep)
    requires c.mode.SessionBoost? && QueueInv(c, s) && BoostInv(s) && CallerEnabled(c, s, a)
    ensures BoostInv(DoCaller(c, s, a))
  {
  }

  lemma {:induction false} EnvKeepsRequest(c: Config, s: State, a: EnvStep, id: Id)
    requires RequestInv(c, s, id) && QueueInv(c, s) && EnvEnabled(s, a)
    ensures RequestInv(c, DoEnv(s, a), id)
  {
  }

  lemma {:induction false} EnvKeepsQueue(c: Config, s: State, a: EnvStep)
    requires RequestsInv(c, s) && QueueInv(c, s) && EnvEnabled(s, a)
    ensures QueueInv(c, DoEnv(s, a))
  {
  }

  lemma {:induction false} EnvKeepsPermits(c: Config, s: State, a: EnvStep)
    requires RequestsInv(c, s) && QueueInv(c, s) && PermitsInv(c, s) && EnvEnabled(s, a)
    ensures PermitsInv(c, DoEnv(s, a))
  {
  }

  lemma {:induction false} EnvKeepsBoost(c: Config, s: State, a: EnvStep)
    requires c.mode.SessionBoost? && QueueInv(c, s) && BoostInv(s) && EnvEnabled(s, a)
    ensures BoostInv(DoEnv(s, a))
  {
  }

  // ----- What a single step can change -----

  ghost predicate IsPodsChange(a: Step) { a.ByEnv? && a.e.PodsChange? }

  ghost predicate Raises(c: Config, s: State, a: Step) {
    a.Admission? && (if c.mode.SessionBoost? then a.d.Commit? && s.loop.Holding? else a.d.Acquire?)
  }

  ghost predicate Lowers(a: Step) {
    a == Admission(ReturnPermit) || (a.ByCaller? && a.q.Release?)
  }

  ghost predicate Changes(c: Config, s: State, a: Step, t: State) {
    && (s.stopped ==> t.stopped && t.accepted == s.accepted)
    && (t.limit == s.limit || IsPodsChange(a))
    && (t.passLimit == s.passLimit || t.passLimit == s.limit)
    && t.permits == if Raises(c, s, a) then s.permits + 1 else if Lowers(a) then s.permits - 1 else s.permits
  }

  lemma {:induction false} PassChanges(c: Config, s: State, a: PassStep)
    requires PassEnabled(c, s, a)
    ensures Changes(c, s, Pass(a), DoPass(c, s, a))
  {
  }

  lemma {:induction false} PopChanges(c: Config, s: State, a: PopStep)
    requires PopEnabled(s, a)
    ensures Changes(c, s, Popped(a), DoPop(c, s, a))
  {
  }

  lemma {:induction false} AdmitChanges(c: Config, s: State, a: AdmitStep)
    requires AdmitEnabled(c, s, a) && ModeInv(c, s.loop)
    ensures Changes(c, s, Admission(a), DoAdmit(c, s, a))
  {
  }

  lemma {:induction false} CallerChanges(c: Config, s: State, a: CallerStep)
    requires CallerEnabled(c, s, a)
    ensures Changes(c, s, ByCaller(a), DoCaller(c, s, a))
  {
  }

  lemma {:induction false} EnvChanges(c: Config, s: State, a: EnvStep)
    requires EnvEnabled(s, a)
    ensures Changes(c, s, ByEnv(a), DoEnv(s, a))
  {
  }

  lemma {:induction false} StepChanges(c: Config, s: State, a: Step)
    requires Enabled(c, s, a) && ModeInv(c, s.loop)
    ensures Changes(c, s, a, Do(c, s, a))
  {
    match a
    case Pass(p) => PassChanges(c, s, p);
    case Popped(o) => PopChanges(c, s, o);
    case Admission(d) => AdmitChanges(c, s, d);
    case ByCaller(q) => CallerChanges(c, s, q);
    case ByEnv(e) => EnvChanges(c, s, e);
  }

  lemma {:induction false} StepKeepsInv(c: Config, s: State, a: Step)
    requires Inv(c, s) && Enabled(c, s, a)
    ensures Inv(c, Do(c, s, a))
  {
    forall id ensures RequestInv(c, Do(c, s, a), id) {
      assert RequestInv(c, s, id);
      match a
      case Pass(p) => PassKeepsRequest(c, s, p, id);
      case Popped(o) => PopKeepsRequest(c, s, o, id);
      case Admission(d) => AdmitKeepsRequest(c, s, d, id);
      case ByCaller(q) => CallerKeepsRequest(c, s, q, id);
      case ByEnv(e) => EnvKeepsRequest(c, s, e, id);
    }
    match a
    case Pass(p) => PassKeepsQueue(c, s, p); PassKeepsPermits(c, s, p); PassKeepsBoost(c, s, p);
    case Popped(o) => PopKeepsQueue(c, s, o); PopKeepsPermits(c, s, o); if c.mode.SessionBoost? { PopKeepsBoost(c, s, o); }
    case Admission(d) => AdmitKeepsQueue(c, s, d); AdmitKeepsPermits(c, s, d); if c.mode.SessionBoost? { AdmitKeepsBoost(c, s, d); }
    case ByCaller(q) => CallerKeepsQueue(c, s, q); CallerKeepsPermits(c, s, q); if c.mode.SessionBoost? { CallerKeepsBoost(c, s, q); }
    case ByEnv(e) => EnvKeepsQueue(c, s, e); EnvKeepsPermits(c, s, e); if c.mode.SessionBoost? { EnvKeepsBoost(c, s, e); }
  }

  lemma {:induction false} RunKeepsInv(c: Config, s: State, run: seq<Step>, t: State)
    requires Inv(c, s) && Reaches(c, s, run, t)
    ensures Inv(c, t)
    decreases |run|
  {
    if run != [] {
      StepKeepsInv(c, s, run[0]);
      RunKeepsInv(c, Do(c, s, run[0]), run[1..], t);
    }
  }

  /** `t` is reachable by some interleaving from the start of a queue. */
  ghost predicate Reachable(c: Config, limit: int, backendOk: bool, run: seq<Step>, t: State) {
    Reaches(c, Init(c, limit, backendOk), run, t)
  }

  lemma {:induction false} ReachableInv(c: Config, limit: int, backendOk: bool, run: seq<Step>, t: State)
    requires Reachable(c, limit, backendOk, run, t)
    ensures Inv(c, t)
  {
    RunKeepsInv(c, Init(c, limit, backendOk), run, t);
  }

  // ----- What holds of every run -----

  /** Permits are conserved and bounded, and no request is both admitted and abandoned. */
  lemma {:induction false} PermitConservation(c: Config, limit: int, backendOk: bool, run: seq<Step>, t: State)
    requires Reachable(c, limit, backendOk, run, t)
    ensures t.released <= t.admitted && t.admitted !! t.abandoned
    ensures t.permits == |t.admitted - t.released| + (if t.loop.HasPermit? || t.loop.NoAdmit? then 1 else 0)
    ensures c.mode.Semaphore? ==> t.permits <= c.capacity
    ensures !c.mode.FixedRate? ==> t.notified <= t.admitted
  {
    ReachableInv(c, limit, backendOk, run, t);
    forall id: Id ensures
      && (id in t.released ==> id in t.admitted) && !(id in t.admitted && id in t.abandoned)
      && (!c.mode.FixedRate? && id in t.notified ==> id in t.admitted)
    {
      assert RequestInv(c, t, id);
    }
  }

  /** The permit count drops only when an owner returns its permit, each owner does so once, and there is always one to return. */
  lemma {:induction false} PermitReturnsOnce(c: Config, limit: int, backendOk: bool, run: seq<Step>, t: State, a: Step)
    requires Reachable(c, limit, backendOk, run, t) && Enabled(c, t, a)
    ensures Do(c, t, a).permits < t.permits <==> Lowers(a)
    ensures Lowers(a) ==> t.permits > 0
    ensures a.ByCaller? && a.q.Release? ==> a.q.id in t.admitted && a.q.id !in t.released
  {
    ReachableInv(c, limit, backendOk, run, t);
    StepChanges(c, t, a);
    if a.ByCaller? && a.q.Release? {
      assert RequestInv(c, t, a.q.id);
      assert a.q.id in t.admitted - t.released;
    }
  }

  /** No permit leaks: a caller that is done has returned the permit of its admission, so when all are done none is out. */
  lemma {:induction false} FinishedReturnedPermit(c: Config, limit: int, backendOk: bool, run: seq<Step>, t: State)
    requires Reachable(c, limit, backendOk, run, t)
    ensures forall id :: Is(t, id, Done) && id in t.admitted ==> id in t.released
    ensures (forall id :: id in t.callers ==> t.callers[id].Done?) ==>
      t.permits == if t.loop.HasPermit? || t.loop.NoAdmit? then 1 else 0
  {
    ReachableInv(c, limit, backendOk, run, t);
    forall id | Is(t, id, Done) && id in t.admitted ensures id in t.released {
      assert RequestInv(c, t, id);
    }
    if forall id :: id in t.callers ==> t.callers[id].Done? {
      forall id | id in t.admitted ensures id in t.released {
        assert RequestInv(c, t, id) && Is(t, id, Done);
      }
      assert t.admitted - t.released == {};
    }
  }

  /** No NotifyChan is closed twice, and outside the fixed-rate mode it is closed only after the admission is committed. */
  lemma {:induction false} NotifyClosesOnce(c: Config, limit: int, backendOk: bool, run: seq<Step>, t: State)
    requires Reachable(c, limit, backendOk, run, t) && Enabled(c, t, Admission(Notify))
    ensures t.loop.id !in t.notified
    ensures !c.mode.FixedRate? ==> t.loop.id in t.admitted
  {
    ReachableInv(c, limit, backendOk, run, t);
    assert RequestInv(c, t, t.loop.id);
  }

  /** In session-boost mode no admission raises the inflight count above the limit read for its pass. */
  lemma {:induction false} InflightBounded(c: Config, limit: int, backendOk: bool, run: seq<Step>, t: State, a: Step)
    requires c.mode.SessionBoost? && Reachable(c, limit, backendOk, run, t) && Enabled(c, t, a)
    ensures Do(c, t, a).permits > t.permits ==> Do(c, t, a).permits <= t.passLimit
  {
    ReachableInv(c, limit, backendOk, run, t);
    StepChanges(c, t, a);
  }

  /** In every mode: a loop that waits for an arrival although a request is queued has been or is about to be signalled. */
  lemma {:induction false} NoLostArrival(c: Config, limit: int, backendOk: bool, run: seq<Step>, t: State)
    requires Reachable(c, limit, backendOk, run, t) && t.loop.Waiting? && t.heap != {}
    ensures t.notifySig || t.pusher.Some?
  {
    ReachableInv(c, limit, backendOk, run, t);
  }

  /**
   No wakeup is lost: whenever the session-boost loop is idle although a request is held, the
   backends have room and the inflight count is below the limit the latest pass worked with,
   some signal is pending or about to be sent.
   */
  lemma {:induction false} NoLostWakeup(c: Config, limit: int, backendOk: bool, run: seq<Step>, t: State)
    requires c.mode.SessionBoost? && Reachable(c, limit, backendOk, run, t)
    requires t.loop.Idle? && !Stopping(t) && t.heap != {} && t.backendOk && t.permits < t.passLimit
    ensures Awake(t)
  {
    ReachableInv(c, limit, backendOk, run, t);
  }

  lemma {:induction false} FixedPodsFixLimit(c: Config, s: State, run: seq<Step>, t: State)
    requires Inv(c, s) && Reaches(c, s, run, t) && s.passLimit == s.limit
    requires forall i :: 0 <= i < |run| ==> !IsPodsChange(run[i])
    ensures t.passLimit == t.limit == s.limit
    decreases |run|
  {
    if run != [] {
      StepKeepsInv(c, s, run[0]);
      StepChanges(c, s, run[0]);
      FixedPodsFixLimit(c, Do(c, s, run[0]), run[1..], t);
    }
  }

  /** With a fixed pod count the limit of the latest pass is the limit, so no wakeup is lost at all. */
  lemma {:induction false} NoLostWakeupWithFixedPods(c: Config, limit: int, backendOk: bool, run: seq<Step>, t: State)
    requires c.mode.SessionBoost? && Reachable(c, limit, backendOk, run, t)
    requires forall i :: 0 <= i < |run| ==> !IsPodsChange(run[i])
    requires t.loop.Idle? && !Stopping(t) && t.heap != {} && t.backendOk && t.permits < limit
    ensures Awake(t)
  {
    FixedPodsFixLimit(c, Init(c, limit, backendOk), run, t);
    NoLostWakeup(c, limit, backendOk, run, t);
  }

  // ----- What every admission went through -----

  /** The states a run passes through. */
  ghost predicate IsTraceOf(c: Config, limit: int, backendOk: bool, states: seq<State>, run: seq<Step>) {
    && |states| == |run| + 1 && states[0] == Init(c, limit, backendOk)
    && forall i :: 0 <= i < |run| ==> Enabled(c, states[i], run[i]) && states[i + 1] == Do(c, states[i], run[i])
  }

  lemma {:induction false} TraceKeepsInv(c: Config, limit: int, backendOk: bool, states: seq<State>, run: seq<Step>, n: nat)
    requires IsTraceOf(c, limit, backendOk, states, run) && n <= |run|
    ensures Inv(c, states[n])
  {
    if n > 0 {
      TraceKeepsInv(c, limit, backendOk, states, run, n - 1);
      StepKeepsInv(c, states[n - 1], run[n - 1]);
    }
  }

  /** The latest of the first `n` steps that is `a`, or -1. */
  ghost function Last(run: seq<Step>, a: Step, n: nat): (j: int)
    requires n <= |run|
    ensures -1 <= j < n && (j >= 0 ==> run[j] == a) && forall k :: j < k < n ==> run[k] != a
  {
    if n == 0 then -1 else if run[n - 1] == a then n - 1 else Last(run, a, n - 1)
  }

  /** Callers and the environment leave the loop alone. */
  ghost predicate LeavesLoop(s: State, t: State) {
    t.loop == s.loop && t.passLimit == s.passLimit && t.notified == s.notified && (Stopping(s) ==> Stopping(t))
  }

  lemma {:induction false} CallerLeavesLoop(c: Config, s: State, a: CallerStep)
    requires CallerEnabled(c, s, a)
    ensures LeavesLoop(s, DoCaller(c, s, a))
  {
  }

  lemma {:induction false} EnvLeavesLoop(s: State, a: EnvStep)
    requires EnvEnabled(s, a)
    ensures LeavesLoop(s, DoEnv(s, a))
  {
  }

  ghost predicate PastLength(l: Loop) { l.Popping? || l.Waiting? || l.Holding? }

  ghost predicate PastBackend(l: Loop) { l.CheckLength? || PastLength(l) }

  ghost predicate PastInflight(l: Loop) { l.CheckBackend? || PastBackend(l) }

  ghost predicate PastPods(l: Loop) { l.ReadInflight? || l.Signalling? || PastInflight(l) }

  /** Each check of a pass is passed only by its own step, after the one before it, and an admission starts over. */
  ghost predicate ChecksInOrder(s: State, a: Step, t: State) {
    && (if a == Pass(PodsRead) then t.passLimit == s.limit && !PastInflight(t.loop)
        else t.passLimit == s.passLimit && (PastPods(t.loop) ==> PastPods(s.loop)))
    && (if a == Pass(InflightRead) then PastPods(s.loop) && (PastInflight(t.loop) ==> s.permits < s.passLimit) && !PastBackend(t.loop)
        else PastInflight(t.loop) ==> PastInflight(s.loop))
    && (if a == Pass(BackendChecked) then PastInflight(s.loop) && (PastBackend(t.loop) ==> s.backendOk) && !PastLength(t.loop)
        else PastBackend(t.loop) ==> PastBackend(s.loop))
    && (if a == Pass(LengthChecked) then PastBackend(s.loop) && (PastLength(t.loop) ==> s.heap != {})
        else PastLength(t.loop) ==> PastLength(s.loop))
    && (a == Admission(Commit) ==> PastLength(s.loop) && !PastInflight(t.loop))
  }

  lemma {:induction false} PassChecksInOrder(c: Config, s: State, a: PassStep)
    requires PassEnabled(c, s, a)
    ensures ChecksInOrder(s, Pass(a), DoPass(c, s, a))
  {
  }

  lemma {:induction false} PopChecksInOrder(c: Config, s: State, a: PopStep)
    requires c.mode.SessionBoost? && ModeInv(c, s.loop) && PopEnabled(s, a)
    ensures ChecksInOrder(s, Popped(a), DoPop(c, s, a))
  {
  }

  lemma {:induction false} AdmitChecksInOrder(c: Config, s: State, a: AdmitStep)
    requires c.mode.SessionBoost? && ModeInv(c, s.loop) && AdmitEnabled(c, s, a)
    ensures ChecksInOrder(s, Admission(a), DoAdmit(c, s, a))
  {
  }

  lemma {:induction false} StepChecksInOrder(c: Config, s: State, a: Step)
    requires c.mode.SessionBoost? && ModeInv(c, s.loop) && Enabled(c, s, a)
    ensures ChecksInOrder(s, a, Do(c, s, a))
  {
    match a {
      case Pass(p) => PassChecksInOrder(c, s, p);
      case Popped(o) => PopChecksInOrder(c, s, o);
      case Admission(d) => AdmitChecksInOrder(c, s, d);
      case ByCaller(q) => CallerLeavesLoop(c, s, q);
      case ByEnv(e) => EnvLeavesLoop(s, e);
    }
  }

  /** Where the loop stands after `n` steps, the checks of its pass have been made, in order, since the last admission. */
  ghost predicate ChecksMade(states: seq<State>, run: seq<Step>, n: nat, l: Loop)
    requires n <= |run| < |states|
  {
    var pods, inflight := Last(run, Pass(PodsRead), n), Last(run, Pass(InflightRead), n);
    var backend, length := Last(run, Pass(BackendChecked), n), Last(run, Pass(LengthChecked), n);
    && (PastPods(l) ==> 0 <= pods && states[n].passLimit == states[pods].limit)
    && (PastInflight(l) ==> pods < inflight && Last(run, Admission(Commit), n) < inflight && states[inflight].permits < states[pods].limit)
    && (PastBackend(l) ==> inflight < backend && states[backend].backendOk)
    && (PastLength(l) ==> backend < length && states[length].heap != {})
  }

  lemma {:induction false} ChecksCarryOver(states: seq<State>, run: seq<Step>, n: nat)
    requires 0 < n <= |run| < |states| && ChecksMade(states, run, n - 1, states[n - 1].loop)
    requires ChecksInOrder(states[n - 1], run[n - 1], states[n])
    ensures ChecksMade(states, run, n, states[n].loop)
  {
  }

  lemma {:induction false} TraceChecksInOrder(c: Config, limit: int, backendOk: bool, states: seq<State>, run: seq<Step>, i: nat)
    requires c.mode.SessionBoost? && IsTraceOf(c, limit, backendOk, states, run) && i < |run|
    ensures ChecksInOrder(states[i], run[i], states[i + 1])
  {
    TraceKeepsInv(c, limit, backendOk, states, run, i);
    StepChecksInOrder(c, states[i], run[i]);
  }

  ghost predicate AllInOrder(states: seq<State>, run: seq<Step>) {
    |states| == |run| + 1 && forall i :: 0 <= i < |run| ==> ChecksInOrder(states[i], run[i], states[i + 1])
  }

  lemma {:induction false} ChecksAreMade(states: seq<State>, run: seq<Step>, n: nat)
    requires AllInOrder(states, run) && !PastPods(states[0].loop) && n <= |run|
    ensures ChecksMade(states, run, n, states[n].loop)
  {
    if n > 0 {
      ChecksAreMade(states, run, n - 1);
      ChecksCarryOver(states, run, n);
    }
  }

  lemma {:induction false} TraceIsInOrder(c: Config, limit: int, backendOk: bool, states: seq<State>, run: seq<Step>)
    requires c.mode.SessionBoost? && IsTraceOf(c, limit, backendOk, states, run)
    ensures AllInOrder(states, run) && !PastPods(states[0].loop)
  {
    forall i | 0 <= i < |run| ensures ChecksInOrder(states[i], run[i], states[i + 1]) {
      TraceChecksInOrder(c, limit, backendOk, states, run, i);
    }
  }

  /**
   In session-boost mode every admission was preceded, in this order and since the admission before it, by a look at the
   inflight count that found room under the pod limit read before, by a backend check that found capacity, and by a
   look at the queue that found a request; the count is still below that limit.
   */
  lemma {:induction false} AdmissionWasChecked(c: Config, limit: int, backendOk: bool, states: seq<State>, run: seq<Step>, i: nat)
    requires c.mode.SessionBoost? && IsTraceOf(c, limit, backendOk, states, run) && i < |run| && run[i] == Admission(Commit)
    ensures var pods, inflight := Last(run, Pass(PodsRead), i), Last(run, Pass(InflightRead), i);
      var backend, length := Last(run, Pass(BackendChecked), i), Last(run, Pass(LengthChecked), i);
      && 0 <= pods < inflight < backend < length < i
      && states[inflight].permits < states[pods].limit && states[backend].backendOk && states[length].heap != {}
      && states[i].permits < states[pods].limit
      && forall k :: inflight <= k < i ==> run[k] != Admission(Commit)
  {
    TraceIsInOrder(c, limit, backendOk, states, run);
    ChecksAreMade(states, run, i);
    TraceKeepsInv(c, limit, backendOk, states, run, i);
  }

  /** So nothing is admitted while every backend check finds the backends busy. */
  lemma {:induction false} BusyBackendsAdmitNothing(c: Config, limit: int, backendOk: bool, states: seq<State>, run: seq<Step>)
    requires c.mode.SessionBoost? && IsTraceOf(c, limit, backendOk, states, run)
    requires forall j :: 0 <= j < |run| && run[j] == Pass(BackendChecked) ==> !states[j].backendOk
    ensures forall i :: 0 <= i < |run| ==> run[i] != Admission(Commit)
  {
    forall i | 0 <= i < |run| ensures run[i] != Admission(Commit) {
      if run[i] == Admission(Commit) {
        AdmissionWasChecked(c, limit, backendOk, states, run, i);
      }
    }
  }

  /** The step makes the loop hold a freed slot. */
  ghost predicate HoldsSlot(c: Config, s: State, a: Step) {
    (a == Pass(TakeRelease) && c.grace) || (a == Pass(HoldPendingRelease) && s.releaseSig)
  }

  /** The step ends the hold. */
  ghost predicate EndsHold(s: State, a: Step) {
    a == Pass(GraceOver) || (a == Pass(GraceStopped) && Stopping(s))
  }

  lemma {:induction false} HoldIsKept(c: Config, s: State, a: Step)
    requires s.loop.Grace? && Enabled(c, s, a) && !EndsHold(s, a)
    ensures Do(c, s, a).loop == Grace
  {
    match a {
      case Pass(p) =>
      case Popped(o) =>
      case Admission(d) =>
      case ByCaller(q) => CallerLeavesLoop(c, s, q);
      case ByEnv(e) => EnvLeavesLoop(s, e);
    }
  }

  lemma {:induction false} HoldLasts(c: Config, limit: int, backendOk: bool, states: seq<State>, run: seq<Step>, i: nat, n: nat)
    requires IsTraceOf(c, limit, backendOk, states, run) && i < n <= |run| && HoldsSlot(c, states[i], run[i])
    requires forall j :: i < j < n ==> !EndsHold(states[j], run[j])
    ensures states[n].loop == Grace
  {
    if i < n - 1 {
      HoldLasts(c, limit, backendOk, states, run, i, n - 1);
      HoldIsKept(c, states[n - 1], run[n - 1]);
    }
  }

  /** A freed slot is held: between taking a release and the next admission the grace period ends, or the queue stops. */
  lemma {:induction false} FreedSlotIsHeld(c: Config, limit: int, backendOk: bool, states: seq<State>, run: seq<Step>, i: nat, k: nat)
    requires IsTraceOf(c, limit, backendOk, states, run) && i < k < |run|
    requires HoldsSlot(c, states[i], run[i]) && run[k] == Admission(Commit)
    ensures exists j :: i < j < k && EndsHold(states[j], run[j])
  {
    if forall j :: i < j < k ==> !EndsHold(states[j], run[j]) {
      HoldLasts(c, limit, backendOk, states, run, i, k);
    }
  }

  ghost predicate TakesSignal(a: Step) { a == Pass(TakeRelease) || a == Pass(TakeNotify) || a == Pass(TakeRecheck) }

  /** The step lets the loop start a pass: the grace period is over, or no release was pending. */
  ghost predicate LetsPassStart(s: State, a: Step) {
    a == Pass(GraceOver) || (a == Pass(HoldPendingRelease) && !s.releaseSig)
  }

  lemma {:induction false} PassLetsStart(c: Config, s: State, a: PassStep)
    requires c.grace && PassEnabled(c, s, a) && DoPass(c, s, a).loop.ReadPods?
    ensures LetsPassStart(s, Pass(a))
  {
  }

  lemma {:induction false} PopStartsNoPass(c: Config, s: State, a: PopStep)
    requires PopEnabled(s, a)
    ensures !DoPop(c, s, a).loop.ReadPods?
  {
  }

  lemma {:induction false} AdmitStartsNoPass(c: Config, s: State, a: AdmitStep)
    requires AdmitEnabled(c, s, a)
    ensures !DoAdmit(c, s, a).loop.ReadPods?
  {
  }

  lemma {:induction false} StartIsLet(c: Config, s: State, a: Step)
    requires c.grace && Enabled(c, s, a) && Do(c, s, a).loop.ReadPods?
    ensures LetsPassStart(s, a) || (s.loop.ReadPods? && !TakesSignal(a))
  {
    match a {
      case Pass(p) => PassLetsStart(c, s, p);
      case Popped(o) => PopStartsNoPass(c, s, o);
      case Admission(d) => AdmitStartsNoPass(c, s, d);
      case ByCaller(q) => CallerLeavesLoop(c, s, q);
      case ByEnv(e) => EnvLeavesLoop(s, e);
    }
  }

  /** With a grace period every pass, also one started by an arrival, waits until no freed slot is being held. */
  lemma {:induction false} PassWaitsForGrace(c: Config, limit: int, backendOk: bool, states: seq<State>, run: seq<Step>, n: nat)
    returns (j: nat)
    requires c.grace && IsTraceOf(c, limit, backendOk, states, run) && n <= |run| && states[n].loop.ReadPods?
    ensures j < n && LetsPassStart(states[j], run[j]) && forall k :: j < k < n ==> !TakesSignal(run[k])
  {
    StartIsLet(c, states[n - 1], run[n - 1]);
    if LetsPassStart(states[n - 1], run[n - 1]) {
      j := n - 1;
    } else {
      j := PassWaitsForGrace(c, limit, backendOk, states, run, n - 1);
    }
  }

  /** The loop works on request `id` and has found it not cancelled, in semaphore mode for the second time. */
  ghost predicate FoundLive(l: Loop, id: Id) { (l.Checked? || l.HasPermit?) && l.id == id }

  ghost predicate TakesLive(s: State, a: Step, t: State, id: Id) {
    && (Held(t, id) && a != Popped(Pop(id)) ==> Held(s, id))
    && (a == Popped(Pop(id)) ==> id in s.heap && id !in s.cancelled && !FoundLive(t.loop, id))
    && (FoundLive(t.loop, id) && a != Admission(CancelCheck) ==> FoundLive(s.loop, id))
    && (FoundLive(t.loop, id) && a == Admission(CancelCheck) ==> Held(s, id) && id !in s.cancelled)
  }

  lemma {:induction false} PassTakesLive(c: Config, s: State, a: PassStep, id: Id)
    requires PassEnabled(c, s, a)
    ensures TakesLive(s, Pass(a), DoPass(c, s, a), id)
  {
  }

  lemma {:induction false} PopTakesLive(c: Config, s: State, a: PopStep, id: Id)
    requires PopEnabled(s, a)
    ensures TakesLive(s, Popped(a), DoPop(c, s, a), id)
  {
  }

  lemma {:induction false} AdmitTakesLive(c: Config, s: State, a: AdmitStep, id: Id)
    requires AdmitEnabled(c, s, a)
    ensures TakesLive(s, Admission(a), DoAdmit(c, s, a), id)
  {
  }

  lemma {:induction false} StepTakesLive(c: Config, s: State, a: Step, id: Id)
    requires Enabled(c, s, a)
    ensures TakesLive(s, a, Do(c, s, a), id)
  {
    match a {
      case Pass(p) => PassTakesLive(c, s, p, id);
      case Popped(o) => PopTakesLive(c, s, o, id);
      case Admission(d) => AdmitTakesLive(c, s, d, id);
      case ByCaller(q) => CallerLeavesLoop(c, s, q);
      case ByEnv(e) => EnvLeavesLoop(s, e);
    }
  }

  ghost predicate AllTakeLive(states: seq<State>, run: seq<Step>, id: Id) {
    |states| == |run| + 1 && forall i :: 0 <= i < |run| ==> TakesLive(states[i], run[i], states[i + 1], id)
  }

  lemma {:induction false} TraceTakesLive(c: Config, limit: int, backendOk: bool, states: seq<State>, run: seq<Step>, id: Id)
    requires IsTraceOf(c, limit, backendOk, states, run)
    ensures AllTakeLive(states, run, id) && !Held(states[0], id)
  {
    forall i | 0 <= i < |run| ensures TakesLive(states[i], run[i], states[i + 1], id) {
      StepTakesLive(c, states[i], run[i], id);
    }
  }

  lemma {:induction false} HeldWasLive(states: seq<State>, run: seq<Step>, n: nat, id: Id)
    requires AllTakeLive(states, run, id) && !Held(states[0], id) && n <= |run|
    ensures var popped, checked := Last(run, Popped(Pop(id)), n), Last(run, Admission(CancelCheck), n);
      && (Held(states[n], id) ==> 0 <= popped && id in states[popped].heap && id !in states[popped].cancelled)
      && (FoundLive(states[n].loop, id) ==> popped < checked && id !in states[checked].cancelled)
  {
    if n > 0 {
      HeldWasLive(states, run, n - 1, id);
      assert TakesLive(states[n - 1], run[n - 1], states[n - 1 + 1], id);
    }
  }

  /**
   Only live requests are admitted: each was in the queue and not cancelled when it was popped, and in semaphore mode
   was found not cancelled once more before it got its permit.
   */
  lemma {:induction false} AdmittedWasLive(c: Config, limit: int, backendOk: bool, states: seq<State>, run: seq<Step>, i: nat)
    requires IsTraceOf(c, limit, backendOk, states, run) && i < |run| && run[i] == Admission(Commit)
    ensures var id := states[i].loop.id;
      var popped, checked := Last(run, Popped(Pop(id)), i), Last(run, Admission(CancelCheck), i);
      && 0 <= popped && id in states[popped].heap && id !in states[popped].cancelled
      && (c.mode.Semaphore? ==> popped < checked && id !in states[checked].cancelled)
  {
    var id := states[i].loop.id;
    TraceTakesLive(c, limit, backendOk, states, run, id);
    HeldWasLive(states, run, i, id);
  }

  /** A pass that ends for want of room or capacity takes exactly the cancelled requests out of the queue. */
  lemma {:induction false} RefusedPassDrains(c: Config, limit: int, backendOk: bool, states: seq<State>, run: seq<Step>, i: nat, id: Id)
    requires IsTraceOf(c, limit, backendOk, states, run) && i < |run| && run[i] == Pass(Drain)
    ensures id in states[i + 1].heap <==> id in states[i].heap && id !in states[i].cancelled
    ensures states[i + 1].loop.Idle? && states[i + 1].gauge == |states[i + 1].heap|
  {
    TraceKeepsInv(c, limit, backendOk, states, run, i + 1);
  }

  /** How many of the first `n` steps are `a`. */
  ghost function Count(run: seq<Step>, a: Step, n: nat): nat
    requires n <= |run|
  {
    if n == 0 then 0 else Count(run, a, n - 1) + if run[n - 1] == a then 1 else 0
  }

  /** Requests let through, and the one the loop is about to let through. */
  ghost function Pace(s: State): nat { |s.notified| + if PastLength(s.loop) then 1 else 0 }

  lemma {:induction false} PopKeepsPace(c: Config, s: State, a: PopStep)
    requires c.mode.FixedRate? && PopEnabled(s, a)
    ensures Pace(DoPop(c, s, a)) <= Pace(s)
  {
  }

  lemma {:induction false} AdmitKeepsPace(c: Config, s: State, a: AdmitStep)
    requires c.mode.FixedRate? && ModeInv(c, s.loop) && AdmitEnabled(c, s, a)
    ensures Pace(DoAdmit(c, s, a)) <= Pace(s) + if a == Tick then 1 else 0
  {
    if a == Notify {
      assert |s.notified + {s.loop.id}| <= |s.notified| + 1;
    }
  }

  lemma {:induction false} StepKeepsPace(c: Config, s: State, a: Step)
    requires c.mode.FixedRate? && ModeInv(c, s.loop) && Enabled(c, s, a)
    ensures Pace(Do(c, s, a)) <= Pace(s) + if a == Admission(Tick) then 1 else 0
  {
    match a {
      case Pass(p) =>
      case Popped(o) => PopKeepsPace(c, s, o);
      case Admission(d) => AdmitKeepsPace(c, s, d);
      case ByCaller(q) => CallerLeavesLoop(c, s, q);
      case ByEnv(e) => EnvLeavesLoop(s, e);
    }
  }

  /** In the fixed-rate mode at most one request is let through per tick. */
  lemma {:induction false} TicksPaceAdmissions(c: Config, limit: int, backendOk: bool, states: seq<State>, run: seq<Step>, n: nat)
    requires c.mode.FixedRate? && IsTraceOf(c, limit, backendOk, states, run) && n <= |run|
    ensures Pace(states[n]) <= Count(run, Admission(Tick), n)
    ensures |states[n].notified| <= Count(run, Admission(Tick), n)
  {
    if n > 0 {
      TicksPaceAdmissions(c, limit, backendOk, states, run, n - 1);
      TraceKeepsInv(c, limit, backendOk, states, run, n - 1);
      StepKeepsPace(c, states[n - 1], run[n - 1]);
    }
  }

  ghost predicate EndsStopping(s: State) { s.loop.Exited? || s.loop.Requeueing? ==> Stopping(s) }

  lemma {:induction false} PassEndsStopping(c: Config, s: State, a: PassStep)
    requires EndsStopping(s) && PassEnabled(c, s, a)
    ensures EndsStopping(DoPass(c, s, a))
  {
  }

  lemma {:induction false} PopEndsStopping(c: Config, s: State, a: PopStep)
    requires EndsStopping(s) && PopEnabled(s, a)
    ensures EndsStopping(DoPop(c, s, a))
  {
  }

  lemma {:induction false} AdmitEndsStopping(c: Config, s: State, a: AdmitStep)
    requires EndsStopping(s) && AdmitEnabled(c, s, a)
    ensures EndsStopping(DoAdmit(c, s, a))
  {
  }

  lemma {:induction false} StepEndsStopping(c: Config, s: State, a: Step)
    requires EndsStopping(s) && Enabled(c, s, a)
    ensures EndsStopping(Do(c, s, a))
  {
    match a {
      case Pass(p) => PassEndsStopping(c, s, p);
      case Popped(o) => PopEndsStopping(c, s, o);
      case Admission(d) => AdmitEndsStopping(c, s, d);
      case ByCaller(q) => CallerLeavesLoop(c, s, q);
      case ByEnv(e) => EnvLeavesLoop(s, e);
    }
  }

  /** The loop ends only when the queue is closed or its context is done. */
  lemma {:induction false} LoopEndsOnlyWhenStopping(c: Config, s: State, run: seq<Step>, t: State)
    requires EndsStopping(s) && Reaches(c, s, run, t)
    ensures t.loop.Exited? ==> Stopping(t)
    decreases |run|
  {
    if run != [] {
      StepEndsStopping(c, s, run[0]);
      LoopEndsOnlyWhenStopping(c, Do(c, s, run[0]), run[1..], t);
    }
  }

  // ----- Pod counts that change -----

  /** The loop works with a limit it has read, and may still wait for an arrival before it ends the pass. */
  ghost predicate MayWait(l: Loop) {
    l.ReadInflight? || l.CheckBackend? || l.CheckLength? || l.Popping? || l.Waiting? || l.Holding? || l.Signalling?
  }

  /** The step takes back the recheck of a risen limit, because the heap is empty, while a pass still works with the old one. */
  ghost predicate Misses(s: State, a: Step) {
    a == ByEnv(RecheckRead) && s.heap == {} && s.passLimit < s.limit && MayWait(s.loop)
  }

  ghost predicate MissesNothing(c: Config, s: State, run: seq<Step>)
    decreases |run|
  {
    run != [] && Enabled(c, s, run[0]) ==> !Misses(s, run[0]) && MissesNothing(c, Do(c, s, run[0]), run[1..])
  }

  ghost predicate RecheckPending(s: State) { s.recheckSig || s.rechecks > 0 || s.resends > 0 }

  /** While the latest pass worked with too low a limit, a recheck is on its way, or a new pass is, or nothing is held unsignalled. */
  ghost predicate RiseInv(s: State) {
    s.passLimit < s.limit && !Stopping(s) ==>
      || RecheckPending(s) || s.loop.Grace? || s.loop.MaybeHold? || s.loop.ReadPods?
      || (!MayWait(s.loop) && (s.heap == {} || s.notifySig || s.pusher.Some?))
  }

  lemma {:induction false} PassKeepsRise(c: Config, s: State, a: PassStep)
    requires RiseInv(s) && PassEnabled(c, s, a)
    ensures RiseInv(DoPass(c, s, a))
  {
  }

  lemma {:induction false} PopKeepsRise(c: Config, s: State, a: PopStep)
    requires c.mode.SessionBoost? && RiseInv(s) && PopEnabled(s, a)
    ensures RiseInv(DoPop(c, s, a))
  {
  }

  lemma {:induction false} AdmitKeepsRise(c: Config, s: State, a: AdmitStep)
    requires c.mode.SessionBoost? && ModeInv(c, s.loop) && RiseInv(s) && AdmitEnabled(c, s, a)
    ensures RiseInv(DoAdmit(c, s, a))
  {
  }

  lemma {:induction false} CallerKeepsRise(c: Config, s: State, a: CallerStep)
    requires RiseInv(s) && CallerEnabled(c, s, a)
    ensures RiseInv(DoCaller(c, s, a))
  {
  }

  lemma {:induction false} EnvKeepsRise(c: Config, s: State, a: EnvStep)
    requires c.mode.SessionBoost? && ModeInv(c, s.loop) && RiseInv(s) && EnvEnabled(s, a) && !Misses(s, ByEnv(a))
    ensures RiseInv(DoEnv(s, a))
  {
  }

  lemma {:induction false} RunKeepsRise(c: Config, s: State, run: seq<Step>, t: State)
    requires c.mode.SessionBoost? && Inv(c, s) && RiseInv(s) && Reaches(c, s, run, t) && MissesNothing(c, s, run)
    ensures RiseInv(t)
    decreases |run|
  {
    if run != [] {
      StepKeepsInv(c, s, run[0]);
      match run[0] {
        case Pass(p) => PassKeepsRise(c, s, p);
        case Popped(o) => PopKeepsRise(c, s, o);
        case Admission(d) => AdmitKeepsRise(c, s, d);
        case ByCaller(q) => CallerKeepsRise(c, s, q);
        case ByEnv(e) => EnvKeepsRise(c, s, e);
      }
      RunKeepsRise(c, Do(c, s, run[0]), run[1..], t);
    }
  }

  /**
   Pod counts may change at any time: no wakeup is lost against the current limit, unless the recheck of a risen limit
   finds the heap empty while a pass that read the old limit may still wait.
   */
  lemma {:induction false} NoLostWakeupUnlessMissed(c: Config, limit: int, backendOk: bool, run: seq<Step>, t: State)
    requires c.mode.SessionBoost? && Reachable(c, limit, backendOk, run, t) && MissesNothing(c, Init(c, limit, backendOk), run)
    requires t.loop.Idle? && !Stopping(t) && t.heap != {} && t.backendOk && t.permits < t.limit
    ensures Awake(t)
  {
    RunKeepsRise(c, Init(c, limit, backendOk), run, t);
    if t.limit <= t.passLimit {
      NoLostWakeup(c, limit, backendOk, run, t);
    }
  }

  /** No step raises the limit. */
  ghost predicate NeverRises(c: Config, s: State, run: seq<Step>)
    decreases |run|
  {
    run != [] && Enabled(c, s, run[0]) ==> Do(c, s, run[0]).limit <= s.limit && NeverRises(c, Do(c, s, run[0]), run[1..])
  }

  /** In particular no recheck is missed while the pod count only falls. */
  lemma {:induction false} FallingPodsMissNothing(c: Config, s: State, run: seq<Step>)
    requires Inv(c, s) && s.limit <= s.passLimit && NeverRises(c, s, run)
    ensures MissesNothing(c, s, run)
    decreases |run|
  {
    if run != [] && Enabled(c, s, run[0]) {
      StepKeepsInv(c, s, run[0]);
      StepChanges(c, s, run[0]);
      FallingPodsMissNothing(c, Do(c, s, run[0]), run[1..]);
    }
  }

  lemma {:induction false} Concatenate(c: Config, s: State, run: seq<Step>, t: State, more: seq<Step>, u: State)
    requires Reaches(c, s, run, t) && Reaches(c, t, more, u)
    ensures Reaches(c, s, run + more, u)
    decreases |run|
  {
    if run == [] {
      assert run + more == more;
    } else {
      Concatenate(c, Do(c, s, run[0]), run[1..], t, more, u);
      assert (run + more)[1..] == run[1..] + more;
    }
  }

  lemma {:induction false} IsTrace(c: Config, states: seq<State>, run: seq<Step>)
    requires |states| == |run| + 1
    requires forall i :: 0 <= i < |run| ==> Enabled(c, states[i], run[i]) && states[i + 1] == Do(c, states[i], run[i])
    ensures Reaches(c, states[0], run, states[|run|])
    decreases |run|
  {
    if run != [] {
      IsTrace(c, states[1..], run[1..]);
    }
  }

  // ----- A missed recheck does lose a wakeup -----

  /** Apart from an arrival nothing is pending, the backends have room, and no queued request was given up. */
  ghost predicate Quiet(c: Config, s: State) {
    && c.mode.SessionBoost? && Inv(c, s) && !Stopping(s) && s.backendOk && s.pusher.None?
    && !s.releaseSig && s.releasing == {} && !RecheckPending(s)
    && s.heap !! s.cancelled
  }

  /** Nothing will wake the loop, although a request is held and there is room under the current limit. */
  ghost predicate Lost(s: State) {
    s.loop.Idle? && !Stopping(s) && s.heap != {} && s.backendOk && s.permits < s.limit && !Awake(s)
  }

  ghost predicate SameLimits(s: State, t: State) { t.limit == s.limit && t.passLimit == s.passLimit }

  lemma {:induction false} FreshId(ids: set<Id>) returns (id: Id)
    ensures id !in ids && forall other :: other in ids ==> other < id
  {
    if ids == {} {
      id := 0;
    } else {
      var x :| x in ids;
      var rest := FreshId(ids - {x});
      id := if rest > x then rest else x + 1;
      forall other | other in ids ensures other < id {
        assert other == x || other in ids - {x};
      }
    }
  }

  lemma {:induction false} TwoSteps(c: Config, s: State, a: Step, b: Step)
    requires Enabled(c, s, a) && Enabled(c, Do(c, s, a), b)
    ensures Reaches(c, s, [a, b], Do(c, Do(c, s, a), b))
  {
    assert [a, b][1..] == [b] && [b][1..] == [];
  }

  lemma {:induction false} PushOne(c: Config, s: State) returns (run: seq<Step>, t: State)
    requires Quiet(c, s) && s.loop.Waiting?
    ensures Reaches(c, s, run, t) && Quiet(c, t) && t.loop.Waiting? && t.notifySig
    ensures SameLimits(s, t) && t.permits == s.permits && |t.heap| == |s.heap| + 1
  {
    var id := FreshId(s.callers.Keys);
    assert RequestInv(c, s, id);
    var a, b := ByCaller(PushBegin(id)), ByCaller(PushEnd);
    run, t := [a, b], Do(c, Do(c, s, a), b);
    TwoSteps(c, s, a, b);
    StepKeepsInv(c, s, a);
    StepKeepsInv(c, Do(c, s, a), b);
    assert t.heap == s.heap + {id} && id !in s.heap;
  }

  lemma {:induction false} PushMany(c: Config, s: State, k: nat) returns (run: seq<Step>, t: State)
    requires Quiet(c, s) && s.loop.Waiting?
    ensures Reaches(c, s, run, t) && Quiet(c, t) && t.loop.Waiting? && (k > 0 ==> t.notifySig)
    ensures SameLimits(s, t) && t.permits == s.permits && |t.heap| == |s.heap| + k
    decreases k
  {
    if k == 0 {
      run, t := [], s;
    } else {
      var first, u := PushOne(c, s);
      var more;
      more, t := PushMany(c, u, k - 1);
      Concatenate(c, s, first, u, more, t);
      run := first + more;
    }
  }

  /** One admission of the pass, up to the next look at the inflight count. */
  lemma {:induction false} AdmitOne(c: Config, s: State) returns (run: seq<Step>, t: State)
    requires Quiet(c, s) && s.loop.Popping? && s.heap != {} && !s.notifySig
    ensures Reaches(c, s, run, t) && Quiet(c, t) && t.loop.ReadInflight? && !t.notifySig
    ensures SameLimits(s, t) && t.permits == s.permits + 1 && |t.heap| == |s.heap| - 1
  {
    var id :| id in s.heap;
    assert RequestInv(c, s, id);
    var s1 := DoPop(c, s, Pop(id));
    var s2 := DoAdmit(c, s1, Commit);
    t := DoAdmit(c, s2, Notify);
    StepKeepsInv(c, s, Popped(Pop(id)));
    StepKeepsInv(c, s1, Admission(Commit));
    StepKeepsInv(c, s2, Admission(Notify));
    run := [Popped(Pop(id)), Admission(Commit), Admission(Notify)];
    IsTrace(c, [s, s1, s2, t], run);
    assert t.heap == s.heap - {id};
  }

  /** With room left the pass goes on to the next request. */
  lemma {:induction false} PassGoesOn(c: Config, s: State) returns (run: seq<Step>, t: State)
    requires Quiet(c, s) && s.loop.ReadInflight? && s.heap != {} && !s.notifySig && s.permits < s.passLimit
    ensures Reaches(c, s, run, t) && Quiet(c, t) && t.loop.Popping? && !t.notifySig
    ensures SameLimits(s, t) && t.permits == s.permits && t.heap == s.heap
  {
    var s1 := DoPass(c, s, InflightRead);
    var s2 := DoPass(c, s1, BackendChecked);
    t := DoPass(c, s2, LengthChecked);
    StepKeepsInv(c, s, Pass(InflightRead));
    StepKeepsInv(c, s1, Pass(BackendChecked));
    StepKeepsInv(c, s2, Pass(LengthChecked));
    run := [Pass(InflightRead), Pass(BackendChecked), Pass(LengthChecked)];
    IsTrace(c, [s, s1, s2, t], run);
  }

  /** With none left it ends, and nothing wakes it for what is still held. */
  lemma {:induction false} PassEndsFull(c: Config, s: State) returns (run: seq<Step>, t: State)
    requires Quiet(c, s) && s.loop.ReadInflight? && s.heap != {} && !s.notifySig && s.passLimit <= s.permits < s.limit
    ensures Reaches(c, s, run, t) && Lost(t)
  {
    var a, b := Pass(InflightRead), Pass(Drain);
    run, t := [a, b], Do(c, Do(c, s, a), b);
    TwoSteps(c, s, a, b);
    assert s.heap - s.cancelled == s.heap;
  }

  lemma {:induction false} AdmitUntilFull(c: Config, s: State) returns (run: seq<Step>, t: State)
    requires Quiet(c, s) && s.loop.Popping? && !s.notifySig && s.permits < s.passLimit < s.limit
    requires |s.heap| == s.passLimit - s.permits + 1
    ensures Reaches(c, s, run, t) && Lost(t)
    decreases s.passLimit - s.permits
  {
    var more, u, v;
    run, u := AdmitOne(c, s);
    if u.permits < u.passLimit {
      more, v := PassGoesOn(c, u);
      Concatenate(c, s, run, u, more, v);
      run := run + more;
      more, t := AdmitUntilFull(c, v);
      Concatenate(c, s, run, v, more, t);
    } else {
      more, t := PassEndsFull(c, u);
      Concatenate(c, s, run, u, more, t);
    }
    run := run + more;
  }

  /**
   The exception of NoLostWakeupUnlessMissed is real wherever the loop waits: after the last recheck of a risen limit was
   taken back, enough arrivals and then the loop alone lead to a lost wakeup.
   */
  lemma {:induction false} MissedRecheckLosesWakeup(c: Config, s: State) returns (run: seq<Step>, t: State)
    requires Misses(s, ByEnv(RecheckRead)) && Enabled(c, s, ByEnv(RecheckRead)) && s.loop.Waiting?
    requires Quiet(c, DoEnv(s, RecheckRead)) && !s.notifySig && c.mode.SessionBoost?
    ensures run != [] && run[0] == ByEnv(RecheckRead) && Reaches(c, s, run, t) && Lost(t)
  {
    var a := ByEnv(RecheckRead);
    var s1 := Do(c, s, a);
    var pushes, s2 := PushMany(c, s1, s1.passLimit - s1.permits + 1);
    var wake := Popped(WakeInPop);
    var s3 := Do(c, s2, wake);
    StepKeepsInv(c, s2, wake);
    var rest;
    rest, t := AdmitUntilFull(c, s3);
    assert [wake][1..] == [] && [a][1..] == [];
    Concatenate(c, s2, [wake], s3, rest, t);
    Concatenate(c, s1, pushes, s2, [wake] + rest, t);
    Concatenate(c, s, [a], s1, pushes + ([wake] + rest), t);
    run := [a] + (pushes + ([wake] + rest));
  }

  // A run in which the pod count grows while the loop waits inside popWhenAvailable.

  const BOOST := Config(SessionBoost, 0, false)

  ghost function Started(): State {
    Init(BOOST, 1, true).(loop := ReadInflight, heap := {0}, gauge := 1, accepted := {0}, cancelled := {0}, callers := map[0 := Queued])
  }

  ghost function Parked(): State {
    Started().(loop := Waiting, heap := {}, gauge := 0)
  }

  ghost function Grown(): State {
    Parked().(limit := 2)
  }

  ghost function Resized(): State {
    Grown().(heap := {1}, gauge := 1, notifySig := true, accepted := {0, 1}, callers := map[0 := Queued, 1 := Queued])
  }

  ghost function Refilled(): State {
    Resized().(heap := {1, 2}, gauge := 2, accepted := {0, 1, 2}, callers := map[0 := Queued, 1 := Queued, 2 := Queued])
  }

  ghost function Stuck(): State {
    Refilled().(loop := Idle, notifySig := false, heap := {2}, gauge := 1, permits := 1, admitted := {1}, notified := {1})
  }

  lemma {:induction false} StartedIsReached() returns (run: seq<Step>)
    ensures Reaches(BOOST, Init(BOOST, 1, true), run, Started())
  {
    var s0 := Init(BOOST, 1, true);
    var s1 := DoCaller(BOOST, s0, PushBegin(0));
    var s2 := DoCaller(BOOST, s1, PushEnd);
    var s3 := DoEnv(s2, Cancel(0));
    var s4 := DoPass(BOOST, s3, TakeNotify);
    var s5 := DoPass(BOOST, s4, PodsRead);
    assert s5 == Started();
    run := [ByCaller(PushBegin(0)), ByCaller(PushEnd), ByEnv(Cancel(0)), Pass(TakeNotify), Pass(PodsRead)];
    IsTrace(BOOST, [s0, s1, s2, s3, s4, s5], run);
  }

  lemma {:induction false} ParkedIsReached() returns (run: seq<Step>)
    ensures Reaches(BOOST, Started(), run, Parked())
  {
    var s0 := Started();
    var s1 := DoPass(BOOST, s0, InflightRead);
    var s2 := DoPass(BOOST, s1, BackendChecked);
    var s3 := DoPass(BOOST, s2, LengthChecked);
    var s4 := DoPop(BOOST, s3, PopSkip(0));
    assert s4.heap == {};
    var s5 := DoPop(BOOST, s4, PopEmpty);
    assert s5 == Parked();
    run := [Pass(InflightRead), Pass(BackendChecked), Pass(LengthChecked), Popped(PopSkip(0)), Popped(PopEmpty)];
    IsTrace(BOOST, [s0, s1, s2, s3, s4, s5], run);
  }

  lemma {:induction false} GrownIsReached() returns (run: seq<Step>)
    ensures Reaches(BOOST, Parked(), run, Grown())
  {
    var s0 := Parked();
    var s1 := DoEnv(s0, PodsChange(2));
    var s2 := DoEnv(s1, RecheckRead);
    assert s2 == Grown();
    run := [ByEnv(PodsChange(2)), ByEnv(RecheckRead)];
    IsTrace(BOOST, [s0, s1, s2], run);
  }

  lemma {:induction false} ResizedIsReached() returns (run: seq<Step>)
    ensures Reaches(BOOST, Grown(), run, Resized())
  {
    var s0 := Grown();
    var s1 := DoCaller(BOOST, s0, PushBegin(1));
    var s2 := DoCaller(BOOST, s1, PushEnd);
    assert s2 == Resized();
    run := [ByCaller(PushBegin(1)), ByCaller(PushEnd)];
    IsTrace(BOOST, [s0, s1, s2], run);
  }

  lemma {:induction false} RefilledIsReached() returns (run: seq<Step>)
    ensures Reaches(BOOST, Resized(), run, Refilled())
  {
    var s0 := Resized();
    var s1 := DoCaller(BOOST, s0, PushBegin(2));
    var s2 := DoCaller(BOOST, s1, PushEnd);
    assert s2 == Refilled();
    run := [ByCaller(PushBegin(2)), ByCaller(PushEnd)];
    IsTrace(BOOST, [s0, s1, s2], run);
  }

  lemma {:induction false} StuckIsReached() returns (run: seq<Step>)
    ensures Reaches(BOOST, Refilled(), run, Stuck())
  {
    var s0 := Refilled();
    var s1 := DoPop(BOOST, s0, WakeInPop);
    var s2 := DoPop(BOOST, s1, Pop(1));
    var s3 := DoAdmit(BOOST, s2, Commit);
    var s4 := DoAdmit(BOOST, s3, Notify);
    var s5 := DoPass(BOOST, s4, InflightRead);
    var s6 := DoPass(BOOST, s5, Drain);
    assert s5.heap * s5.cancelled == {};
    assert s6 == Stuck();
    run := [Popped(WakeInPop), Popped(Pop(1)), Admission(Commit), Admission(Notify), Pass(InflightRead), Pass(Drain)];
    IsTrace(BOOST, [s0, s1, s2, s3, s4, s5, s6], run);
  }

  /**
   The bound of NoLostWakeup cannot be the current limit: when pods are added while a pass is parked
   on an emptied heap, the pass ends on the old limit and a request stays held with nothing to wake the loop,
   although the change was followed by its recheck.
   */
  lemma {:induction false} WakeupLostWhenPodsChange() returns (c: Config, run: seq<Step>, t: State)
    ensures c.mode.SessionBoost? && Reachable(c, 1, true, run, t)
    ensures t.loop.Idle? && !Stopping(t) && t.heap != {} && t.backendOk && t.permits < t.limit && !Awake(t)
  {
    c, t := BOOST, Stuck();
    var s := Init(c, 1, true);
    run := StartedIsReached();
    var more := ParkedIsReached();
    Concatenate(c, s, run, Started(), more, Parked());
    run := run + more;
    more := GrownIsReached();
    Concatenate(c, s, run, Parked(), more, Grown());
    run := run + more;
    more := ResizedIsReached();
    Concatenate(c, s, run, Grown(), more, Resized());
    run := run + more;
    more := RefilledIsReached();
    Concatenate(c, s, run, Resized(), more, Refilled());
    run := run + more;
    more := StuckIsReached();
    Concatenate(c, s, run, Refilled(), more, Stuck());
    run := run + more;
    assert 2 in t.heap;
  }

  /** Once closed, a queue stays closed and empty and accepts nothing more. */
  lemma {:induction false} ClosedStaysClosed(c: Config, s: State, run: seq<Step>, t: State)
    requires Inv(c, s) && s.stopped && Reaches(c, s, run, t)
    ensures t.stopped && t.heap == {} && t.gauge == 0 && t.accepted == s.accepted
    decreases |run|
  {
    if run != [] {
      StepKeepsInv(c, s, run[0]);
      StepChanges(c, s, run[0]);
      ClosedStaysClosed(c, Do(c, s, run[0]), run[1..], t);
    }
  }

  /** Shutdown loses nothing: after Close and the end of the loop every accepted request was admitted, signalled or cancelled. */
  lemma {:induction false} ShutdownLosesNothing(c: Config, limit: int, backendOk: bool, run: seq<Step>, t: State)
    requires Reachable(c, limit, backendOk, run, t)
    ensures t.gauge == |t.heap|
    ensures t.stopped && t.loop.Exited? && t.pending == {} ==>
      t.heap == {} && t.accepted <= t.admitted + t.notified + t.cancelled
    ensures !c.mode.FixedRate? && t.stopped && t.loop.Exited? && t.pending == {} ==>
      t.accepted <= t.admitted + t.cancelled
  {
    ReachableInv(c, limit, backendOk, run, t);
    if t.stopped && t.loop.Exited? && t.pending == {} {
      forall id | id in t.accepted
        ensures id in t.admitted || id in t.notified || id in t.cancelled
        ensures !c.mode.FixedRate? ==> id in t.admitted || id in t.cancelled
      {
        assert RequestInv(c, t, id);
      }
    }
  }
}
