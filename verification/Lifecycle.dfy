/**
 The datapath's two threads (dpdkd/src/datapath.c, ports.c, eal.c, daemon.c) as an interleaving of small steps:
 the control thread starts EAL, pool, ports and worker, serves commands and tears everything down; the worker
 registers, publishes the outcome of its start and forwards bursts until it is told to stop. Every startup call
 may fail, and a condition wait may wake up for no reason.
 */
module Lifecycle {
  import opened JsonGrammar

  // ----- resources -----

  /** A resource with the flag the code keeps for it and how often it was acquired and released. */
  datatype Claim = Claim(held: bool, acquired: nat, released: nat)

  const NEVER := Claim(false, 0, 0)

  function Take(c: Claim): (r: Claim) {
    Claim(true, c.acquired + 1, c.released)
  }

  /** Cleanup looks at the flag first, so that cleaning up twice releases once. */
  function Drop(c: Claim): (r: Claim) {
    if c.held then Claim(false, c.acquired, c.released + 1) else c
  }

  predicate Accounted(c: Claim) {
    c.acquired <= 1 && c.acquired == c.released + if c.held then 1 else 0
  }

  /** `sync` is the pair of mutex and condition variable of the start handshake. */
  datatype Claims = Claims(eal: Claim, pool: Claim, ingress: Claim, egress: Claim, sync: Claim)

  predicate AllAccounted(c: Claims) {
    Accounted(c.eal) && Accounted(c.pool) && Accounted(c.ingress) && Accounted(c.egress) && Accounted(c.sync)
  }

  predicate DeviceHeld(c: Claims) {
    c.eal.held && c.pool.held && c.ingress.held && c.egress.held
  }

  predicate DeviceFree(c: Claims) {
    !c.eal.held && !c.pool.held && !c.ingress.held && !c.egress.held
  }

  // ----- program counters -----

  datatype Direction = IngressToEgress | EgressToIngress

  datatype Worker =
    | Unborn
    | Register
    | TakeLock(report: bool)
    | PublishOk(report: bool)
    | PublishReady(report: bool)
    | Signal(report: bool)
    | ReleaseLock(report: bool)
    | CheckStop
    | CheckPause
    | Receive(dir: Direction)
    | Transmit(dir: Direction)
    | Unregister
    | Exited

  /** The start-up calls up to the creation of the worker thread. */
  datatype StartPoint =
    | CheckPrivilege | StartEal | CreatePool | AttachIngress | ConfigureIngress | AttachEgress | ConfigureEgress
    | InitSync | ResetFlags | Spawn

  /** The wait for the worker's report. */
  datatype MeetingPoint = MarkStarted | LockToCheck | CheckReady | Waiting | UnlockChecked | ReadOutcome

  /** One call of ports cleanup followed by EAL cleanup. */
  datatype Cleaning = CloseIngress | CloseEgress | FreePool | CleanEal

  datatype Control =
    | Starting(start: StartPoint)
    | Meeting(meeting: MeetingPoint)
    | JoinFailed
    | AbandonStart(cleaning: Cleaning)
    | Serve
    | StopWorker
    | Join
    | TearDown(cleaning: Cleaning)
    | DestroySync
    | Done

  datatype Owner = Nobody | ControlOwns | WorkerOwns

  /** The mutex, the worker's report, and whether the condition variable has woken the waiter. */
  datatype Sync = Sync(lock: Owner, ready: bool, ok: bool, signaled: bool)

  /** `started`: the worker thread exists and is not joined; `forwarding`: pause and resume are accepted. */
  datatype State = State(
    control: Control, worker: Worker, claims: Claims, sync: Sync, started: bool, forwarding: bool, stop: bool,
    paused: bool, burstSize: nat)

  function Initial(burstSize: nat): (s: State) {
    State(Starting(CheckPrivilege), Unborn, Claims(NEVER, NEVER, NEVER, NEVER, NEVER),
          Sync(Nobody, false, false, false), false, false, false, false, burstSize)
  }

  // ----- steps -----

  datatype Command = Pause | Resume | Inspect | Shutdown

  /** What the surroundings decide: the outcome of a call, a burst's size, the next command, a spurious wake-up. */
  datatype Choice = Choice(succeeds: bool, arrived: nat, command: Command, spurious: bool)

  /** Where start-up goes on, and what it has acquired by then. */
  function StartStep(p: StartPoint, claims: Claims, succeeds: bool): (r: (Control, Claims)) {
    var failed := (AbandonStart(CloseIngress), claims);
    match p
    case CheckPrivilege => (if succeeds then Starting(StartEal) else Serve, claims)
    case StartEal =>
      if succeeds then (Starting(CreatePool), claims.(eal := Take(claims.eal))) else (StopWorker, claims)
    case CreatePool =>
      if succeeds then (Starting(AttachIngress), claims.(pool := Take(claims.pool))) else failed
    case AttachIngress =>
      if succeeds then (Starting(ConfigureIngress), claims.(ingress := Take(claims.ingress))) else failed
    case ConfigureIngress => if succeeds then (Starting(AttachEgress), claims) else failed
    case AttachEgress =>
      if succeeds then (Starting(ConfigureEgress), claims.(egress := Take(claims.egress))) else failed
    case ConfigureEgress => if succeeds then (Starting(InitSync), claims) else failed
    case InitSync => if succeeds then (Starting(ResetFlags), claims.(sync := Take(claims.sync))) else failed
    case ResetFlags => (Starting(Spawn), claims)
    case Spawn => if succeeds then (Meeting(MarkStarted), claims) else failed
  }

  /** What a start-up call does to the worker and its flags. */
  function StartEffect(s: State, p: StartPoint, succeeds: bool): (r: State) {
    match p
    case ResetFlags => s.(stop := false, paused := false, sync := s.sync.(ready := false, ok := false))
    case Spawn => if succeeds then s.(worker := Register) else s
    case _ => s
  }

  /** The next step of the wait; None when the mutex is taken or nothing has woken the waiter. */
  function MeetingStep(p: MeetingPoint, sync: Sync, spurious: bool): (r: Option<(MeetingPoint, Sync)>)
    requires !p.ReadOutcome?
  {
    match p
    case MarkStarted => Some((LockToCheck, sync))
    case LockToCheck => if sync.lock.Nobody? then Some((CheckReady, sync.(lock := ControlOwns))) else None
    case CheckReady =>
      if sync.ready then Some((UnlockChecked, sync)) else Some((Waiting, sync.(lock := Nobody, signaled := false)))
    case Waiting =>
      if (sync.signaled || spurious) && sync.lock.Nobody? then Some((CheckReady, sync.(lock := ControlOwns))) else None
    case UnlockChecked => Some((ReadOutcome, sync.(lock := Nobody)))
  }

  function Clean(c: Cleaning, claims: Claims): (r: Claims) {
    match c
    case CloseIngress => claims.(ingress := Drop(claims.ingress))
    case CloseEgress => claims.(egress := Drop(claims.egress))
    case FreePool => claims.(pool := Drop(claims.pool))
    case CleanEal => claims.(eal := Drop(claims.eal))
  }

  function NextCleaning(c: Cleaning): (r: Option<Cleaning>) {
    match c
    case CloseIngress => Some(CloseEgress)
    case CloseEgress => Some(FreePool)
    case FreePool => Some(CleanEal)
    case CleanEal => None
  }

  function Serving(s: State, command: Command): (r: State) {
    match command
    case Pause => if s.forwarding then s.(paused := true) else s
    case Resume => if s.forwarding then s.(paused := false) else s
    case Inspect => s
    case Shutdown => s.(control := StopWorker)
  }

  /** The control thread's next step; None when it is blocked or has finished. */
  function ControlStep(s: State, c: Choice): (r: Option<State>) {
    match s.control
    case Starting(p) =>
      var (next, claims) := StartStep(p, s.claims, c.succeeds);
      Some(StartEffect(s, p, c.succeeds).(control := next, claims := claims))
    case Meeting(p) =>
      if p.ReadOutcome? then
        if s.sync.ok then Some(s.(control := Serve, forwarding := true))
        else Some(s.(control := JoinFailed, stop := true))
      else (
        match MeetingStep(p, s.sync, c.spurious)
        case None => None
        case Some((next, sync)) => Some(s.(control := Meeting(next), sync := sync, started := true))
      )
    case JoinFailed =>
      if s.worker.Exited? then Some(s.(control := AbandonStart(CloseIngress), started := false)) else None
    case AbandonStart(k) =>
      var next := match NextCleaning(k) case Some(n) => AbandonStart(n) case None => StopWorker;
      Some(s.(control := next, claims := Clean(k, s.claims)))
    case Serve => Some(Serving(s, c.command))
    case StopWorker =>
      if s.started then Some(s.(control := Join, stop := true)) else Some(s.(control := TearDown(CloseIngress)))
    case Join =>
      if s.worker.Exited? then
        Some(s.(control := TearDown(CloseIngress), started := false, paused := false,
                sync := s.sync.(ready := false, ok := false)))
      else None
    case TearDown(k) =>
      var next := match NextCleaning(k) case Some(n) => TearDown(n) case None => DestroySync;
      Some(s.(control := next, claims := Clean(k, s.claims)))
    case DestroySync =>
      Some(s.(control := Done, forwarding := false, claims := s.claims.(sync := Drop(s.claims.sync))))
    case Done => None
  }

  /** The worker's report of its start; None when it is blocked on the mutex. */
  function ReportStep(s: State): (r: Option<State>)
    requires Reporting(s.worker)
  {
    var report := s.worker.report;
    match s.worker
    case TakeLock(_) =>
      if s.sync.lock.Nobody? then Some(s.(worker := PublishOk(report), sync := s.sync.(lock := WorkerOwns))) else None
    case PublishOk(_) => Some(s.(worker := PublishReady(report), sync := s.sync.(ok := report)))
    case PublishReady(_) => Some(s.(worker := Signal(report), sync := s.sync.(ready := true)))
    case Signal(_) =>
      var woken := s.sync.signaled || s.control == Meeting(Waiting);
      Some(s.(worker := ReleaseLock(report), sync := s.sync.(signaled := woken)))
    case ReleaseLock(_) => Some(s.(worker := if report then CheckStop else Exited, sync := s.sync.(lock := Nobody)))
  }

  function AfterBurst(dir: Direction): (w: Worker) {
    match dir
    case IngressToEgress => Receive(EgressToIngress)
    case EgressToIngress => CheckStop
  }

  /** How many packets a receive call returns: what has arrived, up to the burst size. */
  function RxCount(s: State, arrived: nat): (n: nat)
    ensures n <= s.burstSize && n <= arrived && (n == arrived || n == s.burstSize)
  {
    if arrived < s.burstSize then arrived else s.burstSize
  }

  function LoopStep(s: State, arrived: nat): (w: Worker)
    requires Forwarding(s.worker)
  {
    match s.worker
    case CheckStop => if s.stop then Unregister else CheckPause
    case CheckPause => if s.paused then CheckStop else Receive(IngressToEgress)
    case Receive(dir) => if RxCount(s, arrived) == 0 then AfterBurst(dir) else Transmit(dir)
    case Transmit(dir) => AfterBurst(dir)
  }

  /** The worker's next step; None when it is blocked on the mutex, not yet born or gone. */
  function WorkerStep(s: State, c: Choice): (r: Option<State>) {
    if s.worker.Register? then Some(s.(worker := TakeLock(c.succeeds)))
    else if Reporting(s.worker) then ReportStep(s)
    else if Forwarding(s.worker) then Some(s.(worker := LoopStep(s, c.arrived)))
    else if s.worker.Unregister? then Some(s.(worker := Exited))
    else None
  }

  datatype Thread = ControlThread | WorkerThread

  function Step(s: State, who: Thread, c: Choice): (r: Option<State>) {
    if who.ControlThread? then ControlStep(s, c) else WorkerStep(s, c)
  }

  /** Which thread the scheduler picks, and what its surroundings decide. */
  datatype Pick = Pick(who: Thread, choice: Choice)

  /** A blocked thread that is picked stays where it is. */
  function Picked(s: State, p: Pick): (r: State) {
    match Step(s, p.who, p.choice)
    case Some(next) => next
    case None => s
  }

  function Run(s: State, schedule: seq<Pick>): (r: State)
    decreases |schedule|
  {
    if schedule == [] then s else Run(Picked(s, schedule[0]), schedule[1..])
  }

  // ----- the invariant -----

  predicate Alive(w: Worker) {
    !w.Unborn? && !w.Exited?
  }

  predicate Reporting(w: Worker) {
    w.TakeLock? || InCriticalSection(w)
  }

  predicate InCriticalSection(w: Worker) {
    w.PublishOk? || w.PublishReady? || w.Signal? || w.ReleaseLock?
  }

  predicate BeforeReady(w: Worker) {
    w.Register? || w.TakeLock? || w.PublishOk? || w.PublishReady?
  }

  predicate Forwarding(w: Worker) {
    w.CheckStop? || w.CheckPause? || w.Receive? || w.Transmit?
  }

  predicate TearingDown(c: Control) {
    c.AbandonStart? || c.TearDown? || c.DestroySync? || c.Done?
  }

  /** What has been acquired at a point of the start-up sequence. */
  predicate StartProgress(p: StartPoint, claims: Claims) {
    var one := Take(NEVER);
    match p
    case CheckPrivilege => claims == Claims(NEVER, NEVER, NEVER, NEVER, NEVER)
    case StartEal => claims == Claims(NEVER, NEVER, NEVER, NEVER, NEVER)
    case CreatePool => claims == Claims(one, NEVER, NEVER, NEVER, NEVER)
    case AttachIngress => claims == Claims(one, one, NEVER, NEVER, NEVER)
    case ConfigureIngress => claims == Claims(one, one, one, NEVER, NEVER)
    case AttachEgress => claims == Claims(one, one, one, NEVER, NEVER)
    case ConfigureEgress => claims == Claims(one, one, one, one, NEVER)
    case InitSync => claims == Claims(one, one, one, one, NEVER)
    case _ => claims == Claims(one, one, one, one, one)
  }

  /** What the cleanup sequence has already let go of. */
  predicate CleanedBefore(k: Cleaning, claims: Claims) {
    && (!k.CloseIngress? ==> !claims.ingress.held)
    && (k.FreePool? || k.CleanEal? ==> !claims.egress.held)
    && (k.CleanEal? ==> !claims.pool.held)
  }

  /** Every resource is accounted for, and held or free as the control thread's position says. */
  predicate ClaimsKept(s: State) {
    && AllAccounted(s.claims)
    && (s.started || s.control.Meeting? ==> DeviceHeld(s.claims) && s.claims.sync.held)
    && match s.control
       case Starting(p) => StartProgress(p, s.claims)
       case AbandonStart(k) => CleanedBefore(k, s.claims)
       case TearDown(k) => CleanedBefore(k, s.claims)
       case DestroySync => DeviceFree(s.claims)
       case Done => DeviceFree(s.claims) && !s.claims.sync.held
       case _ => true
  }

  /** Where the worker can be while the control thread is where it is. */
  predicate Positions(s: State) {
    && (s.worker.Unregister? ==> s.stop)
    && match s.control
       case Starting(_) => s.worker.Unborn? && !s.started && !s.stop && !s.forwarding && !s.sync.ready
       case Meeting(p) => !s.worker.Unborn? && !s.stop && (s.started <==> !p.MarkStarted?)
       case JoinFailed => s.started && s.worker.Exited?
       case Serve =>
         && !s.stop && (s.forwarding <==> s.started)
         && if s.started then Forwarding(s.worker) else !Alive(s.worker)
       case StopWorker => if s.started then !s.stop && Forwarding(s.worker) else !Alive(s.worker)
       case Join => s.started && s.stop && (Forwarding(s.worker) || s.worker.Unregister? || s.worker.Exited?)
       case _ => !Alive(s.worker) && !s.started
  }

  /** Who owns the mutex. */
  predicate LockKept(s: State) {
    && (s.sync.lock.ControlOwns? <==> s.control == Meeting(CheckReady) || s.control == Meeting(UnlockChecked))
    && (s.sync.lock.WorkerOwns? <==> InCriticalSection(s.worker))
  }

  /** What the worker's flags tell the control thread during the handshake. */
  predicate ReportKept(s: State) {
    s.control.Meeting? ==>
      && (s.sync.ready <==> !BeforeReady(s.worker))
      && (s.worker.PublishReady? || s.worker.Signal? || s.worker.ReleaseLock? ==> s.sync.ok == s.worker.report)
      && (Forwarding(s.worker) ==> s.sync.ok)
      && (s.worker.Exited? ==> !s.sync.ok)
      && (s.control.meeting.Waiting? && !s.sync.signaled ==> BeforeReady(s.worker) || s.worker.Signal?)
      && (s.control.meeting.UnlockChecked? || s.control.meeting.ReadOutcome? ==>
            s.sync.ready && !InCriticalSection(s.worker))
  }

  /** The pause flag is down until the worker serves, and from its end on. */
  predicate PauseKept(s: State) {
    s.paused ==> s.started && (s.control.Serve? || s.control.StopWorker? || s.control.Join?)
  }

  predicate Inv(s: State) {
    ClaimsKept(s) && Positions(s) && LockKept(s) && ReportKept(s) && PauseKept(s)
  }

  lemma InitialInv(burstSize: nat)
    ensures Inv(Initial(burstSize))
  {
  }

  lemma StartKeepsClaims(p: StartPoint, claims: Claims, succeeds: bool)
    requires AllAccounted(claims) && StartProgress(p, claims)
    ensures var (next, after) := StartStep(p, claims, succeeds);
            && AllAccounted(after) && (next.Starting? ==> StartProgress(next.start, after))
            && (next.Meeting? ==> DeviceHeld(after) && after.sync.held)
            && (next.AbandonStart? ==> next.cleaning.CloseIngress?)
            && !next.TearDown? && !next.DestroySync? && !next.Done?
  {
  }

  lemma CleaningKeepsClaims(k: Cleaning, claims: Claims)
    requires AllAccounted(claims) && CleanedBefore(k, claims)
    ensures AllAccounted(Clean(k, claims))
    ensures match NextCleaning(k)
            case Some(next) => CleanedBefore(next, Clean(k, claims))
            case None => DeviceFree(Clean(k, claims))
  {
  }

  lemma ControlKeepsClaims(s: State, c: Choice)
    requires ClaimsKept(s) && Positions(s) && ControlStep(s, c).Some?
    ensures ClaimsKept(ControlStep(s, c).value)
  {
    match s.control
    case Starting(p) => StartKeepsClaims(p, s.claims, c.succeeds);
    case AbandonStart(k) => CleaningKeepsClaims(k, s.claims);
    case TearDown(k) => CleaningKeepsClaims(k, s.claims);
    case _ =>
  }

  lemma ControlKeepsPositions(s: State, c: Choice)
    requires Positions(s) && LockKept(s) && ReportKept(s) && ControlStep(s, c).Some?
    ensures Positions(ControlStep(s, c).value)
  {
  }

  lemma ControlKeepsLock(s: State, c: Choice)
    requires Positions(s) && LockKept(s) && ControlStep(s, c).Some?
    ensures LockKept(ControlStep(s, c).value)
  {
  }

  lemma ControlKeepsReport(s: State, c: Choice)
    requires Positions(s) && LockKept(s) && ReportKept(s) && ControlStep(s, c).Some?
    ensures ReportKept(ControlStep(s, c).value)
  {
  }

  lemma ControlKeepsPause(s: State, c: Choice)
    requires PauseKept(s) && Positions(s) && ControlStep(s, c).Some?
    ensures PauseKept(ControlStep(s, c).value)
  {
  }

  lemma WorkerKeepsPositions(s: State, c: Choice)
    requires Positions(s) && LockKept(s) && ReportKept(s) && WorkerStep(s, c).Some?
    ensures Positions(WorkerStep(s, c).value)
  {
  }

  lemma ReportingKeepsLock(s: State)
    requires LockKept(s) && Reporting(s.worker) && ReportStep(s).Some?
    ensures LockKept(ReportStep(s).value)
  {
  }

  lemma PublishingKeepsReport(s: State)
    requires LockKept(s) && ReportKept(s) && Reporting(s.worker) && ReportStep(s).Some?
    requires s.worker.TakeLock? || s.worker.PublishOk? || s.worker.PublishReady?
    ensures ReportKept(ReportStep(s).value)
  {
  }

  lemma SignalingKeepsReport(s: State)
    requires LockKept(s) && ReportKept(s) && Reporting(s.worker) && ReportStep(s).Some?
    requires s.worker.Signal? || s.worker.ReleaseLock?
    ensures ReportKept(ReportStep(s).value)
  {
  }

  lemma WorkerKeepsReport(s: State, c: Choice)
    requires Positions(s) && LockKept(s) && ReportKept(s) && WorkerStep(s, c).Some?
    ensures LockKept(WorkerStep(s, c).value) && ReportKept(WorkerStep(s, c).value)
  {
    if Reporting(s.worker) {
      ReportingKeepsLock(s);
      if s.worker.Signal? || s.worker.ReleaseLock? {
        SignalingKeepsReport(s);
      } else {
        PublishingKeepsReport(s);
      }
    }
  }

  lemma StepKeepsInv(s: State, p: Pick)
    requires Inv(s)
    ensures Inv(Picked(s, p))
  {
    if p.who.ControlThread? && ControlStep(s, p.choice).Some? {
      ControlKeepsClaims(s, p.choice);
      ControlKeepsPositions(s, p.choice);
      ControlKeepsLock(s, p.choice);
      ControlKeepsReport(s, p.choice);
      ControlKeepsPause(s, p.choice);
    } else if p.who.WorkerThread? && WorkerStep(s, p.choice).Some? {
      WorkerKeepsRest(s, p.choice);
      WorkerKeepsPositions(s, p.choice);
      WorkerKeepsReport(s, p.choice);
    }
  }

  /** The worker leaves everything that belongs to the control thread alone. */
  lemma WorkerKeepsRest(s: State, c: Choice)
    requires WorkerStep(s, c).Some?
    ensures var t := WorkerStep(s, c).value;
            && t.control == s.control && t.claims == s.claims && t.paused == s.paused && t.stop == s.stop
            && t.started == s.started && t.forwarding == s.forwarding && t.burstSize == s.burstSize
  {
  }

  lemma {:induction false} RunKeepsInv(s: State, schedule: seq<Pick>)
    requires Inv(s)
    ensures Inv(Run(s, schedule))
    decreases |schedule|
  {
    if schedule != [] {
      StepKeepsInv(s, schedule[0]);
      RunKeepsInv(Picked(s, schedule[0]), schedule[1..]);
    }
  }

  lemma ReachableInv(burstSize: nat, schedule: seq<Pick>)
    ensures Inv(Run(Initial(burstSize), schedule))
  {
    InitialInv(burstSize);
    RunKeepsInv(Initial(burstSize), schedule);
  }

  // ----- safety of every run -----

  /** While the worker uses a port or a buffer everything is still held; teardown only starts once it is gone. */
  lemma NoUseAfterRelease(burstSize: nat, schedule: seq<Pick>)
    ensures var s := Run(Initial(burstSize), schedule);
            && (Alive(s.worker) ==> DeviceHeld(s.claims) && s.claims.sync.held)
            && (TearingDown(s.control) ==> !Alive(s.worker) && !s.started)
  {
    ReachableInv(burstSize, schedule);
  }

  /** Each resource is acquired at most once, never released without being held, and not held at the end. */
  lemma ReleasedExactlyOnce(burstSize: nat, schedule: seq<Pick>)
    ensures var s := Run(Initial(burstSize), schedule);
            && AllAccounted(s.claims)
            && (s.control.Done? ==> DeviceFree(s.claims) && !s.claims.sync.held)
  {
    ReachableInv(burstSize, schedule);
  }

  /** A control thread asleep without a signal is one whose worker has yet to send it. */
  lemma NoLostWakeup(burstSize: nat, schedule: seq<Pick>)
    ensures var s := Run(Initial(burstSize), schedule);
            s.control == Meeting(Waiting) && !s.sync.signaled ==>
              (BeforeReady(s.worker) && !s.sync.ready) || s.worker.Signal?
  {
    ReachableInv(burstSize, schedule);
  }

  /** Until it is done, one of the two threads can always move, whatever its surroundings decide. */
  lemma NeverStuck(burstSize: nat, schedule: seq<Pick>, c: Choice)
    ensures var s := Run(Initial(burstSize), schedule);
            s.control.Done? || ControlStep(s, c).Some? || WorkerStep(s, c).Some?
  {
    ReachableInv(burstSize, schedule);
  }

  // ----- the pause bound -----

  /** The bursts the worker starts in a run. */
  function Bursts(s: State, schedule: seq<Pick>): (n: nat)
    decreases |schedule|
  {
    if schedule == [] then 0
    else
      var p := schedule[0];
      (if p.who.WorkerThread? && s.worker.Receive? then 1 else 0) + Bursts(Picked(s, p), schedule[1..])
  }

  /** The packets those bursts bring. */
  function Received(s: State, schedule: seq<Pick>): (n: nat)
    decreases |schedule|
  {
    if schedule == [] then 0
    else
      var p := schedule[0];
      (if p.who.WorkerThread? && s.worker.Receive? then RxCount(s, p.choice.arrived) else 0)
      + Received(Picked(s, p), schedule[1..])
  }

  predicate NoResume(schedule: seq<Pick>) {
    forall i :: 0 <= i < |schedule| && schedule[i].who.ControlThread? ==> !schedule[i].choice.command.Resume?
  }

  /** Bursts the worker can still start before it next looks at the pause flag. */
  function Committed(w: Worker): (n: nat)
    ensures n <= 2
  {
    match w
    case Receive(dir) => if dir.IngressToEgress? then 2 else 1
    case Transmit(dir) => if dir.IngressToEgress? then 1 else 0
    case _ => 0
  }

  /** The worker has been joined for good. */
  predicate Ended(s: State) {
    s.worker.Exited? && (s.control.TearDown? || s.control.DestroySync? || s.control.Done?)
  }

  /** Paused, or past the worker's end. */
  predicate Quiet(s: State) {
    s.paused || Ended(s)
  }

  lemma QuietStep(s: State, p: Pick)
    requires Inv(s) && Quiet(s) && (p.who.ControlThread? ==> !p.choice.command.Resume?)
    ensures Quiet(Picked(s, p)) && Picked(s, p).burstSize == s.burstSize
    ensures Committed(Picked(s, p).worker) + (if p.who.WorkerThread? && s.worker.Receive? then 1 else 0)
         <= Committed(s.worker)
  {
    if p.who.WorkerThread? && Forwarding(s.worker) {
      assert Picked(s, p).worker == LoopStep(s, p.choice.arrived);
    }
  }

  /** After a pause and until a resume the worker starts at most two more bursts, in every interleaving. */
  lemma {:induction false} PauseBound(s: State, schedule: seq<Pick>)
    requires Inv(s) && Quiet(s) && NoResume(schedule)
    ensures Bursts(s, schedule) <= Committed(s.worker) <= 2
    ensures Received(s, schedule) <= Bursts(s, schedule) * s.burstSize <= 2 * s.burstSize
    decreases |schedule|
  {
    if schedule != [] {
      var p := schedule[0];
      QuietStep(s, p);
      StepKeepsInv(s, p);
      PauseBound(Picked(s, p), schedule[1..]);
      Times(Bursts(Picked(s, p), schedule[1..]), s.burstSize);
    }
    AtMostTwice(Bursts(s, schedule), s.burstSize);
  }

  lemma Times(n: nat, k: nat)
    ensures (n + 1) * k == n * k + k
  {
  }

  lemma AtMostTwice(n: nat, k: nat)
    requires n <= 2
    ensures n * k <= 2 * k
  {
  }

  /** A command of the serving control thread. */
  function Commanded(command: Command): (p: Pick) {
    Pick(ControlThread, Choice(true, 0, command, false))
  }

  /** Pause raises the flag and resume lowers it, of a forwarding datapath; otherwise both are refused. */
  lemma CommandsSetTheFlag(s: State, c: Choice)
    requires s.control.Serve?
    ensures var t := Picked(s, Pick(ControlThread, c));
            && (c.command.Pause? ==> t == if s.forwarding then s.(paused := true) else s)
            && (c.command.Resume? ==> t == if s.forwarding then s.(paused := false) else s)
            && (c.command.Inspect? ==> t == s)
            && (c.command.Shutdown? ==> t == s.(control := StopWorker))
  {
  }

  /**
   In every run, once a pause is commanded of a forwarding datapath and until a resume, the worker starts at most
   two more bursts and receives at most twice the burst size.
   */
  lemma PausedRunIsBounded(burstSize: nat, before: seq<Pick>, pause: Choice, after: seq<Pick>)
    requires pause.command.Pause? && NoResume(after)
    requires var s := Run(Initial(burstSize), before); s.control.Serve? && s.forwarding
    ensures var s := Run(Initial(burstSize), before + [Pick(ControlThread, pause)]);
            && s.paused && s.burstSize == burstSize
            && Bursts(s, after) <= 2 && Received(s, after) <= 2 * burstSize
  {
    var s := Run(Initial(burstSize), before);
    var p := Pick(ControlThread, pause);
    RunAppends(Initial(burstSize), before, [p]);
    assert Run(s, [p]) == Picked(s, p) by {
      assert [p][1..] == [];
    }
    CommandsSetTheFlag(s, pause);
    ReachableInv(burstSize, before + [p]);
    RunKeepsBurstSize(Initial(burstSize), before);
    PauseBound(Picked(s, p), after);
  }

  lemma {:induction false} RunKeepsBurstSize(s: State, schedule: seq<Pick>)
    ensures Run(s, schedule).burstSize == s.burstSize
    decreases |schedule|
  {
    if schedule != [] {
      StepKeepsBurstSize(s, schedule[0]);
      RunKeepsBurstSize(Picked(s, schedule[0]), schedule[1..]);
    }
  }

  lemma StepKeepsBurstSize(s: State, p: Pick)
    ensures Picked(s, p).burstSize == s.burstSize
  {
  }

  /** After a resume the worker starts a burst again within four of its steps. */
  lemma ResumeStartsAgain(s: State, resume: Choice, steps: seq<Pick>)
    requires Inv(s) && s.control.Serve? && s.forwarding && resume.command.Resume?
    requires |steps| == 4 && forall i :: 0 <= i < 4 ==> steps[i].who.WorkerThread?
    ensures Bursts(Picked(s, Pick(ControlThread, resume)), steps) >= 1
  {
    var t := Picked(s, Pick(ControlThread, resume));
    CommandsSetTheFlag(s, resume);
    BurstSoon(t, steps);
  }

  /** Worker steps until the next burst starts, when it is neither paused nor stopped. */
  function StepsToBurst(w: Worker): (n: nat)
    requires Forwarding(w)
  {
    match w
    case Receive(_) => 1
    case CheckPause => 2
    case CheckStop => 3
    case Transmit(dir) => if dir.IngressToEgress? then 2 else 4
  }

  lemma {:induction false} BurstSoon(s: State, steps: seq<Pick>)
    requires Forwarding(s.worker) && !s.stop && !s.paused && |steps| >= StepsToBurst(s.worker)
    requires forall i :: 0 <= i < |steps| ==> steps[i].who.WorkerThread?
    ensures Bursts(s, steps) >= 1
    decreases |steps|
  {
    if !s.worker.Receive? {
      var p := steps[0];
      assert Picked(s, p) == s.(worker := LoopStep(s, p.choice.arrived));
      BurstSoon(Picked(s, p), steps[1..]);
    }
  }

  // ----- both waits end -----

  function Picks(who: Thread, schedule: seq<Pick>): (n: nat) {
    if schedule == [] then 0 else (if schedule[0].who == who then 1 else 0) + Picks(who, schedule[1..])
  }

  /** Steps the worker still takes once it is told to stop. */
  function StepsToExit(w: Worker): (n: nat) {
    match w
    case CheckPause => 7
    case Receive(dir) => if dir.IngressToEgress? then 6 else 4
    case Transmit(dir) => if dir.IngressToEgress? then 5 else 3
    case CheckStop => 2
    case Unregister => 1
    case _ => 0
  }

  lemma StoppingStep(s: State, p: Pick)
    requires Inv(s) && (s.control.Join? || Ended(s))
    ensures var t := Picked(s, p);
            && (t.control.Join? || Ended(t))
            && StepsToExit(t.worker) <= StepsToExit(s.worker)
            && (p.who.WorkerThread? && !s.worker.Exited? ==> StepsToExit(t.worker) < StepsToExit(s.worker))
  {
  }

  /** A control thread that waits in join gets the worker's end after at most seven steps of the worker. */
  lemma {:induction false} JoinReturns(s: State, schedule: seq<Pick>)
    requires Inv(s) && (s.control.Join? || Ended(s))
    requires Picks(WorkerThread, schedule) >= StepsToExit(s.worker)
    ensures StepsToExit(s.worker) <= 7 && Run(s, schedule).worker.Exited?
    decreases |schedule|
  {
    if schedule != [] {
      StoppingStep(s, schedule[0]);
      StepKeepsInv(s, schedule[0]);
      JoinReturns(Picked(s, schedule[0]), schedule[1..]);
    }
  }

  /** A measure of the handshake: every step of it that is not the worker's forwarding loop lowers it. */
  function HandshakeLeft(s: State): (n: nat)
    requires s.control.Meeting?
  {
    ReportLeft(s.worker) + MeetingLeft(s.control.meeting, s.sync.signaled)
  }

  function ReportLeft(w: Worker): (n: nat)
    ensures n <= 36
  {
    match w
    case Register => 36
    case TakeLock(_) => 30
    case PublishOk(_) => 24
    case PublishReady(_) => 18
    case Signal(_) => 12
    case ReleaseLock(_) => 6
    case _ => 0
  }

  function MeetingLeft(p: MeetingPoint, signaled: bool): (n: nat)
    ensures n <= 5
  {
    match p
    case MarkStarted => 5
    case LockToCheck => 4
    case CheckReady => 3
    case Waiting => if signaled then 4 else 0
    case UnlockChecked => 2
    case ReadOutcome => 1
  }

  predicate Met(c: Control) {
    !c.Starting? && !c.Meeting?
  }

  predicate Calm(schedule: seq<Pick>) {
    forall i :: 0 <= i < |schedule| ==> !schedule[i].choice.spurious
  }

  /** The control thread can go on with the handshake without waking up for no reason. */
  predicate CanMove(s: State) {
    (s.control == Meeting(LockToCheck) || s.control == Meeting(Waiting) ==> s.sync.lock.Nobody?)
    && (s.control == Meeting(Waiting) ==> s.sync.signaled)
  }

  /** The handshake got further: it is over, or less than `left` remains. */
  predicate Further(s: State, left: nat) {
    s.control.Meeting? ==> HandshakeLeft(s) < left
  }

  /** The control thread's part: it gets the handshake further whenever it can move, and waits otherwise. */
  lemma ControlMeets(s: State, c: Choice)
    requires Inv(s) && s.control.Meeting? && !c.spurious
    ensures var t := Picked(s, Pick(ControlThread, c));
            && (Met(t.control) || (t.control.Meeting? && HandshakeLeft(t) <= HandshakeLeft(s)))
            && (if CanMove(s) then Further(t, HandshakeLeft(s)) else t == s)
  {
  }

  /** The worker's part: it gets the handshake further unless the control thread can do so itself. */
  lemma WorkerMeets(s: State, c: Choice)
    requires Inv(s) && s.control.Meeting?
    ensures var t := Picked(s, Pick(WorkerThread, c));
            && t.control == s.control && HandshakeLeft(t) <= HandshakeLeft(s)
            && (Further(t, HandshakeLeft(s)) || (CanMove(s) && CanMove(t)))
  {
  }

  lemma MeetingMove(s: State, p: Pick)
    requires Inv(s) && s.control.Meeting? && !p.choice.spurious
    ensures var t := Picked(s, p);
            && (Met(t.control) || (t.control.Meeting? && HandshakeLeft(t) <= HandshakeLeft(s)))
            && (p.who.ControlThread? && CanMove(s) ==> Further(t, HandshakeLeft(s)))
            && (p.who.WorkerThread? && !CanMove(s) ==> Further(t, HandshakeLeft(s)))
            && (p.who.ControlThread? && !CanMove(s) ==> t == s)
            && (p.who.WorkerThread? && CanMove(s) ==> Further(t, HandshakeLeft(s)) || CanMove(t))
  {
    if p.who.ControlThread? {
      ControlMeets(s, p.choice);
    } else {
      WorkerMeets(s, p.choice);
    }
  }

  lemma MetStays(s: State, p: Pick)
    requires Met(s.control)
    ensures Met(Picked(s, p).control)
  {
  }

  lemma {:induction false} NeverBack(s: State, schedule: seq<Pick>)
    requires Inv(s) && (Met(s.control) || s.control.Meeting?) && Calm(schedule)
    ensures var t := Run(s, schedule);
            && Inv(t) && (Met(s.control) ==> Met(t.control))
            && (Met(t.control) || (t.control.Meeting? && s.control.Meeting? && HandshakeLeft(t) <= HandshakeLeft(s)))
    decreases |schedule|
  {
    if schedule != [] {
      if s.control.Meeting? {
        MeetingMove(s, schedule[0]);
      } else {
        MetStays(s, schedule[0]);
      }
      StepKeepsInv(s, schedule[0]);
      NeverBack(Picked(s, schedule[0]), schedule[1..]);
    }
  }

  /** A stretch of a run that picks both threads gets the handshake further. */
  lemma {:induction false} FairStretch(s: State, stretch: seq<Pick>)
    requires Inv(s) && s.control.Meeting? && Calm(stretch)
    requires Picks(if CanMove(s) then ControlThread else WorkerThread, stretch) > 0
    ensures Further(Run(s, stretch), HandshakeLeft(s))
    decreases |stretch|
  {
    var p := stretch[0];
    var t := Picked(s, p);
    MeetingMove(s, p);
    StepKeepsInv(s, p);
    if Further(t, HandshakeLeft(s)) {
      NeverBack(t, stretch[1..]);
    } else {
      FairStretch(t, stretch[1..]);
    }
  }

  function Flatten(stretches: seq<seq<Pick>>): (all: seq<Pick>) {
    if stretches == [] then [] else stretches[0] + Flatten(stretches[1..])
  }

  lemma {:induction false} RunAppends(s: State, a: seq<Pick>, b: seq<Pick>)
    ensures Run(s, a + b) == Run(Run(s, a), b)
    decreases |a|
  {
    if a == [] {
      assert a + b == b;
    } else {
      assert (a + b)[1..] == a[1..] + b;
      RunAppends(Picked(s, a[0]), a[1..], b);
    }
  }

  predicate Fair(stretch: seq<Pick>) {
    Calm(stretch) && Picks(ControlThread, stretch) > 0 && Picks(WorkerThread, stretch) > 0
  }

  lemma {:induction false} MetForGood(s: State, schedule: seq<Pick>)
    requires Met(s.control)
    ensures Met(Run(s, schedule).control)
    decreases |schedule|
  {
    if schedule != [] {
      MetStays(s, schedule[0]);
      MetForGood(Picked(s, schedule[0]), schedule[1..]);
    }
  }

  /**
   The handshake ends in every fair run without spurious wake-ups: after 42 stretches that pick both threads,
   in whatever order and however often, the control thread is past it.
   */
  lemma {:induction false} HandshakeEnds(s: State, stretches: seq<seq<Pick>>)
    requires Inv(s) && s.control.Meeting? && |stretches| > HandshakeLeft(s)
    requires forall i :: 0 <= i < |stretches| ==> Fair(stretches[i])
    ensures HandshakeLeft(s) < 42 && Met(Run(s, Flatten(stretches)).control)
    decreases |stretches|
  {
    var rest := Flatten(stretches[1..]);
    var t := Run(s, stretches[0]);
    assert Fair(stretches[0]);
    FairStretch(s, stretches[0]);
    NeverBack(s, stretches[0]);
    RunAppends(s, stretches[0], rest);
    if t.control.Meeting? {
      HandshakeEnds(t, stretches[1..]);
    } else {
      MetForGood(t, rest);
    }
  }

  // ----- the daemon can serve, and can always be shut down -----

  const SUCCEED := Choice(true, 0, Inspect, false)

  ghost predicate Reachable(burstSize: nat, s: State) {
    exists schedule :: Run(Initial(burstSize), schedule) == s
  }

  lemma ReachStep(burstSize: nat, s: State, p: Pick)
    requires Reachable(burstSize, s)
    ensures Reachable(burstSize, Picked(s, p))
  {
    var schedule :| Run(Initial(burstSize), schedule) == s;
    RunAppends(Initial(burstSize), schedule, [p]);
    assert [p][1..] == [];
    assert Run(Initial(burstSize), schedule + [p]) == Picked(s, p);
  }

  function Held(): (c: Claims) {
    Claims(Take(NEVER), Take(NEVER), Take(NEVER), Take(NEVER), Take(NEVER))
  }

  /** Every start-up call succeeding, the worker thread is created with everything acquired. */
  lemma CanSpawn(burstSize: nat)
    ensures var s := Initial(burstSize).(control := Meeting(MarkStarted), worker := Register, claims := Held());
            Reachable(burstSize, s)
  {
    var s := Initial(burstSize);
    assert Run(s, []) == s;
    var n := 0;
    while n < 10
      invariant 0 <= n <= 10 && Reachable(burstSize, s)
      invariant s == Started(burstSize, n)
      decreases 10 - n
    {
      ReachStep(burstSize, s, Pick(ControlThread, SUCCEED));
      StartedStep(burstSize, n);
      s, n := Picked(s, Pick(ControlThread, SUCCEED)), n + 1;
    }
  }

  function PointAt(n: nat): (p: StartPoint)
    requires n < 10
  {
    match n
    case 0 => CheckPrivilege
    case 1 => StartEal
    case 2 => CreatePool
    case 3 => AttachIngress
    case 4 => ConfigureIngress
    case 5 => AttachEgress
    case 6 => ConfigureEgress
    case 7 => InitSync
    case 8 => ResetFlags
    case 9 => Spawn
  }

  /** The state after `n` start-up calls that all succeeded. */
  function Started(burstSize: nat, n: nat): (s: State)
    requires n <= 10
  {
    var one := Take(NEVER);
    var claims := Claims(if n > 1 then one else NEVER, if n > 2 then one else NEVER, if n > 3 then one else NEVER,
                         if n > 5 then one else NEVER, if n > 7 then one else NEVER);
    if n < 10 then Initial(burstSize).(control := Starting(PointAt(n)), claims := claims)
    else Initial(burstSize).(control := Meeting(MarkStarted), worker := Register, claims := claims)
  }

  lemma StartedStep(burstSize: nat, n: nat)
    requires n < 10
    ensures Picked(Started(burstSize, n), Pick(ControlThread, SUCCEED)) == Started(burstSize, n + 1)
  {
  }

  /** The worker reports a successful start and enters its loop. */
  lemma CanReport(burstSize: nat, s: State)
    requires Reachable(burstSize, s) && s.worker.Register? && s.sync.lock.Nobody? && !s.sync.signaled
    requires s.control == Meeting(MarkStarted)
    ensures Reachable(burstSize, s.(worker := CheckStop, sync := Sync(Nobody, true, true, false)))
  {
    var p := Pick(WorkerThread, SUCCEED);
    var s1 := s.(worker := TakeLock(true));
    ReachStep(burstSize, s, p);
    var s2 := s1.(worker := PublishOk(true), sync := s.sync.(lock := WorkerOwns));
    ReachStep(burstSize, s1, p);
    var s3 := s2.(worker := PublishReady(true), sync := s2.sync.(ok := true));
    ReachStep(burstSize, s2, p);
    var s4 := s3.(worker := Signal(true), sync := s3.sync.(ready := true));
    ReachStep(burstSize, s3, p);
    var s5 := s4.(worker := ReleaseLock(true));
    assert Picked(s4, p) == s5;
    ReachStep(burstSize, s4, p);
    ReachStep(burstSize, s5, p);
  }

  /** The control thread takes the report and serves. */
  lemma CanTakeReport(burstSize: nat, s: State)
    requires Reachable(burstSize, s) && s.control == Meeting(MarkStarted) && s.sync == Sync(Nobody, true, true, false)
    ensures Reachable(burstSize, s.(control := Serve, started := true, forwarding := true))
  {
    var p := Pick(ControlThread, SUCCEED);
    var s1 := s.(control := Meeting(LockToCheck), started := true);
    ReachStep(burstSize, s, p);
    var s2 := s1.(control := Meeting(CheckReady), sync := s.sync.(lock := ControlOwns));
    ReachStep(burstSize, s1, p);
    var s3 := s2.(control := Meeting(UnlockChecked));
    ReachStep(burstSize, s2, p);
    var s4 := s1.(control := Meeting(ReadOutcome));
    assert Picked(s3, p) == s4;
    ReachStep(burstSize, s3, p);
    ReachStep(burstSize, s4, p);
  }

  /** With every call succeeding the daemon comes to serve a forwarding datapath, which the pause theorems are about. */
  lemma CanServe(burstSize: nat)
    ensures exists s :: Reachable(burstSize, s) && s.control.Serve? && s.forwarding && s.worker.CheckStop? && !s.paused
  {
    CanSpawn(burstSize);
    var s := Initial(burstSize).(control := Meeting(MarkStarted), worker := Register, claims := Held());
    CanReport(burstSize, s);
    var t := s.(worker := CheckStop, sync := Sync(Nobody, true, true, false));
    CanTakeReport(burstSize, t);
  }

  predicate Closing(c: Control) {
    c.StopWorker? || c.Join? || c.TearDown? || c.DestroySync? || c.Done?
  }

  /** A measure of the shutdown. */
  function ClosingLeft(s: State): (n: nat)
    requires Closing(s.control)
  {
    match s.control
    case StopWorker => 20
    case Join => 6 + StepsToExit(s.worker)
    case TearDown(k) => (match k case CloseIngress => 5 case CloseEgress => 4 case FreePool => 3 case CleanEal => 2)
    case DestroySync => 1
    case _ => 0
  }

  /** The control thread can go on with the shutdown. */
  predicate CanClose(s: State) {
    s.control.Join? ==> s.worker.Exited?
  }

  lemma ControlCloses(s: State, c: Choice)
    requires Inv(s) && Closing(s.control)
    ensures var t := Picked(s, Pick(ControlThread, c));
            && Closing(t.control)
            && (if s.control.Done? || !CanClose(s) then t == s else ClosingLeft(t) < ClosingLeft(s))
  {
  }

  lemma WorkerCloses(s: State, c: Choice)
    requires Inv(s) && Closing(s.control)
    ensures var t := Picked(s, Pick(WorkerThread, c));
            && t.control == s.control && ClosingLeft(t) <= ClosingLeft(s)
            && (CanClose(s) ==> CanClose(t)) && (!CanClose(s) ==> ClosingLeft(t) < ClosingLeft(s))
  {
  }

  lemma {:induction false} NeverReopened(s: State, schedule: seq<Pick>)
    requires Inv(s) && Closing(s.control)
    ensures var t := Run(s, schedule); Inv(t) && Closing(t.control) && ClosingLeft(t) <= ClosingLeft(s)
    decreases |schedule|
  {
    if schedule != [] {
      CloseStep(s, schedule[0]);
      NeverReopened(Picked(s, schedule[0]), schedule[1..]);
    }
  }

  lemma CloseStep(s: State, p: Pick)
    requires Inv(s) && Closing(s.control)
    ensures var t := Picked(s, p); Inv(t) && Closing(t.control) && ClosingLeft(t) <= ClosingLeft(s)
  {
    StepKeepsInv(s, p);
    if p.who.ControlThread? {
      ControlCloses(s, p.choice);
    } else {
      WorkerCloses(s, p.choice);
    }
  }

  /** A stretch of a run that picks both threads gets the shutdown further. */
  lemma {:induction false} ClosingStretch(s: State, stretch: seq<Pick>)
    requires Inv(s) && Closing(s.control) && !s.control.Done?
    requires Picks(if CanClose(s) then ControlThread else WorkerThread, stretch) > 0
    ensures Closing(Run(s, stretch).control) && ClosingLeft(Run(s, stretch)) < ClosingLeft(s)
    decreases |stretch|
  {
    var p := stretch[0];
    var t := Picked(s, p);
    CloseStep(s, p);
    NeverReopened(t, stretch[1..]);
    if p.who.ControlThread? {
      ControlCloses(s, p.choice);
    } else {
      WorkerCloses(s, p.choice);
    }
    if ClosingLeft(t) == ClosingLeft(s) {
      ClosingStretch(t, stretch[1..]);
    }
  }

  predicate PicksBoth(stretch: seq<Pick>) {
    Picks(ControlThread, stretch) > 0 && Picks(WorkerThread, stretch) > 0
  }

  /** A shutdown always completes: after at most twenty stretches that pick both threads everything is released. */
  lemma {:induction false} ShutdownCompletes(s: State, stretches: seq<seq<Pick>>)
    requires Inv(s) && Closing(s.control) && |stretches| >= ClosingLeft(s)
    requires forall i :: 0 <= i < |stretches| ==> PicksBoth(stretches[i])
    ensures ClosingLeft(s) <= 20
    ensures var t := Run(s, Flatten(stretches));
            t.control.Done? && DeviceFree(t.claims) && !t.claims.sync.held && AllAccounted(t.claims)
    decreases |stretches|
  {
    if stretches == [] {
      assert s.control.Done?;
      return;
    }
    var rest := Flatten(stretches[1..]);
    RunAppends(s, stretches[0], rest);
    NeverReopened(s, stretches[0]);
    assert PicksBoth(stretches[0]);
    if !s.control.Done? {
      ClosingStretch(s, stretches[0]);
    }
    ShutdownCompletes(Run(s, stretches[0]), stretches[1..]);
  }
}
