/**
 The controller's desired, observed and health state (ctrld/pktlab_ctrld/app.py) on top of the topology manager.
 What the process supervisor answers during an operation is an input: whether its start or stop raises, whether it
 rejects a command, and the status it reports.
 */
module Controller {
  import opened JsonGrammar
  import opened TopologyConfig
  import opened RuntimePolicy
  import opened Validation
  import opened Kernel
  import opened Netns
  import opened TopologyOps
  import opened TopologyManager
  import Responses
  import Lcores

  datatype ControllerState = Stopped | Starting | Running | Degraded | Reconciling | Stopping

  datatype Desired = Desired(path: Option<string>, name: Option<string>, request: Option<Request>, running: bool,
                             datapathRunning: bool)

  datatype DatapathHealth = DatapathHealth(state: Responses.DpState, message: string)

  /** The supervisor's view of the datapath process. */
  datatype Status = Status(pid: Option<nat>, running: bool, reachable: bool, health: Option<DatapathHealth>,
                           lastError: Option<string>)

  const NO_PROCESS := Status(None, false, false, None, None)

  datatype Observed = Observed(applied: bool, effective: Option<Profile>, health: Option<Responses.DpState>,
                               pid: Option<nat>)

  const NO_TOPOLOGY := Desired(None, None, None, false, false)

  /** How an operation ends. */
  datatype Ending = Returned | Refused | Failed(outcome: Outcome) | SupervisorRaised

  datatype Snapshot = Snapshot(state: ControllerState, message: string, desired: Desired, observed: Observed,
                               datapath: Status)

  /** What the supervisor answers during one operation. */
  datatype Answers = Answers(startRaises: bool, stopRaises: bool, rejects: bool, status: Status)

  datatype Setup = Setup(supervise: bool, hasSupervisor: bool)

  /** The controller's fields, and the manager's record. */
  datatype View = View(setup: Setup, record: Option<Applied>, desired: Desired, observed: Observed,
                       state: ControllerState, message: string, override: Option<string>, started: bool)

  function Initial(setup: Setup): (v: View) {
    View(setup, None, NO_TOPOLOGY.(datapathRunning := setup.supervise), Observed(false, None, None, None),
         Stopped, "controller is not started", None, false)
  }

  // ----- the pieces of an operation -----

  function ObservedFrom(s: Status, applied: bool, effective: Option<Profile>): (o: Observed) {
    Observed(applied, effective, match s.health case Some(h) => Some(h.state) case None => None, s.pid)
  }

  function TextOr(o: Option<string>, default: string): (t: string) {
    match o case Some(t) => (if t == "" then default else t) case None => default
  }

  function ApplyFailure(path: string): (t: string) {
    "failed to apply topology from " + path
  }

  const DESTROY_FAILURE := "failed to destroy topology"

  predicate Blank(s: string) {
    forall i :: 0 <= i < |s| ==> Lcores.IsBlank(s[i])
  }

  function Reported(h: DatapathHealth): (t: string) {
    "datapath reported state " + Responses.StateName(h.state) + ": " + h.message
  }

  /** The controller's health, given the override, its state so far and the datapath's status. */
  function Health(v: View, s: Status): (r: (ControllerState, string))
    ensures v.override.Some? ==> r == (Degraded, v.override.value)
  {
    if v.override.Some? then (Degraded, v.override.value)
    else if !v.started && v.state.Stopped? then (v.state, "controller is not started")
    else if !v.setup.supervise then (Running, "controller ready without datapath supervision")
    else if !v.desired.datapathRunning then
      if s.running then (Degraded, "datapath process is running without an active topology")
      else (Running, "controller ready without active topology")
    else if !s.running then (Degraded, TextOr(s.lastError, "datapath process is not running"))
    else if !s.reachable || s.health.None? then (Degraded, TextOr(s.lastError, "datapath IPC is not reachable"))
    else if s.health.value.state.Running? then (Running, "controller ready")
    else (Degraded, Reported(s.health.value))
  }

  function Refreshed(v: View, s: Status): (r: View) {
    var (state, message) := Health(v, s);
    v.(state := state, message := message)
  }

  /** The status that counts: the supervisor's once started, nothing otherwise. */
  function StatusSeen(v: View, a: Answers): (s: Status) {
    if v.started && v.setup.hasSupervisor then a.status else NO_PROCESS
  }

  function Begun(v: View, phase: ControllerState, text: string): (r: View) {
    v.(override := None, state := phase, message := text)
  }

  /** A new status is observed, the observed topology staying as it is. */
  function Observing(v: View, s: Status): (r: View) {
    Refreshed(v.(observed := ObservedFrom(s, v.observed.applied, v.observed.effective)), s)
  }

  /** The topology that is wanted and seen changes together. */
  function Settled(v: View, d: Desired, applied: bool, effective: Option<Profile>, s: Status): (r: View) {
    Refreshed(v.(desired := d, observed := ObservedFrom(s, applied, effective)), s)
  }

  /** The datapath is running, reachable, and says so itself. */
  predicate DatapathFine(s: Status) {
    s.running && s.reachable && s.health.Some? && s.health.value.state.Running?
  }

  /**
   What the health of a started and supervising controller without a standing failure has to be: running exactly
   when the datapath is as wanted, degraded otherwise, with the reason.
   */
  predicate TellsHealth(wanted: bool, s: Status, state: ControllerState, message: string) {
    && (state.Running? || state.Degraded?)
    && (state.Running? <==> if wanted then DatapathFine(s) else !s.running)
    && (wanted && DatapathFine(s) ==> message == "controller ready")
    && (wanted && !s.running ==> message == TextOr(s.lastError, "datapath process is not running"))
    && (wanted && s.running && (!s.reachable || s.health.None?) ==>
          message == TextOr(s.lastError, "datapath IPC is not reachable"))
    && (wanted && s.running && s.reachable && s.health.Some? && !DatapathFine(s) ==>
          message == Reported(s.health.value))
    && (!wanted && s.running ==> message == "datapath process is running without an active topology")
    && (!wanted && !s.running ==> message == "controller ready without active topology")
  }

  lemma HealthIsExact(v: View, s: Status)
    requires v.override.None? && v.started
    ensures var (state, message) := Health(v, s);
            if v.setup.supervise then TellsHealth(v.desired.datapathRunning, s, state, message)
            else state == Running && message == "controller ready without datapath supervision"
  {
  }

  // ----- the operations -----

  datatype Call =
    | StartController
    | StopController
    | ApplyPath(path: string, document: Document)
    | DestroyApplied
    | ReadHealth
    | PauseOrResume

  function AfterStart(v: View, a: Answers): (r: (View, Ending)) {
    if v.started then (v, Returned)
    else
      var begun := Begun(v, ControllerState.Starting, "starting controller runtime")
                   .(desired := NO_TOPOLOGY.(running := true, datapathRunning := v.setup.supervise));
      if v.setup.hasSupervisor && a.startRaises then (begun, SupervisorRaised)
      else (Observing(begun.(started := true), if v.setup.hasSupervisor then a.status else NO_PROCESS), Returned)
  }

  function AfterStop(v: View, a: Answers, o: Outcome, record: Option<Applied>): (r: (View, Ending)) {
    if !v.started then (v, Returned)
    else
      var begun := Begun(v, ControllerState.Stopping, "stopping controller runtime").(record := record);
      if v.record.Some? && !o.Success? then (begun, Failed(o))
      else if v.record.None? && v.setup.hasSupervisor && a.stopRaises then (begun, SupervisorRaised)
      else
        (begun.(observed := ObservedFrom(NO_PROCESS, false, None), desired := NO_TOPOLOGY, state := Stopped,
                message := "controller stopped", started := false), Returned)
  }

  function AfterApply(v: View, path: string, a: Answers, o: Outcome, record: Option<Applied>): (r: (View, Ending)) {
    if Blank(path) then (v, Refused)
    else
      var s := StatusSeen(v, a);
      var begun := Begun(v, Reconciling, "applying topology from " + path).(record := record);
      if o.Success? && record.Some? then
        var t := record.value.topology;
        (Settled(begun, Desired(Some(path), Some(t.name), Some(t.request), true, true), true,
                 Some(record.value.profile), s),
         Returned)
      else (ApplyFailed(begun, path, s), Failed(o))
  }

  /** The failure stands; without a record nothing is wanted or seen any more. */
  function ApplyFailed(v: View, path: string, s: Status): (r: View) {
    var failed := v.(override := Some(ApplyFailure(path)));
    if v.record.None? then Settled(failed, NO_TOPOLOGY.(running := v.started), false, None, s) else Observing(failed, s)
  }

  function AfterDestroy(v: View, a: Answers, o: Outcome, record: Option<Applied>): (r: (View, Ending)) {
    var s := StatusSeen(v, a);
    var begun := Begun(v, Reconciling, "destroying topology").(record := record);
    if !o.Success? then (Observing(begun.(override := Some(DESTROY_FAILURE)), s), Failed(o))
    else if v.setup.hasSupervisor && a.stopRaises then (begun, SupervisorRaised)
    else (Settled(begun, NO_TOPOLOGY.(running := v.started), false, None, s), Returned)
  }

  function AfterHealth(v: View, a: Answers): (r: (View, Ending)) {
    (if v.started && v.setup.hasSupervisor then Observing(v, a.status) else v, Returned)
  }

  function AfterControl(v: View, a: Answers): (r: (View, Ending)) {
    if !v.setup.hasSupervisor || a.rejects then (v, Refused) else (Observing(v, StatusSeen(v, a)), Returned)
  }

  /** The controller after a call, given the supervisor's answers and what the manager made of it. */
  function After(v: View, call: Call, a: Answers, o: Outcome, record: Option<Applied>): (r: (View, Ending)) {
    match call
    case StartController => AfterStart(v, a)
    case StopController => AfterStop(v, a, o, record)
    case ApplyPath(path, _) => AfterApply(v, path, a, o, record)
    case DestroyApplied => AfterDestroy(v, a, o, record)
    case ReadHealth => AfterHealth(v, a)
    case PauseOrResume => AfterControl(v, a)
  }

  /** What the manager's record can be after an apply. */
  predicate RecordApplied(record: Option<Applied>, path: string, document: Document, o: Outcome,
                          record': Option<Applied>) {
    match o
    case Success => record'.Some? && record'.value.path == path && document == Loaded(record'.value.topology)
    case BuildFailed(_) => record' == None
    case ConfigError => record' == record
    case DestroyFailed => record' == record && record.Some?
  }

  predicate RecordDestroyed(record: Option<Applied>, o: Outcome, record': Option<Applied>) {
    if o.Success? then record' == None else o.DestroyFailed? && record.Some? && record' == record
  }

  /** Whether the call reaches the manager, and what it then does to the record. */
  predicate Managed(v: View, call: Call, o: Outcome, record: Option<Applied>) {
    match call
    case ApplyPath(path, document) =>
      if Blank(path) then record == v.record else RecordApplied(v.record, path, document, o, record)
    case DestroyApplied => RecordDestroyed(v.record, o, record)
    case StopController =>
      if v.started && v.record.Some? then RecordDestroyed(v.record, o, record) else record == v.record
    case _ => record == v.record
  }

  /** One call, from one view to the next. */
  ghost predicate CallStep(v: View, call: Call, a: Answers, e: Ending, v': View) {
    exists o :: Managed(v, call, o, v'.record) && (v', e) == After(v, call, a, o, v'.record)
  }

  // ----- the four views of the topology -----

  /** Desired name and path, observed flag and effective profile all describe the topology on record. */
  predicate Agreeing(v: View) {
    match v.record
    case None => !v.observed.applied && v.observed.effective == None && v.desired.name == None && v.desired.path == None
    case Some(a) =>
      && v.observed.applied && v.observed.effective == Some(a.profile)
      && v.desired.name == Some(a.topology.name) && v.desired.path == Some(a.path)
  }

  /**
   The calls that break the agreement: a start of a stopped controller with a topology on record, and a destroy
   that tore the topology down before the supervisor's stop raised.
   */
  predicate Detaches(v: View, call: Call, a: Answers, v': View) {
    || (call.StartController? && !v.started && v.record.Some?)
    || (call.DestroyApplied? && v.record.Some? && v'.record.None? && v.setup.hasSupervisor && a.stopRaises)
  }

  /** Agreement survives a call exactly unless the call is one of those. */
  lemma StepAgrees(v: View, call: Call, a: Answers, o: Outcome, record: Option<Applied>)
    requires Managed(v, call, o, record) && Agreeing(v)
    ensures var v' := After(v, call, a, o, record).0;
            v'.record == record && (Agreeing(v') <==> !Detaches(v, call, a, v'))
  {
    match call
    case StopController => StopAgrees(v, a, o, record);
    case ApplyPath(path, document) => ApplyAgrees(v, path, document, a, o, record);
    case DestroyApplied => DestroyAgrees(v, a, o, record);
    case _ =>
  }

  lemma StopAgrees(v: View, a: Answers, o: Outcome, record: Option<Applied>)
    requires Managed(v, StopController, o, record) && Agreeing(v)
    ensures var v' := AfterStop(v, a, o, record).0; v'.record == record && Agreeing(v')
  {
  }

  lemma ApplyAgrees(v: View, path: string, document: Document, a: Answers, o: Outcome, record: Option<Applied>)
    requires Managed(v, ApplyPath(path, document), o, record) && Agreeing(v)
    ensures var v' := AfterApply(v, path, a, o, record).0; v'.record == record && Agreeing(v')
  {
  }

  lemma DestroyAgrees(v: View, a: Answers, o: Outcome, record: Option<Applied>)
    requires RecordDestroyed(v.record, o, record) && Agreeing(v)
    ensures var v' := AfterDestroy(v, a, o, record).0;
            v'.record == record && (Agreeing(v') <==> !Detaches(v, DestroyApplied, a, v'))
  {
  }

  /** An apply that returns brings the views together again, wherever it started. */
  lemma ApplyRestores(v: View, path: string, document: Document, a: Answers, o: Outcome, record: Option<Applied>)
    requires Managed(v, ApplyPath(path, document), o, record)
    ensures var (v', e) := AfterApply(v, path, a, o, record); e.Returned? ==> Agreeing(v')
  {
  }

  // ----- what a call leaves running, and how it ends -----

  /** A start that returns has the controller started and wants it running; a stop that returns undoes that. */
  lemma StartAndStopTell(v: View, a: Answers, o: Outcome, record: Option<Applied>)
    requires Managed(v, StopController, o, record)
    ensures var (v', e) := AfterStart(v, a);
            && (e.Returned? || e.SupervisorRaised?) && (e.Returned? <==> v'.started)
            && (e.SupervisorRaised? <==> !v.started && v.setup.hasSupervisor && a.startRaises)
            && (!v.started ==> v'.desired.running && v'.desired.datapathRunning == v.setup.supervise)
    ensures var (v', e) := AfterStop(v, a, o, record);
            && (e.Returned? <==> !v'.started)
            && (v.started && e.Returned? ==>
                  v'.state == Stopped && !v'.desired.running && !v'.desired.datapathRunning && v'.record == None)
            && (e.Failed? <==> v.started && v.record.Some? && !o.Success?)
  {
  }

  /** An apply is refused for a blank path and otherwise returns exactly on success, a datapath then being wanted. */
  lemma ApplyTells(v: View, path: string, document: Document, a: Answers, o: Outcome, record: Option<Applied>)
    requires Managed(v, ApplyPath(path, document), o, record)
    ensures var (v', e) := AfterApply(v, path, a, o, record);
            && v'.started == v.started && (e.Refused? <==> Blank(path))
            && (e.Returned? <==> !Blank(path) && o.Success?) && (e.Failed? <==> !Blank(path) && !o.Success?)
            && (e.Returned? ==>
                  && record.Some?
                  && v'.desired == Desired(Some(path), Some(record.value.topology.name),
                                           Some(record.value.topology.request), true, true))
            && (e.Failed? && record.None? ==> !v'.desired.datapathRunning && v'.desired.running == v.started)
  {
  }

  /** A destroy fails exactly with the manager, and no datapath is wanted after one that returns. */
  lemma DestroyTells(v: View, a: Answers, o: Outcome, record: Option<Applied>)
    ensures var (v', e) := AfterDestroy(v, a, o, record);
            && v'.started == v.started && (e.Failed? <==> !o.Success?)
            && (e.SupervisorRaised? <==> o.Success? && v.setup.hasSupervisor && a.stopRaises)
            && (e.Returned? <==> o.Success? && !(v.setup.hasSupervisor && a.stopRaises))
            && (e.Returned? ==> !v'.desired.datapathRunning && v'.desired.running == v.started)
  {
  }

  // ----- standing failures -----

  /** A failure message, while it stands, is what health shows. */
  predicate Shown(v: View) {
    v.override.Some? ==> v.state == Degraded && v.message == v.override.value
  }

  /** The calls that end a standing failure: apply, destroy, a stop once started, a start once stopped. */
  predicate Clears(v: View, call: Call) {
    match call
    case StartController => !v.started
    case StopController => v.started
    case ApplyPath(path, _) => !Blank(path)
    case DestroyApplied => true
    case _ => false
  }

  /** A failure stands, and is shown, through every call that does not clear it; a failing call sets its own. */
  lemma StepShows(v: View, call: Call, a: Answers, o: Outcome, record: Option<Applied>)
    requires Managed(v, call, o, record) && Shown(v)
    ensures var (v', e) := After(v, call, a, o, record);
            && Shown(v') && (!Clears(v, call) ==> v'.override == v.override)
            && (Clears(v, call) ==>
                  v'.override == if e.Failed? && call.ApplyPath? then Some(ApplyFailure(call.path))
                                 else if e.Failed? && call.DestroyApplied? then Some(DESTROY_FAILURE) else None)
  {
    match call
    case ApplyPath(path, document) => ApplyShows(v, path, a, o, record);
    case _ =>
  }

  lemma ApplyShows(v: View, path: string, a: Answers, o: Outcome, record: Option<Applied>)
    requires Shown(v)
    ensures var (v', e) := AfterApply(v, path, a, o, record);
            && Shown(v')
            && v'.override == if Blank(path) then v.override
                              else if e.Failed? then Some(ApplyFailure(path)) else None
  {
  }

  // ----- whole runs -----

  /** Calls with the supervisor's answers, and the views they lead through. */
  ghost predicate Served(calls: seq<Call>, answers: seq<Answers>, endings: seq<Ending>, views: seq<View>) {
    && |answers| == |endings| == |calls| && |views| == |calls| + 1
    && forall i :: 0 <= i < |calls| ==> CallStep(views[i], calls[i], answers[i], endings[i], views[i + 1])
  }

  ghost predicate NeverDetached(calls: seq<Call>, answers: seq<Answers>, views: seq<View>, n: nat)
    requires n <= |calls| == |answers| && |views| == |calls| + 1
  {
    forall i :: 0 <= i < n ==> !Detaches(views[i], calls[i], answers[i], views[i + 1])
  }

  /**
   In every sequential run, each call succeeding or failing, the four places that know about the topology agree as
   long as no stopped controller is started with a topology on record and no stop raises behind a teardown.
   */
  lemma {:induction false} RunAgrees(calls: seq<Call>, answers: seq<Answers>, endings: seq<Ending>, views: seq<View>,
                                     n: nat)
    requires Served(calls, answers, endings, views) && Agreeing(views[0]) && n <= |calls|
    requires NeverDetached(calls, answers, views, n)
    ensures Agreeing(views[n])
  {
    if n > 0 {
      var m := n - 1;
      RunAgrees(calls, answers, endings, views, m);
      assert CallStep(views[m], calls[m], answers[m], endings[m], views[n]);
      var o :| Managed(views[m], calls[m], o, views[n].record)
            && (views[n], endings[m]) == After(views[m], calls[m], answers[m], o, views[n].record);
      StepAgrees(views[m], calls[m], answers[m], o, views[n].record);
    }
  }

  /** The first of those calls in a run does break the agreement. */
  lemma FirstDetachBreaks(calls: seq<Call>, answers: seq<Answers>, endings: seq<Ending>, views: seq<View>, n: nat)
    requires Served(calls, answers, endings, views) && Agreeing(views[0]) && n < |calls|
    requires NeverDetached(calls, answers, views, n) && Detaches(views[n], calls[n], answers[n], views[n + 1])
    ensures !Agreeing(views[n + 1])
  {
    RunAgrees(calls, answers, endings, views, n);
    assert CallStep(views[n], calls[n], answers[n], endings[n], views[n + 1]);
    var o :| Managed(views[n], calls[n], o, views[n + 1].record)
          && (views[n + 1], endings[n]) == After(views[n], calls[n], answers[n], o, views[n + 1].record);
    StepAgrees(views[n], calls[n], answers[n], o, views[n + 1].record);
  }

  ghost predicate NeverCleared(calls: seq<Call>, views: seq<View>, n: nat)
    requires n <= |calls| && |views| == |calls| + 1
  {
    forall i :: 0 <= i < n ==> !Clears(views[i], calls[i])
  }

  /** After a failed apply or destroy every view shows that failure until the next apply, destroy, stop or start. */
  lemma {:induction false} FailureStands(calls: seq<Call>, answers: seq<Answers>, endings: seq<Ending>,
                                         views: seq<View>, n: nat)
    requires Served(calls, answers, endings, views) && Shown(views[0]) && views[0].override.Some? && n <= |calls|
    requires NeverCleared(calls, views, n)
    ensures views[n].override == views[0].override
    ensures views[n].state == Degraded && views[n].message == views[0].override.value
  {
    if n > 0 {
      var m := n - 1;
      FailureStands(calls, answers, endings, views, m);
      assert CallStep(views[m], calls[m], answers[m], endings[m], views[n]);
      var o :| Managed(views[m], calls[m], o, views[n].record)
            && (views[n], endings[m]) == After(views[m], calls[m], answers[m], o, views[n].record);
      assert !Clears(views[m], calls[m]);
      StepShows(views[m], calls[m], answers[m], o, views[n].record);
    }
  }

  /** Applying before the controller is started and then starting it loses the topology's name. */
  lemma StartForgetsTopology(setup: Setup, path: string, t: Topology, profile: Profile, a: Answers, b: Answers)
    requires !Blank(path)
    ensures var record := Some(Applied(path, t, profile));
            var v := After(Initial(setup), ApplyPath(path, Loaded(t)), a, Success, record).0;
            Agreeing(v) && !Agreeing(After(v, StartController, b, Success, record).0)
  {
    var record := Some(Applied(path, t, profile));
    var call := ApplyPath(path, Loaded(t));
    StepAgrees(Initial(setup), call, a, Success, record);
    StepAgrees(After(Initial(setup), call, a, Success, record).0, StartController, b, Success, record);
  }

  // ----- the controller -----

  class Runtime {
    const manager: Manager
    const setup: Setup
    var desired: Desired
    var observed: Observed
    var state: ControllerState
    var message: string
    var override: Option<string>
    var started: bool

    function Seen(): (v: View)
      reads this, manager
    {
      View(setup, manager.current, desired, observed, state, message, override, started)
    }

    constructor (manager: Manager, setup: Setup)
      requires manager.current.None?
      ensures this.manager == manager && Seen() == Initial(setup)
    {
      this.manager, this.setup := manager, setup;
      desired, observed := NO_TOPOLOGY.(datapathRunning := setup.supervise), Observed(false, None, None, None);
      state, message, override, started := Stopped, "controller is not started", None, false;
    }

    method CurrentStatus(a: Answers) returns (s: Status)
      ensures s == StatusSeen(Seen(), a)
    {
      s := NO_PROCESS;
      if started && setup.hasSupervisor {
        s := a.status;
      }
    }

    method Recompute(s: Status)
      modifies this`state, this`message
      ensures Seen() == Refreshed(old(Seen()), s)
    {
      if override.Some? {
        state, message := Degraded, override.value;
        return;
      }
      if !started && state.Stopped? {
        message := "controller is not started";
        return;
      }
      if !setup.supervise {
        state, message := Running, "controller ready without datapath supervision";
        return;
      }
      if !desired.datapathRunning {
        if s.running {
          state, message := Degraded, "datapath process is running without an active topology";
          return;
        }
        state, message := Running, "controller ready without active topology";
        return;
      }
      if !s.running {
        state, message := Degraded, TextOr(s.lastError, "datapath process is not running");
        return;
      }
      if !s.reachable || s.health.None? {
        state, message := Degraded, TextOr(s.lastError, "datapath IPC is not reachable");
        return;
      }
      if s.health.value.state.Running? {
        state, message := Running, "controller ready";
        return;
      }
      state := Degraded;
      message := Reported(s.health.value);
    }

    method Begin(phase: ControllerState, text: string)
      modifies this`override, this`state, this`message
      ensures Seen() == Begun(old(Seen()), phase, text)
    {
      override := None;
      state, message := phase, text;
    }

    method Observe(s: Status)
      modifies this`observed, this`state, this`message
      ensures Seen() == Observing(old(Seen()), s)
    {
      observed := ObservedFrom(s, observed.applied, observed.effective);
      Recompute(s);
    }

    method Settle(d: Desired, applied: bool, effective: Option<Profile>, s: Status)
      modifies this`desired, this`observed, this`state, this`message
      ensures Seen() == Settled(old(Seen()), d, applied, effective, s)
    {
      desired := d;
      observed := ObservedFrom(s, applied, effective);
      Recompute(s);
    }

    /** The manager's apply, as far as its record goes. */
    method ManagerApply(path: string, document: Document) returns (o: Outcome)
      requires manager.Valid()
      modifies manager, manager.host
      ensures manager.Valid() && RecordApplied(old(manager.current), path, document, o, manager.current)
    {
      ghost var between, broken;
      o, between, broken := manager.Apply(path, document);
    }

    /** The manager's destroy, as far as its record goes. */
    method ManagerDestroy() returns (o: Outcome)
      requires manager.Valid()
      modifies manager, manager.host
      ensures manager.Valid() && RecordDestroyed(old(manager.current), o, manager.current)
    {
      o := manager.Destroy();
    }

    method Start(a: Answers) returns (e: Ending)
      modifies this
      ensures (Seen(), e) == AfterStart(old(Seen()), a)
    {
      if started {
        return Returned;
      }
      Begin(ControllerState.Starting, "starting controller runtime");
      desired := NO_TOPOLOGY.(running := true, datapathRunning := setup.supervise);
      var status := NO_PROCESS;
      if setup.hasSupervisor {
        if a.startRaises {
          return SupervisorRaised;
        }
        status := a.status;
      }
      started := true;
      Observe(status);
      e := Returned;
    }

    method Stop(a: Answers) returns (e: Ending, ghost o: Outcome)
      requires manager.Valid()
      modifies this, manager, manager.host
      ensures manager.Valid() && Managed(old(Seen()), StopController, o, manager.current)
      ensures (Seen(), e) == AfterStop(old(Seen()), a, o, manager.current)
    {
      o := Success;
      if !started {
        return Returned, o;
      }
      Begin(ControllerState.Stopping, "stopping controller runtime");
      if manager.current.Some? {
        var outcome := ManagerDestroy();
        o := outcome;
        if !outcome.Success? {
          return Failed(outcome), o;
        }
      } else if setup.hasSupervisor && a.stopRaises {
        return SupervisorRaised, o;
      }
      CloseDown();
      e := Returned;
    }

    method CloseDown()
      modifies this`observed, this`desired, this`state, this`message, this`started
      ensures Seen() == old(Seen()).(observed := ObservedFrom(NO_PROCESS, false, None), desired := NO_TOPOLOGY,
                                     state := Stopped, message := "controller stopped", started := false)
    {
      observed := ObservedFrom(NO_PROCESS, false, None);
      desired := NO_TOPOLOGY;
      state, message := Stopped, "controller stopped";
      started := false;
    }

    method ApplyTopology(path: string, document: Document, a: Answers) returns (e: Ending, ghost o: Outcome)
      requires manager.Valid()
      modifies this, manager, manager.host
      ensures manager.Valid() && Managed(old(Seen()), ApplyPath(path, document), o, manager.current)
      ensures (Seen(), e) == AfterApply(old(Seen()), path, a, o, manager.current)
    {
      o := ConfigError;
      if Blank(path) {
        return Refused, o;
      }
      Begin(Reconciling, "applying topology from " + path);
      var outcome := ManagerApply(path, document);
      o := outcome;
      var status := CurrentStatus(a);
      if outcome.Success? {
        var record := manager.current.value;
        var t := record.topology;
        Settle(Desired(Some(path), Some(t.name), Some(t.request), true, true), true, Some(record.profile), status);
        return Returned, o;
      }
      ShowApplyFailure(path, status);
      e := Failed(outcome);
    }

    method ShowApplyFailure(path: string, status: Status)
      modifies this
      ensures Seen() == ApplyFailed(old(Seen()), path, status)
    {
      override := Some(ApplyFailure(path));
      if manager.current.None? {
        Settle(NO_TOPOLOGY.(running := started), false, None, status);
      } else {
        Observe(status);
      }
    }

    method DestroyTopology(a: Answers) returns (e: Ending, ghost o: Outcome)
      requires manager.Valid()
      modifies this, manager, manager.host
      ensures manager.Valid() && Managed(old(Seen()), DestroyApplied, o, manager.current)
      ensures (Seen(), e) == AfterDestroy(old(Seen()), a, o, manager.current)
    {
      Begin(Reconciling, "destroying topology");
      var outcome := ManagerDestroy();
      o := outcome;
      var status := CurrentStatus(a);
      if !outcome.Success? {
        override := Some(DESTROY_FAILURE);
        Observe(status);
        return Failed(outcome), o;
      }
      if setup.hasSupervisor && a.stopRaises {
        return SupervisorRaised, o;
      }
      Settle(NO_TOPOLOGY.(running := started), false, None, status);
      e := Returned;
    }

    method HealthSnapshot(a: Answers) returns (s: Snapshot)
      modifies this`observed, this`state, this`message
      ensures Seen() == AfterHealth(old(Seen()), a).0
      ensures s == Snapshot(state, message, desired, observed, StatusSeen(Seen(), a))
      ensures started && setup.hasSupervisor ==>
                && s.datapath == a.status && s.observed.pid == a.status.pid
                && (a.status.health.None? ==> s.observed.health == None)
                && (a.status.health.Some? ==> s.observed.health == Some(a.status.health.value.state))
      ensures started && setup.hasSupervisor && setup.supervise && override.None? ==>
                TellsHealth(desired.datapathRunning, a.status, s.state, s.message)
      ensures started && setup.hasSupervisor && override.Some? ==> s.state == Degraded && s.message == override.value
    {
      ghost var v := Seen();
      var status := CurrentStatus(a);
      if started && setup.hasSupervisor {
        Observe(status);
        if override.None? {
          HealthIsExact(v.(observed := ObservedFrom(status, v.observed.applied, v.observed.effective)), status);
        }
      }
      s := Snapshot(state, message, desired, observed, status);
    }

    /** Pause and resume. */
    method ControlDatapath(a: Answers) returns (e: Ending)
      modifies this`observed, this`state, this`message
      ensures (Seen(), e) == AfterControl(old(Seen()), a)
    {
      if !setup.hasSupervisor {
        return Refused;
      }
      if a.rejects {
        return Refused;
      }
      var status := CurrentStatus(a);
      Observe(status);
      e := Returned;
    }

    /** One call of the controller's interface. */
    method Serve(call: Call, a: Answers) returns (e: Ending)
      requires manager.Valid()
      modifies this, manager, manager.host
      ensures manager.Valid() && CallStep(old(Seen()), call, a, e, Seen())
    {
      ghost var v, o := Seen(), Success;
      match call
      case StartController =>
        e := Start(a);
        Witnessed(v, call, a, o, e, Seen());
      case StopController =>
        e, o := Stop(a);
        Witnessed(v, call, a, o, e, Seen());
      case ApplyPath(path, document) =>
        e, o := ApplyTopology(path, document, a);
        Witnessed(v, call, a, o, e, Seen());
      case DestroyApplied =>
        e, o := DestroyTopology(a);
        Witnessed(v, call, a, o, e, Seen());
      case ReadHealth =>
        var s := HealthSnapshot(a);
        e := Returned;
        Witnessed(v, call, a, o, e, Seen());
      case PauseOrResume =>
        e := ControlDatapath(a);
        Witnessed(v, call, a, o, e, Seen());
    }
  }

  lemma Witnessed(v: View, call: Call, a: Answers, o: Outcome, e: Ending, v': View)
    requires Managed(v, call, o, v'.record) && (v', e) == After(v, call, a, o, v'.record)
    ensures CallStep(v, call, a, e, v')
  {
  }

  /** Any sequence of calls is a run from the view before to the view after, to which the theorems apply. */
  method Session(c: Runtime, calls: seq<Call>, answers: seq<Answers>)
    returns (endings: seq<Ending>, ghost views: seq<View>)
    requires c.manager.Valid() && |answers| == |calls|
    modifies c, c.manager, c.manager.host
    ensures c.manager.Valid() && Served(calls, answers, endings, views)
    ensures views[0] == old(c.Seen()) && views[|calls|] == c.Seen()
  {
    endings, views := [], [c.Seen()];
    for index := 0 to |calls|
      invariant c.manager.Valid() && Served(calls[..index], answers[..index], endings, views)
      invariant views[0] == old(c.Seen()) && views[index] == c.Seen()
    {
      var e := c.Serve(calls[index], answers[index]);
      OneMoreCall(calls, answers, index, endings, views, e, c.Seen());
      endings, views := endings + [e], views + [c.Seen()];
    }
    assert calls[..|calls|] == calls && answers[..|calls|] == answers;
  }

  lemma OneMoreCall(calls: seq<Call>, answers: seq<Answers>, n: nat, endings: seq<Ending>, views: seq<View>, e: Ending,
                    v: View)
    requires n < |calls| == |answers| && Served(calls[..n], answers[..n], endings, views)
    requires CallStep(views[n], calls[n], answers[n], e, v)
    ensures Served(calls[..n + 1], answers[..n + 1], endings + [e], views + [v])
  {
    var calls', answers', endings', views' := calls[..n + 1], answers[..n + 1], endings + [e], views + [v];
    forall i | 0 <= i < n + 1
      ensures CallStep(views'[i], calls'[i], answers'[i], endings'[i], views'[i + 1])
    {
      if i < n {
        assert CallStep(views[i], calls[..n][i], answers[..n][i], endings[i], views[i + 1]);
      }
    }
  }
}
