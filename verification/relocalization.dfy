/**
  The relocalization handler of the `set_initpose` tool. Each pose estimate
  arriving on `/initialpose` finishes the trajectory the handler's counter
  names and advances the counter; when the finish reply reports OK, it fixes
  the estimate's height from the nearest submap and asks to start a new
  trajectory whose initial pose is the estimate expressed relative to the
  first node of the frozen trajectory 0.

  The service calls are not performed here: the finish reply the handler
  reads is an input, and the start request it would send is an output. The
  start reply only produces a log line and is not modelled.
*/
module Relocalization {
  import opened Wrappers
  import opened Geometry
  import opened SubmapSearch

  /** The status code reported by a successful service call. */
  const StatusOk: int := 0

  /** The frozen trajectory every new trajectory is anchored to. */
  const ReferenceTrajectoryId: int := 0

  /** The handler's only state: the id of the trajectory to finish next. */
  datatype RelocalizerState = RelocalizerState(currentTrajectoryId: int)

  /** The state the process starts in. */
  const InitialState: RelocalizerState := RelocalizerState(1)

  /** Configuration given on the command line, forwarded into every start request. */
  datatype Configuration = Configuration(configurationDirectory: string, configurationBasename: string)

  /**
    What the handler reads back from a finish call: whether the call was
    delivered, and the status code found in the response afterwards.
  */
  datatype ServiceReply = ServiceReply(delivered: bool, statusCode: int)

  datatype FinishRequest = FinishRequest(trajectoryId: int)

  datatype StartRequest = StartRequest(
    configurationDirectory: string,
    configurationBasename: string,
    relativeToTrajectoryId: int,
    useInitialPose: bool,
    initialPose: Pose)

  /** The effect of one pose estimate: the new state, the finish request sent and the start request, if any. */
  datatype StepResult = StepResult(state: RelocalizerState, finish: FinishRequest, start: Option<StartRequest>)

  /**
    The pose-graph snapshot and replies one event sees: the finish reply, the
    global poses of trajectory 0's nodes in node order, the submap list in
    the pose graph's order, and the operator's pose estimate.
  */
  datatype Event = Event(
    finishReply: ServiceReply,
    referenceNodes: seq<Pose>,
    submaps: seq<SubmapEntry>,
    estimate: Pose)

  /**
    The handler reads the first node of trajectory 0 only after an OK finish
    reply; at that point trajectory 0 must have a node (an empty trajectory
    there is undefined behaviour).
  */
  predicate ValidEvent(e: Event) {
    e.finishReply.statusCode == StatusOk ==> |e.referenceNodes| > 0
  }

  /** The start request the handler builds for an estimate, once the finish has succeeded. */
  function BuildStartRequest(config: Configuration, referenceNodes: seq<Pose>, submaps: seq<SubmapEntry>, estimate: Pose): (r: StartRequest)
    requires |referenceNodes| > 0
    ensures r.relativeToTrajectoryId == ReferenceTrajectoryId && r.useInitialPose
    ensures r.configurationDirectory == config.configurationDirectory
    ensures r.configurationBasename == config.configurationBasename
    ensures r.initialPose.basis == MatMul(Transpose(referenceNodes[0].basis), estimate.basis)
  {
    var reference := referenceNodes[0];
    var adjusted := AdjustHeight(estimate, submaps);
    RelativeClosedForm(reference, adjusted);
    StartRequest(config.configurationDirectory, config.configurationBasename,
                 ReferenceTrajectoryId, true, Relative(reference, adjusted))
  }

  /** One `/initialpose` event. */
  function OnInitialPose(s: RelocalizerState, config: Configuration, e: Event): (r: StepResult)
    requires ValidEvent(e)
    ensures r.finish == FinishRequest(s.currentTrajectoryId)
    ensures r.state.currentTrajectoryId == s.currentTrajectoryId + 1
    ensures r.start.Some? <==> e.finishReply.statusCode == StatusOk
  {
    var next := RelocalizerState(s.currentTrajectoryId + 1);
    var finish := FinishRequest(s.currentTrajectoryId);
    if e.finishReply.statusCode != StatusOk then
      StepResult(next, finish, None)
    else
      StepResult(next, finish, Some(BuildStartRequest(config, e.referenceNodes, e.submaps, e.estimate)))
  }

  /** Everything a run of events sent: the final state, the finish requests and the start requests, in order. */
  datatype Trace = Trace(state: RelocalizerState, finished: seq<int>, started: seq<StartRequest>)

  /** Handles the events one after another, as the single-threaded event loop delivers them. */
  function Run(s: RelocalizerState, config: Configuration, events: seq<Event>): Trace
    requires forall i :: 0 <= i < |events| ==> ValidEvent(events[i])
    decreases |events|
  {
    if |events| == 0 then Trace(s, [], [])
    else
      var step := OnInitialPose(s, config, events[0]);
      var rest := Run(step.state, config, events[1..]);
      var started := match step.start case Some(req) => [req] case None => [];
      Trace(rest.state, [step.finish.trajectoryId] + rest.finished, started + rest.started)
  }

  /** The number of events whose finish reply reports OK. */
  function CountOk(events: seq<Event>): nat
    decreases |events|
  {
    if |events| == 0 then 0
    else (if events[0].finishReply.statusCode == StatusOk then 1 else 0) + CountOk(events[1..])
  }

  // ---------------------------------------------------------------------
  // Properties of one event

  /** Whether the finish call was delivered plays no part: only the status code read back counts. */
  lemma DeliveryIgnored(s: RelocalizerState, config: Configuration, e: Event, delivered: bool)
    requires ValidEvent(e)
    ensures var e' := e.(finishReply := ServiceReply(delivered, e.finishReply.statusCode));
            OnInitialPose(s, config, e') == OnInitialPose(s, config, e)
  {
  }

  /**
    The start request carries inverse(reference) * estimate, where the
    reference is the first node of trajectory 0 and the estimate has had its
    height fixed: the estimate's offset from that node, rotated into the
    node's frame.
  */
  lemma StartPoseIsRelative(s: RelocalizerState, config: Configuration, e: Event)
    requires ValidEvent(e) && e.finishReply.statusCode == StatusOk
    ensures var r := OnInitialPose(s, config, e);
            && r.start.Some?
            && r.start.value.initialPose == Compose(Inverse(e.referenceNodes[0]), AdjustHeight(e.estimate, e.submaps))
            && r.start.value.initialPose.origin
               == MatVec(Transpose(e.referenceNodes[0].basis),
                         Sub(AdjustHeight(e.estimate, e.submaps).origin, e.referenceNodes[0].origin))
  {
  }

  /** Re-anchoring the start request's pose at the first node of trajectory 0 recovers the height-fixed estimate. */
  lemma StartPoseReanchors(s: RelocalizerState, config: Configuration, e: Event)
    requires ValidEvent(e) && e.finishReply.statusCode == StatusOk
    requires Orthonormal(e.referenceNodes[0].basis)
    ensures var r := OnInitialPose(s, config, e);
            r.start.Some? && Compose(e.referenceNodes[0], r.start.value.initialPose) == AdjustHeight(e.estimate, e.submaps)
  {
    ReanchorRoundTrip(e.referenceNodes[0], AdjustHeight(e.estimate, e.submaps));
  }

  /** When trajectory 0 starts at the map origin, the initial pose is the height-fixed estimate itself. */
  lemma IdentityReferenceKeepsEstimate(s: RelocalizerState, config: Configuration, e: Event)
    requires ValidEvent(e) && e.finishReply.statusCode == StatusOk
    requires e.referenceNodes[0] == IdentityPose
    ensures OnInitialPose(s, config, e).start == Some(StartRequest(
              config.configurationDirectory, config.configurationBasename,
              ReferenceTrajectoryId, true, AdjustHeight(e.estimate, e.submaps)))
  {
    RelativeToIdentity(AdjustHeight(e.estimate, e.submaps));
  }

  // ---------------------------------------------------------------------
  // Properties of a run of events

  /**
    Over any run the counter advances by exactly the number of events, the
    finish requests name consecutive ids starting at the initial counter,
    and exactly the events with an OK finish reply produce a start request.
  */
  lemma {:induction false} RunAccounting(s: RelocalizerState, config: Configuration, events: seq<Event>)
    requires forall i :: 0 <= i < |events| ==> ValidEvent(events[i])
    ensures Run(s, config, events).state.currentTrajectoryId == s.currentTrajectoryId + |events|
    ensures |Run(s, config, events).finished| == |events|
    ensures forall i :: 0 <= i < |events| ==> Run(s, config, events).finished[i] == s.currentTrajectoryId + i
    ensures |Run(s, config, events).started| == CountOk(events)
    decreases |events|
  {
    if |events| > 0 {
      var step := OnInitialPose(s, config, events[0]);
      RunAccounting(step.state, config, events[1..]);
    }
  }

  /** Every start request of a run is anchored to trajectory 0 with the configured files. */
  lemma {:induction false} RunStartsAnchored(s: RelocalizerState, config: Configuration, events: seq<Event>)
    requires forall i :: 0 <= i < |events| ==> ValidEvent(events[i])
    ensures forall req :: req in Run(s, config, events).started ==>
              && req.relativeToTrajectoryId == ReferenceTrajectoryId
              && req.useInitialPose
              && req.configurationDirectory == config.configurationDirectory
              && req.configurationBasename == config.configurationBasename
    decreases |events|
  {
    if |events| > 0 {
      var step := OnInitialPose(s, config, events[0]);
      RunStartsAnchored(step.state, config, events[1..]);
    }
  }

  /** From the process start, the frozen trajectory 0 is never asked to finish, and no id is finished twice. */
  lemma ReferenceNeverFinished(config: Configuration, events: seq<Event>)
    requires forall i :: 0 <= i < |events| ==> ValidEvent(events[i])
    ensures ReferenceTrajectoryId !in Run(InitialState, config, events).finished
    ensures forall i, j :: 0 <= i < j < |Run(InitialState, config, events).finished| ==>
              Run(InitialState, config, events).finished[i] != Run(InitialState, config, events).finished[j]
  {
    RunAccounting(InitialState, config, events);
  }
}
