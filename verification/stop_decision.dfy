/**
 * The decision of one cycle of the stop stage, as functions over values: the ordered
 * aggregation over the active traffic lights, the wait timer and the choice of outcome.
 * The imperative stage in module UnprotectedRightTurn is proved to do exactly this.
 */
module StopDecision {
  import opened StopTypes

  /** The stop line of a resolved signal lies further ahead than the stage accepts. */
  predicate TooFar(view: FrameView, maxDist: real, id: Id)
    requires id in view.signalOverlaps
  {
    view.signalOverlaps[id] - view.adcFrontEdgeS > maxDist
  }

  /** A resolved signal passes both checks of the fold: within range and GREEN. */
  predicate Passes(view: FrameView, maxDist: real, id: Id)
    requires id in view.signalOverlaps
  {
    !TooFar(view, maxDist, id) && view.signals(id) == Green
  }

  /** The ids of `ids` that resolve to an overlap on the reference line. */
  function Resolved(ids: seq<Id>, overlaps: map<Id, real>): (rs: seq<Id>)
    ensures |rs| <= |ids|
    ensures forall id :: id in rs <==> id in ids && id in overlaps
  {
    if ids == [] then []
    else (if ids[0] in overlaps then [ids[0]] else []) + Resolved(ids[1..], overlaps)
  }

  /**
   * Result of the fold: the two flags, the right-of-way updates it issued and the ids whose
   * color it looked up, both in call order.
   */
  datatype Aggregation = Aggregation(
    allStop: bool,
    allGreen: bool,
    rightOfWay: seq<RightOfWay>,
    queried: seq<Id>)

  /**
   * The fold over the active ids. Unresolved ids are skipped; every visited crossing loses
   * right of way and has its color looked up; the fold ends at the first crossing that is
   * too far away (allStop := false) or is not GREEN (allGreen := false).
   */
  function Aggregate(ids: seq<Id>, view: FrameView, maxDist: real): (a: Aggregation)
  {
    if ids == [] then Aggregation(true, true, [], [])
    else
      var id := ids[0];
      if id !in view.signalOverlaps then Aggregate(ids[1..], view, maxDist)
      else
        var update := RightOfWay(view.signalOverlaps[id], false);
        if TooFar(view, maxDist, id) then Aggregation(false, true, [update], [id])
        else if view.signals(id) != Green then Aggregation(true, false, [update], [id])
        else
          var rest := Aggregate(ids[1..], view, maxDist);
          rest.(rightOfWay := [update] + rest.rightOfWay, queried := [id] + rest.queried)
  }

  /** FinishScenario: the traffic-light status is cleared and no stage follows. */
  function FinishScenarioState(s: StopState): (t: StopState)
  {
    s.(hasTrafficLight := false, doneIds := [], nextStage := NoStage)
  }

  /**
   * FinishStage: protected mode hands over to intersection cruise and touches nothing else;
   * otherwise the done list becomes the active ids, the creep clock starts and creep follows.
   */
  function FinishStageState(s: StopState, protectedMode: bool, now: real): (t: StopState)
  {
    if protectedMode then s.(nextStage := IntersectionCruise)
    else s.(hasTrafficLight := true, doneIds := s.ids, creepStartTime := now, nextStage := Creep)
  }

  /** What one cycle returns and leaves behind, with the calls it made on the frame. */
  datatype CycleResult = CycleResult(
    status: StageStatus,
    post: StopState,
    rightOfWay: seq<RightOfWay>,
    queried: seq<Id>)

  /** One call of Process on state `pre`. */
  function Cycle(pre: StopState, cfg: ScenarioConfig, view: FrameView, now: real): (r: CycleResult)
  {
    if |pre.ids| == 0 then CycleResult(Finished, FinishScenarioState(pre), [], [])
    else
      var a := Aggregate(pre.ids, view, cfg.maxValidStopDistance);
      if a.allStop && a.allGreen then
        CycleResult(Finished, FinishStageState(pre, true, now), a.rightOfWay, a.queried)
      else if cfg.enableRightTurnOnRed && a.allStop && !a.allGreen then
        if pre.stopStartTime == 0.0 then
          CycleResult(Running, pre.(stopStartTime := now), a.rightOfWay, a.queried)
        else if now - pre.stopStartTime > cfg.redLightRightTurnStopDurationSec then
          CycleResult(Finished, FinishStageState(pre, false, now), a.rightOfWay, a.queried)
        else
          CycleResult(Running, pre, a.rightOfWay, a.queried)
      else
        CycleResult(Running, pre, a.rightOfWay, a.queried)
  }

  /** Where a sequence of cycles leaves the stage. */
  datatype Progress = Progress(status: StageStatus, state: StopState)

  /**
   * The assumed driver of the stage: one call of Process per tick until the stage finishes;
   * the stage is RUNNING before its first cycle.
   */
  function RunCycles(pre: StopState, ticks: seq<Tick>): (p: Progress)
    decreases |ticks|
  {
    if ticks == [] then Progress(Running, pre)
    else
      var r := Cycle(pre, ticks[0].config, ticks[0].view, ticks[0].now);
      if r.status == Finished then Progress(Finished, r.post)
      else RunCycles(r.post, ticks[1..])
  }
}
