/** Value types shared by the stop stage of the traffic-light unprotected right turn scenario. */
module StopTypes {

  /** Identifier of a traffic-light overlap on the reference line. */
  type Id = string

  /** Signal color reported by perception for one traffic light. */
  datatype Color = Unknown | Red | Yellow | Green

  /** The part of the scenario configuration the stop stage reads on every cycle. */
  datatype ScenarioConfig = ScenarioConfig(
    maxValidStopDistance: real,
    enableRightTurnOnRed: bool,
    redLightRightTurnStopDurationSec: real)

  /** Stages of the scenario that the stop stage can hand over to. */
  datatype StageType = NoStage | Stop | Creep | IntersectionCruise

  datatype StageStatus = Running | Finished

  /** One call of SetJunctionRightOfWay: the junction at `junctionS` gets (or loses) right of way. */
  datatype RightOfWay = RightOfWay(junctionS: real, isProtected: bool)

  /**
   * What the stage reads from the frame in one cycle: where each signal overlap starts on the
   * reference line (absent ids do not resolve), the color of every signal, and the front edge
   * of the vehicle along the reference line.
   */
  datatype FrameView = FrameView(
    signalOverlaps: map<Id, real>,
    signals: Id -> Color,
    adcFrontEdgeS: real)

  /**
   * Everything the stage may change and that outlives one cycle: the shared stage context
   * (active ids, the wait anchor where 0.0 means unset, the creep start time), the traffic-light
   * part of the planning status, and the stage's next-stage selector.
   */
  datatype StopState = StopState(
    ids: seq<Id>,
    stopStartTime: real,
    creepStartTime: real,
    hasTrafficLight: bool,
    doneIds: seq<Id>,
    nextStage: StageType)

  /** The inputs of one control cycle. */
  datatype Tick = Tick(config: ScenarioConfig, view: FrameView, now: real)
}
