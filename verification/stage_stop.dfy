/**
 * The stop stage of the traffic-light unprotected right turn scenario as objects that are
 * updated in place: the frame and its reference line, the scenario's shared stage context,
 * the planning status that sibling stages read, and the stage itself.
 */
module UnprotectedRightTurn {
  import opened StopTypes
  import opened StopDecision

  /** The frame's first reference line, reduced to what the stop stage uses. */
  class ReferenceLine {
    /** start_s of every signal overlap that resolves on this reference line. */
    const signalOverlaps: map<Id, real>
    /** end_s of the vehicle's SL boundary: its front edge. */
    const adcFrontEdgeS: real
    /** Every SetJunctionRightOfWay call so far, oldest first. */
    var junctionRightOfWay: seq<RightOfWay>

    constructor (signalOverlaps: map<Id, real>, adcFrontEdgeS: real)
      ensures this.signalOverlaps == signalOverlaps && this.adcFrontEdgeS == adcFrontEdgeS
      ensures junctionRightOfWay == []
    {
      this.signalOverlaps := signalOverlaps;
      this.adcFrontEdgeS := adcFrontEdgeS;
      junctionRightOfWay := [];
    }

    method SetJunctionRightOfWay(junctionS: real, isProtected: bool)
      modifies this`junctionRightOfWay
      ensures junctionRightOfWay == old(junctionRightOfWay) + [RightOfWay(junctionS, isProtected)]
    {
      junctionRightOfWay := junctionRightOfWay + [RightOfWay(junctionS, isProtected)];
    }
  }

  /** The per-cycle frame: its reference line and the perceived traffic lights. */
  class Frame {
    const referenceLine: ReferenceLine
    const signals: Id -> Color
    /** Every GetSignal lookup so far, oldest first. */
    var signalQueries: seq<Id>

    constructor (referenceLine: ReferenceLine, signals: Id -> Color)
      ensures this.referenceLine == referenceLine && this.signals == signals
      ensures signalQueries == []
    {
      this.referenceLine := referenceLine;
      this.signals := signals;
      signalQueries := [];
    }

    /** The frame's contents as the decision functions see them. */
    function View(): (v: FrameView)
    {
      FrameView(referenceLine.signalOverlaps, signals, referenceLine.adcFrontEdgeS)
    }

    method GetSignal(id: Id) returns (color: Color)
      modifies this`signalQueries
      ensures color == signals(id)
      ensures signalQueries == old(signalQueries) + [id]
    {
      color := signals(id);
      signalQueries := signalQueries + [id];
    }
  }

  /** The scenario's context, shared by its stages and kept across cycles. */
  class StageContext {
    var scenarioConfig: ScenarioConfig
    var currentTrafficLightOverlapIds: seq<Id>
    /** When the vehicle began waiting at a red light; 0.0 means not yet. */
    var stopStartTime: real
    var creepStartTime: real

    constructor (config: ScenarioConfig, ids: seq<Id>)
      ensures scenarioConfig == config && currentTrafficLightOverlapIds == ids
      ensures stopStartTime == 0.0 && creepStartTime == 0.0
    {
      scenarioConfig := config;
      currentTrafficLightOverlapIds := ids;
      stopStartTime := 0.0;
      creepStartTime := 0.0;
    }
  }

  /** The traffic-light part of the process-wide planning status. */
  class PlanningStatus {
    var hasTrafficLight: bool
    var doneTrafficLightOverlapIds: seq<Id>

    constructor ()
      ensures !hasTrafficLight && doneTrafficLightOverlapIds == []
    {
      hasTrafficLight := false;
      doneTrafficLightOverlapIds := [];
    }

    /** clear_traffic_light: the whole traffic-light status goes back to its default. */
    method ClearTrafficLight()
      modifies this
      ensures !hasTrafficLight && doneTrafficLightOverlapIds == []
    {
      hasTrafficLight := false;
      doneTrafficLightOverlapIds := [];
    }

    /** Marks the traffic-light status present and empties its done list. */
    method ClearDoneTrafficLightOverlapIds()
      modifies this
      ensures hasTrafficLight && doneTrafficLightOverlapIds == []
    {
      hasTrafficLight := true;
      doneTrafficLightOverlapIds := [];
    }

    /** Marks the traffic-light status present and appends `id` to its done list. */
    method AddDoneTrafficLightOverlapId(id: Id)
      modifies this
      ensures hasTrafficLight
      ensures doneTrafficLightOverlapIds == old(doneTrafficLightOverlapIds) + [id]
    {
      hasTrafficLight := true;
      doneTrafficLightOverlapIds := doneTrafficLightOverlapIds + [id];
    }
  }

  /** TrafficLightUnprotectedRightTurnStageStop */
  class StopStage {
    const context: StageContext
    const planningStatus: PlanningStatus
    /** The stage's own copy of the configuration, refreshed at the start of every cycle. */
    var scenarioConfig: ScenarioConfig
    var nextStage: StageType

    constructor (context: StageContext, planningStatus: PlanningStatus)
      ensures this.context == context && this.planningStatus == planningStatus
      ensures scenarioConfig == context.scenarioConfig && nextStage == Stop
    {
      this.context := context;
      this.planningStatus := planningStatus;
      scenarioConfig := context.scenarioConfig;
      nextStage := Stop;
    }

    /** Everything a cycle may change, as one value. */
    function State(): (s: StopState)
      reads this, context, planningStatus
    {
      StopState(
        context.currentTrafficLightOverlapIds, context.stopStartTime, context.creepStartTime,
        planningStatus.hasTrafficLight, planningStatus.doneTrafficLightOverlapIds, nextStage)
    }

    /** One control cycle of the stop stage. */
    method Process(frame: Frame, now: real) returns (status: StageStatus)
      modifies this, context`stopStartTime, context`creepStartTime, planningStatus
      modifies frame`signalQueries, frame.referenceLine`junctionRightOfWay
      ensures scenarioConfig == context.scenarioConfig == old(context.scenarioConfig)
      ensures var r := Cycle(old(State()), old(context.scenarioConfig), frame.View(), now);
              && status == r.status
              && State() == r.post
              && frame.referenceLine.junctionRightOfWay
                   == old(frame.referenceLine.junctionRightOfWay) + r.rightOfWay
              && frame.signalQueries == old(frame.signalQueries) + r.queried
    {
      scenarioConfig := context.scenarioConfig;

      if |context.currentTrafficLightOverlapIds| == 0 {
        status := FinishScenario();
        return;
      }

      var allStop, allGreen := CheckTrafficLights(frame, context.currentTrafficLightOverlapIds,
                                                  scenarioConfig.maxValidStopDistance);

      if allStop && allGreen {
        status := FinishStage(true, now);
        return;
      }

      if scenarioConfig.enableRightTurnOnRed {
        if allStop && !allGreen {
          if context.stopStartTime == 0.0 {
            context.stopStartTime := now;
          } else {
            var startTime := context.stopStartTime;
            var waitTime := now - startTime;
            if waitTime > scenarioConfig.redLightRightTurnStopDurationSec {
              status := FinishStage(false, now);
              return;
            }
          }
        }
      }

      status := Running;
    }

    /**
     * The loop over the active ids: each resolved crossing loses right of way and has its
     * color looked up, and the loop breaks at the first one that is too far away or not GREEN.
     */
    method CheckTrafficLights(frame: Frame, ids: seq<Id>, maxDist: real)
      returns (allStop: bool, allGreen: bool)
      modifies frame`signalQueries, frame.referenceLine`junctionRightOfWay
      ensures var a := Aggregate(ids, frame.View(), maxDist);
              && allStop == a.allStop && allGreen == a.allGreen
              && frame.referenceLine.junctionRightOfWay
                   == old(frame.referenceLine.junctionRightOfWay) + a.rightOfWay
              && frame.signalQueries == old(frame.signalQueries) + a.queried
    {
      var referenceLine: ReferenceLine := frame.referenceLine;
      ghost var view := frame.View();
      ghost var updates: seq<RightOfWay> := [];
      ghost var queried: seq<Id> := [];
      ghost var total := Aggregate(ids, view, maxDist);

      allStop, allGreen := true, true;
      var i := 0;
      while i < |ids|
        invariant 0 <= i <= |ids|
        invariant allStop && allGreen
        invariant var rest := Aggregate(ids[i..], view, maxDist);
                  total == rest.(rightOfWay := updates + rest.rightOfWay, queried := queried + rest.queried)
        invariant referenceLine.junctionRightOfWay == old(referenceLine.junctionRightOfWay) + updates
        invariant frame.signalQueries == old(frame.signalQueries) + queried
      {
        var id := ids[i];
        assert ids[i..][0] == id && ids[i..][1..] == ids[i + 1..];
        ghost var next := Aggregate(ids[i + 1..], view, maxDist);
        ghost var updates0, queried0 := updates, queried;
        if id !in referenceLine.signalOverlaps {
          assert Aggregate(ids[i..], view, maxDist) == next;
          i := i + 1;
          continue;
        }
        var startS := referenceLine.signalOverlaps[id];
        referenceLine.SetJunctionRightOfWay(startS, false);
        ghost var update := RightOfWay(startS, false);
        updates := updates + [update];

        var distance := startS - referenceLine.adcFrontEdgeS;
        var color := frame.GetSignal(id);
        queried := queried + [id];

        if distance > maxDist {
          assert Aggregate(ids[i..], view, maxDist) == Aggregation(false, true, [update], [id]);
          allStop := false;
          break;
        }
        if color != Green {
          assert Aggregate(ids[i..], view, maxDist) == Aggregation(true, false, [update], [id]);
          allGreen := false;
          break;
        }
        assert Aggregate(ids[i..], view, maxDist)
            == next.(rightOfWay := [update] + next.rightOfWay, queried := [id] + next.queried);
        assert updates + next.rightOfWay == updates0 + ([update] + next.rightOfWay);
        assert queried + next.queried == queried0 + ([id] + next.queried);
        i := i + 1;
      }
    }

    /** Ends the whole scenario: clears the traffic-light status, no stage follows. */
    method FinishScenario() returns (status: StageStatus)
      modifies this`nextStage, planningStatus
      ensures status == Finished
      ensures State() == FinishScenarioState(old(State()))
    {
      planningStatus.ClearTrafficLight();
      nextStage := NoStage;
      status := Finished;
    }

    /**
     * Ends this stage: to intersection cruise in protected mode, otherwise to creep after
     * recording every active id as done, in order.
     */
    method FinishStage(protectedMode: bool, now: real) returns (status: StageStatus)
      modifies this`nextStage, context`creepStartTime, planningStatus
      ensures status == Finished
      ensures State() == FinishStageState(old(State()), protectedMode, now)
    {
      if protectedMode {
        nextStage := IntersectionCruise;
      } else {
        planningStatus.ClearDoneTrafficLightOverlapIds();
        var ids := context.currentTrafficLightOverlapIds;
        for i := 0 to |ids|
          invariant planningStatus.hasTrafficLight
          invariant planningStatus.doneTrafficLightOverlapIds == ids[..i]
        {
          planningStatus.AddDoneTrafficLightOverlapId(ids[i]);
        }
        context.creepStartTime := now;
        nextStage := Creep;
      }
      status := Finished;
    }
  }
}
