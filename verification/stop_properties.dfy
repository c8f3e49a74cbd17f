/**
 * What the stop stage promises, proved about the decision functions of module StopDecision
 * (and so, through the contracts of StopStage.Process, about the stage itself).
 */
module StopProperties {
  import opened StopTypes
  import opened StopDecision

  // ---------------------------------------------------------------------------------------
  // The fold over the active traffic lights
  // ---------------------------------------------------------------------------------------

  /** The two call logs of a fold agree: the k-th right-of-way update is for the k-th lookup. */
  predicate LogsAgree(a: Aggregation, view: FrameView)
  {
    && |a.rightOfWay| == |a.queried|
    && forall k :: 0 <= k < |a.queried| ==>
         && a.queried[k] in view.signalOverlaps
         && a.rightOfWay[k] == RightOfWay(view.signalOverlaps[a.queried[k]], false)
  }

  /**
   * The fold visited crossings that all passed, except possibly the last one; it stopped at
   * that last one exactly when it failed, and the flag it cleared names the check that failed.
   */
  predicate StopsAtFirstFailure(a: Aggregation, view: FrameView, maxDist: real)
    requires LogsAgree(a, view)
  {
    && (a.allStop || a.allGreen)
    && (a.allStop && a.allGreen ==>
          forall k :: 0 <= k < |a.queried| ==> Passes(view, maxDist, a.queried[k]))
    && (!(a.allStop && a.allGreen) ==>
          && |a.queried| > 0
          && (forall k :: 0 <= k < |a.queried| - 1 ==> Passes(view, maxDist, a.queried[k]))
          && !Passes(view, maxDist, a.queried[|a.queried| - 1])
          && (!a.allStop <==> TooFar(view, maxDist, a.queried[|a.queried| - 1])))
  }

  /**
   * Every visited crossing loses right of way and is looked up, the k-th update belonging to
   * the k-th lookup; the fold ends at the first failing crossing, and at most one of the two
   * flags is cleared.
   */
  lemma {:induction false} AggregateShape(ids: seq<Id>, view: FrameView, maxDist: real)
    ensures |Aggregate(ids, view, maxDist).queried| <= |ids|
    ensures LogsAgree(Aggregate(ids, view, maxDist), view)
    ensures StopsAtFirstFailure(Aggregate(ids, view, maxDist), view, maxDist)
  {
    if ids != [] && ids[0] in view.signalOverlaps && Passes(view, maxDist, ids[0]) {
      AggregateShape(ids[1..], view, maxDist);
      var rest := Aggregate(ids[1..], view, maxDist);
      var a := Aggregate(ids, view, maxDist);
      assert a.queried == [ids[0]] + rest.queried;
      assert forall k :: 1 <= k < |a.queried| ==> a.queried[k] == rest.queried[k - 1];
    } else if ids != [] && ids[0] !in view.signalOverlaps {
      AggregateShape(ids[1..], view, maxDist);
    }
  }

  /** Ids that do not resolve take no part in the fold: no update, no lookup, no flag. */
  lemma {:induction false} AggregateSkipsUnresolved(ids: seq<Id>, view: FrameView, maxDist: real)
    ensures Aggregate(ids, view, maxDist)
         == Aggregate(Resolved(ids, view.signalOverlaps), view, maxDist)
  {
    if ids != [] {
      AggregateSkipsUnresolved(ids[1..], view, maxDist);
      var rs := Resolved(ids, view.signalOverlaps);
      if ids[0] in view.signalOverlaps {
        assert rs == [ids[0]] + Resolved(ids[1..], view.signalOverlaps);
        assert rs[0] == ids[0] && rs[1..] == Resolved(ids[1..], view.signalOverlaps);
      } else {
        assert rs == Resolved(ids[1..], view.signalOverlaps);
      }
    }
  }

  /**
   * The fold looks up a prefix of the resolved crossings, and all of them when it ends with
   * both flags set.
   */
  lemma {:induction false} AggregateVisitsResolvedPrefix(ids: seq<Id>, view: FrameView, maxDist: real)
    ensures Aggregate(ids, view, maxDist).queried <= Resolved(ids, view.signalOverlaps)
    ensures var a := Aggregate(ids, view, maxDist);
            a.allStop && a.allGreen ==> a.queried == Resolved(ids, view.signalOverlaps)
  {
    if ids != [] {
      var id := ids[0];
      var rest := Resolved(ids[1..], view.signalOverlaps);
      AggregateVisitsResolvedPrefix(ids[1..], view, maxDist);
      if id in view.signalOverlaps {
        assert Resolved(ids, view.signalOverlaps) == [id] + rest;
      } else {
        assert Resolved(ids, view.signalOverlaps) == rest;
      }
    }
  }

  /** Both flags survive the fold exactly when every resolved crossing passes both checks. */
  lemma {:induction false} AggregateAllPassIff(ids: seq<Id>, view: FrameView, maxDist: real)
    ensures var a := Aggregate(ids, view, maxDist);
            (a.allStop && a.allGreen)
              <==> (forall id :: id in Resolved(ids, view.signalOverlaps) ==> Passes(view, maxDist, id))
  {
    if ids != [] {
      var id := ids[0];
      var rest := Resolved(ids[1..], view.signalOverlaps);
      AggregateAllPassIff(ids[1..], view, maxDist);
      if id in view.signalOverlaps {
        assert Resolved(ids, view.signalOverlaps) == [id] + rest;
      } else {
        assert Resolved(ids, view.signalOverlaps) == rest;
      }
    }
  }

  /** The short-circuit of a crossing that is too far away: nothing after it is visited. */
  lemma FarCrossingHidesTheRest(first: Id, later: seq<Id>, view: FrameView, maxDist: real)
    requires first in view.signalOverlaps && TooFar(view, maxDist, first)
    ensures Aggregate([first] + later, view, maxDist)
         == Aggregation(false, true, [RightOfWay(view.signalOverlaps[first], false)], [first])
  {
  }

  // ---------------------------------------------------------------------------------------
  // One cycle
  // ---------------------------------------------------------------------------------------

  /** With no active traffic lights the scenario ends, whatever else holds. */
  lemma EmptyIdsFinishScenario(pre: StopState, cfg: ScenarioConfig, view: FrameView, now: real)
    requires pre.ids == []
    ensures var r := Cycle(pre, cfg, view, now);
            && r.status == Finished
            && r.post == pre.(hasTrafficLight := false, doneIds := [], nextStage := NoStage)
            && r.rightOfWay == [] && r.queried == []
  {
  }

  /**
   * The stage hands over to intersection cruise exactly when every resolved crossing is within
   * range and GREEN (vacuously so when none resolves); that changes nothing but the next stage.
   */
  lemma CruiseIffAllResolvedPass(pre: StopState, cfg: ScenarioConfig, view: FrameView, now: real)
    requires pre.ids != []
    ensures var r := Cycle(pre, cfg, view, now);
            (r.status == Finished && r.post.nextStage == IntersectionCruise)
              <==> (forall id :: id in Resolved(pre.ids, view.signalOverlaps) ==>
                      Passes(view, cfg.maxValidStopDistance, id))
    ensures var r := Cycle(pre, cfg, view, now);
            r.status == Finished && r.post.nextStage == IntersectionCruise ==>
              r.post == pre.(nextStage := IntersectionCruise)
  {
    AggregateAllPassIff(pre.ids, view, cfg.maxValidStopDistance);
    AggregateShape(pre.ids, view, cfg.maxValidStopDistance);
  }

  /**
   * When the walk stops at a crossing that is too far away (the fold clears `allStop`), or
   * right turn on red is disabled, a cycle that does not cruise keeps the stage RUNNING and leaves every persisted value, the wait anchor included, as it was.
   */
  lemma RunningWhenOutOfRangeOrPolicyOff(pre: StopState, cfg: ScenarioConfig, view: FrameView, now: real)
    requires pre.ids != []
    requires var a := Aggregate(pre.ids, view, cfg.maxValidStopDistance);
             !(a.allStop && a.allGreen) && (!a.allStop || !cfg.enableRightTurnOnRed)
    ensures var r := Cycle(pre, cfg, view, now);
            r.status == Running && r.post == pre
  {
  }

  /**
   * The wait timer while right turn on red is enabled and the walk stops at an in-range
   * crossing that is not GREEN: the first cycle anchors it; later cycles creep exactly when the
   * wait exceeds the configured duration, and otherwise change nothing.
   */
  lemma WaitTimerStep(pre: StopState, cfg: ScenarioConfig, view: FrameView, now: real)
    requires pre.ids != [] && cfg.enableRightTurnOnRed
    requires var a := Aggregate(pre.ids, view, cfg.maxValidStopDistance);
             a.allStop && !a.allGreen
    ensures var r := Cycle(pre, cfg, view, now);
            pre.stopStartTime == 0.0 ==>
              r.status == Running && r.post == pre.(stopStartTime := now)
    ensures var r := Cycle(pre, cfg, view, now);
            pre.stopStartTime != 0.0 ==>
              && (r.status == Finished <==> now - pre.stopStartTime > cfg.redLightRightTurnStopDurationSec)
              && (r.status == Running ==> r.post == pre)
  {
  }

  /** The stage only ever sets an unset wait anchor to the current time; it never clears it. */
  lemma WaitAnchorOnlySetOnce(pre: StopState, cfg: ScenarioConfig, view: FrameView, now: real)
    ensures var r := Cycle(pre, cfg, view, now);
            || r.post.stopStartTime == pre.stopStartTime
            || (pre.stopStartTime == 0.0 && r.post.stopStartTime == now && r.status == Running)
  {
  }

  /**
   * Creep happens only after an anchored wait has run past the configured duration, on a
   * cycle whose walk stops at an in-range crossing that is not GREEN; it records every active id as done, in order.
   */
  lemma CreepRewritesDoneList(pre: StopState, cfg: ScenarioConfig, view: FrameView, now: real)
    ensures var r := Cycle(pre, cfg, view, now);
            r.status == Finished && r.post.nextStage == Creep ==>
              && r.post == pre.(hasTrafficLight := true, doneIds := pre.ids,
                                creepStartTime := now, nextStage := Creep)
              && cfg.enableRightTurnOnRed
              && pre.stopStartTime != 0.0
              && now - pre.stopStartTime > cfg.redLightRightTurnStopDurationSec
              && var a := Aggregate(pre.ids, view, cfg.maxValidStopDistance);
                 a.allStop && !a.allGreen
  {
  }

  // ---------------------------------------------------------------------------------------
  // Several cycles
  // ---------------------------------------------------------------------------------------

  /** The walk stops at an in-range crossing that is not GREEN, with right turn on red enabled. */
  predicate WaitingAtRed(ids: seq<Id>, t: Tick)
  {
    var a := Aggregate(ids, t.view, t.config.maxValidStopDistance);
    t.config.enableRightTurnOnRed && a.allStop && !a.allGreen
  }

  /** With right turn on red disabled on every cycle, the stage never creeps. */
  lemma {:induction false} NoCreepWithoutRightTurnOnRed(pre: StopState, ticks: seq<Tick>)
    requires forall k :: 0 <= k < |ticks| ==> !ticks[k].config.enableRightTurnOnRed
    ensures var p := RunCycles(pre, ticks);
            && p.state.stopStartTime == pre.stopStartTime
            && (p.status == Finished ==> p.state.nextStage != Creep)
            && (p.status == Running ==> p.state == pre)
  {
    if ticks != [] {
      NoCreepWithoutRightTurnOnRed(pre, ticks[1..]);
    }
  }

  /**
   * While every cycle's walk stops at a crossing that is too far away (the fold clears
   * `allStop`), the stage never finishes.
   */
  lemma {:induction false} NeverFinishesOutOfRange(pre: StopState, ticks: seq<Tick>)
    requires pre.ids != []
    requires forall k :: 0 <= k < |ticks| ==>
               !Aggregate(pre.ids, ticks[k].view, ticks[k].config.maxValidStopDistance).allStop
    ensures RunCycles(pre, ticks) == Progress(Running, pre)
  {
    if ticks != [] {
      NeverFinishesOutOfRange(pre, ticks[1..]);
    }
  }

  /** With the anchor set, the stage keeps waiting while no cycle has waited too long. */
  lemma {:induction false} WaitsUntilExpiry(pre: StopState, ticks: seq<Tick>)
    requires pre.ids != [] && pre.stopStartTime != 0.0
    requires forall k :: 0 <= k < |ticks| ==>
               && WaitingAtRed(pre.ids, ticks[k])
               && ticks[k].now - pre.stopStartTime <= ticks[k].config.redLightRightTurnStopDurationSec
    ensures RunCycles(pre, ticks) == Progress(Running, pre)
  {
    if ticks != [] {
      WaitsUntilExpiry(pre, ticks[1..]);
    }
  }

  /** With the anchor set, the stage creeps on the first cycle that has waited too long. */
  lemma {:induction false} CreepsAtFirstExpiry(pre: StopState, ticks: seq<Tick>, j: nat)
    requires pre.ids != [] && pre.stopStartTime != 0.0
    requires j < |ticks|
    requires forall k :: 0 <= k <= j ==> WaitingAtRed(pre.ids, ticks[k])
    requires forall k :: 0 <= k < j ==>
               ticks[k].now - pre.stopStartTime <= ticks[k].config.redLightRightTurnStopDurationSec
    requires ticks[j].now - pre.stopStartTime > ticks[j].config.redLightRightTurnStopDurationSec
    ensures RunCycles(pre, ticks) == Progress(Finished, FinishStageState(pre, false, ticks[j].now))
  {
    if j > 0 {
      CreepsAtFirstExpiry(pre, ticks[1..], j - 1);
    }
  }

  /**
   * A sustained wait at a red light from an unset anchor, with a first cycle at a nonzero
   * time (at 0.0 the anchor would stay unset): the first cycle anchors the wait at
   * its own time and every cycle stays RUNNING while the elapsed time is within the duration.
   */
  lemma SustainedRedLightWaits(pre: StopState, ticks: seq<Tick>)
    requires pre.ids != [] && pre.stopStartTime == 0.0
    requires |ticks| > 0 && ticks[0].now != 0.0
    requires forall k :: 0 <= k < |ticks| ==> WaitingAtRed(pre.ids, ticks[k])
    requires forall k :: 1 <= k < |ticks| ==>
               ticks[k].now - ticks[0].now <= ticks[k].config.redLightRightTurnStopDurationSec
    ensures RunCycles(pre, ticks) == Progress(Running, pre.(stopStartTime := ticks[0].now))
  {
    var anchored := pre.(stopStartTime := ticks[0].now);
    assert Cycle(pre, ticks[0].config, ticks[0].view, ticks[0].now).post == anchored;
    WaitsUntilExpiry(anchored, ticks[1..]);
  }

  /**
   * A sustained wait at a red light from an unset anchor, with a first cycle at a nonzero
   * time, ends on the first cycle whose elapsed
   * time exceeds the duration: the stage creeps with the active ids, in order, as done list.
   */
  lemma SustainedRedLightCreeps(pre: StopState, ticks: seq<Tick>, j: nat)
    requires pre.ids != [] && pre.stopStartTime == 0.0
    requires 1 <= j < |ticks| && ticks[0].now != 0.0
    requires forall k :: 0 <= k <= j ==> WaitingAtRed(pre.ids, ticks[k])
    requires forall k :: 1 <= k < j ==>
               ticks[k].now - ticks[0].now <= ticks[k].config.redLightRightTurnStopDurationSec
    requires ticks[j].now - ticks[0].now > ticks[j].config.redLightRightTurnStopDurationSec
    ensures var p := RunCycles(pre, ticks);
            && p.status == Finished
            && p.state == pre.(stopStartTime := ticks[0].now, hasTrafficLight := true,
                               doneIds := pre.ids, creepStartTime := ticks[j].now,
                               nextStage := Creep)
  {
    var anchored := pre.(stopStartTime := ticks[0].now);
    assert Cycle(pre, ticks[0].config, ticks[0].view, ticks[0].now).post == anchored;
    CreepsAtFirstExpiry(anchored, ticks[1..], j - 1);
  }

  /**
   * Two lights, the first within range and RED: the fold stops at it, the first cycle anchors
   * the wait, and a cycle six seconds later, past a five-second duration, creeps.
   */
  lemma TwoLightsFirstRedScenario()
    ensures var cfg := ScenarioConfig(2.0, true, 5.0);
            var view := FrameView(map["tl_1" := 10.0, "tl_2" := 10.0],
                                  id => if id == "tl_1" then Red else Green, 9.0);
            var pre := StopState(["tl_1", "tl_2"], 0.0, 0.0, false, [], Stop);
            var first := Cycle(pre, cfg, view, 100.0);
            var second := Cycle(first.post, cfg, view, 106.0);
            && first.status == Running
            && first.post.stopStartTime == 100.0
            && first.queried == ["tl_1"]
            && first.rightOfWay == [RightOfWay(10.0, false)]
            && second.status == Finished
            && second.post.nextStage == Creep
            && second.post.doneIds == ["tl_1", "tl_2"]
            && second.post.creepStartTime == 106.0
  {
  }
}
