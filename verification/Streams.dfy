/** Which of the streams opened towards a device may steer it: the one that took its lane last. */
module Streams {
  import opened Wrappers

  type Address = nat

  /** A stream's hold on a lane, by its place among all that were opened. */
  type Which = nat

  datatype Stage =
    | Opened
    | Marked(mine: nat)
    | Holding(mine: nat)
    | Calling(mine: nat, last: bool)
    | Over

  datatype Hold = Hold(at: Address, stage: Stage)

  /** What happens on a lane: a hold takes it, and its calls begin and end, the last of them the
      one made as it lets go. */
  datatype Happening = Took(who: Which) | Begins(who: Which, last: bool) | Ends(who: Which)

  /** Whom a lane belongs to, who has it locked while a call is made, and all that happened on it. */
  datatype Lane = Lane(owner: Option<nat>, lockedBy: Option<Which>, log: seq<Happening>)

  const FREE := Lane(None, None, [])

  datatype Lanes = Lanes(lanes: map<Address, Lane>, minted: nat, holds: seq<Hold>)

  datatype Event = Opens(at: Address) | Mints(which: Which) | Takes(which: Which)
    | Steers(which: Which) | LetsGo(which: Which) | Ending(which: Which)

  function LaneAt(lanes: Lanes, at: Address): (lane: Lane) {
    if at in lanes.lanes then lanes.lanes[at] else FREE
  }

  function LaneOf(lanes: Lanes, which: Which): (lane: Lane)
    requires which < |lanes.holds|
  {
    LaneAt(lanes, lanes.holds[which].at)
  }

  /** A lane's lock is waited for; nothing else is. */
  predicate Allowed(lanes: Lanes, event: Event) {
    match event
    case Opens(_) => true
    case Mints(which) => which < |lanes.holds| && lanes.holds[which].stage.Opened?
    case Takes(which) =>
      which < |lanes.holds| && lanes.holds[which].stage.Marked? && LaneOf(lanes, which).lockedBy.None?
    case Steers(which) =>
      which < |lanes.holds| && lanes.holds[which].stage.Holding? && LaneOf(lanes, which).lockedBy.None?
    case LetsGo(which) =>
      which < |lanes.holds| && lanes.holds[which].stage.Holding? && LaneOf(lanes, which).lockedBy.None?
    case Ending(which) => which < |lanes.holds| && lanes.holds[which].stage.Calling?
  }

  function Put(lanes: Lanes, which: Which, stage: Stage, lane: Lane): (put: Lanes)
    requires which < |lanes.holds|
  {
    var hold := lanes.holds[which];
    lanes.(holds := lanes.holds[which := hold.(stage := stage)], lanes := lanes.lanes[hold.at := lane])
  }

  function After(lanes: Lanes, event: Event): (after: Lanes)
    requires Allowed(lanes, event)
  {
    match event
    case Opens(at) =>
      Lanes(lanes.lanes[at := LaneAt(lanes, at)], lanes.minted, lanes.holds + [Hold(at, Opened)])
    case Mints(which) =>
      Put(lanes, which, Marked(lanes.minted), LaneOf(lanes, which)).(minted := lanes.minted + 1)
    case Takes(which) =>
      var mine, lane := lanes.holds[which].stage.mine, LaneOf(lanes, which);
      Put(lanes, which, Holding(mine), Lane(Some(mine), None, lane.log + [Took(which)]))
    case Steers(which) =>
      var mine, lane := lanes.holds[which].stage.mine, LaneOf(lanes, which);
      if lane.owner != Some(mine) then lanes
      else Put(lanes, which, Calling(mine, false), Lane(lane.owner, Some(which), lane.log + [Begins(which, false)]))
    case LetsGo(which) =>
      var mine, lane := lanes.holds[which].stage.mine, LaneOf(lanes, which);
      if lane.owner != Some(mine) then Put(lanes, which, Over, lane)
      else Put(lanes, which, Calling(mine, true), Lane(None, Some(which), lane.log + [Begins(which, true)]))
    case Ending(which) =>
      var stage, lane := lanes.holds[which].stage, LaneOf(lanes, which);
      Put(lanes, which, if stage.last then Over else Holding(stage.mine),
          Lane(lane.owner, None, lane.log + [Ends(which)]))
  }

  predicate HasMark(stage: Stage) {
    stage.Marked? || stage.Holding? || stage.Calling?
  }

  /** It took its lane before another took it. */
  ghost predicate Superseded(log: seq<Happening>, which: Which) {
    exists i, j :: 0 <= i < j < |log| && log[i] == Took(which) && log[j].Took? && log[j].who != which
  }

  /** It let its lane go. */
  ghost predicate Left(log: seq<Happening>, which: Which) {
    Begins(which, true) in log
  }

  /** No hold calls once another has taken its lane, or once it has let it go. */
  ghost predicate OnlyTheNewestCalls(log: seq<Happening>) {
    forall k {:trigger log[k]} :: 0 <= k < |log| ==> MayHappen(log[..k], log[k])
  }

  ghost predicate MayHappen(before: seq<Happening>, happening: Happening) {
    match happening
    case Took(which) => happening !in before
    case Begins(which, last) => Took(which) in before && !Superseded(before, which) && !Left(before, which)
    case Ends(which) =>
      before != [] && (before[|before| - 1] == Begins(which, false) || before[|before| - 1] == Begins(which, true))
  }

  /** While a call is made nothing else happens on its lane. */
  ghost predicate OneAtATime(log: seq<Happening>) {
    forall k {:trigger log[k]} :: 0 <= k < |log| - 1 && log[k].Begins? ==> log[k + 1] == Ends(log[k].who)
  }

  ghost predicate LaneSound(lanes: Lanes, at: Address) {
    var lane := LaneAt(lanes, at);
    && OnlyTheNewestCalls(lane.log) && OneAtATime(lane.log)
    && (lane.lockedBy.None? ==> lane.log == [] || !lane.log[|lane.log| - 1].Begins?)
    && (lane.lockedBy.Some? ==>
          var which := lane.lockedBy.value;
          && which < |lanes.holds| && lanes.holds[which].at == at && lanes.holds[which].stage.Calling?
          && lane.log != [] && lane.log[|lane.log| - 1] == Begins(which, lanes.holds[which].stage.last))
    && (lane.owner.Some? ==> lane.owner.value < lanes.minted)
    && Named(lane.log, |lanes.holds|)
  }

  /** A log names only holds there are. */
  ghost predicate Named(log: seq<Happening>, many: nat) {
    forall k :: 0 <= k < |log| ==> log[k].who < many
  }

  /** What a hold has done is what its lane's log says of it. */
  ghost predicate Fits(stage: Stage, which: Which, lane: Lane, minted: nat) {
    && (HasMark(stage) ==> stage.mine < minted)
    && (stage.Calling? ==> lane.lockedBy == Some(which))
    && (stage.Opened? || stage.Marked? ==> Took(which) !in lane.log && !Left(lane.log, which))
    && (stage.Holding? ==> !Left(lane.log, which))
    && (HasMark(stage) && lane.owner == Some(stage.mine) ==>
          !stage.Marked? && Took(which) in lane.log && !Superseded(lane.log, which) && !Left(lane.log, which))
  }

  ghost predicate HoldSound(lanes: Lanes, which: Which)
    requires which < |lanes.holds|
  {
    Fits(lanes.holds[which].stage, which, LaneOf(lanes, which), lanes.minted)
  }

  ghost predicate MarksApart(lanes: Lanes) {
    forall i, j {:trigger lanes.holds[i], lanes.holds[j]} :: 0 <= i < j < |lanes.holds|
      && HasMark(lanes.holds[i].stage) && HasMark(lanes.holds[j].stage)
      ==> lanes.holds[i].stage.mine != lanes.holds[j].stage.mine
  }

  ghost predicate Sound(lanes: Lanes) {
    && MarksApart(lanes)
    && (forall at: Address :: LaneSound(lanes, at))
    && (forall which {:trigger lanes.holds[which]} :: 0 <= which < |lanes.holds| ==> HoldSound(lanes, which))
  }

  lemma OneMoreMayHappen(log: seq<Happening>, happening: Happening)
    requires OnlyTheNewestCalls(log) && MayHappen(log, happening)
    ensures OnlyTheNewestCalls(log + [happening])
  {
    var more := log + [happening];
    forall k | 0 <= k < |more|
      ensures MayHappen(more[..k], more[k])
    {
      assert more[..k] == log[..k];
      assert k < |log| ==> more[k] == log[k] && MayHappen(log[..k], log[k]);
      assert k == |log| ==> log[..k] == log;
    }
  }

  lemma OneMoreAtATime(log: seq<Happening>, happening: Happening)
    requires OneAtATime(log)
    requires log != [] && log[|log| - 1].Begins? ==> happening == Ends(log[|log| - 1].who)
    ensures OneAtATime(log + [happening])
  {
    var more := log + [happening];
    forall k | 0 <= k < |more| - 1 && more[k].Begins?
      ensures more[k + 1] == Ends(more[k].who)
    {
      assert more[k] == log[k];
      assert k < |log| - 1 ==> more[k + 1] == log[k + 1];
    }
  }

  lemma SupersededByOneMore(log: seq<Happening>, happening: Happening, which: Which)
    ensures Superseded(log + [happening], which)
      <==> Superseded(log, which) || (Took(which) in log && happening.Took? && happening.who != which)
  {
    var more := log + [happening];
    if Superseded(log, which) {
      var i, j :| 0 <= i < j < |log| && log[i] == Took(which) && log[j].Took? && log[j].who != which;
      assert more[i] == Took(which) && more[j] == log[j];
    } else if Took(which) in log && happening.Took? && happening.who != which {
      var i :| 0 <= i < |log| && log[i] == Took(which);
      assert more[i] == Took(which) && more[|log|] == happening;
    }
  }

  /** Another hold on the lane fits as it did, whatever this one did that is not the other's. */
  lemma OtherFits(stage: Stage, other: Which, lane: Lane, after: Lane, minted: nat, happening: Happening)
    requires Fits(stage, other, lane, minted) && !stage.Calling?
    requires happening.who != other && after.log == lane.log + [happening]
    requires (after.owner == lane.owner && !happening.Took?) || (HasMark(stage) ==> after.owner != Some(stage.mine))
    ensures Fits(stage, other, after, minted)
  {
    SupersededByOneMore(lane.log, happening, other);
  }

  /** What is not touched stays sound: other lanes, and the holds on them. */
  lemma ElsewhereSound(lanes: Lanes, which: Which, stage: Stage, lane: Lane, at: Address)
    requires Sound(lanes) && which < |lanes.holds| && at != lanes.holds[which].at
    ensures var after := Put(lanes, which, stage, lane);
      LaneAt(after, at) == LaneAt(lanes, at) && LaneSound(after, at)
  {
    assert LaneSound(lanes, at);
  }

  /** A happening its hold may bring about, and how its stage and its lane are left by it. */
  ghost predicate Happens(lanes: Lanes, which: Which, stage: Stage, lane: Lane, happening: Happening)
    requires which < |lanes.holds|
  {
    var hold, was := lanes.holds[which], LaneOf(lanes, which);
    && happening.who == which && HasMark(hold.stage) && (HasMark(stage) ==> stage.mine == hold.stage.mine)
    && lane.log == was.log + [happening] && MayHappen(was.log, happening)
    && (lane.owner.Some? ==> lane.owner.value < lanes.minted)
    && was.lockedBy == (if happening.Ends? then Some(which) else None)
    && lane.lockedBy == (if happening.Begins? then Some(which) else None)
    && (happening.Begins? <==> stage.Calling?) && (happening.Begins? ==> happening.last == stage.last)
    && ((lane.owner == was.owner && !happening.Took?) || lane.owner == None || lane.owner == Some(hold.stage.mine))
    && Fits(stage, which, lane, lanes.minted)
  }

  lemma HappeningKeepsItsLane(lanes: Lanes, which: Which, stage: Stage, lane: Lane, happening: Happening)
    requires Sound(lanes) && which < |lanes.holds| && Happens(lanes, which, stage, lane, happening)
    ensures LaneSound(Put(lanes, which, stage, lane), lanes.holds[which].at)
  {
    var was, at := LaneOf(lanes, which), lanes.holds[which].at;
    assert LaneSound(lanes, at);
    OneMoreMayHappen(was.log, happening);
    OneMoreAtATime(was.log, happening);
    assert LaneAt(Put(lanes, which, stage, lane), at) == lane;
  }

  lemma HappeningKeepsHold(lanes: Lanes, which: Which, stage: Stage, lane: Lane, happening: Happening, other: Which)
    requires Sound(lanes) && which < |lanes.holds| && Happens(lanes, which, stage, lane, happening)
    requires other < |lanes.holds|
    ensures HoldSound(Put(lanes, which, stage, lane), other)
  {
    assert HoldSound(lanes, other);
    if other != which && lanes.holds[other].at == lanes.holds[which].at {
      OtherFits(lanes.holds[other].stage, other, LaneOf(lanes, which), lane, lanes.minted, happening);
    }
  }

  /** A happening leaves all sound. */
  lemma HappeningKeeps(lanes: Lanes, which: Which, stage: Stage, lane: Lane, happening: Happening)
    requires Sound(lanes) && which < |lanes.holds| && Happens(lanes, which, stage, lane, happening)
    ensures Sound(Put(lanes, which, stage, lane))
  {
    var after := Put(lanes, which, stage, lane);
    forall other: Address
      ensures LaneSound(after, other)
    {
      if other == lanes.holds[which].at {
        HappeningKeepsItsLane(lanes, which, stage, lane, happening);
      } else {
        ElsewhereSound(lanes, which, stage, lane, other);
      }
    }
    forall other | 0 <= other < |after.holds|
      ensures HoldSound(after, other)
    {
      HappeningKeepsHold(lanes, which, stage, lane, happening, other);
    }
  }

  lemma OpeningKeeps(lanes: Lanes, at: Address)
    requires Sound(lanes)
    ensures Sound(After(lanes, Opens(at)))
  {
    var after := After(lanes, Opens(at));
    var newest := |lanes.holds|;
    assert forall other: Address :: LaneAt(after, other) == LaneAt(lanes, other);
    forall other: Address
      ensures LaneSound(after, other)
    {
      assert LaneSound(lanes, other);
    }
    forall other | 0 <= other < |after.holds|
      ensures HoldSound(after, other)
    {
      if other < newest {
        assert HoldSound(lanes, other);
      } else {
        assert LaneSound(lanes, at);
        NotNamed(LaneAt(lanes, at).log, newest, other);
      }
    }
  }

  lemma NotNamed(log: seq<Happening>, many: nat, which: Which)
    requires Named(log, many) && which >= many
    ensures Took(which) !in log && !Left(log, which)
  {
  }

  lemma MintingKeeps(lanes: Lanes, which: Which)
    requires Sound(lanes) && Allowed(lanes, Mints(which))
    ensures Sound(After(lanes, Mints(which)))
  {
    var after := After(lanes, Mints(which));
    assert forall other :: 0 <= other < |lanes.holds| ==> HoldSound(lanes, other);
    assert forall other: Address :: LaneAt(after, other) == LaneAt(lanes, other);
    forall other: Address
      ensures LaneSound(after, other)
    {
      assert LaneSound(lanes, other);
    }
    forall other | 0 <= other < |after.holds|
      ensures HoldSound(after, other)
    {
      assert HoldSound(lanes, other);
      assert LaneSound(lanes, lanes.holds[other].at);
    }
  }

  lemma TakingKeeps(lanes: Lanes, which: Which)
    requires Sound(lanes) && Allowed(lanes, Takes(which))
    ensures Sound(After(lanes, Takes(which)))
  {
    var mine, was := lanes.holds[which].stage.mine, LaneOf(lanes, which);
    assert HoldSound(lanes, which);
    var lane := Lane(Some(mine), None, was.log + [Took(which)]);
    SupersededByOneMore(was.log, Took(which), which);
    NotSuperseded(was.log, which);
    HappeningKeeps(lanes, which, Holding(mine), lane, Took(which));
  }

  lemma NotSuperseded(log: seq<Happening>, which: Which)
    requires Took(which) !in log
    ensures !Superseded(log, which)
  {
  }

  lemma SteeringKeeps(lanes: Lanes, which: Which, last: bool)
    requires Sound(lanes) && Allowed(lanes, if last then LetsGo(which) else Steers(which))
    ensures Sound(After(lanes, if last then LetsGo(which) else Steers(which)))
  {
    var mine, was := lanes.holds[which].stage.mine, LaneOf(lanes, which);
    assert HoldSound(lanes, which) && LaneSound(lanes, lanes.holds[which].at);
    if was.owner == Some(mine) {
      var begins := Begins(which, last);
      var lane := Lane(if last then None else was.owner, Some(which), was.log + [begins]);
      SupersededByOneMore(was.log, begins, which);
      HappeningKeeps(lanes, which, Calling(mine, last), lane, begins);
    } else if last {
      OverKeeps(lanes, which);
    }
  }

  lemma OverKeeps(lanes: Lanes, which: Which)
    requires Sound(lanes) && Allowed(lanes, LetsGo(which))
    ensures Sound(Put(lanes, which, Over, LaneOf(lanes, which)))
  {
    var after := Put(lanes, which, Over, LaneOf(lanes, which));
    assert forall other: Address :: LaneAt(after, other) == LaneAt(lanes, other);
    forall other: Address
      ensures LaneSound(after, other)
    {
      assert LaneSound(lanes, other);
    }
    forall other | 0 <= other < |after.holds|
      ensures HoldSound(after, other)
    {
      assert HoldSound(lanes, other);
    }
  }

  lemma EndingKeeps(lanes: Lanes, which: Which)
    requires Sound(lanes) && Allowed(lanes, Ending(which))
    ensures Sound(After(lanes, Ending(which)))
  {
    var stage, was := lanes.holds[which].stage, LaneOf(lanes, which);
    assert HoldSound(lanes, which) && LaneSound(lanes, lanes.holds[which].at);
    var lane := Lane(was.owner, None, was.log + [Ends(which)]);
    SupersededByOneMore(was.log, Ends(which), which);
    HappeningKeeps(lanes, which, if stage.last then Over else Holding(stage.mine), lane, Ends(which));
  }

  lemma StepKeeps(lanes: Lanes, event: Event)
    requires Sound(lanes) && Allowed(lanes, event)
    ensures Sound(After(lanes, event))
  {
    match event
    case Opens(at) => OpeningKeeps(lanes, at);
    case Mints(which) => MintingKeeps(lanes, which);
    case Takes(which) => TakingKeeps(lanes, which);
    case Steers(which) => SteeringKeeps(lanes, which, false);
    case LetsGo(which) => SteeringKeeps(lanes, which, true);
    case Ending(which) => EndingKeeps(lanes, which);
  }

  const NONE_YET := Lanes(map[], 0, [])

  predicate AllAllowed(lanes: Lanes, events: seq<Event>)
    decreases |events|
  {
    events == [] || (Allowed(lanes, events[0]) && AllAllowed(After(lanes, events[0]), events[1..]))
  }

  function AfterAll(lanes: Lanes, events: seq<Event>): (after: Lanes)
    requires AllAllowed(lanes, events)
    decreases |events|
  {
    if events == [] then lanes else AfterAll(After(lanes, events[0]), events[1..])
  }

  lemma {:induction false} AlwaysSound(lanes: Lanes, events: seq<Event>)
    requires Sound(lanes) && AllAllowed(lanes, events)
    ensures Sound(AfterAll(lanes, events))
    decreases |events|
  {
    if events != [] {
      StepKeeps(lanes, events[0]);
      AlwaysSound(After(lanes, events[0]), events[1..]);
    }
  }

  /** However the streams take turns: from when another hold takes a device's lane no call of this
      one begins there or is still under way, its last one included; and nothing happens on the
      lane while a call is made. */
  lemma TheOlderNeverCalls(events: seq<Event>, at: Address, took: nat, taken: nat, later: nat)
    requires AllAllowed(NONE_YET, events)
    requires var log := LaneAt(AfterAll(NONE_YET, events), at).log;
      took < taken < later < |log| && log[took].Took? && log[taken].Took?
    ensures var log := LaneAt(AfterAll(NONE_YET, events), at).log;
      log[taken].who != log[took].who && !log[later].Took? ==> log[later].who != log[took].who
    ensures OneAtATime(LaneAt(AfterAll(NONE_YET, events), at).log)
  {
    assert Sound(NONE_YET);
    AlwaysSound(NONE_YET, events);
    var end := AfterAll(NONE_YET, events);
    assert LaneSound(end, at);
    var log := LaneAt(end, at).log;
    NoneLater(log, took, taken, later);
  }

  lemma NoneLater(log: seq<Happening>, took: nat, taken: nat, later: nat)
    requires OnlyTheNewestCalls(log) && took < taken < later < |log| && log[took].Took? && log[taken].Took?
    ensures log[taken].who != log[took].who && !log[later].Took? ==> log[later].who != log[took].who
  {
    var which, before := log[took].who, log[..later];
    assert MayHappen(before, log[later]);
    assert before[|before| - 1] == log[later - 1];
    assert before[took] == log[took] && before[taken] == log[taken];
    if later - 1 > taken {
      var earlier := log[..later - 1];
      assert MayHappen(earlier, log[later - 1]);
      assert earlier[took] == log[took] && earlier[taken] == log[taken];
    }
  }
}
