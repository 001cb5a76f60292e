/** Whole calls of the order dialogue (sim/scripted_order.py): whatever the guest says
    and the tools answer, what goes out as a draft is complete and what is confirmed was
    read out. */
module PickupRuns {
  import opened Wrappers
  import opened PickupScript
  import opened PickupSteps
  import opened PickupSound
  import opened PickupCall

  /** An event that took place, what the script did then, and where it stood after it. */
  datatype Step = Step(event: Event, turn: Option<Turn>, now: Standing)

  /** Where the call stands behind these steps. */
  function Last(wantsDelivery: bool, steps: seq<Step>): Standing {
    if steps == [] then Start(wantsDelivery) else steps[|steps| - 1].now
  }

  /** A run of the script: each event could take place, and the script took its way. */
  ghost predicate IsRun(wantsDelivery: bool, steps: seq<Step>)
    decreases |steps|
  {
    steps == []
    || (var front, step := steps[..|steps| - 1], steps[|steps| - 1];
        IsRun(wantsDelivery, front) && IsStep(Last(wantsDelivery, front), step))
  }

  ghost predicate IsStep(was: Standing, step: Step) {
    && was.Sound() && Possible(was, step.event)
    && Takes(WayOf(was, step.event), step.turn, step.now)
  }

  /** The run of these events, up to the first that cannot take place. */
  ghost predicate RunOf(wantsDelivery: bool, steps: seq<Step>, events: seq<Event>) {
    && IsRun(wantsDelivery, steps)
    && |steps| <= |events| && (forall n :: 0 <= n < |steps| ==> steps[n].event == events[n])
    && (|steps| < |events| ==> !Possible(Last(wantsDelivery, steps), events[|steps|]))
  }

  // ---- The script carries the runs out ----

  /** One event. */
  method Do(c: Dialogue, event: Event) returns (turn: Option<Turn>)
    requires c.Valid() && Possible(c.Now(), event)
    modifies c
    ensures c.Valid() && Takes(WayOf(old(c.Now()), event), turn, c.Now())
  {
    hide NextMoves, SaidWay, FoundWay, FailedWay, LookupWay, ZoneWay, ReadbackWay, BehindRefusal, Standing.Sound;
    match event
    case Said(heard, slots) =>
      var t := c.OnCustomer(heard, slots);
      turn := Some(t);
    case Readback(yes, fix) =>
      var t := c.OnReadback(yes, fix);
      turn := Some(t);
    case NewAddress(slots) =>
      var t := c.OnNewAddress(slots);
      turn := Some(t);
    case DeliveryWanted =>
      c.WantDelivery();
      turn := None;
    case SearchFound(found, slots) =>
      var t := c.OnSearch(found, slots);
      turn := Some(t);
    case SearchFailed(say, notFound) =>
      var carried;
      turn, carried := c.OnSearchFailed(say, notFound);
    case LookedUp(stored, say, slots) =>
      var t := c.OnLookup(stored, say, slots);
      turn := Some(t);
    case ZoneAccepted(slots) =>
      var t := c.OnZone(slots);
      turn := Some(t);
    case Drafted(id, readback) =>
      var t := c.OnDraft(id, readback);
      turn := Some(t);
    case Refused(code) =>
      c.OnOrderRefused(code);
      turn := None;
    case Booked =>
      c.OnConfirmed();
      turn := None;
  }

  /** The script goes along with the events up to the first that cannot take place. */
  method Run(wantsDelivery: bool, events: seq<Event>) returns (c: Dialogue, steps: seq<Step>)
    ensures c.Valid() && c.Now() == Last(wantsDelivery, steps)
    ensures RunOf(wantsDelivery, steps, events)
  {
    hide Takes, Standing.Sound, WayOf, Possible, Start;
    c := new Dialogue(wantsDelivery);
    steps := [];
    while |steps| < |events| && Possible(c.Now(), events[|steps|])
      invariant fresh(c) && c.Valid() && IsRun(wantsDelivery, steps) && c.Now() == Last(wantsDelivery, steps)
      invariant |steps| <= |events| && forall n :: 0 <= n < |steps| ==> steps[n].event == events[n]
      decreases |events| - |steps|
    {
      ghost var was := c.Now();
      var event := events[|steps|];
      var turn := Do(c, event);
      var step := Step(event, turn, c.Now());
      OneMoreStep(wantsDelivery, steps, step);
      steps := steps + [step];
    }
  }

  lemma {:induction false} OneMoreStep(wantsDelivery: bool, steps: seq<Step>, step: Step)
    ensures Last(wantsDelivery, steps + [step]) == step.now
    ensures IsRun(wantsDelivery, steps + [step]) <==>
            IsRun(wantsDelivery, steps) && IsStep(Last(wantsDelivery, steps), step)
  {
    assert (steps + [step])[..|steps|] == steps;
  }

  // ---- What every run keeps ----

  lemma {:induction false} RunIsSound(wantsDelivery: bool, steps: seq<Step>)
    requires IsRun(wantsDelivery, steps)
    ensures Last(wantsDelivery, steps).Sound()
    ensures steps != [] ==>
              var turn := steps[|steps| - 1].turn;
              Last(wantsDelivery, steps).awaiting == if turn.Some? then AwaitingOf(turn.value) else Guest
  {
    if steps != [] {
      var front, step := steps[..|steps| - 1], steps[|steps| - 1];
      EventIsSound(Last(wantsDelivery, front), step.event, step.turn, step.now);
    }
  }

  /** Each tool answers the call that was made to it last, and the guest what was said
      last: every event answers the turn before it. */
  lemma {:induction false} EventsAnswer(wantsDelivery: bool, steps: seq<Step>, turn: Option<Turn>, event: Event)
    requires IsRun(wantsDelivery, steps) && Possible(Last(wantsDelivery, steps), event)
    requires turn == if steps == [] then None else steps[|steps| - 1].turn
    ensures match event
            case SearchFound(_, _) => turn.Some? && turn.value.Search?
            case SearchFailed(_, _) => turn.Some? && turn.value.Search?
            case LookedUp(_, _, _) => turn.Some? && turn.value.Lookup?
            case ZoneAccepted(slots) => turn == Some(CheckZone(slots.address))
            case Drafted(_, _) => turn.Some? && turn.value.Draft?
            case Booked => turn.Some? && turn.value.Confirm?
            case Refused(_) => turn.Some? && !turn.value.Say? && !turn.value.Search? && !turn.value.Broken?
            case _ => turn.None? || turn.value.Say? || turn.value.Broken?
  {
    RunIsSound(wantsDelivery, steps);
  }
}
