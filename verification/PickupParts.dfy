/** What becomes of the parts of a sentence over whole runs of the order dialogue
    (sim/scripted_order.py): which are searched later, what is spoken, and what is lost. */
module PickupParts {
  import opened Wrappers
  import opened PickupScript
  import opened PickupSteps
  import opened PickupSound
  import opened PickupCall
  import opened PickupRuns
  import opened PickupPromises

  // ---- Parts asked for later ----

  /** The parts of this event that have to wait. */
  function Waiting(was: Standing, event: Event): seq<string> {
    if event.SearchFound? && was.replace.None? && event.found.Positions? then Laters(event.found.parts) else []
  }

  /** The waiting part that the next step searches. */
  ghost function Searched(was: Standing, step: Step): seq<string>
    requires IsStep(was, step)
  {
    if WayOf(was, step.event).Goes? && step.turn.value.Search? then [step.turn.value.query] else []
  }

  ghost function AllWaiting(wantsDelivery: bool, steps: seq<Step>): seq<string> {
    if steps == [] then []
    else
      var front, step := steps[..|steps| - 1], steps[|steps| - 1];
      AllWaiting(wantsDelivery, front) + Waiting(Last(wantsDelivery, front), step.event)
  }

  ghost function AllSearched(wantsDelivery: bool, steps: seq<Step>): seq<string>
    requires IsRun(wantsDelivery, steps)
  {
    if steps == [] then []
    else
      var front, step := steps[..|steps| - 1], steps[|steps| - 1];
      AllSearched(wantsDelivery, front) + Searched(Last(wantsDelivery, front), step)
  }

  lemma {:induction false} SaidKeepsLater(was: Standing, heard: Heard, slots: Slots)
    requires was.PlacesOk() && FitsSuggestions(heard, was.suggestions)
    ensures StandingOf(SaidWay(was, heard, slots)).later == was.later
  {
    if !was.delivery.sameOpen && was.allergyFor == [] {
      if was.groupFor != [] {
        assert StandingOf(GroupWay(was, heard.group, slots)).later == was.later;
      } else if was.phase == Choose {
        assert StandingOf(ChoiceWay(was, heard, slots)).later == was.later;
      } else if was.phase == Options {
        assert StandingOf(OptionWay(was, heard.option, slots)).later == was.later;
      }
    }
  }

  lemma {:induction false} EventAddsWaiting(was: Standing, event: Event)
    requires was.Sound() && Possible(was, event)
    ensures StandingOf(WayOf(was, event)).later == was.later + Waiting(was, event)
  {
    hide SaidWay, Standing.QuestionsOk, Standing.DeliveryOk, Standing.ReadOutOk, Standing.WaitOk;
    assert was.later + [] == was.later;
    if event.Said? {
      SaidKeepsLater(was, event.heard, event.slots);
    }
  }

  /** One step: what waited and what has to wait is searched now or waits behind it. */
  lemma {:induction false} StepKeepsLater(was: Standing, step: Step)
    requires IsStep(was, step)
    ensures was.later + Waiting(was, step.event) == Searched(was, step) + step.now.later
  {
    hide WayOf, Standing.Sound, Waiting;
    EventAddsWaiting(was, step.event);
    var ahead := StandingOf(WayOf(was, step.event));
    if WayOf(was, step.event).Goes? && step.turn.value.Search? {
      assert ahead.later == [ahead.later[0]] + ahead.later[1..];
    } else {
      assert [] + step.now.later == step.now.later;
    }
  }

  /** Main result for what waits, on every run: no unclear part drops out silently. All
      parts that had to wait are searched in the order they were said, up to those that
      still wait. */
  lemma {:induction false} NoPartDropsOut(wantsDelivery: bool, steps: seq<Step>)
    requires IsRun(wantsDelivery, steps)
    ensures AllWaiting(wantsDelivery, steps) == AllSearched(wantsDelivery, steps) + Last(wantsDelivery, steps).later
  {
    hide IsStep, Waiting, Searched;
    if steps != [] {
      var front, step := steps[..|steps| - 1], steps[|steps| - 1];
      var was := Last(wantsDelivery, front);
      NoPartDropsOut(wantsDelivery, front);
      StepKeepsLater(was, step);
      var searched := AllSearched(wantsDelivery, front);
      Assoc(searched, was.later, Waiting(was, step.event));
      Assoc(searched, Searched(was, step), step.now.later);
    }
  }

  // ---- What is to be spoken ----

  /** What is to be spoken behind an event besides the next question. */
  ghost function Lead(was: Standing, event: Event): seq<Sentence>
    requires was.Sound() && Possible(was, event)
  {
    var way := WayOf(was, event);
    if way.Goes? then way.lead else []
  }

  /** It is lost: neither spoken now nor carried along to the search that is called. */
  ghost predicate Lost(was: Standing, step: Step)
    requires IsStep(was, step)
  {
    WayOf(was, step.event).Goes? && !Delivered(step.turn.value, Lead(was, step.event), step.now.carry)
  }

  /** A tool is due behind the event whose call speaks nothing. */
  ghost predicate CallIsDue(was: Standing, event: Event)
    requires was.Sound() && Possible(was, event)
  {
    var way := WayOf(was, event);
    way.Goes? && way.ahead.CallDue(way.slots)
  }

  /** Main result for what is spoken, on every run: something is lost at a step exactly
      when something is to be spoken and a tool is due whose call speaks nothing. */
  lemma {:induction false} LostIffCallIsDue(wantsDelivery: bool, steps: seq<Step>, n: nat)
    requires IsRun(wantsDelivery, steps) && n < |steps|
    ensures var was, step := Last(wantsDelivery, steps[..n]), steps[n];
            && IsStep(was, step)
            && (Lost(was, step) <==> Lead(was, step.event) != [] && CallIsDue(was, step.event))
  {
    hide WayOf, Standing.Sound;
    PrefixIsRun(wantsDelivery, steps, n);
  }

  /** What was carried along to a search is the first thing to be spoken behind it; when
      the search fails it is spoken with the open question or handed to the caller. */
  lemma {:induction false} CarriedComesFirst(was: Standing, step: Step)
    requires IsStep(was, step) && was.carry != []
    ensures step.event.SearchFound? || step.event.SearchFailed?
    ensures step.event.SearchFound? ==> was.carry <= Lead(was, step.event)
    ensures step.event.SearchFailed? ==>
              && (step.turn.Some? ==> step.turn.value.Say? && was.carry <= step.turn.value.sentences)
              && step.now.carry == []
  {
    hide Behind, BehindOne, Standing.PlacesOk, Standing.QuestionsOk, Standing.DeliveryOk, Standing.ReadOutOk, SaidWay;
  }

  predicate EndsWith(s: seq<Sentence>, end: seq<Sentence>) {
    |end| <= |s| && s[|s| - |end|..] == end
  }

  /** A question held back stays behind an open one, or is the last thing to be spoken. */
  predicate Holds(way: Way, held: seq<Sentence>) {
    if StandingOf(way).Open() then StandingOf(way).afterAllergy == held
    else way.Goes? && way.ahead.afterAllergy == [] && EndsWith(way.lead, held)
  }

  lemma {:induction false} ReleaseHolds(w: Standing, said: seq<Sentence>, slots: Slots)
    ensures Holds(Release(w, said, slots), w.afterAllergy)
  {
  }

  lemma {:induction false} SaidHolds(was: Standing, heard: Heard, slots: Slots)
    requires was.PlacesOk() && FitsSuggestions(heard, was.suggestions) && was.Open()
    ensures Holds(SaidWay(was, heard, slots), was.afterAllergy)
  {
    hide Release, PhaseWay, Wished, AsksAllergy, AsksGroup, Holds;
    if was.delivery.sameOpen || was.allergyFor != [] {
      AllergyHolds(was, heard, slots);
    } else {
      GroupHolds(was, heard.group, slots);
    }
  }

  lemma {:induction false} AllergyHolds(was: Standing, heard: Heard, slots: Slots)
    requires was.PlacesOk() && FitsSuggestions(heard, was.suggestions) && was.Open()
    requires was.delivery.sameOpen || was.allergyFor != []
    ensures Holds(SaidWay(was, heard, slots), was.afterAllergy)
  {
    hide Release, PhaseWay;
    if !was.delivery.sameOpen && heard.allergy.Read? {
      var item := was.allergyFor[0];
      ReleaseHolds(was.(cart := was.cart[item := was.cart[item].(note := heard.allergy.note)],
                        allergyFor := was.allergyFor[1..]), heard.allergy.said, slots);
    }
  }

  lemma {:induction false} GroupHolds(was: Standing, heard: GroupHeard, slots: Slots)
    requires was.groupFor != [] && was.groupFor[0].item < |was.cart|
    ensures Holds(GroupWay(was, heard, slots), was.afterAllergy)
  {
    hide Release, Wished, AsksAllergy, AsksGroup;
    var open, w := was.groupFor[0], was.(groupFor := was.groupFor[1..]);
    match heard
    case NoGroup =>
    case Dropped => ReleaseHolds(w, [], slots);
    case Named(wish, said) =>
      ReleaseHolds(w.(cart := w.cart[open.item := Wished(w.cart[open.item], wish)],
                      allergyFor := w.allergyFor + AsksAllergy(open.item, wish),
                      groupFor := w.groupFor + AsksGroup(open.item, wish)), said, slots);
  }

  /** A question held back waits until an answer closes the last open one; then it is the
      last thing to be spoken. */
  lemma {:induction false} HeldUntilAnswered(was: Standing, step: Step)
    requires IsStep(was, step) && was.afterAllergy != []
    ensures if step.now.Open() then step.now.afterAllergy == was.afterAllergy
            else step.now.afterAllergy == [] && EndsWith(Lead(was, step.event), was.afterAllergy)
  {
    hide SaidWay, FoundWay, FailedWay, LookupWay, ZoneWay, ReadbackWay, BehindRefusal, EndsWith, Follows;
    assert was.Open() && was.awaiting == Guest && was.readbackFor.None?;
    if step.event.Said? {
      SaidHolds(was, step.event.heard, step.event.slots);
    } else {
      assert step.event.DeliveryWanted?;
    }
  }
}
