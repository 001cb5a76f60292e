/** Which questions about a line are open (sim/scripted_order.py): those a wish left open
    and no answer has closed, event by event. */
module PickupQuestions {
  import opened Wrappers
  import opened PickupScript
  import opened PickupSteps
  import opened PickupSound
  import opened PickupRuns
  import opened PickupPromises
  import opened PickupLines
  import opened PickupPlaces

  // ---- Which lines are asked about ----

  /** A wish for line i leaves this question open: an allergy without saying against
      what, or an option that stands in several groups. */
  datatype Question = Allergy(item: nat) | Which(group: OpenGroup)

  predicate LeavesOpen(wish: Option<Wish>, item: nat, q: Question) {
    && wish.Some?
    && var kind := wish.value.kind;
       match q
       case Allergy(i) => kind.AllergyOpen? && i == item
       case Which(group) => kind.Groups? && group == OpenGroup(item, kind.groups, kind.question)
  }

  predicate IsOpen(s: Standing, q: Question) {
    match q
    case Allergy(i) => i in s.allergyFor
    case Which(group) => group in s.groupFor
  }

  /** The wish of a line that comes in, or of the answer about a group, leaves it open. */
  ghost predicate Raises(was: Standing, event: Event, q: Question) {
    || (exists a :: Arrives(was, event, a) && LeavesOpen(a.wish, a.at, q))
    || (exists i :: AnswersGroup(was, event, i) && LeavesOpen(event.heard.group.wish, i, q))
  }

  /** The question was open, and the event is not the answer that closes it. */
  predicate StaysAsked(was: Standing, event: Event, q: Question) {
    match q
    case Allergy(i) =>
      if event.Said? && !was.delivery.sameOpen && was.allergyFor != [] && event.heard.allergy.Read?
      then i in was.allergyFor[1..] else i in was.allergyFor
    case Which(group) =>
      if event.Said? && !was.delivery.sameOpen && was.allergyFor == [] && was.groupFor != []
         && !event.heard.group.NoGroup?
      then group in was.groupFor[1..] else group in was.groupFor
  }

  ghost predicate QuestionsMove(was: Standing, event: Event, s: Standing) {
    forall q :: IsOpen(s, q) <==> StaysAsked(was, event, q) || Raises(was, event, q)
  }

  /** Part j leaves this question open for its line. */
  predicate PartAsks(parts: seq<Part>, at: nat, j: nat, q: Question) {
    j < |parts| && ToBeHad(parts[j]) && LeavesOpen(parts[j].wish, at + Had(parts[..j]), q)
  }

  predicate AskedBy(parts: seq<Part>, at: nat, q: Question) {
    match q
    case Allergy(i) => i in AllergiesOf(parts, at)
    case Which(group) => group in GroupsOf(parts, at)
  }

  lemma {:induction false} AskedByParts(parts: seq<Part>, at: nat, q: Question)
    ensures AskedBy(parts, at, q) <==> exists j: nat :: PartAsks(parts, at, j, q)
  {
    if parts != [] {
      var n := |parts| - 1;
      AskedByParts(parts[..n], at, q);
      OneMorePart(parts, at, q);
      forall j: nat ensures PartAsks(parts[..n], at, j, q) <==> j != n && PartAsks(parts, at, j, q) {
        if j < n {
          assert parts[..n][..j] == parts[..j];
        }
      }
      hide AskedBy, PartAsks;
    }
  }

  lemma {:induction false} OneMorePart(parts: seq<Part>, at: nat, q: Question)
    requires parts != []
    ensures var n := |parts| - 1;
            AskedBy(parts, at, q) <==> AskedBy(parts[..n], at, q) || PartAsks(parts, at, n, q)
  {
    var n := |parts| - 1;
    var front, last := parts[..n], parts[n];
    LinesAreHad(front);
    hide Lines, Had;
    assert AllergiesOf(parts, at) == AllergiesOf(front, at) + OpensAllergy(last, at + |Lines(front)|);
    assert GroupsOf(parts, at) == GroupsOf(front, at) + OpensGroup(last, at + |Lines(front)|);
  }

  lemma {:induction false} PositionsAsk(was: Standing, found: Found, slots: Slots, s: Standing)
    requires was.replace.None? && found.Positions? && !was.Open()
    requires s.allergyFor == AllergiesOf(found.parts, |was.cart|) && s.groupFor == GroupsOf(found.parts, |was.cart|)
    ensures QuestionsMove(was, SearchFound(found, slots), s)
  {
    var event, parts, n := SearchFound(found, slots), found.parts, |was.cart|;
    forall q ensures IsOpen(s, q) <==> Raises(was, event, q) {
      assert IsOpen(s, q) == AskedBy(parts, n, q);
      AskedByParts(parts, n, q);
      hide AskedBy, IsOpen, LeavesOpen;
      if j: nat :| PartAsks(parts, n, j, q) {
        var a := Arrival(n + Had(parts[..j]), parts[j].hit, parts[j].quantity, parts[j].wish);
        assert PartArrives(was, found, j, a);
        assert Arrives(was, event, a);
      }
      if a :| Arrives(was, event, a) && LeavesOpen(a.wish, a.at, q) {
        var j: nat :| PartArrives(was, found, j, a);
        assert PartAsks(parts, n, j, q);
      }
    }
  }

  /** One line comes in and nothing else is answered. */
  lemma {:induction false} OneArrivalAsks(was: Standing, event: Event, a: Arrival, s: Standing)
    requires !was.Open() && Arrives(was, event, a) && forall b :: Arrives(was, event, b) ==> b == a
    requires s.allergyFor == AsksAllergy(a.at, a.wish) && s.groupFor == AsksGroup(a.at, a.wish)
    ensures QuestionsMove(was, event, s)
  {
    hide Arrives;
    forall q ensures IsOpen(s, q) <==> LeavesOpen(a.wish, a.at, q) {
    }
  }

  lemma {:induction false} NoArrivalAsks(was: Standing, event: Event, s: Standing)
    requires (forall a :: !Arrives(was, event, a)) && !(event.Said? && !was.delivery.sameOpen && was.Open())
    requires s.allergyFor == was.allergyFor && s.groupFor == was.groupFor
    ensures QuestionsMove(was, event, s)
  {
    hide Arrives;
  }

  lemma {:induction false} SingleAsks(was: Standing, found: Found, slots: Slots, s: Standing)
    requires was.replace.None? && found.Single? && !was.Open()
    requires var carries := Carries(was.reopen, found.part, was.suggestionWish);
             var wish := if Taken(found.part) then WishOf(found.part, carries) else None;
             s.allergyFor == AsksAllergy(|was.cart|, wish) && s.groupFor == AsksGroup(|was.cart|, wish)
    ensures QuestionsMove(was, SearchFound(found, slots), s)
  {
    var event, part := SearchFound(found, slots), found.part;
    var carries := Carries(was.reopen, part, was.suggestionWish);
    assert WasOffered(was, found) == carries;
    if Taken(part) {
      var a := Arrival(|was.cart|, part.hit, part.quantity, WishOf(part, carries));
      assert PartArrives(was, found, 0, a);
      assert Arrives(was, event, a);
      forall b | Arrives(was, event, b) ensures b == a {
        var j: nat :| PartArrives(was, found, j, b);
      }
      OneArrivalAsks(was, event, a, s);
    } else {
      NoArrivalAsks(was, event, s);
    }
  }

  lemma {:induction false} FoundAsks(was: Standing, found: Found, slots: Slots)
    requires !was.Open() && (was.replace.Some? ==> was.replace.value.at < |was.cart|)
    ensures QuestionsMove(was, SearchFound(found, slots), StandingOf(FoundWay(was, found, slots)))
  {
    hide AllergiesOf, GroupsOf, Carries, CorrectedCart, QuestionsMove;
    var s := StandingOf(FoundWay(was, found, slots));
    if was.replace.Some? {
      NoArrivalAsks(was, SearchFound(found, slots), s);
    } else if found.Positions? {
      PositionsAsk(was, found, slots, s);
    } else {
      SingleAsks(was, found, slots, s);
    }
  }

  lemma {:induction false} PickAsks(was: Standing, at: nat, heard: Heard, slots: Slots)
    requires AnswersSuggestions(was) && Names(heard, at) && at < |was.suggestions|
    ensures QuestionsMove(was, Said(heard, slots), StandingOf(PickWay(was, at, heard, slots)))
  {
    var event, hit, s := Said(heard, slots), was.suggestions[at], StandingOf(PickWay(was, at, heard, slots));
    if hit.soldOut {
      NoArrivalAsks(was, event, s);
    } else {
      var a := Arrival(|was.cart|, hit, heard.quantity, heard.wish);
      assert SuggestionArrives(was, heard, at, a);
      assert Arrives(was, event, a);
      forall b | Arrives(was, event, b) ensures b == a {
        var j: nat :| SuggestionArrives(was, heard, j, b);
      }
      assert [] + AsksAllergy(a.at, a.wish) == AsksAllergy(a.at, a.wish);
      assert [] + AsksGroup(a.at, a.wish) == AsksGroup(a.at, a.wish);
      OneArrivalAsks(was, event, a, s);
    }
  }

  lemma {:induction false} AllergyAsks(was: Standing, heard: Heard, slots: Slots)
    requires was.PlacesOk() && !was.delivery.sameOpen && was.allergyFor != []
    ensures QuestionsMove(was, Said(heard, slots), StandingOf(AllergyWay(was, heard.allergy, slots)))
  {
    var event, s := Said(heard, slots), StandingOf(AllergyWay(was, heard.allergy, slots));
    assert forall a :: !Arrives(was, event, a);
    assert forall i :: !AnswersGroup(was, event, i);
    assert s.groupFor == was.groupFor;
    assert s.allergyFor == if heard.allergy.Read? then was.allergyFor[1..] else was.allergyFor;
    hide Arrives, AnswersGroup, AllergyWay;
  }

  lemma {:induction false} GroupAsks(was: Standing, heard: Heard, slots: Slots)
    requires was.PlacesOk() && !was.delivery.sameOpen && was.allergyFor == [] && was.groupFor != []
    ensures QuestionsMove(was, Said(heard, slots), StandingOf(GroupWay(was, heard.group, slots)))
  {
    var event, s := Said(heard, slots), StandingOf(GroupWay(was, heard.group, slots));
    var item, wish := was.groupFor[0].item, if heard.group.Named? then heard.group.wish else None;
    assert forall a :: !Arrives(was, event, a);
    assert forall i :: AnswersGroup(was, event, i) <==> heard.group.Named? && i == item;
    assert s.allergyFor == AsksAllergy(item, wish);
    assert s.groupFor == (if heard.group.NoGroup? then was.groupFor else was.groupFor[1..]) + AsksGroup(item, wish);
    hide Arrives, AnswersGroup, GroupWay;
    forall q ensures Raises(was, event, q) <==> LeavesOpen(wish, item, q) {
    }
  }

  lemma {:induction false} OptionAsksNothing(was: Standing, option: Option<string>, slots: Slots)
    ensures var s := StandingOf(OptionWay(was, option, slots));
            s.allergyFor == was.allergyFor && s.groupFor == was.groupFor
  {
  }

  lemma {:induction false} SaidAsks(was: Standing, heard: Heard, slots: Slots)
    requires was.PlacesOk() && FitsSuggestions(heard, was.suggestions)
    ensures QuestionsMove(was, Said(heard, slots), StandingOf(SaidWay(was, heard, slots)))
  {
    hide OptionWay, PickWay, AllergyWay, GroupWay, QuestionsMove;
    PickedIsNamed(heard);
    var s := StandingOf(SaidWay(was, heard, slots));
    if !was.delivery.sameOpen && was.allergyFor != [] {
      AllergyAsks(was, heard, slots);
    } else if !was.delivery.sameOpen && was.groupFor != [] {
      GroupAsks(was, heard, slots);
    } else if AnswersSuggestions(was) && Picked(heard).Some? {
      PickAsks(was, Picked(heard).value, heard, slots);
    } else {
      OptionAsksNothing(was, heard.option, slots);
      NoArrivalAsks(was, Said(heard, slots), s);
    }
  }

  lemma {:induction false} OtherAsks(was: Standing, event: Event)
    requires was.Sound() && Possible(was, event) && !event.Said? && !event.SearchFound?
    ensures QuestionsMove(was, event, StandingOf(WayOf(was, event)))
  {
    hide Standing.PlacesOk, Standing.QuestionsOk, Standing.ReadOutOk, FoundWay, SaidWay, QuestionsMove;
    var s := StandingOf(WayOf(was, event));
    assert s.allergyFor == was.allergyFor && s.groupFor == was.groupFor;
    NoArrivalAsks(was, event, s);
  }

  /** The next step asks and closes nothing. */
  lemma {:induction false} StepLeavesAsked(was: Standing, step: Step)
    requires IsStep(was, step)
    ensures var s := StandingOf(WayOf(was, step.event));
            step.now.allergyFor == s.allergyFor && step.now.groupFor == s.groupFor
  {
    hide WayOf, Standing.Sound;
  }

  /** On every run, step by step: a question about a line is open exactly when it was and
      this was not its answer, or when a wish of this event leaves it open. */
  lemma {:induction false} EveryStepMovesQuestions(wantsDelivery: bool, steps: seq<Step>, n: nat)
    requires IsRun(wantsDelivery, steps) && n < |steps|
    ensures QuestionsMove(Last(wantsDelivery, steps[..n]), steps[n].event, steps[n].now)
  {
    var was, step := Last(wantsDelivery, steps[..n]), steps[n];
    PrefixIsRun(wantsDelivery, steps, n);
    StepLeavesAsked(was, step);
    StepAsks(was, step.event);
  }

  lemma {:induction false} StepAsks(was: Standing, event: Event)
    requires was.Sound() && Possible(was, event)
    ensures QuestionsMove(was, event, StandingOf(WayOf(was, event)))
  {
    hide QuestionsMove, FoundWay, SaidWay;
    match event
    case Said(heard, slots) => SaidAsks(was, heard, slots);
    case SearchFound(found, slots) => FoundAsks(was, found, slots);
    case _ => OtherAsks(was, event);
  }

  // ---- Where the talk stands ----

  /** Of several parts the first that is not clear has several hits. */
  predicate OffersSome(parts: seq<Part>) {
    exists j :: 0 <= j < |parts| && parts[j].Several? && forall k :: 0 <= k < j ==> parts[k].Clear?
  }

  /** The phase behind an answer to suggestions: one that is out leaves the others open,
      "das wars" with something ordered is the end of the dishes, and everything else
      leads back to them. */
  predicate ChoiceLeadsTo(was: Standing, heard: Heard, phase: Phase) {
    if exists j :: 0 <= j < |was.suggestions| && Names(heard, j) && was.suggestions[j].soldOut then
      phase == if |was.suggestions| > 1 then Choose else Dishes
    else if exists j :: 0 <= j < |was.suggestions| && Names(heard, j) then phase == Dishes
    else phase == if heard.finishes && was.cart != [] then Customer else Dishes
  }

  /** The phase behind an event, before the next step is taken. */
  ghost predicate LeadsTo(was: Standing, event: Event, phase: Phase) {
    if GivesUp(was, event) then phase == Dishes
    else
      match event
      case Said(heard, _) =>
        if was.delivery.sameOpen || was.allergyFor != [] || was.groupFor != [] then phase == was.phase
        else if was.phase == Choose then ChoiceLeadsTo(was, heard, phase)
        else phase == if was.phase == More && heard.done then Customer else was.phase
      case SearchFound(found, _) =>
        phase == if was.replace.None? && OffersSome(PartsOf(found)) then Choose else was.phase
      case SearchFailed(_, _) => phase == if was.replace.None? && was.reopen != [] then Choose else was.phase
      case Refused(code) =>
        phase == if code == BelowMinimum || (code == OutOfZone && was.phase == Dishes) then More else was.phase
      case _ => phase == was.phase
  }

  lemma {:induction false} OffersIff(parts: seq<Part>)
    ensures OffersSome(parts) <==> FirstUnclear(parts).Some? && FirstUnclear(parts).value.Several?
  {
    FirstIs(parts);
    hide FirstUnclear;
    if j :| 0 <= j < |parts| && parts[j].Several? && forall k :: 0 <= k < j ==> parts[k].Clear? {
      assert FirstAsked(parts, j);
    }
    if FirstUnclear(parts).Some? {
      var j: nat :| FirstAsked(parts, j);
    }
  }

  lemma {:induction false} FoundLeadsTo(was: Standing, found: Found, slots: Slots)
    requires was.Sound() && Possible(was, SearchFound(found, slots))
    ensures LeadsTo(was, SearchFound(found, slots), StandingOf(FoundWay(was, found, slots)).phase)
  {
    hide Lines, Laters, AllergiesOf, GroupsOf, HeldOf, LineOf, Carries, CorrectedCart;
    OffersIff(PartsOf(found));
    if found.Single? {
      assert PartsOf(found) == [found.part] && [found.part][..0] == [];
      assert FirstUnclear([]) == None;
    }
  }

  lemma {:induction false} ChoiceIs(was: Standing, heard: Heard, slots: Slots)
    requires FitsSuggestions(heard, was.suggestions) && was.phase == Choose
    ensures ChoiceLeadsTo(was, heard, StandingOf(ChoiceWay(was, heard, slots)).phase)
  {
    PickedIsNamed(heard);
    if Picked(heard).Some? {
      var at := Picked(heard).value;
      assert Names(heard, at) && forall j :: Names(heard, j) ==> j == at;
      assert |was.suggestions[..at] + was.suggestions[at + 1..]| == |was.suggestions| - 1;
    }
  }

  lemma {:induction false} SaidLeadsTo(was: Standing, heard: Heard, slots: Slots)
    requires was.Sound() && Possible(was, Said(heard, slots))
    ensures LeadsTo(was, Said(heard, slots), StandingOf(SaidWay(was, heard, slots)).phase)
  {
    hide ChoiceWay, ChoiceLeadsTo, Wished;
    if !was.delivery.sameOpen && !was.Open() && was.phase == Choose {
      ChoiceIs(was, heard, slots);
    }
  }

  /** Every event leads where it should, whatever else it does. */
  lemma {:induction false} EventLeadsTo(was: Standing, event: Event)
    requires was.Sound() && Possible(was, event)
    ensures LeadsTo(was, event, StandingOf(WayOf(was, event)).phase)
  {
    hide SaidWay, FoundWay, Standing.PlacesOk, Standing.DeliveryOk;
    match event
    case Said(heard, slots) => SaidLeadsTo(was, heard, slots);
    case SearchFound(found, slots) => FoundLeadsTo(was, found, slots);
    case _ =>
  }

  // ---- What is asked next ----

  /** The first line with an open mandatory group. */
  predicate FirstOpen(cart: seq<CartItem>, i: nat) {
    i < |cart| && cart[i].pending != [] && forall k :: 0 <= k < i ==> cart[k].pending == []
  }

  /** All lines are there and complete. */
  predicate AllChosen(cart: seq<CartItem>) {
    cart != [] && forall i :: 0 <= i < |cart| ==> cart[i].pending == []
  }

  /** An address is needed, and neither the stored one is agreed to nor this one checked. */
  predicate NeedsAddress(delivery: Delivery, address: Address) {
    delivery.wanted && !delivery.useStored && delivery.checked != Some(address)
  }

  /** With no question about a line and no suggestions open, one thing is asked: for an
      option of the first line that lacks one, for dishes, for more of them, and when there
      are no more for address, name and phone, whichever is missing first. */
  ghost predicate AsksFirstMissing(s: Standing, slots: Slots, q: Sentence) {
    && (forall i: nat :: FirstOpen(s.cart, i) ==> q == AskOption(i, s.cart[i].pending[0]) && s.phase == Options)
    && (s.cart == [] ==> q == AskWhat && s.phase == Dishes)
    && (AllChosen(s.cart) ==>
          && (s.phase == More <==> q == AskMore) && (s.phase == More || s.phase == Customer)
          && (s.phase == Customer ==>
                && (q == AskAddress <==> NeedsAddress(s.delivery, slots.address))
                && (q == AskName <==>
                      !NeedsAddress(s.delivery, slots.address) && slots.name.None? && !s.delivery.useStored)
                && (q == AskPhone <==> q != AskAddress && q != AskName) && (q == AskPhone ==> slots.phone.None?)))
  }

  /** The question is asked behind what is spoken, unless that holds it already. */
  predicate IsAskedOnce(q: Sentence, lead: seq<Sentence>, said: seq<Sentence>) {
    said == if q in lead then lead else lead + [q]
  }

  /** What the guest is asked behind something that was spoken. */
  ghost predicate IsAsked(s: Standing, slots: Slots, lead: seq<Sentence>, said: seq<Sentence>) {
    if s.allergyFor != [] then IsAskedOnce(AskAllergy(s.allergyFor), lead, said)
    else if s.groupFor != [] then IsAskedOnce(s.groupFor[0].question, lead, said)
    else if s.phase == Choose then said == if lead == [] then [AskWhat] else lead
    else |said| == |lead| + 1 && lead <= said && AsksFirstMissing(s, slots, said[|lead|])
  }

  lemma {:induction false} SpokenIsAsked(ahead: Standing, slots: Slots, lead: seq<Sentence>, turn: Turn, now: Standing)
    requires NextMoves(ahead, slots, lead, turn, now) && turn.Say? && ahead.awaiting == Guest
    ensures IsAsked(now, slots, lead, turn.sentences)
    ensures !ahead.Asking() && AllChosen(now.cart) ==>
              (now.phase == Customer <==> ahead.phase == Customer || ahead.complete)
  {
    assert AllChosen(ahead.cart) <==> ahead.cart != [] && !AnyPending(ahead.cart);
    assert now.cart == ahead.cart;
    forall i: nat | FirstOpen(now.cart, i) ensures AnyPending(ahead.cart) && i == FirstPending(ahead.cart) {
      assert ahead.cart[i].pending != [];
    }
  }

  /** Behind the event the script takes the next step. */
  ghost predicate GoesOn(was: Standing, event: Event) {
    was.Sound() && Possible(was, event) && WayOf(was, event).Goes?
  }

  /** On every run, wherever the script speaks and goes on: exactly the first thing that is
      missing is asked for, behind what is to be spoken. */
  lemma {:induction false} EveryTurnAsks(wantsDelivery: bool, steps: seq<Step>, n: nat)
    requires IsRun(wantsDelivery, steps) && n < |steps| && steps[n].turn.Some? && steps[n].turn.value.Say?
    requires GoesOn(Last(wantsDelivery, steps[..n]), steps[n].event)
    ensures var way := WayOf(Last(wantsDelivery, steps[..n]), steps[n].event);
            IsAsked(steps[n].now, way.slots, way.lead, steps[n].turn.value.sentences)
  {
    var was, step := Last(wantsDelivery, steps[..n]), steps[n];
    PrefixIsRun(wantsDelivery, steps, n);
    EventIsOk(was, step.event);
    var way := WayOf(was, step.event);
    SpokenIsAsked(way.ahead, way.slots, way.lead, step.turn.value, step.now);
  }
}
