/** Runs of the order dialogue (sim/scripted_order.py) that lose a part of what was said,
    and one that ends in the exception. */
module PickupCases {
  import opened Wrappers
  import opened PickupScript
  import opened PickupSteps
  import opened PickupSound
  import opened PickupRuns
  import opened PickupPromises

  // ---- First steps ----

  /** Where a call stands while its first sentence is searched. */
  function Searching(wantsDelivery: bool, heard: Heard): Standing {
    Start(wantsDelivery).(awaiting := Result(Search(heard.text)))
  }

  /** The step behind n others: it takes place if it can. */
  lemma {:induction false} StepAt(wantsDelivery: bool, steps: seq<Step>, events: seq<Event>, n: nat, was: Standing)
    requires RunOf(wantsDelivery, steps, events) && n < |events| && n <= |steps|
    requires was == if n == 0 then Start(wantsDelivery) else steps[n - 1].now
    requires Possible(was, events[n])
    ensures n < |steps| && steps[n].event == events[n] && IsStep(was, steps[n])
  {
    hide IsStep, Possible, Start;
    assert steps[..|steps|] == steps;
    assert Last(wantsDelivery, steps[..n]) == was;
    PrefixIsRun(wantsDelivery, steps, n);
  }

  lemma {:induction false} FirstStep(wantsDelivery: bool, steps: seq<Step>, events: seq<Event>)
    requires RunOf(wantsDelivery, steps, events) && events != [] && events[0].Said?
    requires FitsSuggestions(events[0].heard, [])
    ensures steps != [] && steps[0].turn == Some(Search(events[0].heard.text))
    ensures steps[0].now == Searching(wantsDelivery, events[0].heard)
  {
    StepAt(wantsDelivery, steps, events, 0, Start(wantsDelivery));
  }

  /** Dishes said in one sentence: at least one of them is to be had, none needs a choice. */
  ghost predicate SaidTogether(parts: seq<Part>) {
    && (forall i :: 0 <= i < |parts| ==> PartOk(parts[i]))
    && Lines(parts) != [] && !AnyPending(Lines(parts))
  }

  /** Where a call stands with them in their places. */
  function Together(wantsDelivery: bool, parts: seq<Part>): Standing {
    Start(wantsDelivery).(
      cart := Lines(parts), later := Laters(parts),
      allergyFor := AllergiesOf(parts, 0), groupFor := GroupsOf(parts, 0), afterAllergy := HeldOf(parts, 0),
      suggestions := Offered(parts), suggestionWish := OfferedWish(parts, None),
      phase := if Offered(parts) != [] then Choose else Dishes)
  }

  lemma {:induction false} BehindTogether(wantsDelivery: bool, heard: Heard, parts: seq<Part>)
    ensures Behind(parts, Searching(wantsDelivery, heard).(awaiting := Guest, reopen := [])).(carry := [])
            == Together(wantsDelivery, parts)
  {
    hide Lines, Laters, AllergiesOf, GroupsOf, HeldOf, Offered, OfferedWish;
    assert [] + Lines(parts) == Lines(parts) && [] + Laters(parts) == Laters(parts);
  }

  /** The first sentence and what the search finds for it. */
  lemma {:induction false} FoundTogether(wantsDelivery: bool, steps: seq<Step>, events: seq<Event>,
                                         parts: seq<Part>, slots: Slots)
    requires RunOf(wantsDelivery, steps, events) && |events| >= 2 && SaidTogether(parts)
    requires events[0].Said? && FitsSuggestions(events[0].heard, [])
    requires events[1] == SearchFound(Positions(parts, []), slots)
    ensures |steps| >= 2 && steps[1].event == events[1] && steps[1].turn.Some?
    ensures NextMoves(Together(wantsDelivery, parts), slots, LeadOf(parts, [], [], 0), steps[1].turn.value,
                      steps[1].now)
  {
    hide NextMoves, Behind, Together, LeadOf, Standing.Sound, RunOf;
    FirstStep(wantsDelivery, steps, events);
    var was := Searching(wantsDelivery, events[0].heard);
    StepAt(wantsDelivery, steps, events, 1, was);
    BehindTogether(wantsDelivery, events[0].heard, parts);
  }

  /** Where a call of a tool leaves it. */
  lemma {:induction false} Calls(ahead: Standing, slots: Slots, lead: seq<Sentence>, turn: Turn, now: Standing)
    requires NextMoves(ahead, slots, lead, turn, now) && ahead.CallDue(slots)
    ensures turn == if ahead.ZoneDue(slots) then CheckZone(slots.address)
                    else if ahead.LookupDue(slots) then Lookup(slots.name) else turn
    ensures !ahead.ZoneDue(slots) && !ahead.LookupDue(slots) ==> turn.Draft?
    ensures now.cart == ahead.cart && NothingLeft(now) == NothingLeft(ahead) && now.carry == ahead.carry
  {
  }

  // ---- Lost parts ----

  /** Said in one breath with a new address, what is sold out or unclear is neither
      spoken nor kept. */
  lemma {:induction false} LostAtZoneCheck(steps: seq<Step>, heard: Heard, parts: seq<Part>, slots: Slots)
    requires RunOf(true, steps, [Said(heard, slots), SearchFound(Positions(parts, []), slots)])
    requires FitsSuggestions(heard, []) && SaidTogether(parts) && !AsksFirst(parts, 0)
    requires Laters(parts) == [] && Offered(parts) == [] && Full(slots.address)
    ensures |steps| == 2 && steps[1].turn == Some(CheckZone(slots.address))
    ensures steps[1].now.cart == Lines(parts) && NothingLeft(steps[1].now) && steps[1].now.carry == []
  {
    hide NextMoves, LeadOf, RunOf, Lines, Laters, Offered;
    var events := [Said(heard, slots), SearchFound(Positions(parts, []), slots)];
    FoundTogether(true, steps, events, parts, slots);
    Calls(Together(true, parts), slots, LeadOf(parts, [], [], 0), steps[1].turn.value, steps[1].now);
    RunIsShort(true, steps, events);
  }

  lemma {:induction false} NoChoice(line: CartItem)
    requires line.pending == []
    ensures !AnyPending([line])
  {
  }

  /** Such a sentence: a dish that is to be had, and one the menu does not know. */
  lemma {:induction false} LostWord(clear: Part, unclear: Part)
    requires Taken(clear) && clear.wish.None? && clear.hit.required == [] && unclear.Unclear?
    ensures var parts := [clear, unclear];
            && SaidTogether(parts) && !AsksFirst(parts, 0) && Laters(parts) == [] && Offered(parts) == []
            && LeadOf(parts, [], [], 0) == [unclear.say]
  {
    hide Lines, Laters, FirstUnclear, AllergiesOf, GroupsOf, SoldOuts;
    TwoParts(clear, unclear);
    NoChoice(PickupScript.Line(clear));
  }

  /** The same with an allergy: the question about the unclear dish is held back behind
      the one for the ingredient, and with the answer to that it is lost. */
  lemma {:induction false} LostBehindAllergy(
    steps: seq<Step>, heard: Heard, parts: seq<Part>, answer: Heard, slots: Slots)
    requires RunOf(true, steps, [Said(heard, slots), SearchFound(Positions(parts, []), slots), Said(answer, slots)])
    requires FitsSuggestions(heard, []) && FitsSuggestions(answer, []) && answer.allergy.Read? && SaidTogether(parts)
    requires |AllergiesOf(parts, 0)| == 1 && GroupsOf(parts, 0) == [] && Laters(parts) == [] && Offered(parts) == []
    requires Full(slots.address)
    ensures |steps| == 3 && steps[1].turn.Some? && steps[1].turn.value.Say?
    ensures steps[1].now.afterAllergy == Questions(parts)
    ensures steps[2].turn == Some(CheckZone(slots.address))
    ensures NothingLeft(steps[2].now) && steps[2].now.carry == []
  {
    hide NextMoves, LeadOf, RunOf, Lines, Laters, Offered, Questions, Standing.Sound, Takes;
    var events := [Said(heard, slots), SearchFound(Positions(parts, []), slots), Said(answer, slots)];
    var stands := Together(true, parts);
    FoundTogether(true, steps, events, parts, slots);
    Asks(stands, slots, LeadOf(parts, [], [], 0), steps[1].turn.value, steps[1].now);
    StepAt(true, steps, events, 2, stands);
    LinesAreOk(parts, 0);
    AnswerCalls(stands, answer, slots, steps[2]);
    RunIsShort(true, steps, events);
  }

  /** An open allergy is asked for, and all stays as it is. */
  lemma {:induction false} Asks(ahead: Standing, slots: Slots, lead: seq<Sentence>, turn: Turn, now: Standing)
    requires NextMoves(ahead, slots, lead, turn, now) && ahead.Asking() && !ahead.SearchDue()
    requires ahead.awaiting == Guest && !ahead.complete
    ensures turn.Say? && now == ahead
  {
  }

  lemma {:induction false} AnswerCalls(was: Standing, answer: Heard, slots: Slots, step: Step)
    requires IsStep(was, step) && step.event == Said(answer, slots) && answer.allergy.Read? && Full(slots.address)
    requires |was.allergyFor| == 1 && was.groupFor == [] && was.later == [] && was.phase != Choose && was.cart != []
    requires !AnyPending(was.cart) && was.carry == [] && was.suggestions == []
    requires was.delivery.wanted && !was.delivery.useStored && !was.delivery.sameOpen && was.delivery.checked.None?
    ensures step.turn == Some(CheckZone(slots.address)) && NothingLeft(step.now) && step.now.carry == []
  {
    var item := was.allergyFor[0];
    var noted := was.cart[item].(note := answer.allergy.note);
    assert !AnyPending(was.cart[item := noted]);
    Calls(was.(cart := was.cart[item := noted], allergyFor := [], afterAllergy := []), slots,
          answer.allergy.said + was.afterAllergy, step.turn.value, step.now);
  }

  /** Such a sentence: a dish with an allergy that names no ingredient, and one the menu
      does not know. */
  lemma {:induction false} HeldWord(clear: Part, unclear: Part)
    requires Taken(clear) && clear.wish.Some? && clear.wish.value.kind.AllergyOpen? && clear.hit.required == []
    requires unclear.Unclear?
    ensures var parts := [clear, unclear];
            && SaidTogether(parts) && AllergiesOf(parts, 0) == [0] && GroupsOf(parts, 0) == []
            && Laters(parts) == [] && Offered(parts) == [] && Questions(parts) == [unclear.say]
  {
    hide Lines, Laters, FirstUnclear, AllergiesOf, GroupsOf, SoldOuts;
    TwoParts(clear, unclear);
    NoChoice(PickupScript.Line(clear));
  }

  lemma {:induction false} RunIsShort(wantsDelivery: bool, steps: seq<Step>, events: seq<Event>)
    requires RunOf(wantsDelivery, steps, events)
    ensures |steps| <= |events|
  {
  }

  lemma {:induction false} TwoParts(clear: Part, unclear: Part)
    requires Taken(clear) && !unclear.Clear?
    ensures var parts := [clear, unclear];
            && Lines(parts) == [PickupScript.Line(clear)] && Laters(parts) == [] && SoldOuts(parts) == []
            && FirstUnclear(parts) == Some(unclear)
            && AllergiesOf(parts, 0) == AsksAllergy(0, clear.wish) && GroupsOf(parts, 0) == AsksGroup(0, clear.wish)
  {
    var parts, one := [clear, unclear], [clear];
    assert parts[..0] == [] && parts[..1] == one && parts[..2] == parts;
    OneMorePart(parts, 0);
    OneMorePart(parts, 1);
    OneMoreOpened(parts, 0, 0);
    OneMoreOpened(parts, 1, 0);
  }

  lemma {:induction false} ThreeParts(clear: Part, unclear: Part, more: Part)
    requires Taken(clear) && !unclear.Clear? && !more.Clear?
    ensures var parts := [clear, unclear, more];
            && Lines(parts) == [PickupScript.Line(clear)] && Laters(parts) == [more.query] && SoldOuts(parts) == []
            && FirstUnclear(parts) == Some(unclear)
            && AllergiesOf(parts, 0) == AsksAllergy(0, clear.wish) && GroupsOf(parts, 0) == AsksGroup(0, clear.wish)
  {
    var parts, two := [clear, unclear, more], [clear, unclear];
    assert parts[..2] == two && parts[..3] == parts;
    TwoParts(clear, unclear);
    OneMorePart(parts, 2);
    OneMoreOpened(parts, 2, 0);
  }

  // ---- Lost at the draft or the lookup ----

  /** "die 13, zwei Suppen und Ente", then "das wars", with name and phone known. The part
      asked for later is searched, and what the search says of it is not spoken by the
      next call: the draft, or the lookup when it is to be delivered. */
  lemma {:induction false} LostAtDraftOrLookup(
    wantsDelivery: bool, steps: seq<Step>, heard: Heard, parts: seq<Part>, done: Heard, part: Part, slots: Slots)
    requires RunOf(wantsDelivery, steps, [Said(heard, slots), SearchFound(Positions(parts, []), slots),
                                          Said(done, slots), SearchFound(Single(part, [], []), slots)])
    requires FitsSuggestions(heard, []) && FitsSuggestions(done, Offered(parts)) && done.finishes && done.pick.None?
    requires SaidTogether(parts) && !AsksFirst(parts, 0) && |Laters(parts)| == 1 && Offered(parts) != []
    requires !Taken(part) && !part.Several? && slots.name.Some? && slots.phone.Some? && !Full(slots.address)
    ensures |steps| == 4 && steps[1].turn.Some? && steps[1].turn.value.Say?
    ensures steps[2].turn == Some(Search(Laters(parts)[0]))
    ensures steps[3].turn.Some? && if wantsDelivery then steps[3].turn.value.Lookup? else steps[3].turn.value.Draft?
    ensures steps[3].now.cart == Lines(parts) && NothingLeft(steps[3].now) && steps[3].now.carry == []
  {
    hide NextMoves, LeadOf, RunOf, Lines, Laters, Offered, Questions, Standing.Sound, Takes, AllergiesOf, GroupsOf;
    var events := [Said(heard, slots), SearchFound(Positions(parts, []), slots),
                   Said(done, slots), SearchFound(Single(part, [], []), slots)];
    var stands := Together(wantsDelivery, parts);
    FoundTogether(wantsDelivery, steps, events, parts, slots);
    Asks(stands, slots, LeadOf(parts, [], [], 0), steps[1].turn.value, steps[1].now);
    StepAt(wantsDelivery, steps, events, 2, stands);
    DoneSearches(stands, done, slots, steps[2]);
    StepAt(wantsDelivery, steps, events, 3, steps[2].now);
    AnswerIsLost(steps[2].now, part, slots, steps[3]);
    RunIsShort(wantsDelivery, steps, events);
  }

  /** The guest is done choosing, and a part of the sentence is still to be asked about. */
  lemma {:induction false} DoneSearches(was: Standing, done: Heard, slots: Slots, step: Step)
    requires IsStep(was, step) && step.event == Said(done, slots) && done.finishes && done.pick.None?
    requires was.phase == Choose && !was.Open() && !was.delivery.sameOpen && |was.later| == 1 && was.cart != []
    requires was.carry == [] && !was.complete
    ensures step.turn == Some(Search(was.later[0]))
    ensures step.now == was.(suggestions := [], phase := Customer, later := [],
                             awaiting := Result(Search(was.later[0])))
  {
    hide Standing.Sound;
    var ahead := was.(suggestions := [], phase := Customer);
    SoundPlaces(was);
    assert SaidWay(was, done, slots) == Goes(ahead, slots, []);
    assert was.later[1..] == [] && ahead.carry + [] == ahead.carry;
  }

  lemma {:induction false} AnswerIsLost(was: Standing, part: Part, slots: Slots, step: Step)
    requires IsStep(was, step) && step.event == SearchFound(Single(part, [], []), slots)
    requires !Taken(part) && !part.Several?
    requires was.replace.None? && was.reopen == [] && was.carry == [] && was.later == [] && was.phase == Customer
    requires was.cart != [] && !AnyPending(was.cart) && was.suggestions == [] && was.afterAllergy == [] && !was.Open()
    requires !was.delivery.lookedUp && !was.delivery.useStored && was.delivery.checked.None?
    requires slots.name.Some? && slots.phone.Some? && !Full(slots.address)
    ensures step.turn.Some? && if was.delivery.wanted then step.turn.value.Lookup? else step.turn.value.Draft?
    ensures step.now.cart == was.cart && NothingLeft(step.now) && step.now.carry == []
  {
    hide Standing.Sound, NextMoves;
    assert was.cart + [] == was.cart;
    var ahead := was.(awaiting := Guest);
    var lead := LeadOfOne(part, [], [], false, []);
    assert BehindOne(part, false, ahead.(reopen := [])).(carry := []) == ahead;
    assert FoundWay(was, step.event.found, slots) == Goes(ahead, slots, lead);
    Calls(ahead, slots, lead, step.turn.value, step.now);
  }

  /** Such a sentence: a dish that is to be had, one with several hits, and a third one. */
  lemma {:induction false} LostLater(clear: Part, several: Part, more: Part)
    requires Taken(clear) && clear.wish.None? && clear.hit.required == []
    requires several.Several? && PartOk(several) && !more.Clear? && PartOk(more)
    ensures var parts := [clear, several, more];
            && SaidTogether(parts) && !AsksFirst(parts, 0) && Laters(parts) == [more.query]
            && Offered(parts) == several.hits && several.hits != []
  {
    hide Lines, Laters, FirstUnclear, AllergiesOf, GroupsOf, SoldOuts;
    ThreeParts(clear, several, more);
    NoChoice(PickupScript.Line(clear));
  }

  // ---- The exception ----

  /** The guest makes the mandatory choice, the zone check it leads to is refused, and the
      next sentence is taken for an answer to a choice that is not open any more. */
  lemma {:induction false} RefusedZoneBreaksTheCall(
    steps: seq<Step>, heard: Heard, part: Part, chosen: Heard, next: Heard, slots: Slots)
    requires RunOf(true, steps, [Said(heard, slots), SearchFound(Single(part, [], []), slots), Said(chosen, slots),
                                 Refused(OutOfZone), Said(next, slots)])
    requires FitsSuggestions(heard, []) && FitsSuggestions(chosen, []) && FitsSuggestions(next, [])
    requires Taken(part) && part.wish.None? && |part.hit.required| == 1 && Full(slots.address)
    requires chosen.option.Some? && chosen.option.value in part.hit.required[0].options
    ensures |steps| == 5 && steps[1].turn.Some? && steps[1].turn.value.Say?
    ensures steps[2].turn == Some(CheckZone(slots.address)) && steps[4].turn == Some(Broken)
  {
    hide RunOf, IsStep, AnyPending;
    var events := [Said(heard, slots), SearchFound(Single(part, [], []), slots), Said(chosen, slots),
                   Refused(OutOfZone), Said(next, slots)];
    FirstStep(true, steps, events);
    StepAt(true, steps, events, 1, Searching(true, heard));
    AsksTheChoice(heard, part, slots, steps[1]);
    StepAt(true, steps, events, 2, steps[1].now);
    ChoiceChecksZone(steps[1].now, chosen, slots, steps[2]);
    StepAt(true, steps, events, 3, steps[2].now);
    StaysInTheChoices(steps[2].now, steps[3]);
    StepAt(true, steps, events, 4, steps[3].now);
    BreaksIff(steps[3].now, steps[4]);
    RunIsShort(true, steps, events);
  }

  /** One line with one open choice is asked for. */
  predicate OneChoice(s: Standing, group: Group) {
    && |s.cart| == 1 && s.cart[0].pending == [group] && s.phase == Options && s.later == [] && !s.Open()
    && s.carry == [] && s.suggestions == [] && s.awaiting == Guest && s.readbackFor.None? && !s.complete
    && s.delivery == Start(true).delivery
  }

  lemma {:induction false} AsksTheChoice(heard: Heard, part: Part, slots: Slots, step: Step)
    requires IsStep(Searching(true, heard), step) && step.event == SearchFound(Single(part, [], []), slots)
    requires Taken(part) && part.wish.None? && |part.hit.required| == 1
    ensures step.turn.Some? && step.turn.value.Say? && OneChoice(step.now, part.hit.required[0])
  {
    hide Standing.Sound, NextMoves;
    var line := Fresh(part.hit, part.quantity);
    var ahead := Start(true).(cart := [line]);
    assert [] + [line] == [line] && ahead.cart[0].pending != [];
    assert BehindOne(part, false, Start(true)) == ahead;
    var lead := LeadOfOne(part, [], [], false, []);
    assert FoundWay(Searching(true, heard), step.event.found, slots) == Goes(ahead, slots, lead);
    ChoiceIsAsked(ahead, slots, lead, step.turn.value, step.now);
  }

  lemma {:induction false} ChoiceIsAsked(ahead: Standing, slots: Slots, lead: seq<Sentence>, turn: Turn, now: Standing)
    requires NextMoves(ahead, slots, lead, turn, now) && !ahead.Asking() && AnyPending(ahead.cart)
    ensures turn.Say? && now == ahead.(phase := Options, awaiting := Guest)
  {
  }

  lemma {:induction false} ChoiceChecksZone(was: Standing, chosen: Heard, slots: Slots, step: Step)
    requires |was.cart| == 1 && |was.cart[0].pending| == 1 && OneChoice(was, was.cart[0].pending[0])
    requires IsStep(was, step) && step.event == Said(chosen, slots) && Full(slots.address)
    requires chosen.option.Some? && chosen.option.value in was.cart[0].pending[0].options
    ensures step.turn == Some(CheckZone(slots.address)) && step.now.awaiting == Result(CheckZone(slots.address))
    ensures step.now.phase == Options && !AnyPending(step.now.cart) && !step.now.Open() && step.now.later == []
    ensures step.now.suggestions == [] && step.now.readbackFor.None? && !step.now.delivery.sameOpen
  {
    hide Standing.Sound, NextMoves;
    assert AnyPending(was.cart) && FirstPending(was.cart) == 0;
    var ahead := was.(cart := was.cart[0 := Answered(was.cart[0], chosen.option.value)]);
    assert ahead.cart[0].pending == [];
    SoundPlaces(was);
    assert SaidWay(was, chosen, slots) == Goes(ahead, slots, []);
    ZoneStays(ahead, slots, [], step.turn.value, step.now);
  }

  lemma {:induction false} ZoneStays(ahead: Standing, slots: Slots, lead: seq<Sentence>, turn: Turn, now: Standing)
    requires NextMoves(ahead, slots, lead, turn, now) && ahead.ZoneDue(slots)
    requires !ahead.complete && ahead.phase == Options
    ensures turn == CheckZone(slots.address) && now == ahead.(awaiting := Result(turn))
  {
  }

  lemma {:induction false} StaysInTheChoices(was: Standing, step: Step)
    requires IsStep(was, step) && step.event == Refused(OutOfZone) && was.phase == Options
    ensures step.now == was.(awaiting := Guest, delivery := was.delivery.(wanted := false, useStored := false))
  {
    hide Standing.Sound;
  }
}
