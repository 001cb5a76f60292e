/** One call of the order dialogue (sim/scripted_order.py): the object that keeps the
    cart, the open questions and the draft that was read out. */
module PickupCall {
  import opened Wrappers
  import opened PickupScript
  import opened PickupSteps
  import opened PickupSound

  class Dialogue {
    var cart: seq<CartItem>
    var phase: Phase
    var delivery: Delivery
    var suggestions: seq<Hit>
    var suggestionWish: Option<string>
    var readbackFor: Option<string>
    var later: seq<string>
    var carry: seq<Sentence>
    var allergyFor: seq<nat>
    var groupFor: seq<OpenGroup>
    var afterAllergy: seq<Sentence>
    var reopen: seq<Hit>
    var replace: Option<Fix>
    var complete: bool
    /** Whose turn it is, as the caller knows it. */
    var awaiting: Awaiting

    function Now(): Standing
      reads this
    {
      Standing(cart, phase, delivery, suggestions, suggestionWish, readbackFor, later, carry,
               allergyFor, groupFor, afterAllergy, reopen, replace, complete, awaiting)
    }

    predicate Valid()
      reads this
    {
      Now().Sound()
    }

    constructor (wantsDelivery: bool)
      ensures Valid() && Now() == Start(wantsDelivery)
    {
      cart, phase, suggestions, suggestionWish, readbackFor := [], Dishes, [], None, None;
      delivery := Delivery(wantsDelivery, false, None, false, false, None);
      later, carry, allergyFor, groupFor, afterAllergy := [], [], [], [], [];
      reopen, replace, complete, awaiting := [], None, false, Guest;
    }

    // ---- The next step ----

    /** The line and the group that are asked about. */
    method OpenOption() returns (item: nat, group: Group)
      requires AnyPending(cart)
      ensures item < |cart| && item == FirstPending(cart) && group == cart[item].pending[0]
    {
      item := 0;
      while cart[item].pending == []
        invariant item < |cart| && forall i :: 0 <= i < item ==> cart[i].pending == []
        invariant exists i :: item <= i < |cart| && cart[i].pending != []
        decreases |cart| - item
      {
        item := item + 1;
      }
      group := cart[item].pending[0];
    }

    /** The next step with the dishes settled: address, name, phone, draft. */
    method NextAddress(slots: Slots, lead: seq<Sentence>) returns (turn: Turn)
      requires Now().Settled() && !complete && awaiting == Guest
      modifies `phase, `delivery, `awaiting
      ensures NextMoves(old(Now()), slots, lead, turn, Now())
    {
      if delivery.wanted && !delivery.useStored && Full(slots.address) && delivery.checked != Some(slots.address) {
        turn := CheckZone(slots.address);
        awaiting := Result(turn);
        return;
      }
      if phase != Customer {
        phase := More;
        turn := Say(lead + [AskMore]);
        return;
      }
      if delivery.wanted {
        if !delivery.lookedUp && slots.phone.Some? {
          delivery := delivery.(lookedUp := true);
          turn := Lookup(slots.name);
          awaiting := Result(turn);
          return;
        }
        if !delivery.useStored && delivery.checked != Some(slots.address) {
          turn := Say(lead + [AskAddress]);
          return;
        }
      }
      if slots.name.None? && !delivery.useStored {
        turn := Say(lead + [AskName]);
        return;
      }
      if slots.phone.None? {
        turn := Say(lead + [AskPhone]);
        return;
      }
      turn := Draft(slots.phone.value, slots.name, PlaceOf(delivery, slots), cart);
      awaiting := Result(turn);
    }

    /** The same with no question about a dish open. */
    method NextOrder(slots: Slots, lead: seq<Sentence>) returns (turn: Turn)
      requires !Now().Asking() && awaiting == Guest
      modifies `phase, `complete, `delivery, `awaiting
      ensures NextMoves(old(Now()), slots, lead, turn, Now())
    {
      if complete && !AnyPending(cart) {
        complete := false;
        phase := Customer;
      }
      if AnyPending(cart) {
        phase := Options;
        var item, group := OpenOption();
        turn := Say(lead + [AskOption(item, group)]);
        return;
      }
      if cart == [] {
        phase := Dishes;
        turn := Say(lead + [AskWhat]);
        return;
      }
      turn := NextAddress(slots, lead);
    }

    /** The next step from what is settled. `lead` is spoken with it, or goes along to
        the next search; a call of another tool leaves it out. */
    method Next(slots: Slots, lead: seq<Sentence>) returns (turn: Turn)
      requires awaiting == Guest
      modifies `later, `carry, `phase, `complete, `delivery, `awaiting
      ensures NextMoves(old(Now()), slots, lead, turn, Now())
    {
      hide NextMoves;
      ghost var was := Now();
      if allergyFor != [] || groupFor != [] {
        var question := if allergyFor != [] then AskAllergy(allergyFor) else groupFor[0].question;
        turn := Say(if question in lead then lead else lead + [question]);
        QuestionMoves(was, slots, lead);
        return;
      }
      if later != [] && phase != Choose {
        SearchMoves(was, slots, lead);
        carry := carry + lead;
        turn := Search(later[0]);
        later := later[1..];
        awaiting := Result(turn);
        return;
      }
      if phase == Choose {
        turn := Say(if lead == [] then [AskWhat] else lead);
        QuestionMoves(was, slots, lead);
        return;
      }
      turn := NextOrder(slots, lead);
    }

    // ---- Dishes ----

    /** The wish for line `item`: an option or a note changes the line, what has to be
        asked first is remembered for it. */
    method ApplyWish(item: nat, wish: Option<Wish>)
      requires item < |cart|
      modifies `cart, `allergyFor, `groupFor
      ensures cart == old(cart)[item := Wished(old(cart)[item], wish)]
      ensures allergyFor == old(allergyFor) + AsksAllergy(item, wish)
      ensures groupFor == old(groupFor) + AsksGroup(item, wish)
    {
      if wish.None? {
        return;
      }
      var line := cart[item];
      if wish.value.note.Some? {
        line := line.(note := wish.value.note);
      }
      match wish.value.kind {
        case Chosen(group, option) =>
          line := line.(options := line.options + [Choice(group, option)], pending := Without(line.pending, group));
        case Groups(groups, question) => groupFor := groupFor + [OpenGroup(item, groups, question)];
        case AllergyOpen => allergyFor := allergyFor + [item];
        case Note(text) => line := line.(note := Some(text));
        case AllergyNamed(removal) => line := line.(note := removal);
        case Unknown =>
      }
      cart := cart[item := line];
    }

    method Add(hit: Hit, quantity: nat, wish: Option<Wish>)
      modifies `cart, `allergyFor, `groupFor
      ensures cart == old(cart) + [Wished(Fresh(hit, quantity), wish)]
      ensures allergyFor == old(allergyFor) + AsksAllergy(|old(cart)|, wish)
      ensures groupFor == old(groupFor) + AsksGroup(|old(cart)|, wish)
    {
      cart := cart + [CartItem(hit, quantity, [], hit.required, None)];
      ApplyWish(|cart| - 1, wish);
    }

    /** A clear hit becomes a line; anything else is answered with a sentence. */
    method Take(part: Part) returns (said: Option<Sentence>)
      modifies `cart, `phase, `suggestions, `suggestionWish, `allergyFor, `groupFor
      ensures cart == old(cart) + TakenLine(part)
      ensures allergyFor == old(allergyFor) + OpensAllergy(part, |old(cart)|)
      ensures groupFor == old(groupFor) + OpensGroup(part, |old(cart)|)
      ensures phase == if part.Several? then Choose else old(phase)
      ensures suggestions == if part.Several? then part.hits else old(suggestions)
      ensures suggestionWish == if part.Several? then part.raw else old(suggestionWish)
      ensures said == if Taken(part) then None
                      else if part.Clear? then Some(SoldOut(part.hit)) else Some(QuestionOf(part))
    {
      match part
      case Clear(_, hit, quantity, wish, _) =>
        if hit.soldOut {
          return Some(SoldOut(hit));
        }
        Add(hit, quantity, wish);
        return None;
      case Several(_, hits, raw) =>
        phase := Choose;
        suggestions := hits;
        suggestionWish := raw;
        return Some(Offer(hits));
      case Unclear(_, say) =>
        return Some(say);
    }

    /** One part of a sentence with several: the first that is not clear is asked about,
        the others later. */
    method TakePart(part: Part, asked: bool) returns (said: Option<Sentence>)
      modifies `cart, `phase, `suggestions, `suggestionWish, `allergyFor, `groupFor, `later
      ensures cart == old(cart) + TakenLine(part)
      ensures later == old(later) + (if !part.Clear? && asked then [part.query] else [])
      ensures allergyFor == old(allergyFor) + OpensAllergy(part, |old(cart)|)
      ensures groupFor == old(groupFor) + OpensGroup(part, |old(cart)|)
      ensures phase == if part.Several? && !asked then Choose else old(phase)
      ensures suggestions == if part.Several? && !asked then part.hits else old(suggestions)
      ensures suggestionWish == if part.Several? && !asked then part.raw else old(suggestionWish)
      ensures said == if Taken(part) || (!part.Clear? && asked) then None
                      else Some(if part.Clear? then SoldOut(part.hit) else QuestionOf(part))
    {
      if !part.Clear? && asked {
        later := later + [part.query];
        return None;
      }
      said := Take(part);
    }

    /** The parts of a sentence that names several dishes, each to its place. */
    method TakeAll(parts: seq<Part>) returns (soldOut: seq<Sentence>, unclear: seq<Sentence>)
      requires allergyFor == [] && groupFor == [] && suggestions == []
      requires forall i :: 0 <= i < |parts| ==> PartOk(parts[i])
      modifies `cart, `phase, `suggestions, `suggestionWish, `allergyFor, `groupFor, `later
      ensures soldOut == SoldOuts(parts) && unclear == Questions(parts)
      ensures Now() == Behind(parts, old(Now())).(afterAllergy := old(afterAllergy))
    {
      hide Lines, Laters, SoldOuts, Questions, FirstUnclear, Offered, OfferedWish, AllergiesOf, GroupsOf;
      hide TakenLine, OpensAllergy, OpensGroup, QuestionOf, HeldOf, Behind;
      ghost var was := Now();
      soldOut, unclear := [], [];
      NothingPlaced(was);
      for i := 0 to |parts|
        invariant Placed(parts[..i], was, Now(), soldOut, unclear)
      {
        ghost var before, soldOutBefore, unclearBefore := Now(), soldOut, unclear;
        var part := parts[i];
        var said := TakePart(part, unclear != []);
        if part.Clear? && said.Some? {
          soldOut := soldOut + [said.value];
        } else if said.Some? {
          unclear := [said.value];
        }
        OneMorePlaced(parts, i, was, before, soldOutBefore, unclearBefore, Now(), soldOut, unclear);
      }
      assert parts[..|parts|] == parts;
    }

    method TakeCarry() returns (sentences: seq<Sentence>)
      modifies `carry
      ensures sentences == old(carry) && carry == []
    {
      sentences := carry;
      carry := [];
    }

    // ---- Results of the search ----

    method Restart() returns (turn: Turn)
      modifies `cart, `phase
      ensures cart == [] && phase == Dishes && turn == Say([Restarted])
    {
      cart := [];
      phase := Dishes;
      turn := Say([Restarted]);
    }

    /** Puts a dish where another line stood. */
    method Swap(fix: Fix, hit: Hit)
      requires fix.at < |cart|
      modifies `cart, `allergyFor, `groupFor
      ensures allergyFor == old(allergyFor) && groupFor == old(groupFor)
      ensures cart == old(cart)[fix.at := Corrected(old(cart)[fix.at], hit, fix.quantity)]
    {
      var line := cart[fix.at];
      Add(hit, if fix.quantity.Some? && fix.quantity.value > 0 then fix.quantity.value else line.quantity, None);
      var last := cart[|cart| - 1];
      cart := cart[..|cart| - 1];
      if last.note.None? {
        last := last.(note := line.note);
      }
      cart := cart[fix.at := last];
    }

    /** What a correction leads to. */
    method Replaced(fix: Fix, found: Found, slots: Slots) returns (turn: Turn)
      requires fix.at < |cart| && awaiting == Guest && replace.None?
      modifies `cart, `later, `carry, `phase, `complete, `delivery, `awaiting, `allergyFor, `groupFor
      ensures Takes(CorrectionWay(old(Now()), fix, found, slots), Some(turn), Now())
    {
      if found.Positions? || !found.part.Clear? {
        turn := Restart();
        assert [] + [Restarted] == [Restarted];
        return;
      }
      if found.part.hit.soldOut {
        turn := Restart();
        turn := Say(found.say + turn.sentences);
        return;
      }
      Swap(fix, found.part.hit);
      complete := true;
      turn := Next(slots, []);
    }

    /** Sorts in all dishes of a sentence and returns what is to be spoken. */
    method TakePositions(parts: seq<Part>, say: seq<Sentence>) returns (lead: seq<Sentence>)
      requires allergyFor == [] && groupFor == [] && suggestions == [] && afterAllergy == []
      requires forall i :: 0 <= i < |parts| ==> PartOk(parts[i])
      modifies `cart, `phase, `suggestions, `suggestionWish, `allergyFor, `groupFor, `later, `carry, `afterAllergy
      ensures Now() == Behind(parts, old(Now())).(carry := [])
      ensures lead == LeadOf(parts, say, old(carry), |old(cart)|)
    {
      var soldOut, unclear := TakeAll(parts);
      if (allergyFor != [] || groupFor != []) && unclear != [] {
        afterAllergy := unclear;
        unclear := [];
      }
      var carried := TakeCarry();
      lead := carried + say + soldOut + unclear;
    }

    /** A single part to its place, with the wish of the question that was open. */
    method TakeSingle(part: Part, say: seq<Sentence>, tail: seq<Sentence>, again: seq<Hit>)
      returns (lead: seq<Sentence>)
      requires allergyFor == [] && groupFor == []
      modifies `cart, `phase, `suggestions, `suggestionWish, `allergyFor, `groupFor, `carry
      ensures var carries := Carries(again, part, old(suggestionWish));
              && Now() == BehindOne(part, carries, old(Now())).(carry := [])
              && lead == LeadOfOne(part, say, tail, carries, old(carry))
    {
      hide AsksAllergy, AsksGroup, Wished;
      var carries := Carries(again, part, suggestionWish);
      var said: Option<Sentence> := None;
      if carries {
        Add(part.hit, part.quantity, part.carried);
      } else {
        said := Take(part);
      }
      var carried := TakeCarry();
      lead := carried + if said.Some? then [said.value] else say + if carries then tail else [];
    }

    /** What was found to its place, and on. */
    method TakeFound(found: Found, slots: Slots) returns (turn: Turn)
      requires allergyFor == [] && groupFor == [] && suggestions == [] && afterAllergy == [] && FoundOk(found)
      requires replace.Some? ==> replace.value.at < |cart|
      modifies `cart, `phase, `suggestions, `suggestionWish, `allergyFor, `groupFor, `later
      modifies `carry, `afterAllergy, `complete, `delivery, `awaiting, `reopen, `replace
      ensures Takes(FoundWay(old(Now()), found, slots), Some(turn), Now())
    {
      hide NextMoves, Behind, BehindOne, LeadOf, LeadOfOne, Carries, CorrectionWay;
      awaiting := Guest;
      if replace.Some? {
        var fix := replace.value;
        replace := None;
        turn := Replaced(fix, found, slots);
        return;
      }
      var again := reopen;
      reopen := [];
      if found.Positions? {
        var lead := TakePositions(found.parts, found.say);
        turn := Next(slots, lead);
      } else {
        var lead := TakeSingle(found.part, found.say, found.tail, again);
        turn := Next(slots, lead);
      }
    }

    /** The result of a search, whatever it was for. */
    method OnSearch(found: Found, slots: Slots) returns (turn: Turn)
      requires Valid() && Possible(Now(), SearchFound(found, slots))
      modifies `cart, `phase, `suggestions, `suggestionWish, `allergyFor, `groupFor, `later
      modifies `carry, `afterAllergy, `complete, `delivery, `awaiting, `reopen, `replace
      ensures Takes(FoundWay(old(Now()), found, slots), Some(turn), Now()) && Valid()
    {
      hide NextMoves, Takes, FoundWay, Standing.Sound;
      ghost var was := Now();
      SearchStands(was);
      turn := TakeFound(found, slots);
      EventIsSound(was, SearchFound(found, slots), Some(turn), Now());
    }

    /** The question that was open still stands. */
    method Reopen(say: Option<Sentence>, notFound: bool) returns (turn: Turn)
      modifies `phase, `suggestions, `carry, `reopen
      ensures turn == Say(old(carry) + (if say.None? || notFound then [] else [say.value]) + [Offer(old(reopen))])
      ensures Now() == old(Now()).(suggestions := old(reopen), reopen := [], phase := Choose, carry := [])
    {
      suggestions := reopen;
      reopen := [];
      phase := Choose;
      var told := TakeCarry();
      turn := Say(told + (if say.None? || notFound then [] else [say.value]) + [Offer(suggestions)]);
    }

    /** The correction that was not found starts the order again. */
    method RestartWith(say: Option<Sentence>) returns (turn: Option<Turn>)
      modifies `cart, `phase
      ensures turn == if say.None? then None else Some(Say([say.value, Restarted]))
      ensures Now() == if say.None? then old(Now()) else old(Now()).(cart := [], phase := Dishes)
    {
      turn := None;
      if say.Some? {
        var again := Restart();
        turn := Some(Say([say.value] + again.sentences));
        assert [say.value] + [Restarted] == [say.value, Restarted];
      }
    }

    method TakeNothing(say: Option<Sentence>, notFound: bool) returns (turn: Option<Turn>, carried: seq<Sentence>)
      requires replace.Some? ==> reopen == [] && carry == []
      modifies `cart, `phase, `suggestions, `carry, `awaiting, `reopen, `replace
      ensures Takes(FailedWay(old(Now()), say, notFound), turn, Now())
      ensures carried == if turn.None? then old(carry) else []
    {
      awaiting := Guest;
      turn, carried := None, [];
      if replace.Some? {
        replace := None;
        turn := RestartWith(say);
      } else if reopen != [] {
        var again := Reopen(say, notFound);
        turn := Some(again);
      } else {
        carried := TakeCarry();
      }
    }

    /** A search that failed. Without a turn the caller goes on, and speaks what was
        carried along. */
    method OnSearchFailed(say: Option<Sentence>, notFound: bool) returns (turn: Option<Turn>, carried: seq<Sentence>)
      requires Valid() && Possible(Now(), SearchFailed(say, notFound))
      modifies `cart, `phase, `suggestions, `carry, `awaiting, `reopen, `replace
      ensures Takes(FailedWay(old(Now()), say, notFound), turn, Now()) && Valid()
      ensures carried == if turn.None? then old(carry) else []
    {
      hide Takes, FailedWay, Standing.Sound;
      ghost var was := Now();
      SearchStands(was);
      turn, carried := TakeNothing(say, notFound);
      EventIsSound(was, SearchFailed(say, notFound), turn, Now());
    }

    // ---- Answers to open questions ----

    /** What was held back is said as soon as nothing comes before it. */
    method SayDeferred(said: seq<Sentence>, slots: Slots) returns (turn: Turn)
      requires awaiting == Guest
      modifies `afterAllergy, `later, `carry, `phase, `complete, `delivery, `awaiting
      ensures Takes(Release(old(Now()), said, slots), Some(turn), Now())
    {
      hide NextMoves;
      if allergyFor != [] || groupFor != [] {
        turn := Next(slots, said);
        return;
      }
      var deferred := afterAllergy;
      afterAllergy := [];
      turn := Next(slots, said + deferred);
    }

    /** The answer to "Wogegen?" for the first line that waits for one. */
    method AnswerAllergy(heard: AllergyHeard, slots: Slots) returns (turn: Turn)
      requires allergyFor != [] && allergyFor[0] < |cart| && awaiting == Guest
      modifies `cart, `phase, `allergyFor, `later, `carry, `afterAllergy, `complete, `delivery, `awaiting
      ensures Takes(AllergyWay(old(Now()), heard, slots), Some(turn), Now())
    {
      hide NextMoves, Release;
      if heard.NotRead? {
        return Say([AskAllergy(allergyFor)]);
      }
      var item := allergyFor[0];
      cart := cart[item := cart[item].(note := heard.note)];
      if heard.Asked? {
        return Say([AskAllergy(allergyFor)]);
      }
      allergyFor := allergyFor[1..];
      turn := SayDeferred(heard.said, slots);
    }

    /** The answer to the question in which of its groups an option is meant. */
    method AnswerGroup(heard: GroupHeard, slots: Slots) returns (turn: Turn)
      requires groupFor != [] && groupFor[0].item < |cart| && awaiting == Guest
      modifies `cart, `phase, `allergyFor, `groupFor, `later, `carry, `afterAllergy, `complete, `delivery, `awaiting
      ensures Takes(GroupWay(old(Now()), heard, slots), Some(turn), Now())
    {
      hide NextMoves, Release, Wished, AsksAllergy, AsksGroup;
      var open := groupFor[0];
      if heard.NoGroup? {
        return Say([open.question]);
      }
      groupFor := groupFor[1..];
      if heard.Dropped? {
        turn := SayDeferred([], slots);
        return;
      }
      ApplyWish(open.item, heard.wish);
      turn := SayDeferred(heard.said, slots);
    }

    /** The answer to a mandatory choice. */
    method AnswerOption(option: Option<string>, slots: Slots) returns (turn: Turn)
      requires awaiting == Guest
      modifies `cart, `phase, `later, `carry, `complete, `delivery, `awaiting
      ensures Takes(OptionWay(old(Now()), option, slots), Some(turn), Now())
    {
      hide NextMoves;
      if !AnyPending(cart) {
        return Broken;
      }
      var item, group := OpenOption();
      if option.None? || option.value !in group.options {
        return Say([AskOption(item, group)]);
      }
      cart := cart[item := Answered(cart[item], option.value)];
      turn := Next(slots, []);
    }

    /** A suggestion that is out today is said so and the rest offered. */
    method OfferRest(at: nat, slots: Slots) returns (turn: Turn)
      requires at < |suggestions| && suggestions[at].soldOut && awaiting == Guest
      modifies `phase, `suggestions, `later, `carry, `complete, `delivery, `awaiting
      ensures Takes(RestWay(old(Now()), at, slots), Some(turn), Now())
    {
      hide NextMoves;
      var hit := suggestions[at];
      suggestions := suggestions[..at] + suggestions[at + 1..];
      if suggestions != [] {
        return Say([SoldOut(hit), Offer(suggestions)]);
      }
      phase := Dishes;
      turn := Next(slots, [SoldOut(hit)]);
    }

    /** Any other suggestion comes into the cart. */
    method TakeChoice(at: nat, heard: Heard, slots: Slots) returns (turn: Turn)
      requires at < |suggestions| && awaiting == Guest
      modifies `cart, `phase, `suggestions, `allergyFor, `groupFor, `later, `carry, `complete, `delivery, `awaiting
      ensures Takes(PickWay(old(Now()), at, heard, slots), Some(turn), Now())
    {
      hide NextMoves, RestWay, Wished, AsksAllergy, AsksGroup;
      var hit := suggestions[at];
      if hit.soldOut {
        turn := OfferRest(at, slots);
        return;
      }
      Add(hit, heard.quantity, heard.wish);
      suggestions := [];
      phase := Dishes;
      turn := Next(slots, heard.wishSaid);
    }

    /** The answer to suggestions: one of them, none of them, or another dish. */
    method AnswerChoice(heard: Heard, slots: Slots) returns (turn: Turn)
      requires FitsSuggestions(heard, suggestions) && awaiting == Guest
      modifies `cart, `phase, `suggestions, `allergyFor, `groupFor, `later, `carry, `complete, `delivery,
               `awaiting, `reopen
      ensures Takes(ChoiceWay(old(Now()), heard, slots), Some(turn), Now())
    {
      hide NextMoves;
      var other := if heard.finishes then None else heard.other;
      var at := if heard.pick.Some? then heard.pick else if other.Some? then heard.otherPick else None;
      if at.Some? {
        turn := TakeChoice(at.value, heard, slots);
        return;
      }
      if heard.finishes || heard.rejects {
        suggestions := [];
        if other.Some? {
          phase := Dishes;
          turn := Search(other.value);
          awaiting := Result(turn);
          return;
        }
        phase := if heard.finishes && cart != [] then Customer else Dishes;
        turn := Next(slots, []);
        return;
      }
      reopen := suggestions;
      phase := Dishes;
      suggestions := [];
      turn := Search(heard.text);
      awaiting := Result(turn);
    }

    /** A sentence of the guest in each phase, with no question open in front. */
    method AnswerPhase(heard: Heard, slots: Slots) returns (turn: Turn)
      requires FitsSuggestions(heard, suggestions) && awaiting == Guest
      modifies `cart, `phase, `suggestions, `allergyFor, `groupFor, `later, `carry, `complete, `delivery,
               `awaiting, `reopen
      ensures Takes(PhaseWay(old(Now()), heard, slots), Some(turn), Now())
    {
      hide NextMoves;
      match phase
      case Choose =>
        turn := AnswerChoice(heard, slots);
      case Options =>
        turn := AnswerOption(heard.option, slots);
      case More =>
        if heard.done {
          phase := Customer;
          turn := Next(slots, []);
        } else {
          turn := Search(heard.text);
          awaiting := Result(turn);
        }
      case Customer =>
        turn := Next(slots, []);
      case Dishes =>
        turn := Search(heard.text);
        awaiting := Result(turn);
    }

    method Answer(heard: Heard, slots: Slots) returns (turn: Turn)
      requires FitsSuggestions(heard, suggestions) && Now().PlacesOk() && awaiting == Guest
      modifies `cart, `phase, `suggestions, `allergyFor, `groupFor, `later, `carry, `afterAllergy
      modifies `complete, `delivery, `awaiting, `reopen
      ensures Takes(SaidWay(old(Now()), heard, slots), Some(turn), Now())
    {
      hide NextMoves, AllergyWay, GroupWay, PhaseWay;
      if delivery.sameOpen {
        delivery := delivery.(sameOpen := false, useStored := heard.agrees);
        turn := Next(slots, []);
      } else if allergyFor != [] {
        turn := AnswerAllergy(heard.allergy, slots);
      } else if groupFor != [] {
        turn := AnswerGroup(heard.group, slots);
      } else {
        turn := AnswerPhase(heard, slots);
      }
    }

    /** A sentence of the guest while no order is read out. */
    method OnCustomer(heard: Heard, slots: Slots) returns (turn: Turn)
      requires Valid() && Possible(Now(), Said(heard, slots))
      modifies `cart, `phase, `suggestions, `allergyFor, `groupFor, `later, `carry, `afterAllergy
      modifies `complete, `delivery, `awaiting, `reopen
      ensures Takes(SaidWay(old(Now()), heard, slots), Some(turn), Now()) && Valid()
    {
      hide NextMoves, Takes, SaidWay, Standing.Sound;
      ghost var was := Now();
      SoundPlaces(was);
      turn := Answer(heard, slots);
      EventIsSound(was, Said(heard, slots), Some(turn), Now());
    }

    // ---- Delivery ----

    method WantDelivery()
      requires Valid() && awaiting == Guest
      modifies `delivery
      ensures Now() == old(Now()).(delivery := old(delivery).(wanted := true)) && Valid()
    {
      delivery := delivery.(wanted := true);
    }

    /** What the lookup of the guest said: an address on file, and the question for it. */
    method OnLookup(stored: Option<string>, say: Option<Sentence>, slots: Slots) returns (turn: Turn)
      requires Valid() && Possible(Now(), LookedUp(stored, say, slots))
      modifies `later, `carry, `phase, `complete, `delivery, `awaiting
      ensures Takes(LookupWay(old(Now()), stored, say, slots), Some(turn), Now()) && Valid()
    {
      ghost var was := Now();
      awaiting := Guest;
      if stored.Some? && say.Some? {
        delivery := delivery.(stored := stored, sameOpen := true);
        turn := Say([say.value]);
      } else {
        turn := Next(slots, []);
      }
      EventIsSound(was, LookedUp(stored, say, slots), Some(turn), Now());
    }

    /** The zone check accepted the address it was asked for. */
    method OnZone(slots: Slots) returns (turn: Turn)
      requires Valid() && Possible(Now(), ZoneAccepted(slots))
      modifies `later, `carry, `phase, `complete, `delivery, `awaiting
      ensures Takes(ZoneWay(old(Now()), slots), Some(turn), Now()) && Valid()
    {
      ghost var was := Now();
      awaiting := Guest;
      delivery := delivery.(checked := Some(slots.address));
      turn := Next(slots, []);
      EventIsSound(was, ZoneAccepted(slots), Some(turn), Now());
    }

    /** The tool refused the order. */
    method OnOrderRefused(code: Code)
      requires Valid() && Possible(Now(), Refused(code))
      modifies `phase, `delivery, `awaiting
      ensures Now() == BehindRefusal(old(Now()), code) && Valid()
    {
      RefusedIsSound(Now(), code);
      awaiting := Guest;
      match code {
        case OutOfZone =>
          delivery := delivery.(wanted := false, useStored := false);
          phase := if phase == Dishes then More else phase;
        case BelowMinimum => phase := More;
        case InvalidDraft => delivery := delivery.(useStored := false);
        case OtherCode =>
      }
    }

    // ---- Read-back ----

    /** A corrected address at the read-back: the draft is taken back. */
    method OnNewAddress(slots: Slots) returns (turn: Turn)
      requires Valid() && Possible(Now(), NewAddress(slots))
      modifies `readbackFor, `later, `carry, `phase, `complete, `delivery, `awaiting
      ensures NextMoves(old(Now()).(readbackFor := None), slots, [], turn, Now()) && Valid()
    {
      ghost var was := Now();
      readbackFor := None;
      turn := Next(slots, []);
      EventIsSound(was, NewAddress(slots), Some(turn), Now());
    }

    method OnDraft(id: string, readback: Sentence) returns (turn: Turn)
      requires Valid() && Possible(Now(), Drafted(id, readback))
      modifies `readbackFor, `awaiting
      ensures turn == Say([readback]) && Now() == old(Now()).(awaiting := Guest, readbackFor := Some(id)) && Valid()
    {
      awaiting := Guest;
      readbackFor := Some(id);
      turn := Say([readback]);
    }

    method AnswerReadback(yes: bool, fix: Option<Fix>) returns (turn: Turn)
      requires readbackFor.Some?
      modifies `readbackFor, `cart, `phase, `replace, `awaiting
      ensures Takes(ReadbackWay(old(Now()), yes, fix), Some(turn), Now())
    {
      if yes {
        turn := Confirm(readbackFor.value);
        awaiting := Result(turn);
        return;
      }
      readbackFor := None;
      if fix.None? {
        turn := Restart();
        return;
      }
      replace := fix;
      turn := Search(fix.value.card);
      awaiting := Result(turn);
    }

    /** The answer to a read-back. */
    method OnReadback(yes: bool, fix: Option<Fix>) returns (turn: Turn)
      requires Valid() && Possible(Now(), Readback(yes, fix))
      modifies `readbackFor, `cart, `phase, `replace, `awaiting
      ensures Takes(ReadbackWay(old(Now()), yes, fix), Some(turn), Now()) && Valid()
    {
      hide Takes, ReadbackWay, Standing.Sound;
      ghost var was := Now();
      turn := AnswerReadback(yes, fix);
      EventIsSound(was, Readback(yes, fix), Some(turn), Now());
    }

    /** The order is booked. */
    method OnConfirmed()
      requires Valid() && Possible(Now(), Booked)
      modifies `awaiting
      ensures Now() == old(Now()).(awaiting := Guest) && Valid()
    {
      awaiting := Guest;
    }
  }

  // ---- The parts of a sentence, one by one ----

  /** Each of these parts is where it belongs. */
  ghost predicate Placed(parts: seq<Part>, was: Standing, now: Standing, soldOut: seq<Sentence>,
                         unclear: seq<Sentence>) {
    && now == Behind(parts, was).(afterAllergy := was.afterAllergy)
    && soldOut == SoldOuts(parts) && unclear == Questions(parts)
  }

  lemma {:induction false} NothingPlaced(was: Standing)
    requires was.allergyFor == [] && was.groupFor == [] && was.suggestions == []
    ensures Placed([], was, was, [], [])
  {
    assert was.cart + [] == was.cart && was.later + [] == was.later;
  }

  lemma {:induction false} OneMoreQuestion(parts: seq<Part>, i: nat, wish: Option<string>)
    requires i < |parts|
    ensures var front, more, part := parts[..i], parts[..i + 1], parts[i];
            var first := !part.Clear? && Questions(front) == [];
            && (Questions(front) == [] <==> FirstUnclear(front).None?)
            && Questions(more) == (if first then [QuestionOf(part)] else Questions(front))
            && Offered(more) == (if first && part.Several? then part.hits else Offered(front))
            && OfferedWish(more, wish) == (if first && part.Several? then part.raw else OfferedWish(front, wish))
            && (first ==> Offered(front) == [])
  {
    OneMorePart(parts, i);
  }

  lemma {:induction false} OneMorePlaced(
    parts: seq<Part>, i: nat, was: Standing, s: Standing, soldOut: seq<Sentence>, unclear: seq<Sentence>,
    now: Standing, soldOutNow: seq<Sentence>, unclearNow: seq<Sentence>)
    requires i < |parts| && Placed(parts[..i], was, s, soldOut, unclear) && PartOk(parts[i])
    requires var part, asked := parts[i], unclear != [];
             && now == s.(cart := s.cart + TakenLine(part),
                          later := s.later + (if !part.Clear? && asked then [part.query] else []),
                          allergyFor := s.allergyFor + OpensAllergy(part, |s.cart|),
                          groupFor := s.groupFor + OpensGroup(part, |s.cart|),
                          phase := if part.Several? && !asked then Choose else s.phase,
                          suggestions := if part.Several? && !asked then part.hits else s.suggestions,
                          suggestionWish := if part.Several? && !asked then part.raw else s.suggestionWish)
             && soldOutNow == soldOut + (if part.Clear? && !Taken(part) then [SoldOut(part.hit)] else [])
             && unclearNow == (if !part.Clear? && !asked then [QuestionOf(part)] else unclear)
    ensures Placed(parts[..i + 1], was, now, soldOutNow, unclearNow)
  {
    hide Lines, Laters, SoldOuts, Questions, FirstUnclear, Offered, OfferedWish, AllergiesOf, GroupsOf;
    hide TakenLine, OpensAllergy, OpensGroup, QuestionOf, HeldOf;
    var part, front, more := parts[i], parts[..i], parts[..i + 1];
    OneMorePart(parts, i);
    OneMoreQuestion(parts, i, was.suggestionWish);
    OneMoreOpened(parts, i, |was.cart|);
    assert now.cart == was.cart + Lines(more) by {
      Assoc(was.cart, Lines(front), TakenLine(part));
    }
    assert now.later == was.later + Laters(more) by {
      Assoc(was.later, Laters(front), if !part.Clear? && unclear != [] then [part.query] else []);
    }
  }

  lemma {:induction false} Assoc<T>(a: seq<T>, b: seq<T>, c: seq<T>)
    ensures (a + b) + c == a + (b + c)
  {
  }
}
