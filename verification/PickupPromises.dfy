/** What holds of every run of the order dialogue (sim/scripted_order.py): drafts are
    complete, a confirmation is the guest's yes to what was drafted and read out, no part
    of a sentence drops out unasked, and when the script breaks. */
module PickupPromises {
  import opened Wrappers
  import opened PickupScript
  import opened PickupSteps
  import opened PickupSound
  import opened PickupRuns

  lemma {:induction false} PrefixIsRun(wantsDelivery: bool, steps: seq<Step>, n: nat)
    requires IsRun(wantsDelivery, steps) && n <= |steps|
    ensures IsRun(wantsDelivery, steps[..n])
    ensures n < |steps| ==> IsStep(Last(wantsDelivery, steps[..n]), steps[n])
    decreases |steps|
  {
    hide IsStep, Start;
    if n == |steps| {
      assert steps[..n] == steps;
    } else {
      var front := steps[..|steps| - 1];
      if n < |front| {
        PrefixIsRun(wantsDelivery, front, n);
        assert front[..n] == steps[..n] && front[n] == steps[n];
      }
    }
  }

  // ---- What the events alone tell ----

  /** What one can know of a call from its events alone. */
  datatype Known = Known(
    wanted: bool, readOut: Option<string>, checked: Option<Address>, asked: bool, stored: Option<string>, agreed: bool,
    seen: set<Hit>)

  function SetOf(hits: seq<Hit>): set<Hit> {
    set hit | hit in hits
  }

  /** Whether it is to be delivered; the order read out last that the guest has not
      refused; the address the last zone check accepted; whether the stored address is
      asked for, which one it is and whether it is agreed to; all dishes a search gave. */
  function Learn(k: Known, event: Event): Known {
    match event
    case Said(heard, _) => k.(asked := false, agreed := if k.asked then heard.agrees else k.agreed)
    case Readback(yes, _) => if yes then k else k.(readOut := None)
    case NewAddress(_) => k.(readOut := None)
    case DeliveryWanted => k.(wanted := true)
    case SearchFound(found, _) => k.(seen := k.seen + SetOf(HitsOf(found)))
    case LookedUp(stored, say, _) =>
      if stored.Some? && say.Some? then k.(asked := true, stored := stored) else k
    case ZoneAccepted(slots) => k.(checked := Some(slots.address))
    case Drafted(id, _) => k.(readOut := Some(id))
    case Refused(code) =>
      k.(wanted := k.wanted && code != OutOfZone, agreed := k.agreed && code != OutOfZone && code != InvalidDraft)
    case _ => k
  }

  function Knowledge(wantsDelivery: bool, steps: seq<Step>): Known {
    if steps == [] then Known(wantsDelivery, None, None, false, None, false, {})
    else Learn(Knowledge(wantsDelivery, steps[..|steps| - 1]), steps[|steps| - 1].event)
  }

  /** The call stands where its events say it does. */
  predicate Agrees(s: Standing, k: Known) {
    && s.readbackFor == k.readOut && s.delivery.checked == k.checked && s.delivery.wanted == k.wanted
    && s.delivery.sameOpen == k.asked && s.delivery.stored == k.stored && s.delivery.useStored == k.agreed
    && AllSeen(s.cart, k.seen) && AllIn(s.suggestions, k.seen) && AllIn(s.reopen, k.seen)
  }

  predicate AllIn(hits: seq<Hit>, seen: set<Hit>) {
    forall hit :: hit in hits ==> hit in seen
  }

  /** All these lines have a dish a search gave. */
  predicate AllSeen(cart: seq<CartItem>, seen: set<Hit>) {
    forall i :: 0 <= i < |cart| ==> cart[i].hit in seen
  }

  function HitsOfPart(part: Part): seq<Hit> {
    match part
    case Clear(_, hit, _, _, _) => [hit]
    case Several(_, hits, _) => hits
    case Unclear(_, _) => []
  }

  function HitsOfParts(parts: seq<Part>): seq<Hit> {
    if parts == [] then [] else HitsOfParts(parts[..|parts| - 1]) + HitsOfPart(parts[|parts| - 1])
  }

  /** Every dish a search gave. */
  function HitsOf(found: Found): seq<Hit> {
    if found.Positions? then HitsOfParts(found.parts) else HitsOfPart(found.part)
  }

  lemma {:induction false} LinesAreHits(parts: seq<Part>)
    ensures forall i :: 0 <= i < |Lines(parts)| ==> Lines(parts)[i].hit in HitsOfParts(parts)
    ensures forall hit :: hit in Offered(parts) ==> hit in HitsOfParts(parts)
  {
    if parts != [] {
      LinesAreHits(parts[..|parts| - 1]);
      var last := parts[|parts| - 1];
      if last.Clear? {
        assert last.hit in HitsOfPart(last);
      }
    }
  }

  predicate WayAgrees(way: Way, k: Known) {
    match way
    case Goes(ahead, _, _) => Agrees(ahead, k)
    case Stays(_, left) => Agrees(left, k)
  }

  lemma {:induction false} TakenAgrees(way: Way, turn: Option<Turn>, now: Standing, k: Known)
    requires WayAgrees(way, k) && Takes(way, turn, now)
    ensures Agrees(now, k)
  {
  }

  /** More dishes seen change nothing. */
  lemma {:induction false} StillAgrees(s: Standing, k: Known, hits: seq<Hit>)
    requires Agrees(s, k)
    ensures Agrees(s, k.(seen := k.seen + SetOf(hits))) && AllIn(hits, k.seen + SetOf(hits))
  {
  }

  lemma {:induction false} PositionsAgree(parts: seq<Part>, was: Standing, k: Known)
    requires Agrees(was, k) && AllIn(HitsOfParts(parts), k.seen)
    ensures Agrees(Behind(parts, was).(carry := []), k)
  {
    hide Lines, Laters, AllergiesOf, GroupsOf, HeldOf, Offered, OfferedWish, HitsOfParts;
    LinesAreHits(parts);
    assert AllSeen(was.cart + Lines(parts), k.seen) && AllIn(Offered(parts), k.seen);
  }

  lemma {:induction false} SingleAgrees(part: Part, carries: bool, was: Standing, k: Known)
    requires Agrees(was, k) && AllIn(HitsOfPart(part), k.seen)
    ensures Agrees(BehindOne(part, carries, was).(carry := []), k)
  {
    hide AsksAllergy, AsksGroup;
    if Taken(part) {
      assert part.hit in HitsOfPart(part) && AllSeen(was.cart + LineOf(part, carries), k.seen);
    }
  }

  lemma {:induction false} CorrectionAgrees(was: Standing, fix: Fix, found: Found, slots: Slots, k: Known)
    requires Agrees(was, k) && AllIn(HitsOf(found), k.seen) && fix.at < |was.cart|
    ensures WayAgrees(CorrectionWay(was, fix, found, slots), k)
  {
    assert AllSeen([], k.seen);
    if Replaces(found) {
      assert found.part.hit in HitsOf(found);
      SeenReplaced(was.cart, fix.at, Corrected(was.cart[fix.at], found.part.hit, fix.quantity), k.seen);
    }
  }

  lemma {:induction false} FoundAgrees(was: Standing, found: Found, slots: Slots, k: Known)
    requires was.Sound() && Possible(was, SearchFound(found, slots)) && Agrees(was, k)
    ensures WayAgrees(FoundWay(was, found, slots), Learn(k, SearchFound(found, slots)))
  {
    hide Behind, BehindOne, CorrectionWay, HitsOfPart, HitsOfParts, AllSeen, SetOf;
    var k' := Learn(k, SearchFound(found, slots));
    SearchStands(was);
    StillAgrees(was, k, HitsOf(found));
    assert AllIn([], k'.seen);
    hide AllIn;
    if was.replace.Some? {
      CorrectionAgrees(was.(awaiting := Guest, replace := None), was.replace.value, found, slots, k');
    } else {
      var w := was.(awaiting := Guest, reopen := []);
      match found
      case Positions(parts, _) => PositionsAgree(parts, w, k');
      case Single(part, _, _) => SingleAgrees(part, Carries(was.reopen, part, was.suggestionWish), w, k');
    }
  }

  lemma {:induction false} SeenReplaced(cart: seq<CartItem>, at: nat, item: CartItem, seen: set<Hit>)
    requires at < |cart| && AllSeen(cart, seen) && item.hit in seen
    ensures AllSeen(cart[at := item], seen)
  {
  }

  lemma {:induction false} AllergyAgrees(was: Standing, heard: AllergyHeard, slots: Slots, k: Known)
    requires was.allergyFor != [] && was.allergyFor[0] < |was.cart| && Agrees(was, k)
    ensures WayAgrees(AllergyWay(was, heard, slots), k)
  {
    if !heard.NotRead? {
      var item := was.allergyFor[0];
      SeenReplaced(was.cart, item, was.cart[item].(note := heard.note), k.seen);
    }
  }

  lemma {:induction false} GroupAgrees(was: Standing, heard: GroupHeard, slots: Slots, k: Known)
    requires was.groupFor != [] && was.groupFor[0].item < |was.cart| && Agrees(was, k)
    ensures WayAgrees(GroupWay(was, heard, slots), k)
  {
    if heard.Named? {
      var item := was.groupFor[0].item;
      SeenReplaced(was.cart, item, Wished(was.cart[item], heard.wish), k.seen);
    }
  }

  lemma {:induction false} OptionAgrees(was: Standing, option: Option<string>, slots: Slots, k: Known)
    requires Agrees(was, k)
    ensures WayAgrees(OptionWay(was, option, slots), k)
  {
    if AnyPending(was.cart) && option.Some? {
      var item := FirstPending(was.cart);
      SeenReplaced(was.cart, item, Answered(was.cart[item], option.value), k.seen);
    }
  }

  lemma {:induction false} SomeStaySeen(hits: seq<Hit>, at: nat, seen: set<Hit>)
    requires at < |hits| && AllIn(hits, seen)
    ensures hits[at] in seen && AllIn(hits[..at] + hits[at + 1..], seen)
  {
  }

  lemma {:induction false} PickAgrees(was: Standing, at: nat, heard: Heard, slots: Slots, k: Known)
    requires at < |was.suggestions| && Agrees(was, k)
    ensures WayAgrees(PickWay(was, at, heard, slots), k)
  {
    SomeStaySeen(was.suggestions, at, k.seen);
    if !was.suggestions[at].soldOut {
      var line := Wished(Fresh(was.suggestions[at], heard.quantity), heard.wish);
      assert line.hit in k.seen && AllSeen(was.cart + [line], k.seen);
    }
  }

  lemma {:induction false} ChoiceAgrees(was: Standing, heard: Heard, slots: Slots, k: Known)
    requires Agrees(was, k) && FitsSuggestions(heard, was.suggestions)
    ensures WayAgrees(ChoiceWay(was, heard, slots), k)
  {
    assert AllIn([], k.seen);
    hide PickWay, AllSeen, AllIn;
    if Picked(heard).Some? {
      PickAgrees(was, Picked(heard).value, heard, slots, k);
      hide WayAgrees;
    } else {
      var w := was.(suggestions := [], phase := Dishes);
      assert Agrees(w, k) && Agrees(w.(reopen := was.suggestions), k);
    }
  }

  lemma {:induction false} SaidAgrees(was: Standing, heard: Heard, slots: Slots, k: Known)
    requires was.Sound() && Possible(was, Said(heard, slots)) && Agrees(was, k)
    ensures WayAgrees(SaidWay(was, heard, slots), Learn(k, Said(heard, slots)))
  {
    hide AllergyWay, GroupWay, OptionWay, ChoiceWay, Standing.QuestionsOk, Standing.DeliveryOk, Standing.WaitOk;
    if !was.delivery.sameOpen {
      if was.allergyFor != [] {
        AllergyAgrees(was, heard.allergy, slots, k);
      } else if was.groupFor != [] {
        GroupAgrees(was, heard.group, slots, k);
      } else if was.phase == Options {
        OptionAgrees(was, heard.option, slots, k);
      } else if was.phase == Choose {
        ChoiceAgrees(was, heard, slots, k);
      }
    }
  }

  lemma {:induction false} FailedAgrees(was: Standing, say: Option<Sentence>, notFound: bool, k: Known)
    requires Agrees(was, k)
    ensures WayAgrees(FailedWay(was, say, notFound), k)
  {
  }

  lemma {:induction false} OtherAgrees(was: Standing, event: Event, k: Known)
    requires was.Sound() && Possible(was, event) && Agrees(was, k)
    requires !event.Said? && !event.SearchFound? && !event.SearchFailed?
    ensures WayAgrees(WayOf(was, event), Learn(k, event))
  {
    hide Standing.PlacesOk, Standing.QuestionsOk, Standing.ReadOutOk, FoundWay, SaidWay, FailedWay, AllOk;
    assert AllSeen([], k.seen);
    hide AllSeen, AllIn;
  }

  lemma {:induction false} RunAgrees(wantsDelivery: bool, steps: seq<Step>)
    requires IsRun(wantsDelivery, steps)
    ensures Agrees(Last(wantsDelivery, steps), Knowledge(wantsDelivery, steps))
  {
    if steps != [] {
      var front, step := steps[..|steps| - 1], steps[|steps| - 1];
      var was, k := Last(wantsDelivery, front), Knowledge(wantsDelivery, front);
      RunAgrees(wantsDelivery, front);
      match step.event {
        case Said(heard, slots) => SaidAgrees(was, heard, slots, k);
        case SearchFound(found, slots) => FoundAgrees(was, found, slots, k);
        case SearchFailed(say, notFound) => FailedAgrees(was, say, notFound, k);
        case _ => OtherAgrees(was, step.event, k);
      }
      TakenAgrees(WayOf(was, step.event), step.turn, step.now, Learn(k, step.event));
    }
  }

  // ---- Drafts ----

  function SlotsOf(event: Event): Option<Slots> {
    match event
    case Said(_, slots) => Some(slots)
    case NewAddress(slots) => Some(slots)
    case SearchFound(_, slots) => Some(slots)
    case LookedUp(_, _, slots) => Some(slots)
    case ZoneAccepted(slots) => Some(slots)
    case _ => None
  }

  predicate ItemOf(item: CartItem, seen: set<Hit>) {
    ItemComplete(item) && item.hit in seen
  }

  /** A draft is complete: dishes a search gave and that are to be had, every mandatory
      choice made, a phone, a name or an address on file that the guest agreed to; it is
      a delivery exactly when one is wanted, to the address on file if the guest agreed
      to it, otherwise to the one that is in the slots and was checked last. */
  predicate DraftOk(turn: Turn, slots: Slots, k: Known)
    requires turn.Draft?
  {
    && turn.items != [] && (forall i :: 0 <= i < |turn.items| ==> ItemOf(turn.items[i], k.seen))
    && slots.phone == Some(turn.phone) && slots.name == turn.name && (turn.name.Some? || k.agreed)
    && (turn.place.Pickup? <==> !k.wanted)
    && (turn.place.Stored? ==> k.agreed && k.stored.Some? && turn.place.id == k.stored)
    && (turn.place.Typed? ==>
          !k.agreed && turn.place.address == slots.address && Full(slots.address) && k.checked == Some(slots.address))
  }

  /** No allergy or group is open, no suggestion, no part asked for later, no question
      held back. */
  predicate NothingLeft(s: Standing) {
    !s.Open() && s.suggestions == [] && s.later == [] && s.afterAllergy == []
  }

  lemma {:induction false} ItemsComplete(cart: seq<CartItem>, seen: set<Hit>)
    requires AllOk(cart) && !AnyPending(cart) && AllSeen(cart, seen)
    ensures forall i :: 0 <= i < |cart| ==> ItemOf(cart[i], seen)
  {
    forall i | 0 <= i < |cart| ensures ItemOf(cart[i], seen) {
      assert ItemOk(cart[i]) && cart[i].pending == [];
    }
  }

  /** Only the next step calls the tools of the order; what an event leads to besides is a
      sentence, a search, a confirmation or the end. */
  predicate CallsNothing(way: Way, event: Event) {
    match way
    case Goes(_, slots, _) => SlotsOf(event) == Some(slots)
    case Stays(own, _) => own.Some? ==> own.value.Say? || own.value.Search? || own.value.Confirm? || own.value.Broken?
  }

  lemma {:induction false} EventsCallNothing(was: Standing, event: Event)
    requires was.Sound() && Possible(was, event)
    ensures CallsNothing(WayOf(was, event), event)
  {
    hide Wished, AsksAllergy, AsksGroup, Answered, Behind, BehindOne, LeadOf, LeadOfOne, CorrectedCart, Carries;
    hide Standing.QuestionsOk, Standing.DeliveryOk, Standing.WaitOk, Standing.ReadOutOk;
  }

  /** Only the next step drafts, and it drafts the cart as it stands. */
  lemma {:induction false} DraftIsTheCart(was: Standing, step: Step)
    requires IsStep(was, step) && step.turn.Some? && step.turn.value.Draft?
    ensures SlotsOf(step.event).Some?
    ensures var slots, turn := SlotsOf(step.event).value, step.turn.value;
            && step.now.Settled() && turn.items == step.now.cart && HasPlace(step.now.delivery, slots.address)
            && HasName(slots, step.now.delivery) && slots.phone == Some(turn.phone) && slots.name == turn.name
            && turn.place == PlaceOf(step.now.delivery, slots)
  {
    hide WayOf, Standing.PlacesOk, Standing.QuestionsOk, Standing.DeliveryOk, Standing.WaitOk, Standing.ReadOutOk;
    EventsCallNothing(was, step.event);
  }

  /** Main result for drafts, on every run: what goes out as a draft is complete, and
      nothing is left open. */
  lemma {:induction false} DraftsAreComplete(wantsDelivery: bool, steps: seq<Step>, n: nat)
    requires IsRun(wantsDelivery, steps) && n < |steps| && steps[n].turn.Some? && steps[n].turn.value.Draft?
    ensures SlotsOf(steps[n].event).Some?
    ensures DraftOk(steps[n].turn.value, SlotsOf(steps[n].event).value, Knowledge(wantsDelivery, steps[..n + 1]))
    ensures NothingLeft(steps[n].now)
  {
    var upTo, step := steps[..n + 1], steps[n];
    PrefixIsRun(wantsDelivery, steps, n);
    PrefixIsRun(wantsDelivery, steps, n + 1);
    DraftIsTheCart(Last(wantsDelivery, steps[..n]), step);
    RunAgrees(wantsDelivery, upTo);
    RunIsSound(wantsDelivery, upTo);
    assert Last(wantsDelivery, upTo) == step.now;
    ItemsComplete(step.now.cart, Knowledge(wantsDelivery, upTo).seen);
  }

  // ---- Confirmations ----

  /** At step m this order was read out: the tool's answer to a draft with these items. */
  predicate ReadOutAt(steps: seq<Step>, m: nat, id: string, items: seq<CartItem>) {
    && 0 < m < |steps| && steps[m].event.Drafted? && steps[m].event.id == id
    && steps[m].turn == Some(Say([steps[m].event.readback]))
    && steps[m - 1].turn.Some? && steps[m - 1].turn.value.Draft? && steps[m - 1].turn.value.items == items
  }

  function StandingOf(way: Way): Standing {
    match way
    case Goes(ahead, _, _) => ahead
    case Stays(_, left) => left
  }

  /** A sentence of the guest reads nothing out; nor does what a tool says before a draft. */
  lemma {:induction false} SaidReadsNothing(was: Standing, heard: Heard, slots: Slots)
    requires was.PlacesOk() && FitsSuggestions(heard, was.suggestions)
    ensures StandingOf(SaidWay(was, heard, slots)).readbackFor == was.readbackFor
  {
    if !was.delivery.sameOpen && was.allergyFor == [] {
      if was.groupFor != [] {
        assert StandingOf(GroupWay(was, heard.group, slots)).readbackFor == was.readbackFor;
      } else if was.phase == Choose {
        assert StandingOf(ChoiceWay(was, heard, slots)).readbackFor == was.readbackFor;
      } else if was.phase == Options {
        assert StandingOf(OptionWay(was, heard.option, slots)).readbackFor == was.readbackFor;
      }
    }
  }

  lemma {:induction false} SearchReadsNothing(was: Standing, event: Event)
    requires was.Sound() && Possible(was, event) && (event.SearchFound? || event.SearchFailed?)
    ensures StandingOf(WayOf(was, event)).readbackFor.None?
  {
  }

  /** An order that is read out changes neither itself nor the cart, until it is given up. */
  lemma {:induction false} ReadOutStays(was: Standing, step: Step)
    requires IsStep(was, step) && step.now.readbackFor.Some? && !step.event.Drafted?
    ensures was.readbackFor == step.now.readbackFor && was.cart == step.now.cart
  {
    hide SaidWay, FoundWay, FailedWay, Standing.PlacesOk, Standing.QuestionsOk, Standing.DeliveryOk, Follows;
    assert step.now.readbackFor == StandingOf(WayOf(was, step.event)).readbackFor;
    match step.event
    case Said(heard, slots) =>
      SaidReadsNothing(was, heard, slots);
    case SearchFound(_, _) =>
      SearchReadsNothing(was, step.event);
    case SearchFailed(_, _) =>
      SearchReadsNothing(was, step.event);
    case _ =>
  }

  lemma {:induction false} DraftedReadsOut(was: Standing, step: Step)
    requires IsStep(was, step) && step.event.Drafted?
    ensures step.now.readbackFor == Some(step.event.id) && step.now.cart == was.cart
    ensures step.turn == Some(Say([step.event.readback]))
  {
  }

  lemma {:induction false} ReadOutWasDrafted(wantsDelivery: bool, steps: seq<Step>) returns (m: nat)
    requires IsRun(wantsDelivery, steps) && Last(wantsDelivery, steps).readbackFor.Some?
    ensures ReadOutAt(steps, m, Last(wantsDelivery, steps).readbackFor.value, Last(wantsDelivery, steps).cart)
  {
    hide Takes, WayOf, Standing.Sound, Possible;
    var front, step := steps[..|steps| - 1], steps[|steps| - 1];
    var was := Last(wantsDelivery, front);
    if step.event.Drafted? {
      m := |steps| - 1;
      EventsAnswer(wantsDelivery, front, if front == [] then None else front[|front| - 1].turn, step.event);
      PrefixIsRun(wantsDelivery, front, m - 1);
      DraftIsTheCart(Last(wantsDelivery, front[..m - 1]), front[m - 1]);
      DraftedReadsOut(was, step);
      assert steps[m - 1] == front[m - 1];
    } else {
      ReadOutStays(was, step);
      m := ReadOutWasDrafted(wantsDelivery, front);
      assert steps[m] == front[m] && steps[m - 1] == front[m - 1];
    }
  }

  /** Main result for confirmations, on every run: what is confirmed is the guest's yes
      to an order that was read out, and the cart is still what that order was drafted
      with. */
  lemma {:induction false} ConfirmsWhatWasReadOut(wantsDelivery: bool, steps: seq<Step>, n: nat) returns (m: nat)
    requires IsRun(wantsDelivery, steps) && n < |steps| && steps[n].turn.Some? && steps[n].turn.value.Confirm?
    ensures steps[n].event.Readback? && steps[n].event.yes
    ensures m < n && ReadOutAt(steps, m, steps[n].turn.value.id, steps[n].now.cart)
    ensures Knowledge(wantsDelivery, steps[..n]).readOut == Some(steps[n].turn.value.id)
  {
    var front, step := steps[..n], steps[n];
    PrefixIsRun(wantsDelivery, steps, n);
    OnlyAYesConfirms(Last(wantsDelivery, front), step);
    RunAgrees(wantsDelivery, front);
    m := ReadOutWasDrafted(wantsDelivery, front);
    assert steps[m] == front[m] && steps[m - 1] == front[m - 1];
  }

  lemma {:induction false} OnlyAYesConfirms(was: Standing, step: Step)
    requires IsStep(was, step) && step.turn.Some? && step.turn.value.Confirm?
    ensures step.event.Readback? && step.event.yes && was.readbackFor == Some(step.turn.value.id)
    ensures step.now.cart == was.cart
  {
  }

  // ---- When the script breaks ----

  /** The script breaks exactly on a sentence in the phase of the mandatory choices with
      no stored address, allergy or group asked for and no choice open. */
  lemma {:induction false} BreaksIff(was: Standing, step: Step)
    requires IsStep(was, step)
    ensures step.turn == Some(Broken) <==>
            step.event.Said? && !was.delivery.sameOpen && !was.Open() && was.phase == Options && !AnyPending(was.cart)
  {
  }

  /** In the phase of the mandatory choices there is one to ask for, or the zone is being
      checked. */
  predicate ChoiceOpen(s: Standing) {
    s.phase == Options ==> AnyPending(s.cart) || (s.awaiting.Result? && s.awaiting.of.CheckZone?)
  }

  /** A tool refused something in the phase of the mandatory choices. */
  predicate RefusedThere(steps: seq<Step>) {
    exists i :: 0 <= i < |steps| && steps[i].event.Refused? && steps[i].now.phase == Options
  }

  lemma {:induction false} NextStaysOpen(ahead: Standing, slots: Slots, lead: seq<Sentence>, turn: Turn, now: Standing)
    requires ahead.Ready() && NextMoves(ahead, slots, lead, turn, now)
    ensures ChoiceOpen(now)
  {
  }

  lemma {:induction false} SaidStaysOpen(was: Standing, heard: Heard, slots: Slots)
    requires was.Sound() && Possible(was, Said(heard, slots)) && ChoiceOpen(was)
    requires SaidWay(was, heard, slots).Stays?
    ensures ChoiceOpen(SaidWay(was, heard, slots).now)
  {
    if was.allergyFor == [] && was.groupFor == [] && was.phase == Choose {
      assert ChoiceWay(was, heard, slots).now.phase in {Choose, Dishes};
    }
  }

  lemma {:induction false} OtherStaysOpen(was: Standing, event: Event)
    requires was.Sound() && Possible(was, event) && ChoiceOpen(was) && !event.Said?
    requires WayOf(was, event).Stays?
    ensures ChoiceOpen(WayOf(was, event).now) || (event.Refused? && WayOf(was, event).now.phase == Options)
  {
  }

  lemma {:induction false} StaysOpen(was: Standing, step: Step)
    requires IsStep(was, step) && ChoiceOpen(was)
    ensures ChoiceOpen(step.now) || (step.event.Refused? && step.now.phase == Options)
  {
    hide SaidWay, FoundWay, FailedWay, NextMoves, Standing.Sound, ChoiceOpen, ReadbackWay, BehindRefusal, LookupWay;
    var way := WayOf(was, step.event);
    EventIsOk(was, step.event);
    if way.Goes? {
      NextStaysOpen(way.ahead, way.slots, way.lead, step.turn.value, step.now);
    } else if step.event.Said? {
      SaidStaysOpen(was, step.event.heard, step.event.slots);
    } else {
      OtherStaysOpen(was, step.event);
    }
  }

  lemma {:induction false} OpenOrRefused(wantsDelivery: bool, steps: seq<Step>)
    requires IsRun(wantsDelivery, steps)
    ensures ChoiceOpen(Last(wantsDelivery, steps)) || RefusedThere(steps)
  {
    if steps != [] {
      var front, step := steps[..|steps| - 1], steps[|steps| - 1];
      OpenOrRefused(wantsDelivery, front);
      if ChoiceOpen(Last(wantsDelivery, front)) {
        StaysOpen(Last(wantsDelivery, front), step);
      } else {
        var i :| 0 <= i < |front| && front[i].event.Refused? && front[i].now.phase == Options;
        assert steps[i] == front[i];
      }
    }
  }

  /** Main result: on every run the script breaks only behind a tool that refused
      something in the phase of the mandatory choices. */
  lemma {:induction false} BreaksBehindARefusal(wantsDelivery: bool, steps: seq<Step>, n: nat)
    requires IsRun(wantsDelivery, steps) && n < |steps| && steps[n].turn == Some(Broken)
    ensures RefusedThere(steps[..n])
  {
    PrefixIsRun(wantsDelivery, steps, n);
    BreaksIff(Last(wantsDelivery, steps[..n]), steps[n]);
    OpenOrRefused(wantsDelivery, steps[..n]);
  }
}
