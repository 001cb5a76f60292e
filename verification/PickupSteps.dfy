/** The steps of the order dialogue (sim/scripted_order.py) on values: where a call stands,
    what a sentence or a tool's result makes of it, and what is done next. The object that
    carries the dialogue out is in PickupCall. */
module PickupSteps {
  import opened Wrappers
  import opened PickupScript

  // ---- What comes in ----

  /** What the sentence of the guest means for the question that is open. */
  datatype Heard = Heard(
    text: string, agrees: bool, finishes: bool, rejects: bool, done: bool,
    pick: Option<nat>, quantity: nat, wish: Option<Wish>, wishSaid: seq<Sentence>,
    other: Option<string>, otherPick: Option<nat>,
    allergy: AllergyHeard, group: GroupHeard, option: Option<string>)

  /** The answer to "Wogegen?": no answer, or one that closes the question. Either may
      leave something out of the dish, which is `note`. */
  datatype AllergyHeard = NotRead | Asked(note: Option<string>) | Read(note: Option<string>, said: seq<Sentence>)

  datatype GroupHeard = NoGroup | Dropped | Named(wish: Option<Wish>, said: seq<Sentence>)

  /** The correction of a line at the read-back: the line, the number, the quantity. */
  datatype Fix = Fix(at: nat, card: string, quantity: Option<nat>)

  datatype Code = OutOfZone | BelowMinimum | InvalidDraft | OtherCode

  datatype Event =
    | Said(heard: Heard, slots: Slots)
    | Readback(yes: bool, fix: Option<Fix>)
    | NewAddress(slots: Slots)
    | DeliveryWanted
    | SearchFound(found: Found, slots: Slots)
    | SearchFailed(say: Option<Sentence>, notFound: bool)
    | LookedUp(stored: Option<string>, say: Option<Sentence>, slots: Slots)
    | ZoneAccepted(slots: Slots)
    | Drafted(id: string, readback: Sentence)
    | Refused(code: Code)
    | Booked

  // ---- The delivery ----

  predicate HasName(slots: Slots, delivery: Delivery) {
    slots.name.Some? || delivery.useStored
  }

  /** A delivery has an address the guest agreed to or the one that was checked. */
  predicate HasPlace(delivery: Delivery, address: Address) {
    delivery.wanted ==> delivery.useStored || delivery.checked == Some(address)
  }

  /** An address that is whole and not checked yet. */
  predicate IsNew(delivery: Delivery, address: Address) {
    delivery.wanted && !delivery.useStored && Full(address) && delivery.checked != Some(address)
  }

  function PlaceOf(delivery: Delivery, slots: Slots): Place {
    if !delivery.wanted then Pickup else if delivery.useStored then Stored(delivery.stored) else Typed(slots.address)
  }

  // ---- Where a call stands ----

  datatype Standing = Standing(
    cart: seq<CartItem>, phase: Phase, delivery: Delivery,
    suggestions: seq<Hit>, suggestionWish: Option<string>, readbackFor: Option<string>,
    later: seq<string>, carry: seq<Sentence>,
    allergyFor: seq<nat>, groupFor: seq<OpenGroup>, afterAllergy: seq<Sentence>,
    reopen: seq<Hit>, replace: Option<Fix>, complete: bool, awaiting: Awaiting)
  {
    /** A question about a dish is open that comes before all others. */
    predicate Open() {
      allergyFor != [] || groupFor != []
    }

    predicate Asking() {
      Open() || later != [] || phase == Choose
    }

    /** The dishes are settled. */
    predicate Settled() {
      !Asking() && !AnyPending(cart) && cart != []
    }

    predicate AtCustomer() {
      phase == Customer || complete
    }

    predicate SearchDue() {
      !Open() && later != [] && phase != Choose
    }

    predicate ZoneDue(slots: Slots) {
      Settled() && IsNew(delivery, slots.address)
    }

    predicate LookupDue(slots: Slots) {
      Settled() && !ZoneDue(slots) && AtCustomer() && delivery.wanted && !delivery.lookedUp && slots.phone.Some?
    }

    /** Everything is there. */
    predicate DraftDue(slots: Slots) {
      && Settled() && AtCustomer() && HasPlace(delivery, slots.address) && (delivery.wanted ==> delivery.lookedUp)
      && HasName(slots, delivery) && slots.phone.Some?
    }

    /** A tool is due whose call speaks nothing and carries nothing along. */
    predicate CallDue(slots: Slots) {
      ZoneDue(slots) || LookupDue(slots) || DraftDue(slots)
    }

    // What every event keeps.

    /** Every open question is about a line of the cart. */
    predicate PlacesOk() {
      && AllOk(cart)
      && (forall i :: 0 <= i < |allergyFor| ==> allergyFor[i] < |cart|)
      && (forall i :: 0 <= i < |groupFor| ==> groupFor[i].item < |cart|)
    }

    /** A question is held back only behind an open one; one set of suggestions is open
        exactly while the guest has to choose. */
    predicate QuestionsOk() {
      && (afterAllergy != [] ==> Open())
      && (phase == Choose <==> suggestions != [])
    }

    predicate DeliveryOk() {
      && (delivery.useStored || delivery.sameOpen ==> delivery.wanted && delivery.lookedUp && delivery.stored.Some?)
      && (delivery.checked.Some? ==> Full(delivery.checked.value))
    }

    /** Nothing of an order that is read out or corrected is open; in the phase of the
        mandatory choices nothing else is. */
    predicate ReadOutOk() {
      && (readbackFor.Some? || replace.Some? ==>
            !Open() && later == [] && phase != Choose && phase != Options && !complete)
      && (replace.Some? ==> replace.value.at < |cart|)
      && (complete ==> !Open() && later == [] && phase == Options)
      && (phase == Options ==> !Open() && later == [])
    }

    /** What the machine waits for. */
    predicate WaitOk() {
      && (awaiting.Result? ==> !Open() && phase != Choose && !delivery.sameOpen && !complete)
      && (awaiting.Result? && !awaiting.of.Confirm? ==> readbackFor.None?)
      && (readbackFor.Some? ==> !delivery.sameOpen)
      && (reopen != [] || replace.Some? || carry != [] ==> awaiting.Result? && awaiting.of.Search?)
      && (reopen != [] || carry != [] ==> replace.None?)
      && (awaiting.Result? && awaiting.of.CheckZone? ==> Full(awaiting.of.address))
      && (awaiting.Result? && awaiting.of.Lookup? ==> delivery.wanted && delivery.lookedUp)
      && (awaiting.Result? && awaiting.of.Draft? ==> later == [] && phase == Customer)
      && (awaiting.Result? && awaiting.of.Search? ==> phase != Options)
    }

    predicate Sound() {
      PlacesOk() && QuestionsOk() && DeliveryOk() && ReadOutOk() && WaitOk()
    }

    /** From here the next step is taken. */
    predicate Ready() {
      && PlacesOk() && QuestionsOk() && DeliveryOk() && awaiting == Guest
      && readbackFor.None? && replace.None? && reopen == [] && carry == [] && !delivery.sameOpen
      && (complete ==> !Open() && later == [] && phase != Choose)
      && (phase == Options ==> !Open() && later == [])
    }
  }

  function Start(wantsDelivery: bool): Standing {
    Standing([], Dishes, Delivery(wantsDelivery, false, None, false, false, None), [], None, None,
             [], [], [], [], [], [], None, false, Guest)
  }

  // ---- The next step ----

  /** Whose turn it is behind a turn of the script. */
  function AwaitingOf(turn: Turn): Awaiting {
    if turn.Say? || turn.Broken? then Guest else Result(turn)
  }

  /** Each tool is called exactly when it is due and with what the guest said; a step
      confirms nothing and breaks nothing. */
  predicate Follows(turn: Turn, ahead: Standing, slots: Slots) {
    && (turn.Search? <==> ahead.SearchDue()) && (turn.CheckZone? <==> ahead.ZoneDue(slots))
    && (turn.Lookup? <==> ahead.LookupDue(slots)) && (turn.Draft? <==> ahead.DraftDue(slots))
    && (turn.CheckZone? ==> turn.address == slots.address) && (turn.Lookup? ==> turn.name == slots.name)
    && (turn.Draft? ==> turn == Draft(turn.phone, slots.name, PlaceOf(ahead.delivery, slots), ahead.cart)
                        && slots.phone == Some(turn.phone))
    && !turn.Confirm? && !turn.Broken?
  }

  /** The guest hears these sentences now, or they go along to the search that is called. */
  predicate Delivered(turn: Turn, lead: seq<Sentence>, carry: seq<Sentence>) {
    || lead == []
    || (turn.Say? && lead <= turn.sentences)
    || (turn.Search? && |lead| <= |carry| && carry[|carry| - |lead|..] == lead)
  }

  /** What is to be spoken reaches the guest, now or with the next search, unless a tool
      is due whose call speaks nothing: then it is lost. */
  predicate HeardUnlessCalled(turn: Turn, lead: seq<Sentence>, carry: seq<Sentence>, ahead: Standing, slots: Slots) {
    Delivered(turn, lead, carry) <==> lead == [] || !ahead.CallDue(slots)
  }

  /** The first line with an open mandatory group. */
  function FirstPending(cart: seq<CartItem>): (item: nat)
    requires AnyPending(cart)
    ensures item < |cart| && cart[item].pending != []
    ensures forall i :: 0 <= i < item ==> cart[i].pending == []
  {
    if cart[0].pending != [] then 0
    else
      assert forall i :: 1 <= i < |cart| ==> cart[i] == cart[1..][i - 1];
      1 + FirstPending(cart[1..])
  }

  /** The question for the first thing that is missing. */
  function QuestionDue(ahead: Standing, slots: Slots): Sentence {
    if ahead.allergyFor != [] then AskAllergy(ahead.allergyFor)
    else if ahead.groupFor != [] then ahead.groupFor[0].question
    else if AnyPending(ahead.cart) then
      AskOption(FirstPending(ahead.cart), ahead.cart[FirstPending(ahead.cart)].pending[0])
    else if ahead.cart == [] then AskWhat
    else if !ahead.AtCustomer() then AskMore
    else if !HasPlace(ahead.delivery, slots.address) then AskAddress
    else if !HasName(slots, ahead.delivery) then AskName
    else AskPhone
  }

  /** First what was to be spoken, then the question that is due, but no question twice;
      suggestions bring their own. */
  function Spoken(lead: seq<Sentence>, ahead: Standing, slots: Slots): (sentences: seq<Sentence>)
    ensures lead <= sentences && |sentences| <= |lead| + 1
  {
    if ahead.Open() && QuestionDue(ahead, slots) in lead then lead
    else if !ahead.Open() && ahead.phase == Choose then if lead == [] then [AskWhat] else lead
    else lead + [QuestionDue(ahead, slots)]
  }

  function PhaseBehind(ahead: Standing, turn: Turn): Phase {
    if ahead.Asking() then ahead.phase
    else if AnyPending(ahead.cart) then Options
    else if ahead.cart == [] then Dishes
    else if ahead.AtCustomer() then Customer
    else if turn.CheckZone? then ahead.phase
    else More
  }

  /** The next step from `ahead`, with `lead` to be spoken. */
  predicate NextMoves(ahead: Standing, slots: Slots, lead: seq<Sentence>, turn: Turn, now: Standing) {
    && Follows(turn, ahead, slots) && (turn.Search? ==> turn.query == ahead.later[0])
    && (turn.Say? ==> turn.sentences == Spoken(lead, ahead, slots))
    && HeardUnlessCalled(turn, lead, now.carry, ahead, slots)
    && now == ahead.(
         later := if turn.Search? then ahead.later[1..] else ahead.later,
         carry := if turn.Search? then ahead.carry + lead else ahead.carry,
         phase := PhaseBehind(ahead, turn),
         complete := ahead.complete && (ahead.Asking() || AnyPending(ahead.cart)),
         delivery := ahead.delivery.(lookedUp := ahead.delivery.lookedUp || turn.Lookup?),
         awaiting := AwaitingOf(turn))
  }

  lemma {:induction false} SearchMoves(ahead: Standing, slots: Slots, lead: seq<Sentence>)
    requires ahead.SearchDue() && ahead.awaiting == Guest
    ensures var turn := Search(ahead.later[0]);
            NextMoves(ahead, slots, lead, turn,
                      ahead.(later := ahead.later[1..], carry := ahead.carry + lead, awaiting := Result(turn)))
  {
  }

  lemma {:induction false} QuestionMoves(ahead: Standing, slots: Slots, lead: seq<Sentence>)
    requires (ahead.Open() || ahead.phase == Choose) && ahead.awaiting == Guest
    ensures NextMoves(ahead, slots, lead, Say(Spoken(lead, ahead, slots)), ahead)
  {
  }

  /** Taken from where it may be taken, the step keeps everything. */
  lemma {:induction false} NextIsSound(ahead: Standing, slots: Slots, lead: seq<Sentence>, turn: Turn, now: Standing)
    requires ahead.Ready() && NextMoves(ahead, slots, lead, turn, now)
    ensures now.Sound()
  {
  }

  // ---- Where an event leads ----

  /** On to the next step, with something to be spoken, or to a turn of its own. */
  datatype Way =
    | Goes(ahead: Standing, slots: Slots, lead: seq<Sentence>)
    | Stays(turn: Option<Turn>, now: Standing)

  predicate Takes(way: Way, turn: Option<Turn>, now: Standing) {
    match way
    case Goes(ahead, slots, lead) => turn.Some? && NextMoves(ahead, slots, lead, turn.value, now)
    case Stays(own, left) => turn == own && now == left
  }

  /** The way keeps everything. */
  predicate WayOk(way: Way) {
    match way
    case Goes(ahead, _, _) => ahead.Ready()
    case Stays(own, left) => left.Sound() && left.awaiting == if own.Some? then AwaitingOf(own.value) else Guest
  }

  lemma {:induction false} TakenIsSound(way: Way, turn: Option<Turn>, now: Standing)
    requires WayOk(way) && Takes(way, turn, now)
    ensures now.Sound() && now.awaiting == if turn.Some? then AwaitingOf(turn.value) else Guest
  {
    if way.Goes? {
      NextIsSound(way.ahead, way.slots, way.lead, turn.value, now);
    }
  }

  function Speaks(sentences: seq<Sentence>, now: Standing): Way {
    Stays(Some(Say(sentences)), now)
  }

  function Searches(query: string, now: Standing): Way {
    Stays(Some(Search(query)), now.(awaiting := Result(Search(query))))
  }

  // ---- A search for dishes ----

  /** The suggestions that stay open behind these parts: those of one part at most. */
  function Offered(parts: seq<Part>): seq<Hit> {
    var first := FirstUnclear(parts);
    if first.Some? && first.value.Several? then first.value.hits else []
  }

  /** The wish that waits with them. */
  function OfferedWish(parts: seq<Part>, was: Option<string>): Option<string> {
    var first := FirstUnclear(parts);
    if first.Some? && first.value.Several? then first.value.raw else was
  }

  /** The lines of these parts for which an allergy has to be asked; the first line comes
      at place `at` of the cart. */
  function AllergiesOf(parts: seq<Part>, at: nat): seq<nat> {
    if parts == [] then []
    else
      var front, last := parts[..|parts| - 1], parts[|parts| - 1];
      AllergiesOf(front, at) + OpensAllergy(last, at + |Lines(front)|)
  }

  function GroupsOf(parts: seq<Part>, at: nat): seq<OpenGroup> {
    if parts == [] then []
    else
      var front, last := parts[..|parts| - 1], parts[|parts| - 1];
      GroupsOf(front, at) + OpensGroup(last, at + |Lines(front)|)
  }

  function OpensAllergy(part: Part, at: nat): seq<nat> {
    if Taken(part) then AsksAllergy(at, part.wish) else []
  }

  function OpensGroup(part: Part, at: nat): seq<OpenGroup> {
    if Taken(part) then AsksGroup(at, part.wish) else []
  }

  function AsksAllergy(item: nat, wish: Option<Wish>): seq<nat> {
    if wish.Some? && wish.value.kind.AllergyOpen? then [item] else []
  }

  function AsksGroup(item: nat, wish: Option<Wish>): seq<OpenGroup> {
    if wish.Some? && wish.value.kind.Groups?
    then [OpenGroup(item, wish.value.kind.groups, wish.value.kind.question)] else []
  }

  /** Some line of these parts has to be asked about before anything else. */
  predicate AsksFirst(parts: seq<Part>, at: nat) {
    AllergiesOf(parts, at) != [] || GroupsOf(parts, at) != []
  }

  /** The question held back behind an allergy or a group. */
  function HeldOf(parts: seq<Part>, at: nat): seq<Sentence> {
    if AsksFirst(parts, at) then Questions(parts) else []
  }

  /** What is to be spoken behind these parts. */
  function LeadOf(parts: seq<Part>, say: seq<Sentence>, carried: seq<Sentence>, at: nat): seq<Sentence> {
    carried + say + SoldOuts(parts) + if AsksFirst(parts, at) then [] else Questions(parts)
  }

  /** Where the call stands with these parts in their places. */
  function Behind(parts: seq<Part>, was: Standing): Standing {
    var at := |was.cart|;
    was.(cart := was.cart + Lines(parts), later := was.later + Laters(parts),
         allergyFor := AllergiesOf(parts, at), groupFor := GroupsOf(parts, at), afterAllergy := HeldOf(parts, at),
         suggestions := Offered(parts), suggestionWish := OfferedWish(parts, was.suggestionWish),
         phase := if Offered(parts) != [] then Choose else was.phase)
  }

  /** A dish that was offered is found again: it gets the wish that waited with the offer. */
  predicate Carries(again: seq<Hit>, part: Part, wish: Option<string>) {
    && again != [] && wish.Some? && Taken(part) && part.wish.None?
    && exists i :: 0 <= i < |again| && again[i].id == part.hit.id
  }

  function WishOf(part: Part, carries: bool): Option<Wish>
    requires part.Clear?
  {
    if carries then part.carried else part.wish
  }

  /** The line a single answer brings into the cart, with its own wish or the one of the
      question that was open. */
  function LineOf(part: Part, carries: bool): seq<CartItem> {
    if !Taken(part) then []
    else [Wished(Fresh(part.hit, part.quantity), WishOf(part, carries))]
  }

  /** What is said to a single answer. */
  function SaidTo(part: Part, say: seq<Sentence>, tail: seq<Sentence>): seq<Sentence> {
    if Taken(part) then say + tail else [if part.Clear? then SoldOut(part.hit) else QuestionOf(part)]
  }

  function LeadOfOne(part: Part, say: seq<Sentence>, tail: seq<Sentence>, carries: bool,
                     carried: seq<Sentence>): seq<Sentence> {
    carried + SaidTo(part, say, if carries then tail else [])
  }

  /** Where the call stands with a single part in its place. */
  function BehindOne(part: Part, carries: bool, was: Standing): Standing {
    var at := |was.cart|;
    match part
    case Clear(_, _, _, _, _) =>
      was.(cart := was.cart + LineOf(part, carries),
           allergyFor := if Taken(part) then AsksAllergy(at, WishOf(part, carries)) else [],
           groupFor := if Taken(part) then AsksGroup(at, WishOf(part, carries)) else [])
    case Several(_, hits, raw) => was.(suggestions := hits, suggestionWish := raw, phase := Choose)
    case Unclear(_, _) => was
  }

  /** A correction is taken only from one clear dish that is to be had. */
  predicate Replaces(found: Found) {
    found.Single? && Taken(found.part)
  }

  /** The line with the new dish: its quantity if one was said, the note of the old one;
      the options belonged to the old dish. */
  function Corrected(line: CartItem, hit: Hit, quantity: Option<nat>): CartItem {
    Fresh(hit, if quantity.Some? && quantity.value > 0 then quantity.value else line.quantity).(note := line.note)
  }

  /** The order behind a correction: the new dish in the place of the line, or nothing. */
  function CorrectedCart(cart: seq<CartItem>, fix: Fix, found: Found): seq<CartItem>
    requires fix.at < |cart|
  {
    if Replaces(found) then cart[fix.at := Corrected(cart[fix.at], found.part.hit, fix.quantity)] else []
  }

  /** A correction swaps the line for a clear dish that is to be had; otherwise the order
      starts over, and a dish that is out is named. */
  function CorrectionWay(was: Standing, fix: Fix, found: Found, slots: Slots): Way
    requires fix.at < |was.cart|
  {
    var w := was.(cart := CorrectedCart(was.cart, fix, found));
    if Replaces(found) then Goes(w.(complete := true), slots, [])
    else
      var soldOut := if found.Single? && found.part.Clear? then found.say else [];
      Speaks(soldOut + [Restarted], w.(phase := Dishes))
  }

  function FoundWay(was: Standing, found: Found, slots: Slots): Way
    requires was.replace.Some? ==> was.replace.value.at < |was.cart|
  {
    if was.replace.Some? then CorrectionWay(was.(awaiting := Guest, replace := None), was.replace.value, found, slots)
    else
      var w := was.(awaiting := Guest, reopen := []);
      match found
      case Positions(parts, say) =>
        Goes(Behind(parts, w).(carry := []), slots, LeadOf(parts, say, was.carry, |was.cart|))
      case Single(part, say, tail) =>
        var carries := Carries(was.reopen, part, was.suggestionWish);
        Goes(BehindOne(part, carries, w).(carry := []), slots, LeadOfOne(part, say, tail, carries, was.carry))
  }

  /** Nothing was found: the question that was open still stands, a correction starts the
      order again. Without a turn the caller speaks what was carried along. */
  function FailedWay(was: Standing, say: Option<Sentence>, notFound: bool): Way {
    var w := was.(awaiting := Guest, replace := None, reopen := [], carry := []);
    if was.replace.Some? then
      if say.None? then Stays(None, w) else Speaks([say.value, Restarted], w.(cart := [], phase := Dishes))
    else if was.reopen == [] then Stays(None, w)
    else Speaks(was.carry + (if say.None? || notFound then [] else [say.value]) + [Offer(was.reopen)],
                w.(suggestions := was.reopen, phase := Choose))
  }

  // ---- A sentence of the guest ----

  /** What is held back joins what was said, as soon as nothing is open in front of it. */
  function Release(w: Standing, said: seq<Sentence>, slots: Slots): Way {
    if w.Open() then Goes(w, slots, said) else Goes(w.(afterAllergy := []), slots, said + w.afterAllergy)
  }

  /** The answer to "Wogegen?" for the first line that waits for one. */
  function AllergyWay(was: Standing, heard: AllergyHeard, slots: Slots): Way
    requires was.allergyFor != [] && was.allergyFor[0] < |was.cart|
  {
    var item := was.allergyFor[0];
    match heard
    case NotRead => Speaks([AskAllergy(was.allergyFor)], was)
    case Asked(note) =>
      Speaks([AskAllergy(was.allergyFor)], was.(cart := was.cart[item := was.cart[item].(note := note)]))
    case Read(note, said) =>
      Release(was.(cart := was.cart[item := was.cart[item].(note := note)], allergyFor := was.allergyFor[1..]),
              said, slots)
  }

  /** The answer to the question in which of its groups an option is meant. */
  function GroupWay(was: Standing, heard: GroupHeard, slots: Slots): Way
    requires was.groupFor != [] && was.groupFor[0].item < |was.cart|
  {
    var open, w := was.groupFor[0], was.(groupFor := was.groupFor[1..]);
    match heard
    case NoGroup => Speaks([open.question], was)
    case Dropped => Release(w, [], slots)
    case Named(wish, said) =>
      Release(w.(cart := w.cart[open.item := Wished(w.cart[open.item], wish)],
                 allergyFor := w.allergyFor + AsksAllergy(open.item, wish),
                 groupFor := w.groupFor + AsksGroup(open.item, wish)),
              said, slots)
  }

  /** The line with the answer to its first open group. */
  function Answered(item: CartItem, option: string): CartItem
    requires item.pending != []
  {
    item.(options := item.options + [Choice(item.pending[0].name, option)], pending := item.pending[1..])
  }

  /** The answer to a mandatory choice: exactly one of its options, else the question
      again. */
  function OptionWay(was: Standing, option: Option<string>, slots: Slots): Way {
    if !AnyPending(was.cart) then Stays(Some(Broken), was)
    else
      var item := FirstPending(was.cart);
      var group := was.cart[item].pending[0];
      if option.Some? && option.value in group.options then
        Goes(was.(cart := was.cart[item := Answered(was.cart[item], option.value)]), slots, [])
      else Speaks([AskOption(item, group)], was)
  }

  predicate FitsSuggestions(heard: Heard, suggestions: seq<Hit>) {
    && (heard.pick.Some? ==> heard.pick.value < |suggestions|)
    && (heard.otherPick.Some? ==> heard.otherPick.value < |suggestions|)
  }

  /** Where the suggestion that is chosen stands: named outright, or behind a no. */
  function Picked(heard: Heard): Option<nat> {
    if heard.pick.Some? then heard.pick
    else if !heard.finishes && heard.other.Some? then heard.otherPick
    else None
  }

  /** A suggestion that is out today is said so and the rest offered. */
  function RestWay(was: Standing, at: nat, slots: Slots): Way
    requires at < |was.suggestions|
  {
    var soldOut := SoldOut(was.suggestions[at]);
    var w := was.(suggestions := was.suggestions[..at] + was.suggestions[at + 1..]);
    if w.suggestions != [] then Speaks([soldOut, Offer(w.suggestions)], w)
    else Goes(w.(phase := Dishes), slots, [soldOut])
  }

  /** Any other one comes into the cart. */
  function PickWay(was: Standing, at: nat, heard: Heard, slots: Slots): Way
    requires at < |was.suggestions|
  {
    var hit := was.suggestions[at];
    if hit.soldOut then RestWay(was, at, slots)
    else
      Goes(was.(cart := was.cart + [Wished(Fresh(hit, heard.quantity), heard.wish)],
                allergyFor := was.allergyFor + AsksAllergy(|was.cart|, heard.wish),
                groupFor := was.groupFor + AsksGroup(|was.cart|, heard.wish),
                suggestions := [], phase := Dishes),
           slots, heard.wishSaid)
  }

  /** The answer to suggestions: one of them, none of them, or another dish. */
  function ChoiceWay(was: Standing, heard: Heard, slots: Slots): Way
    requires FitsSuggestions(heard, was.suggestions)
  {
    var w := was.(suggestions := [], phase := Dishes);
    if Picked(heard).Some? then PickWay(was, Picked(heard).value, heard, slots)
    else if heard.rejects && !heard.finishes && heard.other.Some? then Searches(heard.other.value, w)
    else if heard.rejects || heard.finishes then
      Goes(if heard.finishes && was.cart != [] then w.(phase := Customer) else w, slots, [])
    else Searches(heard.text, w.(reopen := was.suggestions))
  }

  /** A sentence in each phase, with no question open in front. */
  function PhaseWay(was: Standing, heard: Heard, slots: Slots): Way
    requires FitsSuggestions(heard, was.suggestions)
  {
    match was.phase
    case Choose => ChoiceWay(was, heard, slots)
    case Options => OptionWay(was, heard.option, slots)
    case More => if heard.done then Goes(was.(phase := Customer), slots, []) else Searches(heard.text, was)
    case Customer => Goes(was, slots, [])
    case Dishes => Searches(heard.text, was)
  }

  function SaidWay(was: Standing, heard: Heard, slots: Slots): Way
    requires was.PlacesOk() && FitsSuggestions(heard, was.suggestions)
  {
    if was.delivery.sameOpen then
      Goes(was.(delivery := was.delivery.(sameOpen := false, useStored := heard.agrees)), slots, [])
    else if was.allergyFor != [] then AllergyWay(was, heard.allergy, slots)
    else if was.groupFor != [] then GroupWay(was, heard.group, slots)
    else PhaseWay(was, heard, slots)
  }

  // ---- Delivery and read-back ----

  function LookupWay(was: Standing, stored: Option<string>, say: Option<Sentence>, slots: Slots): Way {
    var w := was.(awaiting := Guest);
    if stored.Some? && say.Some? then
      Speaks([say.value], w.(delivery := w.delivery.(stored := stored, sameOpen := true)))
    else Goes(w, slots, [])
  }

  function ZoneWay(was: Standing, slots: Slots): Way {
    Goes(was.(awaiting := Guest, delivery := was.delivery.(checked := Some(slots.address))), slots, [])
  }

  /** The tool refused the order. A zone check that fails between a mandatory choice and
      the next question leaves the phase of the choices behind it. */
  function BehindRefusal(was: Standing, code: Code): Standing {
    var w := was.(awaiting := Guest);
    match code
    case OutOfZone =>
      w.(delivery := w.delivery.(wanted := false, useStored := false),
         phase := if w.phase == Dishes then More else w.phase)
    case BelowMinimum => w.(phase := More)
    case InvalidDraft => w.(delivery := w.delivery.(useStored := false))
    case OtherCode => w
  }

  /** Only a yes confirms, and only the order read out. Any other answer gives the order
      up, a correction keeps its other lines. */
  function ReadbackWay(was: Standing, yes: bool, fix: Option<Fix>): Way
    requires was.readbackFor.Some?
  {
    if yes then
      Stays(Some(Confirm(was.readbackFor.value)), was.(awaiting := Result(Confirm(was.readbackFor.value))))
    else if fix.None? then Speaks([Restarted], was.(readbackFor := None, cart := [], phase := Dishes))
    else Searches(fix.value.card, was.(readbackFor := None, replace := fix))
  }

  // ---- Every event ----

  /** The event can take place now. */
  predicate Possible(was: Standing, event: Event) {
    match event
    case Said(heard, _) =>
      was.awaiting == Guest && was.readbackFor.None? && FitsSuggestions(heard, was.suggestions)
    case Readback(_, fix) => was.awaiting == Guest && was.readbackFor.Some? && (fix.Some? ==> fix.value.at < |was.cart|)
    case NewAddress(_) => was.awaiting == Guest && was.readbackFor.Some?
    case DeliveryWanted => was.awaiting == Guest
    case SearchFound(found, _) => was.awaiting.Result? && was.awaiting.of.Search? && FoundOk(found)
    case SearchFailed(_, _) => was.awaiting.Result? && was.awaiting.of.Search?
    case LookedUp(_, _, _) => was.awaiting.Result? && was.awaiting.of.Lookup?
    case ZoneAccepted(slots) =>
      was.awaiting.Result? && was.awaiting.of.CheckZone? && slots.address == was.awaiting.of.address
    case Drafted(_, _) => was.awaiting.Result? && was.awaiting.of.Draft?
    case Refused(_) => was.awaiting.Result? && !was.awaiting.of.Search?
    case Booked => was.awaiting.Result? && was.awaiting.of.Confirm?
  }

  function WayOf(was: Standing, event: Event): Way
    requires was.Sound() && Possible(was, event)
  {
    match event
    case Said(heard, slots) => SaidWay(was, heard, slots)
    case Readback(yes, fix) => ReadbackWay(was, yes, fix)
    case NewAddress(slots) => Goes(was.(readbackFor := None), slots, [])
    case DeliveryWanted => Stays(None, was.(delivery := was.delivery.(wanted := true)))
    case SearchFound(found, slots) => FoundWay(was, found, slots)
    case SearchFailed(say, notFound) => FailedWay(was, say, notFound)
    case LookedUp(stored, say, slots) => LookupWay(was, stored, say, slots)
    case ZoneAccepted(slots) => ZoneWay(was, slots)
    case Drafted(id, readback) => Speaks([readback], was.(awaiting := Guest, readbackFor := Some(id)))
    case Refused(code) => Stays(None, BehindRefusal(was, code))
    case Booked => Stays(None, was.(awaiting := Guest))
  }
}
