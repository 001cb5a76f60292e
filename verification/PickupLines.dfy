/** What one event of the order dialogue says about each line of the order
    (sim/scripted_order.py), and that the step makes exactly that of it. */
module PickupLines {
  import opened Wrappers
  import opened PickupScript
  import opened PickupSteps
  import opened PickupSound
  import opened PickupRuns
  import opened PickupPromises

  // ---- What an event says about a line ----

  /** A dish that was found clearly and is to be had. */
  predicate ToBeHad(part: Part) {
    part.Clear? && !part.hit.soldOut
  }

  function Had(parts: seq<Part>): nat {
    if parts == [] then 0
    else Had(parts[..|parts| - 1]) + if ToBeHad(parts[|parts| - 1]) then 1 else 0
  }

  function PartsOf(found: Found): seq<Part> {
    if found.Single? then [found.part] else found.parts
  }

  /** The one dish that was found had been offered: the wish of the question is its own. */
  predicate WasOffered(was: Standing, found: Found) {
    && found.Single? && ToBeHad(found.part) && found.part.wish.None? && was.suggestionWish.Some?
    && exists i :: 0 <= i < |was.reopen| && was.reopen[i].id == found.part.hit.id
  }

  /** A new line: its place, its dish, how many of it, and the wish it comes with. */
  datatype Arrival = Arrival(at: nat, hit: Hit, quantity: nat, wish: Option<Wish>)

  /** Part j of a result that answers no correction comes into the order, behind the
      lines that are there and the parts before it. */
  predicate PartArrives(was: Standing, found: Found, j: nat, a: Arrival) {
    && was.replace.None? && j < |PartsOf(found)| && ToBeHad(PartsOf(found)[j])
    && a.at == |was.cart| + Had(PartsOf(found)[..j])
    && a.hit == PartsOf(found)[j].hit && a.quantity == PartsOf(found)[j].quantity
    && a.wish == if WasOffered(was, found) then found.part.carried else PartsOf(found)[j].wish
  }

  /** Nothing else is open, and the sentence answers the suggestions. */
  predicate AnswersSuggestions(was: Standing) {
    was.phase == Choose && !was.delivery.sameOpen && was.allergyFor == [] && was.groupFor == []
  }

  /** The guest names one of the suggestions, at once or behind a no. */
  predicate Names(heard: Heard, at: nat) {
    heard.pick == Some(at) || (heard.pick.None? && !heard.finishes && heard.other.Some? && heard.otherPick == Some(at))
  }

  /** A suggestion the guest names and that is to be had comes into the order. */
  predicate SuggestionArrives(was: Standing, heard: Heard, j: nat, a: Arrival) {
    && AnswersSuggestions(was) && Names(heard, j) && j < |was.suggestions| && !was.suggestions[j].soldOut
    && a == Arrival(|was.cart|, was.suggestions[j], heard.quantity, heard.wish)
  }

  ghost predicate Arrives(was: Standing, event: Event, a: Arrival) {
    match event
    case SearchFound(found, _) => exists j :: PartArrives(was, found, j, a)
    case Said(heard, _) => exists j :: SuggestionArrives(was, heard, j, a)
    case _ => false
  }

  /** How many of a corrected dish: the number that was said, if it is not 0, else as
      many as of the line it replaces. */
  predicate KeepsQuantity(said: Option<nat>, before: nat, quantity: nat) {
    quantity == if said.Some? && said.value != 0 then said.value else before
  }

  /** The search for a correction of line i found one dish that is to be had. */
  predicate IsReplaced(was: Standing, event: Event, i: nat) {
    && event.SearchFound? && was.replace.Some? && was.replace.value.at == i
    && event.found.Single? && ToBeHad(event.found.part)
  }

  /** The order is given up: a no without a correction, or a correction that leads to
      nothing the guest can have. */
  predicate GivesUp(was: Standing, event: Event) {
    match event
    case Readback(yes, fix) => !yes && fix.None?
    case SearchFound(found, _) => was.replace.Some? && !(found.Single? && ToBeHad(found.part))
    case SearchFailed(say, _) => was.replace.Some? && say.Some?
    case _ => false
  }

  /** "Wogegen?" was asked for line i, and the answer leaves something out or not. */
  predicate AnswersAllergy(was: Standing, event: Event, i: nat) {
    && event.Said? && !was.delivery.sameOpen && was.allergyFor != [] && was.allergyFor[0] == i
    && !event.heard.allergy.NotRead?
  }

  /** It was asked in which group an option of line i is meant, and one was named. */
  predicate AnswersGroup(was: Standing, event: Event, i: nat) {
    && event.Said? && !was.delivery.sameOpen && was.allergyFor == [] && was.groupFor != []
    && was.groupFor[0].item == i && event.heard.group.Named?
  }

  /** Line i is the first with an open mandatory group, and an option of it was named. */
  predicate AnswersOption(was: Standing, event: Event, i: nat) {
    && event.Said? && !was.delivery.sameOpen && was.allergyFor == [] && was.groupFor == [] && was.phase == Options
    && i < |was.cart| && was.cart[i].pending != [] && (forall k :: 0 <= k < i ==> was.cart[k].pending == [])
    && event.heard.option.Some? && event.heard.option.value in was.cart[i].pending[0].options
  }

  /** The note a wish leaves in a line that had the note `before`. */
  function NoteBehind(wish: Option<Wish>, before: Option<string>): Option<string> {
    if wish.None? then before
    else
      match wish.value.kind
      case Note(text) => Some(text)
      case AllergyNamed(removal) => removal
      case _ => if wish.value.note.Some? then wish.value.note else before
  }

  /** The option of the menu a wish chooses. */
  function ChosenBy(wish: Option<Wish>): seq<Choice> {
    if wish.Some? && wish.value.kind.Chosen? then [Choice(wish.value.kind.group, wish.value.kind.option)] else []
  }

  /** A line as it comes in: the dish and the number of it that were said, the note and
      the option of its wish, and its other mandatory groups still open. */
  ghost predicate IsArrived(line: CartItem, a: Arrival) {
    && line.hit == a.hit && line.quantity == a.quantity
    && line.note == NoteBehind(a.wish, None) && line.options == ChosenBy(a.wish)
    && forall g :: g in line.pending <==>
                  g in a.hit.required && forall c :: c in ChosenBy(a.wish) ==> g.name != c.group
  }

  /** A line behind a correction: the new dish, the note of the line it replaces, and its
      mandatory groups all open. */
  predicate IsSwapped(line: CartItem, before: CartItem, fix: Fix, hit: Hit) {
    && line.hit == hit && KeepsQuantity(fix.quantity, before.quantity, line.quantity)
    && line.note == before.note && line.options == [] && line.pending == hit.required
  }

  /** A line that stays: dish and quantity as they were; only an answer about an allergy
      or a group changes the note, only an option that was named is added, and only the
      group it answers is no longer open. */
  ghost predicate IsKept(was: Standing, event: Event, i: nat, line: CartItem)
    requires i < |was.cart|
  {
    var before := was.cart[i];
    && line.hit == before.hit && line.quantity == before.quantity
    && line.note == (
         if AnswersAllergy(was, event, i) then event.heard.allergy.note
         else if AnswersGroup(was, event, i) then NoteBehind(event.heard.group.wish, before.note)
         else before.note)
    && line.options == before.options + (
         if AnswersGroup(was, event, i) then ChosenBy(event.heard.group.wish)
         else if AnswersOption(was, event, i) then [Choice(before.pending[0].name, event.heard.option.value)]
         else [])
    && if AnswersOption(was, event, i) then line.pending == before.pending[1..]
       else if AnswersGroup(was, event, i) then
         forall g :: g in line.pending <==>
           g in before.pending && forall c :: c in ChosenBy(event.heard.group.wish) ==> g.name != c.group
       else line.pending == before.pending
  }

  /** What one event makes of the order, line by line. */
  ghost predicate OrderMoves(was: Standing, event: Event, cart: seq<CartItem>) {
    if GivesUp(was, event) then cart == []
    else
      && |was.cart| <= |cart|
      && (forall i :: 0 <= i < |was.cart| ==> LineMoves(was, event, i, cart[i]))
      && (forall a :: Arrives(was, event, a) ==> a.at < |cart| && IsArrived(cart[a.at], a))
      && (forall i :: |was.cart| <= i < |cart| ==> SomeArrives(was, event, i))
  }

  ghost predicate SomeArrives(was: Standing, event: Event, i: nat) {
    exists a :: Arrives(was, event, a) && a.at == i
  }

  ghost predicate LineMoves(was: Standing, event: Event, i: nat, line: CartItem)
    requires i < |was.cart|
  {
    if IsReplaced(was, event, i) then IsSwapped(line, was.cart[i], was.replace.value, event.found.part.hit)
    else IsKept(was, event, i, line)
  }

  // ---- Every step moves the order that way ----

  lemma {:induction false} HadBefore(parts: seq<Part>, j: nat)
    requires j < |parts| && ToBeHad(parts[j])
    ensures Had(parts[..j]) < Had(parts) && |Lines(parts)| == Had(parts)
    ensures Lines(parts)[Had(parts[..j])] == Line(parts[j])
  {
    var n := |parts| - 1;
    LinesAreHad(parts);
    LinesAreHad(parts[..n]);
    if j < n {
      HadBefore(parts[..n], j);
      assert parts[..n][..j] == parts[..j];
    }
  }

  lemma {:induction false} LinesAreHad(parts: seq<Part>)
    ensures |Lines(parts)| == Had(parts)
  {
    if parts != [] {
      LinesAreHad(parts[..|parts| - 1]);
    }
  }

  /** Each line of the parts is that of one part. */
  lemma {:induction false} LineHasPart(parts: seq<Part>, k: nat) returns (j: nat)
    requires k < Had(parts)
    ensures j < |parts| && ToBeHad(parts[j]) && Had(parts[..j]) == k
  {
    var n := |parts| - 1;
    if k < Had(parts[..n]) {
      j := LineHasPart(parts[..n], k);
      assert parts[..n][..j] == parts[..j];
    } else {
      j := n;
    }
  }

  lemma {:induction false} WishedLine(item: CartItem, wish: Option<Wish>)
    ensures var line := Wished(item, wish);
            && line.hit == item.hit && line.quantity == item.quantity
            && line.note == NoteBehind(wish, item.note) && line.options == item.options + ChosenBy(wish)
            && forall g :: g in line.pending <==>
                          g in item.pending && forall c :: c in ChosenBy(wish) ==> g.name != c.group
  {
    assert item.options + [] == item.options;
    if wish.Some? && wish.value.kind.Chosen? {
      forall g ensures g in Without(item.pending, wish.value.kind.group) <==>
        g in item.pending && g.name != wish.value.kind.group
      {
        WithoutKeeps(item.pending, wish.value.kind.group, g);
      }
      assert Choice(wish.value.kind.group, wish.value.kind.option) in ChosenBy(wish);
    }
  }

  lemma {:induction false} FreshLine(hit: Hit, quantity: nat, wish: Option<Wish>, at: nat)
    ensures IsArrived(Wished(Fresh(hit, quantity), wish), Arrival(at, hit, quantity, wish))
  {
    WishedLine(Fresh(hit, quantity), wish);
    assert [] + ChosenBy(wish) == ChosenBy(wish);
  }

  /** The order behind an event: the next step leaves it as it is. */
  ghost function CartBehind(was: Standing, event: Event): seq<CartItem>
    requires was.Sound() && Possible(was, event)
  {
    StandingOf(WayOf(was, event)).cart
  }

  lemma {:induction false} StepLeavesCart(was: Standing, step: Step)
    requires IsStep(was, step)
    ensures step.now.cart == CartBehind(was, step.event)
  {
    hide WayOf, Standing.Sound;
  }

  /** Nothing in this event concerns any line. */
  ghost predicate Untouched(was: Standing, event: Event) {
    && !GivesUp(was, event) && (forall a :: !Arrives(was, event, a))
    && forall i :: 0 <= i < |was.cart| ==>
         !IsReplaced(was, event, i) && !AnswersAllergy(was, event, i)
         && !AnswersGroup(was, event, i) && !AnswersOption(was, event, i)
  }

  lemma {:induction false} UntouchedMoves(was: Standing, event: Event)
    requires Untouched(was, event)
    ensures OrderMoves(was, event, was.cart)
  {
    forall i | 0 <= i < |was.cart| ensures LineMoves(was, event, i, was.cart[i]) {
      assert was.cart[i].options + [] == was.cart[i].options;
    }
  }

  /** Every line stays, and one comes in. */
  lemma {:induction false} KeptAsTheyAre(was: Standing, event: Event)
    requires forall i :: 0 <= i < |was.cart| ==>
               !IsReplaced(was, event, i) && !AnswersAllergy(was, event, i)
               && !AnswersGroup(was, event, i) && !AnswersOption(was, event, i)
    ensures forall i :: 0 <= i < |was.cart| ==> LineMoves(was, event, i, was.cart[i])
  {
    forall i | 0 <= i < |was.cart| ensures LineMoves(was, event, i, was.cart[i]) {
      assert was.cart[i].options + [] == was.cart[i].options;
    }
  }

  lemma {:induction false} PositionsMove(was: Standing, found: Found, slots: Slots)
    requires was.replace.None? && found.Positions?
    ensures OrderMoves(was, SearchFound(found, slots), was.cart + Lines(found.parts))
  {
    var event, parts, n := SearchFound(found, slots), found.parts, |was.cart|;
    var cart := was.cart + Lines(parts);
    KeptAsTheyAre(was, event);
    LinesAreHad(parts);
    forall a | Arrives(was, event, a) ensures a.at < |cart| && IsArrived(cart[a.at], a) {
      var j: nat :| PartArrives(was, found, j, a);
      HadBefore(parts, j);
      assert cart[a.at] == Line(parts[j]);
      FreshLine(a.hit, a.quantity, a.wish, a.at);
    }
    forall i | n <= i < |cart| ensures SomeArrives(was, event, i) {
      var j := LineHasPart(parts, i - n);
      var a := Arrival(i, parts[j].hit, parts[j].quantity, parts[j].wish);
      assert PartArrives(was, found, j, a);
      assert Arrives(was, event, a);
    }
  }

  lemma {:induction false} SingleMoves(was: Standing, found: Found, slots: Slots)
    requires was.replace.None? && found.Single?
    ensures OrderMoves(was, SearchFound(found, slots),
                       was.cart + LineOf(found.part, Carries(was.reopen, found.part, was.suggestionWish)))
  {
    var event, part := SearchFound(found, slots), found.part;
    var carries := Carries(was.reopen, part, was.suggestionWish);
    var cart := was.cart + LineOf(part, carries);
    assert WasOffered(was, found) == carries;
    KeptAsTheyAre(was, event);
    forall a | Arrives(was, event, a) ensures a.at < |cart| && IsArrived(cart[a.at], a) {
      var j: nat :| PartArrives(was, found, j, a);
      assert a == Arrival(|was.cart|, part.hit, part.quantity, WishOf(part, carries));
      FreshLine(a.hit, a.quantity, a.wish, a.at);
    }
    forall i | |was.cart| <= i < |cart| ensures SomeArrives(was, event, i) {
      var a := Arrival(i, part.hit, part.quantity, WishOf(part, carries));
      assert PartArrives(was, found, 0, a);
      assert Arrives(was, event, a);
    }
  }

  lemma {:induction false} CorrectionMoves(was: Standing, found: Found, slots: Slots)
    requires was.replace.Some? && was.replace.value.at < |was.cart|
    ensures OrderMoves(was, SearchFound(found, slots), CorrectedCart(was.cart, was.replace.value, found))
  {
    var event, fix := SearchFound(found, slots), was.replace.value;
    var cart := CorrectedCart(was.cart, fix, found);
    if Replaces(found) {
      forall i | 0 <= i < |was.cart| ensures LineMoves(was, event, i, cart[i]) {
        assert was.cart[i].options + [] == was.cart[i].options;
      }
    }
  }

  lemma {:induction false} PickMoves(was: Standing, at: nat, heard: Heard, slots: Slots)
    requires AnswersSuggestions(was) && Names(heard, at) && at < |was.suggestions|
    ensures OrderMoves(was, Said(heard, slots), StandingOf(PickWay(was, at, heard, slots)).cart)
  {
    var event, hit := Said(heard, slots), was.suggestions[at];
    KeptAsTheyAre(was, event);
    if hit.soldOut {
      assert Untouched(was, event);
      UntouchedMoves(was, event);
    } else {
      var cart := was.cart + [Wished(Fresh(hit, heard.quantity), heard.wish)];
      var a := Arrival(|was.cart|, hit, heard.quantity, heard.wish);
      assert SuggestionArrives(was, heard, at, a);
      assert Arrives(was, event, a);
      FreshLine(hit, heard.quantity, heard.wish, a.at);
      forall b | Arrives(was, event, b) ensures b == a {
        var j: nat :| SuggestionArrives(was, heard, j, b);
      }
    }
  }

  lemma {:induction false} AllergyMoves(was: Standing, heard: Heard, slots: Slots)
    requires !was.delivery.sameOpen && was.allergyFor != [] && was.allergyFor[0] < |was.cart|
    ensures OrderMoves(was, Said(heard, slots), StandingOf(AllergyWay(was, heard.allergy, slots)).cart)
  {
    var event := Said(heard, slots);
    var cart := StandingOf(AllergyWay(was, heard.allergy, slots)).cart;
    forall i | 0 <= i < |was.cart| ensures LineMoves(was, event, i, cart[i]) {
      assert was.cart[i].options + [] == was.cart[i].options;
    }
  }

  lemma {:induction false} GroupMoves(was: Standing, heard: Heard, slots: Slots)
    requires !was.delivery.sameOpen && was.allergyFor == [] && was.groupFor != [] && was.groupFor[0].item < |was.cart|
    ensures OrderMoves(was, Said(heard, slots), StandingOf(GroupWay(was, heard.group, slots)).cart)
  {
    var event, item := Said(heard, slots), was.groupFor[0].item;
    var cart := StandingOf(GroupWay(was, heard.group, slots)).cart;
    if heard.group.Named? {
      WishedLine(was.cart[item], heard.group.wish);
    }
    forall i | 0 <= i < |was.cart| ensures LineMoves(was, event, i, cart[i]) {
      assert was.cart[i].options + [] == was.cart[i].options;
    }
  }

  lemma {:induction false} OptionMoves(was: Standing, heard: Heard, slots: Slots)
    requires !was.delivery.sameOpen && was.allergyFor == [] && was.groupFor == [] && was.phase == Options
    ensures OrderMoves(was, Said(heard, slots), StandingOf(OptionWay(was, heard.option, slots)).cart)
  {
    var event := Said(heard, slots);
    var cart := StandingOf(OptionWay(was, heard.option, slots)).cart;
    forall i | 0 <= i < |was.cart| ensures LineMoves(was, event, i, cart[i]) {
      assert was.cart[i].options + [] == was.cart[i].options;
    }
  }

  /** A sentence that answers nothing about the lines. */
  lemma {:induction false} OtherwiseUntouched(was: Standing, heard: Heard, slots: Slots)
    requires was.delivery.sameOpen || (was.allergyFor == [] && was.groupFor == [] && was.phase != Options)
    requires AnswersSuggestions(was) ==> forall j :: !Names(heard, j)
    ensures OrderMoves(was, Said(heard, slots), was.cart)
  {
    assert Untouched(was, Said(heard, slots));
    UntouchedMoves(was, Said(heard, slots));
  }

  lemma {:induction false} PickedIsNamed(heard: Heard)
    ensures Picked(heard).Some? ==> Names(heard, Picked(heard).value)
    ensures Picked(heard).None? ==> forall j :: !Names(heard, j)
  {
  }

  lemma {:induction false} SaidMoves(was: Standing, heard: Heard, slots: Slots)
    requires was.PlacesOk() && FitsSuggestions(heard, was.suggestions)
    ensures OrderMoves(was, Said(heard, slots), StandingOf(SaidWay(was, heard, slots)).cart)
  {
    hide OrderMoves, AllergyWay, GroupWay, OptionWay, PickWay;
    PickedIsNamed(heard);
    if was.delivery.sameOpen {
      OtherwiseUntouched(was, heard, slots);
    } else if was.allergyFor != [] {
      AllergyMoves(was, heard, slots);
    } else if was.groupFor != [] {
      GroupMoves(was, heard, slots);
    } else if was.phase == Options {
      OptionMoves(was, heard, slots);
    } else if was.phase == Choose && Picked(heard).Some? {
      PickMoves(was, Picked(heard).value, heard, slots);
    } else {
      OtherwiseUntouched(was, heard, slots);
    }
  }

  lemma {:induction false} FoundMoves(was: Standing, found: Found, slots: Slots)
    requires was.replace.Some? ==> was.replace.value.at < |was.cart|
    ensures OrderMoves(was, SearchFound(found, slots), StandingOf(FoundWay(was, found, slots)).cart)
  {
    hide OrderMoves, CorrectedCart, Lines, LineOf, Carries;
    if was.replace.Some? {
      CorrectionMoves(was, found, slots);
    } else if found.Positions? {
      PositionsMove(was, found, slots);
    } else {
      SingleMoves(was, found, slots);
      var line := LineOf(found.part, Carries(was.reopen, found.part, was.suggestionWish));
      NoLineOf(found.part, Carries(was.reopen, found.part, was.suggestionWish));
      assert !found.part.Clear? ==> was.cart + line == was.cart;
    }
  }

  lemma {:induction false} NoLineOf(part: Part, carries: bool)
    ensures !part.Clear? ==> LineOf(part, carries) == []
  {
  }

  lemma {:induction false} OtherMoves(was: Standing, event: Event)
    requires was.Sound() && Possible(was, event) && !event.Said? && !event.SearchFound?
    ensures OrderMoves(was, event, CartBehind(was, event))
  {
    hide Standing.PlacesOk, Standing.QuestionsOk, Standing.ReadOutOk, FoundWay, SaidWay;
    if !GivesUp(was, event) {
      assert CartBehind(was, event) == was.cart;
      hide WayOf;
      UntouchedMoves(was, event);
    }
  }

  /** Main result for one step: what the event says about each line is what becomes of it. */
  lemma {:induction false} StepMovesOrder(was: Standing, step: Step)
    requires IsStep(was, step)
    ensures OrderMoves(was, step.event, step.now.cart)
  {
    hide OrderMoves, FoundWay, SaidWay;
    StepLeavesCart(was, step);
    match step.event
    case Said(heard, slots) => SaidMoves(was, heard, slots);
    case SearchFound(found, slots) => FoundMoves(was, found, slots);
    case _ => OtherMoves(was, step.event);
  }
}
