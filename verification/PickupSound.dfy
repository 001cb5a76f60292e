/** What every event of the order dialogue (sim/scripted_order.py) keeps. */
module PickupSound {
  import opened Wrappers
  import opened PickupScript
  import opened PickupSteps

  lemma {:induction false} NoteIsOk(item: CartItem, note: Option<string>)
    requires ItemOk(item)
    ensures ItemOk(item.(note := note))
  {
    var now := item.(note := note);
    forall i | 0 <= i < |item.hit.required|
      ensures Open(now, item.hit.required[i]) || IsChosen(now, item.hit.required[i].name)
    {
      if IsChosen(item, item.hit.required[i].name) {
        var k :| 0 <= k < |item.options| && item.options[k].group == item.hit.required[i].name;
        assert now.options[k].group == item.hit.required[i].name;
      }
    }
  }

  lemma {:induction false} AnsweredIsOk(item: CartItem, option: string)
    requires ItemOk(item) && item.pending != []
    ensures ItemOk(Answered(item, option))
  {
    var now := Answered(item, option);
    forall i | 0 <= i < |item.hit.required|
      ensures Open(now, item.hit.required[i]) || IsChosen(now, item.hit.required[i].name)
    {
      var group := item.hit.required[i];
      if group == item.pending[0] {
        assert now.options[|item.options|].group == group.name;
      } else if IsChosen(item, group.name) {
        var k :| 0 <= k < |item.options| && item.options[k].group == group.name;
        assert now.options[k].group == group.name;
      } else {
        assert item.pending == [item.pending[0]] + now.pending;
      }
    }
  }

  lemma {:induction false} OneMorePart(parts: seq<Part>, i: nat)
    requires i < |parts|
    ensures var front, more, part := parts[..i], parts[..i + 1], parts[i];
            && Lines(more) == Lines(front) + TakenLine(part)
            && SoldOuts(more) == SoldOuts(front) + (if part.Clear? && part.hit.soldOut then [SoldOut(part.hit)] else [])
            && Laters(more) == Laters(front) + (if !part.Clear? && FirstUnclear(front).Some? then [part.query] else [])
            && FirstUnclear(more) ==
               if FirstUnclear(front).Some? then FirstUnclear(front) else if part.Clear? then None else Some(part)
  {
    assert parts[..i + 1][..i] == parts[..i];
  }

  lemma {:induction false} OneMoreOpened(parts: seq<Part>, i: nat, at: nat)
    requires i < |parts|
    ensures var place := at + |Lines(parts[..i])|;
            && AllergiesOf(parts[..i + 1], at) == AllergiesOf(parts[..i], at) + OpensAllergy(parts[i], place)
            && GroupsOf(parts[..i + 1], at) == GroupsOf(parts[..i], at) + OpensGroup(parts[i], place)
  {
    var more := parts[..i + 1];
    assert more[..|more| - 1] == parts[..i] && more[|more| - 1] == parts[i];
  }


  // ---- Lines ----

  lemma {:induction false} ReplacedOk(cart: seq<CartItem>, at: nat, item: CartItem)
    requires AllOk(cart) && at < |cart| && ItemOk(item)
    ensures AllOk(cart[at := item])
  {
  }

  lemma {:induction false} LineIsOk(hit: Hit, quantity: nat, wish: Option<Wish>)
    requires !hit.soldOut
    ensures AllOk([Wished(Fresh(hit, quantity), wish)])
  {
    FreshIsOk(hit, quantity);
    WishedIsOk(Fresh(hit, quantity), wish);
  }

  /** The lines of several parts are sound, and what they ask about is among them. */
  lemma {:induction false} LinesAreOk(parts: seq<Part>, at: nat)
    ensures AllOk(Lines(parts))
    ensures forall i :: 0 <= i < |AllergiesOf(parts, at)| ==> AllergiesOf(parts, at)[i] < at + |Lines(parts)|
    ensures forall i :: 0 <= i < |GroupsOf(parts, at)| ==> GroupsOf(parts, at)[i].item < at + |Lines(parts)|
  {
    if parts != [] {
      var last := parts[|parts| - 1];
      LinesAreOk(parts[..|parts| - 1], at);
      if Taken(last) {
        LineIsOk(last.hit, last.quantity, last.wish);
      }
    }
  }

  /** Between two turns of the guest with nothing open. */
  predicate Free(s: Standing) {
    && s.Ready() && !s.Open() && s.suggestions == [] && s.phase != Options && !s.complete
  }

  lemma {:induction false} BehindIsReady(parts: seq<Part>, was: Standing)
    requires Free(was.(carry := [])) && forall i :: 0 <= i < |parts| ==> PartOk(parts[i])
    ensures Behind(parts, was).(carry := []).Ready()
  {
    LinesAreOk(parts, |was.cart|);
  }

  lemma {:induction false} BehindOneIsReady(part: Part, carries: bool, was: Standing)
    requires Free(was.(carry := [])) && PartOk(part)
    ensures BehindOne(part, carries, was).(carry := []).Ready()
  {
    if Taken(part) {
      LineIsOk(part.hit, part.quantity, WishOf(part, carries));
    }
  }

  /** While a search is under way, no question is open. */
  lemma {:induction false} SearchStands(was: Standing)
    requires was.Sound() && was.awaiting.Result? && was.awaiting.of.Search?
    ensures was.allergyFor == [] && was.groupFor == [] && was.suggestions == [] && was.afterAllergy == []
    ensures was.replace.Some? ==> was.replace.value.at < |was.cart| && was.reopen == [] && was.carry == []
  {
  }

  lemma {:induction false} SoundPlaces(was: Standing)
    requires was.Sound()
    ensures was.PlacesOk()
  {
  }

  // ---- Each way ----

  lemma {:induction false} FoundIsOk(was: Standing, found: Found, slots: Slots)
    requires was.Sound() && was.awaiting.Result? && was.awaiting.of.Search? && FoundOk(found)
    ensures WayOk(FoundWay(was, found, slots))
  {
    if was.replace.Some? {
      CorrectionIsOk(was.(awaiting := Guest, replace := None), was.replace.value, found, slots);
    } else {
      var w := was.(awaiting := Guest, reopen := []);
      match found
      case Positions(parts, _) => BehindIsReady(parts, w);
      case Single(part, _, _) => BehindOneIsReady(part, Carries(was.reopen, part, was.suggestionWish), w);
    }
  }

  lemma {:induction false} CorrectionIsOk(was: Standing, fix: Fix, found: Found, slots: Slots)
    requires Free(was) && was.later == [] && was.afterAllergy == [] && fix.at < |was.cart|
    ensures WayOk(CorrectionWay(was, fix, found, slots))
  {
    if Replaces(found) {
      var line := Corrected(was.cart[fix.at], found.part.hit, fix.quantity);
      FreshIsOk(found.part.hit, line.quantity);
      NoteIsOk(Fresh(found.part.hit, line.quantity), line.note);
      ReplacedOk(was.cart, fix.at, line);
    }
  }

  lemma {:induction false} ReleaseIsOk(w: Standing, said: seq<Sentence>, slots: Slots)
    requires w.(afterAllergy := []).Ready() && w.phase != Options && !w.complete
    ensures WayOk(Release(w, said, slots))
  {
  }

  lemma {:induction false} AllergyIsOk(was: Standing, heard: AllergyHeard, slots: Slots)
    requires was.Sound() && was.awaiting == Guest && was.readbackFor.None? && !was.delivery.sameOpen
    requires was.allergyFor != []
    ensures WayOk(AllergyWay(was, heard, slots))
  {
    if !heard.NotRead? {
      var item := was.allergyFor[0];
      NoteIsOk(was.cart[item], heard.note);
      ReplacedOk(was.cart, item, was.cart[item].(note := heard.note));
      if heard.Read? {
        ReleaseIsOk(was.(cart := was.cart[item := was.cart[item].(note := heard.note)],
                         allergyFor := was.allergyFor[1..]), heard.said, slots);
      }
    }
  }

  lemma {:induction false} GroupIsOk(was: Standing, heard: GroupHeard, slots: Slots)
    requires was.Sound() && was.awaiting == Guest && was.readbackFor.None? && !was.delivery.sameOpen
    requires was.groupFor != []
    ensures WayOk(GroupWay(was, heard, slots))
  {
    var open, w := was.groupFor[0], was.(groupFor := was.groupFor[1..]);
    match heard
    case NoGroup =>
    case Dropped => ReleaseIsOk(w, [], slots);
    case Named(wish, said) =>
      WishedIsOk(w.cart[open.item], wish);
      ReplacedOk(w.cart, open.item, Wished(w.cart[open.item], wish));
      ReleaseIsOk(w.(cart := w.cart[open.item := Wished(w.cart[open.item], wish)],
                     allergyFor := w.allergyFor + AsksAllergy(open.item, wish),
                     groupFor := w.groupFor + AsksGroup(open.item, wish)), said, slots);
  }

  lemma {:induction false} OptionIsOk(was: Standing, option: Option<string>, slots: Slots)
    requires was.Sound() && was.awaiting == Guest && was.readbackFor.None? && !was.delivery.sameOpen
    requires was.phase == Options
    ensures WayOk(OptionWay(was, option, slots))
  {
    if AnyPending(was.cart) && option.Some? {
      var item := FirstPending(was.cart);
      AnsweredIsOk(was.cart[item], option.value);
      ReplacedOk(was.cart, item, Answered(was.cart[item], option.value));
    }
  }

  lemma {:induction false} PickIsOk(was: Standing, at: nat, heard: Heard, slots: Slots)
    requires was.Sound() && was.awaiting == Guest && was.readbackFor.None? && !was.delivery.sameOpen
    requires was.phase == Choose && !was.Open() && at < |was.suggestions|
    ensures WayOk(PickWay(was, at, heard, slots))
  {
    var hit := was.suggestions[at];
    if !hit.soldOut {
      LineIsOk(hit, heard.quantity, heard.wish);
    }
  }

  lemma {:induction false} ChoiceIsOk(was: Standing, heard: Heard, slots: Slots)
    requires was.Sound() && was.awaiting == Guest && was.readbackFor.None? && !was.delivery.sameOpen
    requires was.phase == Choose && !was.Open() && FitsSuggestions(heard, was.suggestions)
    ensures WayOk(ChoiceWay(was, heard, slots))
  {
    if Picked(heard).Some? {
      PickIsOk(was, Picked(heard).value, heard, slots);
    }
  }

  lemma {:induction false} SaidIsOk(was: Standing, heard: Heard, slots: Slots)
    requires was.Sound() && Possible(was, Said(heard, slots))
    ensures WayOk(SaidWay(was, heard, slots))
  {
    if !was.delivery.sameOpen {
      if was.allergyFor != [] {
        AllergyIsOk(was, heard.allergy, slots);
      } else if was.groupFor != [] {
        GroupIsOk(was, heard.group, slots);
      } else if was.phase == Choose {
        ChoiceIsOk(was, heard, slots);
      } else if was.phase == Options {
        OptionIsOk(was, heard.option, slots);
      }
    }
  }

  lemma {:induction false} FailedIsOk(was: Standing, say: Option<Sentence>, notFound: bool)
    requires was.Sound() && Possible(was, SearchFailed(say, notFound))
    ensures WayOk(FailedWay(was, say, notFound))
  {
  }

  lemma {:induction false} RefusedIsSound(was: Standing, code: Code)
    requires was.Sound() && Possible(was, Refused(code))
    ensures BehindRefusal(was, code).Sound()
  {
  }

  lemma {:induction false} ReadbackIsOk(was: Standing, yes: bool, fix: Option<Fix>)
    requires was.Sound() && Possible(was, Readback(yes, fix))
    ensures WayOk(ReadbackWay(was, yes, fix))
  {
  }

  lemma {:induction false} ToolIsOk(was: Standing, event: Event)
    requires was.Sound() && Possible(was, event)
    requires event.LookedUp? || event.ZoneAccepted? || event.Drafted? || event.Booked?
    ensures WayOk(WayOf(was, event))
  {
  }

  lemma {:induction false} CallerIsOk(was: Standing, event: Event)
    requires was.Sound() && Possible(was, event) && (event.NewAddress? || event.DeliveryWanted?)
    ensures WayOk(WayOf(was, event))
  {
  }

  lemma {:induction false} EventIsOk(was: Standing, event: Event)
    requires was.Sound() && Possible(was, event)
    ensures WayOk(WayOf(was, event))
  {
    match event
    case Said(heard, slots) => SaidIsOk(was, heard, slots);
    case SearchFound(found, slots) => FoundIsOk(was, found, slots);
    case Readback(yes, fix) => ReadbackIsOk(was, yes, fix);
    case SearchFailed(say, notFound) => FailedIsOk(was, say, notFound);
    case Refused(code) => RefusedIsSound(was, code);
    case LookedUp(_, _, _) => ToolIsOk(was, event);
    case ZoneAccepted(_) => ToolIsOk(was, event);
    case Drafted(_, _) => ToolIsOk(was, event);
    case Booked => ToolIsOk(was, event);
    case NewAddress(_) => CallerIsOk(was, event);
    case DeliveryWanted => CallerIsOk(was, event);
  }

  /** Every event keeps the call sound. */
  lemma {:induction false} EventIsSound(was: Standing, event: Event, turn: Option<Turn>, now: Standing)
    requires was.Sound() && Possible(was, event) && Takes(WayOf(was, event), turn, now)
    ensures now.Sound() && now.awaiting == if turn.Some? then AwaitingOf(turn.value) else Guest
  {
    EventIsOk(was, event);
    TakenIsSound(WayOf(was, event), turn, now);
  }
}
