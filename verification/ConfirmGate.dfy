/** What the core enforces before it carries a call of the model out
    (api/agent/guards.py): a `confirm` needs the guest's yes to a draft read out in
    the sentence before, a draft only holds dishes the guest or a clear search
    named. The model, the tools and the loop around them are arbitrary events. */
module ConfirmGate {
  import opened Wrappers
  import opened Consent

  datatype Stage = Pending | Elsewhere

  /** Card number and name of an offered dish. */
  datatype Label = Label(number: string, name: string)

  /** The rules for words: which sentences are a yes, which name a dish. */
  datatype Rules = Rules(yes: iset<string>, names: iset<(Words, Label)>)

  /** What the conversation keeps of drafts and dishes. */
  datatype State = State(
    stage: Stage,
    orderId: Option<string>,
    reservationId: Option<string>,
    readback: Option<Readback>,
    heard: bool,
    offered: map<string, Label>,
    known: set<string>)

  const START := State(Elsewhere, None, None, None, false, map[], {})

  datatype Tool = Confirm | DraftOrder | CreateReservation | CreateCallback | GetItemDetails | Other

  /** A call of the model. The word rules have already said what is wrong with its
      notes, its name and its number, and whether its items differ from the cart. */
  datatype Call = Call(tool: Tool, entityId: string, items: seq<string>, faults: Faults)

  datatype Faults = Faults(
    allergyInNote: bool, onlyStatesAllergy: bool, nameNotSaid: bool, numberMissing: bool,
    noNumberKnown: bool, otherNumber: bool, differsFromCart: bool)

  datatype Refused =
    | AllergyNote | StatedAllergy | NotConfirmed | NoDraft | GuestName | GuestPhone
    | CallbackWithoutNumber | Item | DraftDiffers

  function ReadbackId(s: State): Option<string> {
    if s.stage != Pending then None else if s.orderId.Some? then s.orderId else s.reservationId
  }

  /** The state at the start of a sentence of the guest: the draft read out before, if any. */
  function BeginTurn(s: State): Option<string> {
    if s.heard then ReadbackId(s) else None
  }

  predicate MayConfirm(rules: Rules, s: State, start: Option<string>, text: string, call: Call) {
    start.Some? && ReadbackId(s) == start && call.entityId == start.value && text in rules.yes
  }

  predicate AllKnown(s: State, items: seq<string>) {
    forall i :: 0 <= i < |items| ==> items[i] in s.known
  }

  predicate StoresANote(tool: Tool) {
    tool.DraftOrder? || tool.CreateReservation?
  }

  /** None lets the call through. */
  function Refusal(rules: Rules, s: State, start: Option<string>, text: string, call: Call): Option<Refused> {
    var f := call.faults;
    if f.allergyInNote && StoresANote(call.tool) then Some(AllergyNote)
    else if call.tool.GetItemDetails? && f.onlyStatesAllergy then Some(StatedAllergy)
    else if call.tool.Confirm? then
      if MayConfirm(rules, s, start, text, call) then None
      else if ReadbackId(s).Some? then Some(NotConfirmed) else Some(NoDraft)
    else if f.nameNotSaid then Some(GuestName)
    else if f.numberMissing then
      if call.tool.CreateCallback? && f.noNumberKnown then Some(CallbackWithoutNumber) else Some(GuestPhone)
    else if f.otherNumber then Some(GuestPhone)
    else if call.tool.DraftOrder? && !AllKnown(s, call.items) then Some(Item)
    else if call.tool.DraftOrder? && f.differsFromCart then Some(DraftDiffers)
    else None
  }

  /** The sentence of a draft that has yet to be read out. */
  function UnheardReadback(s: State): Option<Readback> {
    if s.stage == Pending && !s.heard then s.readback else None
  }

  /** The sentence the core says itself: on a yes for a draft not heard last. */
  function RereadOnYes(rules: Rules, s: State, start: Option<string>, text: string, call: Call): Option<Readback> {
    if !call.tool.Confirm? || text !in rules.yes || MayConfirm(rules, s, start, text, call) then None
    else UnheardReadback(s)
  }

  function Named(rules: Rules, offered: map<string, Label>, words: Words): set<string> {
    set id | id in offered && (words, offered[id]) in rules.names
  }

  /** The sentence that ends a turn decides what was heard. */
  ghost function AfterSaying(rules: Rules, s: State, words: Words): State {
    var named := Named(rules, s.offered, words);
    s.(heard := s.readback.Some? && ReadsOut(words, s.readback.value),
       known := s.known + named,
       offered := map id | id in s.offered && id !in named :: s.offered[id])
  }

  class Conversation {
    const rules: Rules
    var stage: Stage
    var orderId: Option<string>
    var reservationId: Option<string>
    var readback: Option<Readback>
    var readbackHeard: bool
    var offeredItems: map<string, Label>
    var knownItemIds: set<string>

    ghost function Now(): State
      reads this
    {
      State(stage, orderId, reservationId, readback, readbackHeard, offeredItems, knownItemIds)
    }

    constructor (rules: Rules)
      ensures Now() == START && this.rules == rules
    {
      this.rules := rules;
      stage, orderId, reservationId, readback, readbackHeard := Elsewhere, None, None, None, false;
      offeredItems, knownItemIds := map[], {};
    }

    method NoteSaid(words: Words)
      modifies this
      ensures Now() == AfterSaying(rules, old(Now()), words)
    {
      readbackHeard := false;
      if readback.Some? {
        readbackHeard := ReadOut(words, readback.value);
      }
      var named := Named(rules, offeredItems, words);
      knownItemIds := knownItemIds + named;
      offeredItems := map id | id in offeredItems && id !in named :: offeredItems[id];
    }
  }

  // ----- Whole calls -----

  /** What happens in a call. Every draft is a new sentence nobody heard, and
      dropping one clears what was heard; everything else is left open. */
  datatype Event =
    | GuestSpeaks(text: string)
    | Says(words: Words)
    | NewDraft(ofOrder: bool, id: string, readback: Option<Readback>)
    | DraftDropped
    | StageLeft
    | HeardCleared
    | Searched(clear: set<string>, offers: map<string, Label>)
    | Attempt(call: Call)

  /** The state, with what held at the start of the guest's turn and its sentence. */
  datatype Turn = Turn(state: State, start: Option<string>, text: string)

  ghost function Step(rules: Rules, t: Turn, e: Event): Turn {
    var s := t.state;
    match e
    case GuestSpeaks(text) => Turn(s, BeginTurn(s), text)
    case Says(words) => t.(state := AfterSaying(rules, s, words))
    case NewDraft(ofOrder, id, readback) =>
      t.(state := s.(stage := Pending, orderId := if ofOrder then Some(id) else None,
                     reservationId := if ofOrder then None else Some(id), readback := readback, heard := false))
    case DraftDropped =>
      t.(state := s.(stage := Elsewhere, orderId := None, reservationId := None, readback := None, heard := false))
    case StageLeft => t.(state := s.(stage := Elsewhere))
    case HeardCleared => t.(state := s.(heard := false))
    case Searched(clear, offers) => t.(state := s.(known := s.known + clear, offered := s.offered + offers))
    case Attempt(_) => t
  }

  ghost function Run(rules: Rules, events: seq<Event>): Turn {
    if events == [] then Turn(START, None, "")
    else Step(rules, Run(rules, events[..|events| - 1]), events[|events| - 1])
  }

  ghost function StateAt(rules: Rules, events: seq<Event>, k: nat): State
    requires k <= |events|
  {
    Run(rules, events[..k]).state
  }

  /** The event changes the draft or what was heard of it. */
  predicate TouchesDraft(e: Event) {
    e.Says? || e.NewDraft? || e.DraftDropped? || e.HeardCleared?
  }

  /** The sentence at s read the draft out that waits after `events`, and nothing
      has touched it since. */
  ghost predicate ReadOutLast(rules: Rules, events: seq<Event>, s: nat) {
    && s < |events| && events[s].Says?
    && (forall k :: s < k < |events| ==> !TouchesDraft(events[k]))
    && var was, now := StateAt(rules, events, s), Run(rules, events).state;
       && was.readback.Some? && ReadsOut(events[s].words, was.readback.value)
       && now.readback == was.readback && now.orderId == was.orderId && now.reservationId == was.reservationId
  }

  lemma {:induction false} HeardMeansReadOut(rules: Rules, events: seq<Event>)
    requires Run(rules, events).state.heard
    ensures exists s: nat :: ReadOutLast(rules, events, s)
  {
    var n := |events| - 1;
    var before, e := events[..n], events[n];
    if e.Says? {
      assert ReadOutLast(rules, events, n);
    } else {
      HeardMeansReadOut(rules, before);
      var s: nat :| ReadOutLast(rules, before, s);
      assert before[..s] == events[..s] && before[s] == events[s];
      assert forall k :: s < k < |events| ==> !TouchesDraft(events[k]) by {
        forall k | s < k < |events| ensures !TouchesDraft(events[k]) {
          if k < n {
            assert before[k] == events[k];
          }
        }
      }
      assert ReadOutLast(rules, events, s);
    }
  }

  /** The guest's sentence of the running turn. */
  predicate LastSentence(events: seq<Event>, g: nat) {
    g < |events| && events[g].GuestSpeaks? && forall k :: g < k < |events| ==> !events[k].GuestSpeaks?
  }

  /** The turn that runs began with the sentence at g. */
  ghost predicate BeganAt(rules: Rules, events: seq<Event>, g: nat) {
    && LastSentence(events, g)
    && Run(rules, events).start == BeginTurn(StateAt(rules, events, g))
    && Run(rules, events).text == events[g].text
  }

  lemma {:induction false} BeganBefore(rules: Rules, events: seq<Event>, g: nat)
    requires events != [] && !events[|events| - 1].GuestSpeaks? && BeganAt(rules, events[..|events| - 1], g)
    ensures BeganAt(rules, events, g)
  {
    var n := |events| - 1;
    assert events[..n][..g] == events[..g];
    forall k | g < k < |events| ensures !events[k].GuestSpeaks? {
      assert k < n ==> events[..n][k] == events[k];
    }
  }

  lemma {:induction false} TurnBegan(rules: Rules, events: seq<Event>)
    requires Run(rules, events).start.Some?
    ensures exists g: nat :: BeganAt(rules, events, g)
  {
    var n := |events| - 1;
    if events[n].GuestSpeaks? {
      assert BeganAt(rules, events, n);
    } else {
      TurnBegan(rules, events[..n]);
      var g: nat :| BeganAt(rules, events[..n], g);
      BeganBefore(rules, events, g);
    }
  }

  /** Main result. Whatever the model answers and whatever the tools do, a confirm
      is let through only if the guest's sentence of this turn is a yes, the draft
      it names was pending when the guest began, and the last sentence said before
      that read exactly this draft out. */
  lemma {:induction false} ConfirmNeedsAReadOutDraft(rules: Rules, events: seq<Event>, call: Call)
    requires call.tool.Confirm?
    requires var t := Run(rules, events); Refusal(rules, t.state, t.start, t.text, call).None?
    ensures exists s: nat, g: nat ::
              && s < g && LastSentence(events, g) && events[g].text in rules.yes
              && ReadOutLast(rules, events[..g], s)
              && ReadbackId(StateAt(rules, events, g)) == Some(call.entityId)
              && ReadbackId(Run(rules, events).state) == Some(call.entityId)
  {
    TurnBegan(rules, events);
    var g: nat :| BeganAt(rules, events, g);
    HeardMeansReadOut(rules, events[..g]);
    var s: nat :| ReadOutLast(rules, events[..g], s);
  }

  // ----- The sentence read out is the one of the draft that is booked -----

  predicate SameDraft(a: Event, b: Event) {
    a.NewDraft? && b.NewDraft? && a.id == b.id
  }

  /** A draft keeps its sentence: whenever it is read back again, it is the same one. */
  predicate DraftsKeepTheirSentence(events: seq<Event>) {
    forall j, k :: 0 <= j < |events| && 0 <= k < |events| && SameDraft(events[j], events[k]) ==>
      events[j].readback == events[k].readback
  }

  lemma {:induction false} PendingCameFromADraft(rules: Rules, events: seq<Event>)
    requires ReadbackId(Run(rules, events).state).Some?
    ensures exists d :: 0 <= d < |events| && events[d].NewDraft?
              && Some(events[d].id) == ReadbackId(Run(rules, events).state)
              && events[d].readback == Run(rules, events).state.readback
  {
    var n := |events| - 1;
    var before, e := events[..n], events[n];
    if e.NewDraft? {
      assert events[n].NewDraft?;
    } else {
      PendingCameFromADraft(rules, before);
      var d :| 0 <= d < n && before[d].NewDraft? && Some(before[d].id) == ReadbackId(Run(rules, before).state)
        && before[d].readback == Run(rules, before).state.readback;
      assert events[d] == before[d];
    }
  }

  /** Even if the draft was made again inside the turn, the sentence the guest said
      yes to is the sentence of the draft that is confirmed. */
  lemma {:induction false} ConfirmedSentenceWasHeard(rules: Rules, events: seq<Event>, call: Call)
    requires call.tool.Confirm? && DraftsKeepTheirSentence(events)
    requires var t := Run(rules, events); Refusal(rules, t.state, t.start, t.text, call).None?
    ensures exists s: nat :: s < |events| && events[s].Says? && Run(rules, events).state.readback.Some?
              && ReadsOut(events[s].words, Run(rules, events).state.readback.value)
  {
    ConfirmNeedsAReadOutDraft(rules, events, call);
    var s: nat, g: nat :| s < g && LastSentence(events, g) && ReadOutLast(rules, events[..g], s)
      && ReadbackId(StateAt(rules, events, g)) == Some(call.entityId);
    SameSentence(rules, events, g);
    ReadOutBefore(rules, events, s, g);
  }

  lemma {:induction false} ReadOutBefore(rules: Rules, events: seq<Event>, s: nat, g: nat)
    requires s < g <= |events| && ReadOutLast(rules, events[..g], s)
    ensures events[s].Says? && StateAt(rules, events, g).readback.Some?
    ensures ReadsOut(events[s].words, StateAt(rules, events, g).readback.value)
  {
    assert events[..g][s] == events[s];
  }

  /** The same draft pending at two moments has the same sentence at both. */
  lemma {:induction false} SameSentence(rules: Rules, events: seq<Event>, g: nat)
    requires DraftsKeepTheirSentence(events) && g <= |events|
    requires ReadbackId(StateAt(rules, events, g)).Some?
    requires ReadbackId(StateAt(rules, events, g)) == ReadbackId(Run(rules, events).state)
    ensures StateAt(rules, events, g).readback == Run(rules, events).state.readback
  {
    PendingCameFromADraft(rules, events[..g]);
    PendingCameFromADraft(rules, events);
    var j :| 0 <= j < g && events[..g][j].NewDraft? && Some(events[..g][j].id) == ReadbackId(StateAt(rules, events, g))
      && events[..g][j].readback == StateAt(rules, events, g).readback;
    var k :| 0 <= k < |events| && events[k].NewDraft? && Some(events[k].id) == ReadbackId(Run(rules, events).state)
      && events[k].readback == Run(rules, events).state.readback;
    assert events[..g][j] == events[j];
    assert SameDraft(events[j], events[k]);
  }

  // ----- No guest is kept in refused yeses -----

  /** After the core put the draft's question itself, the guest's next yes books the
      draft, whatever sentence was in between; and it does so exactly when the
      read-back has words and asks something. */
  lemma {:induction false} RereadThenYes(rules: Rules, t: Turn, call: Call, yes: string)
    requires RereadOnYes(rules, t.state, t.start, t.text, call).Some? && yes in rules.yes
    requires ReadbackId(t.state) == Some(call.entityId)
    ensures var r := RereadOnYes(rules, t.state, t.start, t.text, call).value;
            var next := Step(rules, Step(rules, t, Says(r.draft + r.question)), GuestSpeaks(yes));
            Refusal(rules, next.state, next.start, next.text, call).None? <==>
              r.draft != [] && (r.question != [] || r.asksItself)
  {
    OwnSentenceReadsOut(t.state.readback.value);
  }

  // ----- Where the dishes of a draft come from -----

  /** The search found the dish without a doubt. */
  predicate FoundAt(events: seq<Event>, f: nat, id: string) {
    f < |events| && events[f].Searched? && id in events[f].clear
  }

  /** A sentence that ended a turn named the dish as it was offered. */
  ghost predicate NamedAt(rules: Rules, events: seq<Event>, s: nat, id: string) {
    && s < |events| && events[s].Says? && id in StateAt(rules, events, s).offered
    && (events[s].words, StateAt(rules, events, s).offered[id]) in rules.names
    && exists f: nat :: f < s && events[f].Searched? && id in events[f].offers
         && events[f].offers[id] == StateAt(rules, events, s).offered[id]
  }

  lemma {:induction false} OfferedBySearch(rules: Rules, events: seq<Event>, id: string)
    requires id in Run(rules, events).state.offered
    ensures exists f: nat :: f < |events| && events[f].Searched? && id in events[f].offers
              && events[f].offers[id] == Run(rules, events).state.offered[id]
  {
    var n := |events| - 1;
    var before, e := events[..n], events[n];
    if e.Searched? && id in e.offers {
      assert events[n] == e;
    } else {
      OfferedBySearch(rules, before, id);
      var f: nat :| f < n && before[f].Searched? && id in before[f].offers
        && before[f].offers[id] == Run(rules, before).state.offered[id];
      assert events[f] == before[f];
    }
  }

  lemma {:induction false} KnownDish(rules: Rules, events: seq<Event>, id: string)
    requires id in Run(rules, events).state.known
    ensures (exists f: nat :: FoundAt(events, f, id)) || exists s: nat :: NamedAt(rules, events, s, id)
  {
    var n := |events| - 1;
    var before, e := events[..n], events[n];
    if id in Run(rules, before).state.known {
      KnownDish(rules, before, id);
      if f: nat :| FoundAt(before, f, id) {
        assert FoundAt(events, f, id);
      } else {
        var s: nat :| NamedAt(rules, before, s, id);
        NamedLater(rules, events, s, id);
      }
    } else if e.Searched? {
      assert FoundAt(events, n, id);
    } else {
      OfferedBySearch(rules, before, id);
      var f: nat :| f < n && before[f].Searched? && id in before[f].offers
        && before[f].offers[id] == Run(rules, before).state.offered[id];
      assert events[f] == before[f];
      assert NamedAt(rules, events, n, id);
    }
  }

  lemma {:induction false} NamedLater(rules: Rules, events: seq<Event>, s: nat, id: string)
    requires events != [] && NamedAt(rules, events[..|events| - 1], s, id)
    ensures NamedAt(rules, events, s, id)
  {
    var before := events[..|events| - 1];
    assert before[..s] == events[..s];
    var f: nat :| f < s && before[f].Searched? && id in before[f].offers
      && before[f].offers[id] == StateAt(rules, before, s).offered[id];
    assert events[f] == before[f];
  }

  /** A draft that is let through holds only dishes a search found without a doubt
      or the guest heard by name after they were offered. */
  lemma {:induction false} DraftedDishesWereNamed(rules: Rules, events: seq<Event>, call: Call, i: nat)
    requires call.tool.DraftOrder? && i < |call.items|
    requires var t := Run(rules, events); Refusal(rules, t.state, t.start, t.text, call).None?
    ensures || (exists f: nat :: FoundAt(events, f, call.items[i]))
            || (exists s: nat :: NamedAt(rules, events, s, call.items[i]))
  {
    KnownDish(rules, events, call.items[i]);
  }

  // ----- The exact conditions, read off the events -----

  /** A draft was made at d and waits: none was made since, and it was not dropped. */
  predicate WaitsSince(events: seq<Event>, d: nat) {
    && d < |events| && events[d].NewDraft?
    && forall k :: d < k < |events| ==> !events[k].NewDraft? && !events[k].DraftDropped? && !events[k].StageLeft?
  }

  /** The draft that waits, of an order or of a table, is the one that was made last. */
  lemma {:induction false} PendingIs(rules: Rules, events: seq<Event>)
    ensures var s := Run(rules, events).state;
            && (forall d: nat :: WaitsSince(events, d) ==>
                  s.stage == Pending && ReadbackId(s) == Some(events[d].id) && s.readback == events[d].readback)
            && (s.stage == Pending ==> exists d: nat :: WaitsSince(events, d))
  {
    if events != [] {
      var n := |events| - 1;
      PendingIs(rules, events[..n]);
      forall d: nat | d < n
        ensures WaitsSince(events, d) <==>
          WaitsSince(events[..n], d) && !events[n].NewDraft? && !events[n].DraftDropped? && !events[n].StageLeft?
      {
        assert forall k :: d <= k < n ==> events[..n][k] == events[k];
      }
      assert WaitsSince(events, n) <==> events[n].NewDraft?;
      if d: nat :| WaitsSince(events[..n], d) {
        assert d < n;
      }
    }
  }

  /** What counts as heard is what was read out last, and nothing else. */
  lemma {:induction false} HeardIff(rules: Rules, events: seq<Event>)
    ensures Run(rules, events).state.heard <==> exists s: nat :: ReadOutLast(rules, events, s)
  {
    if Run(rules, events).state.heard {
      HeardMeansReadOut(rules, events);
    }
    if s: nat :| ReadOutLast(rules, events, s) {
      StaysHeard(rules, events, s);
    }
  }

  lemma {:induction false} StaysHeard(rules: Rules, events: seq<Event>, s: nat)
    requires s < |events| && events[s].Says? && forall k :: s < k < |events| ==> !TouchesDraft(events[k])
    requires var was := StateAt(rules, events, s); was.readback.Some? && ReadsOut(events[s].words, was.readback.value)
    ensures Run(rules, events).state.heard
  {
    var n := |events| - 1;
    if s < n {
      assert events[..n][..s] == events[..s];
      assert forall k :: s <= k < n ==> events[..n][k] == events[k];
      StaysHeard(rules, events[..n], s);
    }
  }

  lemma {:induction false} TurnBeganAt(rules: Rules, events: seq<Event>, g: nat)
    requires LastSentence(events, g)
    ensures BeganAt(rules, events, g)
  {
    var n := |events| - 1;
    if g < n {
      assert forall k :: g <= k < n ==> events[..n][k] == events[k];
      TurnBeganAt(rules, events[..n], g);
      BeganBefore(rules, events, g);
    }
  }

  /** The yes to a draft: said in the sentence of this turn, behind the sentence at s that
      read the draft out, while the draft waited then and waits now. */
  ghost predicate IsYesTo(rules: Rules, events: seq<Event>, s: nat, g: nat, id: string) {
    && s < g && LastSentence(events, g) && events[g].text in rules.yes
    && ReadOutLast(rules, events[..g], s)
    && (exists d: nat :: WaitsSince(events[..g], d) && events[d].id == id)
    && exists d: nat :: WaitsSince(events, d) && events[d].id == id
  }

  lemma {:induction false} WaitsForIff(rules: Rules, events: seq<Event>, id: string)
    ensures ReadbackId(Run(rules, events).state) == Some(id) <==>
              exists d: nat :: WaitsSince(events, d) && events[d].id == id
  {
    PendingIs(rules, events);
  }

  lemma {:induction false} WaitedForIff(rules: Rules, events: seq<Event>, g: nat, id: string)
    requires g <= |events|
    ensures ReadbackId(StateAt(rules, events, g)) == Some(id) <==>
              exists d: nat :: WaitsSince(events[..g], d) && events[d].id == id
  {
    WaitsForIff(rules, events[..g], id);
    assert forall d: nat :: d < g ==> events[..g][d] == events[d];
  }

  /** Main result, both ways: a confirm is let through if and only if the guest's sentence
      is the yes to the draft it names. */
  lemma {:induction false} ConfirmIff(rules: Rules, events: seq<Event>, call: Call)
    requires call.tool.Confirm?
    ensures var t := Run(rules, events);
            Refusal(rules, t.state, t.start, t.text, call).None? <==>
              exists s: nat, g: nat :: IsYesTo(rules, events, s, g, call.entityId)
  {
    var t, id := Run(rules, events), call.entityId;
    WaitsForIff(rules, events, id);
    if Refusal(rules, t.state, t.start, t.text, call).None? {
      TurnBegan(rules, events);
      var g: nat :| BeganAt(rules, events, g);
      WaitedForIff(rules, events, g, id);
      HeardIff(rules, events[..g]);
      var s: nat :| ReadOutLast(rules, events[..g], s);
      assert IsYesTo(rules, events, s, g, id);
    }
    if s: nat, g: nat :| IsYesTo(rules, events, s, g, id) {
      TurnBeganAt(rules, events, g);
      WaitedForIff(rules, events, g, id);
      HeardIff(rules, events[..g]);
    }
  }

  /** The core puts a draft's sentence itself exactly when a confirm that is refused comes
      on a yes while a draft waits, of an order or of a table, that was not read out last. */
  lemma {:induction false} RereadIff(rules: Rules, events: seq<Event>, call: Call, r: Readback)
    ensures var t := Run(rules, events);
            RereadOnYes(rules, t.state, t.start, t.text, call) == Some(r) <==>
              && call.tool.Confirm? && t.text in rules.yes
              && (forall s: nat, g: nat :: !IsYesTo(rules, events, s, g, call.entityId))
              && (exists d: nat :: WaitsSince(events, d) && events[d].readback == Some(r))
              && forall s: nat :: !ReadOutLast(rules, events, s)
  {
    PendingIs(rules, events);
    HeardIff(rules, events);
    if call.tool.Confirm? {
      ConfirmIff(rules, events, call);
    }
  }

  /** Every other call is let through exactly when the word rules find no fault that
      concerns it and, for an order, all its dishes were found or named. */
  lemma {:induction false} OtherCallIff(rules: Rules, events: seq<Event>, call: Call)
    requires !call.tool.Confirm?
    ensures var t := Run(rules, events);
            Refusal(rules, t.state, t.start, t.text, call).None? <==>
              && !(call.faults.allergyInNote && call.tool in {DraftOrder, CreateReservation})
              && !(call.faults.onlyStatesAllergy && call.tool == GetItemDetails)
              && !call.faults.nameNotSaid && !call.faults.numberMissing && !call.faults.otherNumber
              && (call.tool == DraftOrder ==>
                    !call.faults.differsFromCart
                    && forall i :: 0 <= i < |call.items| ==> WasNamed(rules, events, call.items[i]))
  {
    forall i | 0 <= i < |call.items|
      ensures call.items[i] in Run(rules, events).state.known <==> WasNamed(rules, events, call.items[i])
    {
      KnownIff(rules, events, call.items[i]);
    }
    hide Run, WasNamed;
  }

  /** A search found the dish without a doubt, or the guest heard it by name once offered. */
  ghost predicate WasNamed(rules: Rules, events: seq<Event>, id: string) {
    (exists f: nat :: FoundAt(events, f, id)) || exists s: nat :: NamedAt(rules, events, s, id)
  }

  lemma {:induction false} KnownIff(rules: Rules, events: seq<Event>, id: string)
    ensures id in Run(rules, events).state.known <==> WasNamed(rules, events, id)
  {
    if id in Run(rules, events).state.known {
      KnownDish(rules, events, id);
    }
    if f: nat :| FoundAt(events, f, id) {
      StaysKnown(rules, events, f, id);
    }
    if s: nat :| NamedAt(rules, events, s, id) {
      StaysKnown(rules, events, s, id);
    }
  }

  lemma {:induction false} StaysKnown(rules: Rules, events: seq<Event>, k: nat, id: string)
    requires FoundAt(events, k, id) || NamedAt(rules, events, k, id)
    ensures id in Run(rules, events).state.known
  {
    var n := |events| - 1;
    if k < n {
      assert events[..n][..k] == events[..k] && forall j :: 0 <= j < n ==> events[..n][j] == events[j];
      StaysKnown(rules, events[..n], k, id);
    }
  }
}
