/** The recorder of the eval harness (evals/recorder.py): an incremental monitor
    that notes a call when the model makes it and takes the notes back when the
    result says it did not go through.

    `Replay` is the reference: it looks at a call together with its result and
    never takes anything back. The class keeps the fields of the source; its
    invariant says that they are what `Replay` says, plus the notes of the one
    call that is still open. */
module Recorder {
  import opened Wrappers

  datatype Tool =
    | Confirm
    | DraftOrder
    | CreateReservation
    | SearchMenu
    | GetItemDetails
    | CheckSlot
    | Cart // what the result of a refused `cart` is called
    | Other(name: string)

  predicate IsSearch(t: Tool) { t.SearchMenu? || t.GetItemDetails? }
  predicate IsDraft(t: Tool) { t.DraftOrder? || t.CreateReservation? }
  predicate Supersedes(t: Tool) { t.SearchMenu? || t.CheckSlot? }

  /** An order line: its dish, and everything else as written. */
  datatype Line = Line(itemId: string, rest: string)

  /** Arguments of a call; `items` is empty where there are none. */
  datatype Args = Args(items: seq<Line>, ofOrder: bool, entityId: string)

  datatype Call = Call(name: Tool, args: Args)

  /** An answer of the model. */
  datatype Turn = Turn(say: Option<string>, call: Option<Call>, cart: Option<seq<Line>>)

  /** What goes into the model: a guest sentence or a tool result. */
  datatype Input =
    | Heard(text: string)
    | Outcome(tool: Tool, ok: bool, readback: Option<string>, ids: set<string>)

  /** The rules of the core the recorder asks, each by its extension: the
      sentences that are a yes, the pairs of a sentence and the readback it reads
      out, the lines each readable `cart` holds, the pairs of equal orders. */
  datatype Core = Core(
    yes: iset<string>,
    readOuts: iset<(string, string)>,
    carts: imap<seq<Line>, seq<Line>>,
    equalOrders: iset<(seq<Line>, seq<Line>)>)
  {
    predicate IsYes(text: string) { text in yes }

    predicate ReadsOut(say: string, readback: string) { (say, readback) in readOuts }

    predicate SameOrder(a: seq<Line>, b: seq<Line>) { (a, b) in equalOrders }

    function CartLines(sent: seq<Line>): Option<seq<Line>> {
      if sent in carts then Some(carts[sent]) else None
    }
  }

  /** An answer with what came back for it. `byCore`: at this guest sentence the
      state shows a draft waiting whose readback the guest has heard. */
  datatype Exchange = Exchange(turn: Turn, reply: Input, byCore: bool)

  const SILENT := Turn(None, None, None)

  // ----- The reference: exchanges with their outcome known -----

  /** What came in: guest sentences, found dishes, the sentence of the last draft. */
  datatype Facts = Facts(lines: seq<string>, searched: set<string>, readback: Option<string>)

  /** The draft that waits (with the number of sentences before it), whether it
      was said last, and the order. */
  datatype Draft = Draft(at: Option<nat>, heard: bool, cart: seq<Line>)

  datatype Notes = Notes(
    guessed: seq<(string, string)>,
    unconfirmed: seq<string>,
    confirms: nat,
    lastConfirm: Option<Args>,
    refused: multiset<(Tool, string)>)

  datatype View = View(facts: Facts, draft: Draft, notes: Notes)

  const START := View(Facts([], {}, None), Draft(None, false, []), Notes([], [], 0, None, multiset{}))

  function Last(lines: seq<string>): string {
    if lines == [] then "" else lines[|lines| - 1]
  }

  predicate Calls(turn: Turn, name: Tool) {
    turn.call.Some? && turn.call.value.name == name
  }

  predicate CallsDraft(turn: Turn) {
    turn.call.Some? && IsDraft(turn.call.value.name)
  }

  function Dropped(d: Draft): Draft {
    Draft(None, false, d.cart)
  }

  /** The guest says yes to a waiting draft, but heard something else last, and it is confirmed. */
  predicate LateYes(core: Core, v: View, turn: Turn) {
    Calls(turn, Confirm) && v.draft.at.Some? && !v.draft.heard && core.IsYes(Last(v.facts.lines))
  }

  /** Does the `cart` of the answer change the order? Then it drops the draft. */
  predicate ChangesCart(core: Core, d: Draft, turn: Turn) {
    && turn.cart.Some?
    && core.CartLines(turn.cart.value).Some?
    && !core.SameOrder(core.CartLines(turn.cart.value).value, d.cart)
  }

  function WithCart(core: Core, d: Draft, turn: Turn): Draft {
    if ChangesCart(core, d, turn) then Draft(None, false, core.CartLines(turn.cart.value).value) else d
  }

  /** Draft and order once the answer is carried out. */
  function Carried(core: Core, f: Facts, d: Draft, turn: Turn): Draft {
    var d := WithCart(core, d, turn);
    if turn.call.None? then
      if turn.say.Some? then d.(heard := f.readback.Some? && core.ReadsOut(turn.say.value, f.readback.value)) else d
    else if IsDraft(turn.call.value.name) then d.(at := Some(|f.lines|))
    else if Supersedes(turn.call.value.name) then d.(at := None)
    else d
  }

  /** A `confirm` is a consent when the last guest sentence is a yes, came after
      the draft, and the draft was what was said last before it. */
  predicate Consented(core: Core, f: Facts, d: Draft) {
    d.at.Some? && |f.lines| > d.at.value && d.heard && core.IsYes(Last(f.lines))
  }

  function GuessedItems(items: seq<Line>, searched: set<string>, last: string): seq<(string, string)> {
    if items == [] then []
    else (if items[0].itemId in searched then [] else [(items[0].itemId, last)])
         + GuessedItems(items[1..], searched, last)
  }

  /** The positions of a draft no search of this call delivered. */
  function Guesses(f: Facts, turn: Turn): seq<(string, string)> {
    if Calls(turn, DraftOrder) then GuessedItems(turn.call.value.args.items, f.searched, Last(f.lines)) else []
  }

  /** The sentence before a `confirm` without consent. */
  function Violations(core: Core, v: View, turn: Turn): seq<string> {
    if Calls(turn, Confirm) && !Consented(core, v.facts, WithCart(core, v.draft, turn)) then [Last(v.facts.lines)]
    else []
  }

  /** The notes after an answer whose call was not refused. */
  function Counted(core: Core, v: View, turn: Turn): Notes {
    Notes(v.notes.guessed + Guesses(v.facts, turn),
          v.notes.unconfirmed + Violations(core, v, turn),
          v.notes.confirms + if Calls(turn, Confirm) then 1 else 0,
          if Calls(turn, Confirm) then Some(turn.call.value.args) else v.notes.lastConfirm,
          v.notes.refused)
  }

  lemma {:induction false} CutBack<T>(s: seq<T>, kept: seq<T>, more: seq<T>)
    requires s == kept + more
    ensures s[..|kept|] == kept && (|s| > |kept| <==> more != [])
  {
  }

  function WithAttempt(n: Notes, name: Tool, last: string): Notes {
    n.(refused := n.refused + multiset{(name, last)})
  }

  /** A guest sentence as the reply. After a late yes the core has read the draft
      out itself; a draft the core read out by itself has been heard. */
  function OnSentence(core: Core, v: View, e: Exchange): View
    requires e.reply.Heard?
  {
    var f := v.facts.(lines := v.facts.lines + [e.reply.text]);
    if LateYes(core, v, e.turn) then
      View(f, v.draft.(heard := f.readback.Some?), WithAttempt(v.notes, Confirm, Last(v.facts.lines)))
    else
      var d := Carried(core, v.facts, v.draft, e.turn);
      View(f, d.(heard := d.heard || (e.byCore && CallsDraft(e.turn))), Counted(core, v, e.turn))
  }

  /** The notes once the result of the call is known. A late yes that booked
      something is a violation, one that did not is a refused attempt; any other
      call counts if it went through, and is a refused attempt if it did not and
      would have been a violation. */
  function SettledNotes(core: Core, v: View, e: Exchange): Notes
    requires e.reply.Outcome?
  {
    var n, last := v.notes, Last(v.facts.lines);
    if LateYes(core, v, e.turn) then
      if e.reply.ok then
        Notes(n.guessed, n.unconfirmed + [last], n.confirms + 1, Some(e.turn.call.value.args), n.refused)
      else WithAttempt(n, Confirm, last)
    else if e.reply.ok then Counted(core, v, e.turn)
    else if e.turn.call.Some? && (Guesses(v.facts, e.turn) != [] || Violations(core, v, e.turn) != []) then
      WithAttempt(n, e.turn.call.value.name, last)
    else n
  }

  /** The draft once the result is known. A refused `cart` leaves the order as it
      was and drops the draft, a failed draft leaves none. */
  function SettledDraft(core: Core, v: View, e: Exchange): Draft
    requires e.reply.Outcome?
  {
    var cartRefused := e.reply.tool.Cart? && !e.reply.ok;
    if LateYes(core, v, e.turn) then
      if !e.reply.ok && (e.turn.cart.Some? || cartRefused) then Dropped(v.draft) else v.draft
    else
      var d := Carried(core, v.facts, v.draft, e.turn);
      var d := if cartRefused then Dropped(v.draft) else d;
      if CallsDraft(e.turn) && !e.reply.ok then d.(at := None) else d
  }

  /** What a result changes by itself: behind a booking nothing waits, a draft
      brings a sentence that is still unheard, a search brings dishes. */
  function ResultFacts(f: Facts, reply: Input): Facts
    requires reply.Outcome?
  {
    if !reply.ok then f
    else if reply.tool.Confirm? then f.(readback := None)
    else if IsDraft(reply.tool) then f.(readback := reply.readback)
    else if IsSearch(reply.tool) then f.(searched := f.searched + reply.ids)
    else f
  }

  function ResultDraft(core: Core, d: Draft, turn: Turn, reply: Input): Draft
    requires reply.Outcome?
  {
    if reply.ok && reply.tool.Confirm? then
      Draft(None, false, if turn.call.Some? && turn.call.value.args.ofOrder then [] else d.cart)
    else if reply.ok && IsDraft(reply.tool) then
      if Calls(turn, DraftOrder) then
        var lines := core.CartLines(turn.call.value.args.items);
        Draft(d.at, false, if lines.Some? then lines.value else [])
      else d.(heard := false)
    else d
  }

  function Step(core: Core, v: View, e: Exchange): View {
    if e.reply.Heard? then OnSentence(core, v, e)
    else View(ResultFacts(v.facts, e.reply),
              ResultDraft(core, SettledDraft(core, v, e), e.turn, e.reply),
              SettledNotes(core, v, e))
  }

  function Replay(core: Core, past: seq<Exchange>): View {
    if past == [] then START
    else Step(core, Replay(core, past[..|past| - 1]), past[|past| - 1])
  }

  /** What the loop of the core guarantees: the reply to a call is its result, or the
      core's own read-out of the draft, and only a sent `cart` is refused. */
  predicate Legal(core: Core, v: View, e: Exchange) {
    && (e.turn.call.Some? && e.reply.Heard? ==> LateYes(core, v, e.turn) || (e.byCore && CallsDraft(e.turn)))
    && (e.reply.Outcome? && e.reply.tool.Cart? && !e.reply.ok ==> e.turn.cart.Some?)
  }

  predicate LegalRun(core: Core, past: seq<Exchange>) {
    || past == []
    || (LegalRun(core, past[..|past| - 1]) && Legal(core, Replay(core, past[..|past| - 1]), past[|past| - 1]))
  }

  lemma {:induction false} OneMoreExchange(core: Core, past: seq<Exchange>, e: Exchange)
    ensures Replay(core, past + [e]) == Step(core, Replay(core, past), e)
    ensures LegalRun(core, past) && Legal(core, Replay(core, past), e) ==> LegalRun(core, past + [e])
  {
    assert (past + [e])[..|past|] == past;
  }

  /** The draft when an answer is refused, before its own call is taken back. */
  function DraftSoFar(core: Core, v: View, turn: Turn): Draft {
    if !LateYes(core, v, turn) then Carried(core, v.facts, v.draft, turn)
    else if turn.cart.Some? then Dropped(v.draft) else v.draft
  }

  function NotesSoFar(core: Core, v: View, turn: Turn): Notes {
    if LateYes(core, v, turn) then WithAttempt(v.notes, Confirm, Last(v.facts.lines)) else Counted(core, v, turn)
  }

  /** The draft behind a refused result: a refused `cart` leaves the order as it was. */
  lemma {:induction false} RefusedDraft(core: Core, v: View, e: Exchange)
    requires e.reply.Outcome? && !e.reply.ok && Legal(core, v, e)
    ensures var d := if e.reply.tool.Cart? then Draft(None, false, v.draft.cart) else DraftSoFar(core, v, e.turn);
            SettledDraft(core, v, e) == if CallsDraft(e.turn) then d.(at := None) else d
  {
  }

  /** What is noted for a call when it is refused: notes, and what it counts beyond them. */
  lemma {:induction false} HeldAgainst(core: Core, v: View, e: Exchange)
    returns (n: Notes, g: seq<(string, string)>, u: seq<string>)
    requires e.reply.Outcome? && !e.reply.ok
    ensures n.confirms == v.notes.confirms && n.lastConfirm == v.notes.lastConfirm
    ensures |n.guessed| == |v.notes.guessed| && |n.unconfirmed| == |v.notes.unconfirmed|
    ensures var far := NotesSoFar(core, v, e.turn);
            && far.guessed == n.guessed + g && far.unconfirmed == n.unconfirmed + u && far.refused == n.refused
            && (e.turn.call.None? ==> far == n)
    ensures SettledNotes(core, v, e) ==
            if e.turn.call.Some? && (g != [] || u != [])
            then WithAttempt(n, e.turn.call.value.name, Last(v.facts.lines)) else n
    ensures e.turn.call.None? ==> g == [] && u == []
  {
    if LateYes(core, v, e.turn) {
      n, g, u := WithAttempt(v.notes, Confirm, Last(v.facts.lines)), [], [];
    } else {
      n, g, u := v.notes, Guesses(v.facts, e.turn), Violations(core, v, e.turn);
    }
  }

  // ----- The monitor -----

  /** The counters as they stood ahead of the open call. */
  datatype Before = Before(guessed: nat, unconfirmed: nat, confirms: nat, lastConfirm: Option<Args>)

  class RecordingLLM {
    const core: Core
    // The recording.
    var customerLines: seq<string>
    var searchedIds: set<string>
    var guessed: seq<(string, string)>
    var unconfirmed: seq<string>
    var confirms: nat
    var lastConfirm: Option<Args>
    var draftedAt: Option<nat>
    var readback: Option<string>
    var readOut: bool
    var refusedAttempts: seq<(Tool, string)>
    // What is needed to take notes back.
    var before: Before
    var openCall: Option<Call>
    var cart: seq<Line>
    var cartBefore: seq<Line>
    var beforeCart: Option<(seq<Line>, Option<nat>, bool)>
    var lateYes: Option<string>
    var cartLeftAside: bool
    // The run so far: answers with their replies, and the answer whose reply is next.
    ghost var past: seq<Exchange>
    ghost var open: Turn

    ghost function Now(): View
      reads `past
    {
      Replay(core, past)
    }

    ghost function DraftNow(): Draft
      reads `draftedAt, `readOut, `cart
    {
      Draft(draftedAt, readOut, cart)
    }

    ghost function NotesNow(): Notes
      reads `guessed, `unconfirmed, `confirms, `lastConfirm, `refusedAttempts
    {
      Notes(guessed, unconfirmed, confirms, lastConfirm, multiset(refusedAttempts))
    }

    ghost function FactsNow(): Facts
      reads `customerLines, `searchedIds, `readback
    {
      Facts(customerLines, searchedIds, readback)
    }

    /** What is kept to take the notes of the open answer back. */
    ghost predicate CanGoBack(v: View, turn: Turn)
      reads `before, `cartBefore, `cartLeftAside
    {
      && (turn.cart.Some? ==> cartBefore == v.draft.cart)
      && (turn.call.Some? ==>
            before == Before(|v.notes.guessed|, |v.notes.unconfirmed|, v.notes.confirms, v.notes.lastConfirm))
      && (LateYes(core, v, turn) ==> cartLeftAside == turn.cart.Some?)
    }

    /** The notes for the open answer: nothing but the refused attempt for a late
        yes, else everything the answer would count if it goes through. */
    ghost predicate NotedAhead(v: View, turn: Turn, late: Option<string>)
      reads `draftedAt, `readOut, `cart, `guessed, `unconfirmed, `confirms, `lastConfirm, `refusedAttempts
    {
      if LateYes(core, v, turn) then
        && DraftNow() == v.draft && NotesNow() == WithAttempt(v.notes, Confirm, Last(v.facts.lines))
        && late == Some(Last(v.facts.lines))
      else
        DraftNow() == Carried(core, v.facts, v.draft, turn) && NotesNow() == Counted(core, v, turn) && late.None?
    }

    ghost predicate Ahead(v: View, turn: Turn)
      reads `draftedAt, `readOut, `cart, `guessed, `unconfirmed, `confirms, `lastConfirm, `refusedAttempts,
            `customerLines, `searchedIds, `readback, `before, `cartBefore, `cartLeftAside, `openCall, `lateYes
    {
      FactsNow() == v.facts && CanGoBack(v, turn) && NotedAhead(v, turn, lateYes) && openCall == turn.call
    }

    ghost predicate Valid()
      reads this
    {
      Ahead(Now(), open) && LegalRun(core, past)
    }

    constructor (core: Core)
      ensures Valid() && this.core == core && past == [] && open == SILENT
    {
      this.core := core;
      customerLines, searchedIds, guessed, unconfirmed := [], {}, [], [];
      confirms, lastConfirm, draftedAt, readback, readOut := 0, None, None, None, false;
      refusedAttempts := [];
      before, openCall := Before(0, 0, 0, None), None;
      cart, cartBefore, beforeCart, lateYes, cartLeftAside := [], [], None, None, false;
      past, open := [], SILENT;
    }

    /** One turn of the model: `input` goes in, `turn` is what comes back. */
    method NextTurn(byCore: bool, input: Input, turn: Turn)
      requires Valid() && Legal(core, Now(), Exchange(open, input, byCore))
      modifies this
      ensures Valid()
      ensures past == old(past) + [Exchange(old(open), input, byCore)] && open == turn
    {
      hide Step, Legal, LateYes, Carried, Counted;
      ghost var e := Exchange(open, input, byCore);
      Listen(byCore, input, Now(), e);
      Remember(e, turn);
      Answer(turn, Now());
    }

    /** The trace grows by what came in; the next answer is open. */
    ghost method Remember(e: Exchange, turn: Turn)
      requires LegalRun(core, past) && Legal(core, Now(), e) && Between(Step(core, Now(), e))
      modifies `past, `open
      ensures past == old(past) + [e] && open == turn && LegalRun(core, past) && Between(Now())
    {
      OneMoreExchange(core, past, e);
      past, open := past + [e], turn;
    }

    /** Before the model is asked: what came in. */
    method Listen(byCore: bool, input: Input, ghost v: View, ghost e: Exchange)
      requires Ahead(v, e.turn) && e.reply == input && e.byCore == byCore && Legal(core, v, e)
      modifies `customerLines, `searchedIds, `guessed, `unconfirmed, `confirms, `lastConfirm, `draftedAt, `readback,
               `readOut, `refusedAttempts, `openCall, `cart, `lateYes
      ensures Between(Step(core, v, e))
    {
      if input.Heard? {
        ReadOutByTheCore(byCore);
      }
      ObserveInput(input, v, e);
    }

    /** After the model was asked: its `cart` first, then its call or sentence. */
    method Answer(turn: Turn, ghost v: View)
      requires Between(v)
      modifies `guessed, `unconfirmed, `confirms, `lastConfirm, `draftedAt, `readOut, `refusedAttempts, `before,
               `openCall, `cart, `cartBefore, `beforeCart, `lateYes, `cartLeftAside
      ensures Ahead(v, turn)
    {
      NoteCart(turn, v.draft);
      if turn.call.Some? {
        ObserveCall(turn.call.value, v, turn);
      } else {
        NoteSay(turn, v);
      }
    }

    method NoteSay(turn: Turn, ghost v: View)
      requires turn.call.None? && FactsNow() == v.facts && NotesNow() == v.notes && lateYes.None?
      requires DraftNow() == WithCart(core, v.draft, turn)
      modifies `readOut
      ensures NotedAhead(v, turn, lateYes)
    {
      if turn.say.Some? {
        readOut := readback.Some? && core.ReadsOut(turn.say.value, readback.value);
      }
      assert DraftNow() == Carried(core, v.facts, v.draft, turn);
    }

    /** The `cart` of an answer, and what was held before it where a `confirm` stands next to it. */
    method NoteCart(turn: Turn, ghost d: Draft)
      requires DraftNow() == d
      modifies `draftedAt, `readOut, `cart, `cartBefore, `beforeCart
      ensures DraftNow() == WithCart(core, d, turn)
      ensures turn.cart.Some? ==> cartBefore == d.cart
      ensures beforeCart == if turn.cart.Some? && Calls(turn, Confirm) then Some((d.cart, d.at, d.heard)) else None
    {
      beforeCart := None;
      if turn.cart.Some? {
        if turn.call.Some? && turn.call.value.name == Confirm {
          beforeCart := Some((cart, draftedAt, readOut));
        }
        ObserveCart(turn.cart.value);
      }
    }

    /** Between the reply and the next answer nothing is open. */
    ghost predicate Between(v: View)
      reads `draftedAt, `readOut, `cart, `guessed, `unconfirmed, `confirms, `lastConfirm, `refusedAttempts,
            `customerLines, `searchedIds, `readback, `openCall, `lateYes
    {
      FactsNow() == v.facts && DraftNow() == v.draft && NotesNow() == v.notes && openCall.None? && lateYes.None?
    }

    /** The notes when the reply is looked at: a draft the core read out by itself
        is no longer open and has been heard. */
    ghost predicate AtReply(v: View, e: Exchange)
      reads `draftedAt, `readOut, `cart, `guessed, `unconfirmed, `confirms, `lastConfirm, `refusedAttempts,
            `customerLines, `searchedIds, `readback, `before, `cartBefore, `cartLeftAside, `openCall, `lateYes
    {
      if e.reply.Heard? && e.byCore && CallsDraft(e.turn) then
        && FactsNow() == v.facts && openCall.None? && lateYes.None?
        && DraftNow() == Carried(core, v.facts, v.draft, e.turn).(heard := true)
        && NotesNow() == Counted(core, v, e.turn)
      else Ahead(v, e.turn)
    }

    method ReadOutByTheCore(byCore: bool)
      modifies `openCall, `readOut
      ensures if byCore && old(openCall).Some? && IsDraft(old(openCall).value.name)
              then openCall.None? && readOut
              else openCall == old(openCall) && readOut == old(readOut)
    {
      if openCall.Some? && IsDraft(openCall.value.name) && byCore {
        openCall := None;
        readOut := true;
      }
    }

    method DropDraft()
      modifies `draftedAt, `readOut
      ensures draftedAt.None? && !readOut
    {
      draftedAt := None;
      readOut := false;
    }

    /** A `cart` next to the answer: a changed order drops the draft. */
    method ObserveCart(sent: seq<Line>)
      modifies `cart, `cartBefore, `draftedAt, `readOut
      ensures cartBefore == old(cart)
      ensures var lines := core.CartLines(sent);
              if lines.Some? && !core.SameOrder(lines.value, old(cart))
              then cart == lines.value && draftedAt.None? && !readOut
              else cart == old(cart) && draftedAt == old(draftedAt) && readOut == old(readOut)
    {
      cartBefore := cart;
      var lines := core.CartLines(sent);
      if lines.None? || core.SameOrder(lines.value, cart) {
        return;
      }
      cart := lines.value;
      DropDraft();
    }

    method ObserveInput(input: Input, ghost v: View, ghost e: Exchange)
      requires AtReply(v, e) && e.reply == input && Legal(core, v, e)
      modifies `customerLines, `searchedIds, `guessed, `unconfirmed, `confirms, `lastConfirm, `draftedAt, `readback,
               `readOut, `refusedAttempts, `openCall, `cart, `lateYes
      ensures Between(Step(core, v, e))
    {
      var late := lateYes;
      lateYes := None;
      if input.Heard? {
        ObserveSentence(input.text, late, v, e);
      } else {
        ObserveResult(input, late, v, e);
      }
    }

    method ObserveResult(input: Input, late: Option<string>, ghost v: View, ghost e: Exchange)
      requires input.Outcome? && e.reply == input && Legal(core, v, e) && FactsNow() == v.facts
      requires openCall == e.turn.call && CanGoBack(v, e.turn) && NotedAhead(v, e.turn, late)
      modifies `searchedIds, `guessed, `unconfirmed, `confirms, `lastConfirm, `draftedAt, `readback,
               `readOut, `refusedAttempts, `openCall, `cart
      ensures FactsNow() == ResultFacts(v.facts, input) && openCall.None?
      ensures DraftNow() == ResultDraft(core, SettledDraft(core, v, e), e.turn, input)
      ensures NotesNow() == SettledNotes(core, v, e)
    {
      hide SettledDraft, SettledNotes, ResultFacts, ResultDraft, LateYes, Legal, Carried, Counted;
      Settle(input, late, openCall, v, e);
      TakeResult(input, openCall, v.facts, SettledDraft(core, v, e), e.turn);
      openCall := None;
    }

    method ObserveSentence(text: string, late: Option<string>, ghost v: View, ghost e: Exchange)
      requires e.reply == Heard(text) && Legal(core, v, e) && FactsNow() == v.facts
      requires if e.byCore && CallsDraft(e.turn) then
                 && DraftNow() == Carried(core, v.facts, v.draft, e.turn).(heard := true)
                 && NotesNow() == Counted(core, v, e.turn) && late.None? && openCall.None?
               else NotedAhead(v, e.turn, late) && openCall == e.turn.call
      modifies `openCall, `readOut, `customerLines
      ensures FactsNow() == OnSentence(core, v, e).facts && openCall.None?
      ensures DraftNow() == OnSentence(core, v, e).draft && NotesNow() == OnSentence(core, v, e).notes
    {
      if late.Some? {
        openCall := None;
        readOut := readback.Some?;
      }
      customerLines := customerLines + [text];
    }

    /** What the result says about the call before it. */
    method Settle(input: Input, late: Option<string>, call: Option<Call>, ghost v: View, ghost e: Exchange)
      requires input.Outcome? && e.reply == input && Legal(core, v, e)
      requires call == e.turn.call && CanGoBack(v, e.turn) && NotedAhead(v, e.turn, late)
      requires FactsNow() == v.facts
      modifies `guessed, `unconfirmed, `confirms, `lastConfirm, `refusedAttempts, `draftedAt, `readOut, `cart
      ensures DraftNow() == SettledDraft(core, v, e) && NotesNow() == SettledNotes(core, v, e)
    {
      SettleLateYes(input.ok, late, call, v, e);
      if !input.ok {
        SettleRefused(input, call, v, e);
      }
    }

    /** A result that did not go through. */
    method SettleRefused(input: Input, call: Option<Call>, ghost v: View, ghost e: Exchange)
      requires input.Outcome? && !input.ok && e.reply == input && Legal(core, v, e)
      requires call == e.turn.call && CanGoBack(v, e.turn) && FactsNow() == v.facts
      requires DraftNow() == DraftSoFar(core, v, e.turn) && NotesNow() == NotesSoFar(core, v, e.turn)
      modifies `guessed, `unconfirmed, `confirms, `lastConfirm, `refusedAttempts, `draftedAt, `readOut, `cart
      ensures DraftNow() == SettledDraft(core, v, e) && NotesNow() == SettledNotes(core, v, e)
    {
      hide SettledDraft, SettledNotes, Carried, Counted, Violations, Guesses;
      ghost var n, g, u := HeldAgainst(core, v, e);
      RefusedDraft(core, v, e);
      TakeBack(input, call, n, g, u);
    }

    /** A result for the `confirm` that was taken for a late yes. */
    method SettleLateYes(ok: bool, late: Option<string>, call: Option<Call>, ghost v: View, ghost e: Exchange)
      requires e.reply.Outcome? && e.reply.ok == ok && Legal(core, v, e)
      requires call == e.turn.call && CanGoBack(v, e.turn) && NotedAhead(v, e.turn, late)
      modifies `refusedAttempts, `confirms, `lastConfirm, `unconfirmed, `draftedAt, `readOut
      ensures ok ==> DraftNow() == SettledDraft(core, v, e) && NotesNow() == SettledNotes(core, v, e)
      ensures !ok ==> DraftNow() == DraftSoFar(core, v, e.turn) && NotesNow() == NotesSoFar(core, v, e.turn)
    {
      if late.Some? && call.Some? && call.value.name == Confirm {
        LateYesGotAResult(late.value, call.value.args, ok, v.notes, v.draft);
      }
    }

    /** The result of a call, or of the `cart` next to it, that did not go through. */
    method TakeBack(input: Input, call: Option<Call>, ghost n: Notes, ghost g: seq<(string, string)>,
                    ghost u: seq<string>)
      requires input.Outcome? && !input.ok
      requires guessed == n.guessed + g && unconfirmed == n.unconfirmed + u && multiset(refusedAttempts) == n.refused
      requires if call.Some? then before == Before(|n.guessed|, |n.unconfirmed|, n.confirms, n.lastConfirm)
               else NotesNow() == n && g == [] && u == []
      modifies `guessed, `unconfirmed, `confirms, `lastConfirm, `refusedAttempts, `draftedAt, `readOut, `cart
      ensures NotesNow() == if call.Some? && (g != [] || u != [])
                            then WithAttempt(n, call.value.name, Last(customerLines)) else n
      ensures var d := if input.tool == Cart then Draft(None, false, cartBefore) else old(DraftNow());
              DraftNow() == if call.Some? && IsDraft(call.value.name) then d.(at := None) else d
    {
      if input.tool == Cart {
        cart := cartBefore;
        DropDraft();
      }
      if call.Some? {
        Retract(call.value.name, n, g, u);
      }
    }

    /** What a result changes by itself. */
    method TakeResult(input: Input, call: Option<Call>, ghost f: Facts, ghost d: Draft, ghost turn: Turn)
      requires input.Outcome? && FactsNow() == f && DraftNow() == d && call == turn.call
      modifies `readback, `draftedAt, `readOut, `cart, `searchedIds
      ensures FactsNow() == ResultFacts(f, input) && DraftNow() == ResultDraft(core, d, turn, input)
    {
      if input.ok && input.tool == Confirm {
        readback := None;
        DropDraft();
        if call.Some? && call.value.args.ofOrder {
          cart := [];
        }
      }
      if IsDraft(input.tool) && input.ok {
        readback := input.readback;
        readOut := false;
        if call.Some? && call.value.name == DraftOrder {
          var lines := core.CartLines(call.value.args.items);
          cart := if lines.Some? then lines.value else [];
        }
      }
      if IsSearch(input.tool) && input.ok {
        searchedIds := searchedIds + input.ids;
      }
    }

    /** A late yes was followed by a result and not by the read-out. */
    method LateYesGotAResult(said: string, args: Args, wentThrough: bool, ghost n: Notes, ghost d: Draft)
      requires NotesNow() == WithAttempt(n, Confirm, said) && DraftNow() == d
      modifies `refusedAttempts, `confirms, `lastConfirm, `unconfirmed, `draftedAt, `readOut
      ensures wentThrough ==>
                && NotesNow() == Notes(n.guessed, n.unconfirmed + [said], n.confirms + 1, Some(args), n.refused)
                && DraftNow() == d
      ensures !wentThrough ==>
                NotesNow() == WithAttempt(n, Confirm, said) && DraftNow() == (if cartLeftAside then Dropped(d) else d)
    {
      hide RemoveFirst;
      if wentThrough {
        RemovedAttempt(refusedAttempts, n, said);
        refusedAttempts := RemoveFirst(refusedAttempts, (Confirm, said));
        confirms := confirms + 1;
        lastConfirm := Some(args);
        unconfirmed := unconfirmed + [said];
      } else if cartLeftAside {
        DropDraft();
      }
    }

    /** Cuts the notes back to where they stood ahead of a refused call: everything
        beyond `n`, one refused attempt if that was a violation. */
    method Retract(name: Tool, ghost n: Notes, ghost g: seq<(string, string)>, ghost u: seq<string>)
      requires guessed == n.guessed + g && unconfirmed == n.unconfirmed + u && multiset(refusedAttempts) == n.refused
      requires before == Before(|n.guessed|, |n.unconfirmed|, n.confirms, n.lastConfirm)
      modifies `guessed, `unconfirmed, `confirms, `lastConfirm, `refusedAttempts, `draftedAt
      ensures NotesNow() == (if g != [] || u != [] then WithAttempt(n, name, Last(customerLines)) else n)
      ensures draftedAt == if IsDraft(name) then None else old(draftedAt)
    {
      CutBack(guessed, n.guessed, g);
      CutBack(unconfirmed, n.unconfirmed, u);
      confirms, lastConfirm := before.confirms, before.lastConfirm;
      if |guessed| > before.guessed || |unconfirmed| > before.unconfirmed {
        NoteAttempt(name);
      }
      guessed := guessed[..before.guessed];
      unconfirmed := unconfirmed[..before.unconfirmed];
      if IsDraft(name) {
        draftedAt := None;
      }
    }

    method NoteAttempt(name: Tool)
      modifies `refusedAttempts
      ensures multiset(refusedAttempts) == multiset(old(refusedAttempts)) + multiset{(name, Last(customerLines))}
    {
      refusedAttempts := refusedAttempts + [(name, Last(customerLines))];
    }

    /** The draft and what was heard count as they were ahead of a `cart` sent along. */
    method IsALateYes(said: string) returns (late: bool)
      modifies `cart, `draftedAt, `readOut, `cartLeftAside, `lateYes, `refusedAttempts
      ensures var was := if old(beforeCart).Some? then old(beforeCart).value
                         else (old(cart), old(draftedAt), old(readOut));
              && late == (was.1.Some? && !was.2 && core.IsYes(said))
              && if late then
                   && cart == was.0 && draftedAt == was.1 && readOut == was.2
                   && cartLeftAside == beforeCart.Some? && lateYes == Some(said)
                   && refusedAttempts == old(refusedAttempts) + [(Confirm, said)]
                 else
                   && cart == old(cart) && draftedAt == old(draftedAt) && readOut == old(readOut)
                   && lateYes == old(lateYes) && refusedAttempts == old(refusedAttempts)
    {
      var was := if beforeCart.Some? then beforeCart.value else (cart, draftedAt, readOut);
      if was.1.None? || was.2 || !core.IsYes(said) {
        return false;
      }
      cartLeftAside := beforeCart.Some?;
      cart, draftedAt, readOut := was.0, was.1, was.2;
      lateYes := Some(said);
      refusedAttempts := refusedAttempts + [(Confirm, said)];
      return true;
    }

    method ObserveCall(call: Call, ghost v: View, ghost turn: Turn)
      requires turn.call == Some(call)
      requires Between(v.(draft := WithCart(core, v.draft, turn)))
      requires turn.cart.Some? ==> cartBefore == v.draft.cart
      requires beforeCart == if turn.cart.Some? && call.name == Confirm
                             then Some((v.draft.cart, v.draft.at, v.draft.heard)) else None
      modifies `before, `openCall, `guessed, `unconfirmed, `confirms, `lastConfirm, `refusedAttempts,
               `cart, `draftedAt, `readOut, `cartLeftAside, `lateYes
      ensures CanGoBack(v, turn) && openCall == turn.call
      ensures NotedAhead(v, turn, lateYes)
    {
      hide Counted, Violations, Guesses, WithAttempt;
      before := Before(|guessed|, |unconfirmed|, confirms, lastConfirm);
      openCall := Some(call);
      var last := Last(customerLines);
      NoteDraft(call.name, v, turn);
      if call.name == Confirm {
        NoteConfirm(call.args, last, v, turn);
      } else {
        NoteOther(call, last, v, turn);
      }
    }

    /** What any other call counts if it goes through. */
    method NoteOther(call: Call, last: string, ghost v: View, ghost turn: Turn)
      requires turn.call == Some(call) && call.name != Confirm && last == Last(v.facts.lines)
      requires FactsNow() == v.facts && NotesNow() == v.notes && lateYes.None?
      requires DraftNow() == Carried(core, v.facts, v.draft, turn)
      modifies `guessed
      ensures NotedAhead(v, turn, lateYes) && !LateYes(core, v, turn)
    {
      CountedOther(core, v, turn);
      if call.name == DraftOrder {
        NoteGuesses(call.args.items, last);
      }
    }

    method NoteDraft(name: Tool, ghost v: View, ghost turn: Turn)
      requires turn.call.Some? && turn.call.value.name == name && customerLines == v.facts.lines
      requires DraftNow() == WithCart(core, v.draft, turn)
      modifies `draftedAt
      ensures DraftNow() == Carried(core, v.facts, v.draft, turn)
    {
      if IsDraft(name) {
        draftedAt := Some(|customerLines|);
      } else if Supersedes(name) {
        draftedAt := None;
      }
    }

    method NoteConfirm(args: Args, last: string, ghost v: View, ghost turn: Turn)
      requires turn.call == Some(Call(Confirm, args)) && last == Last(v.facts.lines)
      requires FactsNow() == v.facts && NotesNow() == v.notes && lateYes.None?
      requires DraftNow() == WithCart(core, v.draft, turn)
      requires beforeCart == if turn.cart.Some? then Some((v.draft.cart, v.draft.at, v.draft.heard)) else None
      modifies `cart, `draftedAt, `readOut, `cartLeftAside, `lateYes, `refusedAttempts,
               `confirms, `lastConfirm, `unconfirmed
      ensures NotedAhead(v, turn, lateYes)
      ensures LateYes(core, v, turn) ==> cartLeftAside == turn.cart.Some?
    {
      var late := IsALateYes(last);
      assert late == LateYes(core, v, turn);
      if !late {
        confirms := confirms + 1;
        lastConfirm := Some(args);
        var afterDraft := draftedAt.Some? && |customerLines| > draftedAt.value;
        if !(afterDraft && readOut && core.IsYes(last)) {
          unconfirmed := unconfirmed + [last];
        }
        assert unconfirmed == v.notes.unconfirmed + Violations(core, v, turn);
      }
    }

    method NoteGuesses(items: seq<Line>, last: string)
      modifies `guessed
      ensures guessed == old(guessed) + GuessedItems(items, searchedIds, last)
    {
      var i := 0;
      ghost var was := guessed;
      while i < |items|
        invariant 0 <= i <= |items|
        invariant guessed == was + GuessedItems(items[..i], searchedIds, last)
      {
        GuessedOneMore(items[..i], items[i], searchedIds, last);
        assert items[..i] + [items[i]] == items[..i + 1];
        if items[i].itemId !in searchedIds {
          guessed := guessed + [(items[i].itemId, last)];
        }
        i := i + 1;
      }
      assert items[..i] == items;
    }
  }

  lemma {:induction false} CountedOther(core: Core, v: View, turn: Turn)
    requires !Calls(turn, Confirm)
    ensures Counted(core, v, turn) == v.notes.(guessed := v.notes.guessed + Guesses(v.facts, turn))
    ensures !Calls(turn, DraftOrder) ==> Counted(core, v, turn) == v.notes
  {
    assert v.notes.unconfirmed + [] == v.notes.unconfirmed;
  }

  lemma {:induction false} GuessedOneMore(items: seq<Line>, item: Line, searched: set<string>, last: string)
    ensures GuessedItems(items + [item], searched, last)
         == GuessedItems(items, searched, last) + if item.itemId in searched then [] else [(item.itemId, last)]
  {
    if items == [] {
      assert items + [item] == [item];
    } else {
      GuessedOneMore(items[1..], item, searched, last);
      assert (items + [item])[1..] == items[1..] + [item];
    }
  }

  lemma {:induction false} RemovedAttempt(refused: seq<(Tool, string)>, n: Notes, said: string)
    requires multiset(refused) == WithAttempt(n, Confirm, said).refused
    ensures (Confirm, said) in refused && multiset(RemoveFirst(refused, (Confirm, said))) == n.refused
  {
    assert (Confirm, said) in multiset(refused);
  }

  /** `list.remove`. */
  function RemoveFirst(s: seq<(Tool, string)>, x: (Tool, string)): (r: seq<(Tool, string)>)
    requires x in s
    ensures multiset(r) == multiset(s) - multiset{x}
  {
    assert s == [s[0]] + s[1..];
    if s[0] == x then s[1..] else [s[0]] + RemoveFirst(s[1..], x)
  }
}
