/** Whole runs of the recorder of Recorder.dfy: its notes are properties of the
    trace, and a booking it does not mark answers a draft that was read out. */
module RecorderRuns {
  import opened Wrappers
  import opened Recorder

  // ----- What came in over a whole run -----

  /** The tools that draft something. */
  const DRAFTS := {DraftOrder, CreateReservation}

  /** An ok result of one of these tools came back in exchange k. */
  predicate Brought(past: seq<Exchange>, k: nat, tools: set<Tool>) {
    k < |past| && past[k].reply.Outcome? && past[k].reply.ok && past[k].reply.tool in tools
  }

  predicate FoundAt(past: seq<Exchange>, k: nat, id: string) {
    Brought(past, k, {SearchMenu, GetItemDetails}) && id in past[k].reply.ids
  }

  /** Some search of this call delivered the dish. */
  ghost predicate Found(past: seq<Exchange>, id: string) {
    exists k: nat :: FoundAt(past, k, id)
  }

  /** What the guest said last; nothing at the start. */
  function SaidLast(past: seq<Exchange>): string {
    if past == [] then ""
    else if past[|past| - 1].reply.Heard? then past[|past| - 1].reply.text
    else SaidLast(past[..|past| - 1])
  }

  function Sentences(past: seq<Exchange>): nat {
    if past == [] then 0
    else Sentences(past[..|past| - 1]) + if past[|past| - 1].reply.Heard? then 1 else 0
  }

  /** The draft of exchange k is the last one, and nothing was booked since. */
  ghost predicate LastDraft(past: seq<Exchange>, k: nat) {
    && Brought(past, k, DRAFTS)
    && forall j :: k < j < |past| ==> !Brought(past, j, DRAFTS + {Confirm})
  }

  lemma {:induction false} FoundOneMore(past: seq<Exchange>, id: string)
    requires past != []
    ensures Found(past, id) <==> Found(past[..|past| - 1], id) || FoundAt(past, |past| - 1, id)
  {
    var n := |past| - 1;
    if k: nat :| FoundAt(past, k, id) && k < n {
      assert FoundAt(past[..n], k, id);
    }
    if k: nat :| FoundAt(past[..n], k, id) {
      assert FoundAt(past, k, id);
    }
  }

  /** The dishes the recorder takes as searched are those some search delivered. */
  lemma {:induction false} SearchedIff(core: Core, past: seq<Exchange>, id: string)
    ensures id in Replay(core, past).facts.searched <==> Found(past, id)
  {
    if past != [] {
      SearchedIff(core, past[..|past| - 1], id);
      FoundOneMore(past, id);
    }
  }

  /** The sentences of the guest: how many there were, and the last one. */
  lemma {:induction false} HeardSoFar(core: Core, past: seq<Exchange>)
    ensures |Replay(core, past).facts.lines| == Sentences(past)
    ensures Last(Replay(core, past).facts.lines) == SaidLast(past)
  {
    if past != [] {
      HeardSoFar(core, past[..|past| - 1]);
    }
  }

  /** The sentence to read out is that of the last draft, until something is booked. */
  lemma {:induction false} ReadbackIs(core: Core, past: seq<Exchange>)
    ensures forall k: nat :: LastDraft(past, k) ==> Replay(core, past).facts.readback == past[k].reply.readback
    ensures (forall k: nat :: !LastDraft(past, k)) ==> Replay(core, past).facts.readback == None
  {
    if past != [] {
      var n := |past| - 1;
      ReadbackIs(core, past[..n]);
      ReadbackStep(core, Replay(core, past[..n]), past[n]);
      hide Replay, LastDraft;
      forall k: nat | k < n ensures LastDraft(past, k) <==>
          LastDraft(past[..n], k) && !Brought(past, n, DRAFTS + {Confirm})
      {
        LastDraftBefore(past, k);
      }
      assert LastDraft(past, n) <==> Brought(past, n, DRAFTS);
    }
  }

  lemma {:induction false} ReadbackStep(core: Core, v: View, e: Exchange)
    ensures Step(core, v, e).facts.readback ==
            if !(e.reply.Outcome? && e.reply.ok) then v.facts.readback
            else if e.reply.tool.DraftOrder? || e.reply.tool.CreateReservation? then e.reply.readback
            else if e.reply.tool.Confirm? then None
            else v.facts.readback
  {}

  lemma {:induction false} LastDraftBefore(past: seq<Exchange>, k: nat)
    requires past != [] && k < |past| - 1
    ensures LastDraft(past, k) <==>
      LastDraft(past[..|past| - 1], k) && !Brought(past, |past| - 1, DRAFTS + {Confirm})
  {
    var n := |past| - 1;
    forall j | k <= j < n
      ensures Brought(past[..n], j, DRAFTS) == Brought(past, j, DRAFTS)
      ensures Brought(past[..n], j, DRAFTS + {Confirm})
           == Brought(past, j, DRAFTS + {Confirm})
    {
      assert past[..n][j] == past[j];
    }
  }

  // ----- What the notes of a whole run are -----

  predicate Failed(reply: Input) {
    reply.Outcome? && !reply.ok
  }

  predicate WentThrough(e: Exchange) {
    e.reply.Outcome? && e.reply.ok
  }

  /** Did the call of the answer come to nothing: refused or failed, or answered
      by the core with the draft's sentence? */
  predicate CameToNothing(core: Core, v: View, e: Exchange) {
    Failed(e.reply) || (e.reply.Heard? && LateYes(core, v, e.turn))
  }

  function Bookings(past: seq<Exchange>): nat {
    if past == [] then 0
    else var e := past[|past| - 1];
         Bookings(past[..|past| - 1]) + if Calls(e.turn, Confirm) && WentThrough(e) then 1 else 0
  }

  /** The guest sentence before each booking without consent. */
  function BookedWithoutConsent(core: Core, past: seq<Exchange>): seq<string> {
    if past == [] then []
    else
      var e, before := past[|past| - 1], past[..|past| - 1];
      BookedWithoutConsent(core, before) + if WentThrough(e) then Violations(core, Replay(core, before), e.turn) else []
  }

  /** The positions no search before delivered, each with the guest sentence before it. */
  ghost function Unfound(before: seq<Exchange>, items: seq<Line>): seq<(string, string)> {
    if items == [] then []
    else (if Found(before, items[0].itemId) then [] else [(items[0].itemId, SaidLast(before))])
         + Unfound(before, items[1..])
  }

  /** The guessed positions of every draft of an order that did not fail. */
  ghost function StoredGuesses(past: seq<Exchange>): seq<(string, string)> {
    if past == [] then []
    else
      var e, before := past[|past| - 1], past[..|past| - 1];
      StoredGuesses(before)
      + if Calls(e.turn, DraftOrder) && !Failed(e.reply) then Unfound(before, e.turn.call.value.args.items) else []
  }

  lemma {:induction false} GuessedAreUnfound(core: Core, before: seq<Exchange>, items: seq<Line>)
    ensures var f := Replay(core, before).facts;
            GuessedItems(items, f.searched, Last(f.lines)) == Unfound(before, items)
  {
    if items != [] {
      SearchedIff(core, before, items[0].itemId);
      HeardSoFar(core, before);
      GuessedAreUnfound(core, before, items[1..]);
    }
  }

  /** Position i of the draft in exchange j was guessed: the draft did not fail and
      no search before it delivered the dish. */
  ghost predicate GuessedAt(past: seq<Exchange>, j: nat, i: nat, guess: (string, string)) {
    && j < |past| && Calls(past[j].turn, DraftOrder) && !Failed(past[j].reply)
    && i < |past[j].turn.call.value.args.items| && past[j].turn.call.value.args.items[i].itemId == guess.0
    && guess.1 == SaidLast(past[..j]) && forall k: nat :: k < j ==> !FoundAt(past, k, guess.0)
  }

  ghost predicate UnfoundAt(before: seq<Exchange>, items: seq<Line>, i: nat, guess: (string, string)) {
    i < |items| && items[i].itemId == guess.0 && guess.1 == SaidLast(before) && !Found(before, guess.0)
  }

  lemma {:induction false} UnfoundIff(before: seq<Exchange>, items: seq<Line>, guess: (string, string))
    ensures guess in Unfound(before, items) <==> exists i: nat :: UnfoundAt(before, items, i, guess)
  {
    if items != [] {
      UnfoundIff(before, items[1..], guess);
      if i: nat :| UnfoundAt(before, items, i, guess) && i > 0 {
        assert UnfoundAt(before, items[1..], i - 1, guess);
      }
      if i: nat :| UnfoundAt(before, items[1..], i, guess) {
        assert UnfoundAt(before, items, i + 1, guess);
      }
      assert UnfoundAt(before, items, 0, guess) <==>
             !Found(before, items[0].itemId) && guess == (items[0].itemId, SaidLast(before));
    }
  }

  lemma {:induction false} NotFoundBefore(past: seq<Exchange>, j: nat, id: string)
    requires j <= |past|
    ensures Found(past[..j], id) <==> exists k: nat :: k < j && FoundAt(past, k, id)
  {
    if k: nat :| k < j && FoundAt(past, k, id) {
      assert FoundAt(past[..j], k, id);
    }
    if k: nat :| FoundAt(past[..j], k, id) {
      assert FoundAt(past, k, id);
    }
  }

  /** Which positions the recorder holds as guessed, over every legal run. */
  lemma {:induction false} GuessedIff(core: Core, past: seq<Exchange>, guess: (string, string))
    requires LegalRun(core, past)
    ensures guess in Replay(core, past).notes.guessed <==> exists j: nat, i: nat :: GuessedAt(past, j, i, guess)
  {
    NotesAreTheTrace(core, past);
    StoredIff(past, guess);
  }

  lemma {:induction false} StoredIff(past: seq<Exchange>, guess: (string, string))
    ensures guess in StoredGuesses(past) <==> exists j: nat, i: nat :: GuessedAt(past, j, i, guess)
  {
    if past != [] {
      hide GuessedAt, FoundAt, SaidLast, Unfound;
      var n := |past| - 1;
      var e, before := past[n], past[..n];
      StoredIff(before, guess);
      if Calls(e.turn, DraftOrder) && !Failed(e.reply) {
        UnfoundIff(before, e.turn.call.value.args.items, guess);
      }
      if guess in StoredGuesses(before) {
        var j: nat, i: nat :| GuessedAt(before, j, i, guess);
        GuessedInRun(before, j, i, guess);
        GuessedOneMore(past, j, i, guess);
      } else if guess in StoredGuesses(past) {
        var i: nat :| UnfoundAt(before, e.turn.call.value.args.items, i, guess);
        GuessedOneMore(past, n, i, guess);
      }
      if j: nat, i: nat :| GuessedAt(past, j, i, guess) {
        GuessedOneMore(past, j, i, guess);
      }
    }
  }

  lemma {:induction false} GuessedInRun(past: seq<Exchange>, j: nat, i: nat, guess: (string, string))
    requires GuessedAt(past, j, i, guess)
    ensures j < |past|
  {}

  lemma {:induction false} GuessedOneMore(past: seq<Exchange>, j: nat, i: nat, guess: (string, string))
    requires past != []
    ensures var n := |past| - 1;
            GuessedAt(past, j, i, guess) <==>
              if j != n then GuessedAt(past[..n], j, i, guess)
              else
                && Calls(past[n].turn, DraftOrder) && !Failed(past[n].reply)
                && UnfoundAt(past[..n], past[n].turn.call.value.args.items, i, guess)
  {
    var n := |past| - 1;
    if j < n {
      assert past[..n][..j] == past[..j] && past[..n][j] == past[j];
      assert forall k: nat :: k < j ==> FoundAt(past[..n], k, guess.0) == FoundAt(past, k, guess.0);
    } else if j == n {
      NotFoundBefore(past, n, guess.0);
    }
  }

  /** Would the call break a rule: a guessed position, or a `confirm` without consent? */
  ghost predicate BreaksARule(core: Core, before: seq<Exchange>, turn: Turn) {
    || (Calls(turn, DraftOrder) && Unfound(before, turn.call.value.args.items) != [])
    || Violations(core, Replay(core, before), turn) != []
  }

  /** One entry for each refused call that broke a rule. */
  ghost function StoppedViolations(core: Core, past: seq<Exchange>): multiset<(Tool, string)> {
    if past == [] then multiset{}
    else
      var e, before := past[|past| - 1], past[..|past| - 1];
      StoppedViolations(core, before)
      + if CameToNothing(core, Replay(core, before), e) && e.turn.call.Some? && BreaksARule(core, before, e.turn)
        then multiset{(e.turn.call.value.name, SaidLast(before))} else multiset{}
  }

  function Stopped(core: Core, v: View, e: Exchange): multiset<(Tool, string)> {
    if CameToNothing(core, v, e) && e.turn.call.Some?
       && (Guesses(v.facts, e.turn) != [] || Violations(core, v, e.turn) != [])
    then multiset{(e.turn.call.value.name, Last(v.facts.lines))} else multiset{}
  }

  /** The arguments of the last booking that went through. */
  function LastBooked(past: seq<Exchange>): Option<Args> {
    if past == [] then None
    else var e := past[|past| - 1];
         if Calls(e.turn, Confirm) && WentThrough(e) then Some(e.turn.call.value.args)
         else LastBooked(past[..|past| - 1])
  }

  lemma {:induction false} LateYesIsNoConsent(core: Core, v: View, turn: Turn)
    requires LateYes(core, v, turn)
    ensures Violations(core, v, turn) == [Last(v.facts.lines)] && Guesses(v.facts, turn) == []
  {}

  /** Main result for the counters: over every legal run the notes are what the
      trace says, call by call, with nothing left of what was taken back. */
  lemma {:induction false} NotesAreTheTrace(core: Core, past: seq<Exchange>)
    requires LegalRun(core, past)
    ensures var n := Replay(core, past).notes;
            && n.confirms == Bookings(past)
            && n.unconfirmed == BookedWithoutConsent(core, past)
            && n.guessed == StoredGuesses(past)
            && n.refused == StoppedViolations(core, past)
            && n.lastConfirm == LastBooked(past)
  {
    if past != [] {
      var before, e := past[..|past| - 1], past[|past| - 1];
      NotesAreTheTrace(core, before);
      NotesStep(core, Replay(core, before), e);
      HeardSoFar(core, before);
      if Calls(e.turn, DraftOrder) {
        GuessedAreUnfound(core, before, e.turn.call.value.args.items);
      }
    }
  }

  lemma {:induction false} NotesStep(core: Core, v: View, e: Exchange)
    requires Legal(core, v, e)
    ensures var n := Step(core, v, e).notes;
            && n.confirms == v.notes.confirms + (if Calls(e.turn, Confirm) && WentThrough(e) then 1 else 0)
            && n.unconfirmed == v.notes.unconfirmed + (if WentThrough(e) then Violations(core, v, e.turn) else [])
            && n.guessed == v.notes.guessed + (if Failed(e.reply) then [] else Guesses(v.facts, e.turn))
            && n.refused == v.notes.refused + Stopped(core, v, e)
            && n.lastConfirm ==
                 if Calls(e.turn, Confirm) && WentThrough(e) then Some(e.turn.call.value.args) else v.notes.lastConfirm
  {
    if LateYes(core, v, e.turn) {
      LateYesIsNoConsent(core, v, e.turn);
    }
  }

  /** A late yes is counted exactly once: as a violation if it booked something,
      as a refused attempt if not. */
  lemma {:induction false} LateYesCountedOnce(core: Core, past: seq<Exchange>, e: Exchange)
    requires LateYes(core, Replay(core, past), e.turn)
    ensures var n, m := Replay(core, past).notes, Replay(core, past + [e]).notes;
            var last := Last(Replay(core, past).facts.lines);
            && (WentThrough(e) ==> m.unconfirmed == n.unconfirmed + [last] && m.refused == n.refused)
            && (!WentThrough(e) ==>
                  m.unconfirmed == n.unconfirmed && m.refused == n.refused + multiset{(Confirm, last)})
            && m.confirms == n.confirms + if WentThrough(e) then 1 else 0
  {
    assert (past + [e])[..|past|] == past;
  }

  // ----- What a booking without a mark answers -----

  /** An ok result belongs to the call before it. */
  predicate OwnResults(past: seq<Exchange>) {
    forall k :: 0 <= k < |past| ==> OwnResult(past[k])
  }

  predicate CallsOne(turn: Turn, tools: set<Tool>) {
    turn.call.Some? && turn.call.value.name in tools
  }

  /** The answer brings no readable order, or the one that is held. */
  predicate KeepsOrder(core: Core, order: seq<Line>, turn: Turn) {
    if turn.cart.None? then true
    else match core.CartLines(turn.cart.value)
      case None => true
      case Some(lines) => core.SameOrder(lines, order)
  }

  /** The exchange leaves a waiting draft alone. */
  predicate LeavesDraft(core: Core, v: View, e: Exchange) {
    && !CallsOne(e.turn, DRAFTS + {SearchMenu, CheckSlot})
    && (LateYes(core, v, e.turn) || KeepsOrder(core, v.draft.cart, e.turn))
    && !(Failed(e.reply) && (e.reply.tool.Cart? || (LateYes(core, v, e.turn) && e.turn.cart.Some?)))
    && !(WentThrough(e) && e.reply.tool.Confirm?)
  }

  /** A draft went through at d and nothing has taken it away since. */
  ghost predicate WaitsSince(core: Core, past: seq<Exchange>, d: nat) {
    && d < |past| && CallsOne(past[d].turn, DRAFTS) && !Failed(past[d].reply)
    && forall k :: d < k < |past| ==> DraftLeft(core, past, k)
  }

  ghost predicate DraftLeft(core: Core, past: seq<Exchange>, k: nat)
    requires k < |past|
  {
    LeavesDraft(core, Replay(core, past[..k]), past[k])
  }

  ghost predicate HeardLeft(core: Core, past: seq<Exchange>, k: nat)
    requires k < |past|
  {
    LeavesHeard(core, Replay(core, past[..k]), past[k])
  }

  lemma {:induction false} DraftLeftOnPrefix(core: Core, past: seq<Exchange>, n: nat, k: nat)
    requires k < n <= |past|
    ensures DraftLeft(core, past[..n], k) == DraftLeft(core, past, k)
  {
    assert past[..n][..k] == past[..k];
  }

  lemma {:induction false} HeardLeftOnPrefix(core: Core, past: seq<Exchange>, n: nat, k: nat)
    requires k < n <= |past|
    ensures HeardLeft(core, past[..n], k) == HeardLeft(core, past, k)
    ensures ReadAt(core, past[..n], k) == ReadAt(core, past, k)
  {
    assert past[..n][..k] == past[..k];
  }

  /** The exchange puts the sentence of the draft last: the model says it, or the
      core reads it out, on a late yes or for a draft it held back. */
  predicate ReadsDraftOut(core: Core, v: View, e: Exchange) {
    || (e.turn.call.None? && e.turn.say.Some? && v.facts.readback.Some?
        && core.ReadsOut(e.turn.say.value, v.facts.readback.value)
        && !(Failed(e.reply) && e.reply.tool.Cart?))
    || (e.reply.Heard? && LateYes(core, v, e.turn) && v.facts.readback.Some?)
    || (e.reply.Heard? && e.byCore && CallsOne(e.turn, DRAFTS))
  }

  /** The exchange says nothing else and drops nothing. */
  predicate LeavesHeard(core: Core, v: View, e: Exchange) {
    && !(e.turn.call.None? && e.turn.say.Some?)
    && !(e.reply.Heard? && (LateYes(core, v, e.turn) || (e.byCore && CallsOne(e.turn, DRAFTS))))
    && (LateYes(core, v, e.turn) || KeepsOrder(core, v.draft.cart, e.turn))
    && !(Failed(e.reply) && (e.reply.tool.Cart? || (LateYes(core, v, e.turn) && e.turn.cart.Some?)))
    && !(WentThrough(e) && e.reply.tool in DRAFTS + {Confirm})
  }

  ghost predicate ReadAt(core: Core, past: seq<Exchange>, k: nat)
    requires k < |past|
  {
    ReadsDraftOut(core, Replay(core, past[..k]), past[k])
  }

  ghost predicate HeardSince(core: Core, past: seq<Exchange>, s: nat) {
    && s < |past| && ReadAt(core, past, s)
    && forall k :: s < k < |past| ==> HeardLeft(core, past, k)
  }

  predicate OwnResult(e: Exchange) {
    WentThrough(e) ==> e.turn.call.Some? && e.turn.call.value.name == e.reply.tool
  }

  /** One exchange: a draft that went through waits, an exchange that leaves the
      draft alone changes nothing, any other one takes it away. */
  lemma {:induction false} DraftStep(core: Core, v: View, e: Exchange)
    requires Legal(core, v, e) && OwnResult(e)
    ensures Step(core, v, e).draft.at ==
            if CallsOne(e.turn, DRAFTS) && !Failed(e.reply) then Some(|v.facts.lines|)
            else if LeavesDraft(core, v, e) then v.draft.at else None
  {}

  lemma {:induction false} HeardStep(core: Core, v: View, e: Exchange)
    requires Legal(core, v, e) && OwnResult(e)
    ensures Step(core, v, e).draft.heard ==
            (ReadsDraftOut(core, v, e) || (LeavesHeard(core, v, e) && v.draft.heard))
  {}

  lemma {:induction false} DraftAt(core: Core, past: seq<Exchange>)
    requires past != [] && LegalRun(core, past) && OwnResults(past)
    ensures var n := |past| - 1;
            Replay(core, past).draft.at ==
              if CallsOne(past[n].turn, DRAFTS) && !Failed(past[n].reply) then Some(Sentences(past[..n]))
              else if DraftLeft(core, past, n) then Replay(core, past[..n]).draft.at
              else None
  {
    var n := |past| - 1;
    HeardSoFar(core, past[..n]);
    DraftStep(core, Replay(core, past[..n]), past[n]);
  }

  lemma {:induction false} DraftWaits(core: Core, past: seq<Exchange>)
    requires LegalRun(core, past) && OwnResults(past)
    ensures var at := Replay(core, past).draft.at;
            && (forall d: nat :: WaitsSince(core, past, d) ==> at == Some(Sentences(past[..d])))
            && (at.Some? ==> exists d: nat :: WaitsSince(core, past, d))
  {
    if past != [] {
      var n := |past| - 1;
      var before, e := past[..n], past[n];
      DraftWaits(core, before);
      DraftAt(core, past);
      hide Replay, DraftLeft, Failed, CallsOne;
      forall d: nat | WaitsSince(core, past, d)
        ensures Replay(core, past).draft.at == Some(Sentences(past[..d]))
      {
        if d < n {
          WaitsBefore(core, past, d);
          assert before[..d] == past[..d];
        }
      }
      if Replay(core, past).draft.at.Some? {
        if CallsOne(e.turn, DRAFTS) && !Failed(e.reply) {
          assert WaitsSince(core, past, n);
        } else {
          var d: nat :| WaitsSince(core, before, d);
          WaitsBefore(core, past, d);
        }
      }
    }
  }

  lemma {:induction false} WaitsBefore(core: Core, past: seq<Exchange>, d: nat)
    requires past != [] && d < |past| - 1
    ensures WaitsSince(core, past, d) <==> WaitsSince(core, past[..|past| - 1], d) && DraftLeft(core, past, |past| - 1)
  {
    var n := |past| - 1;
    assert past[..n][d] == past[d];
    forall k | d < k < n ensures DraftLeft(core, past[..n], k) == DraftLeft(core, past, k) {
      DraftLeftOnPrefix(core, past, n, k);
    }
  }

  lemma {:induction false} HeardBefore(core: Core, past: seq<Exchange>, s: nat)
    requires past != [] && s < |past| - 1
    ensures HeardSince(core, past, s) <==> HeardSince(core, past[..|past| - 1], s) && HeardLeft(core, past, |past| - 1)
  {
    var n := |past| - 1;
    HeardLeftOnPrefix(core, past, n, s);
    forall k | s < k < n ensures HeardLeft(core, past[..n], k) == HeardLeft(core, past, k) {
      HeardLeftOnPrefix(core, past, n, k);
    }
  }

  lemma {:induction false} HeardAt(core: Core, past: seq<Exchange>)
    requires past != [] && LegalRun(core, past) && OwnResults(past)
    ensures var n := |past| - 1;
            Replay(core, past).draft.heard <==>
              ReadAt(core, past, n) || (HeardLeft(core, past, n) && Replay(core, past[..n]).draft.heard)
  {
    HeardStep(core, Replay(core, past[..|past| - 1]), past[|past| - 1]);
  }

  lemma {:induction false} DraftHeard(core: Core, past: seq<Exchange>)
    requires LegalRun(core, past) && OwnResults(past)
    ensures Replay(core, past).draft.heard <==> exists s: nat :: HeardSince(core, past, s)
  {
    if past != [] {
      var n := |past| - 1;
      DraftHeard(core, past[..n]);
      HeardAt(core, past);
      if ReadAt(core, past, n) {
        assert HeardSince(core, past, n);
      } else if Replay(core, past).draft.heard {
        var s: nat :| HeardSince(core, past[..n], s);
        HeardBefore(core, past, s);
      } else if s: nat :| HeardSince(core, past, s) {
        HeardBefore(core, past, s);
      }
    }
  }

  lemma {:induction false} LegalAt(core: Core, past: seq<Exchange>, k: nat)
    requires LegalRun(core, past) && k < |past|
    ensures Legal(core, Replay(core, past[..k]), past[k])
  {
    var n := |past| - 1;
    if k < n {
      LegalAt(core, past[..n], k);
      assert past[..n][..k] == past[..k];
    }
  }

  /** The draft that waits was read out after it went through, not before. */
  lemma {:induction false} HeardAfterDraft(core: Core, past: seq<Exchange>, d: nat, s: nat)
    requires LegalRun(core, past) && OwnResults(past)
    requires WaitsSince(core, past, d) && HeardSince(core, past, s)
    ensures d <= s
  {
    LegalAt(core, past, d);
    assert OwnResult(past[d]);
    assert !HeardLeft(core, past, d);
  }

  /** While a draft waits, the sentence to read out is the one of its result. */
  lemma {:induction false} ReadbackOfTheDraft(core: Core, past: seq<Exchange>, d: nat)
    requires LegalRun(core, past) && OwnResults(past)
    requires WaitsSince(core, past, d) && past[d].reply.Outcome?
    ensures Replay(core, past).facts.readback == past[d].reply.readback
  {
    var n := |past| - 1;
    assert OwnResult(past[n]);
    if d < n {
      WaitsBefore(core, past, d);
      ReadbackOfTheDraft(core, past[..n], d);
    }
  }

  /** A late yes: a yes to a draft that waits and was not what was said last. */
  lemma {:induction false} LateYesIff(core: Core, past: seq<Exchange>, turn: Turn)
    requires LegalRun(core, past) && OwnResults(past)
    ensures LateYes(core, Replay(core, past), turn) <==>
              && Calls(turn, Confirm) && core.IsYes(SaidLast(past))
              && (exists d: nat :: WaitsSince(core, past, d)) && !exists s: nat :: HeardSince(core, past, s)
  {
    HeardSoFar(core, past);
    DraftWaits(core, past);
    DraftHeard(core, past);
  }

  /** Main result for consent: a `confirm` is not marked exactly when it comes
      without a change of the order, on a yes said after a draft that went through
      and still waits, and the last thing said since was that draft read out. */
  lemma {:induction false} UnmarkedConfirm(core: Core, past: seq<Exchange>, turn: Turn)
    requires LegalRun(core, past) && OwnResults(past) && Calls(turn, Confirm)
    ensures Violations(core, Replay(core, past), turn) == [] <==>
              && core.IsYes(SaidLast(past)) && KeepsOrder(core, Replay(core, past).draft.cart, turn)
              && exists d: nat, s: nat :: d <= s && WaitsSince(core, past, d) && HeardSince(core, past, s)
                   && Sentences(past) > Sentences(past[..d])
  {
    HeardSoFar(core, past);
    DraftWaits(core, past);
    DraftHeard(core, past);
    if d: nat, s: nat :| WaitsSince(core, past, d) && HeardSince(core, past, s) {
      HeardAfterDraft(core, past, d, s);
    }
  }

  // ----- The order that is held -----

  /** The order an exchange brings: a booking of an order empties it, a stored
      draft of an order has its own lines, and otherwise an answer brings lines
      that differ from what is held and that nobody refused. */
  function NewOrder(core: Core, v: View, e: Exchange): Option<seq<Line>> {
    if WentThrough(e) && e.reply.tool.Confirm? && e.turn.call.Some? && e.turn.call.value.args.ofOrder then Some([])
    else if WentThrough(e) && e.reply.tool in DRAFTS && Calls(e.turn, DraftOrder) then
      match core.CartLines(e.turn.call.value.args.items)
      case None => Some([])
      case Some(lines) => Some(lines)
    else if LateYes(core, v, e.turn) || (Failed(e.reply) && e.reply.tool.Cart?)
            || KeepsOrder(core, v.draft.cart, e.turn) then None
    else core.CartLines(e.turn.cart.value)
  }

  /** What exchange k brought; nothing where there is no such exchange. */
  ghost function OrderOf(core: Core, past: seq<Exchange>, k: nat): Option<seq<Line>> {
    if k < |past| then NewOrder(core, Replay(core, past[..k]), past[k]) else None
  }

  ghost predicate LastOrder(core: Core, past: seq<Exchange>, k: nat) {
    OrderOf(core, past, k).Some? && forall j: nat :: j > k ==> OrderOf(core, past, j).None?
  }

  lemma {:induction false} OrderStep(core: Core, v: View, e: Exchange)
    ensures Step(core, v, e).draft.cart ==
            if NewOrder(core, v, e).Some? then NewOrder(core, v, e).value else v.draft.cart
  {}

  lemma {:induction false} OrderBefore(core: Core, past: seq<Exchange>, k: nat)
    requires past != []
    ensures k != |past| - 1 ==> OrderOf(core, past, k) == OrderOf(core, past[..|past| - 1], k)
  {
    if k < |past| - 1 {
      assert past[..|past| - 1][..k] == past[..k];
    }
  }

  /** The order that is held is the one brought last, and empty before any was. */
  lemma {:induction false} OrderHeld(core: Core, past: seq<Exchange>)
    ensures forall k: nat :: LastOrder(core, past, k) ==> Replay(core, past).draft.cart == OrderOf(core, past, k).value
    ensures (forall k: nat :: OrderOf(core, past, k).None?) ==> Replay(core, past).draft.cart == []
  {
    if past != [] {
      var n := |past| - 1;
      OrderHeld(core, past[..n]);
      OrderStep(core, Replay(core, past[..n]), past[n]);
      assert OrderOf(core, past, n) == NewOrder(core, Replay(core, past[..n]), past[n]);
      assert OrderOf(core, past[..n], n).None?;
      var before, after := Replay(core, past[..n]).draft.cart, Replay(core, past).draft.cart;
      hide Replay, OrderOf, NewOrder;
      forall k: nat ensures k != n ==> OrderOf(core, past, k) == OrderOf(core, past[..n], k) {
        OrderBefore(core, past, k);
      }
      forall k: nat | LastOrder(core, past, k) && k != n ensures LastOrder(core, past[..n], k) {
        assert OrderOf(core, past, k).Some?;
      }
    }
  }
}
