/** Where the lines of an order come from (sim/scripted_order.py): on every run of the
    order dialogue each line has the dish, the quantity, the note and the options that
    the guest's sentences and the search results said. */
module PickupOrders {
  import opened Wrappers
  import opened PickupScript
  import opened PickupSteps
  import opened PickupSound
  import opened PickupRuns
  import opened PickupPromises
  import opened PickupLines

  // ---- Whole runs ----

  /** The event brings line i: its dish, and how many. */
  ghost predicate Brings(was: Standing, event: Event, i: nat, hit: Hit, quantity: nat) {
    || (exists a :: Arrives(was, event, a) && a.at == i && a.hit == hit && a.quantity == quantity)
    || (i < |was.cart| && IsReplaced(was, event, i)
        && hit == event.found.part.hit && KeepsQuantity(was.replace.value.quantity, was.cart[i].quantity, quantity))
  }

  /** The event leaves line i alone, so far as dish and quantity go. */
  ghost predicate Leaves(was: Standing, event: Event, i: nat) {
    !GivesUp(was, event) && !IsReplaced(was, event, i)
  }

  /** The event says this is the note of line i: with the wish it comes with, by the
      line it replaces, or in the answer about an allergy or a group. */
  ghost predicate SaysNote(was: Standing, event: Event, i: nat, note: Option<string>) {
    || (exists a :: Arrives(was, event, a) && a.at == i && note == NoteBehind(a.wish, None))
    || (i < |was.cart| && IsReplaced(was, event, i) && note == was.cart[i].note)
    || (AnswersAllergy(was, event, i) && note == event.heard.allergy.note)
    || (i < |was.cart| && AnswersGroup(was, event, i) && note == NoteBehind(event.heard.group.wish, was.cart[i].note))
  }

  ghost predicate LeavesNote(was: Standing, event: Event, i: nat) {
    Leaves(was, event, i) && !AnswersAllergy(was, event, i) && !AnswersGroup(was, event, i)
  }

  /** The event chooses this option for line i: with the wish it comes with, or in the
      answer to a group or a mandatory choice. */
  ghost predicate Chooses(was: Standing, event: Event, i: nat, c: Choice) {
    || (exists a :: Arrives(was, event, a) && a.at == i && c in ChosenBy(a.wish))
    || (AnswersGroup(was, event, i) && c in ChosenBy(event.heard.group.wish))
    || (AnswersOption(was, event, i) && c == Choice(was.cart[i].pending[0].name, event.heard.option.value))
  }

  /** Where the call stood before step n. */
  function Was(wantsDelivery: bool, steps: seq<Step>, n: nat): Standing
    requires n < |steps|
  {
    Last(wantsDelivery, steps[..n])
  }

  ghost predicate BroughtAt(wantsDelivery: bool, steps: seq<Step>, n: nat, i: nat, hit: Hit, quantity: nat) {
    n < |steps| && Brings(Was(wantsDelivery, steps, n), steps[n].event, i, hit, quantity)
  }

  ghost predicate LeftAt(wantsDelivery: bool, steps: seq<Step>, k: nat, i: nat) {
    k < |steps| && Leaves(Was(wantsDelivery, steps, k), steps[k].event, i)
  }

  ghost predicate NotedAt(wantsDelivery: bool, steps: seq<Step>, n: nat, i: nat, note: Option<string>) {
    n < |steps| && SaysNote(Was(wantsDelivery, steps, n), steps[n].event, i, note)
  }

  ghost predicate NoteLeftAt(wantsDelivery: bool, steps: seq<Step>, k: nat, i: nat) {
    k < |steps| && LeavesNote(Was(wantsDelivery, steps, k), steps[k].event, i)
  }

  ghost predicate ChosenAt(wantsDelivery: bool, steps: seq<Step>, k: nat, i: nat, c: Choice) {
    k < |steps| && Chooses(Was(wantsDelivery, steps, k), steps[k].event, i, c)
  }

  /** Line i came with this dish and quantity at step n and has been there since. */
  ghost predicate CameAt(wantsDelivery: bool, steps: seq<Step>, n: nat, i: nat, hit: Hit, quantity: nat) {
    && BroughtAt(wantsDelivery, steps, n, i, hit, quantity)
    && forall k :: n < k < |steps| ==> LeftAt(wantsDelivery, steps, k, i)
  }

  /** This note of line i was said at step n, and nothing about it since. */
  ghost predicate NoteSince(wantsDelivery: bool, steps: seq<Step>, n: nat, i: nat, note: Option<string>) {
    && NotedAt(wantsDelivery, steps, n, i, note)
    && forall k :: n < k < |steps| ==> NoteLeftAt(wantsDelivery, steps, k, i)
  }

  /** These are the options chosen for line i since step n, one at each of the steps `at`. */
  ghost predicate ChosenSince(wantsDelivery: bool, steps: seq<Step>, n: nat, i: nat, at: seq<nat>,
                              options: seq<Choice>)
  {
    && |at| == |options|
    && (forall m :: 0 <= m < |at| ==> n <= at[m] && ChosenAt(wantsDelivery, steps, at[m], i, options[m]))
    && (forall m, l :: 0 <= m < l < |at| ==> at[m] < at[l])
    && (forall k, c :: n <= k && ChosenAt(wantsDelivery, steps, k, i, c) ==> k in at)
  }

  lemma {:induction false} OnPrefix(wantsDelivery: bool, steps: seq<Step>, n: nat, k: nat)
    requires k < n <= |steps|
    ensures steps[..n][k] == steps[k] && Was(wantsDelivery, steps[..n], k) == Was(wantsDelivery, steps, k)
  {
    assert steps[..n][..k] == steps[..k];
  }

  lemma {:induction false} ArrivesBehind(was: Standing, event: Event, a: Arrival)
    requires Arrives(was, event, a)
    ensures a.at >= |was.cart| && (event.Said? ==> AnswersSuggestions(was))
    ensures event.SearchFound? ==> was.replace.None?
  {
  }

  /** What a step that brings a line says about it. */
  ghost predicate SaysLine(was: Standing, event: Event, i: nat, line: CartItem) {
    && Brings(was, event, i, line.hit, line.quantity) && SaysNote(was, event, i, line.note)
    && |line.options| <= 1 && forall c :: c in line.options <==> Chooses(was, event, i, c)
  }

  lemma {:induction false} ArrivedLine(was: Standing, event: Event, i: nat, line: CartItem)
    requires was.Sound() && Possible(was, event) && i >= |was.cart| && SomeArrives(was, event, i)
    requires forall a :: Arrives(was, event, a) && a.at == i ==> IsArrived(line, a)
    ensures SaysLine(was, event, i, line)
  {
    var a :| Arrives(was, event, a) && a.at == i;
    ArrivesBehind(was, event, a);
    assert IsArrived(line, a);
    assert !AnswersGroup(was, event, i) && !AnswersOption(was, event, i);
    hide Arrives, Standing.Sound, Possible;
    forall c ensures c in line.options <==> Chooses(was, event, i, c) {
      if b :| Arrives(was, event, b) && b.at == i && c in ChosenBy(b.wish) {
        assert IsArrived(line, b);
      }
    }
  }

  lemma {:induction false} SwappedLine(was: Standing, event: Event, i: nat, line: CartItem)
    requires i < |was.cart| && IsReplaced(was, event, i)
    requires IsSwapped(line, was.cart[i], was.replace.value, event.found.part.hit)
    ensures SaysLine(was, event, i, line)
  {
    forall a | Arrives(was, event, a) ensures false {
      ArrivesBehind(was, event, a);
    }
  }

  /** The line that is new, by arrival or by correction. */
  lemma {:induction false} NewLine(was: Standing, step: Step, i: nat)
    requires IsStep(was, step) && i < |step.now.cart| && (i < |was.cart| ==> IsReplaced(was, step.event, i))
    ensures SaysLine(was, step.event, i, step.now.cart[i])
  {
    StepMovesOrder(was, step);
    var event, line := step.event, step.now.cart[i];
    hide Arrives, WayOf, SomeArrives, IsArrived, IsSwapped, SaysLine, Standing.Sound, Possible, Takes;
    if i < |was.cart| {
      assert LineMoves(was, event, i, line);
      SwappedLine(was, event, i, line);
    } else {
      ArrivedLine(was, event, i, line);
    }
  }

  /** The line that was there before. */
  lemma {:induction false} OldLine(was: Standing, step: Step, i: nat)
    requires IsStep(was, step) && i < |step.now.cart| && i < |was.cart| && !IsReplaced(was, step.event, i)
    ensures var line, before := step.now.cart[i], was.cart[i];
            && Leaves(was, step.event, i) && line.hit == before.hit && line.quantity == before.quantity
            && (SaysNote(was, step.event, i, line.note) || (LeavesNote(was, step.event, i) && line.note == before.note))
            && (if exists c :: Chooses(was, step.event, i, c)
                then exists c :: Chooses(was, step.event, i, c) && line.options == before.options + [c]
                else line.options == before.options)
  {
    StepMovesOrder(was, step);
    var event, line, before := step.event, step.now.cart[i], was.cart[i];
    assert IsKept(was, event, i, line);
    hide IsStep, Arrives;
    forall a | Arrives(was, event, a) ensures a.at != i {
      ArrivesBehind(was, event, a);
    }
    if AnswersGroup(was, event, i) && ChosenBy(event.heard.group.wish) != [] {
      var c := ChosenBy(event.heard.group.wish)[0];
      assert Chooses(was, event, i, c) && line.options == before.options + [c];
    } else if AnswersOption(was, event, i) {
      var c := Choice(before.pending[0].name, event.heard.option.value);
      assert Chooses(was, event, i, c) && line.options == before.options + [c];
    } else {
      assert forall c :: !Chooses(was, event, i, c);
      assert before.options + [] == before.options;
    }
  }

  /** Main result for dish and quantity, on every run: each line of the order was
      brought at some step, with the dish and the quantity of the part that was found,
      of the suggestion that was chosen or of the correction, and has stayed that way. */
  lemma {:induction false} LinesAsSaid(wantsDelivery: bool, steps: seq<Step>, i: nat) returns (n: nat)
    requires IsRun(wantsDelivery, steps) && i < |Last(wantsDelivery, steps).cart|
    ensures var line := Last(wantsDelivery, steps).cart[i];
            CameAt(wantsDelivery, steps, n, i, line.hit, line.quantity)
  {
    hide IsStep, Brings, Leaves, IsReplaced, Start;
    StartIsEmpty(wantsDelivery);
    var last := |steps| - 1;
    var front, step := steps[..last], steps[last];
    var was := Last(wantsDelivery, front);
    if i < |was.cart| && !IsReplaced(was, step.event, i) {
      OldLine(was, step, i);
      n := LinesAsSaid(wantsDelivery, front, i);
      StillCame(wantsDelivery, steps, n, i, step.now.cart[i].hit, step.now.cart[i].quantity);
    } else {
      NewLine(was, step, i);
      n := last;
    }
  }

  lemma {:induction false} StartIsEmpty(wantsDelivery: bool)
    ensures Start(wantsDelivery).cart == []
  {
  }

  /** Main result for notes, on every run: the note of each line is what was said of it
      last, with its wish, in the answer about an allergy or a group, or for the line it
      replaces. */
  lemma {:induction false} NotesAsSaid(wantsDelivery: bool, steps: seq<Step>, i: nat) returns (n: nat)
    requires IsRun(wantsDelivery, steps) && i < |Last(wantsDelivery, steps).cart|
    ensures NoteSince(wantsDelivery, steps, n, i, Last(wantsDelivery, steps).cart[i].note)
  {
    hide IsStep, SaysNote, LeavesNote, IsReplaced, Start;
    StartIsEmpty(wantsDelivery);
    var last := |steps| - 1;
    var front, step := steps[..last], steps[last];
    var was, line := Last(wantsDelivery, front), step.now.cart[i];
    if i < |was.cart| && !IsReplaced(was, step.event, i) {
      OldLine(was, step, i);
    } else {
      NewLine(was, step, i);
    }
    if SaysNote(was, step.event, i, line.note) {
      n := last;
    } else {
      n := NotesAsSaid(wantsDelivery, front, i);
      OnPrefix(wantsDelivery, steps, last, n);
      forall k | n < k < |steps| ensures NoteLeftAt(wantsDelivery, steps, k, i) {
        if k < last {
          OnPrefix(wantsDelivery, steps, last, k);
          assert NoteLeftAt(wantsDelivery, front, k, i);
        }
      }
    }
  }

  /** Main result for options, on every run: the options of each line are those that were
      chosen for it since it came, each once and in the order they were said. */
  lemma {:induction false} OptionsAsSaid(wantsDelivery: bool, steps: seq<Step>, i: nat) returns (n: nat, at: seq<nat>)
    requires IsRun(wantsDelivery, steps) && i < |Last(wantsDelivery, steps).cart|
    ensures var line := Last(wantsDelivery, steps).cart[i];
            && CameAt(wantsDelivery, steps, n, i, line.hit, line.quantity)
            && ChosenSince(wantsDelivery, steps, n, i, at, line.options)
  {
    hide IsStep, Brings, Leaves, Chooses, IsReplaced, Start;
    StartIsEmpty(wantsDelivery);
    var last := |steps| - 1;
    var front, step := steps[..last], steps[last];
    var was, line := Last(wantsDelivery, front), step.now.cart[i];
    if i < |was.cart| && !IsReplaced(was, step.event, i) {
      OldLine(was, step, i);
      assert forall c :: ChosenAt(wantsDelivery, steps, last, i, c) == Chooses(was, step.event, i, c);
      n, at := OptionsAsSaid(wantsDelivery, front, i);
      StillCame(wantsDelivery, steps, n, i, line.hit, line.quantity);
      at := MoreChosen(wantsDelivery, steps, last, n, i, at, was.cart[i].options, line.options);
    } else {
      NewLine(was, step, i);
      n := last;
      at := if line.options == [] then [] else [last];
    }
  }

  /** A line that stays has come where it came. */
  lemma {:induction false} StillCame(wantsDelivery: bool, steps: seq<Step>, n: nat, i: nat, hit: Hit, quantity: nat)
    requires steps != [] && CameAt(wantsDelivery, steps[..|steps| - 1], n, i, hit, quantity)
    requires LeftAt(wantsDelivery, steps, |steps| - 1, i)
    ensures CameAt(wantsDelivery, steps, n, i, hit, quantity)
  {
    hide Brings, Leaves;
    var last := |steps| - 1;
    OnPrefix(wantsDelivery, steps, last, n);
    forall k | n < k < |steps| ensures LeftAt(wantsDelivery, steps, k, i) {
      if k < last {
        OnPrefix(wantsDelivery, steps, last, k);
        assert LeftAt(wantsDelivery, steps[..last], k, i);
      }
    }
  }

  lemma {:induction false} MoreChosen(wantsDelivery: bool, steps: seq<Step>, last: nat, n: nat, i: nat, at: seq<nat>,
                                      before: seq<Choice>, options: seq<Choice>) returns (more: seq<nat>)
    requires |steps| == last + 1 && n < last && ChosenSince(wantsDelivery, steps[..last], n, i, at, before)
    requires if exists c :: ChosenAt(wantsDelivery, steps, last, i, c)
             then exists c :: ChosenAt(wantsDelivery, steps, last, i, c) && options == before + [c]
             else options == before
    ensures ChosenSince(wantsDelivery, steps, n, i, more, options)
  {
    hide ChosenAt;
    forall k: nat, c
      ensures ChosenAt(wantsDelivery, steps[..last], k, i, c) <==> k != last && ChosenAt(wantsDelivery, steps, k, i, c)
      ensures ChosenAt(wantsDelivery, steps, k, i, c) ==> k <= last
    {
      ChosenBefore(wantsDelivery, steps, last, k, i, c);
    }
    if c :| ChosenAt(wantsDelivery, steps, last, i, c) && options == before + [c] {
      more := at + [last];
      forall m, l | 0 <= m < l < |more| ensures more[m] < more[l] {
        assert ChosenAt(wantsDelivery, steps[..last], at[m], i, before[m]);
      }
    } else {
      more := at;
    }
  }

  lemma {:induction false} ChosenBefore(wantsDelivery: bool, steps: seq<Step>, last: nat, k: nat, i: nat, c: Choice)
    requires |steps| == last + 1
    ensures ChosenAt(wantsDelivery, steps[..last], k, i, c) <==> k != last && ChosenAt(wantsDelivery, steps, k, i, c)
    ensures ChosenAt(wantsDelivery, steps, k, i, c) ==> k <= last
  {
    if k < last {
      OnPrefix(wantsDelivery, steps, last, k);
    }
  }

  /** On every run, step by step: every part and suggestion that is to be had comes into
      the order as said, a correction swaps its line, and every other line is kept. */
  lemma {:induction false} EveryStepMovesOrder(wantsDelivery: bool, steps: seq<Step>, n: nat)
    requires IsRun(wantsDelivery, steps) && n < |steps|
    ensures OrderMoves(Was(wantsDelivery, steps, n), steps[n].event, steps[n].now.cart)
  {
    hide IsStep, OrderMoves;
    PrefixIsRun(wantsDelivery, steps, n);
    StepMovesOrder(Was(wantsDelivery, steps, n), steps[n]);
  }

  /** Main result for drafts: on every run each line that is drafted has the dish, the
      quantity, the note and the options that were said of it up to then. */
  lemma {:induction false} DraftsAsSaid(wantsDelivery: bool, steps: seq<Step>, m: nat, i: nat)
    returns (n: nat, noted: nat, at: seq<nat>)
    requires IsRun(wantsDelivery, steps) && m < |steps| && steps[m].turn.Some? && steps[m].turn.value.Draft?
    requires i < |steps[m].turn.value.items|
    ensures var upTo, line := steps[..m + 1], steps[m].turn.value.items[i];
            && CameAt(wantsDelivery, upTo, n, i, line.hit, line.quantity)
            && NoteSince(wantsDelivery, upTo, noted, i, line.note)
            && ChosenSince(wantsDelivery, upTo, n, i, at, line.options)
  {
    hide IsStep, CameAt, NoteSince, ChosenSince;
    PrefixIsRun(wantsDelivery, steps, m);
    PrefixIsRun(wantsDelivery, steps, m + 1);
    DraftIsTheCart(Was(wantsDelivery, steps, m), steps[m]);
    assert Last(wantsDelivery, steps[..m + 1]) == steps[m].now;
    n, at := OptionsAsSaid(wantsDelivery, steps[..m + 1], i);
    noted := NotesAsSaid(wantsDelivery, steps[..m + 1], i);
  }
}
