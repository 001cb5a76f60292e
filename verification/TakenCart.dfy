/** The order a model keeps from turn to turn (api/agent/guards.py, with replace_cart and
    the stages of api/agent/state.py): accepted whole or refused whole, and left alone
    while a draft of it waits for a yes. */
module TakenCart {
  import opened Wrappers

  /** A mandatory or optional group of a dish, and what the last search said of it. */
  datatype Group = Group(name: string, options: seq<string>)

  datatype Dish = Dish(soldOut: bool, required: seq<Group>, optional: seq<Group>)

  datatype Choice = Choice(group: string, option: string)

  datatype Line = Line(dish: string, quantity: nat, options: seq<Choice>, note: string)

  // ---- Options ----

  function Count(chosen: seq<Choice>, group: string): nat {
    if chosen == [] then 0 else (if chosen[0].group == group then 1 else 0) + Count(chosen[1..], group)
  }

  predicate Offers(groups: seq<Group>, c: Choice) {
    exists i :: 0 <= i < |groups| && groups[i].name == c.group && c.option in groups[i].options
  }

  predicate Distinct(chosen: seq<Choice>) {
    forall i, j :: 0 <= i < j < |chosen| ==> chosen[i] != chosen[j]
  }

  predicate AllOffered(dish: Dish, chosen: seq<Choice>) {
    forall i :: 0 <= i < |chosen| ==> Offers(dish.required + dish.optional, chosen[i])
  }

  /** The check of the source: options that are offered, each once, and from each
      mandatory group no second one. */
  predicate OptionsFit(dish: Dish, chosen: seq<Choice>) {
    && AllOffered(dish, chosen) && Distinct(chosen)
    && forall i :: 0 <= i < |dish.required| ==> Count(chosen, dish.required[i].name) <= 1
  }

  /** What a draft needs: the same with exactly one option from each mandatory group. */
  predicate IsComplete(dish: Dish, chosen: seq<Choice>) {
    && AllOffered(dish, chosen) && Distinct(chosen)
    && forall i :: 0 <= i < |dish.required| ==> Count(chosen, dish.required[i].name) == 1
  }

  lemma {:induction false} CountAppends(a: seq<Choice>, b: seq<Choice>, group: string)
    ensures Count(a + b, group) == Count(a, group) + Count(b, group)
  {
    if a == [] {
      assert a + b == b;
    } else {
      CountAppends(a[1..], b, group);
      assert (a + b)[1..] == a[1..] + b;
    }
  }

  lemma {:induction false} Counted(chosen: seq<Choice>, i: nat)
    requires i < |chosen|
    ensures Count(chosen, chosen[i].group) > 0
  {
    if 0 < i {
      Counted(chosen[1..], i - 1);
    }
  }

  /** Some group of that name has an option to choose. */
  ghost predicate HasOption(dish: Dish, name: string) {
    exists c: Choice :: c.group == name && Offers(dish.required + dish.optional, c)
  }

  /** Every mandatory group without a choice offers one. */
  ghost predicate OpenOnesOffer(dish: Dish, chosen: seq<Choice>) {
    forall i :: 0 <= i < |dish.required| && Count(chosen, dish.required[i].name) == 0 ==>
      HasOption(dish, dish.required[i].name)
  }

  /** One option of the first mandatory group that has none yet. */
  lemma {:induction false} OneMore(dish: Dish, chosen: seq<Choice>, name: string) returns (more: seq<Choice>)
    requires OptionsFit(dish, chosen) && HasOption(dish, name) && Count(chosen, name) == 0
    ensures chosen <= more && OptionsFit(dish, more) && Count(more, name) == 1
    ensures forall other :: other != name ==> Count(more, other) == Count(chosen, other)
  {
    var c: Choice :| c.group == name && Offers(dish.required + dish.optional, c);
    more := chosen + [c];
    assert [c][1..] == [];
    forall other ensures Count(more, other) == Count(chosen, other) + if other == name then 1 else 0 {
      CountAppends(chosen, [c], other);
    }
    forall i | 0 <= i < |chosen| ensures chosen[i] != c {
      Counted(chosen, i);
    }
  }

  /** The groups from k on get their option. */
  lemma {:induction false} Completed(dish: Dish, chosen: seq<Choice>, k: nat) returns (all: seq<Choice>)
    requires OptionsFit(dish, chosen) && OpenOnesOffer(dish, chosen) && k <= |dish.required|
    requires forall i :: 0 <= i < k ==> Count(chosen, dish.required[i].name) == 1
    ensures chosen <= all && IsComplete(dish, all)
    decreases |dish.required| - k
  {
    if k == |dish.required| {
      all := chosen;
    } else {
      var more := chosen;
      if Count(chosen, dish.required[k].name) == 0 {
        more := OneMore(dish, chosen, dish.required[k].name);
      }
      all := Completed(dish, more, k + 1);
    }
  }

  lemma {:induction false} PrefixFits(dish: Dish, chosen: seq<Choice>, all: seq<Choice>)
    requires chosen <= all && IsComplete(dish, all)
    ensures OptionsFit(dish, chosen) && OpenOnesOffer(dish, chosen)
  {
    var rest := all[|chosen|..];
    assert all == chosen + rest;
    forall i | 0 <= i < |dish.required| ensures Count(chosen, dish.required[i].name) <= 1 {
      CountAppends(chosen, rest, dish.required[i].name);
    }
    forall i | 0 <= i < |chosen| ensures Offers(dish.required + dish.optional, chosen[i]) {
      assert chosen[i] == all[i];
    }
    forall i | 0 <= i < |dish.required| ensures HasOption(dish, dish.required[i].name) {
      var k := SomeChoice(all, dish.required[i].name);
      assert Offers(dish.required + dish.optional, all[k]);
    }
  }

  lemma {:induction false} SomeChoice(chosen: seq<Choice>, group: string) returns (k: nat)
    requires Count(chosen, group) > 0
    ensures k < |chosen| && chosen[k].group == group
  {
    if chosen[0].group == group {
      k := 0;
    } else {
      k := SomeChoice(chosen[1..], group);
      k := k + 1;
    }
  }

  ghost predicate CanBeCompleted(dish: Dish, chosen: seq<Choice>) {
    exists all :: chosen <= all && IsComplete(dish, all)
  }

  /** Main result for the options: further choices can make the line one that a draft
      takes exactly when the check lets it through and every mandatory group that is
      still open offers something. */
  lemma {:induction false} FitsIffCompletable(dish: Dish, chosen: seq<Choice>)
    ensures CanBeCompleted(dish, chosen) <==> OptionsFit(dish, chosen) && OpenOnesOffer(dish, chosen)
  {
    if OptionsFit(dish, chosen) && OpenOnesOffer(dish, chosen) {
      var all := Completed(dish, chosen, 0);
    }
    if all :| chosen <= all && IsComplete(dish, all) {
      PrefixFits(dish, chosen, all);
    }
  }

  /** A line the check lets through and that no draft will ever take: a mandatory group
      without an option. */
  lemma {:induction false} NothingToChoose(name: string)
    ensures var dish := Dish(false, [Group(name, [])], []);
            OptionsFit(dish, []) && !CanBeCompleted(dish, [])
  {
    var dish := Dish(false, [Group(name, [])], []);
    assert Count([], dish.required[0].name) == 0;
    FitsIffCompletable(dish, []);
  }

  // ---- The order in the state ----

  /** A line for comparison: the sequence of its options does not matter. */
  datatype Kind = Kind(dish: string, quantity: nat, options: multiset<Choice>, note: string)

  function KindOf(line: Line): Kind {
    Kind(line.dish, line.quantity, multiset(line.options), line.note)
  }

  function Kinds(lines: seq<Line>): multiset<Kind> {
    if lines == [] then multiset{} else multiset{KindOf(lines[0])} + Kinds(lines[1..])
  }

  /** The same order, whatever the sequence; two equal lines are two. */
  predicate SameOrder(a: seq<Line>, b: seq<Line>) {
    Kinds(a) == Kinds(b)
  }

  /** Two lines say the same: dish, quantity and note, and the same options as often. */
  predicate Alike(a: Line, b: Line) {
    a.dish == b.dish && a.quantity == b.quantity && a.note == b.note && multiset(a.options) == multiset(b.options)
  }

  /** Line i of the one order is paired with line at[i] of the other, each line once. */
  predicate Paired(a: seq<Line>, b: seq<Line>, at: seq<nat>) {
    && |a| == |b| == |at|
    && (forall i :: 0 <= i < |at| ==> at[i] < |b| && Alike(a[i], b[at[i]]))
    && (forall i, j :: 0 <= i < j < |at| ==> at[i] != at[j])
  }

  function WithoutLine(lines: seq<Line>, k: nat): seq<Line>
    requires k < |lines|
  {
    lines[..k] + lines[k + 1..]
  }

  lemma {:induction false} Swapped(a: multiset<Kind>, b: multiset<Kind>, c: multiset<Kind>)
    ensures a + (b + c) == b + (a + c)
  {
  }

  lemma {:induction false} KindsWithout(lines: seq<Line>, k: nat)
    requires k < |lines|
    ensures Kinds(lines) == multiset{KindOf(lines[k])} + Kinds(WithoutLine(lines, k))
  {
    hide KindOf;
    if k == 0 {
      assert WithoutLine(lines, 0) == lines[1..];
    } else {
      var rest := lines[1..];
      KindsWithout(rest, k - 1);
      FirstStays(lines, k);
      Swapped(multiset{KindOf(lines[0])}, multiset{KindOf(lines[k])}, Kinds(WithoutLine(rest, k - 1)));
    }
  }

  lemma {:induction false} FirstStays(lines: seq<Line>, k: nat)
    requires 0 < k < |lines|
    ensures Kinds(WithoutLine(lines, k)) == multiset{KindOf(lines[0])} + Kinds(WithoutLine(lines[1..], k - 1))
  {
    var less := WithoutLine(lines, k);
    assert less[0] == lines[0] && less[1..] == WithoutLine(lines[1..], k - 1);
    hide KindOf;
  }

  lemma {:induction false} KindHasLine(lines: seq<Line>, kind: Kind) returns (k: nat)
    requires kind in Kinds(lines)
    ensures k < |lines| && KindOf(lines[k]) == kind
  {
    if KindOf(lines[0]) == kind {
      k := 0;
    } else {
      k := KindHasLine(lines[1..], kind);
      k := k + 1;
    }
  }

  lemma {:induction false} SameAreAsMany(a: seq<Line>, b: seq<Line>)
    requires Kinds(a) == Kinds(b)
    ensures |a| == |b|
  {
    KindsAreMany(a);
    KindsAreMany(b);
  }

  lemma {:induction false} KindsAreMany(lines: seq<Line>)
    ensures |Kinds(lines)| == |lines|
  {
    if lines != [] {
      KindsAreMany(lines[1..]);
    }
  }

  lemma {:induction false} SameIsPaired(a: seq<Line>, b: seq<Line>) returns (at: seq<nat>)
    requires SameOrder(a, b)
    ensures Paired(a, b, at)
  {
    SameAreAsMany(a, b);
    at := [];
    if a != [] {
      assert KindOf(a[0]) in Kinds(a);
      var k := KindHasLine(b, KindOf(a[0]));
      KindsWithout(b, k);
      assert Kinds(a) - multiset{KindOf(a[0])} == Kinds(a[1..]);
      assert Kinds(b) - multiset{KindOf(b[k])} == Kinds(WithoutLine(b, k));
      var rest := SameIsPaired(a[1..], WithoutLine(b, k));
      at := PairedFirst(a, b, k, rest);
    }
  }

  lemma {:induction false} PairedFirst(a: seq<Line>, b: seq<Line>, k: nat, rest: seq<nat>) returns (at: seq<nat>)
    requires a != [] && k < |b| && Alike(a[0], b[k]) && Paired(a[1..], WithoutLine(b, k), rest)
    ensures Paired(a, b, at)
  {
    hide Alike;
    var later := seq(|rest|, i requires 0 <= i < |rest| => if rest[i] < k then rest[i] else rest[i] + 1);
    at := [k] + later;
    forall i | 0 <= i < |at| ensures at[i] < |b| && Alike(a[i], b[at[i]]) {
      if i > 0 {
        assert Alike(a[1..][i - 1], WithoutLine(b, k)[rest[i - 1]]);
      }
    }
  }

  lemma {:induction false} PairedIsSame(a: seq<Line>, b: seq<Line>, at: seq<nat>)
    requires Paired(a, b, at)
    ensures SameOrder(a, b)
  {
    if a != [] {
      var k := at[0];
      KindsWithout(b, k);
      assert KindOf(a[0]) == KindOf(b[k]);
      var rest := PairedRest(a, b, at);
      PairedIsSame(a[1..], WithoutLine(b, k), rest);
    }
  }

  lemma {:induction false} PairedRest(a: seq<Line>, b: seq<Line>, at: seq<nat>) returns (rest: seq<nat>)
    requires a != [] && Paired(a, b, at)
    ensures Paired(a[1..], WithoutLine(b, at[0]), rest)
  {
    hide Alike;
    var k := at[0];
    rest := seq(|at| - 1, i requires 0 <= i < |at| - 1 => if at[i + 1] < k then at[i + 1] else at[i + 1] - 1);
    forall i | 0 <= i < |rest| ensures rest[i] < |b| - 1 && Alike(a[1..][i], WithoutLine(b, k)[rest[i]]) {
      assert at[0] != at[i + 1] && Alike(a[i + 1], b[at[i + 1]]);
    }
    forall i, j | 0 <= i < j < |rest| ensures rest[i] != rest[j] {
      assert at[i + 1] != at[j + 1] && at[0] != at[i + 1] && at[0] != at[j + 1];
    }
  }

  /** Two orders are the same exactly when their lines can be paired off so that each
      pair says the same, whatever the sequence. */
  lemma {:induction false} SameOrderIff(a: seq<Line>, b: seq<Line>)
    ensures SameOrder(a, b) <==> exists at :: Paired(a, b, at)
  {
    if SameOrder(a, b) {
      var at := SameIsPaired(a, b);
    }
    if at :| Paired(a, b, at) {
      PairedIsSame(a, b, at);
    }
  }

  datatype Stage = Talking | Pending(order: Option<seq<Line>>) | Confirmed

  /** `seen` is what the last searches said of each dish, `known` the dishes that a
      search gave without doubt or the guest heard by name. */
  datatype State = State(
    cart: seq<Line>, booked: seq<Line>, stage: Stage, known: set<string>, seen: map<string, Dish>)

  datatype Refused = BadForm | AllergyNote | UnknownDish | SoldOut | BadOption

  predicate IsSoldOut(s: State, dish: string) {
    dish in s.seen && s.seen[dish].soldOut
  }

  function Seen(s: State, dish: string): Dish {
    if dish in s.seen then s.seen[dish] else Dish(false, [], [])
  }

  /** The rules in their order. */
  function Rank(rule: Refused): nat {
    match rule
    case BadForm => 0
    case AllergyNote => 1
    case UnknownDish => 2
    case SoldOut => 3
    case BadOption => 4
  }

  /** A line passes one of the rules. `allergies` are the notes that speak of one. */
  predicate Passes(s: State, allergies: iset<string>, rule: Refused, line: Line) {
    match rule
    case BadForm => true
    case AllergyNote => line.note !in allergies
    case UnknownDish => line.dish in s.known
    case SoldOut => !IsSoldOut(s, line.dish)
    case BadOption => OptionsFit(Seen(s, line.dish), line.options)
  }

  predicate AllPass(s: State, allergies: iset<string>, rule: Refused, lines: seq<Line>) {
    forall i :: 0 <= i < |lines| ==> Passes(s, allergies, rule, lines[i])
  }

  /** The first rule that some line does not pass. */
  function Judge(s: State, allergies: iset<string>, raw: Option<seq<Line>>): Option<Refused> {
    if raw.None? then Some(BadForm)
    else if !AllPass(s, allergies, AllergyNote, raw.value) then Some(AllergyNote)
    else if !AllPass(s, allergies, UnknownDish, raw.value) then Some(UnknownDish)
    else if !AllPass(s, allergies, SoldOut, raw.value) then Some(SoldOut)
    else if !AllPass(s, allergies, BadOption, raw.value) then Some(BadOption)
    else None
  }

  /** A line the core takes. */
  predicate Acceptable(s: State, allergies: iset<string>, line: Line) {
    && line.note !in allergies && line.dish in s.known && !IsSoldOut(s, line.dish)
    && OptionsFit(Seen(s, line.dish), line.options)
  }

  predicate AllAcceptable(s: State, allergies: iset<string>, lines: seq<Line>) {
    forall i :: 0 <= i < |lines| ==> Acceptable(s, allergies, lines[i])
  }

  /** Sent again behind its booking, an order is no new one. */
  predicate BookedAgain(s: State, lines: seq<Line>) {
    s.stage.Confirmed? && s.cart == [] && SameOrder(lines, s.booked)
  }

  function Corrected(s: State): State {
    if s.stage.Pending? then s.(stage := Talking) else s
  }

  function Replaced(s: State, lines: seq<Line>): State {
    if SameOrder(lines, s.cart) || BookedAgain(s, lines) then s
    else Corrected(s).(cart := lines)
  }

  function Taken(s: State, allergies: iset<string>, raw: Option<seq<Line>>): State {
    if Judge(s, allergies, raw).Some? then Corrected(s) else Replaced(s, raw.value)
  }

  class Core {
    var cart: seq<Line>
    var booked: seq<Line>
    var stage: Stage
    var known: set<string>
    var seen: map<string, Dish>
    const allergies: iset<string>

    constructor (allergies: iset<string>)
      ensures Now() == State([], [], Talking, {}, map[]) && this.allergies == allergies
    {
      cart, booked, stage, known, seen := [], [], Talking, {}, map[];
      this.allergies := allergies;
    }

    function Now(): State
      reads this
    {
      State(cart, booked, stage, known, seen)
    }

    method OrderCorrected()
      modifies `stage
      ensures Now() == Corrected(old(Now()))
    {
      if stage.Pending? {
        stage := Talking;
      }
    }

    method ReplaceCart(lines: seq<Line>)
      modifies `cart, `stage
      ensures Now() == Replaced(old(Now()), lines)
    {
      if SameOrder(lines, cart) || (stage.Confirmed? && cart == [] && SameOrder(lines, booked)) {
        return;
      }
      OrderCorrected();
      cart := lines;
    }

    /** Does every line pass the rule? */
    method Check(rule: Refused, lines: seq<Line>) returns (all: bool)
      ensures all == AllPass(Now(), allergies, rule, lines)
    {
      all := true;
      for i := 0 to |lines|
        invariant all == AllPass(Now(), allergies, rule, lines[..i])
      {
        assert lines[..i + 1] == lines[..i] + [lines[i]];
        assert lines[..i + 1][i] == lines[i];
        if !Passes(Now(), allergies, rule, lines[i]) {
          all := false;
        }
      }
      assert lines[..|lines|] == lines;
    }

    /** The order is taken as a whole, exactly when every line is acceptable, or not at all.
        A refused order leaves the cart alone and is still an attempt to change it: no
        draft waits behind it. */
    method TakeCart(raw: Option<seq<Line>>) returns (refused: Option<Refused>)
      modifies `cart, `stage
      ensures refused.None? <==> raw.Some? && AllAcceptable(old(Now()), allergies, raw.value)
      ensures refused == Some(BadForm) <==> raw.None?
      ensures raw.Some? && refused.Some? ==>
                && !AllPass(old(Now()), allergies, refused.value, raw.value)
                && forall rule: Refused :: Rank(rule) < Rank(refused.value) ==>
                     AllPass(old(Now()), allergies, rule, raw.value)
      ensures refused.Some? ==> cart == old(cart) && !stage.Pending?
      ensures refused.None? && !SameOrder(raw.value, old(cart)) && !BookedAgain(old(Now()), raw.value) ==>
                cart == raw.value && !stage.Pending?
      ensures refused.None? && (SameOrder(raw.value, old(cart)) || BookedAgain(old(Now()), raw.value)) ==>
                Now() == old(Now())
      ensures !old(stage).Pending? ==> stage == old(stage)
      ensures refused == Judge(old(Now()), allergies, raw) && Now() == Taken(old(Now()), allergies, raw)
    {
      refused := None;
      if raw.None? {
        refused := Some(BadForm);
      } else {
        refused := FirstRefusal(raw.value);
      }
      TakenIffEveryLineMayBe(Now(), allergies, raw);
      if refused.None? {
        ReplaceCart(raw.value);
      } else {
        OrderCorrected();
      }
    }

    /** The rules in their order. */
    method FirstRefusal(lines: seq<Line>) returns (refused: Option<Refused>)
      ensures refused == Judge(Now(), allergies, Some(lines))
    {
      var plain := Check(AllergyNote, lines);
      if !plain {
        return Some(AllergyNote);
      }
      var known := Check(UnknownDish, lines);
      if !known {
        return Some(UnknownDish);
      }
      var toBeHad := Check(SoldOut, lines);
      if !toBeHad {
        return Some(SoldOut);
      }
      var fits := Check(BadOption, lines);
      if !fits {
        return Some(BadOption);
      }
      return None;
    }
  }

  /** An order is taken exactly when each of its lines may be. */
  lemma {:induction false} TakenIffEveryLineMayBe(s: State, allergies: iset<string>, raw: Option<seq<Line>>)
    ensures Judge(s, allergies, raw).None? <==>
            raw.Some? && AllAcceptable(s, allergies, raw.value)
  {
    if Judge(s, allergies, raw).None? {
      forall i | 0 <= i < |raw.value| ensures Acceptable(s, allergies, raw.value[i]) {
        assert forall rule :: rule in {AllergyNote, UnknownDish, SoldOut, BadOption} ==>
                 Passes(s, allergies, rule, raw.value[i]);
      }
    }
    if raw.Some? && AllAcceptable(s, allergies, raw.value) {
      forall rule, i | 0 <= i < |raw.value| ensures Passes(s, allergies, rule, raw.value[i]) {
        assert Acceptable(s, allergies, raw.value[i]);
      }
    }
  }

  // ---- Whole calls ----

  datatype Event =
    | CartSent(raw: Option<seq<Line>>)
    | Searched(known: set<string>, seen: map<string, Dish>)
    | OrderDrafted(lines: seq<Line>)
    | TableDrafted
    | Booked
    | Dropped
    | HandedOver(draft: Option<seq<Line>>)

  /** The state, and whether the team has taken the call over: from then on no model and
      no yes is listened to. */
  datatype Call = Call(state: State, handed: bool)

  /** A draft of the core holds only dishes it knows, and becomes the order of the state.
      The draft that met an allergy becomes it as well when the team takes over, for its
      card. */
  function Step(c: Call, allergies: iset<string>, event: Event): Call {
    var s := c.state;
    if c.handed then c
    else
      match event
      case CartSent(raw) => Call(Taken(s, allergies, raw), false)
      case Searched(known, seen) => Call(Corrected(s).(known := s.known + known, seen := s.seen + seen), false)
      case OrderDrafted(lines) =>
        if AllKnown(lines, s.known) then Call(s.(cart := lines, stage := Pending(Some(lines))), false) else c
      case TableDrafted => Call(s.(stage := Pending(None)), false)
      case Booked =>
        if !s.stage.Pending? then c
        else if s.stage.order.Some? then Call(s.(booked := s.cart, cart := [], stage := Confirmed), false)
        else Call(s.(stage := Confirmed), false)
      case Dropped => Call(Corrected(s), false)
      case HandedOver(draft) => Call(if draft.Some? then s.(cart := draft.value) else s, true)
  }

  function Run(allergies: iset<string>, events: seq<Event>): Call {
    if events == [] then Call(State([], [], Talking, {}, map[]), false)
    else Step(Run(allergies, events[..|events| - 1]), allergies, events[|events| - 1])
  }

  /** While an order waits for its yes, the order in the state is the one that was
      drafted; every dish in it is known. */
  predicate Agrees(s: State) {
    && (s.stage.Pending? && s.stage.order.Some? ==> SameOrder(s.cart, s.stage.order.value))
    && AllKnown(s.cart, s.known) && AllKnown(s.booked, s.known)
  }

  predicate AllKnown(lines: seq<Line>, known: set<string>) {
    forall i :: 0 <= i < |lines| ==> lines[i].dish in known
  }

  lemma {:induction false} StepAgrees(c: Call, allergies: iset<string>, event: Event)
    requires c.handed || Agrees(c.state)
    ensures Step(c, allergies, event).handed || Agrees(Step(c, allergies, event).state)
  {
    var s := c.state;
    if !c.handed && event.CartSent? && Judge(s, allergies, event.raw).None? {
      TakenIffEveryLineMayBe(s, allergies, event.raw);
      forall i | 0 <= i < |event.raw.value| ensures event.raw.value[i].dish in s.known {
        assert Acceptable(s, allergies, event.raw.value[i]);
      }
    }
  }

  /** Main result over every call that the team has not taken over: the order in the
      state is always the one that waits. */
  lemma {:induction false} PendingOrderIsTheCart(allergies: iset<string>, events: seq<Event>)
    ensures Run(allergies, events).handed || Agrees(Run(allergies, events).state)
  {
    if events != [] {
      PendingOrderIsTheCart(allergies, events[..|events| - 1]);
      StepAgrees(Run(allergies, events[..|events| - 1]), allergies, events[|events| - 1]);
    }
  }

  /** Nothing is booked behind a handover. */
  lemma {:induction false} HandedStays(allergies: iset<string>, events: seq<Event>, more: seq<Event>)
    requires Run(allergies, events).handed
    ensures Run(allergies, events + more) == Run(allergies, events)
  {
    if more == [] {
      assert events + more == events;
    } else {
      var front := more[..|more| - 1];
      HandedStays(allergies, events, front);
      assert (events + more)[..|events + more| - 1] == events + front;
    }
  }

  /** Main result of a yes, on every call: what it books is the order that was drafted
      and waited, whatever the model sent meanwhile, and only while the call is the
      model's. */
  lemma {:induction false} YesBooksTheDraft(allergies: iset<string>, events: seq<Event>)
    ensures var before, after := Run(allergies, events), Run(allergies, events + [Booked]);
            if after.state.booked != before.state.booked
               || (after.state.stage.Confirmed? && !before.state.stage.Confirmed?)
            then !before.handed && before.state.stage.Pending?
                 && (before.state.stage.order.Some? ==>
                       SameOrder(after.state.booked, before.state.stage.order.value) && after.state.cart == [])
            else after == before
  {
    PendingOrderIsTheCart(allergies, events);
    assert (events + [Booked])[..|events|] == events;
  }
}
