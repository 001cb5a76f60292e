/** Which draft waits, and which order is kept, over whole calls of the core
    (api/agent/guards.py, api/agent/state.py): read off what the model sent, what the
    tools gave, and when the team took over. */
module CartRuns {
  import opened Wrappers
  import opened TakenCart

  function Before(allergies: iset<string>, events: seq<Event>, k: nat): Call
    requires k < |events|
  {
    Run(allergies, events[..k])
  }

  /** The team has taken the call over before event k. */
  predicate HandedBefore(events: seq<Event>, k: nat) {
    k <= |events| && exists j :: 0 <= j < k && events[j].HandedOver?
  }

  lemma {:induction false} HandedIff(allergies: iset<string>, events: seq<Event>)
    ensures Run(allergies, events).handed <==> HandedBefore(events, |events|)
  {
    if events != [] {
      var n := |events| - 1;
      HandedIff(allergies, events[..n]);
      assert forall j :: 0 <= j < n ==> events[..n][j] == events[j];
    }
  }

  // ----- The draft that waits -----

  /** The event drafts a table, or an order of dishes the core knows; `order` is the order. */
  predicate Drafts(c: Call, event: Event, order: Option<seq<Line>>) {
    && !c.handed
    && match event
       case TableDrafted => order.None?
       case OrderDrafted(lines) =>
         order == Some(lines) && forall i :: 0 <= i < |lines| ==> lines[i].dish in c.state.known
       case _ => false
  }

  /** The event leaves a draft waiting: it comes behind the handover or hands the call
      over, a draft of unknown dishes is not taken, and a `cart` holds the order as it is. */
  predicate LeavesDraft(c: Call, allergies: iset<string>, event: Event) {
    || c.handed || event.HandedOver?
    || (event.OrderDrafted? && exists i :: 0 <= i < |event.lines| && event.lines[i].dish !in c.state.known)
    || (event.CartSent? && event.raw.Some? && SameOrder(event.raw.value, c.state.cart)
        && forall i :: 0 <= i < |event.raw.value| ==> Acceptable(c.state, allergies, event.raw.value[i]))
  }

  predicate DraftedAt(allergies: iset<string>, events: seq<Event>, d: nat, order: Option<seq<Line>>) {
    d < |events| && Drafts(Before(allergies, events, d), events[d], order)
  }

  predicate LeftAt(allergies: iset<string>, events: seq<Event>, k: nat) {
    k < |events| && LeavesDraft(Before(allergies, events, k), allergies, events[k])
  }

  /** This draft was made at d, and every event since left it waiting. */
  predicate WaitsSince(allergies: iset<string>, events: seq<Event>, d: nat, order: Option<seq<Line>>) {
    DraftedAt(allergies, events, d, order) && forall k :: d < k < |events| ==> LeftAt(allergies, events, k)
  }

  lemma {:induction false} OneEvent(c: Call, allergies: iset<string>, event: Event)
    ensures forall order :: Drafts(c, event, order) ==> Step(c, allergies, event).state.stage == Pending(order)
    ensures (forall order :: !Drafts(c, event, order)) ==>
              if LeavesDraft(c, allergies, event) then Step(c, allergies, event).state.stage == c.state.stage
              else !Step(c, allergies, event).state.stage.Pending?
  {
    if event.CartSent? {
      TakenIffEveryLineMayBe(c.state, allergies, event.raw);
    }
  }

  lemma {:induction false} OnPrefix(allergies: iset<string>, events: seq<Event>, n: nat, k: nat)
    requires k < n <= |events|
    ensures forall order :: DraftedAt(allergies, events[..n], k, order) == DraftedAt(allergies, events, k, order)
    ensures LeftAt(allergies, events[..n], k) == LeftAt(allergies, events, k)
    ensures OrderAt(allergies, events[..n], k) == OrderAt(allergies, events, k)
  {
    assert events[..n][..k] == events[..k];
  }

  lemma {:induction false} WaitsBefore(allergies: iset<string>, events: seq<Event>, d: nat, order: Option<seq<Line>>)
    requires events != [] && d < |events| - 1
    ensures var n := |events| - 1;
            WaitsSince(allergies, events, d, order) <==>
              WaitsSince(allergies, events[..n], d, order) && LeftAt(allergies, events, n)
  {
    var n := |events| - 1;
    forall k | d <= k < n
      ensures DraftedAt(allergies, events[..n], k, order) == DraftedAt(allergies, events, k, order)
      ensures LeftAt(allergies, events[..n], k) == LeftAt(allergies, events, k)
    {
      OnPrefix(allergies, events, n, k);
    }
    hide DraftedAt, LeftAt;
  }

  /** Main result: a draft waits exactly when it was made and everything since left it
      alone; any search, booking, drop, changed or refused order takes it away. */
  lemma {:induction false} DraftWaitsIff(allergies: iset<string>, events: seq<Event>, order: Option<seq<Line>>)
    ensures Run(allergies, events).state.stage == Pending(order) <==>
              exists d: nat :: WaitsSince(allergies, events, d, order)
  {
    if events != [] {
      var n := |events| - 1;
      DraftWaitsIff(allergies, events[..n], order);
      OneEvent(Before(allergies, events, n), allergies, events[n]);
      assert Run(allergies, events) == Step(Before(allergies, events, n), allergies, events[n]);
      assert WaitsSince(allergies, events, n, order) <==> DraftedAt(allergies, events, n, order);
      assert forall o :: DraftedAt(allergies, events, n, o) <==> Drafts(Before(allergies, events, n), events[n], o);
      DraftLeavesNone(Before(allergies, events, n), allergies, events[n]);
      hide Run, Step, Drafts, LeavesDraft, DraftedAt;
      if d: nat :| WaitsSince(allergies, events[..n], d, order) {
        WaitsInRun(allergies, events[..n], d, order);
        WaitsBefore(allergies, events, d, order);
      }
      if d: nat :| WaitsSince(allergies, events, d, order) {
        WaitsInRun(allergies, events, d, order);
        if d < n {
          WaitsBefore(allergies, events, d, order);
        }
      }
    }
  }

  lemma {:induction false} WaitsInRun(allergies: iset<string>, events: seq<Event>, d: nat, order: Option<seq<Line>>)
    requires WaitsSince(allergies, events, d, order)
    ensures d < |events|
  {
  }

  /** A new draft leaves no other waiting. */
  lemma {:induction false} DraftLeavesNone(c: Call, allergies: iset<string>, event: Event)
    ensures (exists order :: Drafts(c, event, order)) ==> !LeavesDraft(c, allergies, event)
  {
  }

  // ----- The order that is kept -----

  /** The order an event leaves, where it changes it: a taken `cart` that differs from the
      order, unless it is the one just booked, an order of known dishes that is drafted,
      nothing behind a booked order, and the draft the team is handed. */
  function OrderBehind(c: Call, allergies: iset<string>, event: Event): Option<seq<Line>> {
    if c.handed then None
    else
      match event
      case CartSent(raw) =>
        if raw.None? || !AllAcceptable(c.state, allergies, raw.value) || SameOrder(raw.value, c.state.cart)
           || (c.state.stage.Confirmed? && c.state.cart == [] && SameOrder(raw.value, c.state.booked)) then None
        else raw
      case OrderDrafted(lines) =>
        if forall i :: 0 <= i < |lines| ==> lines[i].dish in c.state.known then Some(lines) else None
      case Booked => if c.state.stage.Pending? && c.state.stage.order.Some? then Some([]) else None
      case HandedOver(draft) => draft
      case _ => None
  }

  function OrderAt(allergies: iset<string>, events: seq<Event>, k: nat): Option<seq<Line>> {
    if k < |events| then OrderBehind(Before(allergies, events, k), allergies, events[k]) else None
  }

  predicate LastOrder(allergies: iset<string>, events: seq<Event>, k: nat) {
    OrderAt(allergies, events, k).Some? && forall j :: k < j < |events| ==> OrderAt(allergies, events, j).None?
  }

  lemma {:induction false} CartBehind(c: Call, allergies: iset<string>, event: Event)
    ensures Step(c, allergies, event).state.cart ==
            if OrderBehind(c, allergies, event).Some? then OrderBehind(c, allergies, event).value else c.state.cart
  {
    if event.CartSent? {
      TakenIffEveryLineMayBe(c.state, allergies, event.raw);
    }
  }

  /** Main result: the order in the state is the last one an event left, and none at first. */
  lemma {:induction false} OrderKept(allergies: iset<string>, events: seq<Event>)
    ensures forall k: nat :: LastOrder(allergies, events, k) ==>
              Run(allergies, events).state.cart == OrderAt(allergies, events, k).value
    ensures (forall k: nat :: OrderAt(allergies, events, k).None?) ==> Run(allergies, events).state.cart == []
  {
    if events != [] {
      var n := |events| - 1;
      var was, now := Before(allergies, events, n), Run(allergies, events);
      OrderKept(allergies, events[..n]);
      CartBehind(was, allergies, events[n]);
      assert now == Step(was, allergies, events[n]);
      assert OrderAt(allergies, events, n) == OrderBehind(was, allergies, events[n]);
      assert OrderAt(allergies, events[..n], n).None?;
      hide Run, Step, OrderBehind;
      forall k: nat | k != n ensures OrderAt(allergies, events, k) == OrderAt(allergies, events[..n], k) {
        if k < n {
          OnPrefix(allergies, events, n, k);
        }
      }
      hide OrderAt;
      forall k: nat | LastOrder(allergies, events, k) && k < n ensures LastOrder(allergies, events[..n], k) {
      }
      forall k: nat | LastOrder(allergies, events, k) ensures k <= n {
        LastInRun(allergies, events, k);
      }
    }
  }

  lemma {:induction false} LastInRun(allergies: iset<string>, events: seq<Event>, k: nat)
    requires LastOrder(allergies, events, k)
    ensures k < |events|
  {
  }

  // ----- What the searches said -----

  /** Search k came before the handover. */
  predicate SearchedAt(events: seq<Event>, k: nat) {
    k < |events| && events[k].Searched? && !HandedBefore(events, k)
  }

  /** Search k is the last that said something of the dish. */
  ghost predicate SaidLast(events: seq<Event>, k: nat, dish: string) {
    && SearchedAt(events, k) && dish in events[k].seen
    && forall j: nat :: j > k && SearchedAt(events, j) ==> dish !in events[j].seen
  }

  /** The core knows the dishes the searches gave, and of each what the last one said. */
  lemma {:induction false} KnownFromSearches(allergies: iset<string>, events: seq<Event>, dish: string)
    ensures var s := Run(allergies, events).state;
            && (dish in s.known <==> exists k: nat :: SearchedAt(events, k) && dish in events[k].known)
            && (dish in s.seen <==> exists k: nat :: SearchedAt(events, k) && dish in events[k].seen)
            && forall k: nat :: SaidLast(events, k, dish) ==> s.seen[dish] == events[k].seen[dish]
  {
    if events != [] {
      var n := |events| - 1;
      var was, now := Before(allergies, events, n), Run(allergies, events);
      KnownFromSearches(allergies, events[..n], dish);
      HandedIff(allergies, events[..n]);
      SearchStep(was, allergies, events[n]);
      assert now == Step(was, allergies, events[n]);
      hide Run, Step;
      assert forall k :: 0 <= k < n ==> events[..n][k] == events[k];
      forall k: nat ensures SearchedAt(events, k) <==> if k == n then events[n].Searched? && !was.handed
                                                       else SearchedAt(events[..n], k)
      {
      }
      hide SearchedAt;
    }
  }

  lemma {:induction false} SearchStep(c: Call, allergies: iset<string>, event: Event)
    ensures var s := Step(c, allergies, event).state;
            if event.Searched? && !c.handed
            then s.known == c.state.known + event.known && s.seen == c.state.seen + event.seen
            else s.known == c.state.known && s.seen == c.state.seen
  {
  }
}
