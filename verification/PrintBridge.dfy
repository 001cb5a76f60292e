/** The kitchen bridge over whole runs (printbridge/bridge.py): claim, print,
    record, acknowledge, with failing printers and disks, lost acknowledgements
    and restarts. */
module PrintBridge {
  import opened Wrappers
  import opened PrintLog

  /** A slip the server hands out, with what will become of each step. */
  datatype Claim = Claim(id: string, order: string, revision: int, printOk: bool, diskOk: bool, ackOk: bool)

  datatype Ack = Ack(id: string, ok: bool)

  datatype State = State(log: Log, file: Option<Log>)

  const FRESH := State([], None)

  function Slip(c: Claim): Entry {
    Entry(c.order, c.revision)
  }

  predicate Known(s: State, c: Claim) {
    Already(s.log, c.order, c.revision)
  }

  /** Does the slip leave the printer? */
  predicate Prints(s: State, c: Claim) {
    !Known(s, c) && c.printOk
  }

  function Serve(keep: nat, s: State, c: Claim): State {
    if Prints(s, c) then
      var log := Newest(Recorded(s.log, Slip(c)), keep);
      State(log, if c.diskOk then Some(log) else s.file)
    else s
  }

  /** A stored revision never decreases: an order that is kept behind a claim is kept in
      the same revision as before or in a newer one. */
  lemma {:induction false} ServeNeverDecreases(keep: nat, s: State, c: Claim, order: string)
    requires DistinctOrders(s.log) && order in Orders(Serve(keep, s, c).log)
    ensures Printed(Serve(keep, s, c).log, order) >= Printed(s.log, order)
    ensures DistinctOrders(Recorded(s.log, Slip(c)))
  {
    WithoutDistinct(s.log, c.order);
    SnocDistinct(Without(s.log, c.order), Slip(c));
    if Prints(s, c) {
      NewestAnswersAlike(Recorded(s.log, Slip(c)), keep, order);
      if order == c.order {
        RecordedItself(s.log, Slip(c));
      } else {
        RecordedOthers(s.log, Slip(c), order);
      }
    }
  }

  function ServeAll(keep: nat, s: State, claims: seq<Claim>): State {
    if claims == [] then s
    else Serve(keep, ServeAll(keep, s, claims[..|claims| - 1]), claims[|claims| - 1])
  }

  function Slips(keep: nat, s: State, claims: seq<Claim>): seq<Entry> {
    if claims == [] then []
    else
      var before, c := claims[..|claims| - 1], claims[|claims| - 1];
      Slips(keep, s, before) + if Prints(ServeAll(keep, s, before), c) then [Slip(c)] else []
  }

  /** The acknowledgement a claim gets: ok if the slip or a newer one is known, or
      if it just left the printer. */
  function AckOf(s: State, c: Claim): Ack {
    Ack(c.id, Known(s, c) || c.printOk)
  }

  function Acks(keep: nat, s: State, claims: seq<Claim>): seq<Ack> {
    if claims == [] then []
    else
      var before, c := claims[..|claims| - 1], claims[|claims| - 1];
      Acks(keep, s, before) + [AckOf(ServeAll(keep, s, before), c)]
  }

  lemma {:induction false} AckAt(keep: nat, s: State, claims: seq<Claim>, i: nat)
    requires i < |claims|
    ensures |Acks(keep, s, claims)| == |claims|
    ensures Acks(keep, s, claims)[i] == AckOf(ServeAll(keep, s, claims[..i]), claims[i])
  {
    var n := |claims| - 1;
    if i < n {
      AckAt(keep, s, claims[..n], i);
      assert claims[..n][..i] == claims[..i];
    } else if n > 0 {
      AckAt(keep, s, claims[..n], 0);
    }
  }

  /** The log knows this slip of the order or a newer one. */
  predicate KnownBefore(keep: nat, s: State, claims: seq<Claim>, i: nat)
    requires i < |claims|
  {
    Printed(ServeAll(keep, s, claims[..i]).log, claims[i].order) >= claims[i].revision
  }

  /** Every claim gets exactly one acknowledgement, under its own id and in the order of
      the claims: "ok" exactly when the slip or a newer one is known or leaves the printer now. */
  lemma {:induction false} OneAckEach(keep: nat, s: State, claims: seq<Claim>)
    ensures |Acks(keep, s, claims)| == |claims|
    ensures forall i :: 0 <= i < |claims| ==>
              && Acks(keep, s, claims)[i].id == claims[i].id
              && (Acks(keep, s, claims)[i].ok <==> claims[i].printOk || KnownBefore(keep, s, claims, i))
  {
    forall i | 0 <= i < |claims|
      ensures |Acks(keep, s, claims)| == |claims| && Acks(keep, s, claims)[i].id == claims[i].id
      ensures Acks(keep, s, claims)[i].ok <==> claims[i].printOk || KnownBefore(keep, s, claims, i)
    {
      AckAt(keep, s, claims, i);
    }
  }

  /** The claims whose slips leave the printer, in order: those that are not known and
      whose print goes through. */
  predicate Printing(keep: nat, s: State, claims: seq<Claim>, at: seq<nat>) {
    && (forall i, j :: 0 <= i < j < |at| ==> at[i] < at[j])
    && (forall i :: 0 <= i < |at| ==> at[i] < |claims|)
    && (forall k :: 0 <= k < |claims| ==> (k in at <==> claims[k].printOk && !KnownBefore(keep, s, claims, k)))
  }

  lemma {:induction false} OneMoreClaim(keep: nat, s: State, claims: seq<Claim>, front: seq<nat>) returns (at: seq<nat>)
    requires claims != [] && Printing(keep, s, claims[..|claims| - 1], front)
    ensures Printing(keep, s, claims, at)
    ensures var n := |claims| - 1;
            at == front + if claims[n].printOk && !KnownBefore(keep, s, claims, n) then [n] else []
  {
    var n := |claims| - 1;
    at := front + if claims[n].printOk && !KnownBefore(keep, s, claims, n) then [n] else [];
    forall k | 0 <= k < n ensures KnownBefore(keep, s, claims[..n], k) == KnownBefore(keep, s, claims, k) {
      assert claims[..n][..k] == claims[..k];
    }
    hide KnownBefore;
  }

  /** A slip with the order and revision of each of these claims. */
  predicate SlipsOf(slips: seq<Entry>, claims: seq<Claim>, at: seq<nat>) {
    && |slips| == |at|
    && forall i :: 0 <= i < |at| ==>
         at[i] < |claims| && slips[i].order == claims[at[i]].order && slips[i].revision == claims[at[i]].revision
  }

  /** Each of them leaves it once, with its order and revision. */
  lemma {:induction false} OneSlipEach(keep: nat, s: State, claims: seq<Claim>) returns (at: seq<nat>)
    ensures Printing(keep, s, claims, at) && SlipsOf(Slips(keep, s, claims), claims, at)
  {
    at := [];
    if claims != [] {
      var n := |claims| - 1;
      var front := OneSlipEach(keep, s, claims[..n]);
      at := OneMoreClaim(keep, s, claims, front);
      assert KnownBefore(keep, s, claims, n) == Known(ServeAll(keep, s, claims[..n]), claims[n]);
      hide Printing, KnownBefore, Known, ServeAll;
    }
  }

  datatype Pass = NoAnswer | AckLost(printed: nat) | Done(printed: nat)

  /** One pass. `claims` is None when the server does not answer. A failed
      acknowledgement holds nothing up; it is reported at the end. */
  method RunOnce(log: PrintedLog, claims: Option<seq<Claim>>)
    returns (pass: Pass, slips: seq<Entry>, acks: seq<Ack>)
    requires log.Valid()
    modifies log
    ensures log.Valid()
    ensures var s, tickets := State(old(log.printed), old(log.file)), if claims.Some? then claims.value else [];
            && State(log.printed, log.file) == ServeAll(log.keep, s, tickets)
            && slips == Slips(log.keep, s, tickets)
            && acks == Acks(log.keep, s, tickets)
    ensures pass == if claims.None? then NoAnswer
                    else if exists i :: 0 <= i < |claims.value| && !claims.value[i].ackOk then AckLost(|slips|)
                    else Done(|slips|)
  {
    slips, acks := [], [];
    if claims.None? {
      return NoAnswer, slips, acks;
    }
    var tickets, printed, lost := claims.value, 0, false;
    ghost var s := State(log.printed, log.file);
    for k := 0 to |tickets|
      invariant log.Valid()
      invariant State(log.printed, log.file) == ServeAll(log.keep, s, tickets[..k])
      invariant slips == Slips(log.keep, s, tickets[..k]) && printed == |slips|
      invariant acks == Acks(log.keep, s, tickets[..k])
      invariant lost <==> exists i :: 0 <= i < k && !tickets[i].ackOk
    {
      assert tickets[..k + 1][..k] == tickets[..k] && tickets[..k + 1][k] == tickets[k];
      var slip, ok := Handle(log, tickets[k]);
      acks := acks + [Ack(tickets[k].id, ok)];
      lost := lost || !tickets[k].ackOk;
      if slip {
        slips := slips + [Slip(tickets[k])];
        printed := printed + 1;
      }
    }
    assert tickets[..|tickets|] == tickets;
    pass := if lost then AckLost(printed) else Done(printed);
  }

  /** One claim: known slips are not printed again, a printed one is recorded. It
      counts as printed also when the log cannot be written. */
  method Handle(log: PrintedLog, c: Claim) returns (slip: bool, ok: bool)
    requires log.Valid()
    modifies log
    ensures log.Valid()
    ensures var s := State(old(log.printed), old(log.file));
            && State(log.printed, log.file) == Serve(log.keep, s, c)
            && slip == Prints(s, c) && ok == AckOf(s, c).ok
  {
    var known := log.WasPrinted(c.order, c.revision);
    if known {
      return false, true;
    }
    if !c.printOk {
      return false, false;
    }
    var saved := log.Record(c.order, c.revision, c.diskOk);
    return true, true;
  }

  // ----- Whole runs: slips and restarts -----

  datatype Event = Ticket(claim: Claim) | Restart(readable: bool)

  function Next(keep: nat, s: State, e: Event): State {
    match e
    case Ticket(c) => Serve(keep, s, c)
    case Restart(readable) => State(if readable && s.file.Some? then s.file.value else [], s.file)
  }

  function Run(keep: nat, events: seq<Event>): State {
    if events == [] then FRESH else Next(keep, Run(keep, events[..|events| - 1]), events[|events| - 1])
  }

  predicate PrintsAt(keep: nat, events: seq<Event>, k: nat) {
    k < |events| && events[k].Ticket? && Prints(Run(keep, events[..k]), events[k].claim)
  }

  predicate SavesAt(keep: nat, events: seq<Event>, k: nat) {
    PrintsAt(keep, events, k) && events[k].claim.diskOk
  }

  /** The history the bridge knows and the one its file holds. */
  datatype Memory = Memory(known: seq<Entry>, saved: seq<Entry>)

  function Memories(keep: nat, events: seq<Event>): Memory {
    if events == [] then Memory([], [])
    else
      var before, e := events[..|events| - 1], events[|events| - 1];
      var m := Memories(keep, before);
      match e
      case Restart(readable) => m.(known := if readable then m.saved else [])
      case Ticket(c) =>
        if Prints(Run(keep, before), c) then
          var known := m.known + [Slip(c)];
          Memory(known, if c.diskOk then known else m.saved)
        else m
  }

  /** Whatever happens, log and file are what the bounded log keeps of the two histories. */
  lemma {:induction false} RunKeepsHistory(keep: nat, events: seq<Event>)
    ensures var s, m := Run(keep, events), Memories(keep, events);
            && s.log == Bounded(m.known, keep)
            && (if s.file.Some? then s.file.value == Bounded(m.saved, keep) else m.saved == [])
  {
    if events != [] {
      var before, e := events[..|events| - 1], events[|events| - 1];
      RunKeepsHistory(keep, before);
      if e.Ticket? {
        BoundedRefines(Memories(keep, before).known, Slip(e.claim), keep);
      }
    }
  }

  /** The history holds the order with a revision of at least r, and since then
      only orders of `others`. */
  ghost predicate Remembers(history: seq<Entry>, order: string, r: int, others: set<string>) {
    exists q: nat :: LastRecord(history, q) && history[q].order == order && history[q].revision >= r
      && Orders(history[q + 1..]) <= others
  }

  lemma {:induction false} RemembersMore(history: seq<Entry>, e: Entry, order: string, r: int, others: set<string>,
                                         more: set<string>)
    requires Remembers(history, order, r, others) && others <= more
    requires if e.order == order then e.revision >= r else e.order in more
    ensures Remembers(history + [e], order, r, more)
  {
    var h := history + [e];
    if e.order == order {
      assert LastRecord(h, |history|) && h[|history| + 1..] == [];
    } else {
      var q: nat :| LastRecord(history, q) && history[q].order == order && history[q].revision >= r
        && Orders(history[q + 1..]) <= others;
      assert h[q + 1..] == history[q + 1..] + [e];
      OrdersSnoc(history[q + 1..], e);
      assert LastRecord(h, q);
    }
  }

  /** While the order is remembered and few others came since, nothing of it is
      printed in a revision that is not newer. */
  lemma {:induction false} RememberedIsKnown(keep: nat, events: seq<Event>, order: string, r: int, others: set<string>)
    requires Remembers(Memories(keep, events).known, order, r, others) && |others| < keep
    ensures Printed(Run(keep, events).log, order) >= r
  {
    var h := Memories(keep, events).known;
    var q: nat :| LastRecord(h, q) && h[q].order == order && h[q].revision >= r && Orders(h[q + 1..]) <= others;
    RunKeepsHistory(keep, events);
    KeptOrForgotten(h, keep, q);
    SubsetSize(Orders(h[q + 1..]), others);
  }

  lemma {:induction false} SubsetSize<T>(a: set<T>, b: set<T>)
    requires a <= b
    ensures |a| <= |b|
  {
    assert b == a + (b - a);
  }

  /** The orders of the slips printed strictly between two events. */
  function PrintedBetween(keep: nat, events: seq<Event>, i: nat, j: nat): set<string>
    requires j <= |events|
  {
    if j <= i + 1 then {}
    else PrintedBetween(keep, events, i, j - 1)
         + (if PrintsAt(keep, events, j - 1) then {events[j - 1].claim.order} else {})
  }

  /** No restart between i and j loses what was printed at i: the file can be read
      and was written since. */
  ghost predicate NothingLost(keep: nat, events: seq<Event>, i: nat, j: nat)
    requires j <= |events|
  {
    forall k :: i < k < j && events[k].Restart? ==>
      events[k].readable && SavedBetween(keep, events, i, k)
  }

  /** One event later: the order is still remembered. */
  lemma {:induction false} RememberedNext(keep: nat, before: seq<Event>, e: Event, order: string, r: int,
                                          earlier: set<string>, others: set<string>)
    requires Remembers(Memories(keep, before).known, order, r, earlier) && |earlier| < keep && earlier <= others
    requires PrintsAt(keep, before + [e], |before|) ==> e.claim.order == order || e.claim.order in others
    requires e.Restart? ==> e.readable && Remembers(Memories(keep, before).saved, order, r, earlier)
    ensures var m := Memories(keep, before + [e]);
            && Remembers(m.known, order, r, others)
            && (Remembers(Memories(keep, before).saved, order, r, earlier) ==> Remembers(m.saved, order, r, others))
            && (SavesAt(keep, before + [e], |before|) ==> Remembers(m.saved, order, r, others))
  {
    var m := Memories(keep, before);
    assert (before + [e])[..|before|] == before;
    Weaken(m.known, order, r, earlier, others);
    if Remembers(m.saved, order, r, earlier) {
      Weaken(m.saved, order, r, earlier, others);
    }
    if PrintsAt(keep, before + [e], |before|) {
      RememberedIsKnown(keep, before, order, r, earlier);
      RemembersMore(m.known, Slip(e.claim), order, r, earlier, others);
    }
  }

  /** Before event j the order is known, and saved if anything was saved since. */
  ghost predicate StillThere(keep: nat, events: seq<Event>, i: nat, j: nat)
    requires i < j <= |events| && events[i].Ticket?
  {
    var c, m := events[i].claim, Memories(keep, events[..j]);
    var others := PrintedBetween(keep, events, i, j) - {c.order};
    && Remembers(m.known, c.order, c.revision, others)
    && (SavedBetween(keep, events, i, j) ==> Remembers(m.saved, c.order, c.revision, others))
  }

  ghost predicate SavedBetween(keep: nat, events: seq<Event>, i: nat, j: nat) {
    exists m: nat :: i <= m < j && SavesAt(keep, events, m)
  }

  lemma {:induction false} RememberedUntil(keep: nat, events: seq<Event>, i: nat, j: nat)
    requires PrintsAt(keep, events, i) && i < j <= |events| && NothingLost(keep, events, i, j)
    requires |PrintedBetween(keep, events, i, j) - {events[i].claim.order}| < keep
    ensures StillThere(keep, events, i, j)
    decreases j
  {
    hide StillThere, PrintedBetween, SavedBetween, NothingLost;
    if j == i + 1 {
      StillThereFirst(keep, events, i);
    } else {
      FewerBefore(keep, events, i, j, events[i].claim.order);
      NothingLostBefore(keep, events, i, j);
      RememberedUntil(keep, events, i, j - 1);
      StillThereNext(keep, events, i, j);
    }
  }

  lemma {:induction false} NothingLostBefore(keep: nat, events: seq<Event>, i: nat, j: nat)
    requires i + 1 < j <= |events| && NothingLost(keep, events, i, j)
    ensures NothingLost(keep, events, i, j - 1)
    ensures events[j - 1].Restart? ==> events[j - 1].readable && SavedBetween(keep, events, i, j - 1)
  {}

  lemma {:induction false} FewerBefore(keep: nat, events: seq<Event>, i: nat, j: nat, order: string)
    requires i + 1 < j <= |events|
    ensures |PrintedBetween(keep, events, i, j - 1) - {order}| <= |PrintedBetween(keep, events, i, j) - {order}|
  {
    SubsetSize(PrintedBetween(keep, events, i, j - 1) - {order}, PrintedBetween(keep, events, i, j) - {order});
  }

  lemma {:induction false} StillThereFirst(keep: nat, events: seq<Event>, i: nat)
    requires PrintsAt(keep, events, i)
    ensures StillThere(keep, events, i, i + 1)
  {
    assert events[..i + 1] == events[..i] + [events[i]];
    SamePrint(keep, events, i);
    JustPrinted(keep, events[..i], events[i], PrintedBetween(keep, events, i, i + 1) - {events[i].claim.order});
    assert SavedBetween(keep, events, i, i + 1) ==> SavesAt(keep, events, i);
  }

  lemma {:induction false} StillThereNext(keep: nat, events: seq<Event>, i: nat, j: nat)
    requires i + 1 < j <= |events| && events[i].Ticket? && StillThere(keep, events, i, j - 1)
    requires events[j - 1].Restart? ==> events[j - 1].readable && SavedBetween(keep, events, i, j - 1)
    requires |PrintedBetween(keep, events, i, j - 1) - {events[i].claim.order}| < keep
    ensures StillThere(keep, events, i, j)
  {
    hide Remembers, Memories, PrintsAt, SavesAt;
    var c, before, e := events[i].claim, events[..j - 1], events[j - 1];
    assert events[..j] == before + [e];
    SamePrint(keep, events, j - 1);
    assert SavedBetween(keep, events, i, j) ==> SavedBetween(keep, events, i, j - 1) || SavesAt(keep, events, j - 1);
    RememberedNext(keep, before, e, c.order, c.revision,
                   PrintedBetween(keep, events, i, j - 1) - {c.order}, PrintedBetween(keep, events, i, j) - {c.order});
  }

  lemma {:induction false} SamePrint(keep: nat, events: seq<Event>, k: nat)
    requires k < |events|
    ensures PrintsAt(keep, events[..k] + [events[k]], k) == PrintsAt(keep, events, k)
    ensures SavesAt(keep, events[..k] + [events[k]], k) == SavesAt(keep, events, k)
  {
    assert (events[..k] + [events[k]])[..k] == events[..k];
  }

  lemma {:induction false} JustPrinted(keep: nat, before: seq<Event>, e: Event, others: set<string>)
    requires PrintsAt(keep, before + [e], |before|)
    ensures var m := Memories(keep, before + [e]);
            && Remembers(m.known, e.claim.order, e.claim.revision, others)
            && (e.claim.diskOk ==> Remembers(m.saved, e.claim.order, e.claim.revision, others))
  {
    assert (before + [e])[..|before|] == before;
    var was := Memories(keep, before).known;
    var h := was + [Slip(e.claim)];
    assert LastRecord(h, |was|) && h[|was| + 1..] == [];
    assert Remembers(h, e.claim.order, e.claim.revision, others);
  }

  lemma {:induction false} Weaken(history: seq<Entry>, order: string, r: int, others: set<string>, more: set<string>)
    requires Remembers(history, order, r, others) && others <= more
    ensures Remembers(history, order, r, more)
  {}

  /** Main result: the kitchen gets a slip of an order again, or an older one, only
      if a restart lost everything since the last save or `keep` other orders were
      printed in between. Else each slip of an order is newer than the one before. */
  lemma {:induction false} NoSecondSlip(keep: nat, events: seq<Event>, i: nat, j: nat)
    requires i < j && PrintsAt(keep, events, i) && PrintsAt(keep, events, j)
    requires events[i].claim.order == events[j].claim.order
    requires events[j].claim.revision <= events[i].claim.revision
    ensures !NothingLost(keep, events, i, j)
         || |PrintedBetween(keep, events, i, j) - {events[i].claim.order}| >= keep
  {
    var c := events[i].claim;
    if NothingLost(keep, events, i, j) && |PrintedBetween(keep, events, i, j) - {c.order}| < keep {
      RememberedUntil(keep, events, i, j);
      RememberedIsKnown(keep, events[..j], c.order, c.revision, PrintedBetween(keep, events, i, j) - {c.order});
      assert false;
    }
  }

  // ----- What an acknowledgement says -----

  predicate AckedOk(keep: nat, events: seq<Event>, k: nat) {
    k < |events| && events[k].Ticket? && AckOf(Run(keep, events[..k]), events[k].claim).ok
  }

  /** Some slip of the order was printed in this revision or a newer one, up to event k. */
  ghost predicate PrintedUntil(keep: nat, events: seq<Event>, k: nat, order: string, revision: int) {
    exists p: nat :: p <= k && PrintsAt(keep, events, p)
                     && events[p].claim.order == order && events[p].claim.revision >= revision
  }

  lemma {:induction false} PrintedIsEntry(log: Log, order: string)
    ensures Printed(log, order) != -1 ==> Entry(order, Printed(log, order)) in log
  {
    if log != [] && log[0].order != order {
      PrintedIsEntry(log[1..], order);
    }
  }

  /** Nothing is known or saved that was not printed. */
  lemma {:induction false} MemoryWasPrinted(keep: nat, events: seq<Event>, e: Entry)
    requires e in Memories(keep, events).known || e in Memories(keep, events).saved
    ensures exists p: nat :: PrintsAt(keep, events, p) && Slip(events[p].claim) == e
  {
    var n := |events| - 1;
    var before := events[..n];
    if e in Memories(keep, before).known || e in Memories(keep, before).saved {
      MemoryWasPrinted(keep, before, e);
      var p: nat :| PrintsAt(keep, before, p) && Slip(before[p].claim) == e;
      assert before[..p] == events[..p];
      assert PrintsAt(keep, events, p);
    } else {
      assert PrintsAt(keep, events, n) && Slip(events[n].claim) == e;
    }
  }

  lemma {:induction false} RecentMembers(history: seq<Entry>, e: Entry)
    ensures e in Recent(history) ==> e in history
  {
    if history != [] {
      var before := history[..|history| - 1];
      RecentMembers(before, e);
      WithoutMembers(Recent(before), history[|history| - 1].order);
    }
  }

  /** The history still shows the order in this revision or a newer one: its last record
      is one, and fewer than `keep` other orders were recorded since. */
  ghost predicate StillKept(history: seq<Entry>, keep: nat, order: string, revision: int) {
    exists q: nat :: LastRecord(history, q) && history[q].order == order && history[q].revision >= revision
      && |Orders(history[q + 1..])| < keep
  }

  lemma {:induction false} LastOfOrder(history: seq<Entry>, order: string) returns (q: nat)
    requires order in Orders(history)
    ensures LastRecord(history, q) && history[q].order == order
  {
    var n := |history| - 1;
    if history[n].order == order {
      q := n;
    } else {
      assert history == history[..n] + [history[n]];
      OrdersSnoc(history[..n], history[n]);
      q := LastOfOrder(history[..n], order);
    }
  }

  lemma {:induction false} OneLastRecord(history: seq<Entry>, p: nat, q: nat)
    requires LastRecord(history, p) && LastRecord(history, q) && history[p].order == history[q].order
    ensures p == q
  {}

  lemma {:induction false} StillKeptByLast(history: seq<Entry>, keep: nat, revision: int, q: nat)
    requires LastRecord(history, q)
    ensures StillKept(history, keep, history[q].order, revision) <==>
            history[q].revision >= revision && |Orders(history[q + 1..])| < keep
  {
    var order := history[q].order;
    if StillKept(history, keep, order, revision) {
      var p: nat :| LastRecord(history, p) && history[p].order == order && history[p].revision >= revision
        && |Orders(history[p + 1..])| < keep;
      OneLastRecord(history, p, q);
    }
  }

  /** The exact condition: an "ok" goes out if and only if the slip leaves the printer
      now, or what the bridge knows still shows the order in this revision or a newer one. */
  lemma {:induction false} OkIffPrintedOrKept(keep: nat, events: seq<Event>, k: nat)
    requires k < |events| && events[k].Ticket? && events[k].claim.revision >= 0
    ensures var c := events[k].claim;
            AckedOk(keep, events, k) <==>
              c.printOk || StillKept(Memories(keep, events[..k]).known, keep, c.order, c.revision)
  {
    var c, history := events[k].claim, Memories(keep, events[..k]).known;
    RunKeepsHistory(keep, events[..k]);
    if c.order in Orders(history) {
      var q := LastOfOrder(history, c.order);
      KeptOrForgotten(history, keep, q);
      StillKeptByLast(history, keep, c.revision, q);
    } else {
      NeverRecorded(history, keep, c.order);
      assert forall q: nat :: q < |history| ==> history[q].order in Orders(history);
    }
  }

  /** Main result, one way: an "ok" is true for every revision the server can send
      (they start at 0): this slip or a newer one of the order was printed. */
  lemma {:induction false} AckTellsTheTruth(keep: nat, events: seq<Event>, k: nat)
    requires k < |events| && events[k].Ticket? && events[k].claim.revision >= 0 && AckedOk(keep, events, k)
    ensures PrintedUntil(keep, events, k, events[k].claim.order, events[k].claim.revision)
  {
    var c, before := events[k].claim, events[..k];
    if Known(Run(keep, before), c) {
      var log := Run(keep, before).log;
      PrintedIsEntry(log, c.order);
      var e := Entry(c.order, Printed(log, c.order));
      RunKeepsHistory(keep, before);
      assert e in Recent(Memories(keep, before).known);
      RecentMembers(Memories(keep, before).known, e);
      MemoryWasPrinted(keep, before, e);
      var p: nat :| PrintsAt(keep, before, p) && Slip(before[p].claim) == e;
      assert before[..p] == events[..p];
      assert PrintsAt(keep, events, p);
    } else {
      assert PrintsAt(keep, events, k);
    }
  }

  /** Main result, the other way: a "failed" for a slip that was printed, itself or a
      newer one, needs a restart that lost it or `keep` other orders printed since. */
  lemma {:induction false} FailedAckNeedsALoss(keep: nat, events: seq<Event>, p: nat, k: nat)
    requires p < k < |events| && PrintsAt(keep, events, p) && events[k].Ticket? && !AckedOk(keep, events, k)
    requires events[p].claim.order == events[k].claim.order
    requires events[p].claim.revision >= events[k].claim.revision
    ensures !NothingLost(keep, events, p, k)
         || |PrintedBetween(keep, events, p, k) - {events[p].claim.order}| >= keep
  {
    var c := events[p].claim;
    if NothingLost(keep, events, p, k) && |PrintedBetween(keep, events, p, k) - {c.order}| < keep {
      RememberedUntil(keep, events, p, k);
      RememberedIsKnown(keep, events[..k], c.order, c.revision, PrintedBetween(keep, events, p, k) - {c.order});
      assert false;
    }
  }

  /** Both ways together: while every print of the order in this revision or a newer one
      is safe from restarts and eviction, "ok" goes out exactly if there was one. */
  lemma {:induction false} OkIffPrinted(keep: nat, events: seq<Event>, k: nat)
    requires k < |events| && events[k].Ticket? && events[k].claim.revision >= 0
    requires forall p: nat :: p < k && PrintsAt(keep, events, p) && events[p].claim.order == events[k].claim.order
                              && events[p].claim.revision >= events[k].claim.revision ==>
               && NothingLost(keep, events, p, k)
               && |PrintedBetween(keep, events, p, k) - {events[p].claim.order}| < keep
    ensures AckedOk(keep, events, k)
       <==> PrintedUntil(keep, events, k, events[k].claim.order, events[k].claim.revision)
  {
    var c := events[k].claim;
    if AckedOk(keep, events, k) {
      AckTellsTheTruth(keep, events, k);
    } else if PrintedUntil(keep, events, k, c.order, c.revision) {
      var p: nat :| p <= k && PrintsAt(keep, events, p) && events[p].claim.order == c.order
        && events[p].claim.revision >= c.revision;
      FailedAckNeedsALoss(keep, events, p, k);
    }
  }

  /** The loss is real: a slip is printed, the file was not written, the bridge starts
      again and the printer fails: the answer is "failed" although the slip is out. */
  lemma {:induction false} FailedThoughPrinted(keep: nat, c: Claim)
    requires c.revision >= 0 && c.printOk && !c.diskOk
    ensures var events := [Ticket(c), Restart(true), Ticket(c.(printOk := false))];
            PrintsAt(keep, events, 0) && !AckedOk(keep, events, 2)
  {
    var events := [Ticket(c), Restart(true), Ticket(c.(printOk := false))];
    assert events[..0] == [];
    assert events[..1] == [Ticket(c)] && events[..1][..0] == [];
    assert events[..2][..1] == events[..1];
    assert Run(keep, events[..1]).file.None?;
  }
}
