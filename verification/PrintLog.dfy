/** The print log of the kitchen bridge (printbridge/state.py): which order was
    printed in which revision, bounded to the `keep` orders recorded last, and
    kept in a file that is replaced as a whole. */
module PrintLog {
  import opened Wrappers

  datatype Entry = Entry(order: string, revision: int)

  /** An ordered dict: distinct orders, the one recorded last at the end. */
  type Log = seq<Entry>

  predicate DistinctOrders(log: Log) {
    forall i, j :: 0 <= i < j < |log| ==> log[i].order != log[j].order
  }

  function Without(log: Log, order: string): Log {
    if log == [] then []
    else (if log[0].order == order then [] else [log[0]]) + Without(log[1..], order)
  }

  /** Taken out and put at the end. */
  function Recorded(log: Log, e: Entry): Log {
    Without(log, e.order) + [e]
  }

  function Newest(log: Log, keep: nat): Log {
    if |log| <= keep then log else log[|log| - keep..]
  }

  /** The revision the log holds for an order, -1 without one. */
  function Printed(log: Log, order: string): int {
    if log == [] then -1 else if log[0].order == order then log[0].revision else Printed(log[1..], order)
  }

  predicate Already(log: Log, order: string, revision: int) {
    Printed(log, order) >= revision
  }

  /** Some entry of the order has this revision or a newer one. */
  predicate Keeps(log: Log, order: string, revision: int) {
    exists i :: 0 <= i < |log| && log[i].order == order && log[i].revision >= revision
  }

  class PrintedLog {
    const keep: nat
    var printed: Log
    /** What the file holds, None while there is no file. */
    var file: Option<Log>

    ghost predicate Valid()
      reads this
    {
      DistinctOrders(printed) && (file.Some? ==> DistinctOrders(file.value))
    }

    /** A start of the bridge. A file that cannot be read counts as empty. */
    constructor (keep: nat, file: Option<Log>, readable: bool)
      requires file.Some? ==> DistinctOrders(file.value)
      ensures Valid() && this.keep == keep && this.file == file
      ensures printed == if readable && file.Some? then file.value else []
    {
      this.keep, this.file := keep, file;
      printed := if readable && file.Some? then file.value else [];
    }

    /** Whether this revision or a newer one is kept. An order that is not kept counts
        as printed in no revision from 0 on. */
    method WasPrinted(order: string, revision: int) returns (already: bool)
      requires Valid()
      ensures already == Already(printed, order, revision)
      ensures already <==> if order in Orders(printed) then Keeps(printed, order, revision) else revision < 0
    {
      already := Printed(printed, order) >= revision;
      AlreadyIffKept(printed, order, revision);
    }

    /** Records a slip and rewrites the file; `diskOk` says whether that works. The
        new content replaces the old one in one step, so a failure leaves the old. */
    method Record(order: string, revision: int, diskOk: bool) returns (saved: bool)
      requires Valid()
      modifies this
      ensures Valid() && saved == diskOk
      ensures printed == Newest(Recorded(old(printed), Entry(order, revision)), keep)
      ensures file == if diskOk then Some(printed) else old(file)
    {
      WithoutDistinct(printed, order);
      printed := Without(printed, order);
      SnocDistinct(printed, Entry(order, revision));
      printed := printed + [Entry(order, revision)];
      ghost var all := printed;
      while |printed| > keep
        invariant DistinctOrders(printed) && Newest(printed, keep) == Newest(all, keep)
        invariant file == old(file)
      {
        NewestOfRest(printed, keep);
        RestDistinct(printed);
        printed := printed[1..];
      }
      saved := Save(diskOk);
    }

    method Save(diskOk: bool) returns (saved: bool)
      modifies `file
      ensures saved == diskOk && file == if diskOk then Some(printed) else old(file)
    {
      if diskOk {
        file := Some(printed);
      }
      return diskOk;
    }
  }

  lemma {:induction false} WithoutMembers(log: Log, order: string)
    ensures forall e :: e in Without(log, order) <==> e in log && e.order != order
  {
    if log != [] {
      WithoutMembers(log[1..], order);
    }
  }

  lemma {:induction false} WithoutDistinct(log: Log, order: string)
    requires DistinctOrders(log)
    ensures DistinctOrders(Without(log, order))
    ensures forall e :: e in Without(log, order) <==> e in log && e.order != order
  {
    WithoutMembers(log, order);
    if log != [] {
      RestDistinct(log);
      WithoutDistinct(log[1..], order);
      WithoutMembers(log[1..], order);
      ConsDistinct(log[0], Without(log[1..], order));
    }
  }

  lemma {:induction false} ConsDistinct(e: Entry, rest: Log)
    requires DistinctOrders(rest)
    ensures (forall f :: f in rest ==> f.order != e.order) ==> DistinctOrders([e] + rest)
  {
    if forall f :: f in rest ==> f.order != e.order {
      var log := [e] + rest;
      forall i, j | 0 <= i < j < |log| ensures log[i].order != log[j].order {
        assert log[j] == rest[j - 1];
        assert i > 0 ==> log[i] == rest[i - 1];
      }
    }
  }

  lemma {:induction false} SnocDistinct(log: Log, e: Entry)
    requires DistinctOrders(log) && forall f :: f in log ==> f.order != e.order
    ensures DistinctOrders(log + [e])
  {}

  // ----- The unbounded history and what the bounded log keeps of it -----

  /** The last record of each order, in the order of these last records. */
  function Recent(history: seq<Entry>): Log {
    if history == [] then [] else Recorded(Recent(history[..|history| - 1]), history[|history| - 1])
  }

  function Bounded(history: seq<Entry>, keep: nat): Log {
    Newest(Recent(history), keep)
  }

  lemma {:induction false} RecentDistinct(history: seq<Entry>)
    ensures DistinctOrders(Recent(history))
  {
    if history != [] {
      var before, e := history[..|history| - 1], history[|history| - 1];
      RecentDistinct(before);
      WithoutDistinct(Recent(before), e.order);
      SnocDistinct(Without(Recent(before), e.order), e);
    }
  }

  lemma {:induction false} NewestOfRest(log: Log, keep: nat)
    requires |log| > keep
    ensures Newest(log[1..], keep) == Newest(log, keep)
  {
    assert log[1..][|log| - 1 - keep..] == log[|log| - keep..];
  }

  lemma {:induction false} RestDistinct(log: Log)
    requires log != [] && DistinctOrders(log)
    ensures DistinctOrders(log[1..]) && forall e :: e in log[1..] ==> e.order != log[0].order
  {
    var rest := log[1..];
    forall i, j | 0 <= i < j < |rest| ensures rest[i].order != rest[j].order {
      assert rest[i] == log[i + 1] && rest[j] == log[j + 1];
    }
    forall e | e in rest ensures e.order != log[0].order {
      var i :| 0 <= i < |rest| && rest[i] == e;
      assert log[i + 1] == e;
    }
  }

  lemma {:induction false} WithoutSize(log: Log, order: string)
    requires DistinctOrders(log)
    ensures |log| - 1 <= |Without(log, order)|
    ensures (forall e :: e in log ==> e.order != order) ==> Without(log, order) == log
  {
    if log != [] {
      RestDistinct(log);
      WithoutSize(log[1..], order);
      assert log == [log[0]] + log[1..];
    }
  }

  /** Main step: forgetting the oldest entries before a record makes no difference
      to what is kept after it. */
  lemma {:induction false} RecordRefines(log: Log, e: Entry, keep: nat)
    requires DistinctOrders(log)
    ensures Newest(Recorded(Newest(log, keep), e), keep) == Newest(Recorded(log, e), keep)
  {
    if |log| > keep {
      var rest := log[1..];
      RestDistinct(log);
      RecordRefines(rest, e, keep);
      NewestOfRest(log, keep);
      WithoutSize(rest, e.order);
      if log[0].order != e.order {
        assert Recorded(log, e) == [log[0]] + Recorded(rest, e);
        NewestOfRest(Recorded(log, e), keep);
      } else {
        assert Recorded(log, e) == Recorded(rest, e);
      }
    }
  }

  /** The bounded log refines the unbounded one: recording into what was kept
      gives what is kept of the longer history. */
  lemma {:induction false} BoundedRefines(history: seq<Entry>, e: Entry, keep: nat)
    ensures Newest(Recorded(Bounded(history, keep), e), keep) == Bounded(history + [e], keep)
  {
    RecentDistinct(history);
    RecordRefines(Recent(history), e, keep);
    assert (history + [e])[..|history|] == history;
  }

  // ----- What is kept, read off the history -----

  function Orders(entries: seq<Entry>): set<string> {
    set i | 0 <= i < |entries| :: entries[i].order
  }

  /** Record number q is the last one of its order. */
  predicate LastRecord(history: seq<Entry>, q: nat) {
    q < |history| && forall k :: q < k < |history| ==> history[k].order != history[q].order
  }

  /** The orders that stand behind one of the log. */
  function Behind(log: Log, order: string): set<string> {
    if log == [] then {} else if log[0].order == order then Orders(log[1..]) else Behind(log[1..], order)
  }

  lemma {:induction false} OrdersSnoc(entries: seq<Entry>, e: Entry)
    ensures Orders(entries + [e]) == Orders(entries) + {e.order}
  {
    forall o | o in Orders(entries) + {e.order} ensures o in Orders(entries + [e]) {
      if o == e.order {
        assert (entries + [e])[|entries|].order == o;
      } else {
        var i :| 0 <= i < |entries| && entries[i].order == o;
        assert (entries + [e])[i].order == o;
      }
    }
  }

  lemma {:induction false} OrdersWithout(log: Log, order: string)
    ensures Orders(Without(log, order)) == Orders(log) - {order}
  {
    if log != [] {
      OrdersWithout(log[1..], order);
      OrdersCons(log[0], log[1..]);
      OrdersCons(log[0], Without(log[1..], order));
      assert log == [log[0]] + log[1..];
      assert Without(log, order) ==
             if log[0].order == order then Without(log[1..], order) else [log[0]] + Without(log[1..], order);
    }
  }

  lemma {:induction false} OrdersCons(e: Entry, entries: seq<Entry>)
    ensures Orders([e] + entries) == {e.order} + Orders(entries)
  {
    forall o | o in {e.order} + Orders(entries) ensures o in Orders([e] + entries) {
      if o == e.order {
        assert ([e] + entries)[0].order == o;
      } else {
        var i :| 0 <= i < |entries| && entries[i].order == o;
        assert ([e] + entries)[i + 1].order == o;
      }
    }
  }

  lemma {:induction false} RecordedOthers(log: Log, e: Entry, order: string)
    requires order != e.order
    ensures order in Orders(log) ==> Behind(Recorded(log, e), order) == Behind(log, order) + {e.order}
    ensures Printed(Recorded(log, e), order) == Printed(log, order)
  {
    if log == [] {
      assert Recorded(log, e) == [e];
    } else {
      var rest := log[1..];
      assert log == [log[0]] + rest;
      OrdersCons(log[0], rest);
      RecordedOthers(rest, e, order);
      if log[0].order == e.order {
        assert Recorded(log, e) == Recorded(rest, e);
      } else {
        assert Recorded(log, e) == [log[0]] + Recorded(rest, e);
        assert ([log[0]] + Recorded(rest, e))[1..] == Recorded(rest, e);
        if log[0].order == order {
          OrdersSnoc(Without(rest, e.order), e);
          OrdersWithout(rest, e.order);
        }
      }
    }
  }

  lemma {:induction false} RecordedItself(log: Log, e: Entry)
    ensures Behind(Recorded(log, e), e.order) == {}
    ensures Printed(Recorded(log, e), e.order) == e.revision
  {
    if log == [] {
      assert Recorded(log, e) == [e] && [e][1..] == [];
    } else {
      RecordedItself(log[1..], e);
      if log[0].order == e.order {
        assert Recorded(log, e) == Recorded(log[1..], e);
      } else {
        assert Recorded(log, e) == [log[0]] + Recorded(log[1..], e);
        assert ([log[0]] + Recorded(log[1..], e))[1..] == Recorded(log[1..], e);
      }
    }
  }

  /** An entry of a log is what the log answers for its order. */
  lemma {:induction false} PrintedAt(log: Log, i: nat)
    requires DistinctOrders(log) && i < |log|
    ensures Printed(log, log[i].order) == log[i].revision
  {
    if 0 < i {
      RestDistinct(log);
      PrintedAt(log[1..], i - 1);
    }
  }

  /** What `already` means: a kept order answers with its entry, any other with -1. */
  lemma {:induction false} AlreadyIffKept(log: Log, order: string, revision: int)
    requires DistinctOrders(log)
    ensures Already(log, order, revision) <==>
            if order in Orders(log) then Keeps(log, order, revision) else revision < 0
  {
    if order in Orders(log) {
      var i :| 0 <= i < |log| && log[i].order == order;
      PrintedAt(log, i);
    } else {
      forall e | e in log ensures e.order != order {
        var i :| 0 <= i < |log| && log[i] == e;
      }
      NotThere(log, order);
    }
  }

  /** Eviction changes no revision: an order that is still kept answers as before. */
  lemma {:induction false} NewestAnswersAlike(log: Log, keep: nat, order: string)
    requires DistinctOrders(log) && order in Orders(Newest(log, keep))
    ensures order in Orders(log) && Printed(Newest(log, keep), order) == Printed(log, order)
  {
    var kept := Newest(log, keep);
    var i :| 0 <= i < |kept| && kept[i].order == order;
    var at := i + |log| - |kept|;
    assert log[at] == kept[i];
    assert DistinctOrders(kept) by {
      forall j, k | 0 <= j < k < |kept| ensures kept[j].order != kept[k].order {
        assert kept[j] == log[j + |log| - |kept|] && kept[k] == log[k + |log| - |kept|];
      }
    }
    PrintedAt(kept, i);
    PrintedAt(log, at);
  }

  /** The unbounded log holds each order with its last recorded revision, and
      behind it exactly the orders recorded since. */
  lemma {:induction false} RecentIsLast(history: seq<Entry>, q: nat)
    requires LastRecord(history, q)
    ensures var log, o := Recent(history), history[q].order;
            && o in Orders(log) && Printed(log, o) == history[q].revision
            && Behind(log, o) == Orders(history[q + 1..])
  {
    var n := |history| - 1;
    var before, e := history[..n], history[n];
    OrdersSnoc(Without(Recent(before), e.order), e);
    OrdersWithout(Recent(before), e.order);
    if q == n {
      RecordedItself(Recent(before), e);
      assert history[q + 1..] == [];
    } else {
      assert before[q] == history[q] && LastRecord(before, q) && e.order != history[q].order;
      RecentIsLast(before, q);
      RecordedOthers(Recent(before), e, history[q].order);
      OrdersSnoc(before[q + 1..], e);
      assert history[q + 1..] == before[q + 1..] + [e];
    }
  }

  lemma {:induction false} DistinctSize(log: Log)
    requires DistinctOrders(log)
    ensures |Orders(log)| == |log|
  {
    if log == [] {
      assert Orders(log) == {};
    } else {
      RestDistinct(log);
      DistinctSize(log[1..]);
      OrdersCons(log[0], log[1..]);
      assert log == [log[0]] + log[1..];
      assert log[0].order !in Orders(log[1..]);
    }
  }

  /** Of a log exactly the orders with fewer than `keep` others behind them are kept. */
  lemma {:induction false} NewestKeeps(log: Log, keep: nat, order: string)
    requires DistinctOrders(log) && order in Orders(log)
    ensures Printed(Newest(log, keep), order) == if |Behind(log, order)| < keep then Printed(log, order) else -1
  {
    var rest := log[1..];
    assert log == [log[0]] + rest;
    RestDistinct(log);
    OrdersCons(log[0], rest);
    DistinctSize(rest);
    if |log| <= keep {
      BehindSmaller(log, order);
    } else {
      NewestOfRest(log, keep);
      if log[0].order == order {
        NotThere(Newest(log, keep), order);
      } else {
        NewestKeeps(rest, keep, order);
      }
    }
  }

  lemma {:induction false} BehindSmaller(log: Log, order: string)
    requires DistinctOrders(log) && order in Orders(log)
    ensures |Behind(log, order)| < |log|
  {
    RestDistinct(log);
    assert log == [log[0]] + log[1..];
    OrdersCons(log[0], log[1..]);
    if log[0].order == order {
      DistinctSize(log[1..]);
    } else {
      BehindSmaller(log[1..], order);
    }
  }

  lemma {:induction false} NotThere(log: Log, order: string)
    requires forall e :: e in log ==> e.order != order
    ensures Printed(log, order) == -1
  {
    if log != [] {
      assert log[0] in log;
      NotThere(log[1..], order);
    }
  }

  /** Main result: after any records the bounded log answers with the last recorded
      revision of an order while fewer than `keep` other orders were recorded
      since, and as if it had never seen the order from then on. */
  lemma {:induction false} KeptOrForgotten(history: seq<Entry>, keep: nat, q: nat)
    requires LastRecord(history, q)
    ensures Printed(Bounded(history, keep), history[q].order)
         == if |Orders(history[q + 1..])| < keep then history[q].revision else -1
  {
    RecentDistinct(history);
    RecentIsLast(history, q);
    NewestKeeps(Recent(history), keep, history[q].order);
  }

  /** An order that was never recorded is not in the log. */
  lemma {:induction false} NeverRecorded(history: seq<Entry>, keep: nat, order: string)
    requires order !in Orders(history)
    ensures Printed(Bounded(history, keep), order) == -1
  {
    RecentOrders(history);
    var log := Newest(Recent(history), keep);
    forall e | e in log ensures e.order != order {
      var i :| 0 <= i < |log| && log[i] == e;
      assert Recent(history)[|Recent(history)| - |log| + i] == e;
      assert e.order in Orders(Recent(history));
    }
    NotThere(log, order);
  }

  lemma {:induction false} RecentOrders(history: seq<Entry>)
    ensures Orders(Recent(history)) == Orders(history)
  {
    if history != [] {
      var before, e := history[..|history| - 1], history[|history| - 1];
      RecentOrders(before);
      OrdersSnoc(Without(Recent(before), e.order), e);
      OrdersWithout(Recent(before), e.order);
      OrdersSnoc(before, e);
      assert history == before + [e];
    }
  }
}
