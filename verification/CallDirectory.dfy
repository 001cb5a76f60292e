/** The local directory of the call log (scripts/call_log.py): how reviewed cases follow
    their rows when the minute leaves the file, and what one more run changes. */
module CallDirectory {
  import opened Wrappers
  import opened CallLog

  datatype Record = Record(day: int, fp: Option<string>, was: Option<Id>)

  type Known = map<Id, Record>

  /** The row was moved by an earlier run that ended ahead of the cut of the file. */
  predicate Mapped(known: Known, n: Numbered) {
    CaseId(n) in known && known[CaseId(n)].was == OldId(n)
  }

  /** The row has an old ID that somebody knows or reviewed, and is not moved yet. */
  predicate Movable(known: Known, done: set<Id>, n: Numbered) {
    OldId(n).Some? && !Mapped(known, n) && (OldId(n).value in known || OldId(n).value in done)
  }

  /** Row i is moved: movable, and the first of those that share its old ID. */
  ghost predicate Moves(rows: seq<Numbered>, known: Known, done: set<Id>, i: nat)
    requires i < |rows|
  {
    && Movable(known, done, rows[i])
    && forall j :: 0 <= j < i ==> OldId(rows[j]) != OldId(rows[i]) || Mapped(known, rows[j])
  }

  /** The record a moved row gets. */
  function MovedRecord(known: Known, n: Numbered): Record
    requires OldId(n).Some?
  {
    var old_ := OldId(n).value;
    if old_ in known then known[old_].(was := OldId(n)) else Record(n.call.day, Some(n.call.body), OldId(n))
  }

  /** An ID that a moved row leaves or takes. */
  ghost predicate Touched(rows: seq<Numbered>, known: Known, done: set<Id>, n: nat, id: Id)
    requires n <= |rows|
  {
    exists i :: 0 <= i < n && Moves(rows, known, done, i) && (CaseId(rows[i]) == id || OldId(rows[i]) == Some(id))
  }

  /** An old ID that a move has used up. */
  ghost predicate Used(rows: seq<Numbered>, known: Known, done: set<Id>, n: nat, id: Id)
    requires n <= |rows|
  {
    exists i :: 0 <= i < n && Moves(rows, known, done, i) && OldId(rows[i]) == Some(id)
  }

  /** A moved row has its record under the new ID and none under the old one. */
  predicate Moved(known: Known, row: Numbered, after: Known)
    requires OldId(row).Some?
  {
    CaseId(row) in after && after[CaseId(row)] == MovedRecord(known, row) && OldId(row).value !in after
  }

  predicate SameAt(known: Known, after: Known, id: Id) {
    (id in after <==> id in known) && (id in known && id in after ==> after[id] == known[id])
  }

  /** The directory behind the first n rows: the rows that move are moved, and nothing
      else has changed. */
  ghost predicate Remapped(rows: seq<Numbered>, known: Known, done: set<Id>, n: nat, after: Known)
    requires n <= |rows|
  {
    && (forall i :: 0 <= i < n && Moves(rows, known, done, i) ==> Moved(known, rows[i], after))
    && (forall id :: !Touched(rows, known, done, n, id) ==> SameAt(known, after, id))
  }

  ghost predicate IdsDiffer(rows: seq<Numbered>) {
    forall i, j :: 0 <= i < j < |rows| ==> CaseId(rows[i]) != CaseId(rows[j])
  }

  ghost predicate UsedUp(rows: seq<Numbered>, known: Known, done: set<Id>, n: nat, mapped: set<Id>)
    requires n <= |rows|
  {
    forall id :: id in mapped <==> Used(rows, known, done, n, id)
  }

  lemma {:induction false} OneMoreRow(rows: seq<Numbered>, known: Known, done: set<Id>, n: nat, id: Id)
    requires n < |rows|
    ensures Touched(rows, known, done, n + 1, id) <==>
            || Touched(rows, known, done, n, id)
            || (Moves(rows, known, done, n) && (CaseId(rows[n]) == id || OldId(rows[n]) == Some(id)))
    ensures Used(rows, known, done, n + 1, id) <==>
            Used(rows, known, done, n, id) || (Moves(rows, known, done, n) && OldId(rows[n]) == Some(id))
  {
    if Touched(rows, known, done, n, id) {
      var i :| 0 <= i < n && Moves(rows, known, done, i) && (CaseId(rows[i]) == id || OldId(rows[i]) == Some(id));
      assert i < n + 1;
    }
    if Used(rows, known, done, n, id) {
      var i :| 0 <= i < n && Moves(rows, known, done, i) && OldId(rows[i]) == Some(id);
      assert i < n + 1;
    }
  }

  /** At row n the running directory answers as the first one does. */
  lemma {:induction false} SameAnswer(rows: seq<Numbered>, known: Known, done: set<Id>, n: nat, now: Known,
                                      mapped: set<Id>)
    requires IdsDiffer(rows) && n < |rows| && OldId(rows[n]).Some?
    requires Remapped(rows, known, done, n, now) && UsedUp(rows, known, done, n, mapped)
    ensures Mapped(now, rows[n]) <==> Mapped(known, rows[n])
    ensures Moves(rows, known, done, n) <==>
            !(OldId(rows[n]).value in mapped || Mapped(now, rows[n])
              || (OldId(rows[n]).value !in now && OldId(rows[n]).value !in done))
    ensures Moves(rows, known, done, n) ==>
              (OldId(rows[n]).value in now <==> OldId(rows[n]).value in known)
              && (OldId(rows[n]).value in now ==> now[OldId(rows[n]).value] == known[OldId(rows[n]).value])
  {
    var old_ := OldId(rows[n]).value;
    assert !Touched(rows, known, done, n, CaseId(rows[n]));
    if old_ in mapped {
      var i :| 0 <= i < n && Moves(rows, known, done, i) && OldId(rows[i]) == Some(old_);
      assert !Moves(rows, known, done, n);
    } else {
      assert !Touched(rows, known, done, n, old_);
      if Movable(known, done, rows[n]) {
        FirstOfItsOldId(rows, known, done, n);
      }
    }
  }

  /** The first movable row of an old ID moves. */
  lemma {:induction false} FirstOfItsOldId(rows: seq<Numbered>, known: Known, done: set<Id>, n: nat)
    requires n < |rows| && Movable(known, done, rows[n])
    ensures exists i :: 0 <= i <= n && Moves(rows, known, done, i) && OldId(rows[i]) == OldId(rows[n])
    decreases n
  {
    if !Moves(rows, known, done, n) {
      var j :| 0 <= j < n && OldId(rows[j]) == OldId(rows[n]) && !Mapped(known, rows[j]);
      FirstOfItsOldId(rows, known, done, j);
    }
  }

  /** One row further without a move. */
  lemma {:induction false} StepOver(rows: seq<Numbered>, known: Known, done: set<Id>, n: nat, now: Known,
                                    mapped: set<Id>)
    requires n < |rows| && Remapped(rows, known, done, n, now) && UsedUp(rows, known, done, n, mapped)
    requires !Moves(rows, known, done, n)
    ensures Remapped(rows, known, done, n + 1, now) && UsedUp(rows, known, done, n + 1, mapped)
  {
    forall id {
      OneMoreRow(rows, known, done, n, id);
    }
  }

  /** A later move leaves an earlier one as it is. */
  lemma {:induction false} MovesApart(rows: seq<Numbered>, known: Known, done: set<Id>, i: nat, n: nat, now: Known)
    requires IdsDiffer(rows) && i < n < |rows| && Moves(rows, known, done, i) && Moves(rows, known, done, n)
    requires Moved(known, rows[i], now)
    ensures Moved(known, rows[i], (now - {OldId(rows[n]).value})[CaseId(rows[n]) := MovedRecord(known, rows[n])])
  {
  }

  /** One row further with a move. */
  lemma {:induction false} StepMove(rows: seq<Numbered>, known: Known, done: set<Id>, n: nat, now: Known,
                                    mapped: set<Id>)
    requires IdsDiffer(rows) && n < |rows| && Moves(rows, known, done, n)
    requires Remapped(rows, known, done, n, now) && UsedUp(rows, known, done, n, mapped)
    ensures Remapped(rows, known, done, n + 1,
                     (now - {OldId(rows[n]).value})[CaseId(rows[n]) := MovedRecord(known, rows[n])])
    ensures UsedUp(rows, known, done, n + 1, mapped + {OldId(rows[n]).value})
  {
    var last := OldId(rows[n]).value;
    var after := (now - {last})[CaseId(rows[n]) := MovedRecord(known, rows[n])];
    forall i | 0 <= i < n && Moves(rows, known, done, i) ensures Moved(known, rows[i], after) {
      MovesApart(rows, known, done, i, n, now);
    }
    forall id ensures !Touched(rows, known, done, n + 1, id) ==> SameAt(known, after, id) {
      OneMoreRow(rows, known, done, n, id);
    }
    forall id ensures id in mapped + {last} <==> Used(rows, known, done, n + 1, id) {
      OneMoreRow(rows, known, done, n, id);
    }
  }

  /** The directory, changed in place. */
  class Directory {
    var known: Known

    constructor (loaded: Known)
      ensures known == loaded
    {
      known := loaded;
    }

    /** Moves the records of reviewed or known rows from their old ID to their new one. */
    method Remap(rows: seq<Numbered>, done: set<Id>) returns (changed: bool)
      requires IdsDiffer(rows)
      modifies this
      ensures Remapped(rows, old(known), done, |rows|, known)
      ensures changed <==> exists i :: 0 <= i < |rows| && Moves(rows, old(known), done, i)
    {
      changed := false;
      var mapped: set<Id> := {};
      for n := 0 to |rows|
        invariant Remapped(rows, old(known), done, n, known) && UsedUp(rows, old(known), done, n, mapped)
        invariant changed <==> exists i :: 0 <= i < n && Moves(rows, old(known), done, i)
      {
        var before := OldId(rows[n]);
        if before.None? {
          StepOver(rows, old(known), done, n, known, mapped);
          continue;
        }
        var id, new_ := before.value, CaseId(rows[n]);
        SameAnswer(rows, old(known), done, n, known, mapped);
        if id in mapped || (new_ in known && known[new_].was == before) || (id !in known && id !in done) {
          StepOver(rows, old(known), done, n, known, mapped);
          continue;
        }
        StepMove(rows, old(known), done, n, known, mapped);
        mapped := mapped + {id};
        var record := if id in known then known[id] else Record(rows[n].call.day, Some(rows[n].call.body), None);
        known := known - {id};
        known := known[new_ := record.(was := before)];
        changed := true;
      }
    }
  }

  // ---- What a run means ----

  /** Behind a run exactly the rows that moved count as moved, and those of before. */
  lemma {:induction false} MappedBehind(rows: seq<Numbered>, known: Known, done: set<Id>, after: Known, i: nat)
    requires IdsDiffer(rows) && Remapped(rows, known, done, |rows|, after)
    requires i < |rows| && OldId(rows[i]).Some?
    ensures Mapped(after, rows[i]) <==> Mapped(known, rows[i]) || Moves(rows, known, done, i)
  {
    if Moves(rows, known, done, i) {
      assert Moved(known, rows[i], after);
    } else {
      assert forall k :: 0 <= k < |rows| && k != i ==> CaseId(rows[k]) != CaseId(rows[i]);
      assert !Touched(rows, known, done, |rows|, CaseId(rows[i]));
    }
  }

  /** Two rows of one minute with equal content, reviewed, and neither moved before. */
  ghost predicate ReviewedTwins(rows: seq<Numbered>, known: Known, done: set<Id>) {
    exists i, j :: 0 <= i < j < |rows| && Twins(rows, known, done, i, j)
  }

  predicate Twins(rows: seq<Numbered>, known: Known, done: set<Id>, i: nat, j: nat)
    requires i < |rows| && j < |rows|
  {
    && OldId(rows[i]).Some? && OldId(rows[i]) == OldId(rows[j]) && OldId(rows[i]).value in done
    && !Mapped(known, rows[i]) && !Mapped(known, rows[j])
  }

  ghost predicate AnyMoves(rows: seq<Numbered>, known: Known, done: set<Id>) {
    exists i :: 0 <= i < |rows| && Moves(rows, known, done, i)
  }

  lemma {:induction false} TwinMovesAgain(rows: seq<Numbered>, known: Known, done: set<Id>, after: Known, i: nat,
                                          j: nat)
    requires IdsDiffer(rows) && Remapped(rows, known, done, |rows|, after)
    requires i < j < |rows| && Twins(rows, known, done, i, j)
    ensures AnyMoves(rows, after, done)
  {
    FirstOfItsOldId(rows, known, done, i);
    MappedBehind(rows, known, done, after, j);
    FirstOfItsOldId(rows, after, done, j);
  }

  lemma {:induction false} MovedAgainIsTwin(rows: seq<Numbered>, known: Known, done: set<Id>, after: Known, j: nat)
    requires IdsDiffer(rows) && Remapped(rows, known, done, |rows|, after)
    requires j < |rows| && Moves(rows, after, done, j)
    ensures ReviewedTwins(rows, known, done)
  {
    MappedBehind(rows, known, done, after, j);
    var id := OldId(rows[j]).value;
    if id in after {
      assert forall k :: 0 <= k < |rows| && Moves(rows, known, done, k) ==> Moved(known, rows[k], after);
      assert !Touched(rows, known, done, |rows|, id);
      assert SameAt(known, after, id);
    }
    assert Movable(known, done, rows[j]);
    FirstOfItsOldId(rows, known, done, j);
    var i :| 0 <= i <= j && Moves(rows, known, done, i) && OldId(rows[i]) == OldId(rows[j]);
    assert Moved(known, rows[i], after);
    assert i < j && Twins(rows, known, done, i, j);
  }

  /** Main result: running again on the same rows and its own result moves something
      exactly when a minute holds reviewed twins that were not moved before. */
  lemma {:induction false} RerunMovesIffTwins(rows: seq<Numbered>, known: Known, done: set<Id>, after: Known)
    requires IdsDiffer(rows) && Remapped(rows, known, done, |rows|, after)
    ensures AnyMoves(rows, after, done) <==> ReviewedTwins(rows, known, done)
  {
    if AnyMoves(rows, after, done) {
      var j :| 0 <= j < |rows| && Moves(rows, after, done, j);
      MovedAgainIsTwin(rows, known, done, after, j);
    }
    if ReviewedTwins(rows, known, done) {
      var i, j :| 0 <= i < j < |rows| && Twins(rows, known, done, i, j);
      TwinMovesAgain(rows, known, done, after, i, j);
    }
  }

  /** A run in which no row moves leaves the directory as it is. */
  lemma {:induction false} NoMoveNoChange(rows: seq<Numbered>, known: Known, done: set<Id>, after: Known)
    requires Remapped(rows, known, done, |rows|, after) && !AnyMoves(rows, known, done)
    ensures after == known
  {
    forall id ensures SameAt(known, after, id) {
      assert !Touched(rows, known, done, |rows|, id);
    }
    assert after.Keys == known.Keys by {
      assert forall id :: SameAt(known, after, id) ==> (id in after.Keys <==> id in known.Keys);
    }
    assert forall id :: id in known ==> SameAt(known, after, id) && after[id] == known[id];
  }

  /** Main result for a stop before the cut of the file: without two equal rows in one
      minute the second run changes nothing. */
  lemma {:induction false} RerunChangesNothing(calls: seq<Call>, known: Known, done: set<Id>, after: Known,
                                               again: Known)
    requires forall i, j :: 0 <= i < j < |calls| && calls[i].minute.Some? ==> calls[i] != calls[j]
    requires Remapped(NumberAll(calls), known, done, |calls|, after)
    requires Remapped(NumberAll(calls), after, done, |calls|, again)
    ensures again == after
  {
    var rows := NumberAll(calls);
    NumbersDiffer(calls);
    RerunMovesIffTwins(rows, known, done, after);
    if ReviewedTwins(rows, known, done) {
      var i, j :| 0 <= i < j < |rows| && Twins(rows, known, done, i, j);
      OldIdsShared(calls, i, j);
    }
    NoMoveNoChange(rows, after, done, again);
  }

  lemma {:induction false} NumbersDiffer(calls: seq<Call>)
    ensures IdsDiffer(NumberAll(calls))
  {
    forall i, j | 0 <= i < j < |calls| ensures CaseId(NumberAll(calls)[i]) != CaseId(NumberAll(calls)[j]) {
      CaseIdsDiffer(calls, i, j);
    }
  }

  /** Where the content of a record is behind a run. */
  predicate FoundIn(after: Known, id: Id, now: Id, record: Record) {
    now in after && after[now].day == record.day && after[now].fp == record.fp
    && (now == id || after[now].was == Some(id))
  }

  /** While no new ID is taken, every record keeps its date and fingerprint: under its
      own ID, or under the new one that names it. */
  lemma {:induction false} NoRecordIsLost(rows: seq<Numbered>, known: Known, done: set<Id>, after: Known, id: Id)
    requires Remapped(rows, known, done, |rows|, after) && id in known
    requires forall i :: 0 <= i < |rows| && Moves(rows, known, done, i) ==> CaseId(rows[i]) !in known
    ensures exists now :: FoundIn(after, id, now, known[id])
  {
    if Touched(rows, known, done, |rows|, id) {
      var i :| 0 <= i < |rows| && Moves(rows, known, done, i) && (CaseId(rows[i]) == id || OldId(rows[i]) == Some(id));
      assert Moved(known, rows[i], after);
      assert FoundIn(after, id, CaseId(rows[i]), known[id]);
    } else {
      assert FoundIn(after, id, id, known[id]);
    }
  }

  /** A row that moves stands under its new ID and names the old one: with the
      record that was known, or, reviewed without one, with its own date and content. */
  lemma {:induction false} MovedRowIs(rows: seq<Numbered>, known: Known, done: set<Id>, after: Known, i: nat)
    requires Remapped(rows, known, done, |rows|, after) && i < |rows| && Moves(rows, known, done, i)
    ensures var row, id := rows[i], CaseId(rows[i]);
            && OldId(row).Some? && id in after && after[id].was == OldId(row) && OldId(row).value !in after
            && if OldId(row).value in known
               then after[id].day == known[OldId(row).value].day && after[id].fp == known[OldId(row).value].fp
               else OldId(row).value in done && after[id].day == row.call.day && after[id].fp == Some(row.call.body)
  {
    assert Moved(known, rows[i], after);
  }

  /** Every record has the date of its ID. */
  predicate DaysMatch(known: Known) {
    forall id :: id in known ==> known[id].day == id.day
  }

  lemma {:induction false} RemapKeepsDays(rows: seq<Numbered>, known: Known, done: set<Id>, after: Known)
    requires Remapped(rows, known, done, |rows|, after) && DaysMatch(known)
    ensures DaysMatch(after)
  {
    forall id | id in after ensures after[id].day == id.day {
      if Touched(rows, known, done, |rows|, id) {
        var i :| 0 <= i < |rows| && Moves(rows, known, done, i)
                 && (CaseId(rows[i]) == id || OldId(rows[i]) == Some(id));
        assert Moved(known, rows[i], after);
      }
    }
  }

  /** The directory without the calls before `cutoff`. */
  function ForgetBefore(known: Known, cutoff: int): Known {
    map id | id in known && cutoff <= known[id].day :: known[id]
  }

  /** The directory forgets exactly the IDs that the purge takes out of the file. */
  lemma {:induction false} ForgottenWithItsRow(rows: seq<Row>, known: Known, cutoff: int, id: Id)
    requires DaysMatch(known) && id in known && id in Ids(Calls(rows))
    ensures id in ForgetBefore(known, cutoff) <==> id in Ids(Calls(Purged(rows, cutoff)))
  {
    PurgeKeepsIds(rows, cutoff);
    InIdsFrom(Ids(Calls(rows)), cutoff, id);
  }

  lemma {:induction false} InIdsFrom(ids: seq<Id>, cutoff: int, id: Id)
    ensures id in IdsFrom(ids, cutoff) <==> id in ids && cutoff <= id.day
  {
    if ids != [] {
      InIdsFrom(ids[..|ids| - 1], cutoff, id);
      assert ids == ids[..|ids| - 1] + [ids[|ids| - 1]];
    }
  }

  /** Main result, all steps of one run together: a case known or reviewed under the
      minute of its row is found again from the file without minutes and without old
      calls, and a run on that file moves nothing. */
  lemma {:induction false} CaseFollowsItsRow(rows: seq<Row>, known: Known, done: set<Id>, after: Known, cutoff: int,
                                             i: nat)
    requires var calls := Calls(rows);
             && i < |calls| && Movable(known, done, NumberAll(calls)[i]) && cutoff <= calls[i].day
             && (forall j :: 0 <= j < i ==> calls[j] != calls[i])
             && Remapped(NumberAll(calls), known, done, |calls|, after)
    requires DaysMatch(known)
    ensures var row, cut := NumberAll(Calls(rows))[i], Calls(Purged(Coarsened(rows), cutoff));
            && CaseId(row) in Ids(cut)
            && CaseId(row) in ForgetBefore(after, cutoff)
            && ForgetBefore(after, cutoff)[CaseId(row)].was == OldId(row)
            && !AnyMoves(NumberAll(cut), ForgetBefore(after, cutoff), done)
  {
    var calls := Calls(rows);
    var all := NumberAll(calls);
    forall j | 0 <= j < i ensures OldId(all[j]) != OldId(all[i]) {
      if OldId(all[j]).Some? {
        OldIdsShared(calls, j, i);
      }
    }
    assert Moves(all, known, done, i);
    assert Moved(known, all[i], after);
    RemapKeepsDays(all, known, done, after);
    CoarsenKeepsIds(rows);
    PurgeKeepsIds(Coarsened(rows), cutoff);
    assert Ids(calls)[i] == CaseId(all[i]);
    InIdsFrom(Ids(calls), cutoff, CaseId(all[i]));
    CutsCommute(rows, cutoff);
    CoarsenedCalls(Purged(rows, cutoff));
  }
}
