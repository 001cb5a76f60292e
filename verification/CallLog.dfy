/** The call log and the IDs of its rows (scripts/call_log.py): the numbering of a file,
    the two cuts that rewrite it, and the directory that follows an ID to its new form.
    A digest is its key: the two kinds of ID never meet. */
module CallLog {
  import opened Wrappers

  /** What a row says: when the call was, and everything else of it. */
  datatype Call = Call(day: int, hour: nat, minute: Option<nat>, body: string)

  /** A line of the file. Lines without text are no calls. */
  datatype Row = Empty(cells: string) | Filled(call: Call)

  datatype Numbered = Numbered(call: Call, ordinal: nat, minuteOrdinal: Option<nat>)

  datatype Id = HourId(day: int, hour: nat, ordinal: nat) | MinuteId(day: int, hour: nat, minute: nat, ordinal: nat)

  // ---- Numbering ----

  predicate InHour(call: Call, day: int, hour: nat) {
    call.day == day && call.hour == hour
  }

  predicate InMinute(call: Call, day: int, hour: nat, minute: nat) {
    InHour(call, day, hour) && call.minute == Some(minute)
  }

  /** The calls of one hour. */
  function Count(calls: seq<Call>, day: int, hour: nat): nat {
    if calls == [] then 0
    else Count(calls[..|calls| - 1], day, hour) + if InHour(calls[|calls| - 1], day, hour) then 1 else 0
  }

  /** The different contents of one minute, in order of appearance. */
  function Bodies(calls: seq<Call>, day: int, hour: nat, minute: nat): seq<string> {
    if calls == [] then []
    else
      var before, last := Bodies(calls[..|calls| - 1], day, hour, minute), calls[|calls| - 1];
      if InMinute(last, day, hour, minute) && last.body !in before then before + [last.body] else before
  }

  function IndexOf(bodies: seq<string>, body: string): (k: nat)
    requires body in bodies
    ensures k < |bodies| && bodies[k] == body
    ensures forall j :: 0 <= j < k ==> bodies[j] != body
  {
    if bodies[0] == body then 0 else 1 + IndexOf(bodies[1..], body)
  }

  lemma {:induction false} OwnBody(calls: seq<Call>, i: nat)
    requires i < |calls| && calls[i].minute.Some?
    ensures calls[i].body in Bodies(calls[..i + 1], calls[i].day, calls[i].hour, calls[i].minute.value)
  {
    assert calls[..i + 1][..i] == calls[..i];
  }

  /** The numbers of one call: its place in its hour and the place of its content in
      its minute. */
  function Number(calls: seq<Call>, i: nat): Numbered
    requires i < |calls|
  {
    var c := calls[i];
    Numbered(c, Count(calls[..i], c.day, c.hour),
             if c.minute.None? then None
             else
               OwnBody(calls, i);
               Some(IndexOf(Bodies(calls[..i + 1], c.day, c.hour, c.minute.value), c.body)))
  }

  function NumberAll(calls: seq<Call>): (all: seq<Numbered>)
    ensures |all| == |calls|
    ensures forall i :: 0 <= i < |calls| ==> all[i] == Number(calls, i)
  {
    seq(|calls|, i requires 0 <= i < |calls| => Number(calls, i))
  }

  ghost predicate HoursHold(hours: map<(int, nat), nat>, calls: seq<Call>) {
    forall day: int, hour: nat ::
      Count(calls, day, hour) == if (day, hour) in hours then hours[(day, hour)] else 0
  }

  ghost predicate MinutesHold(minutes: map<(int, nat, nat), seq<string>>, calls: seq<Call>) {
    forall day: int, hour: nat, minute: nat ::
      Bodies(calls, day, hour, minute) == if (day, hour, minute) in minutes then minutes[(day, hour, minute)] else []
  }

  lemma {:induction false} OneMoreInHour(hours: map<(int, nat), nat>, calls: seq<Call>, c: Call)
    requires HoursHold(hours, calls)
    ensures HoursHold(hours[(c.day, c.hour) := Count(calls, c.day, c.hour) + 1], calls + [c])
  {
    assert (calls + [c])[..|calls|] == calls;
  }

  lemma {:induction false} OneMoreInMinute(minutes: map<(int, nat, nat), seq<string>>, calls: seq<Call>, c: Call)
    requires MinutesHold(minutes, calls)
    ensures c.minute.None? ==> MinutesHold(minutes, calls + [c])
    ensures c.minute.Some? ==>
              var m := c.minute.value;
              MinutesHold(minutes[(c.day, c.hour, m) := Bodies(calls + [c], c.day, c.hour, m)], calls + [c])
  {
    assert (calls + [c])[..|calls|] == calls;
  }

  /** What the tables say of the next call. */
  lemma {:induction false} BodiesWithOne(minutes: map<(int, nat, nat), seq<string>>, calls: seq<Call>, c: Call)
    requires MinutesHold(minutes, calls) && c.minute.Some?
    ensures var key := (c.day, c.hour, c.minute.value);
            var bodies := if key in minutes then minutes[key] else [];
            && Bodies(calls + [c], c.day, c.hour, c.minute.value) ==
               (if c.body in bodies then bodies else bodies + [c.body])
            && c.body in Bodies(calls + [c], c.day, c.hour, c.minute.value)
  {
    assert (calls + [c])[..|calls|] == calls;
  }

  lemma {:induction false} CountSoFar(hours: map<(int, nat), nat>, calls: seq<Call>, c: Call)
    requires HoursHold(hours, calls)
    ensures Count(calls, c.day, c.hour) == if (c.day, c.hour) in hours then hours[(c.day, c.hour)] else 0
  {
  }

  lemma {:induction false} NoCallsYet()
    ensures HoursHold(map[], []) && MinutesHold(map[], [])
  {
  }

  method WithOrdinals(calls: seq<Call>) returns (out: seq<Numbered>)
    ensures out == NumberAll(calls)
  {
    hide HoursHold, MinutesHold, Bodies, Count, IndexOf;
    NoCallsYet();
    var hours: map<(int, nat), nat> := map[];
    var minutes: map<(int, nat, nat), seq<string>> := map[];
    out := [];
    assert calls[..0] == [];
    for i := 0 to |calls|
      invariant |out| == i && forall k :: 0 <= k < i ==> out[k] == Number(calls, k)
      invariant HoursHold(hours, calls[..i]) && MinutesHold(minutes, calls[..i])
    {
      var c := calls[i];
      assert calls[..i + 1] == calls[..i] + [c] && calls[..i + 1][..i] == calls[..i];
      OneMoreInMinute(minutes, calls[..i], c);
      var minuteOrdinal: Option<nat> := None;
      if c.minute.Some? {
        var key := (c.day, c.hour, c.minute.value);
        var bodies := if key in minutes then minutes[key] else [];
        if c.body !in bodies {
          bodies := bodies + [c.body];
        }
        BodiesWithOne(minutes, calls[..i], c);
        minutes := minutes[key := bodies];
        minuteOrdinal := Some(IndexOf(bodies, c.body));
      }
      var hour := (c.day, c.hour);
      var n := if hour in hours then hours[hour] else 0;
      CountSoFar(hours, calls[..i], c);
      OneMoreInHour(hours, calls[..i], c);
      out := out + [Numbered(c, n, minuteOrdinal)];
      hours := hours[hour := n + 1];
    }
  }

  function CaseId(n: Numbered): Id {
    HourId(n.call.day, n.call.hour, n.ordinal)
  }

  /** The ID of before the cut to the hour; a row without its minute has none. */
  function OldId(n: Numbered): Option<Id> {
    if n.call.minute.None? || n.minuteOrdinal.None? then None
    else Some(MinuteId(n.call.day, n.call.hour, n.call.minute.value, n.minuteOrdinal.value))
  }

  lemma {:induction false} CountGrows(calls: seq<Call>, i: nat, j: nat, day: int, hour: nat)
    requires i <= j <= |calls|
    ensures Count(calls[..i], day, hour) <= Count(calls[..j], day, hour)
    ensures i < j && InHour(calls[i], day, hour) ==> Count(calls[..i], day, hour) < Count(calls[..j], day, hour)
    decreases j
  {
    if i < j {
      CountGrows(calls, i, j - 1, day, hour);
      assert calls[..j][..j - 1] == calls[..j - 1];
    }
  }

  /** Main result: no two rows share an ID. */
  lemma {:induction false} CaseIdsDiffer(calls: seq<Call>, i: nat, j: nat)
    requires i < j < |calls|
    ensures CaseId(NumberAll(calls)[i]) != CaseId(NumberAll(calls)[j])
  {
    CountGrows(calls, i, j, calls[i].day, calls[i].hour);
  }

  /** The calls of an hour are numbered 0 to n - 1. */
  lemma {:induction false} HourIsNumberedThrough(calls: seq<Call>, day: int, hour: nat, k: nat)
    ensures k < Count(calls, day, hour) <==>
            exists i :: 0 <= i < |calls| && CaseId(NumberAll(calls)[i]) == HourId(day, hour, k)
  {
    if k < Count(calls, day, hour) {
      var i := PlaceOf(calls, day, hour, k);
      assert CaseId(NumberAll(calls)[i]) == HourId(day, hour, k);
    }
    forall i | 0 <= i < |calls| && CaseId(NumberAll(calls)[i]) == HourId(day, hour, k)
      ensures k < Count(calls, day, hour)
    {
      assert calls[..|calls|] == calls;
      CountGrows(calls, i, |calls|, day, hour);
    }
  }

  lemma {:induction false} PlaceOf(calls: seq<Call>, day: int, hour: nat, k: nat) returns (i: nat)
    requires k < Count(calls, day, hour)
    ensures i < |calls| && InHour(calls[i], day, hour) && Count(calls[..i], day, hour) == k
  {
    var n := |calls| - 1;
    if Count(calls[..n], day, hour) == k {
      i := n;
    } else {
      i := PlaceOf(calls[..n], day, hour, k);
      assert calls[..n][..i] == calls[..i];
    }
  }

  lemma {:induction false} BodiesGrow(calls: seq<Call>, i: nat, j: nat, day: int, hour: nat, minute: nat)
    requires i <= j <= |calls|
    ensures Bodies(calls[..i], day, hour, minute) <= Bodies(calls[..j], day, hour, minute)
    decreases j
  {
    if i < j {
      BodiesGrow(calls, i, j - 1, day, hour, minute);
      assert calls[..j][..j - 1] == calls[..j - 1];
    }
  }

  lemma {:induction false} IndexInPrefix(first: seq<string>, all: seq<string>, body: string)
    requires first <= all && body in first
    ensures IndexOf(all, body) == IndexOf(first, body)
  {
    if first[0] != body {
      IndexInPrefix(first[1..], all[1..], body);
    }
  }

  /** Two rows share their old ID exactly when they have the same minute and the same
      content. */
  lemma {:induction false} OldIdsShared(calls: seq<Call>, i: nat, j: nat)
    requires i < j < |calls| && calls[i].minute.Some?
    ensures OldId(NumberAll(calls)[i]) == OldId(NumberAll(calls)[j]) <==> calls[i] == calls[j]
  {
    var c, d := calls[i], calls[j];
    if d.minute == c.minute && InHour(d, c.day, c.hour) {
      var m := c.minute.value;
      BodiesGrow(calls, i + 1, j + 1, c.day, c.hour, m);
      OwnBody(calls, i);
      OwnBody(calls, j);
      var first, all := Bodies(calls[..i + 1], c.day, c.hour, m), Bodies(calls[..j + 1], c.day, c.hour, m);
      IndexInPrefix(first, all, c.body);
      assert NumberAll(calls)[i] == Number(calls, i) && NumberAll(calls)[j] == Number(calls, j);
    }
  }

  // ---- The two cuts ----

  function Calls(rows: seq<Row>): seq<Call> {
    if rows == [] then []
    else Calls(rows[..|rows| - 1]) + if rows[|rows| - 1].Filled? then [rows[|rows| - 1].call] else []
  }

  /** Minutes are cut down to their hour; nothing else changes. */
  function Coarse(row: Row): Row {
    if row.Empty? then row else Filled(row.call.(minute := None))
  }

  function Coarsened(rows: seq<Row>): seq<Row> {
    if rows == [] then [] else Coarsened(rows[..|rows| - 1]) + [Coarse(rows[|rows| - 1])]
  }

  method Coarsen(rows: seq<Row>) returns (out: seq<Row>)
    ensures out == Coarsened(rows)
  {
    out := rows;
    for i := 0 to |rows|
      invariant |out| == |rows| && out[..i] == Coarsened(rows[..i]) && out[i..] == rows[i..]
    {
      assert out[i] == out[i..][0] == rows[i];
      assert rows[..i + 1][..i] == rows[..i];
      if out[i].Filled? {
        out := out[i := Filled(out[i].call.(minute := None))];
      }
      assert out[..i + 1] == out[..i] + [out[i]];
    }
    assert out[..|rows|] == out && rows[..|rows|] == rows;
  }

  /** The file without blank lines and without calls before `cutoff`. */
  function Purged(rows: seq<Row>, cutoff: int): seq<Row> {
    if rows == [] then []
    else
      var last := rows[|rows| - 1];
      Purged(rows[..|rows| - 1], cutoff) + if last.Filled? && cutoff <= last.call.day then [last] else []
  }

  /** The cut to the hour keeps every line, and of a call all but its minute. */
  lemma {:induction false} CoarsenedAt(rows: seq<Row>)
    ensures |Coarsened(rows)| == |rows|
    ensures forall i :: 0 <= i < |rows| ==>
              match rows[i]
              case Empty(_) => Coarsened(rows)[i] == rows[i]
              case Filled(c) => Coarsened(rows)[i] == Filled(Call(c.day, c.hour, None, c.body))
  {
    if rows != [] {
      CoarsenedAt(rows[..|rows| - 1]);
    }
  }

  predicate Stays(row: Row, cutoff: int) {
    row.Filled? && row.call.day >= cutoff
  }

  /** These places hold the calls of the first n lines that are not before the deadline. */
  predicate StayAt(rows: seq<Row>, n: nat, cutoff: int, at: seq<nat>) {
    && n <= |rows| && (forall i, j :: 0 <= i < j < |at| ==> at[i] < at[j])
    && (forall i :: 0 <= i < |at| ==> at[i] < n && Stays(rows[at[i]], cutoff))
    && (forall k :: 0 <= k < n && Stays(rows[k], cutoff) ==> k in at)
  }

  /** The lines at these places. */
  predicate LinesAt(lines: seq<Row>, rows: seq<Row>, at: seq<nat>) {
    |lines| == |at| && forall i :: 0 <= i < |at| ==> at[i] < |rows| && lines[i] == rows[at[i]]
  }

  lemma {:induction false} PurgedSoFar(rows: seq<Row>, n: nat, cutoff: int) returns (at: seq<nat>)
    requires n <= |rows|
    ensures StayAt(rows, n, cutoff, at) && LinesAt(Purged(rows[..n], cutoff), rows, at)
  {
    if n == 0 {
      at := [];
    } else {
      var front := PurgedSoFar(rows, n - 1, cutoff);
      assert rows[..n] == rows[..n - 1] + [rows[n - 1]];
      PurgedOneMore(rows[..n - 1], rows[n - 1], cutoff);
      at := front + if Stays(rows[n - 1], cutoff) then [n - 1] else [];
      OneMoreStays(rows, n - 1, cutoff, front, at, Purged(rows[..n - 1], cutoff));
    }
  }

  lemma {:induction false} OneMoreStays(rows: seq<Row>, n: nat, cutoff: int, front: seq<nat>, at: seq<nat>,
                                        lines: seq<Row>)
    requires n < |rows| && StayAt(rows, n, cutoff, front) && LinesAt(lines, rows, front)
    requires at == front + if Stays(rows[n], cutoff) then [n] else []
    ensures StayAt(rows, n + 1, cutoff, at)
    ensures LinesAt(lines + if Stays(rows[n], cutoff) then [rows[n]] else [], rows, at)
  {
    hide Stays;
  }

  /** The purge keeps exactly the calls that are not before the deadline, in order. */
  lemma {:induction false} PurgedAt(rows: seq<Row>, cutoff: int) returns (at: seq<nat>)
    ensures StayAt(rows, |rows|, cutoff, at) && LinesAt(Purged(rows, cutoff), rows, at)
  {
    at := PurgedSoFar(rows, |rows|, cutoff);
    assert rows[..|rows|] == rows;
  }

  lemma {:induction false} CoarsenedTwice(rows: seq<Row>)
    ensures Coarsened(Coarsened(rows)) == Coarsened(rows)
  {
    if rows != [] {
      var front := Coarsened(rows[..|rows| - 1]);
      CoarsenedTwice(rows[..|rows| - 1]);
      assert Coarsened(rows)[..|front|] == front;
    }
  }

  lemma {:induction false} PurgedOneMore(rows: seq<Row>, last: Row, cutoff: int)
    ensures Purged(rows + [last], cutoff) ==
            Purged(rows, cutoff) + if last.Filled? && cutoff <= last.call.day then [last] else []
  {
    assert (rows + [last])[..|rows|] == rows;
  }

  /** Only the later of two deadlines counts, so the same one twice changes nothing. */
  lemma {:induction false} PurgedTwice(rows: seq<Row>, a: int, b: int)
    ensures Purged(Purged(rows, a), b) == Purged(rows, if a < b then b else a)
  {
    if rows != [] {
      var front, last := Purged(rows[..|rows| - 1], a), rows[|rows| - 1];
      PurgedTwice(rows[..|rows| - 1], a, b);
      if last.Filled? && a <= last.call.day {
        PurgedOneMore(front, last, b);
      } else {
        assert Purged(rows, a) == front;
      }
    }
  }

  /** The order of the two cuts does not matter. */
  lemma {:induction false} CutsCommute(rows: seq<Row>, cutoff: int)
    ensures Purged(Coarsened(rows), cutoff) == Coarsened(Purged(rows, cutoff))
  {
    if rows != [] {
      var n := |rows| - 1;
      CutsCommute(rows[..n], cutoff);
      PurgedOneMore(Coarsened(rows[..n]), Coarse(rows[n]), cutoff);
      var front := Purged(rows[..n], cutoff);
      if rows[n].Filled? && cutoff <= rows[n].call.day {
        assert (front + [rows[n]])[..|front|] == front;
      } else {
        assert Purged(rows, cutoff) == front;
      }
    }
  }

  function Ids(calls: seq<Call>): seq<Id> {
    seq(|calls|, i requires 0 <= i < |calls| => CaseId(NumberAll(calls)[i]))
  }

  /** The IDs of calls that are not before `cutoff`, in order. */
  function IdsFrom(ids: seq<Id>, cutoff: int): seq<Id> {
    if ids == [] then []
    else
      var last := ids[|ids| - 1];
      IdsFrom(ids[..|ids| - 1], cutoff) + if cutoff <= last.day then [last] else []
  }

  function CallsFrom(calls: seq<Call>, cutoff: int): seq<Call> {
    if calls == [] then []
    else
      var last := calls[|calls| - 1];
      CallsFrom(calls[..|calls| - 1], cutoff) + if cutoff <= last.day then [last] else []
  }

  lemma {:induction false} CallsOneMore(rows: seq<Row>, last: Row)
    ensures Calls(rows + [last]) == Calls(rows) + if last.Filled? then [last.call] else []
  {
    assert (rows + [last])[..|rows|] == rows;
  }

  lemma {:induction false} CallsFromOneMore(calls: seq<Call>, last: Call, cutoff: int)
    ensures CallsFrom(calls + [last], cutoff) == CallsFrom(calls, cutoff) + if cutoff <= last.day then [last] else []
  {
    assert (calls + [last])[..|calls|] == calls;
  }

  lemma {:induction false} PurgedCalls(rows: seq<Row>, cutoff: int)
    ensures Calls(Purged(rows, cutoff)) == CallsFrom(Calls(rows), cutoff)
  {
    if rows != [] {
      var n := |rows| - 1;
      PurgedCalls(rows[..n], cutoff);
      if rows[n].Filled? {
        CallsFromOneMore(Calls(rows[..n]), rows[n].call, cutoff);
        if cutoff <= rows[n].call.day {
          CallsOneMore(Purged(rows[..n], cutoff), rows[n]);
        } else {
          assert Purged(rows, cutoff) == Purged(rows[..n], cutoff);
        }
      } else {
        assert Purged(rows, cutoff) == Purged(rows[..n], cutoff);
        assert Calls(rows) == Calls(rows[..n]);
      }
    }
  }

  lemma {:induction false} IdsOneMore(calls: seq<Call>, last: Call)
    ensures Ids(calls + [last]) == Ids(calls) + [HourId(last.day, last.hour, Count(calls, last.day, last.hour))]
  {
    var more := calls + [last];
    assert more[..|calls|] == calls;
    forall i | 0 <= i < |calls| ensures Ids(more)[i] == Ids(calls)[i] {
      assert more[..i] == calls[..i];
    }
  }

  lemma {:induction false} IdsFromOneMore(ids: seq<Id>, last: Id, cutoff: int)
    ensures IdsFrom(ids + [last], cutoff) == IdsFrom(ids, cutoff) + if cutoff <= last.day then [last] else []
  {
    assert (ids + [last])[..|ids|] == ids;
  }

  lemma {:induction false} LaterDaysKeepTheirCount(calls: seq<Call>, cutoff: int, day: int, hour: nat)
    requires cutoff <= day
    ensures Count(CallsFrom(calls, cutoff), day, hour) == Count(calls, day, hour)
  {
    if calls != [] {
      var n := |calls| - 1;
      LaterDaysKeepTheirCount(calls[..n], cutoff, day, hour);
      var front := CallsFrom(calls[..n], cutoff);
      if cutoff <= calls[n].day {
        assert (front + [calls[n]])[..|front|] == front;
      } else {
        assert CallsFrom(calls, cutoff) == front;
      }
    }
  }

  lemma {:induction false} IdsOfLaterCalls(calls: seq<Call>, cutoff: int)
    ensures Ids(CallsFrom(calls, cutoff)) == IdsFrom(Ids(calls), cutoff)
  {
    if calls != [] {
      var n := |calls| - 1;
      var last := calls[n];
      IdsOfLaterCalls(calls[..n], cutoff);
      var id := HourId(last.day, last.hour, Count(calls[..n], last.day, last.hour));
      assert Ids(calls) == Ids(calls[..n]) + [id] by {
        assert calls == calls[..n] + [last];
        IdsOneMore(calls[..n], last);
      }
      IdsFromOneMore(Ids(calls[..n]), id, cutoff);
      if cutoff <= last.day {
        IdsOneMore(CallsFrom(calls[..n], cutoff), last);
        LaterDaysKeepTheirCount(calls[..n], cutoff, last.day, last.hour);
      } else {
        assert CallsFrom(calls, cutoff) == CallsFrom(calls[..n], cutoff);
      }
    }
  }

  /** Main result: numbering the purged file gives every remaining call the ID it had. */
  lemma {:induction false} PurgeKeepsIds(rows: seq<Row>, cutoff: int)
    ensures Ids(Calls(Purged(rows, cutoff))) == IdsFrom(Ids(Calls(rows)), cutoff)
  {
    PurgedCalls(rows, cutoff);
    IdsOfLaterCalls(Calls(rows), cutoff);
  }

  lemma {:induction false} CoarsenedCalls(rows: seq<Row>)
    ensures |Calls(Coarsened(rows))| == |Calls(rows)|
    ensures forall i :: 0 <= i < |Calls(rows)| ==> Calls(Coarsened(rows))[i] == Calls(rows)[i].(minute := None)
  {
    if rows != [] {
      var n := |rows| - 1;
      var front, cut := Calls(rows[..n]), Calls(Coarsened(rows[..n]));
      CoarsenedCalls(rows[..n]);
      CallsOneMore(Coarsened(rows[..n]), Coarse(rows[n]));
      if rows[n].Filled? {
        assert Calls(rows) == front + [rows[n].call];
        assert Calls(Coarsened(rows)) == cut + [rows[n].call.(minute := None)];
      } else {
        assert Calls(rows) == front && Calls(Coarsened(rows)) == cut;
      }
    }
  }

  lemma {:induction false} SameCount(a: seq<Call>, b: seq<Call>, day: int, hour: nat)
    requires |a| == |b| && forall i :: 0 <= i < |a| ==> b[i] == a[i].(minute := None)
    ensures Count(a, day, hour) == Count(b, day, hour)
  {
    if a != [] {
      SameCount(a[..|a| - 1], b[..|b| - 1], day, hour);
    }
  }

  /** Main result: the cut to the hour leaves every call its ID. */
  lemma {:induction false} CoarsenKeepsIds(rows: seq<Row>)
    ensures Ids(Calls(Coarsened(rows))) == Ids(Calls(rows))
  {
    var a, b := Calls(rows), Calls(Coarsened(rows));
    CoarsenedCalls(rows);
    forall i | 0 <= i < |a| ensures Ids(a)[i] == Ids(b)[i] {
      SameCount(a[..i], b[..i], a[i].day, a[i].hour);
    }
  }
}
