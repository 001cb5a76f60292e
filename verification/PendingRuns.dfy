/** Measurements over every sequence of kits, branches, merges, fetches, prunes and
    kills (scripts/readme_assets.py): none that was taken on main is lost. */
module PendingRuns {
  import opened Wrappers
  import opened PendingRows

  /** `pending` is the waiting file beside the reports, `main` the history on GitHub,
      `fetched` what the last fetch saw of it, `branch` the history of the branch that
      is checked out; None stands for main, where nothing is recorded. */
  datatype World = World(pending: File, main: File, fetched: set<Key>, branch: Option<File>)

  /** One write of one process. A killed writer may leave any part of its line. */
  datatype Event =
    | Measure(row: Row)
    | KilledMeasure(row: Row, left: File)
    | Record(row: Row)
    | KilledRecord(row: Row, left: File)
    | Prune(swapped: bool)
    | Branch(from: File)
    | Merge(merged: File)
    | Drop
    | Fetch

  /** Every line of both sides, in any order; a line both appended may stand twice. */
  ghost predicate MergeOf(main: File, branch: File, merged: File) {
    && merged.lines != [] && merged.lines[0] == Header
    && (forall line :: line in main.lines || line in branch.lines ==> line in merged.lines)
  }

  ghost function Step(w: World, event: Event): World {
    match event
    case Measure(row) => if w.branch.None? then w.(pending := Appended(w.pending, row)) else w
    case KilledMeasure(row, left) =>
      if w.branch.None? && LeftBy(w.pending, row, left) then w.(pending := left) else w
    case Record(row) => if w.branch.Some? then w.(branch := Some(Recorded(w.branch.value, row))) else w
    case KilledRecord(row, left) =>
      if w.branch.Some? && LeftBy(w.branch.value, row, left) then w.(branch := Some(left)) else w
    case Prune(swapped) => if swapped then w.(pending := Pruned(w.pending, w.fetched)) else w
    case Branch(from) => w.(branch := Some(from))
    case Merge(merged) =>
      if w.branch.Some? && MergeOf(w.main, w.branch.value, merged) then w.(main := merged, branch := None) else w
    case Drop => w.(branch := None)
    case Fetch => w.(fetched := Keys(w.main))
  }

  ghost function After(w: World, events: seq<Event>, n: nat): World
    requires n <= |events|
  {
    if n == 0 then w else Step(After(w, events, n - 1), events[n - 1])
  }

  /** The history on main has its header, and a fetch saw no more than is there. */
  predicate Sound(w: World) {
    w.main.lines != [] && w.main.lines[0] == Header && w.fetched <= Keys(w.main)
  }

  /** The measurement waits or is on main. */
  predicate Kept(w: World, key: Key) {
    key in Keys(w.pending) || key in Keys(w.main)
  }

  lemma {:induction false} WholeIsRead(lines: seq<Line>, row: Row)
    requires Whole(row) in lines
    ensures row.key in KeysIn(RowsIn(lines))
  {
    KeysInAppends(RowOf(lines[0]), RowsIn(lines[1..]));
    if lines[0] == Whole(row) {
      OneLine(lines[0]);
    } else {
      assert lines == [lines[0]] + lines[1..];
      WholeIsRead(lines[1..], row);
    }
  }

  lemma {:induction false} ReadIsWhole(lines: seq<Line>, key: Key) returns (row: Row)
    requires key in KeysIn(RowsIn(lines))
    ensures Whole(row) in lines && row.key == key
  {
    KeysInAppends(RowOf(lines[0]), RowsIn(lines[1..]));
    OneLine(lines[0]);
    if lines[0].Whole? && lines[0].row.key == key {
      row := lines[0].row;
    } else {
      row := ReadIsWhole(lines[1..], key);
    }
  }

  lemma {:induction false} BehindTheFirst<T>(s: seq<T>, x: T)
    requires s != []
    ensures x in s <==> x == s[0] || x in s[1..]
  {
    assert s == [s[0]] + s[1..];
  }

  lemma {:induction false} LinesCarryKeys(file: File, merged: File)
    requires merged.lines != [] && merged.lines[0] == Header
    requires forall line :: line in file.lines ==> line in merged.lines
    ensures Keys(file) <= Keys(merged)
  {
    forall key | key in Keys(file) ensures key in Keys(merged) {
      var row := ReadIsWhole(file.lines[1..], key);
      BehindTheFirst(file.lines, Whole(row));
      BehindTheFirst(merged.lines, Whole(row));
      WholeIsRead(merged.lines[1..], row);
    }
  }

  /** A merge loses no measurement of either side. */
  lemma {:induction false} MergeKeepsBoth(main: File, branch: File, merged: File)
    requires MergeOf(main, branch, merged)
    ensures Keys(main) + Keys(branch) <= Keys(merged)
  {
    LinesCarryKeys(main, merged);
    LinesCarryKeys(branch, merged);
  }

  /** No event loses a measurement that is kept. */
  lemma {:induction false} StepKeeps(w: World, event: Event, key: Key)
    requires Sound(w)
    ensures Sound(Step(w, event))
    ensures Kept(w, key) ==> Kept(Step(w, event), key)
  {
    match event
    case Measure(row) => AppendedIsReadIffHeader(w.pending, row);
    case KilledMeasure(row, left) =>
      if LeftBy(w.pending, row, left) {
        KilledWriterLosesNothing(w.pending, row, left);
      }
    case Prune(_) => PrunedExactly(w.pending, w.fetched);
    case Merge(merged) =>
      if w.branch.Some? && MergeOf(w.main, w.branch.value, merged) {
        MergeKeepsBoth(w.main, w.branch.value, merged);
      }
    case _ =>
  }

  /** What is kept stays kept over every further sequence of events. */
  lemma {:induction false} StaysKept(w: World, events: seq<Event>, m: nat, n: nat, key: Key)
    requires Sound(w) && m <= n <= |events| && Kept(After(w, events, m), key)
    ensures Kept(After(w, events, n), key)
    decreases n
  {
    hide Kept, Step, Sound;
    if m < n {
      StaysKept(w, events, m, n - 1, key);
      SoundAfter(w, events, n - 1);
      StepKeeps(After(w, events, n - 1), events[n - 1], key);
    }
  }

  lemma {:induction false} MeasuredIsKept(w: World, row: Row)
    requires w.branch.None? && Readable(w.pending)
    ensures Kept(Step(w, Measure(row)), row.key)
  {
    AppendedIsReadIffHeader(w.pending, row);
  }

  /** Main result: a measurement taken on main waits or is on main after every sequence
      of events, unless the header of the waiting file was cut before it was taken. */
  lemma {:induction false} MeasurementIsNeverLost(w: World, events: seq<Event>, i: nat, n: nat)
    requires Sound(w) && i < n <= |events| && events[i].Measure?
    requires After(w, events, i).branch.None? && Readable(After(w, events, i).pending)
    ensures Sound(After(w, events, n)) && Kept(After(w, events, n), events[i].row.key)
  {
    hide Kept, Step, Sound, Readable;
    MeasuredIsKept(After(w, events, i), events[i].row);
    StaysKept(w, events, i + 1, n, events[i].row.key);
    SoundAfter(w, events, n);
  }

  lemma {:induction false} SoundAfter(w: World, events: seq<Event>, n: nat)
    requires Sound(w) && n <= |events|
    ensures Sound(After(w, events, n))
  {
    if 0 < n {
      SoundAfter(w, events, n - 1);
      StepKeeps(After(w, events, n - 1), events[n - 1], Key("", 0.0, ""));
    }
  }

  /** What is kept and not on main is listed on every branch that has not recorded it:
      a branch closed without a merge brings the row back. */
  lemma {:induction false} ListedAgain(w: World, key: Key)
    requires Kept(w, key) && w.branch.Some?
    ensures || key in Keys(w.main) || key in Keys(w.branch.value)
            || key in KeysIn(Listed(Rows(w.pending), Keys(w.branch.value)))
  {
    ListedKeys(Rows(w.pending), Keys(w.branch.value));
  }

  /** Main result of the way to main: record all that waits on a branch, merge, fetch
      and prune; then main holds every measurement and nothing waits. */
  lemma {:induction false} WaitingReachesMain(w: World, result: File)
    requires Sound(w) && w.branch.Some? && Readable(w.branch.value)
    requires MergeOf(w.main, RecordedAll(w.branch.value, Listed(Rows(w.pending), Keys(w.branch.value))), result)
    ensures var branch := RecordedAll(w.branch.value, Listed(Rows(w.pending), Keys(w.branch.value)));
            var merged := Step(Step(w.(branch := Some(branch)), Merge(result)), Fetch);
            && Keys(w.pending) <= Keys(merged.main)
            && Keys(Step(merged, Prune(true)).pending) == {}
            && Listed(Rows(w.pending), Keys(branch)) == []
  {
    var listed := Listed(Rows(w.pending), Keys(w.branch.value));
    var branch := RecordedAll(w.branch.value, listed);
    ListedKeys(Rows(w.pending), Keys(w.branch.value));
    RecordedAllHolds(w.branch.value, listed);
    MergeKeepsBoth(w.main, branch, result);
    PrunedExactly(w.pending, Keys(result));
    ListedKeys(Rows(w.pending), Keys(branch));
  }
}
