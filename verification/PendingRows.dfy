/** The files in which voice measurements wait and stay (scripts/readme_assets.py): one
    row appended, one row recorded, rows that wait listed and pruned. A file is its
    lines; a writer that is killed leaves a line that is not whole. */
module PendingRows {

  /** What makes a measurement the same one: its run, its value as a number, its other
      key fields. */
  datatype Key = Key(runAt: string, value: real, fields: string)

  datatype Row = Row(key: Key, text: string)

  /** Junk is what does not parse: a line cut off, a hand edit, a header cut off. */
  datatype Line = Header | Whole(row: Row) | Junk(text: string)

  /** No file and an empty one are the same to every reader. `ended` says that the
      last line has its line break. */
  datatype File = File(lines: seq<Line>, ended: bool)

  const NoFile := File([], true)

  function RowOf(line: Line): seq<Row> {
    if line.Whole? then [line.row] else []
  }

  function RowsIn(lines: seq<Line>): seq<Row> {
    if lines == [] then [] else RowOf(lines[0]) + RowsIn(lines[1..])
  }

  /** What a reader sees. Under a broken header no line has its fields. */
  function Rows(file: File): seq<Row> {
    if file.lines == [] || file.lines[0] != Header then [] else RowsIn(file.lines[1..])
  }

  function KeysIn(rows: seq<Row>): set<Key> {
    if rows == [] then {} else {rows[0].key} + KeysIn(rows[1..])
  }

  function Keys(file: File): set<Key> {
    KeysIn(Rows(file))
  }

  /** Rows can be added so that a reader sees them. */
  predicate Readable(file: File) {
    file.lines == [] || file.lines[0] == Header
  }

  // ---- Appending ----

  function Appended(file: File, row: Row): File {
    if file.lines == [] then File([Header, Whole(row)], true) else File(file.lines + [Whole(row)], true)
  }

  /** What a writer may leave that is killed while it appends: a part of what it
      writes, the last line of it perhaps cut. */
  ghost predicate LeftBy(file: File, row: Row, left: File) {
    var front := if file.lines == [] then [Header] else file.lines;
    || left == file
    || (left.lines == front && left.ended)
    || (file.lines == [] && !left.ended && |left.lines| == 1 && (left.lines[0].Junk? || left.lines[0] == Header))
    || (!left.ended && |left.lines| == |front| + 1 && left.lines[..|front|] == front
        && (left.lines[|front|].Junk? || left.lines[|front|] == Whole(row)))
    || left == Appended(file, row)
  }

  /** A file on disk. `states` is what it held after every write. */
  class CsvFile {
    var file: File
    ghost var states: seq<File>

    constructor ()
      ensures file == NoFile && states == []
    {
      file, states := NoFile, [];
    }

    method Write(lines: seq<Line>, ended: bool)
      modifies this
      ensures file == File(old(file).lines + lines, ended)
      ensures states == old(states) + [file]
    {
      file := File(file.lines + lines, ended);
      states := states + [file];
    }

    /** A new file gets its header first, a cut line its line break. */
    method AppendRow(row: Row)
      modifies this
      ensures file == Appended(old(file), row)
      ensures |old(states)| <= |states|
      ensures forall i :: |old(states)| <= i < |states| ==> LeftBy(old(file), row, states[i])
    {
      var blank := file.lines == [];
      var cut := !blank && !file.ended;
      if blank {
        Write([Header], true);
        assert file.lines == [Header];
      } else if cut {
        Write([], true);
        assert file.lines == old(file).lines + [] == old(file).lines;
      }
      Write([Whole(row)], true);
      assert [] + [Header] == [Header] && [Header] + [Whole(row)] == [Header, Whole(row)];
    }

    /** One measurement into the history; a second time it adds none. */
    method RecordVoice(row: Row) returns (added: bool)
      modifies this
      ensures file == Recorded(old(file), row)
      ensures added <==> row.key !in Keys(old(file))
    {
      added := row.key !in Keys(file);
      if added {
        AppendRow(row);
      }
    }

    /** All waiting rows into the history: behind a whole header it holds them and what it
        held before, and nothing else. */
    method RecordAll(rows: seq<Row>)
      modifies this
      ensures file == RecordedAll(old(file), rows)
      ensures Readable(old(file)) ==> Readable(file) && Keys(file) == Keys(old(file)) + KeysIn(rows)
    {
      ghost var was := file;
      for i := 0 to |rows|
        invariant file == RecordedAll(old(file), rows[..i])
      {
        assert rows[..i + 1][..i] == rows[..i];
        var added := RecordVoice(rows[i]);
      }
      assert rows[..|rows|] == rows;
      if Readable(was) {
        RecordedAllHolds(was, rows);
      }
    }
  }

  function Recorded(file: File, row: Row): File {
    if row.key in Keys(file) then file else Appended(file, row)
  }

  function RecordedAll(file: File, rows: seq<Row>): File {
    if rows == [] then file else Recorded(RecordedAll(file, rows[..|rows| - 1]), rows[|rows| - 1])
  }

  lemma {:induction false} Assoc<T>(a: seq<T>, b: seq<T>, c: seq<T>)
    ensures (a + b) + c == a + (b + c)
  {
  }

  lemma {:induction false} RowsInAppends(lines: seq<Line>, more: seq<Line>)
    ensures RowsIn(lines + more) == RowsIn(lines) + RowsIn(more)
  {
    if lines == [] {
      assert lines + more == more;
    } else {
      RowsInAppends(lines[1..], more);
      assert (lines + more)[1..] == lines[1..] + more && (lines + more)[0] == lines[0];
      Assoc(RowOf(lines[0]), RowsIn(lines[1..]), RowsIn(more));
    }
  }

  lemma {:induction false} KeysInAppends(rows: seq<Row>, more: seq<Row>)
    ensures KeysIn(rows + more) == KeysIn(rows) + KeysIn(more)
  {
    if rows == [] {
      assert rows + more == more;
    } else {
      KeysInAppends(rows[1..], more);
      assert (rows + more)[1..] == rows[1..] + more;
    }
  }

  lemma {:induction false} OneLineMore(file: File, line: Line, ended: bool)
    requires file.lines != []
    ensures Keys(File(file.lines + [line], ended)) ==
            Keys(file) + if line.Whole? && file.lines[0] == Header then {line.row.key} else {}
  {
    assert (file.lines + [line])[1..] == file.lines[1..] + [line];
    RowsInAppends(file.lines[1..], [line]);
    assert [line][1..] == [];
    KeysInAppends(RowsIn(file.lines[1..]), RowsIn([line]));
    if line.Whole? {
      assert RowsIn([line]) == [line.row] && [line.row][1..] == [];
    }
  }

  /** An appended row can be read exactly when the header was whole. */
  lemma {:induction false} AppendedIsReadIffHeader(file: File, row: Row)
    ensures Keys(file) <= Keys(Appended(file, row)) <= Keys(file) + {row.key}
    ensures row.key in Keys(Appended(file, row)) <==> Readable(file) || row.key in Keys(file)
  {
    if file.lines == [] {
      OneLineMore(File([Header], true), Whole(row), true);
      assert [Header] + [Whole(row)] == [Header, Whole(row)] && [Header][1..] == [];
    } else {
      OneLineMore(file, Whole(row), true);
    }
  }

  /** A killed writer loses no row. */
  lemma {:induction false} KilledWriterLosesNothing(file: File, row: Row, left: File)
    requires LeftBy(file, row, left)
    ensures Keys(file) <= Keys(left)
  {
    AppendedIsReadIffHeader(file, row);
    if file.lines != [] && |left.lines| == |file.lines| + 1 {
      assert left.lines == left.lines[..|file.lines|] + [left.lines[|file.lines|]];
      if left.lines[..|file.lines|] == file.lines {
        OneLineMore(file, left.lines[|file.lines|], left.ended);
      }
    }
  }

  /** How many rows of a file are the same measurement. */
  function Copies(rows: seq<Row>, key: Key): nat {
    if rows == [] then 0 else (if rows[0].key == key then 1 else 0) + Copies(rows[1..], key)
  }

  lemma {:induction false} CopiesAppend(rows: seq<Row>, last: Row, key: Key)
    ensures Copies(rows + [last], key) == Copies(rows, key) + if last.key == key then 1 else 0
    ensures key in KeysIn(rows) <==> 0 < Copies(rows, key)
  {
    if rows == [] {
      assert [last][1..] == [] && rows + [last] == [last];
    } else {
      CopiesAppend(rows[1..], last, key);
      assert (rows + [last])[1..] == rows[1..] + [last];
    }
  }

  /** Main result: a row recorded is there, as one row if it was not there before, and
      recording the same measurement again changes nothing. */
  lemma {:induction false} RecordedOnce(file: File, row: Row, again: Row)
    requires Readable(file) && again.key == row.key
    ensures Readable(Recorded(file, row)) && row.key in Keys(Recorded(file, row))
    ensures Copies(Rows(Recorded(file, row)), row.key) ==
            if Copies(Rows(file), row.key) == 0 then 1 else Copies(Rows(file), row.key)
    ensures forall key :: key != row.key ==> Copies(Rows(Recorded(file, row)), key) == Copies(Rows(file), key)
    ensures Recorded(Recorded(file, row), again) == Recorded(file, row)
  {
    AppendedIsReadIffHeader(file, row);
    forall key
      ensures Copies(Rows(Appended(file, row)), key) == Copies(Rows(file), key) + if row.key == key then 1 else 0
    {
      CopiesAppend(Rows(file), row, key);
      RowsOfAppended(file, row);
    }
    CopiesAppend(Rows(file), row, row.key);
  }

  lemma {:induction false} RowsOfAppended(file: File, row: Row)
    requires Readable(file)
    ensures Rows(Appended(file, row)) == Rows(file) + [row]
  {
    if file.lines == [] {
      assert [Header, Whole(row)][1..] == [Whole(row)];
      assert RowsIn([Whole(row)]) == [row] by { assert [Whole(row)][1..] == []; }
    } else {
      assert (file.lines + [Whole(row)])[1..] == file.lines[1..] + [Whole(row)];
      RowsInAppends(file.lines[1..], [Whole(row)]);
      assert [Whole(row)][1..] == [];
    }
  }

  lemma {:induction false} LastKey(rows: seq<Row>)
    requires rows != []
    ensures KeysIn(rows) == KeysIn(rows[..|rows| - 1]) + {rows[|rows| - 1].key}
  {
    var front, last := rows[..|rows| - 1], rows[|rows| - 1];
    assert rows == front + [last] && [last][1..] == [];
    KeysInAppends(front, [last]);
  }

  lemma {:induction false} RecordedAllHolds(file: File, rows: seq<Row>)
    requires Readable(file)
    ensures Readable(RecordedAll(file, rows))
    ensures Keys(RecordedAll(file, rows)) == Keys(file) + KeysIn(rows)
  {
    if rows != [] {
      var front, last := rows[..|rows| - 1], rows[|rows| - 1];
      RecordedAllHolds(file, front);
      AppendedIsReadIffHeader(RecordedAll(file, front), last);
      LastKey(rows);
    }
  }

  // ---- Repeats ----

  /** Rows in file order, of each measurement only the first. */
  function UniqueRows(rows: seq<Row>): seq<Row> {
    if rows == [] then []
    else
      var front, last := UniqueRows(rows[..|rows| - 1]), rows[|rows| - 1];
      if last.key in KeysIn(rows[..|rows| - 1]) then front else front + [last]
  }

  method Unique(rows: seq<Row>) returns (out: seq<Row>)
    ensures out == UniqueRows(rows)
  {
    var seen: set<Key> := {};
    out := [];
    for i := 0 to |rows|
      invariant seen == KeysIn(rows[..i]) && out == UniqueRows(rows[..i])
    {
      assert rows[..i + 1] == rows[..i] + [rows[i]] && rows[..i + 1][..i] == rows[..i];
      KeysInAppends(rows[..i], [rows[i]]);
      assert [rows[i]][1..] == [];
      if rows[i].key !in seen {
        seen := seen + {rows[i].key};
        out := out + [rows[i]];
      }
    }
    assert rows[..|rows|] == rows;
  }

  /** Every measurement once, none lost. */
  lemma {:induction false} UniqueKeepsOne(rows: seq<Row>, key: Key)
    ensures Copies(UniqueRows(rows), key) == if key in KeysIn(rows) then 1 else 0
    ensures forall r :: r in UniqueRows(rows) ==> r in rows
  {
    if rows != [] {
      var front, last := rows[..|rows| - 1], rows[|rows| - 1];
      UniqueKeepsOne(front, key);
      assert rows == front + [last];
      KeysInAppends(front, [last]);
      assert [last][1..] == [];
      CopiesAppend(UniqueRows(front), last, key);
    }
  }

  // ---- Waiting ----

  /** The waiting rows that a history does not hold, each once. */
  function Listed(rows: seq<Row>, history: set<Key>): seq<Row> {
    if rows == [] then []
    else
      var front, last := rows[..|rows| - 1], rows[|rows| - 1];
      Listed(front, history) + if last.key in history || last.key in KeysIn(front) then [] else [last]
  }

  method Pending(waiting: File, history: File) returns (rows: seq<Row>)
    ensures rows == Listed(Rows(waiting), Keys(history))
  {
    var all, seen := Rows(waiting), Keys(history);
    rows := [];
    for i := 0 to |all|
      invariant seen == Keys(history) + KeysIn(all[..i]) && rows == Listed(all[..i], Keys(history))
    {
      assert all[..i + 1] == all[..i] + [all[i]] && all[..i + 1][..i] == all[..i];
      KeysInAppends(all[..i], [all[i]]);
      assert [all[i]][1..] == [];
      if all[i].key !in seen {
        seen := seen + {all[i].key};
        rows := rows + [all[i]];
      }
    }
    assert all[..|all|] == all;
  }

  /** Listed is exactly what waits and is not recorded. */
  lemma {:induction false} ListedKeys(rows: seq<Row>, history: set<Key>)
    ensures KeysIn(Listed(rows, history)) == KeysIn(rows) - history
  {
    if rows != [] {
      var front, last := rows[..|rows| - 1], rows[|rows| - 1];
      ListedKeys(front, history);
      assert rows == front + [last];
      KeysInAppends(front, [last]);
      KeysInAppends(Listed(front, history), [last]);
      assert [last][1..] == [];
      if last.key in history || last.key in KeysIn(front) {
        assert Listed(rows, history) == Listed(front, history);
      }
    }
  }

  /** The lines that stay: every one but a whole row that is merged. */
  function Staying(lines: seq<Line>, merged: set<Key>): seq<Line> {
    if lines == [] then []
    else (if lines[0].Whole? && lines[0].row.key in merged then [] else [lines[0]]) + Staying(lines[1..], merged)
  }

  /** The waiting file without the rows that are merged. */
  function Pruned(file: File, merged: set<Key>): File {
    if merged == {} || file.lines == [] || file.lines[0] != Header then file
    else
      var keep := Staying(file.lines[1..], merged);
      if |keep| == |file.lines| - 1 then file
      else if keep == [] then NoFile
      else File([Header] + keep, true)
  }

  lemma {:induction false} StayingLines(lines: seq<Line>, merged: set<Key>)
    ensures |Staying(lines, merged)| <= |lines|
    ensures |Staying(lines, merged)| == |lines| ==> Staying(lines, merged) == lines
    ensures forall line :: line in lines && !line.Whole? ==> line in Staying(lines, merged)
  {
    if lines != [] {
      StayingLines(lines[1..], merged);
      assert lines == [lines[0]] + lines[1..];
    }
  }

  lemma {:induction false} StayingRows(lines: seq<Line>, merged: set<Key>)
    ensures KeysIn(RowsIn(Staying(lines, merged))) == KeysIn(RowsIn(lines)) - merged
  {
    if lines != [] {
      var rest := Staying(lines[1..], merged);
      StayingRows(lines[1..], merged);
      KeysInAppends(RowOf(lines[0]), RowsIn(lines[1..]));
      KeysInAppends(RowOf(lines[0]), RowsIn(rest));
      RowsInAppends([lines[0]], rest);
      OneLine(lines[0]);
      if lines[0].Whole? && lines[0].row.key in merged {
        assert Staying(lines, merged) == rest;
      } else {
        assert Staying(lines, merged) == [lines[0]] + rest;
      }
    }
  }

  lemma {:induction false} OneLine(line: Line)
    ensures RowsIn([line]) == RowOf(line)
    ensures KeysIn(RowOf(line)) == if line.Whole? then {line.row.key} else {}
  {
    assert [line][1..] == [];
    if line.Whole? {
      assert [line.row][1..] == [];
    }
  }

  /** Main result: pruning takes out the merged rows, all of them, and nothing else; a
      line that does not parse stays for a person to look at. */
  lemma {:induction false} PrunedExactly(file: File, merged: set<Key>)
    ensures Keys(Pruned(file, merged)) == Keys(file) - merged
    ensures forall line :: line in file.lines && line.Junk? ==> line in Pruned(file, merged).lines
    ensures Readable(file) ==> Readable(Pruned(file, merged))
  {
    if file.lines != [] && file.lines[0] == Header {
      StayingRows(file.lines[1..], merged);
      StayingLines(file.lines[1..], merged);
      assert file.lines == [Header] + file.lines[1..];
      assert ([Header] + Staying(file.lines[1..], merged))[1..] == Staying(file.lines[1..], merged);
    }
  }
}
