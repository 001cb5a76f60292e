/** The whole draft with the caller's allergies on it (api/agent/allergies.py): no
    allergy is lost between the sentence and the kitchen, and the call goes to the team
    only when even the shortest wording is too long. */
module KitchenNotes {
  import opened Wrappers
  import opened Allergies

  // ---- Which note gets which allergy ----

  /** The allergies whose ingredient was read. */
  function Read(allergies: seq<Allergy>): (read: seq<Allergy>)
    ensures AllRead(read)
  {
    if allergies == [] then []
    else
      var a := allergies[0];
      (if a.ingredient.Some? && a.ingredient.value != "" then [a] else []) + Read(allergies[1..])
  }

  function OfDish(read: seq<Allergy>, dish: string): (own: seq<Allergy>)
    requires AllRead(read)
    ensures AllRead(own)
  {
    if read == [] then []
    else (if read[0].item == Some(dish) then [read[0]] else []) + OfDish(read[1..], dish)
  }

  /** The allergies of none of these dishes, or of no dish at all. */
  function Rest(read: seq<Allergy>, dishes: set<string>): (rest: seq<Allergy>)
    requires AllRead(read)
    ensures AllRead(rest)
  {
    if read == [] then []
    else
      (if read[0].item.Some? && read[0].item.value in dishes then [] else [read[0]]) + Rest(read[1..], dishes)
  }

  function Dishes(lines: seq<Line>): set<string> {
    if lines == [] then {}
    else
      var last := lines[|lines| - 1];
      Dishes(lines[..|lines| - 1]) + if last.Line? then {last.dish} else {}
  }

  function NotedLine(line: Line, read: seq<Allergy>, consented: bool): Line
    requires AllRead(read)
  {
    if line.NotALine? then line
    else line.(note := NotedText(line.note, OfDish(read, line.dish), consented, NOTE_MAX))
  }

  function NotedLines(lines: seq<Line>, read: seq<Allergy>, consented: bool): (noted: seq<Line>)
    requires AllRead(read)
    ensures |noted| == |lines|
    ensures forall k :: 0 <= k < |lines| ==> noted[k] == NotedLine(lines[k], read, consented)
  {
    if lines == [] then []
    else
      NotedLines(lines[..|lines| - 1], read, consented) + [NotedLine(lines[|lines| - 1], read, consented)]
  }

  function NotedCall(allergies: seq<Allergy>, consented: bool, call: Call): Call {
    var read := Read(allergies);
    if !Notable(call) || read == [] then call
    else if call.name == "create_reservation" then
      call.(note := NotedText(call.note, read, consented, RESERVATION_NOTE_MAX))
    else if call.items.NotAList? then call
    else
      call.(items := List(NotedLines(call.items.lines, read, consented)),
            note := NotedText(call.note, Rest(read, Dishes(call.items.lines)), consented, NOTE_MAX))
  }

  /** The draft as the source writes it, line after line. */
  method WriteNotes(allergies: seq<Allergy>, consented: bool, call: Call) returns (out: Call)
    ensures out == NotedCall(allergies, consented, call)
  {
    var read := Read(allergies);
    if !Notable(call) || read == [] {
      return call;
    }
    if call.name == "create_reservation" {
      return call.(note := NotedText(call.note, read, consented, RESERVATION_NOTE_MAX));
    }
    if call.items.NotAList? {
      return call;
    }
    var items, onLines: set<string>, lines := call.items.lines, {}, [];
    for k := 0 to |items|
      invariant onLines == Dishes(items[..k]) && lines == NotedLines(items[..k], read, consented)
    {
      assert items[..k + 1][..k] == items[..k];
      var item := items[k];
      if item.Line? {
        onLines := onLines + {item.dish};
        item := item.(note := NotedText(item.note, OfDish(read, item.dish), consented, NOTE_MAX));
      }
      lines := lines + [item];
    }
    assert items[..|items|] == items;
    out := call.(items := List(lines), note := NotedText(call.note, Rest(read, onLines), consented, NOTE_MAX));
  }

  lemma {:induction false} ReadHas(allergies: seq<Allergy>, a: Allergy)
    ensures a in Read(allergies) <==> a in allergies && a.ingredient.Some? && a.ingredient.value != ""
  {
    if allergies != [] {
      ReadHas(allergies[1..], a);
      assert allergies == [allergies[0]] + allergies[1..];
    }
  }

  lemma {:induction false} Divided(read: seq<Allergy>, dish: string, dishes: set<string>, a: Allergy)
    requires AllRead(read)
    ensures a in OfDish(read, dish) <==> a in read && a.item == Some(dish)
    ensures a in Rest(read, dishes) <==> a in read && !(a.item.Some? && a.item.value in dishes)
  {
    if read != [] {
      Divided(read[1..], dish, dishes, a);
      assert read == [read[0]] + read[1..];
    }
  }

  lemma {:induction false} DishesAre(lines: seq<Line>, dish: string)
    ensures dish in Dishes(lines) <==> exists k :: 0 <= k < |lines| && IsDish(lines[k], dish)
  {
    if lines != [] {
      var n := |lines| - 1;
      DishesAre(lines[..n], dish);
      if k :| 0 <= k < n && IsDish(lines[..n][k], dish) {
        assert IsDish(lines[k], dish);
      }
      if k :| 0 <= k < n && IsDish(lines[k], dish) {
        assert IsDish(lines[..n][k], dish);
      }
    }
  }

  predicate IsDish(line: Line, dish: string) {
    line.Line? && line.dish == dish
  }

  ghost predicate NoteHas(note: Value, word: string) {
    note.Text? && Contains(note.text, word)
  }

  /** What becomes of a note names the allergy, unless the note was no text. */
  ghost predicate NamedOn(was: Value, note: Value, a: Allergy)
    requires a.ingredient.Some?
  {
    was.Other? || NoteHas(note, a.ingredient.value)
  }

  predicate OnNoLine(a: Allergy, lines: seq<Line>) {
    a.item.Some? ==> forall k :: 0 <= k < |lines| ==> !IsDish(lines[k], a.item.value)
  }

  lemma {:induction false} NoteHasAllergy(note: Value, allergies: seq<Allergy>, consented: bool, limit: nat, a: Allergy)
    requires AllRead(allergies) && !note.Other? && a in allergies
    ensures a.ingredient.Some? && NoteHas(NotedText(note, allergies, consented, limit), a.ingredient.value)
  {
    var i :| 0 <= i < |allergies| && allergies[i] == a;
    NoteNamesEvery(note, allergies, consented, limit, i);
  }

  /** Main result: every allergy that was read is named on each line of its dish, and
      on the order when no line has that dish, and on a table in any case. The one way
      round it is a note that is no text, which validation refuses. */
  lemma {:induction false} EveryAllergyReachesTheKitchen(allergies: seq<Allergy>, consented: bool, call: Call,
                                                         a: Allergy)
    requires Notable(call) && (call.name == "draft_order" ==> call.items.List?)
    requires a in allergies && a.ingredient.Some? && a.ingredient.value != ""
    ensures var out := NotedCall(allergies, consented, call);
            if call.name == "create_reservation" then NamedOn(call.note, out.note, a)
            else
              && out.items.List? && |out.items.lines| == |call.items.lines|
              && (forall k :: 0 <= k < |call.items.lines| && a.item.Some?
                              && IsDish(call.items.lines[k], a.item.value) ==>
                    && out.items.lines[k].Line?
                    && NamedOn(call.items.lines[k].note, out.items.lines[k].note, a))
              && (OnNoLine(a, call.items.lines) ==> NamedOn(call.note, out.note, a))
  {
    var read := Read(allergies);
    ReadHas(allergies, a);
    if call.name == "create_reservation" {
      if !call.note.Other? {
        NoteHasAllergy(call.note, read, consented, RESERVATION_NOTE_MAX, a);
      }
    } else {
      var lines := call.items.lines;
      forall k | 0 <= k < |lines| && a.item.Some? && IsDish(lines[k], a.item.value)
        ensures NamedOn(lines[k].note, NotedLine(lines[k], read, consented).note, a)
      {
        Divided(read, lines[k].dish, {}, a);
        if !lines[k].note.Other? {
          NoteHasAllergy(lines[k].note, OfDish(read, lines[k].dish), consented, NOTE_MAX, a);
        }
      }
      if OnNoLine(a, lines) && !call.note.Other? {
        if a.item.Some? {
          DishesAre(lines, a.item.value);
        }
        Divided(read, "", Dishes(lines), a);
        NoteHasAllergy(call.note, Rest(read, Dishes(lines)), consented, NOTE_MAX, a);
      }
    }
  }

  /** The core adds nothing else: dishes, order and foreign lines stay, and so does a
      note with no allergy of its own. */
  lemma {:induction false} NothingElseChanges(allergies: seq<Allergy>, consented: bool, call: Call, k: nat)
    requires call.items.List? && k < |call.items.lines|
    ensures var out, line := NotedCall(allergies, consented, call), call.items.lines[k];
            && out.name == call.name && out.items.List? && |out.items.lines| == |call.items.lines|
            && (line.NotALine? ==> out.items.lines[k] == line)
            && (line.Line? ==> out.items.lines[k].Line? && out.items.lines[k].dish == line.dish)
            && (line.Line? && (forall a :: a in allergies ==> a.item != Some(line.dish)) ==> out.items.lines[k] == line)
  {
    var line, read := call.items.lines[k], Read(allergies);
    if line.Line? && forall a :: a in allergies ==> a.item != Some(line.dish) {
      var own := OfDish(read, line.dish);
      if own != [] {
        Divided(read, line.dish, {}, own[0]);
        ReadHas(allergies, own[0]);
      }
    }
  }

  /** An allergy whose ingredient was read. */
  predicate WasRead(allergies: seq<Allergy>, a: Allergy) {
    a in allergies && a.ingredient.Some? && a.ingredient.value != ""
  }

  /** A line gets the note for exactly the allergies that were read with its dish, in
      the wording the consent allows. */
  lemma {:induction false} LineNoteIs(allergies: seq<Allergy>, consented: bool, call: Call, k: nat)
    returns (own: seq<Allergy>)
    requires call.name == "draft_order" && call.items.List? && k < |call.items.lines| && call.items.lines[k].Line?
    ensures AllRead(own)
    ensures forall a :: a in own <==> WasRead(allergies, a) && a.item == Some(call.items.lines[k].dish)
    ensures var out, line := NotedCall(allergies, consented, call), call.items.lines[k];
            && out.items.List? && |out.items.lines| == |call.items.lines|
            && out.items.lines[k] == Line(line.dish, NotedText(line.note, own, consented, 200))
  {
    var dish := call.items.lines[k].dish;
    own := OfDish(Read(allergies), dish);
    OwnAre(allergies, dish);
    hide NotedText, WasRead;
    assert Read(allergies) == [] ==> own == [];
  }

  lemma {:induction false} OwnAre(allergies: seq<Allergy>, dish: string)
    ensures forall a :: a in OfDish(Read(allergies), dish) <==> WasRead(allergies, a) && a.item == Some(dish)
  {
    forall a ensures a in OfDish(Read(allergies), dish) <==> WasRead(allergies, a) && a.item == Some(dish) {
      ReadHas(allergies, a);
      Divided(Read(allergies), dish, {}, a);
    }
  }

  /** The order gets the one for those that no line has the dish of. */
  lemma {:induction false} OrderNoteIs(allergies: seq<Allergy>, consented: bool, call: Call)
    returns (rest: seq<Allergy>)
    requires call.name == "draft_order" && call.items.List?
    ensures AllRead(rest)
    ensures forall a :: a in rest <==> WasRead(allergies, a) && OnNoLine(a, call.items.lines)
    ensures NotedCall(allergies, consented, call).note == NotedText(call.note, rest, consented, 200)
  {
    var read, lines := Read(allergies), call.items.lines;
    rest := Rest(read, Dishes(lines));
    forall a ensures a in rest <==> WasRead(allergies, a) && OnNoLine(a, lines) {
      ReadHas(allergies, a);
      Divided(read, "", Dishes(lines), a);
      if a.item.Some? {
        DishesAre(lines, a.item.value);
      }
    }
  }

  /** A table gets the one for all of them. */
  lemma {:induction false} TableNoteIs(allergies: seq<Allergy>, consented: bool, call: Call)
    returns (read: seq<Allergy>)
    requires call.name == "create_reservation"
    ensures AllRead(read) && forall a :: a in read <==> WasRead(allergies, a)
    ensures NotedCall(allergies, consented, call) == call.(note := NotedText(call.note, read, consented, 500))
  {
    read := Read(allergies);
    forall a ensures a in read <==> WasRead(allergies, a) {
      ReadHas(allergies, a);
    }
  }

  // ---- Lengths ----

  function Size(parts: seq<Part>): nat {
    if parts == [] then 0 else Size(parts[..|parts| - 1]) + |Written(parts[|parts| - 1])| + 2
  }

  function Chars(words: seq<string>): nat {
    if words == [] then 0 else Chars(words[..|words| - 1]) + |words[|words| - 1]|
  }

  lemma {:induction false} JoinAppends(parts: seq<string>, last: string, between: string)
    requires parts != []
    ensures |Join(parts + [last], between)| == |Join(parts, between)| + |between| + |last|
  {
    if |parts| == 1 {
      assert (parts + [last])[1..] == [last];
    } else {
      JoinAppends(parts[1..], last, between);
      assert (parts + [last])[1..] == parts[1..] + [last];
    }
  }

  lemma {:induction false} JoinOne(word: string, between: string)
    ensures Join([word], between) == word
  {
  }

  lemma {:induction false} JoinLength(words: seq<string>, between: string)
    requires words != [] && |between| == 2
    ensures |Join(words, between)| == Chars(words) + 2 * (|words| - 1)
  {
    var n := |words| - 1;
    if n == 0 {
      assert words[..0] == [];
    } else {
      JoinLength(words[..n], between);
      JoinAppends(words[..n], words[n], between);
      assert words == words[..n] + [words[n]];
    }
  }

  /** The length of a note, whatever its capitals. */
  lemma {:induction false} JoinedLength(parts: seq<Part>, reasoned: bool)
    requires parts != []
    ensures |Joined(parts, reasoned)| + 2 == Size(parts)
  {
    hide Join, Written;
    var n := |parts| - 1;
    var words, last := AllWritten(parts, reasoned), Shown(parts[n], reasoned);
    if n == 0 {
      assert words == [last] && parts[..0] == [];
      JoinOne(last, if reasoned then ". " else ", ");
    } else {
      JoinedLength(parts[..n], reasoned);
      assert words == AllWritten(parts[..n], reasoned) + [last];
      JoinAppends(AllWritten(parts[..n], reasoned), last, if reasoned then ". " else ", ");
    }
  }

  /** A list costs at most two signs and a little for each of several ingredients. */
  lemma {:induction false} ListedLength(words: seq<string>)
    ensures var n := |Once(words)|;
            |Listed(words)| == Chars(Once(words)) + if n < 2 then 0 else 2 * n + 1
  {
    var said := Once(words);
    var n := |said| - 1;
    if n == 0 {
      assert said[..0] == [];
    } else if 1 <= n {
      JoinLength(said[..n], ", ");
    }
  }

  lemma {:induction false} SizeOneMore(parts: seq<Part>, last: Part)
    ensures Size(parts + [last]) == Size(parts) + |Written(last)| + 2
  {
    assert (parts + [last])[..|parts|] == parts;
  }

  lemma {:induction false} CharsOneMore(words: seq<string>, last: string)
    ensures Chars(words + [last]) == Chars(words) + |last|
  {
    assert (words + [last])[..|words|] == words;
  }

  lemma {:induction false} NoticeLength(a: Allergy, consented: bool)
    requires a.ingredient.Some?
    ensures |Written(Notice(a, consented))| == |a.ingredient.value| + if Reasoned(a, consented) then 32 else 5
  {
    ListedOne(a.ingredient.value);
  }

  /** A notice repeats one of before exactly when its ingredient does in its wording. */
  lemma {:induction false} RepeatsTogether(front: seq<Allergy>, last: Allergy, consented: bool)
    requires AllRead(front) && last.ingredient.Some?
    ensures var reasoned := Reasoned(last, consented);
            Written(Notice(last, consented)) in AllWritten(Distinct(Notices(front, consented)), false)
            <==> last.ingredient.value in Once(Ingredients(front, consented, reasoned))
  {
    hide Written, AllWritten, Distinct, Notices, Ingredients, Once;
    var reasoned, word, notice := Reasoned(last, consented), last.ingredient.value, Notice(last, consented);
    var parts := Distinct(Notices(front, consented));
    OnceKeeps(Ingredients(front, consented, reasoned), word);
    IngredientsAre(front, consented, reasoned, word);
    assert Notices(front, consented) + [] == Notices(front, consented);
    AllWrittenHas(parts, Written(notice));
    if i :| 0 <= i < |parts| && Written(parts[i]) == Written(notice) {
      var k := SameNotice(front, consented, parts[i], notice);
      assert WantedAt(front[k], consented, reasoned, word);
    }
    if k :| 0 <= k < |front| && WantedAt(front[k], consented, reasoned, word) {
      NoticeStands(front, consented, [], k);
      var i :| 0 <= i < |parts| && parts[i] == notice;
      assert Written(parts[i]) == Written(notice);
    }
  }

  lemma {:induction false} SameNotice(front: seq<Allergy>, consented: bool, part: Part, notice: Part) returns (k: nat)
    requires AllRead(front) && part in Distinct(Notices(front, consented) + [])
    requires IsNotice(notice) && Written(part) == Written(notice)
    ensures k < |front| && Notice(front[k], consented) == notice
  {
    DistinctIsPart(Notices(front, consented) + []);
    NoticesAre(front, consented);
    k := NoticeOf(front, consented, [], part);
    NoticesReadApart(part, notice);
  }

  lemma {:induction false} DistinctOneMore(parts: seq<Part>, last: Part)
    ensures Distinct(parts + [last]) ==
            Distinct(parts) + if Written(last) in AllWritten(Distinct(parts), false) then [] else [last]
    ensures Size(Distinct(parts + [last])) ==
            Size(Distinct(parts))
            + if Written(last) in AllWritten(Distinct(parts), false) then 0 else |Written(last)| + 2
  {
    assert (parts + [last])[..|parts|] == parts;
    SizeOneMore(Distinct(parts), last);
  }

  lemma {:induction false} OnceOneMore(words: seq<string>, last: string)
    ensures var n := if last in Once(words) then 0 else 1;
            && |Once(words + [last])| == |Once(words)| + n
            && Chars(Once(words + [last])) == Chars(Once(words)) + n * |last|
  {
    assert (words + [last])[..|words|] == words;
    CharsOneMore(Once(words), last);
  }

  /** What the notices take one by one. */
  lemma {:induction false} SizeOfNotices(allergies: seq<Allergy>, consented: bool)
    requires AllRead(allergies)
    ensures var r, p := Once(Ingredients(allergies, consented, true)), Once(Ingredients(allergies, consented, false));
            Size(Distinct(Notices(allergies, consented))) == 34 * |r| + Chars(r) + 7 * |p| + Chars(p)
  {
    if allergies != [] {
      var front, last := allergies[..|allergies| - 1], allergies[|allergies| - 1];
      SizeOfNotices(front, consented);
      RepeatsTogether(front, last, consented);
      NoticeLength(last, consented);
      DistinctOneMore(Notices(front, consented), Notice(last, consented));
      OnceOneMore(Ingredients(front, consented, Reasoned(last, consented)), last.ingredient.value);
      assert Ingredients(allergies, consented, !Reasoned(last, consented)) ==
             Ingredients(front, consented, !Reasoned(last, consented));
    }
  }

  /** The shared notice is the shortest wording. */
  lemma {:induction false} SharedIsShortest(allergies: seq<Allergy>, consented: bool, reasoned: bool)
    requires AllRead(allergies) && allergies != []
    ensures |Joined(Shared(allergies, consented), reasoned)| <=
            |Joined(Distinct(Notices(allergies, consented)), reasoned)|
  {
    SharedIsSmallest(allergies, consented);
    NotEmpty(allergies, consented);
    JoinedLength(Shared(allergies, consented), reasoned);
    JoinedLength(Distinct(Notices(allergies, consented)), reasoned);
  }

  lemma {:induction false} SharedIsSmallest(allergies: seq<Allergy>, consented: bool)
    requires AllRead(allergies)
    ensures Size(Shared(allergies, consented)) <= Size(Distinct(Notices(allergies, consented)))
  {
    var r, p := Ingredients(allergies, consented, true), Ingredients(allergies, consented, false);
    SizeOfNotices(allergies, consented);
    ListedCost(r);
    ListedCost(p);
    SizeOfShared(allergies, consented);
  }

  /** A list in one notice costs no more than a notice for each of its ingredients. */
  lemma {:induction false} ListedCost(words: seq<string>)
    ensures words != [] ==> |Listed(words)| + 34 <= 34 * |Once(words)| + Chars(Once(words))
    ensures words != [] ==> |Listed(words)| + 7 <= 7 * |Once(words)| + Chars(Once(words))
  {
    ListedLength(words);
    OnceNotEmpty(words);
  }

  lemma {:induction false} SizeOfShared(allergies: seq<Allergy>, consented: bool)
    requires AllRead(allergies)
    ensures var r, p := Ingredients(allergies, consented, true), Ingredients(allergies, consented, false);
            Size(Shared(allergies, consented)) ==
            (if r == [] then 0 else |Listed(r)| + 34) + if p == [] then 0 else |Listed(p)| + 7
  {
    var r, p := Ingredients(allergies, consented, true), Ingredients(allergies, consented, false);
    SizeOneMore([], Reason(r));
    SizeOneMore([], Without(p));
    SizeOneMore([Reason(r)], Without(p));
    assert [] + [Reason(r)] == [Reason(r)] && [] + [Without(p)] == [Without(p)];
    WrittenLength(r);
    WrittenLength(p);
  }

  lemma {:induction false} WrittenLength(words: seq<string>)
    ensures |Written(Reason(words))| == |Listed(words)| + 32 && |Written(Without(words))| == |Listed(words)| + 5
  {
  }

  lemma {:induction false} OnceNotEmpty(words: seq<string>)
    ensures Once(words) == [] <==> words == []
  {
    if words != [] {
      OnceKeeps(words, words[0]);
    }
  }

  lemma {:induction false} NotEmpty(allergies: seq<Allergy>, consented: bool)
    requires AllRead(allergies) && allergies != []
    ensures Shared(allergies, consented) != [] && Distinct(Notices(allergies, consented)) != []
  {
    NoticeStands(allergies, consented, [], 0);
    assert Notices(allergies, consented) + [] == Notices(allergies, consented);
  }

  /** The model's part only adds to a note. */
  lemma {:induction false} LongerWithTail(allergies: seq<Allergy>, consented: bool, reasoned: bool, tail: seq<Part>)
    requires AllRead(allergies) && allergies != [] && |tail| <= 1
    ensures var notices, shared := Notices(allergies, consented), Shared(allergies, consented);
            && |Joined(Distinct(notices), reasoned)| <= |Joined(Distinct(notices + tail), reasoned)|
            && |Joined(shared, reasoned)| <= |Joined(shared + tail, reasoned)|
  {
    var notices, shared := Notices(allergies, consented), Shared(allergies, consented);
    NotEmpty(allergies, consented);
    if tail == [] {
      assert notices + tail == notices && shared + tail == shared;
    } else {
      assert tail == [tail[0]];
      DistinctOneMore(notices, tail[0]);
      SizeOneMore(shared, tail[0]);
      JoinedLength(shared, reasoned);
      JoinedLength(shared + tail, reasoned);
      JoinedLength(Distinct(notices), reasoned);
      JoinedLength(Distinct(notices + tail), reasoned);
    }
  }

  /** The first of four lengths that fits, else the last. */
  function FirstFit(limit: nat, a: nat, b: nat, c: nat, d: nat): nat {
    if a <= limit then a else if b <= limit then b else if c <= limit then c else d
  }

  lemma {:induction false} ChosenLength(note: Value, allergies: seq<Allergy>, consented: bool, limit: nat)
    requires AllRead(allergies) && allergies != [] && !note.Other?
    ensures var notices, shared := Notices(allergies, consented), Shared(allergies, consented);
            var reasoned := AnyReason(allergies, consented);
            && NotedText(note, allergies, consented, limit).Text?
            && |NotedText(note, allergies, consented, limit).text| ==
               FirstFit(limit, |Joined(Distinct(notices + Tail(note)), reasoned)|,
                        |Joined(Distinct(notices), reasoned)|,
                        |Joined(shared + Tail(note), reasoned)|, |Joined(shared, reasoned)|)
  {
    var notices, shared := Notices(allergies, consented), Shared(allergies, consented);
    FitLength(limit, AnyReason(allergies, consented), Distinct(notices + Tail(note)), Distinct(notices),
              shared + Tail(note), shared);
  }

  lemma {:induction false} FitLength(limit: nat, reasoned: bool, a: seq<Part>, b: seq<Part>, c: seq<Part>, d: seq<Part>)
    ensures |Joined(FirstThatFits(limit, reasoned, a, b, c, d), reasoned)| ==
            FirstFit(limit, |Joined(a, reasoned)|, |Joined(b, reasoned)|, |Joined(c, reasoned)|, |Joined(d, reasoned)|)
  {
  }

  /** Main result: a note with allergies fits its field exactly when the shortest
      wording of them fits. */
  lemma {:induction false} NoteFitsIffShortestFits(note: Value, allergies: seq<Allergy>, consented: bool, limit: nat)
    requires AllRead(allergies) && allergies != [] && !note.Other?
    ensures NotedText(note, allergies, consented, limit).Text?
    ensures |NotedText(note, allergies, consented, limit).text| <= limit
            <==> |Joined(Shared(allergies, consented), AnyReason(allergies, consented))| <= limit
  {
    hide Joined, NotedText, Shared, Notices, Distinct, AnyReason;
    var reasoned := AnyReason(allergies, consented);
    SharedIsShortest(allergies, consented, reasoned);
    LongerWithTail(allergies, consented, reasoned, Tail(note));
    ChosenLength(note, allergies, consented, limit);
  }

  // ---- Whether the call may go out ----

  function NoteOf(line: Line): Value {
    if line.Line? then line.note else Missing
  }

  /** All fields a kitchen note can stand in: the one of the whole draft comes first. */
  function NotesOf(call: Call): seq<Value> {
    [call.note]
    + if call.items.List?
      then seq(|call.items.lines|, k requires 0 <= k < |call.items.lines| => NoteOf(call.items.lines[k]))
      else []
  }

  function Limit(call: Call): nat {
    if call.name == "create_reservation" then RESERVATION_NOTE_MAX else NOTE_MAX
  }

  /** Every note the core changed fits. */
  predicate Fits(call: Call, written: Call) {
    Notable(call) ==>
      forall k :: 0 <= k < |NotesOf(call)| && k < |NotesOf(written)| ==>
        NoteIsFine(NotesOf(call)[k], NotesOf(written)[k], Limit(call))
  }

  predicate NoteIsFine(note: Value, written: Value, limit: nat) {
    !note.Text? || |note.text| <= limit || note == written
  }

  /** A note is too long for its allergies: even the shortest wording of them does not
      fit, and the core had to change the note. */
  predicate TooMany(note: Value, allergies: seq<Allergy>, consented: bool, limit: nat)
    requires AllRead(allergies)
  {
    && allergies != [] && !note.Other?
    && limit < |Joined(Shared(allergies, consented), AnyReason(allergies, consented))|
    && NotedText(note, allergies, consented, limit) != note
  }

  lemma {:induction false} NoteFits(note: Value, allergies: seq<Allergy>, consented: bool, limit: nat)
    requires AllRead(allergies)
    ensures NoteIsFine(NotedText(note, allergies, consented, limit), note, limit)
            <==> !TooMany(note, allergies, consented, limit)
  {
    if allergies != [] && !note.Other? {
      NoteFitsIffShortestFits(note, allergies, consented, limit);
    }
  }

  predicate LineFits(line: Line, read: seq<Allergy>, consented: bool)
    requires AllRead(read)
  {
    line.Line? ==> !TooMany(line.note, OfDish(read, line.dish), consented, NOTE_MAX)
  }

  /** Main result: the team takes an order from the model exactly when the allergies of
      one of its notes are too many for the field. */
  lemma {:induction false} OrderFitsIff(allergies: seq<Allergy>, consented: bool, call: Call)
    requires call.name == "draft_order" && call.items.List?
    ensures var read, lines := Read(allergies), call.items.lines;
            Fits(NotedCall(allergies, consented, call), call) <==>
            && !TooMany(call.note, Rest(read, Dishes(lines)), consented, NOTE_MAX)
            && forall k :: 0 <= k < |lines| ==> LineFits(lines[k], read, consented)
  {
    hide Fits, NotedText, Joined, Shared, AnyReason;
    var read, lines := Read(allergies), call.items.lines;
    var out := NotedCall(allergies, consented, call);
    FitsByNote(out, call);
    NoteFits(call.note, Rest(read, Dishes(lines)), consented, NOTE_MAX);
    forall k | 0 <= k < |lines|
      ensures NoteIsFine(NoteOf(NotedLine(lines[k], read, consented)), NoteOf(lines[k]), NOTE_MAX)
              <==> LineFits(lines[k], read, consented)
    {
      LineIsFine(lines[k], read, consented);
    }
    NoReadNoChange(lines, consented);
  }

  /** Main result for a table: it goes to the team exactly when all allergies together
      are too many for its one field, which is shorter. */
  lemma {:induction false} TableFitsIff(allergies: seq<Allergy>, consented: bool, call: Call)
    requires call.name == "create_reservation"
    ensures Fits(NotedCall(allergies, consented, call), call) <==>
            !TooMany(call.note, Read(allergies), consented, RESERVATION_NOTE_MAX)
  {
    hide TooMany, NoteIsFine, NotedText;
    var out, read := NotedCall(allergies, consented, call), Read(allergies);
    NoteFits(call.note, read, consented, RESERVATION_NOTE_MAX);
    UnchangedIsFine(call.note, RESERVATION_NOTE_MAX);
    NothingTooMany(call.note, consented, RESERVATION_NOTE_MAX);
    assert NotesOf(out)[0] == out.note && NotesOf(call)[0] == call.note;
    forall k | 1 <= k < |NotesOf(call)| ensures NoteIsFine(NotesOf(out)[k], NotesOf(call)[k], RESERVATION_NOTE_MAX) {
      assert NotesOf(out)[k] == NotesOf(call)[k];
      UnchangedIsFine(NotesOf(call)[k], RESERVATION_NOTE_MAX);
    }
  }

  lemma {:induction false} UnchangedIsFine(note: Value, limit: nat)
    ensures NoteIsFine(note, note, limit)
  {
  }

  lemma {:induction false} NothingTooMany(note: Value, consented: bool, limit: nat)
    ensures !TooMany(note, [], consented, limit)
  {
  }

  lemma {:induction false} LineIsFine(line: Line, read: seq<Allergy>, consented: bool)
    requires AllRead(read)
    ensures NoteIsFine(NoteOf(NotedLine(line, read, consented)), NoteOf(line), NOTE_MAX) <==>
            LineFits(line, read, consented)
  {
    if line.Line? {
      NoteFits(line.note, OfDish(read, line.dish), consented, NOTE_MAX);
    }
  }

  lemma {:induction false} FitsByNote(out: Call, call: Call)
    requires out.name == call.name == "draft_order"
    requires out.items.List? && call.items.List? && |out.items.lines| == |call.items.lines|
    ensures Fits(out, call) <==>
            && NoteIsFine(out.note, call.note, NOTE_MAX)
            && forall k :: 0 <= k < |call.items.lines| ==>
                 NoteIsFine(NoteOf(out.items.lines[k]), NoteOf(call.items.lines[k]), NOTE_MAX)
  {
    NotesAre(out);
    NotesAre(call);
    if Fits(out, call) {
      forall k | 0 <= k < |call.items.lines|
        ensures NoteIsFine(NoteOf(out.items.lines[k]), NoteOf(call.items.lines[k]), NOTE_MAX)
      {
        assert NoteIsFine(NotesOf(out)[k + 1], NotesOf(call)[k + 1], NOTE_MAX);
      }
    }
  }

  lemma {:induction false} NotesAre(call: Call)
    requires call.items.List?
    ensures |NotesOf(call)| == |call.items.lines| + 1 && NotesOf(call)[0] == call.note
    ensures forall k :: 1 <= k <= |call.items.lines| ==> NotesOf(call)[k] == NoteOf(call.items.lines[k - 1])
  {
  }

  lemma {:induction false} NoReadNoChange(lines: seq<Line>, consented: bool)
    ensures forall k :: 0 <= k < |lines| ==> NotedLine(lines[k], [], consented) == lines[k]
    ensures Rest([], Dishes(lines)) == []
  {
  }
}
