/** How the core writes the caller's allergies onto a draft (api/agent/allergies.py):
    onto the line of each dish, the rest onto the order or the table, in every length
    the field allows. Reading them out of a sentence is not part of this model. */
module Allergies {
  import opened Wrappers

  const NOTE_MAX: nat := 200
  const RESERVATION_NOTE_MAX: nat := 500

  /** `item` is the dish the allergy was said with; `own` says it is the caller's. */
  datatype Allergy = Allergy(ingredient: Option<string>, own: bool, item: Option<string>)

  /** An argument as the model sent it. None and a missing field are the same. */
  datatype Value = Missing | Text(text: string) | Other(code: int)

  /** A line of the order; `dish` is its item number written as text. */
  datatype Line = NotALine(code: int) | Line(dish: string, note: Value)

  datatype Lines = NotAList(code: int) | List(lines: seq<Line>)

  datatype Call = Call(name: string, note: Value, items: Lines)

  /** A part of a note. */
  datatype Part = Reason(ingredients: seq<string>) | Without(ingredients: seq<string>) | Said(text: string)

  predicate Notable(call: Call) {
    call.name == "draft_order" || call.name == "create_reservation"
  }

  // ---- Text ----

  predicate IsSpace(c: char) {
    c in {' ', '\n', '\t', '\r'}
  }

  function StripLeft(s: string): string {
    if s != "" && IsSpace(s[0]) then StripLeft(s[1..]) else s
  }

  function StripRight(s: string): string {
    if s != "" && IsSpace(s[|s| - 1]) then StripRight(s[..|s| - 1]) else s
  }

  function Strip(s: string): string {
    StripRight(StripLeft(s))
  }

  function FirstUp(s: string): (up: string)
    ensures |up| == |s| && (s != "" ==> up[1..] == s[1..])
  {
    if s != "" && 'a' <= s[0] <= 'z' then [(s[0] as int - 32) as char] + s[1..] else s
  }

  function Join(parts: seq<string>, between: string): string {
    if parts == [] then "" else if |parts| == 1 then parts[0] else parts[0] + between + Join(parts[1..], between)
  }

  /** Without repeats, in order of first appearance. */
  function Once(said: seq<string>): seq<string> {
    if said == [] then []
    else
      var front, last := Once(said[..|said| - 1]), said[|said| - 1];
      if last in front then front else front + [last]
  }

  /** "Erdnuss, Sesam und Senf". */
  function Listed(ingredients: seq<string>): string {
    var said := Once(ingredients);
    if |said| < 2 then Join(said, "") else Join(said[..|said| - 1], ", ") + " und " + said[|said| - 1]
  }

  function Written(part: Part): string {
    match part
    case Reason(ingredients) => "WICHTIG: Keine " + Listed(ingredients) + ". Grund: Allergie"
    case Without(ingredients) => "ohne " + Listed(ingredients)
    case Said(text) => text
  }

  /** Of parts that read the same only the first. */
  function Distinct(parts: seq<Part>): seq<Part> {
    if parts == [] then []
    else
      var front, last := Distinct(parts[..|parts| - 1]), parts[|parts| - 1];
      if Written(last) in AllWritten(front, false) then front else front + [last]
  }

  function AllWritten(parts: seq<Part>, up: bool): seq<string> {
    seq(|parts|, i requires 0 <= i < |parts| => Shown(parts[i], up))
  }

  function Shown(part: Part, up: bool): string {
    if up then FirstUp(Written(part)) else Written(part)
  }

  /** Sentences when a reason is among them, else a list. */
  function Joined(parts: seq<Part>, reasoned: bool): string {
    Join(AllWritten(parts, reasoned), if reasoned then ". " else ", ")
  }

  // ---- One note ----

  predicate Reasoned(a: Allergy, consented: bool) {
    a.own && consented
  }

  predicate AnyReason(allergies: seq<Allergy>, consented: bool) {
    exists i :: 0 <= i < |allergies| && Reasoned(allergies[i], consented)
  }

  /** The notice of one allergy. */
  function Notice(a: Allergy, consented: bool): Part
    requires a.ingredient.Some?
  {
    if Reasoned(a, consented) then Reason([a.ingredient.value]) else Without([a.ingredient.value])
  }

  function Notices(allergies: seq<Allergy>, consented: bool): seq<Part>
    requires AllRead(allergies)
  {
    if allergies == [] then []
    else Notices(allergies[..|allergies| - 1], consented) + [Notice(allergies[|allergies| - 1], consented)]
  }

  /** The ingredients that are noted with the reason, or those without. */
  function Ingredients(allergies: seq<Allergy>, consented: bool, reasoned: bool): seq<string>
    requires AllRead(allergies)
  {
    if allergies == [] then []
    else
      var last := allergies[|allergies| - 1];
      Ingredients(allergies[..|allergies| - 1], consented, reasoned)
      + if Reasoned(last, consented) == reasoned then [last.ingredient.value] else []
  }

  predicate AllRead(allergies: seq<Allergy>) {
    forall i :: 0 <= i < |allergies| ==> allergies[i].ingredient.Some? && allergies[i].ingredient.value != ""
  }

  function Shared(allergies: seq<Allergy>, consented: bool): seq<Part>
    requires AllRead(allergies)
  {
    var reasons, plain := Ingredients(allergies, consented, true), Ingredients(allergies, consented, false);
    (if reasons == [] then [] else [Reason(reasons)]) + if plain == [] then [] else [Without(plain)]
  }

  /** The model's part of the note. */
  function Tail(note: Value): (tail: seq<Part>)
    requires !note.Other?
    ensures forall i :: 0 <= i < |tail| ==> tail[i].Said?
  {
    var said := if note.Text? then Strip(note.text) else "";
    if said == "" then [] else [Said(said)]
  }

  /** The parts of a note: as long as the field allows. */
  function Parts(note: Value, allergies: seq<Allergy>, consented: bool, limit: nat): seq<Part>
    requires AllRead(allergies) && !note.Other?
  {
    var reasoned := AnyReason(allergies, consented);
    var tail := Tail(note);
    var notices, shared := Notices(allergies, consented), Shared(allergies, consented);
    FirstThatFits(limit, reasoned, Distinct(notices + tail), Distinct(notices), shared + tail, shared)
  }

  function FirstThatFits(limit: nat, reasoned: bool, a: seq<Part>, b: seq<Part>, c: seq<Part>,
                         d: seq<Part>): seq<Part> {
    if |Joined(a, reasoned)| <= limit then a
    else if |Joined(b, reasoned)| <= limit then b
    else if |Joined(c, reasoned)| <= limit then c
    else d
  }

  function NotedText(note: Value, allergies: seq<Allergy>, consented: bool, limit: nat): Value
    requires AllRead(allergies)
  {
    if allergies == [] || note.Other? then note
    else Text(Joined(Parts(note, allergies, consented, limit), AnyReason(allergies, consented)))
  }

  predicate At(text: string, word: string, at: nat) {
    at + |word| <= |text| && text[at..at + |word|] == word
  }

  ghost predicate Contains(text: string, word: string) {
    exists at: nat :: At(text, word, at)
  }

  lemma {:induction false} ContainsMore(text: string, word: string, front: string, back: string)
    requires Contains(text, word)
    ensures Contains(front + text + back, word)
  {
    var at: nat :| At(text, word, at);
    assert (front + text + back)[|front| + at..|front| + at + |word|] == text[at..at + |word|];
    assert At(front + text + back, word, |front| + at);
  }

  lemma {:induction false} JoinContains(parts: seq<string>, between: string, i: nat, word: string)
    requires i < |parts| && Contains(parts[i], word)
    ensures Contains(Join(parts, between), word)
  {
    if |parts| == 1 {
    } else if i == 0 {
      var rest := between + Join(parts[1..], between);
      ContainsMore(parts[0], word, "", rest);
      assert "" + parts[0] + rest == Join(parts, between);
    } else {
      JoinContains(parts[1..], between, i - 1, word);
      var rest := Join(parts[1..], between);
      ContainsMore(rest, word, parts[0] + between, "");
      assert parts[0] + between + rest + "" == Join(parts, between);
    }
  }

  lemma {:induction false} OnceKeeps(said: seq<string>, word: string)
    ensures word in Once(said) <==> word in said
  {
    if said != [] {
      OnceKeeps(said[..|said| - 1], word);
      assert said == said[..|said| - 1] + [said[|said| - 1]];
    }
  }

  lemma {:induction false} Itself(word: string)
    ensures Contains(word, word)
  {
    assert At(word, word, 0);
  }

  lemma {:induction false} LastWord(front: string, word: string)
    ensures Contains(front + word, word)
  {
    assert At(front + word, word, |front|);
  }

  lemma {:induction false} FirstWords(text: string, word: string, between: string, back: string)
    requires Contains(text, word)
    ensures Contains(text + between + back, word)
  {
    ContainsMore(text, word, "", between + back);
    assert "" + text + (between + back) == text + between + back;
  }

  /** A list names each of its ingredients. */
  lemma {:induction false} ListedNames(ingredients: seq<string>, word: string)
    requires word in ingredients
    ensures Contains(Listed(ingredients), word)
  {
    var said := Once(ingredients);
    OnceKeeps(ingredients, word);
    var i :| 0 <= i < |said| && said[i] == word;
    Itself(word);
    var n := |said| - 1;
    if |said| < 2 {
      JoinContains(said, "", i, word);
    } else if i == n {
      var front := Join(said[..n], ", ") + " und ";
      LastWord(front, word);
    } else {
      JoinContains(said[..n], ", ", i, word);
      FirstWords(Join(said[..n], ", "), word, " und ", said[n]);
    }
  }

  lemma {:induction false} CapitalKeeps(front: string, text: string, back: string, word: string)
    requires front != "" && Contains(text, word)
    ensures Contains(FirstUp(front + text + back), word)
  {
    var all := front + text + back;
    var first := FirstUp(all)[..1];
    assert FirstUp(all) == first + all[1..];
    hide FirstUp, Contains;
    assert all[1..] == front[1..] + text + back;
    assert first + all[1..] == first + front[1..] + text + back;
    ContainsMore(text, word, first + front[1..], back);
  }

  /** A part names what it lists, also with a capital in front. */
  lemma {:induction false} PartNames(part: Part, word: string, up: bool)
    requires !part.Said? && word in part.ingredients
    ensures Contains(Shown(part, up), word)
  {
    ListedNames(part.ingredients, word);
    hide Contains, Listed, FirstUp;
    var list := Listed(part.ingredients);
    var front := if part.Reason? then "WICHTIG: Keine " else "ohne ";
    var back := if part.Reason? then ". Grund: Allergie" else "";
    assert Written(part) == front + list + back;
    if up {
      CapitalKeeps(front, list, back, word);
    } else {
      ContainsMore(list, word, front, back);
    }
  }

  lemma {:induction false} JoinedNames(parts: seq<Part>, reasoned: bool, i: nat, word: string)
    requires i < |parts| && !parts[i].Said? && word in parts[i].ingredients
    ensures Contains(Joined(parts, reasoned), word)
  {
    assert AllWritten(parts, reasoned)[i] == Shown(parts[i], reasoned);
    PartNames(parts[i], word, reasoned);
    JoinContains(AllWritten(parts, reasoned), if reasoned then ". " else ", ", i, word);
  }

  // ---- What every note says ----

  predicate IsNotice(part: Part) {
    !part.Said? && |part.ingredients| == 1
  }

  lemma {:induction false} ListedOne(word: string)
    ensures Listed([word]) == word
  {
    assert [word][..0] == [] && Once([]) == [];
    assert Once([word]) == [word];
  }

  /** Notices of one ingredient each read the same only if they are the same. */
  lemma {:induction false} NoticesReadApart(p: Part, q: Part)
    requires IsNotice(p) && IsNotice(q) && Written(p) == Written(q)
    ensures p == q
  {
    var a, b := p.ingredients[0], q.ingredients[0];
    assert p.ingredients == [a] && q.ingredients == [b];
    ListedOne(a);
    ListedOne(b);
    var front, back := "WICHTIG: Keine ", ". Grund: Allergie";
    assert Written(p)[0] == if p.Reason? then 'W' else 'o';
    assert Written(q)[0] == if q.Reason? then 'W' else 'o';
    if p.Reason? {
      assert (front + a + back)[|front|..|front| + |a|] == a;
      assert (front + b + back)[|front|..|front| + |b|] == b;
    } else {
      assert ("ohne " + a)[5..] == a && ("ohne " + b)[5..] == b;
    }
  }

  lemma {:induction false} AllWrittenHas(parts: seq<Part>, text: string)
    ensures text in AllWritten(parts, false) <==> exists i :: 0 <= i < |parts| && Written(parts[i]) == text
  {
    if i :| 0 <= i < |parts| && Written(parts[i]) == text {
      assert AllWritten(parts, false)[i] == text;
    }
    if text in AllWritten(parts, false) {
      var i :| 0 <= i < |parts| && AllWritten(parts, false)[i] == text;
      assert Written(parts[i]) == text;
    }
  }

  /** A notice in front of all that may read the same is kept. */
  lemma {:induction false} DistinctKeeps(notices: seq<Part>, tail: seq<Part>, part: Part)
    requires forall i :: 0 <= i < |notices| ==> IsNotice(notices[i])
    requires part in notices
    ensures part in Distinct(notices + tail)
    decreases |notices| + |tail|
  {
    hide Written, AllWritten;
    var all := notices + tail;
    var front, last := all[..|all| - 1], all[|all| - 1];
    assert part in Distinct(front) ==> part in Distinct(all);
    hide Distinct;
    if tail != [] {
      assert front == notices + tail[..|tail| - 1];
      DistinctKeeps(notices, tail[..|tail| - 1], part);
    } else {
      var n := |notices| - 1;
      assert all == notices && front == notices[..n] && notices == notices[..n] + [last];
      if part in notices[..n] {
        assert front == notices[..n] + [];
        DistinctKeeps(notices[..n], [], part);
      } else {
        assert part == last && all == front + [last];
        NewNoticeStands(front, last);
      }
    }
  }

  /** A notice that none before it equals is kept. */
  lemma {:induction false} NewNoticeStands(front: seq<Part>, last: Part)
    requires IsNotice(last) && last !in front && forall i :: 0 <= i < |front| ==> IsNotice(front[i])
    ensures last in Distinct(front + [last])
  {
    assert (front + [last])[..|front|] == front;
    AllWrittenHas(Distinct(front), Written(last));
    if i :| 0 <= i < |Distinct(front)| && Written(Distinct(front)[i]) == Written(last) {
      DistinctIsPart(front);
      assert Distinct(front)[i] in front;
      NoticesReadApart(Distinct(front)[i], last);
    }
  }

  lemma {:induction false} DistinctIsPart(parts: seq<Part>)
    ensures forall part :: part in Distinct(parts) ==> part in parts
  {
    if parts != [] {
      DistinctIsPart(parts[..|parts| - 1]);
    }
  }

  lemma {:induction false} NoticesAre(allergies: seq<Allergy>, consented: bool)
    requires AllRead(allergies)
    ensures |Notices(allergies, consented)| == |allergies|
    ensures forall i :: 0 <= i < |allergies| ==> Notices(allergies, consented)[i] == Notice(allergies[i], consented)
  {
    if allergies != [] {
      NoticesAre(allergies[..|allergies| - 1], consented);
    }
  }

  lemma {:induction false} IngredientsAre(allergies: seq<Allergy>, consented: bool, reasoned: bool, word: string)
    requires AllRead(allergies)
    ensures word in Ingredients(allergies, consented, reasoned) <==> Wanted(allergies, consented, reasoned, word)
  {
    if allergies != [] {
      var n := |allergies| - 1;
      IngredientsAre(allergies[..n], consented, reasoned, word);
      WantedOneMore(allergies, consented, reasoned, word);
    }
  }

  lemma {:induction false} WantedOneMore(allergies: seq<Allergy>, consented: bool, reasoned: bool, word: string)
    requires AllRead(allergies) && allergies != []
    ensures Wanted(allergies, consented, reasoned, word) <==>
            || Wanted(allergies[..|allergies| - 1], consented, reasoned, word)
            || WantedAt(allergies[|allergies| - 1], consented, reasoned, word)
  {
    var n := |allergies| - 1;
    if i :| 0 <= i < n && WantedAt(allergies[..n][i], consented, reasoned, word) {
      assert WantedAt(allergies[i], consented, reasoned, word);
    }
    if i :| 0 <= i < n && WantedAt(allergies[i], consented, reasoned, word) {
      assert WantedAt(allergies[..n][i], consented, reasoned, word);
    }
  }

  /** Some allergy has this ingredient, and is noted with its reason or without. */
  predicate Wanted(allergies: seq<Allergy>, consented: bool, reasoned: bool, word: string)
    requires AllRead(allergies)
  {
    exists i :: 0 <= i < |allergies| && WantedAt(allergies[i], consented, reasoned, word)
  }

  predicate WantedAt(a: Allergy, consented: bool, reasoned: bool, word: string) {
    a.ingredient == Some(word) && Reasoned(a, consented) == reasoned
  }

  /** A part names this ingredient in this wording. */
  predicate Says(parts: seq<Part>, reasoned: bool, word: string) {
    exists j :: 0 <= j < |parts| && SaysIt(parts[j], reasoned, word)
  }

  predicate SaysIt(part: Part, reasoned: bool, word: string) {
    !part.Said? && word in part.ingredients && part.Reason? == reasoned
  }

  lemma {:induction false} NoticesSay(allergies: seq<Allergy>, consented: bool, tail: seq<Part>, reasoned: bool,
                                      word: string)
    requires AllRead(allergies) && forall i :: 0 <= i < |tail| ==> tail[i].Said?
    ensures Says(Distinct(Notices(allergies, consented) + tail), reasoned, word)
            <==> Wanted(allergies, consented, reasoned, word)
  {
    var parts := Distinct(Notices(allergies, consented) + tail);
    if i :| 0 <= i < |allergies| && WantedAt(allergies[i], consented, reasoned, word) {
      var part := Notice(allergies[i], consented);
      NoticeStands(allergies, consented, tail, i);
      var j :| 0 <= j < |parts| && parts[j] == part;
      assert SaysIt(parts[j], reasoned, word);
    }
    if j :| 0 <= j < |parts| && SaysIt(parts[j], reasoned, word) {
      var i := NoticeOf(allergies, consented, tail, parts[j]);
      assert WantedAt(allergies[i], consented, reasoned, word);
    }
  }

  lemma {:induction false} NoticeStands(allergies: seq<Allergy>, consented: bool, tail: seq<Part>, i: nat)
    requires AllRead(allergies) && i < |allergies|
    ensures Notice(allergies[i], consented) in Distinct(Notices(allergies, consented) + tail)
  {
    NoticesAre(allergies, consented);
    assert Notices(allergies, consented)[i] == Notice(allergies[i], consented);
    DistinctKeeps(Notices(allergies, consented), tail, Notice(allergies[i], consented));
  }

  lemma {:induction false} NoticeOf(allergies: seq<Allergy>, consented: bool, tail: seq<Part>, part: Part)
    returns (i: nat)
    requires AllRead(allergies) && forall k :: 0 <= k < |tail| ==> tail[k].Said?
    requires !part.Said? && part in Distinct(Notices(allergies, consented) + tail)
    ensures i < |allergies| && part == Notice(allergies[i], consented)
  {
    var notices := Notices(allergies, consented);
    NoticesAre(allergies, consented);
    DistinctIsPart(notices + tail);
    assert part in notices + tail && part !in tail;
    i :| i < |notices| && notices[i] == part;
  }

  lemma {:induction false} SharedSays(allergies: seq<Allergy>, consented: bool, tail: seq<Part>, reasoned: bool,
                                      word: string)
    requires AllRead(allergies) && forall i :: 0 <= i < |tail| ==> tail[i].Said?
    ensures Says(Shared(allergies, consented) + tail, reasoned, word) <==> Wanted(allergies, consented, reasoned, word)
  {
    IngredientsAre(allergies, consented, reasoned, word);
    var shared := Shared(allergies, consented);
    if word in Ingredients(allergies, consented, reasoned) {
      var j := if reasoned then 0 else |shared| - 1;
      assert SaysIt((shared + tail)[j], reasoned, word);
    }
  }

  /** The four lengths are two forms, each with the model's part or without it. */
  lemma {:induction false} Form(note: Value, allergies: seq<Allergy>, consented: bool, limit: nat)
    returns (shared: bool, tail: seq<Part>)
    requires AllRead(allergies) && !note.Other?
    ensures tail == Tail(note) || tail == []
    ensures Parts(note, allergies, consented, limit) ==
            if shared then Shared(allergies, consented) + tail else Distinct(Notices(allergies, consented) + tail)
  {
    hide Distinct, Notices, Shared, Tail, Joined;
    var parts := Parts(note, allergies, consented, limit);
    var long, short := Distinct(Notices(allergies, consented) + Tail(note)), Distinct(Notices(allergies, consented));
    shared := parts != long && parts != short;
    tail := if parts == long || (shared && parts == Shared(allergies, consented) + Tail(note)) then Tail(note) else [];
    assert Notices(allergies, consented) + [] == Notices(allergies, consented);
    assert Shared(allergies, consented) + [] == Shared(allergies, consented);
  }

  /** In every length the note says what is wanted, in the wording that is wanted. */
  lemma {:induction false} NoteSaysWanted(note: Value, allergies: seq<Allergy>, consented: bool, limit: nat,
                                           reasoned: bool, word: string)
    requires AllRead(allergies) && !note.Other?
    ensures Says(Parts(note, allergies, consented, limit), reasoned, word) <==>
            Wanted(allergies, consented, reasoned, word)
  {
    var shared, tail := Form(note, allergies, consented, limit);
    if shared {
      SharedSays(allergies, consented, tail, reasoned, word);
    } else {
      NoticesSay(allergies, consented, tail, reasoned, word);
    }
  }

  /** Main result: whatever the field allows, the note names with the reason exactly
      the caller's own allergies, and only after a yes, and without it exactly the
      allergies of others and, without a yes, the caller's own as well. */
  lemma {:induction false} NoteSaysExactly(note: Value, allergies: seq<Allergy>, consented: bool, limit: nat,
                                           word: string)
    requires AllRead(allergies) && !note.Other?
    ensures Says(Parts(note, allergies, consented, limit), true, word) <==>
              consented && exists i :: 0 <= i < |allergies| && allergies[i].own && allergies[i].ingredient == Some(word)
    ensures Says(Parts(note, allergies, consented, limit), false, word) <==>
              exists i :: 0 <= i < |allergies| && !(allergies[i].own && consented)
                          && allergies[i].ingredient == Some(word)
  {
    var parts := Parts(note, allergies, consented, limit);
    NoteSaysWanted(note, allergies, consented, limit, true, word);
    NoteSaysWanted(note, allergies, consented, limit, false, word);
    hide Parts, Says;
    assert forall i :: 0 <= i < |allergies| ==>
      (WantedAt(allergies[i], consented, true, word) <==>
        consented && allergies[i].own && allergies[i].ingredient == Some(word));
    assert forall i :: 0 <= i < |allergies| ==>
      (WantedAt(allergies[i], consented, false, word) <==>
        !(allergies[i].own && consented) && allergies[i].ingredient == Some(word));
  }

  lemma {:induction false} SharedNameSome(allergies: seq<Allergy>, consented: bool)
    requires AllRead(allergies)
    ensures forall part :: part in Shared(allergies, consented) ==> !part.Said? && part.ingredients != []
  {}

  lemma {:induction false} NoticeNamesSome(allergies: seq<Allergy>, consented: bool, tail: seq<Part>, part: Part)
    requires AllRead(allergies) && forall k :: 0 <= k < |tail| ==> tail[k].Said?
    requires !part.Said? && part in Distinct(Notices(allergies, consented) + tail)
    ensures part.ingredients != []
  {
    hide Distinct, Notices;
    var i := NoticeOf(allergies, consented, tail, part);
  }

  lemma {:induction false} PartsNameSome(note: Value, allergies: seq<Allergy>, consented: bool, limit: nat, part: Part)
    requires AllRead(allergies) && !note.Other? && part in Parts(note, allergies, consented, limit)
    ensures !part.Said? ==> part.ingredients != []
  {
    hide Parts, Distinct, Notices, Shared;
    var shared, tail := Form(note, allergies, consented, limit);
    if !part.Said? {
      if shared {
        SharedNameSome(allergies, consented);
        assert part in Shared(allergies, consented) || part in tail;
      } else {
        NoticeNamesSome(allergies, consented, tail, part);
      }
    }
  }

  /** Without the caller's yes no part of the note gives a reason; with it, one does
      exactly when an allergy is the caller's own. */
  lemma {:induction false} ReasonNeedsAYes(note: Value, allergies: seq<Allergy>, consented: bool, limit: nat)
    requires AllRead(allergies) && !note.Other?
    ensures (exists j :: 0 <= j < |Parts(note, allergies, consented, limit)|
                         && Parts(note, allergies, consented, limit)[j].Reason?)
            <==> consented && exists i :: 0 <= i < |allergies| && allergies[i].own
  {
    var parts := Parts(note, allergies, consented, limit);
    if j :| 0 <= j < |parts| && parts[j].Reason? {
      PartsNameSome(note, allergies, consented, limit, parts[j]);
      var word := parts[j].ingredients[0];
      assert SaysIt(parts[j], true, word);
      NoteSaysExactly(note, allergies, consented, limit, word);
    }
    if i :| 0 <= i < |allergies| && allergies[i].own && consented {
      var word := allergies[i].ingredient.value;
      assert allergies[i].ingredient == Some(word);
      NoteSaysExactly(note, allergies, consented, limit, word);
      var j :| 0 <= j < |parts| && SaysIt(parts[j], true, word);
    }
  }

  /** And the text has every ingredient in it. */
  lemma {:induction false} NoteNamesEvery(note: Value, allergies: seq<Allergy>, consented: bool, limit: nat, i: nat)
    requires AllRead(allergies) && !note.Other? && i < |allergies|
    ensures NotedText(note, allergies, consented, limit).Text?
    ensures Contains(NotedText(note, allergies, consented, limit).text, allergies[i].ingredient.value)
  {
    var word := allergies[i].ingredient.value;
    var parts := Parts(note, allergies, consented, limit);
    var reasoned := Reasoned(allergies[i], consented);
    NoteSaysWanted(note, allergies, consented, limit, reasoned, word);
    assert WantedAt(allergies[i], consented, reasoned, word);
    var j :| 0 <= j < |parts| && SaysIt(parts[j], reasoned, word);
    JoinedNames(parts, AnyReason(allergies, consented), j, word);
  }

  // ---- The wording ----

  lemma {:induction false} OnePart(part: Part)
    ensures Distinct([part]) == [part] && Distinct([]) == []
  {
    assert [part][..0] == [];
    assert Distinct([]) == [] && AllWritten([], false) == [];
  }

  lemma {:induction false} TwoParts(p: Part, q: Part)
    requires Written(p) != Written(q)
    ensures Distinct([p, q]) == [p, q]
  {
    OnePart(p);
    assert [p, q][..1] == [p];
    assert AllWritten([p], false) == [Written(p)];
  }

  lemma {:induction false} TwoShown(p: Part, q: Part)
    ensures Joined([p, q], true) == Shown(p, true) + ". " + Shown(q, true)
  {
    var parts := AllWritten([p, q], true);
    assert parts[0] == Shown(p, true) && parts[1] == Shown(q, true) && |parts| == 2;
    assert Joined([p, q], true) == Join(parts, ". ");
    hide AllWritten, Shown, Joined;
    assert parts[1..] == [parts[1]];
    assert Join([parts[1]], ". ") == parts[1];
  }

  lemma {:induction false} OneMoreNoted(front: seq<Allergy>, last: Allergy, consented: bool, reasoned: bool)
    requires AllRead(front) && AllRead(front + [last]) && last.ingredient.Some?
    ensures Notices(front + [last], consented) == Notices(front, consented) + [Notice(last, consented)]
    ensures Ingredients(front + [last], consented, reasoned) ==
            Ingredients(front, consented, reasoned)
            + if Reasoned(last, consented) == reasoned then [last.ingredient.value] else []
  {
    assert (front + [last])[..|front|] == front;
  }

  lemma {:induction false} TwoIngredients(a: Allergy, b: Allergy, own: string, other: string)
    requires a == Allergy(Some(own), true, a.item) && b == Allergy(Some(other), false, b.item)
    requires own != "" && other != ""
    ensures Ingredients([a, b], true, true) == [own] && Ingredients([a, b], true, false) == [other]
  {
    assert [] + [a] == [a] && [a] + [b] == [a, b];
    forall reasoned: bool
      ensures Ingredients([a, b], true, reasoned) == if reasoned then [own] else [other]
    {
      OneMoreNoted([], a, true, reasoned);
      OneMoreNoted([a], b, true, reasoned);
    }
  }

  lemma {:induction false} TwoNotices(a: Allergy, b: Allergy, own: string, other: string)
    requires a == Allergy(Some(own), true, a.item) && b == Allergy(Some(other), false, b.item)
    requires own != "" && other != ""
    ensures Notices([a, b], true) == [Reason([own]), Without([other])] == Shared([a, b], true)
    ensures AnyReason([a, b], true)
  {
    TwoIngredients(a, b, own, other);
    assert Reasoned([a, b][0], true);
    hide Ingredients;
    assert [] + [a] == [a] && [a] + [b] == [a, b];
    OneMoreNoted([], a, true, true);
    OneMoreNoted([a], b, true, true);
    assert Notices([], true) == [];
    hide Notices, AnyReason;
    assert Notices([a], true) == [Reason([own])];
  }

  lemma {:induction false} ReasonReads(word: string)
    ensures Shown(Reason([word]), true) == "WICHTIG: Keine " + word + ". Grund: Allergie"
    ensures Written(Reason([word]))[0] == 'W'
  {
    ListedOne(word);
    hide Listed;
    var text := "WICHTIG: Keine " + word + ". Grund: Allergie";
    assert Written(Reason([word])) == text && text[0] == 'W';
  }

  lemma {:induction false} PlainReads(word: string)
    ensures Shown(Without([word]), true) == "Ohne " + word && Shown(Without([word]), false) == "ohne " + word
    ensures Written(Without([word]))[0] == 'o'
  {
    ListedOne(word);
    hide Listed;
    var text := "ohne " + word;
    assert Written(Without([word])) == text && text[0] == 'o';
    assert FirstUp(text)[1..] == text[1..] && FirstUp(text)[0] == 'O';
    assert FirstUp(text) == "Ohne " + word;
  }

  lemma {:induction false} OneNotice(a: Allergy, word: string, consented: bool)
    requires a.ingredient == Some(word) && word != ""
    ensures var part := if a.own && consented then Reason([word]) else Without([word]);
            Notices([a], consented) == [part] == Shared([a], consented)
    ensures AnyReason([a], consented) == (a.own && consented)
  {
    assert [a][..0] == [];
    assert Ingredients([a], consented, true) == if a.own && consented then [word] else [];
    assert Ingredients([a], consented, false) == if a.own && consented then [] else [word];
    assert AnyReason([a], consented) == Reasoned([a][0], consented);
  }

  lemma {:induction false} PartAlone(part: Part, reasoned: bool)
    ensures Joined([part], reasoned) == Shown(part, reasoned)
  {
    assert AllWritten([part], reasoned) == [Shown(part, reasoned)];
  }

  /** A note for one allergy, however short the field: the reason with the caller's
      yes to their own allergy, else the plain wording. */
  lemma {:induction false} OneAllergyReads(a: Allergy, word: string, consented: bool, limit: nat)
    requires a.ingredient == Some(word) && word != ""
    ensures NotedText(Missing, [a], consented, limit) ==
            Text(if a.own && consented then "WICHTIG: Keine " + word + ". Grund: Allergie" else "ohne " + word)
  {
    var reasoned := a.own && consented;
    var part := if reasoned then Reason([word]) else Without([word]);
    OneNotice(a, word, consented);
    OnePart(part);
    PartAlone(part, reasoned);
    ReasonReads(word);
    PlainReads(word);
    hide Notices, Shared, AnyReason, Distinct, Joined, Shown, Written;
    assert [part] + [] == [part];
    assert Parts(Missing, [a], consented, limit) == [part];
  }

  /** After the yes, the caller's own allergy in front of someone else's: two
      sentences, however short the field. */
  lemma {:induction false} TwoAllergiesRead(a: Allergy, b: Allergy, own: string, other: string, limit: nat)
    requires a == Allergy(Some(own), true, a.item) && b == Allergy(Some(other), false, b.item)
    requires own != "" && other != ""
    ensures NotedText(Missing, [a, b], true, limit) ==
            Text(("WICHTIG: Keine " + own + ". Grund: Allergie") + ". " + ("Ohne " + other))
  {
    hide Notices, Shared, AnyReason, Distinct, Joined, Shown, Written;
    var p, q := Reason([own]), Without([other]);
    TwoNotices(a, b, own, other);
    ReasonReads(own);
    PlainReads(other);
    TwoParts(p, q);
    TwoShown(p, q);
    assert [p, q] + [] == [p, q];
    assert Parts(Missing, [a, b], true, limit) == [p, q];
  }
}
