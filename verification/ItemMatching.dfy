/** Which expected positions of an order were booked (evals/judge.py).

    The judge pairs expected positions with booked ones greedily, the positions
    that name options first. The pairing is sound for every input, and it leaves
    the fewest positions over exactly when, in processing order, an earlier
    position is never wider than a later one it competes with. */
module ItemMatching {
  import opened Wrappers

  /** An expected position. A key the case does not write stays open: `options`
      is then None. A note that is written may still be null. */
  datatype Want = Want(number: string, quantity: int, options: Option<seq<string>>, note: Option<Option<string>>)

  /** A booked position, always complete. */
  datatype Got = Got(number: string, quantity: int, options: seq<string>, note: Option<string>)

  /** What is reported: expected positions without a partner, booked ones left over. */
  datatype Report = Report(missing: seq<Want>, left: seq<Got>)

  // ----- Comparing one pair -----

  function LowerChar(c: char): char {
    if 'A' <= c <= 'Z' then (c as int + 32) as char else c
  }

  function Lower(s: string): string {
    seq(|s|, i requires 0 <= i < |s| => LowerChar(s[i]))
  }

  predicate IsSpace(c: char) {
    c in {' ', '\t', '\n', '\r'}
  }

  function WordLength(s: string): (n: nat)
    ensures n <= |s|
    ensures s != [] && !IsSpace(s[0]) ==> n > 0
  {
    if s == [] || IsSpace(s[0]) then 0 else 1 + WordLength(s[1..])
  }

  function Words(s: string): seq<string> {
    if s == [] then []
    else if IsSpace(s[0]) then Words(s[1..])
    else [s[..WordLength(s)]] + Words(s[WordLength(s)..])
  }

  function JoinWords(words: seq<string>): string {
    if words == [] then ""
    else if |words| == 1 then words[0]
    else words[0] + " " + JoinWords(words[1..])
  }

  function Norm(text: Option<string>): string {
    Lower(JoinWords(Words(if text.Some? then text.value else "")))
  }

  predicate SameText(a: Option<string>, b: Option<string>) {
    Norm(a) == Norm(b)
  }

  // Two lists sort to the same list exactly when they hold the same elements as often.
  predicate SameOptions(a: seq<string>, b: seq<string>) {
    multiset(a) == multiset(b)
  }

  predicate Matches(want: Want, got: Got) {
    && Lower(want.number) == Lower(got.number)
    && want.quantity == got.quantity
    && (want.options.Some? ==> SameOptions(want.options.value, got.options))
    && (want.note.Some? ==> SameText(want.note.value, got.note))
  }

  // ----- The greedy pairing -----

  function WithOptions(wants: seq<Want>): seq<Want> {
    if wants == [] then []
    else if wants[0].options.Some? then [wants[0]] + WithOptions(wants[1..])
    else WithOptions(wants[1..])
  }

  function WithoutOptions(wants: seq<Want>): seq<Want> {
    if wants == [] then []
    else if wants[0].options.None? then [wants[0]] + WithoutOptions(wants[1..])
    else WithoutOptions(wants[1..])
  }

  /** The processing order: a stable sort by "names no options". */
  function OptionsFirst(wants: seq<Want>): seq<Want> {
    WithOptions(wants) + WithoutOptions(wants)
  }

  /** The first booked position the expected one matches, |gots| if none does. */
  function FirstMatch(want: Want, gots: seq<Got>): (at: nat)
    ensures at <= |gots|
    ensures at < |gots| ==> Matches(want, gots[at])
    ensures forall i :: 0 <= i < at ==> !Matches(want, gots[i])
  {
    if gots == [] || Matches(want, gots[0]) then 0 else 1 + FirstMatch(want, gots[1..])
  }

  function Without(s: seq<Got>, at: nat): (r: seq<Got>)
    requires at < |s|
    ensures |r| == |s| - 1
  {
    s[..at] + s[at + 1..]
  }

  lemma {:induction false} WithoutOne(s: seq<Got>, at: nat)
    requires at < |s|
    ensures multiset(s) == multiset(Without(s, at)) + multiset{s[at]}
  {
    assert s == s[..at] + [s[at]] + s[at + 1..];
  }

  function Greedy(wants: seq<Want>, gots: seq<Got>): Report
    decreases |wants|
  {
    if wants == [] then Report([], gots)
    else
      var at := FirstMatch(wants[0], gots);
      if at < |gots| then Greedy(wants[1..], Without(gots, at))
      else Prepend([wants[0]], Greedy(wants[1..], gots))
  }

  function Compare(wants: seq<Want>, gots: seq<Got>): Option<Report> {
    var r := Greedy(OptionsFirst(wants), gots);
    if r.missing == [] && r.left == [] then None else Some(r)
  }

  /** The loop of the judge. `left.remove(hit)` takes the first position equal to
      the hit, and every position equal to the hit matches as well, so this is
      the hit itself. */
  method CompareItems(wants: seq<Want>, gots: seq<Got>) returns (diff: Option<Report>)
    ensures diff == Compare(wants, gots)
  {
    hide Matches, OptionsFirst, FirstMatch;
    var left, missing := gots, [];
    var order := OptionsFirst(wants);
    var i := 0;
    assert order[0..] == order;
    while i < |order|
      invariant 0 <= i <= |order|
      invariant Greedy(order, gots) == Prepend(missing, Greedy(order[i..], left))
    {
      var want := order[i];
      assert order[i..][0] == want && order[i..][1..] == order[i + 1..];
      var hit := FirstMatch(want, left);
      if hit == |left| {
        PrependTwice(missing, want, Greedy(order[i + 1..], left));
        missing := missing + [want];
      } else {
        var at := FirstEqual(left, hit);
        assert Matches(want, left[at]) && at == hit;
        left := Without(left, at);
      }
      i := i + 1;
    }
    assert order[i..] == [];
    assert Greedy(order, gots) == Report(missing, left);
    diff := if missing == [] && left == [] then None else Some(Report(missing, left));
  }

  function Prepend(missing: seq<Want>, r: Report): Report {
    Report(missing + r.missing, r.left)
  }

  lemma {:induction false} PrependTwice(missing: seq<Want>, w: Want, r: Report)
    ensures Prepend(missing, Prepend([w], r)) == Prepend(missing + [w], r)
  {
    assert missing + ([w] + r.missing) == missing + [w] + r.missing;
  }

  /** The position `list.remove` takes out: the first one equal to the hit. */
  method FirstEqual(left: seq<Got>, hit: nat) returns (at: nat)
    requires hit < |left|
    ensures at <= hit && left[at] == left[hit]
    ensures forall k :: 0 <= k < at ==> left[k] != left[hit]
  {
    at := 0;
    while left[at] != left[hit]
      invariant 0 <= at <= hit
      invariant forall k :: 0 <= k < at ==> left[k] != left[hit]
      decreases hit - at
    {
      at := at + 1;
    }
  }

  // ----- Assignments: the reference notion -----

  function Taken(a: seq<Option<Got>>): seq<Got> {
    if a == [] then []
    else (if a[0].Some? then [a[0].value] else []) + Taken(a[1..])
  }

  /** Each expected position gets at most one booked position it matches, and no
      booked position is given away more often than it was booked. */
  ghost predicate Assigns(a: seq<Option<Got>>, wants: seq<Want>, gots: seq<Got>) {
    && |a| == |wants|
    && (forall i :: 0 <= i < |a| && a[i].Some? ==> Matches(wants[i], a[i].value))
    && multiset(Taken(a)) <= multiset(gots)
  }

  /** A one-to-one pairing that leaves nothing over on either side. */
  ghost predicate Matchable(wants: seq<Want>, gots: seq<Got>) {
    |wants| == |gots| && exists a :: Assigns(a, wants, gots) && |Taken(a)| == |wants|
  }

  lemma {:induction false} TakenAtMost(a: seq<Option<Got>>)
    ensures |Taken(a)| <= |a|
    ensures |Taken(a)| == |a| ==> forall i :: 0 <= i < |a| ==> a[i].Some?
  {
    if a != [] {
      TakenAtMost(a[1..]);
      assert |Taken(a)| == |a| ==> forall i :: 1 <= i < |a| ==> a[i] == a[1..][i - 1];
    }
  }

  lemma {:induction false} TakenCons(o: Option<Got>, a: seq<Option<Got>>)
    ensures multiset(Taken([o] + a)) == One(o) + multiset(Taken(a))
    ensures |Taken([o] + a)| == |One(o)| + |Taken(a)|
  {
    assert ([o] + a)[1..] == a;
  }

  ghost function One(o: Option<Got>): multiset<Got> {
    if o.Some? then multiset{o.value} else multiset{}
  }

  lemma {:induction false} TakenIsBooked(a: seq<Option<Got>>, wants: seq<Want>, gots: seq<Got>)
    requires a != [] && a[0].Some? && Assigns(a, wants, gots)
    ensures a[0].value in gots
  {
    assert a[0].value in multiset(Taken(a));
    assert a[0].value in multiset(gots);
  }

  lemma {:induction false} TakenConcat(a: seq<Option<Got>>, b: seq<Option<Got>>)
    ensures Taken(a + b) == Taken(a) + Taken(b)
  {
    if a == [] {
      assert a + b == b;
    } else {
      TakenConcat(a[1..], b);
      assert (a + b)[1..] == a[1..] + b && (a + b)[0] == a[0];
      var first := if a[0].Some? then [a[0].value] else [];
      assert first + (Taken(a[1..]) + Taken(b)) == (first + Taken(a[1..])) + Taken(b);
    }
  }

  lemma {:induction false} Exchanged(front: multiset<Got>, back: multiset<Got>, g: Got, one: multiset<Got>)
    ensures front + (multiset{g} + back) - multiset{g} + one == front + (one + back)
  {
  }

  lemma {:induction false} TakenUpdate(a: seq<Option<Got>>, j: nat, o: Option<Got>)
    requires j < |a| && a[j].Some?
    ensures multiset(Taken(a[j := o]))
         == multiset(Taken(a)) - multiset{a[j].value} + One(o)
  {
    var front, back := a[..j], a[j + 1..];
    assert a == front + ([a[j]] + back) && a[j := o] == front + ([o] + back);
    TakenConcat(front, [a[j]] + back);
    TakenConcat(front, [o] + back);
    TakenCons(a[j], back);
    TakenCons(o, back);
    Exchanged(multiset(Taken(front)), multiset(Taken(back)), a[j].value, One(o));
  }

  lemma {:induction false} TakenHas(a: seq<Option<Got>>, g: Got) returns (j: nat)
    requires g in Taken(a)
    ensures j < |a| && a[j] == Some(g)
  {
    if a[0] == Some(g) {
      j := 0;
    } else {
      j := TakenHas(a[1..], g);
      j := j + 1;
    }
  }

  lemma {:induction false} SizeOfMultiset<T>(s: seq<T>, t: seq<T>)
    requires multiset(s) <= multiset(t)
    ensures |s| <= |t|
    ensures |s| == |t| ==> multiset(s) == multiset(t)
  {
    assert multiset(t) == multiset(s) + (multiset(t) - multiset(s));
    assert |multiset(s)| == |s| && |multiset(t)| == |t|;
    assert |multiset(t)| == |multiset(s)| + |multiset(t) - multiset(s)|;
    if |s| == |t| {
      assert multiset(t) - multiset(s) == multiset{};
    }
  }

  lemma {:induction false} Cancel<T>(a: multiset<T>, b: multiset<T>, x: T)
    ensures a + multiset{x} <= b + multiset{x} ==> a <= b
    ensures a + multiset{x} == b + multiset{x} ==> a == b
    ensures a <= b + multiset{x} && x !in a ==> a <= b
  {
    assert forall y :: (a + multiset{x})[y] == a[y] + multiset{x}[y] && (b + multiset{x})[y] == b[y] + multiset{x}[y];
  }

  // ----- Soundness -----

  /** The pairing the greedy run makes: it gives away what is not left over, and
      a position is missing exactly when it got nothing. */
  lemma {:induction false} GreedyAssigns(wants: seq<Want>, gots: seq<Got>) returns (a: seq<Option<Got>>)
    ensures Assigns(a, wants, gots)
    ensures |Taken(a)| + |Greedy(wants, gots).missing| == |wants|
    ensures multiset(Taken(a)) + multiset(Greedy(wants, gots).left) == multiset(gots)
    decreases |wants|
  {
    if wants == [] {
      a := [];
    } else {
      var at := FirstMatch(wants[0], gots);
      if at < |gots| {
        var left := Without(gots, at);
        var rest := GreedyAssigns(wants[1..], left);
        a := [Some(gots[at])] + rest;
        TakenCons(Some(gots[at]), rest);
        WithoutOne(gots, at);
        AssignsCons(Some(gots[at]), rest, wants);
      } else {
        var rest := GreedyAssigns(wants[1..], gots);
        a := [None] + rest;
        TakenCons(None, rest);
        AssignsCons(None, rest, wants);
      }
    }
  }

  lemma {:induction false} AssignsCons(o: Option<Got>, rest: seq<Option<Got>>, wants: seq<Want>)
    requires |rest| + 1 == |wants|
    requires o.Some? ==> Matches(wants[0], o.value)
    requires forall i :: 0 <= i < |rest| && rest[i].Some? ==> Matches(wants[1..][i], rest[i].value)
    ensures forall i :: 0 <= i <= |rest| && ([o] + rest)[i].Some? ==> Matches(wants[i], ([o] + rest)[i].value)
  {
    forall i | 0 < i <= |rest| && ([o] + rest)[i].Some? ensures Matches(wants[i], ([o] + rest)[i].value) {
      assert wants[i] == wants[1..][i - 1] && ([o] + rest)[i] == rest[i - 1];
    }
  }

  // ----- An assignment survives the sort -----

  function Kept(a: seq<Option<Got>>, wants: seq<Want>, named: bool): seq<Option<Got>>
    requires |a| == |wants|
  {
    if wants == [] then []
    else (if wants[0].options.Some? == named then [a[0]] else []) + Kept(a[1..], wants[1..], named)
  }

  function Chosen(wants: seq<Want>, named: bool): seq<Want> {
    if named then WithOptions(wants) else WithoutOptions(wants)
  }

  lemma {:induction false} KeptFits(a: seq<Option<Got>>, wants: seq<Want>, named: bool)
    requires |a| == |wants|
    requires forall i :: 0 <= i < |a| && a[i].Some? ==> Matches(wants[i], a[i].value)
    ensures var b, chosen := Kept(a, wants, named), Chosen(wants, named);
            |b| == |chosen| && forall i :: 0 <= i < |b| && b[i].Some? ==> Matches(chosen[i], b[i].value)
  {
    if wants != [] {
      KeptFits(a[1..], wants[1..], named);
      if wants[0].options.Some? == named {
        assert Chosen(wants, named)[1..] == Chosen(wants[1..], named);
        AssignsCons(a[0], Kept(a[1..], wants[1..], named), Chosen(wants, named));
      }
    }
  }

  lemma {:induction false} KeptTogether(a: seq<Option<Got>>, wants: seq<Want>)
    requires |a| == |wants|
    ensures multiset(Taken(Kept(a, wants, true))) + multiset(Taken(Kept(a, wants, false))) == multiset(Taken(a))
  {
    if wants != [] {
      KeptTogether(a[1..], wants[1..]);
      KeptStep(a, wants, wants[0].options.Some?);
      TakenSplit(a);
    }
  }

  lemma {:induction false} KeptStep(a: seq<Option<Got>>, wants: seq<Want>, named: bool)
    requires |a| == |wants| && wants != [] && named == wants[0].options.Some?
    ensures multiset(Taken(Kept(a, wants, named))) == One(a[0]) + multiset(Taken(Kept(a[1..], wants[1..], named)))
    ensures Kept(a, wants, !named) == Kept(a[1..], wants[1..], !named)
  {
    TakenCons(a[0], Kept(a[1..], wants[1..], named));
  }

  lemma {:induction false} SortKeepsAssignment(a: seq<Option<Got>>, wants: seq<Want>, gots: seq<Got>)
    returns (b: seq<Option<Got>>)
    requires Assigns(a, wants, gots)
    ensures Assigns(b, OptionsFirst(wants), gots)
    ensures multiset(Taken(b)) == multiset(Taken(a))
  {
    KeptFits(a, wants, true);
    KeptFits(a, wants, false);
    KeptTogether(a, wants);
    var first, last := Kept(a, wants, true), Kept(a, wants, false);
    b := first + last;
    TakenConcat(first, last);
    forall i | 0 <= i < |b| && b[i].Some? ensures Matches(OptionsFirst(wants)[i], b[i].value) {
      if i >= |first| {
        assert b[i] == last[i - |first|] && OptionsFirst(wants)[i] == WithoutOptions(wants)[i - |first|];
      }
    }
  }

  /** The way back: what the sorted positions got, handed to the positions as written. */
  function Merged(b: seq<Option<Got>>, c: seq<Option<Got>>, wants: seq<Want>): (a: seq<Option<Got>>)
    requires |b| == |WithOptions(wants)| && |c| == |WithoutOptions(wants)|
  {
    if wants == [] then []
    else if wants[0].options.Some? then [b[0]] + Merged(b[1..], c, wants[1..])
    else [c[0]] + Merged(b, c[1..], wants[1..])
  }

  lemma {:induction false} MergedFits(b: seq<Option<Got>>, c: seq<Option<Got>>, wants: seq<Want>)
    requires |b| == |WithOptions(wants)| && |c| == |WithoutOptions(wants)|
    requires forall i :: 0 <= i < |b| && b[i].Some? ==> Matches(WithOptions(wants)[i], b[i].value)
    requires forall i :: 0 <= i < |c| && c[i].Some? ==> Matches(WithoutOptions(wants)[i], c[i].value)
    ensures var a := Merged(b, c, wants);
            |a| == |wants| && forall i :: 0 <= i < |a| && a[i].Some? ==> Matches(wants[i], a[i].value)
  {
    if wants != [] {
      if wants[0].options.Some? {
        MergedFits(b[1..], c, wants[1..]);
        AssignsCons(b[0], Merged(b[1..], c, wants[1..]), wants);
      } else {
        MergedFits(b, c[1..], wants[1..]);
        AssignsCons(c[0], Merged(b, c[1..], wants[1..]), wants);
      }
    }
  }

  lemma {:induction false} MergedTogether(b: seq<Option<Got>>, c: seq<Option<Got>>, wants: seq<Want>)
    requires |b| == |WithOptions(wants)| && |c| == |WithoutOptions(wants)|
    ensures multiset(Taken(Merged(b, c, wants))) == multiset(Taken(b)) + multiset(Taken(c))
  {
    if wants != [] {
      var named := wants[0].options.Some?;
      var rest := if named then Merged(b[1..], c, wants[1..]) else Merged(b, c[1..], wants[1..]);
      assert Merged(b, c, wants) == [if named then b[0] else c[0]] + rest;
      if named {
        MergedTogether(b[1..], c, wants[1..]);
        TakenSplit(b);
        TakenCons(b[0], rest);
      } else {
        MergedTogether(b, c[1..], wants[1..]);
        TakenSplit(c);
        TakenCons(c[0], rest);
      }
      hide Merged, Taken, One, WithOptions, WithoutOptions;
    }
  }

  lemma {:induction false} TakenSplit(a: seq<Option<Got>>)
    requires a != []
    ensures multiset(Taken(a)) == One(a[0]) + multiset(Taken(a[1..]))
  {
    assert a == [a[0]] + a[1..];
    TakenCons(a[0], a[1..]);
  }

  lemma {:induction false} UnsortKeepsAssignment(b: seq<Option<Got>>, wants: seq<Want>, gots: seq<Got>)
    returns (a: seq<Option<Got>>)
    requires Assigns(b, OptionsFirst(wants), gots)
    ensures Assigns(a, wants, gots)
    ensures multiset(Taken(a)) == multiset(Taken(b))
  {
    var n := |WithOptions(wants)|;
    var first, last := b[..n], b[n..];
    assert b == first + last;
    TakenConcat(first, last);
    forall i | 0 <= i < |last| && last[i].Some? ensures Matches(WithoutOptions(wants)[i], last[i].value) {
      assert last[i] == b[n + i] && OptionsFirst(wants)[n + i] == WithoutOptions(wants)[i];
    }
    MergedFits(first, last, wants);
    MergedTogether(first, last, wants);
    a := Merged(first, last, wants);
  }

  /** Sorting changes nothing about what can be paired off. */
  lemma {:induction false} MatchableSorted(wants: seq<Want>, gots: seq<Got>)
    ensures Matchable(wants, gots) <==> Matchable(OptionsFirst(wants), gots)
  {
    OptionsFirstSize(wants);
    if Matchable(wants, gots) {
      var a :| Assigns(a, wants, gots) && |Taken(a)| == |wants|;
      var b := SortKeepsAssignment(a, wants, gots);
      SameSize(Taken(a), Taken(b));
    }
    if Matchable(OptionsFirst(wants), gots) {
      var b :| Assigns(b, OptionsFirst(wants), gots) && |Taken(b)| == |wants|;
      var a := UnsortKeepsAssignment(b, wants, gots);
      SameSize(Taken(a), Taken(b));
    }
  }

  lemma {:induction false} SameSize<T>(s: seq<T>, t: seq<T>)
    requires multiset(s) == multiset(t)
    ensures |s| == |t|
  {
    assert |multiset(s)| == |s| && |multiset(t)| == |t|;
  }

  lemma {:induction false} OptionsFirstSize(wants: seq<Want>)
    ensures |OptionsFirst(wants)| == |wants|
  {
    if wants != [] {
      OptionsFirstSize(wants[1..]);
    }
  }

  // ----- The sort -----

  /** At position p of the list as written comes before that at q: it names its
      options and the other does not, or both do alike and it was written first. */
  predicate ComesBefore(wants: seq<Want>, p: nat, q: nat) {
    && p < |wants| && q < |wants|
    && if wants[p].options.Some? == wants[q].options.Some? then p < q else wants[p].options.Some?
  }

  /** These places of the list as written hold, in this order, the positions `chosen`. */
  predicate Places(at: seq<nat>, wants: seq<Want>, chosen: seq<Want>) {
    && |at| == |chosen|
    && (forall i :: 0 <= i < |at| ==> at[i] < |wants| && wants[at[i]] == chosen[i])
    && (forall i, j :: 0 <= i < j < |at| ==> ComesBefore(wants, at[i], at[j]))
  }

  /** The places of the positions with options, or of those without. */
  lemma {:induction false} PlacesOf(wants: seq<Want>, named: bool) returns (at: seq<nat>)
    ensures Places(at, wants, Chosen(wants, named))
  {
    if wants == [] {
      at := [];
    } else {
      var rest := PlacesOf(wants[1..], named);
      at := Shifted(wants, rest, Chosen(wants[1..], named));
      if wants[0].options.Some? == named {
        ChosenAlike(wants[1..], named);
        at := PlacedFirst(wants, at, Chosen(wants[1..], named));
      }
    }
  }

  lemma {:induction false} ChosenAlike(wants: seq<Want>, named: bool)
    ensures forall i :: 0 <= i < |Chosen(wants, named)| ==> Chosen(wants, named)[i].options.Some? == named
  {
    if wants != [] {
      ChosenAlike(wants[1..], named);
      assert Chosen(wants, named) ==
             (if wants[0].options.Some? == named then [wants[0]] else []) + Chosen(wants[1..], named);
    }
  }

  lemma {:induction false} PlacedFirst(wants: seq<Want>, rest: seq<nat>, chosen: seq<Want>) returns (at: seq<nat>)
    requires wants != [] && Places(rest, wants, chosen) && forall i :: 0 <= i < |rest| ==> rest[i] > 0
    requires forall i :: 0 <= i < |chosen| ==> chosen[i].options.Some? == wants[0].options.Some?
    ensures Places(at, wants, [wants[0]] + chosen)
  {
    at := [0] + rest;
    forall i, j | 0 <= i < j < |at| ensures ComesBefore(wants, at[i], at[j]) {
      assert at[j] == rest[j - 1] && wants[at[j]] == chosen[j - 1];
      if i > 0 {
        assert ComesBefore(wants, rest[i - 1], rest[j - 1]);
      }
    }
  }

  lemma {:induction false} Shifted(wants: seq<Want>, rest: seq<nat>, chosen: seq<Want>) returns (at: seq<nat>)
    requires wants != [] && Places(rest, wants[1..], chosen)
    ensures Places(at, wants, chosen) && forall i :: 0 <= i < |at| ==> at[i] > 0
  {
    at := seq(|rest|, i requires 0 <= i < |rest| => rest[i] + 1);
    forall i, j | 0 <= i < j < |at| ensures ComesBefore(wants, at[i], at[j]) {
      assert ComesBefore(wants[1..], rest[i], rest[j]);
      assert wants[1..][rest[i]] == wants[at[i]] && wants[1..][rest[j]] == wants[at[j]];
    }
  }

  /** Sorting keeps every position, puts those with options first, and otherwise
      leaves the order as written. */
  lemma {:induction false} SortIsStable(wants: seq<Want>) returns (at: seq<nat>)
    ensures |at| == |wants| && Places(at, wants, OptionsFirst(wants))
  {
    var first := PlacesOf(wants, true);
    var last := PlacesOf(wants, false);
    at := first + last;
    OptionsFirstSize(wants);
    ChosenAlike(wants, true);
    ChosenAlike(wants, false);
    var n, front, back := |first|, Chosen(wants, true), Chosen(wants, false);
    assert OptionsFirst(wants) == front + back;
    hide Chosen, OptionsFirst;
    forall i, j | 0 <= i < j < |at| ensures ComesBefore(wants, at[i], at[j]) {
      if i < n <= j {
        assert wants[at[i]] == front[i] && wants[at[j]] == back[j - n];
      } else if j < n {
        assert ComesBefore(wants, first[i], first[j]);
      } else {
        assert ComesBefore(wants, last[i - n], last[j - n]);
      }
    }
  }

  // ----- When the greedy choice is right -----

  predicate SameDish(v: Want, w: Want) {
    Lower(v.number) == Lower(w.number) && v.quantity == w.quantity
  }

  /** Some booked position matches both. */
  predicate Competes(v: Want, w: Want) {
    && SameDish(v, w)
    && (v.options.Some? && w.options.Some? ==> SameOptions(v.options.value, w.options.value))
    && (v.note.Some? && w.note.Some? ==> SameText(v.note.value, w.note.value))
  }

  /** Whatever matches v matches w. */
  predicate NarrowerThan(v: Want, w: Want) {
    && SameDish(v, w)
    && (w.options.Some? ==> v.options.Some? && SameOptions(v.options.value, w.options.value))
    && (w.note.Some? ==> v.note.Some? && SameText(v.note.value, w.note.value))
  }

  /** In processing order, the narrower of two competing positions comes first. */
  predicate NarrowFirst(order: seq<Want>) {
    forall i, j :: 0 <= i < j < |order| && Competes(order[i], order[j]) ==> NarrowerThan(order[i], order[j])
  }

  lemma {:induction false} CompetingHasWitness(v: Want, w: Want) returns (g: Got)
    requires Competes(v, w)
    ensures Matches(v, g) && Matches(w, g)
  {
    var options := if v.options.Some? then v.options.value else if w.options.Some? then w.options.value else [];
    var note := if v.note.Some? then v.note.value else if w.note.Some? then w.note.value else None;
    g := Got(v.number, v.quantity, options, note);
  }

  /** A booked position that matches v and not w, when v is not narrower. */
  lemma {:induction false} WiderHasWitness(v: Want, w: Want) returns (g: Got)
    requires Competes(v, w) && !NarrowerThan(v, w)
    ensures Matches(v, g) && !Matches(w, g)
  {
    var options := if v.options.Some? then v.options.value else [];
    var note := if v.note.Some? then v.note.value else None;
    if w.options.Some? && v.options.None? {
      options := if |w.options.value| == 0 then ["x"] else [];
      assert |multiset(options)| != |multiset(w.options.value)|;
    } else {
      note := Some(if Norm(w.note.value) == "" then "x" else "");
      assert Norm(Some("x")) == "x" by {
        assert "x"[..1] == "x" && "x"[1..] == "" && WordLength("x") == 1;
        assert Words("x") == ["x"];
      }
      assert Norm(Some("")) == "";
    }
    g := Got(v.number, v.quantity, options, note);
  }

  // What matches two positions shows that they compete.
  lemma {:induction false} SharedCompetes(v: Want, w: Want, g: Got)
    requires Matches(v, g) && Matches(w, g)
    ensures Competes(v, w)
  {}

  /** One greedy step loses nothing: any assignment of all positions can be turned
      into one of the remaining positions that is at most one smaller. */
  lemma {:induction false} Exchange(wants: seq<Want>, gots: seq<Got>, a: seq<Option<Got>>, at: nat)
    returns (b: seq<Option<Got>>)
    requires wants != [] && NarrowFirst(wants) && Assigns(a, wants, gots)
    requires at < |gots| && Matches(wants[0], gots[at])
    ensures Assigns(b, wants[1..], Without(gots, at))
    ensures |Taken(b)| + 1 >= |Taken(a)|
  {
    var h, rest, left := gots[at], a[1..], Without(gots, at);
    WithoutOne(gots, at);
    TakenSplit(a);
    if h !in Taken(rest) || a[0] == Some(h) {
      b := rest;
      Cancel(multiset(Taken(rest)), multiset(left), h);
    } else {
      var j := TakenHas(rest, h);
      b := rest[j := a[0]];
      HandOver(rest, j, a[0], left);
      SharedCompetes(wants[0], wants[j + 1], h);
      PassedOn(wants, a, j);
    }
  }

  /** What the first position had, the wider one at j + 1 may have. */
  lemma {:induction false} PassedOn(wants: seq<Want>, a: seq<Option<Got>>, j: nat)
    requires |a| == |wants| && j + 1 < |wants| && NarrowerThan(wants[0], wants[j + 1])
    requires forall i :: 0 <= i < |a| && a[i].Some? ==> Matches(wants[i], a[i].value)
    ensures var b := a[1..][j := a[0]];
            forall i :: 0 <= i < |b| && b[i].Some? ==> Matches(wants[1..][i], b[i].value)
  {
    var b := a[1..][j := a[0]];
    forall i | 0 <= i < |b| && b[i].Some? ensures Matches(wants[1..][i], b[i].value) {
      if i != j {
        assert b[i] == a[i + 1];
      }
    }
  }

  /** The position that had h gets o instead. */
  lemma {:induction false} HandOver(rest: seq<Option<Got>>, j: nat, o: Option<Got>, left: seq<Got>)
    requires j < |rest| && rest[j].Some?
    requires One(o) + multiset(Taken(rest)) <= multiset(left) + multiset{rest[j].value}
    ensures multiset(Taken(rest[j := o])) <= multiset(left)
    ensures |Taken(rest[j := o])| + 1 == |Taken(rest)| + |One(o)|
  {
    var h, b := rest[j].value, rest[j := o];
    TakenUpdate(rest, j, o);
    TakenHasOne(rest, j);
    assert multiset(Taken(b)) + multiset{h} == One(o) + multiset(Taken(rest));
    Cancel(multiset(Taken(b)), multiset(left), h);
    assert |multiset(Taken(b)) + multiset{h}| == |multiset(Taken(b))| + 1;
    assert |multiset(Taken(b))| == |Taken(b)| && |multiset(Taken(rest))| == |Taken(rest)|;
  }

  lemma {:induction false} TakenHasOne(a: seq<Option<Got>>, j: nat)
    requires j < |a| && a[j].Some?
    ensures a[j].value in multiset(Taken(a))
  {
    TakenConcat(a[..j], a[j..]);
    assert a == a[..j] + a[j..];
  }

  lemma {:induction false} GreedyIsOptimal(wants: seq<Want>, gots: seq<Got>, a: seq<Option<Got>>)
    requires NarrowFirst(wants) && Assigns(a, wants, gots)
    ensures |Taken(a)| + |Greedy(wants, gots).missing| <= |wants|
    decreases |wants|
  {
    if wants != [] {
      var rest := wants[1..];
      assert NarrowFirst(rest) by {
        forall i, j | 0 <= i < j < |rest| && Competes(rest[i], rest[j]) ensures NarrowerThan(rest[i], rest[j]) {
          assert rest[i] == wants[i + 1] && rest[j] == wants[j + 1];
        }
      }
      var at := FirstMatch(wants[0], gots);
      if at < |gots| {
        var b := Exchange(wants, gots, a, at);
        GreedyIsOptimal(rest, Without(gots, at), b);
      } else {
        if a[0].Some? {
          TakenIsBooked(a, wants, gots);
        }
        GreedyIsOptimal(rest, gots, a[1..]);
      }
    }
  }

  /** Main result, one way: on a narrow-first order no assignment at all leaves
      fewer expected positions without a partner. */
  lemma {:induction false} FewestMissing(wants: seq<Want>, gots: seq<Got>, a: seq<Option<Got>>)
    requires NarrowFirst(OptionsFirst(wants)) && Assigns(a, wants, gots)
    ensures |Greedy(OptionsFirst(wants), gots).missing| <= |wants| - |Taken(a)|
  {
    var b := SortKeepsAssignment(a, wants, gots);
    OptionsFirstSize(wants);
    SameSize(Taken(a), Taken(b));
    GreedyIsOptimal(OptionsFirst(wants), gots, b);
  }

  /** No report means a one-to-one pairing exists, for every input. */
  lemma {:induction false} NoReportMeansMatchable(wants: seq<Want>, gots: seq<Got>)
    requires Compare(wants, gots).None?
    ensures Matchable(wants, gots)
  {
    var order := OptionsFirst(wants);
    OptionsFirstSize(wants);
    var a := GreedyAssigns(order, gots);
    SizeOfMultiset(Taken(a), gots);
    SizeOfMultiset(gots, Taken(a));
    MatchableSorted(wants, gots);
  }

  // ----- The boundary: a wide position first loses a partner for some order -----

  function Fitting(w: Want, gots: seq<Got>): (n: nat) {
    if gots == [] then 0 else (if Matches(w, gots[0]) then 1 else 0) + Fitting(w, gots[1..])
  }

  lemma {:induction false} FittingConcat(w: Want, s: seq<Got>, t: seq<Got>)
    ensures Fitting(w, s + t) == Fitting(w, s) + Fitting(w, t)
  {
    if s == [] {
      assert s + t == t;
    } else {
      FittingConcat(w, s[1..], t);
      assert (s + t)[1..] == s[1..] + t;
    }
  }

  lemma {:induction false} FittingAt(w: Want, t: seq<Got>, k: nat)
    requires k < |t|
    ensures Fitting(w, t) == Fitting(w, Without(t, k)) + if Matches(w, t[k]) then 1 else 0
  {
    hide Matches;
    assert t == t[..k] + t[k..] && t[k..][1..] == t[k + 1..];
    FittingConcat(w, t[..k], t[k..]);
    FittingConcat(w, t[..k], t[k + 1..]);
    assert Without(t, k) == t[..k] + t[k + 1..];
  }

  lemma {:induction false} FittingPermuted(w: Want, s: seq<Got>, t: seq<Got>)
    requires multiset(s) == multiset(t)
    ensures Fitting(w, s) == Fitting(w, t)
    decreases |s|
  {
    hide Matches;
    if s == [] {
      assert |multiset(t)| == 0;
    } else {
      assert s[0] in multiset(s) && s[0] in multiset(t);
      var k :| 0 <= k < |t| && t[k] == s[0];
      FittingAt(w, t, k);
      assert s == [s[0]] + s[1..];
      WithoutOne(t, k);
      assert multiset(s) == multiset(s[1..]) + multiset{s[0]};
      Cancel(multiset(s[1..]), multiset(Without(t, k)), s[0]);
      FittingPermuted(w, s[1..], Without(t, k));
    }
  }

  /** A booked position for w that v cannot take, unless everything w takes fits v. */
  lemma {:induction false} AvoidingWitness(v: Want, w: Want) returns (g: Got)
    ensures Matches(w, g)
    ensures Matches(v, g) ==> NarrowerThan(w, v)
  {
    if Competes(w, v) && !NarrowerThan(w, v) {
      g := WiderHasWitness(w, v);
    } else {
      g := CompetingHasWitness(w, w);
      if Matches(v, g) {
        SharedCompetes(w, v, g);
      }
    }
  }

  /** Booked positions for a list of expected ones, each avoiding v where it can. */
  lemma {:induction false} AvoidingGots(v: Want, wants: seq<Want>) returns (gots: seq<Got>)
    ensures |gots| == |wants|
    ensures forall k :: 0 <= k < |wants| ==> Matches(wants[k], gots[k])
    ensures forall k :: 0 <= k < |wants| && Matches(v, gots[k]) ==> NarrowerThan(wants[k], v)
  {
    if wants == [] {
      gots := [];
    } else {
      var g := AvoidingWitness(v, wants[0]);
      var rest := AvoidingGots(v, wants[1..]);
      gots := [g] + rest;
      forall k | 0 <= k < |wants|
        ensures Matches(wants[k], gots[k]) && (Matches(v, gots[k]) ==> NarrowerThan(wants[k], v))
      {
        if k > 0 {
          assert wants[k] == wants[1..][k - 1] && gots[k] == rest[k - 1];
        }
      }
    }
  }

  /** Each position that matches the head of what is left takes it. */
  /** Who matches the first one gets it. */
  lemma {:induction false} FirstOneTaken(wants: seq<Want>, gots: seq<Got>)
    requires wants != [] && gots != [] && Matches(wants[0], gots[0])
    ensures Greedy(wants, gots) == Greedy(wants[1..], gots[1..])
  {
    hide Matches;
    assert FirstMatch(wants[0], gots) == 0 && Without(gots, 0) == gots[1..];
  }

  lemma {:induction false} HeadsAreTaken(wants: seq<Want>, gots: seq<Got>, k: nat)
    requires k <= |wants| && k <= |gots|
    requires forall i :: 0 <= i < k ==> Matches(wants[i], gots[i])
    ensures Greedy(wants, gots) == Greedy(wants[k..], gots[k..])
    decreases k
  {
    hide Matches, Greedy;
    if k == 0 {
      assert wants[0..] == wants && gots[0..] == gots;
    } else {
      FirstOneTaken(wants, gots);
      forall i | 0 <= i < k - 1 ensures Matches(wants[1..][i], gots[1..][i]) {
        assert wants[1..][i] == wants[i + 1] && gots[1..][i] == gots[i + 1];
      }
      HeadsAreTaken(wants[1..], gots[1..], k - 1);
      assert wants[1..][k - 1..] == wants[k..] && gots[1..][k - 1..] == gots[k..];
    }
  }

  /** The counting half of Hall's theorem: with every one of `taken` matched to the
      position of the same index, at least those that are narrower than v fit v. */
  lemma {:induction false} NarrowerFit(v: Want, wants: seq<Want>, gots: seq<Got>, taken: seq<Got>)
    requires |gots| == |wants| == |taken|
    requires forall k :: 0 <= k < |wants| && Matches(v, gots[k]) ==> NarrowerThan(wants[k], v)
    requires forall k :: 0 <= k < |wants| ==> Matches(wants[k], taken[k])
    ensures Fitting(v, gots) <= Fitting(v, taken)
  {
    if wants != [] {
      NarrowerFit(v, wants[1..], gots[1..], taken[1..]);
      if Matches(v, gots[0]) {
        assert NarrowerThan(wants[0], v) && Matches(wants[0], taken[0]);
      }
    }
  }

  lemma {:induction false} TakenAll(a: seq<Option<Got>>)
    requires |Taken(a)| == |a|
    ensures forall k :: 0 <= k < |a| ==> a[k] == Some(Taken(a)[k])
  {
    TakenAtMost(a);
    if a != [] {
      TakenAtMost(a[1..]);
      TakenAll(a[1..]);
      forall k | 0 <= k < |a| ensures a[k] == Some(Taken(a)[k]) {
        if k > 0 {
          assert a[k] == a[1..][k - 1] && Taken(a)[k] == Taken(a[1..])[k - 1];
        }
      }
    }
  }

  /** When nobody is missing, everybody has one of the booked positions. */
  lemma {:induction false} EverybodyHasOne(wants: seq<Want>, gots: seq<Got>) returns (taken: seq<Got>)
    requires |wants| == |gots| && Greedy(wants, gots).missing == []
    ensures |taken| == |wants| && multiset(taken) == multiset(gots)
    ensures forall k :: 0 <= k < |wants| ==> Matches(wants[k], taken[k])
  {
    var a := GreedyAssigns(wants, gots);
    taken := Taken(a);
    SizeOfMultiset(taken, gots);
    TakenAll(a);
    forall k | 0 <= k < |wants| ensures Matches(wants[k], taken[k]) {
      assert a[k] == Some(taken[k]);
    }
  }

  /** If the first has lost its partner and what remains avoids it, somebody goes missing. */
  lemma {:induction false} SomebodyIsMissing(wants: seq<Want>, gots: seq<Got>)
    requires wants != [] && |gots| == |wants| && !Matches(wants[0], gots[0])
    requires forall k :: 1 <= k < |wants| && Matches(wants[0], gots[k]) ==> NarrowerThan(wants[k], wants[0])
    ensures Greedy(wants, gots).missing != []
  {
    if Greedy(wants, gots).missing == [] {
      var taken := EverybodyHasOne(wants, gots);
      NarrowerFit(wants[0], wants[1..], gots[1..], taken[1..]);
      FittingPermuted(wants[0], taken, gots);
      assert false;
    }
  }

  lemma {:induction false} AllOwn(wants: seq<Want>, gots: seq<Got>) returns (a: seq<Option<Got>>)
    requires |wants| == |gots|
    requires forall k :: 0 <= k < |wants| ==> Matches(wants[k], gots[k])
    ensures Assigns(a, wants, gots) && Taken(a) == gots
  {
    if wants == [] {
      a := [];
    } else {
      var rest := AllOwn(wants[1..], gots[1..]);
      a := [Some(gots[0])] + rest;
      assert a[1..] == rest && gots == [gots[0]] + gots[1..];
    }
  }

  /** A violation of narrow-first with no other one between its two ends. */
  lemma {:induction false} ClosestViolation(order: seq<Want>) returns (i: nat, j: nat)
    requires !NarrowFirst(order)
    ensures i < j < |order| && Competes(order[i], order[j]) && !NarrowerThan(order[i], order[j])
    ensures forall k :: i < k < j ==> !Competes(order[i], order[k])
  {
    i, j :| 0 <= i < j < |order| && Competes(order[i], order[j]) && !NarrowerThan(order[i], order[j]);
    while exists k :: i < k < j && Competes(order[i], order[k])
      invariant 0 <= i < j < |order| && Competes(order[i], order[j]) && !NarrowerThan(order[i], order[j])
      decreases j - i
    {
      var k :| i < k < j && Competes(order[i], order[k]);
      if NarrowerThan(order[i], order[k]) {
        var g := CompetingHasWitness(order[i], order[j]);
        SharedCompetes(order[k], order[j], g);
        i := k;
      } else {
        j := k;
      }
    }
  }

  lemma {:induction false} Updated<T>(s: seq<T>, i: nat, x: T)
    requires i < |s|
    ensures multiset(s[i := x]) + multiset{s[i]} == multiset(s) + multiset{x}
  {
  }

  lemma {:induction false} SameRest<T>(a: multiset<T>, b: multiset<T>, x: T, y: T)
    requires a + multiset{y} + multiset{x} == b + multiset{y} + multiset{x}
    ensures a == b
  {
    Cancel(a + multiset{y}, b + multiset{y}, x);
    Cancel(a, b, y);
  }

  lemma {:induction false} Swapped<T>(s: seq<T>, i: nat, j: nat, x: T, y: T)
    requires i < j < |s|
    ensures multiset(s[i := x][j := y]) == multiset(s[i := y][j := x])
  {
    var a, b := s[i := x], s[i := y];
    Updated(s, i, x);
    Updated(s, i, y);
    Updated(a, j, y);
    Updated(b, j, x);
    SameRest(multiset(a[j := y]), multiset(b[j := x]), s[i], s[j]);
  }

  /** Main result, the other way: an order that is not narrow-first has booked
      positions that pair up completely and are still reported. */
  lemma {:induction false} WideFirstLoses(order: seq<Want>) returns (gots: seq<Got>)
    requires !NarrowFirst(order)
    ensures Matchable(order, gots) && Greedy(order, gots).missing != []
  {
    var i, j := ClosestViolation(order);
    var v, w := order[i], order[j];
    var g := CompetingHasWitness(v, w);
    var g' := WiderHasWitness(v, w);
    var own := AvoidingGots(w, order);

    gots := own[i := g][j := g'];
    PairedTheOtherWay(order, own, i, j, g, g');
    HeadsTaken(order, own, i, j, g, g');
    var tail := [g'] + own[j + 1..];
    forall k | 1 <= k < |order[j..]| && Matches(w, tail[k]) ensures NarrowerThan(order[j..][k], w) {
      assert tail[k] == own[j + k] && order[j..][k] == order[j + k];
    }
    SomebodyIsMissing(order[j..], tail);
  }

  /** The pairing that works: the first takes g', the second g, everyone else its own. */
  lemma {:induction false} PairedTheOtherWay(order: seq<Want>, own: seq<Got>, i: nat, j: nat, g: Got, g': Got)
    requires |own| == |order| && i < j < |order|
    requires forall k :: 0 <= k < |order| ==> Matches(order[k], own[k])
    requires Matches(order[i], g') && Matches(order[j], g)
    ensures Matchable(order, own[i := g][j := g'])
  {
    var a := AllOwn(order, own[i := g'][j := g]);
    Swapped(own, i, j, g, g');
    assert Assigns(a, order, own[i := g][j := g']);
  }

  /** The greedy run: everyone before the second takes the head. */
  lemma {:induction false} HeadsTaken(order: seq<Want>, own: seq<Got>, i: nat, j: nat, g: Got, g': Got)
    requires |own| == |order| && i < j < |order| && Matches(order[i], g)
    requires forall k :: 0 <= k < |order| ==> Matches(order[k], own[k])
    ensures Greedy(order, own[i := g][j := g']) == Greedy(order[j..], [g'] + own[j + 1..])
  {
    hide Matches, Greedy;
    var gots := own[i := g][j := g'];
    forall k | 0 <= k < j ensures Matches(order[k], gots[k]) {
    }
    HeadsAreTaken(order, gots, j);
    assert gots[j..] == [g'] + own[j + 1..];
  }

  /** The exact condition: the judge accepts every booking that can be paired off
      completely if and only if its processing order is narrow-first. */
  lemma {:induction false} AcceptsAllMatchableIffNarrowFirst(wants: seq<Want>)
    ensures (forall gots :: Matchable(wants, gots) ==> Compare(wants, gots).None?)
       <==> NarrowFirst(OptionsFirst(wants))
  {
    var order := OptionsFirst(wants);
    if NarrowFirst(order) {
      forall gots | Matchable(wants, gots) ensures Compare(wants, gots).None? {
        MatchableSorted(wants, gots);
        var a :| Assigns(a, order, gots) && |Taken(a)| == |order|;
        GreedyIsOptimal(order, gots, a);
        var b := GreedyAssigns(order, gots);
        SizeOfMultiset(Taken(b), gots);
        assert |multiset(Greedy(order, gots).left)| == 0;
      }
    } else {
      var gots := WideFirstLoses(order);
      MatchableSorted(wants, gots);
      assert Matchable(wants, gots) && Compare(wants, gots).Some?;
    }
  }

  /** And so for the positions left over: no assignment at all ever leaves fewer if and
      only if the processing order is narrow-first. */
  lemma {:induction false} FewestMissingIffNarrowFirst(wants: seq<Want>)
    ensures (forall gots, a :: Assigns(a, wants, gots) ==>
               |Greedy(OptionsFirst(wants), gots).missing| <= |wants| - |Taken(a)|)
       <==> NarrowFirst(OptionsFirst(wants))
  {
    var order := OptionsFirst(wants);
    if NarrowFirst(order) {
      forall gots, a | Assigns(a, wants, gots)
        ensures |Greedy(order, gots).missing| <= |wants| - |Taken(a)|
      {
        FewestMissing(wants, gots, a);
      }
    } else {
      var gots := WideFirstLoses(order);
      MatchableSorted(wants, gots);
      var a :| Assigns(a, wants, gots) && |Taken(a)| == |wants|;
      assert |Greedy(order, gots).missing| > |wants| - |Taken(a)|;
    }
  }

  /** What the doc comment of the source promises: with notes on all positions or
      on none, "options first" is narrow-first, so the report is never wrong. */
  lemma {:induction false} UniformNotesAreNarrowFirst(wants: seq<Want>)
    requires (forall w :: w in wants ==> w.note.Some?) || (forall w :: w in wants ==> w.note.None?)
    ensures NarrowFirst(OptionsFirst(wants))
  {
    SplitMembers(wants);
    var order, n := OptionsFirst(wants), |WithOptions(wants)|;
    forall i, j | 0 <= i < j < |order| && Competes(order[i], order[j]) ensures NarrowerThan(order[i], order[j]) {
      assert order[i] in wants && order[j] in wants;
    }
  }

  lemma {:induction false} SplitMembers(wants: seq<Want>)
    ensures forall i :: 0 <= i < |WithOptions(wants)| ==>
              WithOptions(wants)[i] in wants && WithOptions(wants)[i].options.Some?
    ensures forall i :: 0 <= i < |WithoutOptions(wants)| ==>
              WithoutOptions(wants)[i] in wants && WithoutOptions(wants)[i].options.None?
  {
    if wants != [] {
      SplitMembers(wants[1..]);
    }
  }

  /** The family the doc comment overlooks, in its smallest member: both positions
      name the options, only the second names a note. */
  lemma {:induction false} MixedNotesCounterexample(number: string, quantity: int, options: seq<string>)
    ensures var wants := [Want(number, quantity, Some(options), None),
                          Want(number, quantity, Some(options), Some(Some("x")))];
            var gots := [Got(number, quantity, options, Some("x")), Got(number, quantity, options, None)];
            Matchable(wants, gots) && Compare(wants, gots).Some?
  {
    var v := Want(number, quantity, Some(options), None);
    var w := Want(number, quantity, Some(options), Some(Some("x")));
    var g, h := Got(number, quantity, options, Some("x")), Got(number, quantity, options, None);
    assert Norm(Some("x")) == "x" by {
      assert "x"[..1] == "x" && "x"[1..] == "" && WordLength("x") == 1;
      assert Words("x") == ["x"];
    }
    assert Norm(None) == "";
    assert Matches(v, g) && Matches(v, h) && Matches(w, g) && !Matches(w, h);
    TwoWide(v, w, g, h);
  }

  lemma {:induction false} TakenTwo(g: Got, h: Got)
    ensures Taken([Some(g), Some(h)]) == [g, h]
  {
    var one: seq<Option<Got>>, both := [Some(h)], [Some(g), Some(h)];
    assert one[1..] == [] && Taken(one[1..]) == [];
    assert Taken(one) == [h];
    assert both[1..] == one;
  }

  lemma {:induction false} TwoWithOptions(v: Want, w: Want)
    requires v.options.Some? && w.options.Some?
    ensures OptionsFirst([v, w]) == [v, w]
  {
    assert [v, w][1..] == [w] && [w][1..] == [];
    assert WithOptions([]) == [] && WithoutOptions([]) == [];
    assert WithOptions([w]) == [w] && WithoutOptions([w]) == [];
    assert WithOptions([v, w]) == [v] + [w] && WithoutOptions([v, w]) == [];
  }

  lemma {:induction false} TwoWide(v: Want, w: Want, g: Got, h: Got)
    requires v.options.Some? && w.options.Some?
    requires Matches(v, g) && Matches(v, h) && Matches(w, g) && !Matches(w, h)
    ensures Matchable([v, w], [g, h]) && Compare([v, w], [g, h]).Some?
  {
    hide SameOptions, SameText, Lower;
    var a := [Some(h), Some(g)];
    TakenTwo(h, g);
    assert Assigns(a, [v, w], [g, h]);
    TwoWithOptions(v, w);
    assert [v, w][1..] == [w];
    assert Without([g, h], 0) == [h] && FirstMatch(v, [g, h]) == 0;
    assert Greedy([w], [h]).missing == [w];
  }
}
