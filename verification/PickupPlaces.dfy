/** Where the parts of a sentence go (sim/scripted_order.py): with several parts in one
    result each has its place, and what is said about them is said in order. */
module PickupPlaces {
  import opened Wrappers
  import opened PickupScript
  import opened PickupSteps
  import opened PickupSound

  /** Part j is the first that was not found clearly. */
  predicate FirstAsked(parts: seq<Part>, j: nat) {
    j < |parts| && !parts[j].Clear? && forall k :: 0 <= k < j ==> parts[k].Clear?
  }

  /** Part k was not found clearly either, behind the first. */
  predicate AskedLater(parts: seq<Part>, k: nat) {
    k < |parts| && !parts[k].Clear? && exists j :: 0 <= j < k && !parts[j].Clear?
  }

  predicate OutToday(part: Part) {
    part.Clear? && part.hit.soldOut
  }

  predicate Rising(at: seq<nat>) {
    forall i, j :: 0 <= i < j < |at| ==> at[i] < at[j]
  }

  /** The queries of all parts that are asked later, in order. */
  ghost predicate AreLater(parts: seq<Part>, at: seq<nat>, queries: seq<string>) {
    && Rising(at) && |queries| == |at|
    && (forall i :: 0 <= i < |at| ==> AskedLater(parts, at[i]) && queries[i] == parts[at[i]].query)
    && (forall k: nat :: AskedLater(parts, k) ==> k in at)
  }

  /** The sentences for all parts that are out today, in order. */
  predicate AreOut(parts: seq<Part>, at: seq<nat>, said: seq<Sentence>) {
    && Rising(at) && |said| == |at|
    && (forall i :: 0 <= i < |at| ==>
          at[i] < |parts| && OutToday(parts[at[i]]) && said[i] == SoldOut(parts[at[i]].hit))
    && (forall k :: 0 <= k < |parts| && OutToday(parts[k]) ==> k in at)
  }

  lemma {:induction false} FirstIs(parts: seq<Part>)
    ensures forall j: nat :: FirstAsked(parts, j) ==> FirstUnclear(parts) == Some(parts[j])
    ensures FirstUnclear(parts).Some? ==> exists j: nat :: FirstAsked(parts, j)
    ensures FirstUnclear(parts).None? <==> forall k :: 0 <= k < |parts| ==> parts[k].Clear?
  {
    if parts != [] {
      var n := |parts| - 1;
      FirstIs(parts[..n]);
      assert forall k :: 0 <= k < n ==> parts[..n][k] == parts[k];
      forall j: nat | j < n ensures FirstAsked(parts, j) == FirstAsked(parts[..n], j) {
      }
      if j: nat :| FirstAsked(parts[..n], j) {
        assert FirstAsked(parts, j);
      } else if !parts[n].Clear? {
        assert FirstAsked(parts, n);
      }
    }
  }

  lemma {:induction false} LaterBefore(parts: seq<Part>, k: nat)
    requires parts != []
    ensures var n := |parts| - 1;
            AskedLater(parts, k) <==>
              if k < n then AskedLater(parts[..n], k)
              else k == n && !parts[n].Clear? && FirstUnclear(parts[..n]).Some?
  {
    var n := |parts| - 1;
    FirstIs(parts[..n]);
    assert forall j :: 0 <= j < n ==> parts[..n][j] == parts[j];
    hide FirstUnclear;
  }

  lemma {:induction false} LatersAre(parts: seq<Part>) returns (at: seq<nat>)
    ensures AreLater(parts, at, Laters(parts))
  {
    at := [];
    if parts != [] {
      var n := |parts| - 1;
      var front := LatersAre(parts[..n]);
      forall k: nat {
        LaterBefore(parts, k);
      }
      at := front + if AskedLater(parts, n) then [n] else [];
      assert forall k :: 0 <= k < n ==> parts[..n][k] == parts[k];
      hide AskedLater, FirstUnclear;
    }
  }

  lemma {:induction false} OutAre(parts: seq<Part>) returns (at: seq<nat>)
    ensures AreOut(parts, at, SoldOuts(parts))
  {
    if parts == [] {
      at := [];
    } else {
      var front := OutAre(parts[..|parts| - 1]);
      at := OneMoreOut(parts, front, SoldOuts(parts[..|parts| - 1]));
    }
  }

  lemma {:induction false} OneMoreOut(parts: seq<Part>, front: seq<nat>, said: seq<Sentence>) returns (at: seq<nat>)
    requires parts != [] && AreOut(parts[..|parts| - 1], front, said)
    ensures var last := parts[|parts| - 1];
            AreOut(parts, at, said + if OutToday(last) then [SoldOut(last.hit)] else [])
  {
    var n := |parts| - 1;
    assert forall k :: 0 <= k < n ==> parts[..n][k] == parts[k];
    hide OutToday;
    at := front + if OutToday(parts[n]) then [n] else [];
  }

  /** What is asked about a part that was not found clearly. */
  predicate Asks(part: Part, q: Sentence) {
    (part.Several? && q == Offer(part.hits)) || (part.Unclear? && q == part.say)
  }

  /** The question behind these parts: the one about the first that is not clear. */
  ghost predicate IsQuestion(parts: seq<Part>, qs: seq<Sentence>) {
    if exists j: nat :: FirstAsked(parts, j)
    then |qs| == 1 && forall j: nat :: FirstAsked(parts, j) ==> Asks(parts[j], qs[0])
    else qs == []
  }

  lemma {:induction false} QuestionsAre(parts: seq<Part>)
    ensures IsQuestion(parts, Questions(parts))
  {
    FirstIs(parts);
  }

  /** The suggestions that stay open behind these parts, and the wish that waits with
      them: those of the first part that is not clear, if it has several hits. */
  ghost predicate AreOffered(parts: seq<Part>, s: Standing) {
    && (forall j: nat :: FirstAsked(parts, j) ==>
          if parts[j].Several?
          then s.suggestions == parts[j].hits && s.suggestionWish == parts[j].raw && s.phase == Choose
          else s.suggestions == [])
    && ((forall j: nat :: !FirstAsked(parts, j)) ==> s.suggestions == [])
  }

  lemma {:induction false} OfferedAre(parts: seq<Part>, was: Standing)
    requires forall i :: 0 <= i < |parts| ==> PartOk(parts[i])
    ensures AreOffered(parts, Behind(parts, was))
  {
    FirstIs(parts);
    hide Lines, Laters, AllergiesOf, GroupsOf, HeldOf;
  }

  /** Main result for a sentence of several parts: what is asked about now is the first
      part that is not clear, all further ones are asked later in order, and what is
      spoken is what was carried along, what the search says, what is out today in
      order, and that question, which is held back while one about a line is open. */
  lemma {:induction false} PartsHaveTheirPlaces(was: Standing, found: Found, slots: Slots)
    returns (later: seq<nat>, out: seq<nat>, queries: seq<string>, said: seq<Sentence>, asked: seq<Sentence>)
    requires was.Sound() && Possible(was, SearchFound(found, slots)) && was.replace.None? && found.Positions?
    ensures AreLater(found.parts, later, queries) && AreOut(found.parts, out, said) && IsQuestion(found.parts, asked)
    ensures var way := FoundWay(was, found, slots);
            && way.Goes? && way.slots == slots && AreOffered(found.parts, way.ahead)
            && way.ahead.later == was.later + queries
            && way.lead == was.carry + found.say + said + (if way.ahead.Open() then [] else asked)
            && way.ahead.afterAllergy == if way.ahead.Open() then asked else []
  {
    var parts := found.parts;
    later := LatersAre(parts);
    out := OutAre(parts);
    queries, said, asked := Laters(parts), SoldOuts(parts), Questions(parts);
    QuestionsAre(parts);
    OfferedAre(parts, was.(awaiting := Guest, reopen := []));
    hide Lines, Laters, SoldOuts, Questions, AllergiesOf, GroupsOf, Offered, OfferedWish, Carries, AreLater, AreOut;
    hide IsQuestion;
  }
}
