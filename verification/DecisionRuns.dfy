/** What holds of the decision issue over every sequence of days: full runs, partial
    runs, runs that break off between two writes, and edits by hand. */
module DecisionRuns {
  import opened Wrappers
  import opened DecisionIssue

  function Least(a: nat, b: nat): nat {
    if a < b then a else b
  }

  /** The writes of a day that got through. */
  function Done(issue: Option<Issue>, day: Day): seq<Write> {
    match day
    case Run(findings, failed, done) =>
      var writes := Writes(PlanOf(issue, findings, failed));
      writes[..Least(done, |writes|)]
    case Hand(_, _) => []
  }

  /** Whether a run got all its writes through. */
  predicate Complete(issue: Option<Issue>, day: Day) {
    day.Run? ==> |Writes(PlanOf(issue, day.findings, day.failed))| <= day.done
  }

  /** A run writes, a hand changes what it likes. */
  function Next(issue: Option<Issue>, day: Day): Option<Issue> {
    match day
    case Run(_, _, _) => WrittenAll(issue, Done(issue, day))
    case Hand(body, closed) => if issue.None? then issue else Some(Issue(body, closed))
  }

  function Mentioned(issue: Option<Issue>, day: Day): set<Key> {
    ToldAll(Done(issue, day))
  }

  function After(days: seq<Day>, n: nat): Option<Issue>
    requires n <= |days|
  {
    if n == 0 then None else Next(After(days, n - 1), days[n - 1])
  }

  /** Every key somebody was mentioned for in the first n days. */
  function EverMentioned(days: seq<Day>, n: nat): set<Key>
    requires n <= |days|
  {
    if n == 0 then {} else EverMentioned(days, n - 1) + Mentioned(After(days, n - 1), days[n - 1])
  }

  /** Every key somebody wrote into the marker by hand in the first n days. */
  function EverTyped(days: seq<Day>, n: nat): set<Key>
    requires n <= |days|
  {
    if n == 0 then {} else EverTyped(days, n - 1) + Typed(After(days, n - 1), days[n - 1])
  }

  function Typed(issue: Option<Issue>, day: Day): set<Key> {
    if day.Hand? && issue.Some? then day.body.keys - issue.value.body.keys else {}
  }

  /** The keys that count as reported. */
  function Stored(issue: Option<Issue>): set<Key> {
    if issue.None? then {} else issue.value.body.keys
  }

  predicate IsOpen(issue: Option<Issue>) {
    issue.Some? && !issue.value.closed
  }

  /** The four ways a plan with a text can stop. */
  lemma {:induction false} Stops(issue: Option<Issue>, day: Day)
    requires day.Run?
    ensures var plan := PlanOf(issue, day.findings, day.failed);
            match plan
            case Nothing => Next(issue, day) == issue && Mentioned(issue, day) == {}
            case Create(body) =>
              if day.done == 0 then Next(issue, day) == issue && Mentioned(issue, day) == {}
              else Next(issue, day) == Some(Issue(body, false)) && Mentioned(issue, day) == Told(Post(body))
            case Update(body, comment) =>
              var n := |Said(comment)|;
              && Mentioned(issue, day) == (if comment.Names? && 0 < day.done then comment.keys else {})
              && Next(issue, day) == if day.done <= n then issue else Written(issue, Patch(body, false))
            case Reopen(body, comment) =>
              var n := |Said(comment)|;
              && Mentioned(issue, day) == (if comment.Names? && 0 < day.done then comment.keys else {})
              && Next(issue, day) == if day.done <= n then issue else Written(issue, Patch(body, true))
            case Close(comment) =>
              var n := |Said(comment)|;
              && Mentioned(issue, day) == (if comment.Names? && 0 < day.done then comment.keys else {})
              && Next(issue, day) == if day.done <= n then issue else Written(issue, PatchClosed)
  {
    var plan := PlanOf(issue, day.findings, day.failed);
    var writes := Writes(plan);
    if 0 < |writes| {
      assert writes[..0] == [] && writes[..|writes|] == writes;
      OneMoreWrite(issue, writes, 0);
    }
    if 1 < |writes| {
      OneMoreWrite(issue, writes, 1);
    }
  }

  /** One day stores nothing that was not stored, mentioned or typed. */
  lemma {:induction false} StoresOnlyTold(issue: Option<Issue>, day: Day)
    ensures Stored(Next(issue, day)) <= Stored(issue) + Mentioned(issue, day) + Typed(issue, day)
  {
    if day.Run? {
      Stops(issue, day);
    }
  }

  lemma {:induction false} Widens<T>(was: set<T>, now: set<T>, a: set<T>, b: set<T>, moreA: set<T>, moreB: set<T>)
    requires was <= a + b && now <= was + moreA + moreB
    ensures now <= (a + moreA) + (b + moreB)
  {
  }

  /** Main result: whatever breaks off and when, every key the issue stores as
      reported was mentioned before, but for those somebody wrote there by hand. */
  lemma {:induction false} StoredWasMentioned(days: seq<Day>, n: nat)
    requires n <= |days|
    ensures Stored(After(days, n)) <= EverMentioned(days, n) + EverTyped(days, n)
  {
    assert Stored(None) == {};
    hide Stored, Next, Mentioned, Typed;
    if 0 < n {
      StoredWasMentioned(days, n - 1);
      StoresOnlyTold(After(days, n - 1), days[n - 1]);
      Widens(Stored(After(days, n - 1)), Stored(After(days, n)), EverMentioned(days, n - 1), EverTyped(days, n - 1),
             Mentioned(After(days, n - 1), days[n - 1]), Typed(After(days, n - 1), days[n - 1]));
    }
  }

  /** On this day nothing says that the key is settled: a full run reports it, and no
      hand closes the issue or takes the key out of the marker. */
  predicate StaysOpen(day: Day, key: Key) {
    match day
    case Run(findings, failed, _) => failed.Nobody? ==> key in FindingKeys(Open(findings))
    case Hand(body, closed) => !closed && key in body.keys
  }

  /** A stored key stays stored, and the issue open, while nothing settles the key. */
  lemma {:induction false} KeepsStored(issue: Option<Issue>, day: Day, key: Key)
    requires IsStored(issue, key) && StaysOpen(day, key)
    ensures IsStored(Next(issue, day), key)
    ensures key !in Mentioned(issue, day)
  {
    if day.Run? {
      Stops(issue, day);
    }
  }

  /** What a complete run mentions is stored in an open issue. */
  lemma {:induction false} TellsAndStores(issue: Option<Issue>, day: Day, key: Key)
    requires Complete(issue, day) && key in Mentioned(issue, day)
    ensures IsStored(Next(issue, day), key)
  {
    assert day.Run?;
    Stops(issue, day);
  }

  predicate IsStored(issue: Option<Issue>, key: Key) {
    IsOpen(issue) && key in Stored(issue)
  }

  lemma {:induction false} ToldIsStored(days: seq<Day>, i: nat, key: Key)
    requires i < |days| && Complete(After(days, i), days[i]) && key in Mentioned(After(days, i), days[i])
    ensures IsStored(After(days, i + 1), key)
  {
    TellsAndStores(After(days, i), days[i], key);
  }

  /** A key stays stored from day m to day j while nothing settles it. */
  lemma {:induction false} StaysStored(days: seq<Day>, m: nat, j: nat, key: Key)
    requires m <= j <= |days| && IsStored(After(days, m), key)
    requires forall k :: m <= k < j ==> StaysOpen(days[k], key)
    ensures IsStored(After(days, j), key)
    decreases j
  {
    if m < j {
      StaysStored(days, m, j - 1, key);
      KeepsStored(After(days, j - 1), days[j - 1], key);
    }
  }

  /** Main result: somebody mentioned for a finding is not mentioned again while the
      finding stays open, whatever partial runs, broken-off runs and edits lie in
      between. Only a run that broke off behind its mention leads to a second one. */
  lemma {:induction false} MentionedOnce(days: seq<Day>, i: nat, j: nat, key: Key)
    requires i < j < |days|
    requires key in Mentioned(After(days, i), days[i])
    requires forall k :: i < k <= j ==> StaysOpen(days[k], key)
    requires Complete(After(days, i), days[i])
    ensures key !in Mentioned(After(days, j), days[j])
  {
    ToldIsStored(days, i, key);
    StaysStored(days, i + 1, j, key);
    KeepsStored(After(days, j), days[j], key);
  }

  /** A key that is not stored, or a closed issue, makes a run mention it. */
  lemma {:induction false} MentionsWhatIsNew(issue: Option<Issue>, day: Day, key: Key)
    requires issue.Some? && (issue.value.closed || key !in Stored(issue))
    requires day.Run? && 0 < day.done && key in FindingKeys(Open(day.findings))
    ensures key in Mentioned(issue, day)
  {
    Stops(issue, day);
  }

  /** A run that breaks off behind its mention leaves the issue as it was. */
  lemma {:induction false} BrokenOff(issue: Option<Issue>, day: Day, key: Key)
    requires day.Run? && key in Mentioned(issue, day) && !Complete(issue, day)
    ensures Next(issue, day) == issue && issue.Some? && (issue.value.closed || key !in Stored(issue))
  {
    Stops(issue, day);
  }

  /** And exactly then: the next run that reports the key repeats the mention if and
      only if the text did not follow the mention. */
  lemma {:induction false} RepeatedIffBrokenOff(issue: Option<Issue>, day: Day, next: Day, key: Key)
    requires day.Run? && key in Mentioned(issue, day)
    requires next.Run? && 0 < next.done && key in FindingKeys(Open(next.findings))
    ensures key in Mentioned(Next(issue, day), next) <==> !Complete(issue, day)
  {
    if Complete(issue, day) {
      TellsAndStores(issue, day, key);
      KeepsStored(Next(issue, day), next, key);
    } else {
      BrokenOff(issue, day, key);
      MentionsWhatIsNew(issue, next, key);
    }
  }

  // ---- What a run leaves in the text ----

  lemma {:induction false} OpenHasEntries(findings: seq<Finding>)
    ensures forall i :: 0 <= i < |Open(findings)| ==> Open(findings)[i].entries != []
    ensures forall i :: 0 <= i < |Open(findings)| ==> Reports(findings, Open(findings)[i].heading)
  {
    if findings != [] {
      OpenHasEntries(findings[1..]);
      forall i | 0 <= i < |Open(findings)| ensures Reports(findings, Open(findings)[i].heading) {
        var own := if findings[0].entries == [] then 0 else 1;
        if i < own {
          assert findings[0].heading == Open(findings)[i].heading;
        } else {
          var k :| 0 <= k < |findings[1..]| && findings[1..][k].heading == Open(findings[1..])[i - own].heading;
          assert findings[k + 1].heading == Open(findings)[i].heading;
        }
      }
    }
  }

  lemma {:induction false} FoundSectionsAreSections(lines: seq<Line>)
    ensures forall i :: 0 <= i < |Sections(lines)| ==> IsSection(Sections(lines)[i])
  {
    if lines != [] {
      var n := SectionAt(lines);
      if n == 0 {
        FoundSectionsAreSections(lines[1..]);
      } else {
        FoundSectionsAreSections(lines[n..]);
        var items := ItemCount(lines[2..]);
        assert forall i :: 2 <= i < 2 + items ==> lines[i] == lines[2..][i - 2];
      }
    }
  }

  /** No source that failed owns a heading that another one reports. */
  predicate OwnHeadings(findings: seq<Finding>, failed: Failed) {
    forall i :: 0 <= i < |Open(findings)| ==> !Unknown(failed, findings, Open(findings)[i].heading)
  }

  lemma {:induction false} KeptOfConcat(a: seq<Section>, b: seq<Section>, failed: Failed, findings: seq<Finding>)
    ensures Kept(a + b, failed, findings) == Kept(a, failed, findings) + Kept(b, failed, findings)
  {
    if a == [] {
      assert a + b == b;
    } else {
      KeptOfConcat(a[1..], b, failed, findings);
      assert (a + b)[1..] == a[1..] + b && (a + b)[0] == a[0];
      var head := if Unknown(failed, findings, a[0].heading) then [a[0]] else [];
      assert Kept(a + b, failed, findings) == head + Kept(a[1..] + b, failed, findings);
      Assoc(head, Kept(a[1..], failed, findings), Kept(b, failed, findings));
    }
  }

  lemma {:induction false} KeptAreSections(sections: seq<Section>, failed: Failed, findings: seq<Finding>)
    requires AreSections(sections)
    ensures AreSections(Kept(sections, failed, findings))
    ensures forall s :: s in Kept(sections, failed, findings) ==> Unknown(failed, findings, s.heading)
  {
    if sections != [] {
      KeptAreSections(sections[1..], failed, findings);
    }
  }

  /** Of sections that are all left alone, dropping the empty ones leaves none out. */
  lemma {:induction false} AllKept(sections: seq<Section>, failed: Failed, findings: seq<Finding>)
    requires forall s :: s in sections ==> Unknown(failed, findings, s.heading)
    ensures Kept(WithEntries(sections), failed, findings) == WithEntries(sections)
  {
    if sections != [] {
      var head := if 3 < |sections[0].lines| then [sections[0]] else [];
      AllKept(sections[1..], failed, findings);
      KeptOfConcat(head, WithEntries(sections[1..]), failed, findings);
      assert Kept(head, failed, findings) == head;
    }
  }

  lemma {:induction false} NothingKept(sections: seq<Section>, failed: Failed, findings: seq<Finding>)
    requires forall i :: 0 <= i < |sections| ==> !Unknown(failed, findings, sections[i].heading)
    ensures Kept(sections, failed, findings) == []
  {
    if sections != [] {
      NothingKept(sections[1..], failed, findings);
    }
  }

  /** The sections that a run leaves alone. */
  function LeftAlone(issue: Option<Issue>, day: Day): seq<Section>
    requires day.Run?
  {
    if day.failed.Nobody? || !IsOpen(issue) then []
    else Kept(Sections(issue.value.body.lines), day.failed, day.findings)
  }

  /** What a run writes: its own findings, then the sections it leaves alone. */
  function Shown(issue: Option<Issue>, day: Day): seq<Section>
    requires day.Run?
  {
    AsSections(Open(day.findings)) + LeftAlone(issue, day)
  }

  lemma {:induction false} LeftAloneAre(issue: Option<Issue>, day: Day)
    requires day.Run?
    ensures AreSections(LeftAlone(issue, day))
    ensures forall s :: s in LeftAlone(issue, day) ==> Unknown(day.failed, day.findings, s.heading)
  {
    if IsOpen(issue) && !day.failed.Nobody? {
      FoundSectionsAreSections(issue.value.body.lines);
      KeptAreSections(Sections(issue.value.body.lines), day.failed, day.findings);
    }
  }

  lemma {:induction false} ShownReadsBack(issue: Option<Issue>, day: Day, mention: bool)
    requires day.Run?
    ensures Sections(Lines(mention, Shown(issue, day))) ==
            AsSections(Open(day.findings)) + WithEntries(LeftAlone(issue, day))
  {
    var own, left := AsSections(Open(day.findings)), LeftAlone(issue, day);
    OpenHasEntries(day.findings);
    OwnSectionsAreFilled(Open(day.findings));
    LeftAloneAre(issue, day);
    SectionsReadBack(mention, own + left);
    WithEntriesAppends(own, left);
    AllReadBackIffFilled(own);
  }

  /** The text behind a complete run with something open, or a partial one on an open issue. */
  lemma {:induction false} TextBehindRun(issue: Option<Issue>, day: Day)
    requires day.Run? && Complete(issue, day)
    requires Open(day.findings) != [] || (!day.failed.Nobody? && IsOpen(issue))
    ensures IsOpen(Next(issue, day))
    ensures Next(issue, day).value.body.lines == Lines(issue.None?, Shown(issue, day))
    ensures Stored(Next(issue, day)) ==
            FindingKeys(Open(day.findings)) + if day.failed.Nobody? || !IsOpen(issue) then {} else Stored(issue)
  {
    Stops(issue, day);
    var open := AsSections(Open(day.findings));
    assert open + [] == open;
  }

  /** Main result: behind a complete run the text shows exactly what the run reported,
      in order, and behind it every section of a source that failed, but for those
      without an entry; all that is reported counts as mentioned. */
  lemma {:induction false} ShowsWhatIsOpen(issue: Option<Issue>, day: Day)
    requires day.Run? && Complete(issue, day)
    requires Open(day.findings) != [] || (!day.failed.Nobody? && IsOpen(issue))
    ensures IsOpen(Next(issue, day))
    ensures Sections(Next(issue, day).value.body.lines) ==
            AsSections(Open(day.findings)) + WithEntries(LeftAlone(issue, day))
    ensures FindingKeys(Open(day.findings)) <= Stored(Next(issue, day))
  {
    TextBehindRun(issue, day);
    ShownReadsBack(issue, day, issue.None?);
  }

  /** Wherever a partial run stops: the issue stays open and no key is forgotten. */
  lemma {:induction false} PartialNeverCloses(issue: Option<Issue>, day: Day)
    requires day.Run? && !day.failed.Nobody? && IsOpen(issue)
    ensures IsOpen(Next(issue, day)) && Stored(issue) <= Stored(Next(issue, day))
  {
    Stops(issue, day);
  }

  /** What a complete partial run leaves of the sections of the sources that failed. */
  lemma {:induction false} LeftOfUnknown(issue: Option<Issue>, day: Day)
    requires day.Run? && !day.failed.Nobody? && IsOpen(issue) && Complete(issue, day)
    requires OwnHeadings(day.findings, day.failed)
    ensures IsOpen(Next(issue, day))
    ensures Kept(Sections(Next(issue, day).value.body.lines), day.failed, day.findings) ==
            WithEntries(LeftAlone(issue, day))
  {
    var own, left := AsSections(Open(day.findings)), LeftAlone(issue, day);
    ShowsWhatIsOpen(issue, day);
    OpenHasEntries(day.findings);
    OwnSectionsAreFilled(Open(day.findings));
    NothingKept(own, day.failed, day.findings);
    KeptOfConcat(own, WithEntries(left), day.failed, day.findings);
    LeftAloneAre(issue, day);
    AllKept(left, day.failed, day.findings);
  }

  /** Main result: a complete partial run leaves the sections of the sources that failed
      as they were if and only if each of them has an entry. */
  lemma {:induction false} PartialKeepsUnknownIffFilled(issue: Option<Issue>, day: Day)
    requires day.Run? && !day.failed.Nobody? && IsOpen(issue) && Complete(issue, day)
    requires OwnHeadings(day.findings, day.failed)
    ensures IsOpen(Next(issue, day))
    ensures var before := Kept(Sections(issue.value.body.lines), day.failed, day.findings);
            Kept(Sections(Next(issue, day).value.body.lines), day.failed, day.findings) == before <==> Filled(before)
  {
    LeftOfUnknown(issue, day);
    LeftAloneAre(issue, day);
    AllReadBackIffFilled(LeftAlone(issue, day));
  }

  /** Wherever a partial run stops, such sections stay as they were. */
  lemma {:induction false} PartialKeepsUnknown(issue: Option<Issue>, day: Day)
    requires day.Run? && !day.failed.Nobody? && IsOpen(issue)
    requires OwnHeadings(day.findings, day.failed)
    requires Filled(Kept(Sections(issue.value.body.lines), day.failed, day.findings))
    ensures IsOpen(Next(issue, day))
    ensures Kept(Sections(Next(issue, day).value.body.lines), day.failed, day.findings) ==
            Kept(Sections(issue.value.body.lines), day.failed, day.findings)
  {
    Stops(issue, day);
    if Next(issue, day) != issue {
      PartialKeepsUnknownIffFilled(issue, day);
    }
  }

  /** Main result: unchanged findings settle. After one complete run the next one
      writes nothing, but for the one that follows the opening of the issue, which
      takes the mention out of the text; behind that one nothing is written. */
  lemma {:induction false} FullRunsSettle(issue: Option<Issue>, findings: seq<Finding>, done: nat, again: nat)
    requires 2 <= done && 2 <= again
    ensures var day, next := Run(findings, Nobody, done), Run(findings, Nobody, again);
            var first := Next(issue, day);
            && (PlanOf(first, findings, Nobody) == Nothing <==> issue.Some? || Open(findings) == [])
            && Mentioned(first, next) == {}
            && PlanOf(Next(first, next), findings, Nobody) == Nothing
  {
    var day, next := Run(findings, Nobody, done), Run(findings, Nobody, again);
    var first := Next(issue, day);
    Stops(issue, day);
    Stops(first, next);
    if Open(findings) != [] {
      TextBehindRun(issue, day);
      TextBehindRun(first, next);
      assert Lines(true, AsSections(Open(findings)) + [])[0] == Intro(true);
    }
  }

  /** Each empty section stands in the text with two lines. */
  lemma {:induction false} FlatShrinks(sections: seq<Section>)
    requires AreSections(sections)
    ensures |Flat(sections)| == |Flat(WithEntries(sections))| + 2 * (|sections| - |WithEntries(sections)|)
  {
    if sections != [] {
      FlatShrinks(sections[1..]);
      if 3 < |sections[0].lines| {
        assert WithEntries(sections)[1..] == WithEntries(sections[1..]);
      } else {
        assert WithEntries(sections) == WithEntries(sections[1..]);
      }
    }
  }

  lemma {:induction false} FlatConcat(a: seq<Section>, b: seq<Section>)
    ensures Flat(a + b) == Flat(a) + Flat(b)
  {
    if a == [] {
      assert a + b == b;
    } else {
      FlatConcat(a[1..], b);
      assert (a + b)[1..] == a[1..] + b && (a + b)[0] == a[0];
      Assoc(KeptLines(a[0]), Flat(a[1..]), Flat(b));
    }
  }

  /** The text of a run says whether an empty section went with it. */
  lemma {:induction false} SameTextIffFilled(own: seq<Section>, left: seq<Section>)
    requires AreSections(left)
    ensures Lines(false, own + left) == Lines(false, own + WithEntries(left)) <==> Filled(left)
  {
    AllReadBackIffFilled(left);
    FlatConcat(own, left);
    FlatConcat(own, WithEntries(left));
    FlatShrinks(left);
    if Lines(false, own + left) == Lines(false, own + WithEntries(left)) {
      var a, b := Lines(false, own + left), Lines(false, own + WithEntries(left));
      var n := 2 + |Flat(own)|;
      assert a[n..|a| - 1] == Flat(left) && b[n..|b| - 1] == Flat(WithEntries(left));
    }
  }

  /** Main result for partial runs on an open issue, with unchanged findings: the second
      one mentions nobody, writes nothing exactly when every section it left alone has an
      entry, and the third writes nothing. */
  lemma {:induction false} PartialRunsSettle(issue: Option<Issue>, findings: seq<Finding>, failed: Failed,
                                             done: nat, again: nat)
    requires !failed.Nobody? && IsOpen(issue) && 2 <= done && 2 <= again && OwnHeadings(findings, failed)
    ensures var day, next := Run(findings, failed, done), Run(findings, failed, again);
            var first := Next(issue, day);
            && (PlanOf(first, findings, failed) == Nothing <==> Filled(LeftAlone(issue, day)))
            && Mentioned(first, next) == {}
            && PlanOf(Next(first, next), findings, failed) == Nothing
  {
    var day, next := Run(findings, failed, done), Run(findings, failed, again);
    var first := Next(issue, day);
    PartialSecond(issue, day);
    LeftOfUnknown(issue, day);
    LeftAloneAre(issue, day);
    AllReadBackIffFilled(LeftAlone(issue, day));
    Stops(first, next);
    PartialSecond(first, next);
    TextBehindRun(issue, day);
  }

  /** One partial run and the plan of the next one with the same findings. */
  lemma {:induction false} PartialSecond(issue: Option<Issue>, day: Day)
    requires day.Run? && !day.failed.Nobody? && IsOpen(issue) && Complete(issue, day)
    requires OwnHeadings(day.findings, day.failed)
    ensures IsOpen(Next(issue, day))
    ensures FindingKeys(Open(day.findings)) <= Stored(Next(issue, day))
    ensures PlanOf(Next(issue, day), day.findings, day.failed) == Nothing <==> Filled(LeftAlone(issue, day))
  {
    TextBehindRun(issue, day);
    LeftOfUnknown(issue, day);
    LeftAloneAre(issue, day);
    var own, left, body := AsSections(Open(day.findings)), LeftAlone(issue, day), Next(issue, day).value.body;
    assert body.lines == Lines(false, own + left);
    assert FindingKeys(Open(day.findings)) + body.keys == body.keys;
    SameTextIffFilled(own, left);
  }

  /** A section that somebody emptied by hand is such a case: a partial run takes its last
      line, and the text shows it no more. */
  lemma {:induction false} EmptiedSectionIsLost(heading: string, count: nat, keys: set<Key>)
    ensures var lines := [Heading(heading, count), Blank, Blank, Closing];
            var issue := Some(Issue(Body(lines, keys), false));
            var day := Run([], Board, 2);
            && Kept(Sections(lines), Board, []) == [Section(heading, lines[..3])]
            && Next(issue, day).Some? && Kept(Sections(Next(issue, day).value.body.lines), Board, []) == []
  {
    var lines := [Heading(heading, count), Blank, Blank, Closing];
    var issue := Some(Issue(Body(lines, keys), false));
    var day := Run([], Board, 2);
    var s := Section(heading, lines[..3]);
    assert lines == s.lines + [Closing];
    assert Sections([Closing]) == [] by { ScanPlain(Closing, []); }
    ScanSection(s, [Closing]);
    assert [s] + [] == [s] && [s][1..] == [];
    assert Kept([s], Board, []) == [s];
    assert WithEntries([s]) == [];
    LeftOfUnknown(issue, day);
  }
}
