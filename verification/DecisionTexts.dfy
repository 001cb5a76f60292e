/** What the decision issue says (scripts/decision_issue.py), read off the findings of
    the run and the sections that were there, without the functions that build it. */
module DecisionTexts {
  import opened Wrappers
  import opened DecisionIssue
  import opened DecisionRuns

  // ---- Keys ----

  /** The key of entry j of finding i: its heading and what identifies the entry. */
  predicate IsKeyOf(findings: seq<Finding>, i: nat, j: nat, key: Key) {
    && i < |findings| && j < |findings[i].entries|
    && key.heading == findings[i].heading && key.id == findings[i].entries[j].id
  }

  lemma {:induction false} KeysOfOne(heading: string, entries: seq<Entry>, key: Key)
    ensures key in KeysOf(heading, entries) <==>
              key.heading == heading && exists j :: 0 <= j < |entries| && entries[j].id == key.id
  {
    if entries != [] {
      KeysOfOne(heading, entries[1..], key);
      if j :| 0 <= j < |entries| && entries[j].id == key.id && j > 0 {
        assert entries[1..][j - 1].id == key.id;
      }
      if j :| 0 <= j < |entries[1..]| && entries[1..][j].id == key.id {
        assert entries[j + 1].id == key.id;
      }
    }
  }

  /** The keys of a run are those of its entries, whatever their texts. */
  lemma {:induction false} KeysIff(findings: seq<Finding>, key: Key)
    ensures key in FindingKeys(findings) <==> exists i, j :: IsKeyOf(findings, i, j, key)
  {
    if findings != [] {
      var rest := findings[1..];
      KeysIff(rest, key);
      KeysOfOne(findings[0].heading, findings[0].entries, key);
      if key in KeysOf(findings[0].heading, findings[0].entries) {
        var j :| 0 <= j < |findings[0].entries| && findings[0].entries[j].id == key.id;
        assert IsKeyOf(findings, 0, j, key);
      }
      if i: nat, j: nat :| IsKeyOf(rest, i, j, key) {
        assert IsKeyOf(findings, i + 1, j, key);
      }
      if i: nat, j: nat :| IsKeyOf(findings, i, j, key) && i > 0 {
        assert IsKeyOf(rest, i - 1, j, key);
      }
    }
  }

  /** What has no entry has no key. */
  lemma {:induction false} KeysOfOpen(findings: seq<Finding>)
    ensures FindingKeys(Open(findings)) == FindingKeys(findings)
  {
    if findings != [] {
      KeysOfOpen(findings[1..]);
      if findings[0].entries == [] {
        assert KeysOf(findings[0].heading, []) == {} && Open(findings) == Open(findings[1..]);
      } else {
        assert Open(findings)[1..] == Open(findings[1..]) && Open(findings)[0] == findings[0];
      }
    }
  }

  // ---- Sections ----

  predicate Rising(at: seq<nat>) {
    forall i, j :: 0 <= i < j < |at| ==> at[i] < at[j]
  }

  function Shifted(at: seq<nat>): (later: seq<nat>)
    ensures |later| == |at| && forall i :: 0 <= i < |at| ==> later[i] == at[i] + 1
  {
    seq(|at|, i requires 0 <= i < |at| => at[i] + 1)
  }

  /** These are the places of the findings that have entries, in order. */
  predicate AreOpen(at: seq<nat>, findings: seq<Finding>) {
    && Rising(at)
    && (forall i :: 0 <= i < |at| ==> at[i] < |findings| && findings[at[i]].entries != [])
    && (forall k :: 0 <= k < |findings| && findings[k].entries != [] ==> k in at)
  }

  /** The section of a finding: its heading with the number of its entries, and one item
      for each of them. */
  predicate Shows(s: Section, finding: Finding) {
    && s.heading == finding.heading && |s.lines| == |finding.entries| + 3
    && s.lines[0] == Heading(finding.heading, |finding.entries|) && s.lines[1] == Blank
    && (forall j :: 0 <= j < |finding.entries| ==> s.lines[j + 2] == Item(finding.entries[j].text))
    && s.lines[|s.lines| - 1] == Blank
  }

  lemma {:induction false} ItemsAre(entries: seq<Entry>)
    ensures |Items(entries)| == |entries|
    ensures forall j :: 0 <= j < |entries| ==> Items(entries)[j] == Item(entries[j].text)
  {
    if entries != [] {
      ItemsAre(entries[1..]);
    }
  }

  lemma {:induction false} OwnSectionShows(finding: Finding)
    ensures Shows(Section(finding.heading, SectionLines(finding)), finding)
  {
    ItemsAre(finding.entries);
  }

  /** One section for each of these findings, in order. */
  predicate AllShown(sections: seq<Section>, findings: seq<Finding>, at: seq<nat>) {
    && |sections| == |at|
    && forall i :: 0 <= i < |at| ==> at[i] < |findings| && Shows(sections[i], findings[at[i]])
  }

  lemma {:induction false} OwnSectionsShow(findings: seq<Finding>) returns (at: seq<nat>)
    ensures AreOpen(at, findings) && AllShown(AsSections(Open(findings)), findings, at)
  {
    if findings == [] {
      at := [];
    } else {
      var rest := OwnSectionsShow(findings[1..]);
      OpenPlaces(findings, rest);
      at := (if findings[0].entries == [] then [] else [0]) + Shifted(rest);
      FirstShown(findings, AsSections(Open(findings[1..])), rest);
      OpenFirst(findings);
    }
  }

  lemma {:induction false} OpenFirst(findings: seq<Finding>)
    requires findings != []
    ensures AsSections(Open(findings)) ==
            (if findings[0].entries == [] then [] else [Section(findings[0].heading, SectionLines(findings[0]))])
            + AsSections(Open(findings[1..]))
  {
    if findings[0].entries == [] {
      assert Open(findings) == Open(findings[1..]);
    } else {
      assert Open(findings)[0] == findings[0] && Open(findings)[1..] == Open(findings[1..]);
    }
  }

  lemma {:induction false} FirstShown(findings: seq<Finding>, sections: seq<Section>, rest: seq<nat>)
    requires findings != [] && AllShown(sections, findings[1..], rest)
    ensures var own := Section(findings[0].heading, SectionLines(findings[0]));
            && AllShown(sections, findings, Shifted(rest))
            && AllShown([own] + sections, findings, [0] + Shifted(rest))
  {
    OwnSectionShows(findings[0]);
    hide Shows, SectionLines;
    assert forall i :: 0 <= i < |rest| ==> findings[1..][rest[i]] == findings[rest[i] + 1];
  }

  lemma {:induction false} OpenPlaces(findings: seq<Finding>, rest: seq<nat>)
    requires findings != [] && AreOpen(rest, findings[1..])
    ensures AreOpen((if findings[0].entries == [] then [] else [0]) + Shifted(rest), findings)
  {
    forall k | 0 < k < |findings| && findings[k].entries != [] ensures k in Shifted(rest) {
      assert findings[1..][k - 1] == findings[k];
      var i :| 0 <= i < |rest| && rest[i] == k - 1;
      assert Shifted(rest)[i] == k;
    }
  }

  /** A section a partial run leaves alone: one of a source that failed, or, when the
      board failed, one that no finding of the run has the heading of. */
  predicate IsLeft(s: Section, failed: Failed, findings: seq<Finding>) {
    match failed
    case Owners(headings) => s.heading in headings
    case _ => forall i :: 0 <= i < |findings| ==> findings[i].heading != s.heading
  }

  /** And it has an entry. */
  predicate StaysLeft(s: Section, failed: Failed, findings: seq<Finding>) {
    IsLeft(s, failed, findings) && 3 < |s.lines|
  }

  /** These are the places of the sections that are left alone and have an entry. */
  predicate AreLeft(at: seq<nat>, sections: seq<Section>, failed: Failed, findings: seq<Finding>) {
    && Rising(at)
    && (forall i :: 0 <= i < |at| ==> at[i] < |sections| && StaysLeft(sections[at[i]], failed, findings))
    && (forall k :: 0 <= k < |sections| && StaysLeft(sections[k], failed, findings) ==> k in at)
  }

  lemma {:induction false} LeftSections(sections: seq<Section>, failed: Failed, findings: seq<Finding>)
    returns (at: seq<nat>)
    requires AreSections(sections)
    ensures AreLeft(at, sections, failed, findings) && |WithEntries(Kept(sections, failed, findings))| == |at|
    ensures forall i :: 0 <= i < |at| ==> WithEntries(Kept(sections, failed, findings))[i] == sections[at[i]]
  {
    if sections == [] {
      at := [];
    } else {
      var rest := LeftSections(sections[1..], failed, findings);
      LeftPlaces(sections, failed, findings, rest);
      LeftFirst(sections, failed, findings);
      at := (if StaysLeft(sections[0], failed, findings) then [0] else []) + Shifted(rest);
      hide Kept, WithEntries, StaysLeft, IsLeft;
    }
  }

  lemma {:induction false} LeftFirst(sections: seq<Section>, failed: Failed, findings: seq<Finding>)
    requires sections != []
    ensures WithEntries(Kept(sections, failed, findings)) ==
            (if StaysLeft(sections[0], failed, findings) then [sections[0]] else [])
            + WithEntries(Kept(sections[1..], failed, findings))
  {
    var head := if Unknown(failed, findings, sections[0].heading) then [sections[0]] else [];
    assert Unknown(failed, findings, sections[0].heading) == IsLeft(sections[0], failed, findings);
    WithEntriesAppends(head, Kept(sections[1..], failed, findings));
    assert [sections[0]][1..] == [];
    assert WithEntries(head) == if StaysLeft(sections[0], failed, findings) then [sections[0]] else [];
  }

  lemma {:induction false} LeftPlaces(sections: seq<Section>, failed: Failed, findings: seq<Finding>, rest: seq<nat>)
    requires sections != [] && AreLeft(rest, sections[1..], failed, findings)
    ensures AreLeft((if StaysLeft(sections[0], failed, findings) then [0] else []) + Shifted(rest),
                    sections, failed, findings)
  {
    hide StaysLeft;
    forall k | 0 < k < |sections| && StaysLeft(sections[k], failed, findings) ensures k in Shifted(rest) {
      assert sections[1..][k - 1] == sections[k];
      var i :| 0 <= i < |rest| && rest[i] == k - 1;
      assert Shifted(rest)[i] == k;
    }
  }

  /** A partial run, and the issue is open. */
  predicate Continues(day: Day, issue: Option<Issue>)
    requires day.Run?
  {
    !day.failed.Nobody? && issue.Some? && !issue.value.closed
  }

  /** The sections a partial run of an open issue finds there. */
  function Before(issue: Option<Issue>, day: Day): seq<Section>
    requires day.Run?
  {
    if Continues(day, issue) then Sections(issue.value.body.lines) else []
  }

  /** Main result: behind a complete run the text shows one section for each finding
      with entries, in order and item by item, and behind them, on a partial run of an
      open issue, the sections of the failed sources that have an entry, as they were. */
  lemma {:induction false} RunShows(issue: Option<Issue>, day: Day) returns (own: seq<nat>, left: seq<nat>)
    requires day.Run? && Complete(issue, day)
    requires (exists i :: 0 <= i < |day.findings| && day.findings[i].entries != []) || Continues(day, issue)
    ensures IsOpen(Next(issue, day))
    ensures AreOpen(own, day.findings) && AreLeft(left, Before(issue, day), day.failed, day.findings)
    ensures var shown := Sections(Next(issue, day).value.body.lines);
            && |shown| == |own| + |left|
            && (forall i :: 0 <= i < |own| ==> Shows(shown[i], day.findings[own[i]]))
            && (forall i :: 0 <= i < |left| ==> shown[|own| + i] == Before(issue, day)[left[i]])
  {
    hide Shows, Open, AsSections, WithEntries, StaysLeft, Next, Complete, Sections, Kept;
    own := OwnSectionsShow(day.findings);
    var was := Before(issue, day);
    if was != [] {
      FoundSectionsAreSections(issue.value.body.lines);
    }
    left := LeftSections(was, day.failed, day.findings);
    SomeOpen(day.findings, own);
    ShowsWhatIsOpen(issue, day);
    LeftAloneIs(issue, day);
    Together(AsSections(Open(day.findings)), WithEntries(Kept(was, day.failed, day.findings)), day.findings, own, was,
             left);
  }

  lemma {:induction false} LeftAloneIs(issue: Option<Issue>, day: Day)
    requires day.Run?
    ensures LeftAlone(issue, day) == Kept(Before(issue, day), day.failed, day.findings)
  {
  }

  lemma {:induction false} Together(a: seq<Section>, b: seq<Section>, findings: seq<Finding>, own: seq<nat>,
                                    was: seq<Section>, left: seq<nat>)
    requires AllShown(a, findings, own) && |b| == |left|
    requires forall i :: 0 <= i < |left| ==> left[i] < |was| && b[i] == was[left[i]]
    ensures |a + b| == |own| + |left|
    ensures forall i :: 0 <= i < |own| ==> Shows((a + b)[i], findings[own[i]])
    ensures forall i :: 0 <= i < |left| ==> (a + b)[|own| + i] == was[left[i]]
  {
    hide Shows;
  }

  lemma {:induction false} SomeOpen(findings: seq<Finding>, own: seq<nat>)
    requires AreOpen(own, findings) && AllShown(AsSections(Open(findings)), findings, own)
    ensures (exists i :: 0 <= i < |findings| && findings[i].entries != []) ==> Open(findings) != []
  {
  }

  /** And it stores the keys of the findings and, on such a run, all that were there. */
  lemma {:induction false} RunStores(issue: Option<Issue>, day: Day, key: Key)
    requires day.Run? && Complete(issue, day)
    requires (exists i :: 0 <= i < |day.findings| && day.findings[i].entries != []) || Continues(day, issue)
    ensures key in Stored(Next(issue, day)) <==>
              || (exists i, j :: IsKeyOf(day.findings, i, j, key))
              || (Continues(day, issue) && key in issue.value.body.keys)
  {
    var own := OwnSectionsShow(day.findings);
    SomeOpen(day.findings, own);
    TextBehindRun(issue, day);
    KeysOfOpen(day.findings);
    KeysIff(day.findings, key);
  }
}
