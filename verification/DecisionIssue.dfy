/** The one issue that collects what the daily project run cannot decide
    (scripts/decision_issue.py): what a run wants of it, in which order it writes, and
    what holds over any sequence of full, partial and broken-off runs. A body is its
    lines and the keys of its marker; KeysMarker shows that the keys are read back. */
module DecisionIssue {
  import opened Wrappers

  /** `id` is what identifies the entry: board id, else url, else label. */
  datatype Entry = Entry(id: string, text: string)

  datatype Finding = Finding(heading: string, entries: seq<Entry>)

  /** The digest of heading and identity. */
  datatype Key = Key(heading: string, id: string)

  datatype Line =
    | Intro(mention: bool)
    | Blank
    | Heading(name: string, count: nat)
    | Item(text: string)
    | Closing
    | Other(text: string)

  datatype Section = Section(heading: string, lines: seq<Line>)

  datatype Body = Body(lines: seq<Line>, keys: set<Key>)

  datatype Issue = Issue(body: Body, closed: bool)

  datatype Comment = NoComment | Names(keys: set<Key>) | AllDone

  datatype Plan =
    | Nothing
    | Create(body: Body)
    | Update(body: Body, comment: Comment)
    | Reopen(body: Body, comment: Comment)
    | Close(comment: Comment)

  /** One request that changes something at GitHub. */
  datatype Write = Say(comment: Comment) | Post(body: Body) | Patch(body: Body, open: bool) | PatchClosed

  /** One day: a run that saw these findings and got `done` of its writes through, or
      somebody who edits the text with its marker by hand, opens or closes the issue. */
  datatype Day =
    | Run(findings: seq<Finding>, failed: Failed, done: nat)
    | Hand(body: Body, closed: bool)

  /** Which sources failed: none, those that own these headings, or the board, whose
      headings nobody knows. */
  datatype Failed = Nobody | Owners(headings: set<string>) | Board

  // ---- Keys and text ----

  function KeysOf(heading: string, entries: seq<Entry>): set<Key> {
    if entries == [] then {} else {Key(heading, entries[0].id)} + KeysOf(heading, entries[1..])
  }

  function FindingKeys(findings: seq<Finding>): set<Key> {
    if findings == [] then {}
    else KeysOf(findings[0].heading, findings[0].entries) + FindingKeys(findings[1..])
  }

  /** Only what has entries is open. */
  function Open(findings: seq<Finding>): seq<Finding> {
    if findings == [] then []
    else (if findings[0].entries == [] then [] else [findings[0]]) + Open(findings[1..])
  }

  predicate Reports(findings: seq<Finding>, heading: string) {
    exists i :: 0 <= i < |findings| && findings[i].heading == heading
  }

  function Items(entries: seq<Entry>): seq<Line> {
    if entries == [] then [] else [Item(entries[0].text)] + Items(entries[1..])
  }

  function SectionLines(finding: Finding): seq<Line> {
    [Heading(finding.heading, |finding.entries|), Blank] + Items(finding.entries) + [Blank]
  }

  function AsSections(findings: seq<Finding>): seq<Section> {
    if findings == [] then []
    else [Section(findings[0].heading, SectionLines(findings[0]))] + AsSections(findings[1..])
  }

  /** A kept section loses its last blank line when nothing stands above it. */
  function KeptLines(section: Section): seq<Line> {
    if |section.lines| == 3 then section.lines[..2] else section.lines
  }

  function Flat(sections: seq<Section>): seq<Line> {
    if sections == [] then [] else KeptLines(sections[0]) + Flat(sections[1..])
  }

  function Lines(mention: bool, sections: seq<Section>): seq<Line> {
    [Intro(mention), Blank] + Flat(sections) + [Closing]
  }

  /** The body a run writes, as a reader sees it. */
  function Rendered(findings: seq<Finding>, mention: bool, kept: seq<Section>, keptKeys: set<Key>): Body {
    Body(Lines(mention, AsSections(findings) + kept), FindingKeys(findings) + keptKeys)
  }

  /** The body as the source writes it, line after line. */
  method RenderBody(findings: seq<Finding>, mention: bool, kept: seq<Section>, keptKeys: set<Key>) returns (body: Body)
    requires forall i :: 0 <= i < |findings| ==> findings[i].entries != []
    ensures body == Rendered(findings, mention, kept, keptKeys)
  {
    ghost var head := [Intro(mention), Blank];
    var lines := [Intro(mention), Blank];
    for i := 0 to |findings|
      invariant lines == head + Flat(AsSections(findings[..i]))
    {
      lines := RenderSection(lines, findings[i]);
      OneMoreSection(findings, i);
      Assoc(head, Flat(AsSections(findings[..i])), SectionLines(findings[i]));
    }
    ghost var own := AsSections(findings);
    assert findings[..|findings|] == findings && own + kept[..0] == own;
    for i := 0 to |kept|
      invariant lines == head + Flat(own + kept[..i])
    {
      FlatAppends(own + kept[..i], kept[i]);
      assert kept[..i + 1] == kept[..i] + [kept[i]];
      Assoc(own, kept[..i], [kept[i]]);
      Assoc(head, Flat(own + kept[..i]), KeptLines(kept[i]));
      lines := lines + KeptLines(kept[i]);
    }
    assert kept[..|kept|] == kept;
    body := Body(lines + [Closing], FindingKeys(findings) + keptKeys);
  }

  method RenderSection(before: seq<Line>, finding: Finding) returns (lines: seq<Line>)
    ensures lines == before + SectionLines(finding)
  {
    lines := before + [Heading(finding.heading, |finding.entries|)];
    lines := lines + [Blank];
    for j := 0 to |finding.entries|
      invariant lines == before + [Heading(finding.heading, |finding.entries|), Blank] + Items(finding.entries[..j])
    {
      OneMoreItem(finding.entries, j);
      lines := lines + [Item(finding.entries[j].text)];
    }
    assert finding.entries[..|finding.entries|] == finding.entries;
    lines := lines + [Blank];
  }

  lemma {:induction false} OneMoreItem(entries: seq<Entry>, j: nat)
    requires j < |entries|
    ensures Items(entries[..j + 1]) == Items(entries[..j]) + [Item(entries[j].text)]
  {
    if j == 0 {
      assert entries[..1] == [entries[0]] && entries[..1][1..] == [];
    } else {
      OneMoreItem(entries[1..], j - 1);
      assert entries[..j + 1][1..] == entries[1..][..j];
      assert entries[..j][1..] == entries[1..][..j - 1];
    }
  }

  lemma {:induction false} FlatAppends(sections: seq<Section>, last: Section)
    ensures Flat(sections + [last]) == Flat(sections) + KeptLines(last)
  {
    if sections == [] {
      assert [last][1..] == [];
    } else {
      FlatAppends(sections[1..], last);
      assert (sections + [last])[1..] == sections[1..] + [last];
    }
  }

  lemma {:induction false} AsSectionsAppends(findings: seq<Finding>, last: Finding)
    ensures AsSections(findings + [last]) == AsSections(findings) + [Section(last.heading, SectionLines(last))]
  {
    if findings != [] {
      AsSectionsAppends(findings[1..], last);
      assert (findings + [last])[1..] == findings[1..] + [last];
    }
  }

  lemma {:induction false} OneMoreSection(findings: seq<Finding>, i: nat)
    requires i < |findings| && findings[i].entries != []
    ensures Flat(AsSections(findings[..i + 1])) == Flat(AsSections(findings[..i])) + SectionLines(findings[i])
  {
    var f := findings[i];
    assert findings[..i + 1] == findings[..i] + [f];
    AsSectionsAppends(findings[..i], f);
    FlatAppends(AsSections(findings[..i]), Section(f.heading, SectionLines(f)));
    ItemsAreMany(f.entries);
  }

  lemma {:induction false} ItemsAreMany(entries: seq<Entry>)
    ensures |Items(entries)| == |entries|
    ensures forall i :: 0 <= i < |entries| ==> Items(entries)[i].Item?
  {
    if entries != [] {
      ItemsAreMany(entries[1..]);
    }
  }

  // ---- Reading the sections of a body ----

  function ItemCount(lines: seq<Line>): (n: nat)
    ensures n <= |lines|
    ensures forall i :: 0 <= i < n ==> lines[i].Item?
    ensures n < |lines| ==> !lines[n].Item?
  {
    if lines == [] || !lines[0].Item? then 0 else 1 + ItemCount(lines[1..])
  }

  /** Number of lines of the section that begins here, 0 if none does. */
  function SectionAt(lines: seq<Line>): (n: nat)
    ensures n <= |lines|
  {
    if |lines| < 3 || !lines[0].Heading? || !lines[1].Blank? then 0
    else
      var n := ItemCount(lines[2..]);
      if 2 + n < |lines| && lines[2 + n].Blank? then 3 + n else 0
  }

  /** The sections from left to right, without overlap. */
  function Sections(lines: seq<Line>): seq<Section> {
    if lines == [] then []
    else if SectionAt(lines) == 0 then Sections(lines[1..])
    else [Section(lines[0].name, lines[..SectionAt(lines)])] + Sections(lines[SectionAt(lines)..])
  }

  /** A section as the scanner finds it. */
  predicate IsSection(s: Section) {
    && 3 <= |s.lines| && s.lines[0].Heading? && s.lines[0].name == s.heading && s.lines[1].Blank?
    && (forall i :: 2 <= i < |s.lines| - 1 ==> s.lines[i].Item?) && s.lines[|s.lines| - 1].Blank?
  }

  /** With at least one entry. */
  predicate Filled(sections: seq<Section>) {
    forall i :: 0 <= i < |sections| ==> IsSection(sections[i]) && 3 < |sections[i].lines|
  }

  lemma {:induction false} ItemCountIs(items: seq<Line>, rest: seq<Line>)
    requires forall i :: 0 <= i < |items| ==> items[i].Item?
    requires rest != [] && !rest[0].Item?
    ensures ItemCount(items + rest) == |items|
  {
    if items == [] {
      assert items + rest == rest;
    } else {
      ItemCountIs(items[1..], rest);
      assert (items + rest)[1..] == items[1..] + rest;
    }
  }

  lemma {:induction false} ScanSection(s: Section, rest: seq<Line>)
    requires IsSection(s)
    ensures Sections(s.lines + rest) == [s] + Sections(rest)
  {
    var all, m := s.lines + rest, |s.lines|;
    var items := s.lines[2..m - 1];
    assert all[2..] == items + ([Blank] + rest);
    ItemCountIs(items, [Blank] + rest);
    assert SectionAt(all) == m;
    assert all[..m] == s.lines && all[m..] == rest;
  }

  lemma {:induction false} ScanPlain(line: Line, rest: seq<Line>)
    requires !line.Heading?
    ensures Sections([line] + rest) == Sections(rest)
  {
    assert ([line] + rest)[1..] == rest;
  }

  lemma {:induction false} Assoc<T>(a: seq<T>, b: seq<T>, c: seq<T>)
    ensures (a + b) + c == a + (b + c)
  {
  }

  predicate AreSections(sections: seq<Section>) {
    forall i :: 0 <= i < |sections| ==> IsSection(sections[i])
  }

  /** The sections with at least one entry. */
  function WithEntries(sections: seq<Section>): (filled: seq<Section>)
    ensures |filled| <= |sections|
  {
    if sections == [] then []
    else (if 3 < |sections[0].lines| then [sections[0]] else []) + WithEntries(sections[1..])
  }

  /** Where the lines of a section without entries and its blank line can not go on. */
  predicate Begins(rest: seq<Line>) {
    rest != [] && !rest[0].Blank? && !rest[0].Item?
  }

  /** A heading whose last blank line is gone is no section. */
  lemma {:induction false} ScanEmptied(s: Section, rest: seq<Line>)
    requires IsSection(s) && |s.lines| == 3 && Begins(rest)
    ensures Sections(KeptLines(s) + rest) == Sections(rest)
  {
    var all := KeptLines(s) + rest;
    assert all[2..] == rest && ItemCount(rest) == 0;
    assert SectionAt(all) == 0 && all[1..] == [Blank] + rest;
    ScanPlain(Blank, rest);
  }

  lemma {:induction false} FlatBegins(sections: seq<Section>, rest: seq<Line>)
    requires AreSections(sections) && Begins(rest)
    ensures Begins(Flat(sections) + rest)
  {
    if sections == [] {
      assert Flat(sections) + rest == rest;
    } else {
      assert (Flat(sections) + rest)[0] == sections[0].lines[0];
    }
  }

  lemma {:induction false} ScanAll(sections: seq<Section>, rest: seq<Line>)
    requires AreSections(sections) && Begins(rest)
    ensures Sections(Flat(sections) + rest) == WithEntries(sections) + Sections(rest)
  {
    if sections == [] {
      assert Flat(sections) + rest == rest;
    } else {
      var tail := sections[1..];
      ScanAll(tail, rest);
      FlatBegins(tail, rest);
      ScanStep(sections[0], Flat(tail), rest, WithEntries(tail) + Sections(rest));
      WithEntriesCons(sections);
      Assoc(WithEntries([sections[0]]), WithEntries(tail), Sections(rest));
    }
  }

  lemma {:induction false} ScanStep(first: Section, flat: seq<Line>, rest: seq<Line>, found: seq<Section>)
    requires IsSection(first) && Begins(flat + rest) && Sections(flat + rest) == found
    ensures Sections(KeptLines(first) + flat + rest) == WithEntries([first]) + found
  {
    ScanOne(first, flat + rest);
    Assoc(KeptLines(first), flat, rest);
  }

  lemma {:induction false} WithEntriesCons(sections: seq<Section>)
    requires sections != []
    ensures WithEntries(sections) == WithEntries([sections[0]]) + WithEntries(sections[1..])
  {
    assert [sections[0]][1..] == [];
  }

  lemma {:induction false} ScanOne(s: Section, rest: seq<Line>)
    requires IsSection(s) && Begins(rest)
    ensures Sections(KeptLines(s) + rest) == WithEntries([s]) + Sections(rest)
  {
    assert [s][1..] == [];
    if |s.lines| == 3 {
      ScanEmptied(s, rest);
    } else {
      ScanSection(s, rest);
    }
  }

  /** Round trip: of the sections written exactly those with entries are read, in
      their order. */
  lemma {:induction false} SectionsReadBack(mention: bool, sections: seq<Section>)
    requires AreSections(sections)
    ensures Sections(Lines(mention, sections)) == WithEntries(sections)
  {
    var flat := Flat(sections);
    ScanAll(sections, [Closing]);
    assert Sections([Closing]) == [] by { ScanPlain(Closing, []); }
    ScanPlain(Blank, flat + [Closing]);
    ScanPlain(Intro(mention), [Blank] + (flat + [Closing]));
    assert [Intro(mention), Blank] + flat + [Closing] == [Intro(mention)] + ([Blank] + (flat + [Closing]));
  }

  /** All of them are read back exactly when each has an entry. */
  lemma {:induction false} AllReadBackIffFilled(sections: seq<Section>)
    requires AreSections(sections)
    ensures WithEntries(sections) == sections <==> Filled(sections)
    ensures Filled(WithEntries(sections)) && (|WithEntries(sections)| == |sections| ==> Filled(sections))
  {
    if sections != [] {
      var head, tail := if 3 < |sections[0].lines| then [sections[0]] else [], sections[1..];
      AllReadBackIffFilled(tail);
      assert sections == [sections[0]] + tail;
      if head != [] {
        assert WithEntries(sections)[1..] == WithEntries(tail);
      }
    }
  }

  lemma {:induction false} WithEntriesAppends(a: seq<Section>, b: seq<Section>)
    ensures WithEntries(a + b) == WithEntries(a) + WithEntries(b)
  {
    if a == [] {
      assert a + b == b;
    } else {
      var head := if 3 < |a[0].lines| then [a[0]] else [];
      WithEntriesAppends(a[1..], b);
      assert (a + b)[1..] == a[1..] + b && (a + b)[0] == a[0];
      assert WithEntries(a + b) == head + WithEntries(a[1..] + b);
      Assoc(head, WithEntries(a[1..]), WithEntries(b));
    }
  }

  lemma {:induction false} OwnSectionsAreFilled(findings: seq<Finding>)
    requires forall i :: 0 <= i < |findings| ==> findings[i].entries != []
    ensures Filled(AsSections(findings)) && |AsSections(findings)| == |findings|
    ensures forall i :: 0 <= i < |findings| ==> AsSections(findings)[i].heading == findings[i].heading
  {
    if findings != [] {
      var own, tail := Section(findings[0].heading, SectionLines(findings[0])), AsSections(findings[1..]);
      OwnSectionsAreFilled(findings[1..]);
      OwnSectionIsFilled(findings[0]);
      assert AsSections(findings) == [own] + tail;
    }
  }

  lemma {:induction false} OwnSectionIsFilled(finding: Finding)
    requires finding.entries != []
    ensures var s := Section(finding.heading, SectionLines(finding)); IsSection(s) && 3 < |s.lines|
  {
    ItemsAreMany(finding.entries);
    var items := Items(finding.entries);
    assert forall i :: 2 <= i < 2 + |items| ==> SectionLines(finding)[i] == items[i - 2];
  }

  // ---- What a run wants ----

  function PlanFull(issue: Option<Issue>, open: seq<Finding>): Plan {
    if open == [] then
      if issue.None? || issue.value.closed then Nothing else Close(AllDone)
    else if issue.None? then Create(Rendered(open, true, [], {}))
    else if issue.value.closed then Reopen(Rendered(open, false, [], {}), Names(FindingKeys(open)))
    else Changed(issue.value.body, Rendered(open, false, [], {}), FindingKeys(open))
  }

  /** The end that full and partial runs share: mention what is new, else write only
      a text that differs. */
  function Changed(was: Body, body: Body, current: set<Key>): Plan {
    if current - was.keys != {} then Update(body, Names(current - was.keys))
    else if body != was then Update(body, NoComment)
    else Nothing
  }

  /** Whether a section of this heading is left alone on a partial run. */
  predicate Unknown(failed: Failed, findings: seq<Finding>, heading: string) {
    if failed.Owners? then heading in failed.headings else !Reports(findings, heading)
  }

  function Kept(sections: seq<Section>, failed: Failed, findings: seq<Finding>): seq<Section> {
    if sections == [] then []
    else (if Unknown(failed, findings, sections[0].heading) then [sections[0]] else [])
         + Kept(sections[1..], failed, findings)
  }

  function PlanPartial(issue: Option<Issue>, findings: seq<Finding>, failed: Failed): Plan {
    var open := Open(findings);
    if issue.None? || issue.value.closed then
      if open == [] then Nothing else PlanFull(issue, open)
    else
      var was := issue.value.body;
      Changed(was, Rendered(open, false, Kept(Sections(was.lines), failed, findings), was.keys), FindingKeys(open))
  }

  function PlanOf(issue: Option<Issue>, findings: seq<Finding>, failed: Failed): Plan {
    if failed.Nobody? then PlanFull(issue, Open(findings)) else PlanPartial(issue, findings, failed)
  }

  // ---- Writing it ----

  function Said(comment: Comment): seq<Write> {
    if comment.NoComment? then [] else [Say(comment)]
  }

  /** The writes of a plan in their order: first the mention, then the text. */
  function Writes(plan: Plan): seq<Write> {
    match plan
    case Nothing => []
    case Create(body) => [Post(body)]
    case Update(body, comment) => Said(comment) + [Patch(body, false)]
    case Reopen(body, comment) => Said(comment) + [Patch(body, true)]
    case Close(comment) => Said(comment) + [PatchClosed]
  }

  /** The keys somebody is mentioned for by a write. A text mentions only when the
      issue is opened with it. */
  function Told(write: Write): set<Key> {
    match write
    case Say(Names(keys)) => keys
    case Post(body) => if body.lines != [] && body.lines[0] == Intro(true) then body.keys else {}
    case _ => {}
  }

  function Written(issue: Option<Issue>, write: Write): Option<Issue> {
    match write
    case Say(_) => issue
    case Post(body) => Some(Issue(body, false))
    case Patch(body, open) => if issue.None? then issue else Some(Issue(body, issue.value.closed && !open))
    case PatchClosed => if issue.None? then issue else Some(Issue(issue.value.body, true))
  }

  function WrittenAll(issue: Option<Issue>, writes: seq<Write>): Option<Issue>
    decreases writes
  {
    if writes == [] then issue else WrittenAll(Written(issue, writes[0]), writes[1..])
  }

  function ToldAll(writes: seq<Write>): set<Key> {
    if writes == [] then {} else Told(writes[0]) + ToldAll(writes[1..])
  }

  lemma {:induction false} OneMoreWrite(issue: Option<Issue>, writes: seq<Write>, n: nat)
    requires n < |writes|
    ensures WrittenAll(issue, writes[..n + 1]) == Written(WrittenAll(issue, writes[..n]), writes[n])
    ensures ToldAll(writes[..n + 1]) == ToldAll(writes[..n]) + Told(writes[n])
    decreases n
  {
    if n == 0 {
      assert writes[..1] == [writes[0]] && writes[..1][1..] == [];
    } else {
      OneMoreWrite(Written(issue, writes[0]), writes[1..], n - 1);
      assert writes[..n + 1][1..] == writes[1..][..n] && writes[..n][1..] == writes[1..][..n - 1];
    }
  }

  /** The issue at GitHub. A request that fails may still have reached it. */
  class Tracker {
    var issue: Option<Issue>
    ghost var told: set<Key>

    method Request(write: Write) returns (ok: bool, reached: bool)
      modifies this
      ensures ok ==> reached
      ensures issue == if reached then Written(old(issue), write) else old(issue)
      ensures told == if reached then old(told) + Told(write) else old(told)
    {
      reached := *;
      ok := reached;
      if reached {
        told := told + Told(write);
        match write
        case Say(_) =>
        case Post(body) => issue := Some(Issue(body, false));
        case Patch(body, open) =>
          if issue.Some? {
            issue := Some(Issue(body, issue.value.closed && !open));
          }
        case PatchClosed =>
          if issue.Some? {
            issue := Some(Issue(issue.value.body, true));
          }
        ok := *;
      }
    }

    /** Every failure leaves a prefix of the writes done, and only all of them is a
        success: never the text before its mention. */
    method Apply(plan: Plan) returns (ok: bool, ghost done: nat)
      modifies this
      ensures done <= |Writes(plan)| && (ok ==> done == |Writes(plan)|)
      ensures issue == WrittenAll(old(issue), Writes(plan)[..done])
      ensures told == old(told) + ToldAll(Writes(plan)[..done])
    {
      var reached: bool;
      ghost var was := issue;
      done := 0;
      if plan.Nothing? {
        return true, 0;
      }
      OneMoreWrite(was, Writes(plan), 0);
      if plan.Create? {
        ok, reached := Request(Post(plan.body));
        done := if reached then 1 else 0;
        return;
      }
      if plan.comment != NoComment {
        ok, reached := Request(Say(plan.comment));
        if !ok {
          done := if reached then 1 else 0;
          return;
        }
        done := 1;
      }
      var last := if plan.Close? then PatchClosed else Patch(plan.body, plan.Reopen?);
      OneMoreWrite(was, Writes(plan), done);
      ok, reached := Request(last);
      done := if reached then done + 1 else done;
    }
  }
}
