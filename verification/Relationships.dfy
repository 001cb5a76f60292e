/** The planner that mirrors parents and prerequisites of work packages onto
    issues (scripts/project_relationships.py). It only adds edges, closes no
    cycle, and planning again after its changes finds nothing left to do. */
module Relationships {
  import opened Wrappers
  import opened Graphs

  datatype Kind = Parent | BlockedBy

  /** An issue as the query returns it. */
  datatype Issue = Issue(id: Node, closed: bool, notPlanned: bool, parent: Option<Node>, blockedBy: set<Node>)

  /** A work package: its issue and its group, the packages it needs (in the
      order they are visited) and those it may start without. */
  datatype Task = Task(issue: Option<int>, parent: Option<int>, dependencies: seq<string>, waived: set<string>)

  datatype Change = Change(kind: Kind, source: int, target: int)

  datatype Reason = Missing | OtherParent | Unfinished | WouldCycle

  datatype Finding = Finding(reason: Reason, change: Change)

  type Issues = map<int, Issue>
  type Tasks = seq<(string, Task)>

  // ----- parse_tasks -----

  datatype IssueText = Number(n: int) | Dash | Unreadable

  /** One line of the document. `cells` is None for a row without six cells,
      `dependencies` is None where a range of packages makes no sense. */
  datatype Line =
    | Heading(group: Option<int>)
    | Row(cells: Option<Cells>)
    | Text

  datatype Cells = Cells(name: string, issue: IssueText, dependencies: Option<seq<string>>, waived: set<string>)

  datatype ParseError =
    MalformedRow | AmbiguousMapping | IssueOfTwoTasks | AmbiguousRange | NoRows | UnknownPrerequisite

  predicate Knows(tasks: Tasks, name: string) {
    exists i :: 0 <= i < |tasks| && tasks[i].0 == name
  }

  predicate DistinctNames(tasks: Tasks) {
    forall i, j :: 0 <= i < j < |tasks| ==> tasks[i].0 != tasks[j].0
  }

  predicate DistinctIssues(tasks: Tasks) {
    forall i, j :: 0 <= i < j < |tasks| && tasks[i].1.issue.Some? ==> tasks[i].1.issue != tasks[j].1.issue
  }

  predicate HasIssue(tasks: Tasks, n: int) {
    exists i :: 0 <= i < |tasks| && tasks[i].1.issue == Some(n)
  }

  predicate Closed(tasks: Tasks) {
    forall i, dep :: 0 <= i < |tasks| && dep in tasks[i].1.dependencies ==> Knows(tasks, dep)
  }

  // What makes sense of a line by itself.
  predicate Readable(line: Line) {
    line.Row? ==> line.cells.Some? && !line.cells.value.issue.Unreadable? && line.cells.value.dependencies.Some?
  }

  /** The group of the last heading. */
  function GroupOf(lines: seq<Line>): Option<int> {
    if lines == [] then None
    else if lines[|lines| - 1].Heading? then lines[|lines| - 1].group
    else GroupOf(lines[..|lines| - 1])
  }

  /** One task for each row, in order, with the group it stands under. */
  function RowTasks(lines: seq<Line>): Tasks {
    if lines == [] then []
    else
      var front, last := lines[..|lines| - 1], lines[|lines| - 1];
      RowTasks(front) + if last.Row? && Readable(last) then [TaskOf(last.cells.value, GroupOf(front))] else []
  }

  function TaskOf(cells: Cells, group: Option<int>): (string, Task)
    requires cells.dependencies.Some?
  {
    var issue := if cells.issue.Number? then Some(cells.issue.n) else None;
    (cells.name, Task(issue, group, cells.dependencies.value, cells.waived))
  }

  lemma {:induction false} RowTasksGrow(lines: seq<Line>, k: nat)
    requires k <= |lines|
    ensures RowTasks(lines[..k]) <= RowTasks(lines)
  {
    if k < |lines| {
      RowTasksGrow(lines[..|lines| - 1], k);
      assert lines[..|lines| - 1][..k] == lines[..k];
    } else {
      assert lines[..k] == lines;
    }
  }

  lemma {:induction false} HasIssueAppend(tasks: Tasks, task: (string, Task))
    ensures forall n :: HasIssue(tasks + [task], n) <==> HasIssue(tasks, n) || task.1.issue == Some(n)
  {
    var more := tasks + [task];
    forall n | HasIssue(tasks, n) || task.1.issue == Some(n) ensures HasIssue(more, n) {
      if HasIssue(tasks, n) {
        var i :| 0 <= i < |tasks| && tasks[i].1.issue == Some(n);
        assert more[i].1.issue == Some(n);
      } else {
        assert more[|tasks|].1.issue == Some(n);
      }
    }
  }

  /** A name or an issue that is there already makes the document ambiguous. */
  lemma {:induction false} Twice(lines: seq<Line>, k: nat)
    requires k < |lines| && lines[k].Row? && Readable(lines[k])
    requires var task, before := TaskOf(lines[k].cells.value, GroupOf(lines[..k])), RowTasks(lines[..k]);
             Knows(before, task.0) || (task.1.issue.Some? && HasIssue(before, task.1.issue.value))
    ensures !DistinctNames(RowTasks(lines)) || !DistinctIssues(RowTasks(lines))
  {
    var task, before, all := TaskOf(lines[k].cells.value, GroupOf(lines[..k])), RowTasks(lines[..k]), RowTasks(lines);
    assert lines[..k + 1][..k] == lines[..k];
    RowTasksGrow(lines, k + 1);
    assert all[|before|] == task && before <= all;
    if Knows(before, task.0) {
      var i :| 0 <= i < |before| && before[i].0 == task.0;
      assert all[i] == before[i];
    } else {
      var i :| 0 <= i < |before| && before[i].1.issue == task.1.issue;
      assert all[i] == before[i];
    }
  }

  /** The second pass: every prerequisite is a task. */
  method PrerequisitesKnown(tasks: Tasks) returns (known: bool)
    ensures known <==> Closed(tasks)
  {
    for k := 0 to |tasks|
      invariant forall i, dep :: 0 <= i < k && dep in tasks[i].1.dependencies ==> Knows(tasks, dep)
    {
      var needed := tasks[k].1.dependencies;
      for j := 0 to |needed|
        invariant forall i :: 0 <= i < j ==> Knows(tasks, needed[i])
      {
        if !Knows(tasks, needed[j]) {
          return false;
        }
      }
    }
    return true;
  }

  /** A document is taken exactly when every row is readable and no name, issue or
      prerequisite is in doubt, and then it is all of its rows. */
  method ParseTasks(lines: seq<Line>) returns (r: Result<Tasks, ParseError>)
    ensures var all := RowTasks(lines);
            && (r.Ok? <==>
                 && (forall k :: 0 <= k < |lines| ==> Readable(lines[k]))
                 && all != [] && DistinctNames(all) && DistinctIssues(all) && Closed(all))
            && (r.Ok? ==> r.value == all)
    ensures (forall k :: 0 <= k < |lines| ==> !lines[k].Row?) ==> r == Err(NoRows)
  {
    var tasks: Tasks := [];
    var parent := None;
    var seenIssues := {};
    for k := 0 to |lines|
      invariant tasks == RowTasks(lines[..k]) && parent == GroupOf(lines[..k])
      invariant forall i :: 0 <= i < k ==> Readable(lines[i])
      invariant DistinctNames(tasks) && DistinctIssues(tasks)
      invariant forall n :: n in seenIssues <==> HasIssue(tasks, n)
      invariant (forall i :: 0 <= i < k ==> !lines[i].Row?) ==> tasks == []
    {
      assert lines[..k + 1][..k] == lines[..k];
      match lines[k]
      case Heading(group) =>
        parent := group;
      case Text =>
      case Row(cells) =>
        if cells.None? {
          return Err(MalformedRow);
        }
        var Cells(name, text, dependencies, waived) := cells.value;
        if Readable(lines[k]) && (Knows(tasks, name) || (text.Number? && HasIssue(tasks, text.n))) {
          Twice(lines, k);
        }
        if Knows(tasks, name) || text.Unreadable? {
          return Err(AmbiguousMapping);
        }
        var issue := if text.Number? then Some(text.n) else None;
        if issue.Some? {
          if issue.value in seenIssues {
            return Err(IssueOfTwoTasks);
          }
          seenIssues := seenIssues + {issue.value};
        }
        if dependencies.None? {
          return Err(AmbiguousRange);
        }
        HasIssueAppend(tasks, (name, Task(issue, parent, dependencies.value, waived)));
        tasks := tasks + [(name, Task(issue, parent, dependencies.value, waived))];
    }
    assert lines[..|lines|] == lines;
    if tasks == [] {
      return Err(NoRows);
    }
    var known := PrerequisitesKnown(tasks);
    if !known {
      return Err(UnknownPrerequisite);
    }
    return Ok(tasks);
  }

  // ----- What is wanted -----

  function Lookup(tasks: Tasks, name: string): Option<int>
    requires Knows(tasks, name)
  {
    if tasks[0].0 == name then tasks[0].1.issue
    else
      assert Knows(tasks[1..], name) by {
        var i :| 0 <= i < |tasks| && tasks[i].0 == name;
        assert tasks[1..][i - 1].0 == name;
      }
      Lookup(tasks[1..], name)
  }

  // Python's truth of a number: there is one and it is not 0.
  predicate Given(n: Option<int>) {
    n.Some? && n.value != 0
  }

  function WantedBlockers(tasks: Tasks, source: int, dependencies: seq<string>, waived: set<string>): seq<Change>
    requires forall dep :: dep in dependencies ==> Knows(tasks, dep)
  {
    if dependencies == [] then []
    else
      var dep := dependencies[0];
      (if dep !in waived && Given(Lookup(tasks, dep)) then [Change(BlockedBy, source, Lookup(tasks, dep).value)]
       else [])
        + WantedBlockers(tasks, source, dependencies[1..], waived)
  }

  /** What one task wants: nothing without an issue of its own or when that issue
      was dropped, else its group as parent and its prerequisites as blockers. */
  function Wanted(tasks: Tasks, issues: Issues, task: Task): seq<Change>
    requires forall dep :: dep in task.dependencies ==> Knows(tasks, dep)
  {
    if task.issue.None? || (task.issue.value in issues && issues[task.issue.value].notPlanned) then []
    else
      var source := task.issue.value;
      (if Given(task.parent) then [Change(Parent, source, task.parent.value)] else [])
        + WantedBlockers(tasks, source, task.dependencies, task.waived)
  }

  function AllWanted(tasks: Tasks, issues: Issues, rest: Tasks): seq<Change>
    requires forall i, dep :: 0 <= i < |rest| && dep in rest[i].1.dependencies ==> Knows(tasks, dep)
  {
    if rest == [] then [] else Wanted(tasks, issues, rest[0].1) + AllWanted(tasks, issues, rest[1..])
  }

  // ----- The plan -----

  datatype Links = Links(parent: Graph, blockedBy: Graph)

  function Of(links: Links, kind: Kind): Graph {
    if kind.Parent? then links.parent else links.blockedBy
  }

  function With(links: Links, kind: Kind, x: Node, y: Node): Links {
    if kind.Parent? then links.(parent := AddEdge(links.parent, x, y))
    else links.(blockedBy := AddEdge(links.blockedBy, x, y))
  }

  function Parents(issue: Issue): set<Node> {
    if issue.parent.Some? then {issue.parent.value} else {}
  }

  /** The ids of different issues differ. */
  predicate DistinctIds(issues: Issues) {
    forall m, n :: m in issues && n in issues && issues[m].id == issues[n].id ==> m == n
  }

  /** The graphs the planner starts from: what the issues say. */
  function StartLinks(issues: Issues): Links
    requires DistinctIds(issues)
  {
    Links(map n | n in issues :: issues[n].id := Parents(issues[n]),
          map n | n in issues :: issues[n].id := issues[n].blockedBy)
  }

  /** What `StartLinks` amounts to. */
  ghost predicate LinksOf(issues: Issues, links: Links) {
    && (forall n :: n in issues ==> issues[n].id in links.parent && issues[n].id in links.blockedBy)
    && (forall n :: n in issues ==> links.parent[issues[n].id] == Parents(issues[n]))
    && (forall n :: n in issues ==> links.blockedBy[issues[n].id] == issues[n].blockedBy)
    && (forall x :: x in links.parent || x in links.blockedBy ==> exists n :: n in issues && issues[n].id == x)
  }

  lemma {:induction false} StartLinksOf(issues: Issues)
    requires DistinctIds(issues)
    ensures LinksOf(issues, StartLinks(issues))
  {}

  lemma {:induction false} LinksUnique(issues: Issues, a: Links, b: Links)
    requires LinksOf(issues, a) && LinksOf(issues, b)
    ensures a == b
  {
    assert a.parent.Keys == b.parent.Keys && a.blockedBy.Keys == b.blockedBy.Keys;
    assert a.parent == b.parent && a.blockedBy == b.blockedBy;
  }

  datatype Decision = Present | Report(reason: Reason) | Add

  /** Conflicts that do not depend on the other edges. */
  predicate Conflicts(source: Issue, target: Issue, kind: Kind) {
    || (kind.Parent? && source.parent.Some?)
    || (kind.BlockedBy? && (target.notPlanned || (source.closed && !target.closed)))
  }

  ghost function Decide(issues: Issues, links: Links, w: Change): Decision {
    if w.source !in issues || w.target !in issues then Report(Missing)
    else
      var source, target, g := issues[w.source], issues[w.target], Of(links, w.kind);
      if target.id in Next(g, source.id) then Present
      else if Conflicts(source, target, w.kind) then Report(if w.kind.Parent? then OtherParent else Unfinished)
      else if Connected(g, target.id, source.id) then Report(WouldCycle)
      else Add
  }

  datatype Plan = Plan(changes: seq<Change>, findings: seq<Finding>, links: Links)

  function After(issues: Issues, links: Links, w: Change, d: Decision): Links
    requires d.Add? ==> w.source in issues && w.target in issues
  {
    if d.Add? then With(links, w.kind, issues[w.source].id, issues[w.target].id) else links
  }

  /** The whole plan, one wish after the other. */
  ghost function PlanAll(issues: Issues, links: Links, wants: seq<Change>): Plan
    decreases |wants|
  {
    if wants == [] then Plan([], [], links)
    else
      var d := Decide(issues, links, wants[0]);
      var rest := PlanAll(issues, After(issues, links, wants[0], d), wants[1..]);
      Plan((if d.Add? then [wants[0]] else []) + rest.changes,
           (if d.Report? then [Finding(d.reason, wants[0])] else []) + rest.findings,
           rest.links)
  }

  ghost function Before(changes: seq<Change>, findings: seq<Finding>, p: Plan): Plan {
    Plan(changes + p.changes, findings + p.findings, p.links)
  }

  method MakePlan(tasks: Tasks, issues: Issues) returns (changes: seq<Change>, findings: seq<Finding>)
    requires Closed(tasks) && DistinctIds(issues)
    ensures var p := PlanAll(issues, StartLinks(issues), AllWanted(tasks, issues, tasks));
            changes == p.changes && findings == p.findings
  {
    changes, findings := PlanTasks(tasks, issues, StartLinks(issues));
  }

  method PlanTasks(tasks: Tasks, issues: Issues, start: Links) returns (changes: seq<Change>, findings: seq<Finding>)
    requires Closed(tasks)
    ensures var p := PlanAll(issues, start, AllWanted(tasks, issues, tasks));
            changes == p.changes && findings == p.findings
  {
    changes, findings := [], [];
    var links := start;
    ghost var all := PlanAll(issues, links, AllWanted(tasks, issues, tasks));
    assert tasks[0..] == tasks;
    for k := 0 to |tasks|
      invariant Before(changes, findings, PlanAll(issues, links, AllWanted(tasks, issues, tasks[k..]))) == all
    {
      assert tasks[k..][0] == tasks[k] && tasks[k..][1..] == tasks[k + 1..];
      var wanted := Wanted(tasks, issues, tasks[k].1);
      ghost var later := AllWanted(tasks, issues, tasks[k + 1..]);
      assert AllWanted(tasks, issues, tasks[k..]) == wanted + later;
      var c, f;
      c, f, links := PlanWanted(issues, links, wanted, later);
      Extend(changes, findings, c, f, PlanAll(issues, links, later));
      changes, findings := changes + c, findings + f;
    }
    assert AllWanted(tasks, issues, tasks[|tasks|..]) == [];
  }

  /** The wishes of one task; `later` are those of the tasks behind it. */
  method PlanWanted(issues: Issues, start: Links, wanted: seq<Change>, ghost later: seq<Change>)
    returns (changes: seq<Change>, findings: seq<Finding>, links: Links)
    ensures Before(changes, findings, PlanAll(issues, links, later)) == PlanAll(issues, start, wanted + later)
  {
    changes, findings, links := [], [], start;
    assert wanted[0..] == wanted;
    for j := 0 to |wanted|
      invariant Before(changes, findings, PlanAll(issues, links, wanted[j..] + later)) ==
                PlanAll(issues, start, wanted + later)
    {
      var w := wanted[j];
      assert (wanted[j..] + later)[0] == w && (wanted[j..] + later)[1..] == wanted[j + 1..] + later;
      var c, f;
      c, f, links := Consider(issues, links, w);
      Extend(changes, findings, c, f, PlanAll(issues, links, wanted[j + 1..] + later));
      changes, findings := changes + c, findings + f;
    }
    assert wanted[|wanted|..] + later == later;
  }

  lemma {:induction false} Extend(changes: seq<Change>, findings: seq<Finding>, c: seq<Change>, f: seq<Finding>,
                                  p: Plan)
    ensures Before(changes, findings, Before(c, f, p)) == Before(changes + c, findings + f, p)
  {}

  /** One wish: keep it, report it, or plan it. */
  method Consider(issues: Issues, links: Links, w: Change) returns (c: seq<Change>, f: seq<Finding>, next: Links)
    ensures var d := Decide(issues, links, w);
            && c == (if d.Add? then [w] else [])
            && f == (if d.Report? then [Finding(d.reason, w)] else [])
            && next == After(issues, links, w, d)
  {
    c, f, next := [], [], links;
    if w.source !in issues || w.target !in issues {
      return c, [Finding(Missing, w)], next;
    }
    var source, target, g := issues[w.source], issues[w.target], Of(links, w.kind);
    if target.id in Next(g, source.id) {
      return;
    }
    if w.kind.Parent? && source.parent.Some? {
      return c, [Finding(OtherParent, w)], next;
    }
    if w.kind.BlockedBy? && (target.notPlanned || (source.closed && !target.closed)) {
      return c, [Finding(Unfinished, w)], next;
    }
    var cycle := Reaches(g, target.id, source.id);
    if cycle {
      return c, [Finding(WouldCycle, w)], next;
    }
    return [w], f, With(links, w.kind, source.id, target.id);
  }

  // ----- Nothing is taken away, no cycle is closed -----

  lemma {:induction false} OnlyAdds(issues: Issues, links: Links, wants: seq<Change>, kind: Kind)
    ensures Within(Of(links, kind), Of(PlanAll(issues, links, wants).links, kind))
    decreases |wants|
  {
    if wants != [] {
      OnlyAdds(issues, After(issues, links, wants[0], Decide(issues, links, wants[0])), wants[1..], kind);
    }
  }

  /** Main result: a cycle of the final parent or blocked-by graph uses no planned
      edge, it was there before. */
  lemma {:induction false} ClosesNoCycle(issues: Issues, links: Links, wants: seq<Change>, kind: Kind, p: seq<Node>)
    requires IsCycle(Of(PlanAll(issues, links, wants).links, kind), p)
    ensures IsCycle(Of(links, kind), p)
    decreases |wants|
  {
    if wants != [] {
      var w := wants[0];
      var d := Decide(issues, links, w);
      ClosesNoCycle(issues, After(issues, links, w, d), wants[1..], kind, p);
      if d.Add? && w.kind == kind {
        NoNewCycle(Of(links, kind), issues[w.source].id, issues[w.target].id, p);
      }
    }
  }

  // ----- Every wish is settled -----

  ghost predicate HasEdge(issues: Issues, links: Links, w: Change) {
    w.source in issues && w.target in issues && issues[w.target].id in Next(Of(links, w.kind), issues[w.source].id)
  }

  lemma {:induction false} EveryWishSettled(issues: Issues, links: Links, wants: seq<Change>, w: Change)
    requires w in wants
    ensures var p := PlanAll(issues, links, wants);
            HasEdge(issues, p.links, w) || exists reason :: Finding(reason, w) in p.findings
    decreases |wants|
  {
    var d := Decide(issues, links, wants[0]);
    var after := After(issues, links, wants[0], d);
    if w == wants[0] {
      if d.Report? {
        assert Finding(d.reason, w) in PlanAll(issues, links, wants).findings;
      } else {
        assert HasEdge(issues, after, w);
        OnlyAdds(issues, after, wants[1..], w.kind);
      }
    } else {
      EveryWishSettled(issues, after, wants[1..], w);
    }
  }

  // ----- At most one parent -----

  predicate OneParentEach(wants: seq<Change>) {
    forall i, j :: 0 <= i < j < |wants| && wants[i].kind.Parent? && wants[j].kind.Parent? ==>
      wants[i].source != wants[j].source
  }

  lemma {:induction false} BlockersOnly(tasks: Tasks, source: int, dependencies: seq<string>, waived: set<string>)
    requires forall dep :: dep in dependencies ==> Knows(tasks, dep)
    ensures forall w :: w in WantedBlockers(tasks, source, dependencies, waived) ==>
              w.kind.BlockedBy? && w.source == source
  {
    if dependencies != [] {
      BlockersOnly(tasks, source, dependencies[1..], waived);
    }
  }

  lemma {:induction false} SourcesOf(tasks: Tasks, issues: Issues, rest: Tasks)
    requires forall i, dep :: 0 <= i < |rest| && dep in rest[i].1.dependencies ==> Knows(tasks, dep)
    ensures forall w :: w in AllWanted(tasks, issues, rest) ==>
              exists i :: 0 <= i < |rest| && rest[i].1.issue == Some(w.source)
  {
    if rest != [] {
      SourcesOf(tasks, issues, rest[1..]);
      var task := rest[0].1;
      if task.issue.Some? {
        BlockersOnly(tasks, task.issue.value, task.dependencies, task.waived);
      }
      forall w | w in AllWanted(tasks, issues, rest)
        ensures exists i :: 0 <= i < |rest| && rest[i].1.issue == Some(w.source)
      {
        if w in Wanted(tasks, issues, task) {
          assert rest[0].1.issue == Some(w.source);
        } else {
          var i :| 0 <= i < |rest[1..]| && rest[1..][i].1.issue == Some(w.source);
          assert rest[i + 1].1.issue == Some(w.source);
        }
      }
    }
  }

  /** Tasks with distinct issues, as ParseTasks returns them, want at most one
      parent for each issue. */
  lemma {:induction false} TasksWantOneParent(tasks: Tasks, issues: Issues, rest: Tasks)
    requires forall i, dep :: 0 <= i < |rest| && dep in rest[i].1.dependencies ==> Knows(tasks, dep)
    requires DistinctIssues(rest)
    ensures OneParentEach(AllWanted(tasks, issues, rest))
  {
    if rest != [] {
      assert DistinctIssues(rest[1..]) by {
        forall i, j | 0 <= i < j < |rest[1..]| && rest[1..][i].1.issue.Some?
          ensures rest[1..][i].1.issue != rest[1..][j].1.issue
        {
          assert rest[1..][i] == rest[i + 1] && rest[1..][j] == rest[j + 1];
        }
      }
      TasksWantOneParent(tasks, issues, rest[1..]);
      SourcesOf(tasks, issues, rest[1..]);
      var task, first, later := rest[0].1, Wanted(tasks, issues, rest[0].1), AllWanted(tasks, issues, rest[1..]);
      if first != [] {
        BlockersOnly(tasks, task.issue.value, task.dependencies, task.waived);
        forall w | w in later ensures w.source != task.issue.value {
          var i :| 0 <= i < |rest[1..]| && rest[1..][i].1.issue == Some(w.source);
          assert rest[0].1.issue != rest[i + 1].1.issue;
        }
        OneParentConcat(first, later, task.issue.value);
      } else {
        assert first + later == later;
      }
    }
  }

  lemma {:induction false} OneParentConcat(first: seq<Change>, later: seq<Change>, source: int)
    requires forall i :: 0 <= i < |first| ==> first[i].source == source && (i > 0 ==> first[i].kind.BlockedBy?)
    requires OneParentEach(later) && forall w :: w in later ==> w.source != source
    ensures OneParentEach(first + later)
  {}

  /** No wish for a parent of n is left: its parents stay what they are. */
  lemma {:induction false} ParentsKept(issues: Issues, links: Links, wants: seq<Change>, n: int)
    requires DistinctIds(issues) && n in issues
    requires forall w :: w in wants && w.kind.Parent? ==> w.source != n
    ensures Next(PlanAll(issues, links, wants).links.parent, issues[n].id) == Next(links.parent, issues[n].id)
    decreases |wants|
  {
    if wants != [] {
      ParentsKept(issues, After(issues, links, wants[0], Decide(issues, links, wants[0])), wants[1..], n);
    }
  }

  /** Main result: whoever has at most one parent before has at most one after. */
  lemma {:induction false} AtMostOneParent(issues: Issues, links: Links, wants: seq<Change>, n: int)
    requires DistinctIds(issues) && OneParentEach(wants) && n in issues
    requires Next(links.parent, issues[n].id) == Parents(issues[n])
    ensures |Next(PlanAll(issues, links, wants).links.parent, issues[n].id)| <= 1
    decreases |wants|
  {
    if wants != [] {
      var w := wants[0];
      var d := Decide(issues, links, w);
      var after := After(issues, links, w, d);
      if d.Add? && w.kind.Parent? && w.source == n {
        assert Next(after.parent, issues[n].id) == {issues[w.target].id};
        forall v | v in wants[1..] && v.kind.Parent? ensures v.source != n {
          var i :| 0 <= i < |wants[1..]| && wants[1..][i] == v;
          assert wants[i + 1] == v;
        }
        ParentsKept(issues, after, wants[1..], n);
      } else {
        assert Next(after.parent, issues[n].id) == Next(links.parent, issues[n].id);
        RestOneParent(wants);
        AtMostOneParent(issues, after, wants[1..], n);
      }
    }
  }

  lemma {:induction false} RestOneParent(wants: seq<Change>)
    requires wants != [] && OneParentEach(wants)
    ensures OneParentEach(wants[1..])
    ensures wants[0].kind.Parent? ==> forall w :: w in wants[1..] && w.kind.Parent? ==> w.source != wants[0].source
  {
    var rest := wants[1..];
    forall i, j | 0 <= i < j < |rest| && rest[i].kind.Parent? && rest[j].kind.Parent?
      ensures rest[i].source != rest[j].source
    {
      assert rest[i] == wants[i + 1] && rest[j] == wants[j + 1];
    }
    if wants[0].kind.Parent? {
      forall w | w in rest && w.kind.Parent? ensures w.source != wants[0].source {
        var i :| 0 <= i < |rest| && rest[i] == w;
        assert wants[i + 1] == w;
      }
    }
  }

  // ----- Planning again -----

  /** GitHub carries a change out. */
  function ApplyOne(issues: Issues, c: Change): Issues {
    if c.source !in issues || c.target !in issues then issues
    else
      var source, id := issues[c.source], issues[c.target].id;
      issues[c.source := if c.kind.Parent? then source.(parent := Some(id))
                         else source.(blockedBy := source.blockedBy + {id})]
  }

  function Apply(issues: Issues, changes: seq<Change>): Issues {
    if changes == [] then issues else Apply(ApplyOne(issues, changes[0]), changes[1..])
  }

  /** The same issues up to their edges. */
  ghost predicate Alike(issues: Issues, now: Issues) {
    && issues.Keys == now.Keys
    && forall n :: n in issues ==>
         issues[n].id == now[n].id && issues[n].closed == now[n].closed && issues[n].notPlanned == now[n].notPlanned
  }

  lemma {:induction false} ApplyAlike(issues: Issues, changes: seq<Change>)
    ensures Alike(issues, Apply(issues, changes))
  {
    if changes != [] {
      ApplyAlike(ApplyOne(issues, changes[0]), changes[1..]);
    }
  }

  lemma {:induction false} ApplyOneLinks(now: Issues, links: Links, w: Change)
    requires DistinctIds(now) && LinksOf(now, links) && w.source in now && w.target in now
    requires w.kind.Parent? ==> now[w.source].parent.None?
    ensures LinksOf(ApplyOne(now, w), With(links, w.kind, now[w.source].id, now[w.target].id))
  {
    var next := ApplyOne(now, w);
    var after := With(links, w.kind, now[w.source].id, now[w.target].id);
    forall n | n in next
      ensures next[n].id == now[n].id && next[n].id in after.parent && next[n].id in after.blockedBy
      ensures after.parent[next[n].id] == Parents(next[n]) && after.blockedBy[next[n].id] == next[n].blockedBy
    {
      if n != w.source {
        assert now[n].id != now[w.source].id;
      }
    }
    forall x | x in after.parent || x in after.blockedBy ensures exists n :: n in next && next[n].id == x {
      var n :| n in now && now[n].id == x;
      assert next[n].id == x;
    }
  }

  lemma {:induction false} AlikeIds(issues: Issues, now: Issues)
    requires Alike(issues, now) && DistinctIds(issues)
    ensures DistinctIds(now)
  {}

  lemma {:induction false} AlikeNext(issues: Issues, now: Issues, c: Change)
    requires Alike(issues, now)
    ensures Alike(issues, ApplyOne(now, c))
  {}

  /** The graphs of the planner are the graphs of the issues after its changes. */
  lemma {:induction false} PlannedIsApplied(issues: Issues, now: Issues, links: Links, wants: seq<Change>)
    requires DistinctIds(issues) && LinksOf(now, links) && OneParentEach(wants) && ParentsAsBefore(issues, now, wants)
    ensures LinksOf(Apply(now, PlanAll(issues, links, wants).changes), PlanAll(issues, links, wants).links)
    decreases |wants|
  {
    if wants != [] {
      var w, d := wants[0], Decide(issues, links, wants[0]);
      var after := After(issues, links, w, d);
      var rest := PlanAll(issues, after, wants[1..]).changes;
      RestOneParent(wants);
      if d.Add? {
        var next := ApplyOne(now, w);
        ApplyPlanned(issues, now, links, wants);
        PlannedIsApplied(issues, next, after, wants[1..]);
        ApplyFirst(now, w, rest);
      } else {
        assert ParentsAsBefore(issues, now, wants[1..]);
        PlannedIsApplied(issues, now, links, wants[1..]);
        assert [] + rest == rest;
      }
    }
  }

  lemma {:induction false} ApplyFirst(now: Issues, w: Change, rest: seq<Change>)
    ensures Apply(now, [w] + rest) == Apply(ApplyOne(now, w), rest)
  {
    assert ([w] + rest)[1..] == rest;
  }

  // The parents of the sources still to come.
  ghost predicate ParentsAsBefore(issues: Issues, now: Issues, wants: seq<Change>) {
    Alike(issues, now)
    && forall w :: w in wants && w.kind.Parent? && w.source in issues ==>
         now[w.source].parent == issues[w.source].parent
  }

  lemma {:induction false} ApplyPlanned(issues: Issues, now: Issues, links: Links, wants: seq<Change>)
    requires DistinctIds(issues) && LinksOf(now, links) && OneParentEach(wants) && ParentsAsBefore(issues, now, wants)
    requires wants != [] && Decide(issues, links, wants[0]).Add?
    ensures LinksOf(ApplyOne(now, wants[0]), After(issues, links, wants[0], Add))
    ensures ParentsAsBefore(issues, ApplyOne(now, wants[0]), wants[1..])
  {
    var w := wants[0];
    assert w.source in now && w.target in now;
    assert now[w.source].id == issues[w.source].id && now[w.target].id == issues[w.target].id;
    assert w.kind.Parent? ==> now[w.source].parent.None?;
    AlikeIds(issues, now);
    ApplyOneLinks(now, links, w);
    ApplyKeepsParents(issues, now, wants);
  }

  lemma {:induction false} ApplyKeepsParents(issues: Issues, now: Issues, wants: seq<Change>)
    requires wants != [] && OneParentEach(wants) && ParentsAsBefore(issues, now, wants)
    ensures ParentsAsBefore(issues, ApplyOne(now, wants[0]), wants[1..])
  {
    RestOneParent(wants);
    AlikeNext(issues, now, wants[0]);
    forall v | v in wants[1..] && v.kind.Parent? && v.source in issues
      ensures ApplyOne(now, wants[0])[v.source].parent == issues[v.source].parent
    {
      assert v in wants;
    }
  }

  /** A wish that was reported keeps being reported, whatever is added. */
  lemma {:induction false} StaysReported(issues: Issues, links: Links, w: Change, v: Change)
    requires DistinctIds(issues)
    requires Decide(issues, links, w).Report? && Decide(issues, links, v).Add?
    ensures Decide(issues, After(issues, links, v, Add), w) == Decide(issues, links, w)
  {
    if Decide(issues, links, w) == Report(WouldCycle) {
      var after := After(issues, links, v, Add);
      ConnectedGrows(Of(links, w.kind), Of(after, w.kind), issues[w.target].id, issues[w.source].id);
    }
  }

  lemma {:induction false} ReportedForGood(issues: Issues, links: Links, wants: seq<Change>, w: Change)
    requires DistinctIds(issues) && Decide(issues, links, w).Report?
    ensures Decide(issues, PlanAll(issues, links, wants).links, w) == Decide(issues, links, w)
    decreases |wants|
  {
    if wants != [] {
      var d := Decide(issues, links, wants[0]);
      if d.Add? {
        StaysReported(issues, links, w, wants[0]);
      }
      ReportedForGood(issues, After(issues, links, wants[0], d), wants[1..], w);
    }
  }

  /** On the graphs of the finished plan every wish is present or reported as before. */
  lemma {:induction false} SettledForGood(issues: Issues, now: Issues, links: Links, wants: seq<Change>)
    requires DistinctIds(issues) && DistinctIds(now) && Alike(issues, now) && OneParentEach(wants)
    requires LinksOf(now, PlanAll(issues, links, wants).links)
    requires forall w :: w in wants && w.kind.Parent? && w.source in issues ==>
               Next(links.parent, issues[w.source].id) == Parents(issues[w.source])
    ensures var final := PlanAll(issues, links, wants).links;
            PlanAll(now, final, wants) == Plan([], PlanAll(issues, links, wants).findings, final)
    decreases |wants|
  {
    if wants != [] {
      var w := wants[0];
      var d := Decide(issues, links, w);
      var after := After(issues, links, w, d);
      var final := PlanAll(issues, links, wants).links;
      RestOneParent(wants);
      forall v | v in wants[1..] && v.kind.Parent? && v.source in issues
        ensures Next(after.parent, issues[v.source].id) == Parents(issues[v.source])
      {
        assert v in wants;
      }
      SettledForGood(issues, now, after, wants[1..]);
      SettledOnce(issues, now, links, wants);
      assert Decide(now, final, w) == if d.Report? then d else Present;
      assert After(now, final, w, Decide(now, final, w)) == final;
    }
  }

  /** The first wish of a list, looked at again once the list is planned. */
  lemma {:induction false} SettledOnce(issues: Issues, now: Issues, links: Links, wants: seq<Change>)
    requires wants != [] && DistinctIds(issues) && DistinctIds(now) && Alike(issues, now) && OneParentEach(wants)
    requires LinksOf(now, PlanAll(issues, links, wants).links)
    requires wants[0].kind.Parent? && wants[0].source in issues ==>
               Next(links.parent, issues[wants[0].source].id) == Parents(issues[wants[0].source])
    ensures var d := Decide(issues, links, wants[0]);
            Decide(now, PlanAll(issues, links, wants).links, wants[0]) == if d.Report? then d else Present
  {
    var w, final := wants[0], PlanAll(issues, links, wants).links;
    var d := Decide(issues, links, w);
    var after := After(issues, links, w, d);
    RestOneParent(wants);
    OnlyAdds(issues, after, wants[1..], w.kind);
    if d.Report? {
      ReportedForGood(issues, links, wants, w);
      if d.reason != Missing && w.kind.Parent? {
        ParentsKept(issues, after, wants[1..], w.source);
      }
    }
  }

  lemma {:induction false} SameWishes(tasks: Tasks, issues: Issues, now: Issues, rest: Tasks)
    requires forall i, dep :: 0 <= i < |rest| && dep in rest[i].1.dependencies ==> Knows(tasks, dep)
    requires Alike(issues, now)
    ensures AllWanted(tasks, issues, rest) == AllWanted(tasks, now, rest)
  {
    if rest != [] {
      SameWishes(tasks, issues, now, rest[1..]);
    }
  }

  /** Main result: once its changes are carried out, the planner has nothing left
      to change and reports exactly what it reported before. */
  lemma {:induction false} PlanningAgain(tasks: Tasks, issues: Issues)
    requires Closed(tasks) && DistinctIssues(tasks) && DistinctIds(issues)
    ensures var p := PlanAll(issues, StartLinks(issues), AllWanted(tasks, issues, tasks));
            var now := Apply(issues, p.changes);
            && DistinctIds(now)
            && var q := PlanAll(now, StartLinks(now), AllWanted(tasks, now, tasks));
               q.changes == [] && q.findings == p.findings
  {
    var links, wants := StartLinks(issues), AllWanted(tasks, issues, tasks);
    var p := PlanAll(issues, links, wants);
    var now := Apply(issues, p.changes);
    StartLinksOf(issues);
    TasksWantOneParent(tasks, issues, tasks);
    ApplyAlike(issues, p.changes);
    PlannedIsApplied(issues, issues, links, wants);
    SameWishes(tasks, issues, now, tasks);
    AlikeIds(issues, now);
    StartLinksOf(now);
    LinksUnique(now, StartLinks(now), p.links);
    SettledForGood(issues, now, links, wants);
  }
}
