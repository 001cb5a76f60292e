/** What a plan of issue links contains (scripts/project_relationships.py): which
    edges the work packages ask for, and which of them are planned or reported,
    said over the packages and issues themselves. */
module PlanContents {
  import opened Wrappers
  import opened Graphs
  import opened Relationships

  // ----- What a document says -----

  predicate IsRow(line: Line) {
    line.Row? && Readable(line)
  }

  /** Line h is the last heading before line k. */
  predicate HeadingOf(lines: seq<Line>, h: nat, k: nat) {
    h < k <= |lines| && lines[h].Heading? && forall i :: h < i < k ==> !lines[i].Heading?
  }

  /** The package is the one line k describes, under the group of the last heading before it. */
  ghost predicate Describes(lines: seq<Line>, k: nat, task: (string, Task)) {
    && k < |lines| && IsRow(lines[k])
    && var cells := lines[k].cells.value;
       && task.0 == cells.name
       && (forall n :: task.1.issue == Some(n) <==> cells.issue == Number(n))
       && Some(task.1.dependencies) == cells.dependencies && task.1.waived == cells.waived
       && (forall h: nat :: HeadingOf(lines, h, k) ==> task.1.parent == lines[h].group)
       && ((forall h: nat :: !HeadingOf(lines, h, k)) ==> task.1.parent == None)
  }

  lemma {:induction false} GroupIsLast(lines: seq<Line>, k: nat)
    requires k <= |lines|
    ensures forall h: nat :: HeadingOf(lines, h, k) ==> GroupOf(lines[..k]) == lines[h].group
    ensures (forall h: nat :: !HeadingOf(lines, h, k)) ==> GroupOf(lines[..k]) == None
  {
    if k > 0 {
      GroupIsLast(lines, k - 1);
      assert lines[..k][..k - 1] == lines[..k - 1];
      if lines[k - 1].Heading? {
        assert HeadingOf(lines, k - 1, k);
      } else {
        var n := k - 1;
        assert forall h: nat :: HeadingOf(lines, h, n) ==> HeadingOf(lines, h, k);
      }
    }
  }

  /** The rows of the first n lines, in order. */
  predicate RowsAt(lines: seq<Line>, n: nat, at: seq<nat>) {
    && n <= |lines|
    && (forall i :: 0 <= i < |at| ==> at[i] < n && IsRow(lines[at[i]]))
    && (forall i, j :: 0 <= i < j < |at| ==> at[i] < at[j])
    && (forall k :: 0 <= k < n && IsRow(lines[k]) ==> k in at)
  }

  lemma {:induction false} RowsOf(lines: seq<Line>, n: nat) returns (at: seq<nat>)
    requires n <= |lines|
    ensures RowsAt(lines, n, at) && |at| == |RowTasks(lines[..n])|
    ensures forall i :: 0 <= i < |at| ==> Describes(lines, at[i], RowTasks(lines[..n])[i])
  {
    at := [];
    if n > 0 {
      at := RowsOf(lines, n - 1);
      assert lines[..n][..n - 1] == lines[..n - 1];
      if IsRow(lines[n - 1]) {
        GroupIsLast(lines, n - 1);
        var task := TaskOf(lines[n - 1].cells.value, GroupOf(lines[..n - 1]));
        assert RowTasks(lines[..n]) == RowTasks(lines[..n - 1]) + [task];
        assert Describes(lines, n - 1, task);
        at := OneRowMore(lines, n, at);
      } else {
        assert RowTasks(lines[..n]) == RowTasks(lines[..n - 1]);
      }
    }
  }

  lemma {:induction false} OneRowMore(lines: seq<Line>, n: nat, front: seq<nat>) returns (at: seq<nat>)
    requires 0 < n <= |lines| && RowsAt(lines, n - 1, front) && IsRow(lines[n - 1])
    ensures at == front + [n - 1] && RowsAt(lines, n, at)
  {
    at := front + [n - 1];
    forall k | 0 <= k < n && IsRow(lines[k]) ensures k in at {
      if k < n - 1 {
        assert k in front;
      }
    }
  }

  /** A document is read as one package for each readable row, in order. */
  lemma {:induction false} EachRowOnce(lines: seq<Line>) returns (at: seq<nat>)
    ensures RowsAt(lines, |lines|, at) && |at| == |RowTasks(lines)|
    ensures forall i :: 0 <= i < |at| ==> Describes(lines, at[i], RowTasks(lines)[i])
  {
    at := RowsOf(lines, |lines|);
    assert lines[..|lines|] == lines;
  }

  // ----- Which edges are wanted -----

  predicate Dropped(issues: Issues, n: int) {
    n in issues && issues[n].notPlanned
  }

  /** Package i needs package j, which has this issue, and does not waive it. */
  predicate Needs(tasks: Tasks, i: nat, j: nat, issue: int) {
    && i < |tasks| && j < |tasks|
    && tasks[j].0 in tasks[i].1.dependencies && tasks[j].0 !in tasks[i].1.waived
    && tasks[j].1.issue == Some(issue) && issue != 0
  }

  /** Package i stands under this group. */
  predicate Under(tasks: Tasks, i: nat, group: int) {
    i < |tasks| && tasks[i].1.parent == Some(group) && group != 0
  }

  /** Package i has an issue that was not dropped, and wants this edge for it. */
  ghost predicate Wants(tasks: Tasks, issues: Issues, i: nat, w: Change) {
    && i < |tasks| && tasks[i].1.issue == Some(w.source) && !Dropped(issues, w.source)
    && match w.kind
       case Parent => Under(tasks, i, w.target)
       case BlockedBy => exists j :: Needs(tasks, i, j, w.target)
  }

  lemma {:induction false} LookupIs(tasks: Tasks, j: nat)
    requires DistinctNames(tasks) && j < |tasks| && Knows(tasks, tasks[j].0)
    ensures Lookup(tasks, tasks[j].0) == tasks[j].1.issue
    decreases j
  {
    if j > 0 {
      assert tasks[0].0 != tasks[j].0 && tasks[1..][j - 1] == tasks[j];
      assert DistinctNames(tasks[1..]) by {
        forall i, k | 0 <= i < k < |tasks[1..]| ensures tasks[1..][i].0 != tasks[1..][k].0 {
          assert tasks[1..][i] == tasks[i + 1] && tasks[1..][k] == tasks[k + 1];
        }
      }
      LookupIs(tasks[1..], j - 1);
    }
  }

  /** A dependency that is a package, is not waived and has an issue. */
  ghost predicate NeedsOne(tasks: Tasks, dependencies: seq<string>, waived: set<string>, j: nat, issue: int) {
    && j < |tasks| && tasks[j].0 in dependencies && tasks[j].0 !in waived
    && tasks[j].1.issue == Some(issue) && issue != 0
  }

  lemma {:induction false} BlockersIff(tasks: Tasks, source: int, dependencies: seq<string>, waived: set<string>,
                                       w: Change)
    requires DistinctNames(tasks) && forall dep :: dep in dependencies ==> Knows(tasks, dep)
    ensures w in WantedBlockers(tasks, source, dependencies, waived) <==>
              && w.kind.BlockedBy? && w.source == source
              && exists j :: NeedsOne(tasks, dependencies, waived, j, w.target)
  {
    if dependencies != [] {
      var dep, rest := dependencies[0], dependencies[1..];
      BlockersIff(tasks, source, rest, waived, w);
      assert Knows(tasks, dep);
      var k :| 0 <= k < |tasks| && tasks[k].0 == dep;
      LookupIs(tasks, k);
      forall j: nat
        ensures NeedsOne(tasks, dependencies, waived, j, w.target) <==>
          NeedsOne(tasks, rest, waived, j, w.target) || (j == k && NeedsOne(tasks, [dep], waived, k, w.target))
      {
        assert dependencies == [dep] + rest;
        assert j < |tasks| && j != k ==> tasks[j].0 != dep;
      }
      if j :| NeedsOne(tasks, rest, waived, j, w.target) {
        assert NeedsOne(tasks, dependencies, waived, j, w.target);
      }
      if NeedsOne(tasks, [dep], waived, k, w.target) {
        assert NeedsOne(tasks, dependencies, waived, k, w.target);
      }
    }
  }

  lemma {:induction false} OneWants(tasks: Tasks, issues: Issues, i: nat, w: Change)
    requires DistinctNames(tasks) && Closed(tasks) && i < |tasks|
    ensures w in Wanted(tasks, issues, tasks[i].1) <==> Wants(tasks, issues, i, w)
  {
    var task := tasks[i].1;
    if task.issue.Some? {
      BlockersIff(tasks, task.issue.value, task.dependencies, task.waived, w);
      assert forall j: nat ::
        NeedsOne(tasks, task.dependencies, task.waived, j, w.target) == Needs(tasks, i, j, w.target);
    }
  }

  lemma {:induction false} RestWants(tasks: Tasks, issues: Issues, n: nat, w: Change)
    requires DistinctNames(tasks) && Closed(tasks) && n <= |tasks|
    ensures w in AllWanted(tasks, issues, tasks[n..]) <==> exists i :: n <= i && Wants(tasks, issues, i, w)
    decreases |tasks| - n
  {
    if n < |tasks| {
      RestWants(tasks, issues, n + 1, w);
      OneWants(tasks, issues, n, w);
      assert tasks[n..][0] == tasks[n] && tasks[n..][1..] == tasks[n + 1..];
    }
  }

  /** Main result: the edges the planner looks at are exactly those some package
      wants: its group as parent, and the issue of every package it needs and does
      not waive as blocker. */
  lemma {:induction false} WantedIff(tasks: Tasks, issues: Issues, w: Change)
    requires DistinctNames(tasks) && Closed(tasks)
    ensures w in AllWanted(tasks, issues, tasks) <==> exists i :: Wants(tasks, issues, i, w)
  {
    RestWants(tasks, issues, 0, w);
    assert tasks[0..] == tasks;
  }

  // ----- Which of them are planned or reported -----

  predicate Known(issues: Issues, w: Change) {
    w.source in issues && w.target in issues
  }

  /** The issues have this edge already. */
  predicate Linked(issues: Issues, w: Change) {
    && Known(issues, w)
    && match w.kind
       case Parent => issues[w.source].parent == Some(issues[w.target].id)
       case BlockedBy => issues[w.target].id in issues[w.source].blockedBy
  }

  predicate HasOtherParent(issues: Issues, w: Change) {
    && Known(issues, w) && !Linked(issues, w)
    && w.kind.Parent? && issues[w.source].parent.Some?
  }

  /** A blocker that was dropped, or is open while what it blocks is closed. */
  predicate IsUnfinished(issues: Issues, w: Change) {
    && Known(issues, w) && !Linked(issues, w) && w.kind.BlockedBy?
    && (issues[w.target].notPlanned || (issues[w.source].closed && !issues[w.target].closed))
  }

  predicate IsFree(issues: Issues, w: Change) {
    Known(issues, w) && !Linked(issues, w) && !HasOtherParent(issues, w) && !IsUnfinished(issues, w)
  }

  /** In these graphs the target of the edge leads back to its source. */
  ghost predicate LeadsBack(issues: Issues, links: Links, w: Change) {
    Known(issues, w) && Connected(Of(links, w.kind), issues[w.target].id, issues[w.source].id)
  }

  /** Some change of the list is this edge. */
  predicate IsChange(issues: Issues, changes: seq<Change>, kind: Kind, x: Node, y: Node) {
    exists c :: c in changes && c.kind == kind && Known(issues, c)
                && issues[c.source].id == x && issues[c.target].id == y
  }

  /** The graphs a plan ends with: the edges it started from and its changes. */
  lemma {:induction false} EdgesAre(issues: Issues, links: Links, wants: seq<Change>, kind: Kind, x: Node, y: Node)
    ensures var p := PlanAll(issues, links, wants);
            y in Next(Of(p.links, kind), x) <==>
              y in Next(Of(links, kind), x) || IsChange(issues, p.changes, kind, x, y)
    decreases |wants|
  {
    if wants != [] {
      var w := wants[0];
      var d := Decide(issues, links, w);
      var after := After(issues, links, w, d);
      EdgesAre(issues, after, wants[1..], kind, x, y);
      var rest, all := PlanAll(issues, after, wants[1..]).changes, PlanAll(issues, links, wants).changes;
      if d.Add? {
        assert all == [w] + rest;
        assert y in Next(Of(after, kind), x) <==>
               y in Next(Of(links, kind), x) || IsChange(issues, [w], kind, x, y) by {
          assert w in [w];
        }
        ChangeAmong(issues, w, rest, kind, x, y);
      } else {
        assert all == rest;
      }
    }
  }

  lemma {:induction false} ChangeAmong(issues: Issues, w: Change, rest: seq<Change>, kind: Kind, x: Node, y: Node)
    ensures IsChange(issues, [w] + rest, kind, x, y) <==>
            IsChange(issues, [w], kind, x, y) || IsChange(issues, rest, kind, x, y)
  {
    assert w in [w];
  }

  /** What a plan holds was wanted. */
  lemma {:induction false} OnlyWanted(issues: Issues, links: Links, wants: seq<Change>, reason: Reason, w: Change)
    ensures var p := PlanAll(issues, links, wants);
            w in p.changes || Finding(reason, w) in p.findings ==> w in wants
    decreases |wants|
  {
    if wants != [] {
      OnlyWanted(issues, After(issues, links, wants[0], Decide(issues, links, wants[0])), wants[1..], reason, w);
    }
  }

  /** The graphs on the way: nothing is gone, and an edge that conflicts with the
      issues as they were found is there only if it was. */
  ghost predicate OnTheWay(issues: Issues, links: Links) {
    && (forall w :: Linked(issues, w) ==> HasEdge(issues, links, w))
    && (forall w :: HasOtherParent(issues, w) || IsUnfinished(issues, w) ==> !HasEdge(issues, links, w))
  }

  lemma {:induction false} AtTheStart(issues: Issues, w: Change)
    requires DistinctIds(issues)
    ensures HasEdge(issues, StartLinks(issues), w) <==> Linked(issues, w)
  {
    StartLinksOf(issues);
  }

  lemma {:induction false} EdgeAdded(g: Graph, x: Node, y: Node, u: Node, v: Node)
    ensures v in Next(AddEdge(g, x, y), u) <==> v in Next(g, u) || (u == x && v == y)
  {}

  /** Adding one edge adds it and no other. */
  lemma {:induction false} OneEdgeMore(issues: Issues, links: Links, w: Change, v: Change)
    requires DistinctIds(issues) && Known(issues, w)
    ensures HasEdge(issues, After(issues, links, w, Add), v) <==> HasEdge(issues, links, v) || v == w
  {
    var after := After(issues, links, w, Add);
    if Known(issues, v) {
      var x, y, g := issues[w.source].id, issues[w.target].id, Of(links, w.kind);
      assert v.source == w.source <==> issues[v.source].id == x;
      assert v.target == w.target <==> issues[v.target].id == y;
      assert HasEdge(issues, after, v) <==> issues[v.target].id in Next(Of(after, v.kind), issues[v.source].id);
      if v.kind == w.kind {
        assert Of(after, v.kind) == AddEdge(g, x, y);
        EdgeAdded(g, x, y, issues[v.source].id, issues[v.target].id);
      } else {
        assert Of(after, v.kind) == Of(links, v.kind);
      }
    }
  }

  lemma {:induction false} StillOnTheWay(issues: Issues, links: Links, w: Change)
    requires DistinctIds(issues) && OnTheWay(issues, links) && Decide(issues, links, w).Add?
    ensures OnTheWay(issues, After(issues, links, w, Add))
  {
    DecidedByIssues(issues, links, w);
    var after := After(issues, links, w, Add);
    forall v ensures HasEdge(issues, after, v) <==> HasEdge(issues, links, v) || v == w {
      OneEdgeMore(issues, links, w, v);
    }
    assert !HasOtherParent(issues, w) && !IsUnfinished(issues, w);
    hide HasEdge, After, Decide, Linked, HasOtherParent, IsUnfinished, Known;
  }

  /** A wish on the way is decided by the issues alone, up to cycles. */
  lemma {:induction false} DecidedByIssues(issues: Issues, links: Links, w: Change)
    requires OnTheWay(issues, links)
    ensures var d := Decide(issues, links, w);
            && (d == Report(Missing) <==> !Known(issues, w))
            && (d == Report(OtherParent) <==> HasOtherParent(issues, w))
            && (d == Report(Unfinished) <==> IsUnfinished(issues, w))
            && (d == Report(WouldCycle) || d.Add? ==> IsFree(issues, w))
  {}

  /** Why a wish may be reported, by the issues as they were found. */
  predicate Reported(issues: Issues, reason: Reason, w: Change) {
    match reason
    case Missing => !Known(issues, w)
    case OtherParent => HasOtherParent(issues, w)
    case Unfinished => IsUnfinished(issues, w)
    case WouldCycle => IsFree(issues, w)
  }

  lemma {:induction false} ReportedBecause(issues: Issues, links: Links, wants: seq<Change>, reason: Reason, w: Change)
    requires DistinctIds(issues) && OnTheWay(issues, links)
    ensures var p := PlanAll(issues, links, wants);
            && (Finding(reason, w) in p.findings ==> Reported(issues, reason, w))
            && (w in wants && reason != WouldCycle && Reported(issues, reason, w) ==> Finding(reason, w) in p.findings)
            && (w in p.changes ==> IsFree(issues, w))
    decreases |wants|
  {
    if wants != [] {
      var first := wants[0];
      var d := Decide(issues, links, first);
      DecidedByIssues(issues, links, first);
      if d.Add? {
        StillOnTheWay(issues, links, first);
      }
      ReportedBecause(issues, After(issues, links, first, d), wants[1..], reason, w);
    }
  }

  lemma {:induction false} StartIsOnTheWay(issues: Issues)
    requires DistinctIds(issues)
    ensures OnTheWay(issues, StartLinks(issues))
  {
    forall w ensures HasEdge(issues, StartLinks(issues), w) <==> Linked(issues, w) {
      AtTheStart(issues, w);
    }
  }

  lemma {:induction false} ReportedFor(issues: Issues, wants: seq<Change>, reason: Reason, w: Change)
    requires DistinctIds(issues) && reason != WouldCycle
    ensures Finding(reason, w) in PlanAll(issues, StartLinks(issues), wants).findings <==>
              w in wants && Reported(issues, reason, w)
  {
    var links := StartLinks(issues);
    StartIsOnTheWay(issues);
    hide StartLinks, PlanAll, Reported;
    OnlyWanted(issues, links, wants, reason, w);
    ReportedBecause(issues, links, wants, reason, w);
  }

  /** Main result for reports: a wish is reported exactly when one of its issues is
      missing, its issue has another parent, or its blocker is unfinished. */
  lemma {:induction false} ReportedIff(issues: Issues, wants: seq<Change>, w: Change)
    requires DistinctIds(issues)
    ensures var found := PlanAll(issues, StartLinks(issues), wants).findings;
            && (Finding(Missing, w) in found <==> w in wants && !Known(issues, w))
            && (Finding(OtherParent, w) in found <==> w in wants && HasOtherParent(issues, w))
            && (Finding(Unfinished, w) in found <==> w in wants && IsUnfinished(issues, w))
  {
    hide StartLinks, PlanAll;
    ReportedFor(issues, wants, Missing, w);
    ReportedFor(issues, wants, OtherParent, w);
    ReportedFor(issues, wants, Unfinished, w);
  }

  /** A wish reported for a cycle closes one in the graphs the plan ends with. */
  lemma {:induction false} CycleStays(issues: Issues, links: Links, wants: seq<Change>, w: Change)
    requires DistinctIds(issues) && Finding(WouldCycle, w) in PlanAll(issues, links, wants).findings
    ensures LeadsBack(issues, PlanAll(issues, links, wants).links, w)
    decreases |wants|
  {
    var d := Decide(issues, links, wants[0]);
    if wants[0] == w && d == Report(WouldCycle) {
      ReportedForGood(issues, links, wants, w);
    } else {
      CycleStays(issues, After(issues, links, wants[0], d), wants[1..], w);
    }
  }

  /** An edge of the final graphs whose target leads back was there at the start. */
  lemma {:induction false} BackIsOld(issues: Issues, links: Links, wants: seq<Change>, kind: Kind, x: Node, y: Node)
    requires var g := Of(PlanAll(issues, links, wants).links, kind); y in Next(g, x) && Connected(g, y, x)
    ensures y in Next(Of(links, kind), x)
  {
    var g := Of(PlanAll(issues, links, wants).links, kind);
    var back :| IsPath(g, back) && Joins(back, y, x);
    var cycle := [x] + back;
    assert IsCycle(g, cycle);
    ClosesNoCycle(issues, links, wants, kind, cycle);
    assert cycle[0 + 1] in Next(Of(links, kind), cycle[0]);
  }

  /** A planned edge closes no cycle in the graphs the plan ends with. */
  lemma {:induction false} PlannedClosesNone(issues: Issues, wants: seq<Change>, w: Change)
    requires DistinctIds(issues) && IsFree(issues, w)
    requires w in PlanAll(issues, StartLinks(issues), wants).changes
    ensures !LeadsBack(issues, PlanAll(issues, StartLinks(issues), wants).links, w)
  {
    var links := StartLinks(issues);
    var p := PlanAll(issues, links, wants);
    var x, y := issues[w.source].id, issues[w.target].id;
    assert IsChange(issues, p.changes, w.kind, x, y);
    EdgesAre(issues, links, wants, w.kind, x, y);
    AtTheStart(issues, w);
    if LeadsBack(issues, p.links, w) {
      BackIsOld(issues, links, wants, w.kind, x, y);
      assert false;
    }
  }

  lemma {:induction false} FreeIsSettled(issues: Issues, wants: seq<Change>, w: Change)
    requires DistinctIds(issues) && w in wants && IsFree(issues, w)
    ensures var p := PlanAll(issues, StartLinks(issues), wants);
            w in p.changes || Finding(WouldCycle, w) in p.findings
  {
    var links := StartLinks(issues);
    var p := PlanAll(issues, links, wants);
    EveryWishSettled(issues, links, wants, w);
    if HasEdge(issues, p.links, w) {
      EdgesAre(issues, links, wants, w.kind, issues[w.source].id, issues[w.target].id);
      AtTheStart(issues, w);
    } else {
      var reason :| Finding(reason, w) in p.findings;
      ReportedIff(issues, wants, w);
      assert reason == WouldCycle;
    }
  }

  /** Main result for the plan: an edge is planned exactly when it is wanted and new,
      nothing speaks against it, and in the graphs as planned its target does not
      lead back to its source; if it does, that is what is reported. */
  lemma {:induction false} PlannedIff(issues: Issues, wants: seq<Change>, w: Change)
    requires DistinctIds(issues)
    ensures var p := PlanAll(issues, StartLinks(issues), wants);
            && (w in p.changes <==> w in wants && IsFree(issues, w) && !LeadsBack(issues, p.links, w))
            && (Finding(WouldCycle, w) in p.findings <==>
                  w in wants && IsFree(issues, w) && LeadsBack(issues, p.links, w))
  {
    var links := StartLinks(issues);
    var p := PlanAll(issues, links, wants);
    StartIsOnTheWay(issues);
    OnlyWanted(issues, links, wants, WouldCycle, w);
    ReportedBecause(issues, links, wants, WouldCycle, w);
    if w in p.changes {
      PlannedClosesNone(issues, wants, w);
    }
    if Finding(WouldCycle, w) in p.findings {
      CycleStays(issues, links, wants, w);
    }
    if w in wants && IsFree(issues, w) {
      FreeIsSettled(issues, wants, w);
    }
  }
}
