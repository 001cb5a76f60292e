/** Chains of open pull requests (scripts/link_stacks.py): from each pull request
    at the bottom the walk goes up through the only one on top of it, until there
    is none or a fork. */
module LinkStacks {
  import opened Wrappers

  datatype PR = PR(number: int, base: string, head: string, stack: Option<int>)

  predicate IsHead(prs: seq<PR>, branch: string) {
    exists i :: 0 <= i < |prs| && prs[i].head == branch
  }

  predicate DistinctHeads(prs: seq<PR>) {
    forall i, j :: 0 <= i < j < |prs| ==> prs[i].head != prs[j].head
  }

  /** The pull requests on top of a branch, in the order they are listed. */
  function On(prs: seq<PR>, branch: string): seq<PR> {
    if prs == [] then []
    else (if prs[0].base == branch then [prs[0]] else []) + On(prs[1..], branch)
  }

  predicate IsBottom(prs: seq<PR>, pr: PR) {
    pr in prs && !IsHead(prs, pr.base) && On(prs, pr.head) != []
  }

  /** From a bottom up, each pull request is the only one on top of the one below. */
  predicate IsChain(prs: seq<PR>, chain: seq<PR>) {
    && chain != [] && IsBottom(prs, chain[0])
    && forall i :: 0 <= i < |chain| - 1 ==> On(prs, chain[i].head) == [chain[i + 1]]
  }

  lemma {:induction false} OnIs(prs: seq<PR>, branch: string)
    ensures forall pr :: pr in On(prs, branch) <==> pr in prs && pr.base == branch
  {
    if prs != [] {
      OnIs(prs[1..], branch);
    }
  }

  /** Each base is the head of the pull request below. */
  lemma {:induction false} ChainLinks(prs: seq<PR>, chain: seq<PR>)
    requires IsChain(prs, chain)
    ensures forall i :: 0 <= i < |chain| ==> chain[i] in prs
    ensures forall i :: 0 < i < |chain| ==> chain[i].base == chain[i - 1].head
  {
    forall i | 0 <= i < |chain| ensures chain[i] in prs && (i > 0 ==> chain[i].base == chain[i - 1].head) {
      if i > 0 {
        assert On(prs, chain[i - 1].head) == [chain[i - 1 + 1]];
        OnIs(prs, chain[i - 1].head);
        assert chain[i] in On(prs, chain[i - 1].head);
      }
    }
  }

  lemma {:induction false} MemberIsHead(prs: seq<PR>, pr: PR)
    requires pr in prs
    ensures IsHead(prs, pr.head)
  {}

  lemma {:induction false} SameHeadSamePR(prs: seq<PR>, a: PR, b: PR)
    requires DistinctHeads(prs) && a in prs && b in prs && a.head == b.head
    ensures a == b
  {}

  /** Two chains that meet have the same bottom and meet at the same height. */
  lemma {:induction false} ChainsMeet(prs: seq<PR>, c: seq<PR>, d: seq<PR>, i: nat, j: nat)
    requires DistinctHeads(prs) && IsChain(prs, c) && IsChain(prs, d)
    requires i < |c| && j < |d| && c[i] == d[j]
    ensures i == j && c[0] == d[0]
    decreases i
  {
    if i > 0 {
      AboveTheBottom(prs, c, i);
    }
    if j > 0 {
      AboveTheBottom(prs, d, j);
    }
    if i > 0 && j > 0 {
      SameHeadSamePR(prs, c[i - 1], d[j - 1]);
      ChainsMeet(prs, c, d, i - 1, j - 1);
    }
  }

  lemma {:induction false} AboveTheBottom(prs: seq<PR>, chain: seq<PR>, i: nat)
    requires IsChain(prs, chain) && 0 < i < |chain|
    ensures chain[i - 1] in prs && chain[i].base == chain[i - 1].head && IsHead(prs, chain[i].base)
  {
    ChainLinks(prs, chain);
    MemberIsHead(prs, chain[i - 1]);
  }

  /** No pull request is visited twice. */
  lemma {:induction false} ChainDistinct(prs: seq<PR>, chain: seq<PR>)
    requires DistinctHeads(prs) && IsChain(prs, chain)
    ensures forall i, j :: 0 <= i < j < |chain| ==> chain[i] != chain[j]
    ensures |chain| <= |prs|
  {
    forall i, j | 0 <= i < j < |chain| ensures chain[i] != chain[j] {
      if chain[i] == chain[j] {
        ChainsMeet(prs, chain, chain, i, j);
      }
    }
    ChainLinks(prs, chain);
    NotMoreThan(chain, prs);
  }

  lemma {:induction false} NotMoreThan<T>(part: seq<T>, all: seq<T>)
    requires forall i, j :: 0 <= i < j < |part| ==> part[i] != part[j]
    requires forall i :: 0 <= i < |part| ==> part[i] in all
    ensures |part| <= |all|
  {
    if part != [] {
      var k :| 0 <= k < |all| && all[k] == part[0];
      var rest := all[..k] + all[k + 1..];
      forall i | 0 <= i < |part[1..]| ensures part[1..][i] in rest {
        var m :| 0 <= m < |all| && all[m] == part[i + 1];
        assert part[0] != part[i + 1];
        assert rest[if m < k then m else m - 1] == part[i + 1];
      }
      forall i, j | 0 <= i < j < |part[1..]| ensures part[1..][i] != part[1..][j] {
        assert part[i + 1] != part[j + 1];
      }
      NotMoreThan(part[1..], rest);
    }
  }

  /** The chain continued as far as it goes. */
  function Upwards(prs: seq<PR>, chain: seq<PR>): (top: seq<PR>)
    requires DistinctHeads(prs) && IsChain(prs, chain)
    ensures IsChain(prs, top) && chain <= top
    ensures |On(prs, top[|top| - 1].head)| != 1
    decreases |prs| - |chain|
  {
    var above := On(prs, chain[|chain| - 1].head);
    if |above| != 1 then chain
    else
      ChainDistinct(prs, chain + above);
      Upwards(prs, chain + above)
  }

  datatype Fork = Fork(below: int, above: seq<int>)

  function Numbers(prs: seq<PR>): seq<int> {
    seq(|prs|, i requires 0 <= i < |prs| => prs[i].number)
  }

  method WalkUp(prs: seq<PR>, bottom: PR) returns (chain: seq<PR>, fork: Option<Fork>)
    requires DistinctHeads(prs) && IsBottom(prs, bottom)
    ensures chain == Upwards(prs, [bottom])
    ensures fork == var top := chain[|chain| - 1];
                    if |On(prs, top.head)| > 1 then Some(Fork(top.number, Numbers(On(prs, top.head)))) else None
  {
    chain, fork := [bottom], None;
    var node := bottom;
    while On(prs, node.head) != []
      invariant IsChain(prs, chain) && node == chain[|chain| - 1]
      invariant Upwards(prs, chain) == Upwards(prs, [bottom])
      decreases |prs| - |chain|
    {
      var above := On(prs, node.head);
      if |above| > 1 {
        fork := Some(Fork(node.number, Numbers(above)));
        return;
      }
      assert above == [above[0]];
      ChainDistinct(prs, chain + above);
      node := above[0];
      chain := chain + [node];
    }
  }

  /** A chain is to be linked unless all its pull requests are in one stack already. */
  predicate ToLink(chain: seq<PR>) {
    && |chain| > 1
    && ((exists pr :: pr in chain && pr.stack.None?) || exists p, q :: p in chain && q in chain && p.stack != q.stack)
  }

  function LinksFrom(prs: seq<PR>, bottoms: seq<PR>): seq<seq<int>>
    requires DistinctHeads(prs)
  {
    if bottoms == [] then []
    else
      (if IsBottom(prs, bottoms[0]) && ToLink(Upwards(prs, [bottoms[0]])) then [Numbers(Upwards(prs, [bottoms[0]]))]
       else [])
        + LinksFrom(prs, bottoms[1..])
  }

  function ForkAbove(prs: seq<PR>, bottom: PR): seq<Fork>
    requires DistinctHeads(prs) && IsBottom(prs, bottom)
  {
    var chain := Upwards(prs, [bottom]);
    var top := chain[|chain| - 1];
    if |On(prs, top.head)| > 1 then [Fork(top.number, Numbers(On(prs, top.head)))] else []
  }

  function ForksFrom(prs: seq<PR>, bottoms: seq<PR>): seq<Fork>
    requires DistinctHeads(prs)
  {
    if bottoms == [] then []
    else (if IsBottom(prs, bottoms[0]) then ForkAbove(prs, bottoms[0]) else []) + ForksFrom(prs, bottoms[1..])
  }

  method Plan(prs: seq<PR>) returns (chains: seq<seq<int>>, forks: seq<Fork>)
    requires DistinctHeads(prs)
    ensures chains == LinksFrom(prs, prs) && forks == ForksFrom(prs, prs)
  {
    chains, forks := [], [];
    assert prs[0..] == prs;
    for k := 0 to |prs|
      invariant chains + LinksFrom(prs, prs[k..]) == LinksFrom(prs, prs)
      invariant forks + ForksFrom(prs, prs[k..]) == ForksFrom(prs, prs)
    {
      assert prs[k..][0] == prs[k] && prs[k..][1..] == prs[k + 1..];
      var c, f := PlanOne(prs, prs[k]);
      Assoc(chains, c, LinksFrom(prs, prs[k + 1..]));
      Assoc(forks, f, ForksFrom(prs, prs[k + 1..]));
      chains, forks := chains + c, forks + f;
    }
    assert prs[|prs|..] == [];
  }

  lemma {:induction false} Assoc<T>(a: seq<T>, b: seq<T>, c: seq<T>)
    ensures a + (b + c) == (a + b) + c
  {}

  method PlanOne(prs: seq<PR>, pr: PR) returns (chains: seq<seq<int>>, forks: seq<Fork>)
    requires DistinctHeads(prs)
    ensures chains == if IsBottom(prs, pr) && ToLink(Upwards(prs, [pr])) then [Numbers(Upwards(prs, [pr]))] else []
    ensures forks == if IsBottom(prs, pr) then ForkAbove(prs, pr) else []
  {
    chains, forks := [], [];
    if !IsBottom(prs, pr) {
      return;
    }
    var chain, fork := WalkUp(prs, pr);
    if fork.Some? {
      forks := [fork.value];
    }
    if ToLink(chain) {
      chains := [Numbers(chain)];
    }
  }

  /** Different bottoms have disjoint chains. */
  lemma {:induction false} ChainsAreDisjoint(prs: seq<PR>, a: PR, b: PR, pr: PR)
    requires DistinctHeads(prs) && IsBottom(prs, a) && IsBottom(prs, b) && a != b
    ensures !(pr in Upwards(prs, [a]) && pr in Upwards(prs, [b]))
  {
    var c, d := Upwards(prs, [a]), Upwards(prs, [b]);
    if pr in c && pr in d {
      var i :| 0 <= i < |c| && c[i] == pr;
      var j :| 0 <= j < |d| && d[j] == pr;
      ChainsMeet(prs, c, d, i, j);
    }
  }

  /** Pull requests that are each other's base in a circle. */
  predicate IsCircle(prs: seq<PR>, circle: seq<PR>) {
    && circle != [] && (forall i :: 0 <= i < |circle| ==> circle[i] in prs)
    && (forall i :: 0 <= i < |circle| - 1 ==> circle[i + 1].base == circle[i].head)
    && circle[0].base == circle[|circle| - 1].head
  }

  /** No chain enters a circle. */
  lemma {:induction false} NoChainEntersACircle(prs: seq<PR>, chain: seq<PR>, circle: seq<PR>, i: nat, k: nat)
    requires DistinctHeads(prs) && IsChain(prs, chain) && IsCircle(prs, circle)
    requires i < |chain| && k < |circle|
    ensures chain[i] != circle[k]
    decreases i
  {
    if chain[i] == circle[k] {
      ChainLinks(prs, chain);
      var before := if k == 0 then |circle| - 1 else k - 1;
      assert circle[k].base == circle[before].head by {
        if k > 0 {
          assert circle[k - 1 + 1].base == circle[k - 1].head;
        }
      }
      MemberIsHead(prs, circle[before]);
      if i > 0 {
        SameHeadSamePR(prs, chain[i - 1], circle[before]);
        NoChainEntersACircle(prs, chain, circle, i - 1, before);
      }
    }
  }

  // ----- Why the heads have to be distinct -----

  /** The walk from a bottom gets to height n. */
  predicate Reaches(prs: seq<PR>, chain: seq<PR>, bottom: PR, n: nat) {
    IsChain(prs, chain) && chain[0] == bottom && |chain| == n
  }

  ghost predicate CanReach(prs: seq<PR>, bottom: PR, n: nat) {
    exists chain :: Reaches(prs, chain, bottom, n)
  }

  /** A head comes back at height j. */
  predicate ComesBack(prs: seq<PR>, chain: seq<PR>, bottom: PR, i: nat, j: nat) {
    IsChain(prs, chain) && chain[0] == bottom && i < j < |chain| && chain[i].head == chain[j].head
  }

  lemma {:induction false} OneHigher(prs: seq<PR>, chain: seq<PR>, pr: PR)
    requires IsChain(prs, chain) && On(prs, chain[|chain| - 1].head) == [pr]
    ensures IsChain(prs, chain + [pr]) && (chain + [pr])[0] == chain[0]
  {
  }

  lemma {:induction false} CutChain(prs: seq<PR>, chain: seq<PR>, n: nat)
    requires IsChain(prs, chain) && 0 < n <= |chain|
    ensures IsChain(prs, chain[..n]) && chain[..n][0] == chain[0] && chain[..n][n - 1] == chain[n - 1]
  {
  }

  lemma {:induction false} Circling(prs: seq<PR>, c: seq<PR>, bottom: PR, i: nat, j: nat, n: nat)
    returns (d: seq<PR>, k: nat)
    requires ComesBack(prs, c, bottom, i, j) && n > j
    ensures Reaches(prs, d, bottom, n) && i <= k < j && d[n - 1].head == c[k].head
    decreases n
  {
    if n == j + 1 {
      d, k := c[..n], i;
      CutChain(prs, c, n);
    } else {
      var e, m := Circling(prs, c, bottom, i, j, n - 1);
      d := e + [c[m + 1]];
      assert On(prs, c[m].head) == [c[m + 1]];
      OneHigher(prs, e, c[m + 1]);
      k := if m + 1 == j then i else m + 1;
    }
  }

  /** Without distinct heads the walk goes on for ever exactly when a head comes
      back on it. Distinct heads rule that out. */
  lemma {:induction false} EndlessIffAHeadComesBack(prs: seq<PR>, bottom: PR)
    requires IsBottom(prs, bottom)
    ensures (forall n: nat :: n > 0 ==> CanReach(prs, bottom, n)) <==>
            (exists c, i: nat, j: nat :: ComesBack(prs, c, bottom, i, j))
    ensures DistinctHeads(prs) ==> !exists c, i: nat, j: nat :: ComesBack(prs, c, bottom, i, j)
  {
    if forall n: nat :: n > 0 ==> CanReach(prs, bottom, n) {
      assert CanReach(prs, bottom, |prs| + 1);
      var c :| Reaches(prs, c, bottom, |prs| + 1);
      TooHigh(prs, c, bottom);
    }
    if c, i: nat, j: nat :| ComesBack(prs, c, bottom, i, j) {
      forall n: nat | n > 0 ensures CanReach(prs, bottom, n) {
        if n > j {
          var d, k := Circling(prs, c, bottom, i, j, n);
        } else {
          CutChain(prs, c, n);
          assert Reaches(prs, c[..n], bottom, n);
        }
      }
    }
    if DistinctHeads(prs) {
      forall c: seq<PR>, i: nat, j: nat | IsChain(prs, c) && i < j < |c| ensures c[i].head != c[j].head {
        ChainDistinct(prs, c);
        ChainLinks(prs, c);
        if c[i].head == c[j].head {
          SameHeadSamePR(prs, c[i], c[j]);
        }
      }
    }
  }

  lemma {:induction false} TooHigh(prs: seq<PR>, c: seq<PR>, bottom: PR)
    requires Reaches(prs, c, bottom, |prs| + 1)
    ensures exists i: nat, j: nat :: ComesBack(prs, c, bottom, i, j)
  {
    ChainLinks(prs, c);
    if forall i, j :: 0 <= i < j < |c| ==> c[i] != c[j] {
      NotMoreThan(c, prs);
    }
    var i, j :| 0 <= i < j < |c| && c[i] == c[j];
    assert ComesBack(prs, c, bottom, i, j);
  }

  lemma {:induction false} OnCons(pr: PR, rest: seq<PR>, branch: string)
    ensures On([pr] + rest, branch) == (if pr.base == branch then [pr] else []) + On(rest, branch)
  {
    assert ([pr] + rest)[1..] == rest;
  }

  /** Such pull requests exist: two of one branch, one of them on top of its own child. */
  lemma {:induction false} TwoPullRequestsOfOneBranch(trunk: string, x: string, y: string)
    requires trunk != x && trunk != y && x != y
    ensures var a, b, c := PR(1, trunk, x, None), PR(2, x, y, None), PR(3, y, x, None);
            ComesBack([a, b, c], [a, b, c], a, 0, 2)
  {
    var a, b, c := PR(1, trunk, x, None), PR(2, x, y, None), PR(3, y, x, None);
    OnlyOnTop(a, b, c, x, b);
    OnlyOnTop(a, b, c, y, c);
    assert !IsHead([a, b, c], trunk);
    assert [a, b, c][0] == a;
  }

  lemma {:induction false} OnlyOnTop(a: PR, b: PR, c: PR, branch: string, pr: PR)
    requires a.base != branch
    requires if pr == b then b.base == branch && c.base != branch
             else pr == c && b.base != branch && c.base == branch
    ensures On([a, b, c], branch) == [pr]
  {
    var none: seq<PR> := [];
    assert [a, b, c] == [a] + ([b] + ([c] + none));
    OnCons(c, none, branch);
    OnCons(b, [c] + none, branch);
    OnCons(a, [b] + ([c] + none), branch);
  }
}
