/** What the link planner plans and reports (scripts/link_stacks.py), read off the list
    of pull requests by its places. */
module LinkPlans {
  import opened Wrappers
  import opened LinkStacks

  // ----- What is on top of a branch -----

  /** The pull request at k is on top of the branch, and no other one is. */
  predicate IsOnly(prs: seq<PR>, branch: string, k: nat) {
    && k < |prs| && prs[k].base == branch
    && forall j :: 0 <= j < |prs| && prs[j].base == branch ==> j == k
  }

  lemma {:induction false} OnNone(prs: seq<PR>, branch: string)
    requires forall j :: 0 <= j < |prs| ==> prs[j].base != branch
    ensures On(prs, branch) == []
  {
    if prs != [] {
      OnNone(prs[1..], branch);
    }
  }

  lemma {:induction false} OnOne(prs: seq<PR>, branch: string, k: nat)
    requires IsOnly(prs, branch, k)
    ensures On(prs, branch) == [prs[k]]
  {
    var rest := prs[1..];
    assert forall j :: 0 <= j < |rest| ==> rest[j] == prs[j + 1];
    if k == 0 {
      OnNone(rest, branch);
    } else {
      assert prs[0].base != branch;
      OnOne(rest, branch, k - 1);
    }
  }

  lemma {:induction false} NoneOn(prs: seq<PR>, branch: string)
    requires On(prs, branch) == []
    ensures forall j :: 0 <= j < |prs| ==> prs[j].base != branch
  {
    if prs != [] {
      NoneOn(prs[1..], branch);
      assert forall j :: 0 < j < |prs| ==> prs[j] == prs[1..][j - 1];
    }
  }

  lemma {:induction false} OneOn(prs: seq<PR>, branch: string) returns (k: nat)
    requires |On(prs, branch)| == 1
    ensures IsOnly(prs, branch, k)
  {
    assert forall j :: 0 < j < |prs| ==> prs[j] == prs[1..][j - 1];
    if prs[0].base == branch {
      NoneOn(prs[1..], branch);
      k := 0;
    } else {
      k := OneOn(prs[1..], branch);
      k := k + 1;
    }
  }

  /** The only one on top of `below` is `pr`. */
  ghost predicate IsNext(prs: seq<PR>, below: PR, pr: PR) {
    exists k: nat :: IsOnly(prs, below.head, k) && prs[k] == pr
  }

  ghost predicate HasNext(prs: seq<PR>, below: PR) {
    exists k: nat :: IsOnly(prs, below.head, k)
  }

  lemma {:induction false} NextIs(prs: seq<PR>, below: PR, pr: PR)
    ensures IsNext(prs, below, pr) <==> On(prs, below.head) == [pr]
    ensures HasNext(prs, below) <==> |On(prs, below.head)| == 1
  {
    if k: nat :| IsOnly(prs, below.head, k) {
      OnOne(prs, below.head, k);
    }
    if |On(prs, below.head)| == 1 {
      var k := OneOn(prs, below.head);
      OnOne(prs, below.head, k);
    }
  }

  // ----- The walks -----

  /** From a pull request that is based on none of the others, up through the only one
      on top of each, until there is none or several. */
  ghost predicate WalksUp(prs: seq<PR>, chain: seq<PR>) {
    && chain != [] && chain[0] in prs && !IsHead(prs, chain[0].base)
    && (forall i :: 0 <= i < |chain| - 1 ==> IsNext(prs, chain[i], chain[i + 1]))
    && !HasNext(prs, chain[|chain| - 1])
  }

  /** The chain of a bottom is the walk up from it. */
  lemma {:induction false} UpwardsWalks(prs: seq<PR>, bottom: PR)
    requires DistinctHeads(prs) && IsBottom(prs, bottom)
    ensures WalksUp(prs, Upwards(prs, [bottom])) && Upwards(prs, [bottom])[0] == bottom
  {
    var chain := Upwards(prs, [bottom]);
    hide Upwards, IsNext, HasNext;
    forall i | 0 <= i < |chain| - 1 ensures IsNext(prs, chain[i], chain[i + 1]) {
      NextIs(prs, chain[i], chain[i + 1]);
    }
    NextIs(prs, chain[|chain| - 1], bottom);
    assert [bottom] <= chain;
  }

  lemma {:induction false} WalkIsChain(prs: seq<PR>, chain: seq<PR>)
    requires WalksUp(prs, chain) && IsBottom(prs, chain[0])
    ensures IsChain(prs, chain) && |On(prs, chain[|chain| - 1].head)| != 1
  {
    hide IsNext, HasNext;
    forall i | 0 <= i < |chain| - 1 ensures On(prs, chain[i].head) == [chain[i + 1]] {
      NextIs(prs, chain[i], chain[i + 1]);
    }
    NextIs(prs, chain[|chain| - 1], chain[0]);
  }

  lemma {:induction false} ChainIsUpwards(prs: seq<PR>, chain: seq<PR>, n: nat)
    requires DistinctHeads(prs) && IsChain(prs, chain) && |On(prs, chain[|chain| - 1].head)| != 1
    requires 0 < n <= |chain|
    ensures IsChain(prs, chain[..n]) && Upwards(prs, chain[..n]) == chain
    decreases |chain| - n
  {
    CutChain(prs, chain, n);
    if n < |chain| {
      ChainIsUpwards(prs, chain, n + 1);
      assert On(prs, chain[n - 1].head) == [chain[n - 1 + 1]];
      assert chain[..n] + [chain[n]] == chain[..n + 1];
    } else {
      assert chain[..n] == chain;
    }
  }

  lemma {:induction false} WalkIsUpwards(prs: seq<PR>, chain: seq<PR>)
    requires DistinctHeads(prs) && WalksUp(prs, chain) && IsBottom(prs, chain[0])
    ensures Upwards(prs, [chain[0]]) == chain
  {
    WalkIsChain(prs, chain);
    ChainIsUpwards(prs, chain, 1);
    assert chain[..1] == [chain[0]];
  }

  // ----- The chains to link -----

  /** All of them are in one and the same stack. */
  ghost predicate InOneStack(chain: seq<PR>) {
    exists n :: forall i :: 0 <= i < |chain| ==> chain[i].stack == Some(n)
  }

  lemma {:induction false} ToLinkIff(chain: seq<PR>)
    ensures ToLink(chain) <==> |chain| > 1 && !InOneStack(chain)
  {
    if |chain| > 1 && !ToLink(chain) {
      assert chain[0] in chain;
      var n := chain[0].stack.value;
      forall i | 0 <= i < |chain| ensures chain[i].stack == Some(n) {
        assert chain[i] in chain;
      }
    }
  }

  /** The chain of this bottom is planned with these numbers. */
  ghost predicate LinksOf(prs: seq<PR>, bottom: PR, numbers: seq<int>)
    requires DistinctHeads(prs)
  {
    IsBottom(prs, bottom) && ToLink(Upwards(prs, [bottom])) && numbers == Numbers(Upwards(prs, [bottom]))
  }

  lemma {:induction false} LinkedFrom(prs: seq<PR>, bottoms: seq<PR>, numbers: seq<int>)
    requires DistinctHeads(prs)
    ensures numbers in LinksFrom(prs, bottoms) <==> exists b :: b in bottoms && LinksOf(prs, b, numbers)
  {
    if bottoms != [] {
      var first, rest := bottoms[0], bottoms[1..];
      LinkedFrom(prs, rest, numbers);
      assert numbers in LinksFrom(prs, bottoms) <==> LinksOf(prs, first, numbers) || numbers in LinksFrom(prs, rest);
      hide LinksFrom, LinksOf;
      assert forall b :: b in bottoms <==> b == first || b in rest;
    }
  }

  /** A walk whose pull requests get linked, and their numbers. */
  ghost predicate IsToLink(prs: seq<PR>, chain: seq<PR>, numbers: seq<int>) {
    && WalksUp(prs, chain) && |chain| > 1 && !InOneStack(chain)
    && |numbers| == |chain| && forall i :: 0 <= i < |chain| ==> numbers[i] == chain[i].number
  }

  lemma {:induction false} BottomIsLinked(prs: seq<PR>, bottom: PR, numbers: seq<int>)
    requires DistinctHeads(prs) && LinksOf(prs, bottom, numbers)
    ensures IsToLink(prs, Upwards(prs, [bottom]), numbers)
  {
    UpwardsWalks(prs, bottom);
    ToLinkIff(Upwards(prs, [bottom]));
    hide Upwards, WalksUp, ToLink, InOneStack;
  }

  lemma {:induction false} LinkedHasBottom(prs: seq<PR>, chain: seq<PR>, numbers: seq<int>)
    requires DistinctHeads(prs) && IsToLink(prs, chain, numbers)
    ensures chain[0] in prs && LinksOf(prs, chain[0], numbers)
  {
    NextIs(prs, chain[0], chain[0 + 1]);
    WalkIsUpwards(prs, chain);
    ToLinkIff(chain);
    hide Upwards, WalksUp, ToLink, InOneStack;
    assert numbers == Numbers(chain);
  }

  /** Main result for the plan: a list of numbers is planned exactly when it is that of a
      walk of at least two pull requests that are not all in one and the same stack. */
  lemma {:induction false} LinkedIff(prs: seq<PR>, numbers: seq<int>)
    requires DistinctHeads(prs)
    ensures numbers in LinksFrom(prs, prs) <==> exists chain :: IsToLink(prs, chain, numbers)
  {
    LinkedFrom(prs, prs, numbers);
    hide LinksOf, LinksFrom;
    if b :| b in prs && LinksOf(prs, b, numbers) {
      BottomIsLinked(prs, b, numbers);
    }
    if chain: seq<PR> :| IsToLink(prs, chain, numbers) {
      LinkedHasBottom(prs, chain, numbers);
    }
  }

  // ----- The forks -----

  predicate IsOn(pr: PR, branch: string) {
    pr.base == branch
  }

  /** These places hold those of the first n pull requests that are on top of the branch. */
  predicate OnTopOf(prs: seq<PR>, n: nat, branch: string, at: seq<nat>) {
    && n <= |prs| && (forall i, j :: 0 <= i < j < |at| ==> at[i] < at[j])
    && (forall i :: 0 <= i < |at| ==> at[i] < n && IsOn(prs[at[i]], branch))
    && (forall k :: 0 <= k < n && IsOn(prs[k], branch) ==> k in at)
  }

  /** These hold all of them, in order. */
  predicate OnTop(prs: seq<PR>, branch: string, at: seq<nat>) {
    OnTopOf(prs, |prs|, branch, at)
  }

  /** The pull requests at these places. */
  predicate Listed(prs: seq<PR>, at: seq<nat>, above: seq<PR>) {
    |above| == |at| && forall i :: 0 <= i < |at| ==> at[i] < |prs| && above[i] == prs[at[i]]
  }

  lemma {:induction false} OnOneMore(prs: seq<PR>, last: PR, branch: string)
    ensures On(prs + [last], branch) == On(prs, branch) + if IsOn(last, branch) then [last] else []
  {
    var one := if IsOn(last, branch) then [last] else [];
    if prs == [] {
      assert [] + [last] == [last] && [last][1..] == [] && [] + one == one;
    } else {
      var rest, first := prs[1..], if prs[0].base == branch then [prs[0]] else [];
      OnOneMore(rest, last, branch);
      assert prs == [prs[0]] + rest && prs + [last] == [prs[0]] + (rest + [last]);
      OnCons(prs[0], rest, branch);
      OnCons(prs[0], rest + [last], branch);
      hide On, IsOn;
      assert first + (On(rest, branch) + one) == first + On(rest, branch) + one;
    }
  }

  lemma {:induction false} OnSoFar(prs: seq<PR>, n: nat, branch: string) returns (at: seq<nat>)
    requires n <= |prs|
    ensures OnTopOf(prs, n, branch, at) && Listed(prs, at, On(prs[..n], branch))
  {
    if n == 0 {
      at := [];
    } else {
      var front := OnSoFar(prs, n - 1, branch);
      assert prs[..n] == prs[..n - 1] + [prs[n - 1]];
      OnOneMore(prs[..n - 1], prs[n - 1], branch);
      at := front + if IsOn(prs[n - 1], branch) then [n - 1] else [];
      OneMoreOn(prs, n - 1, branch, front, at, On(prs[..n - 1], branch));
    }
  }

  lemma {:induction false} OneMoreOn(prs: seq<PR>, n: nat, branch: string, front: seq<nat>, at: seq<nat>,
                                     above: seq<PR>)
    requires n < |prs| && OnTopOf(prs, n, branch, front) && Listed(prs, front, above)
    requires at == front + if IsOn(prs[n], branch) then [n] else []
    ensures OnTopOf(prs, n + 1, branch, at)
    ensures Listed(prs, at, above + if IsOn(prs[n], branch) then [prs[n]] else [])
  {
    hide IsOn;
  }

  lemma {:induction false} OnAt(prs: seq<PR>, branch: string) returns (at: seq<nat>)
    ensures OnTop(prs, branch, at) && Listed(prs, at, On(prs, branch))
  {
    at := OnSoFar(prs, |prs|, branch);
    assert prs[..|prs|] == prs;
  }

  /** The walk ends below several pull requests, and the fork names them in order. */
  ghost predicate EndsInFork(prs: seq<PR>, chain: seq<PR>, fork: Fork) {
    && WalksUp(prs, chain) && fork.below == chain[|chain| - 1].number && |fork.above| > 1
    && exists at :: OnTop(prs, chain[|chain| - 1].head, at) && NumbersAt(prs, at, fork.above)
  }

  predicate NumbersAt(prs: seq<PR>, at: seq<nat>, numbers: seq<int>) {
    |numbers| == |at| && forall i :: 0 <= i < |at| ==> at[i] < |prs| && numbers[i] == prs[at[i]].number
  }

  /** A walk that ends below two pull requests at least. */
  ghost predicate Branches(prs: seq<PR>, chain: seq<PR>) {
    && WalksUp(prs, chain)
    && exists j, k :: 0 <= j < k < |prs| && prs[j].base == chain[|chain| - 1].head == prs[k].base
  }

  ghost predicate ForksOf(prs: seq<PR>, bottom: PR, fork: Fork)
    requires DistinctHeads(prs)
  {
    IsBottom(prs, bottom) && fork in ForkAbove(prs, bottom)
  }

  lemma {:induction false} ForkedFrom(prs: seq<PR>, bottoms: seq<PR>, fork: Fork)
    requires DistinctHeads(prs)
    ensures fork in ForksFrom(prs, bottoms) <==> exists b :: b in bottoms && ForksOf(prs, b, fork)
  {
    if bottoms != [] {
      var first, rest := bottoms[0], bottoms[1..];
      ForkedFrom(prs, rest, fork);
      assert fork in ForksFrom(prs, bottoms) <==> ForksOf(prs, first, fork) || fork in ForksFrom(prs, rest);
      hide ForksFrom, ForksOf;
      assert forall b :: b in bottoms <==> b == first || b in rest;
    }
  }

  /** Every fork that is reported is the end of a walk, with all that is on top. */
  lemma {:induction false} ReportedForks(prs: seq<PR>, fork: Fork) returns (chain: seq<PR>)
    requires DistinctHeads(prs) && fork in ForksFrom(prs, prs)
    ensures EndsInFork(prs, chain, fork)
  {
    ForkedFrom(prs, prs, fork);
    var b :| b in prs && ForksOf(prs, b, fork);
    chain := Upwards(prs, [b]);
    ForkIs(prs, b, fork);
    UpwardsWalks(prs, b);
    var top: PR := chain[|chain| - 1];
    var at := OnAt(prs, top.head);
    hide Upwards, WalksUp, OnTop, ForksOf, IsBottom;
    AboveIs(prs, at, On(prs, top.head));
  }

  lemma {:induction false} ForkIs(prs: seq<PR>, bottom: PR, fork: Fork)
    requires DistinctHeads(prs) && ForksOf(prs, bottom, fork)
    ensures var chain := Upwards(prs, [bottom]);
            var top := chain[|chain| - 1];
            |On(prs, top.head)| > 1 && fork == Fork(top.number, Numbers(On(prs, top.head)))
  {
    hide Upwards;
  }

  lemma {:induction false} AboveIs(prs: seq<PR>, at: seq<nat>, above: seq<PR>)
    requires Listed(prs, at, above)
    ensures NumbersAt(prs, at, Numbers(above))
  {
  }

  lemma {:induction false} TwoOn(prs: seq<PR>, branch: string, j: nat, k: nat)
    requires j < k < |prs| && prs[j].base == branch == prs[k].base
    ensures |On(prs, branch)| > 1
  {
    var at := OnAt(prs, branch);
    assert j in at && k in at;
  }

  /** And every walk that ends below several pull requests is reported. */
  lemma {:induction false} ForksAreReported(prs: seq<PR>, chain: seq<PR>) returns (fork: Fork)
    requires DistinctHeads(prs) && Branches(prs, chain)
    ensures fork in ForksFrom(prs, prs) && EndsInFork(prs, chain, fork)
  {
    var top := chain[|chain| - 1];
    var j, k :| 0 <= j < k < |prs| && prs[j].base == top.head == prs[k].base;
    TwoOn(prs, top.head, j, k);
    var at := OnAt(prs, top.head);
    fork := Fork(top.number, Numbers(On(prs, top.head)));
    AboveIs(prs, at, On(prs, top.head));
    if |chain| > 1 {
      NextIs(prs, chain[0], chain[0 + 1]);
    }
    WalkIsUpwards(prs, chain);
    assert ForksOf(prs, chain[0], fork);
    ForkedFrom(prs, prs, fork);
  }
}
