/** Writing a set of files into a folder, all of them or none
    (scripts/kasse_to_csv.py, `publish`): probe, stage beside, swap with a
    backup, roll back, clean up. Every file operation may fail; a kill is the
    state after any one of them. */
module Publish {
  import opened Wrappers

  /** A file of the folder: `X`, `X.tmp` or `X.bak`. The files to publish are
      plain ones, none of them ends in `.tmp` or `.bak`. */
  datatype Path = Plain(name: string) | Tmp(name: string) | Bak(name: string)

  type Files = map<Path, string>

  class Folder {
    var files: Files
    /** The states of the folder, one after each operation. */
    ghost var history: seq<Files>
    /** How many operations have failed. */
    ghost var failures: nat

    constructor (files: Files)
      ensures this.files == files && history == [files] && failures == 0
    {
      this.files := files;
      history := [files];
      failures := 0;
    }

    /** Opening for append finds out whether a file is locked and changes nothing. */
    method Probe(path: Path) returns (ok: bool)
      modifies `failures
      ensures failures == old(failures) + if ok then 0 else 1
    {
      ok := *;
      failures := failures + if ok then 0 else 1;
    }

    /** A failed write may leave anything in the file, or no file. */
    method Write(path: Path, text: string) returns (ok: bool)
      modifies this
      ensures history == old(history) + [files]
      ensures failures == old(failures) + if ok then 0 else 1
      ensures ok ==> files == old(files)[path := text]
      ensures files - {path} == old(files) - {path}
    {
      ok := *;
      var partial: string := *;
      var created: bool := *;
      files := if ok then files[path := text] else if created then files[path := partial] else files;
      history := history + [files];
      failures := failures + if ok then 0 else 1;
    }

    /** A rename in one step; it fails when there is nothing to rename. */
    method Replace(source: Path, target: Path) returns (ok: bool)
      requires source != target
      modifies this
      ensures history == old(history) + [files]
      ensures failures == old(failures) + if ok then 0 else 1
      ensures ok ==> source in old(files) && files == old(files)[target := old(files)[source]] - {source}
      ensures !ok ==> files == old(files)
    {
      ok := *;
      ok := ok && source in files;
      if ok {
        files := files[target := files[source]] - {source};
      }
      history := history + [files];
      failures := failures + if ok then 0 else 1;
    }

    /** A file that is not there is as good as removed. */
    method Unlink(path: Path) returns (ok: bool)
      modifies this
      ensures history == old(history) + [files]
      ensures failures == old(failures) + if ok then 0 else 1
      ensures files == if ok then old(files) - {path} else old(files)
    {
      ok := *;
      if ok {
        files := files - {path};
      }
      history := history + [files];
      failures := failures + if ok then 0 else 1;
    }
  }

  /** A file to publish: its new text, or None if it is to go. */
  datatype Target = Target(name: string, text: Option<string>)

  datatype Outcome = Published(leftover: seq<string>) | Failed | Partial(failed: seq<string>)

  predicate Distinct(targets: seq<Target>) {
    forall i, j :: 0 <= i < j < |targets| ==> targets[i].name != targets[j].name
  }

  // ----- What can be said about one target in a state of the folder -----

  predicate SameAt(f: Files, g: Files, p: Path) {
    (p in f <==> p in g) && (p in f ==> f[p] == g[p])
  }

  predicate AsBefore(now: Files, was: Files, t: Target) {
    SameAt(now, was, Plain(t.name))
  }

  predicate AsWanted(now: Files, t: Target) {
    if t.text.Some? then Plain(t.name) in now && now[Plain(t.name)] == t.text.value else Plain(t.name) !in now
  }

  predicate BackedUp(now: Files, was: Files, t: Target) {
    Plain(t.name) in was ==> Bak(t.name) in now && now[Bak(t.name)] == was[Plain(t.name)]
  }

  /** The old bytes are in the folder, in place or as the backup. */
  predicate Recoverable(now: Files, was: Files, t: Target) {
    Plain(t.name) in was ==>
      || (Plain(t.name) in now && now[Plain(t.name)] == was[Plain(t.name)])
      || (Bak(t.name) in now && now[Bak(t.name)] == was[Plain(t.name)])
  }

  predicate AllRecoverable(now: Files, was: Files, targets: seq<Target>) {
    forall i :: 0 <= i < |targets| ==> Recoverable(now, was, targets[i])
  }

  predicate AllWanted(now: Files, targets: seq<Target>) {
    forall i :: 0 <= i < |targets| ==> AsWanted(now, targets[i])
  }

  predicate AllBefore(now: Files, was: Files, targets: seq<Target>) {
    forall i :: 0 <= i < |targets| ==> AsBefore(now, was, targets[i])
  }

  /** Only staged copies differ. */
  ghost predicate OnlyTmp(now: Files, was: Files) {
    forall p: Path :: !p.Tmp? ==> SameAt(now, was, p)
  }

  /** Everything that is no target and no copy of one stays as it is. */
  ghost predicate OthersKept(now: Files, was: Files, targets: seq<Target>) {
    forall p: Path :: (forall i :: 0 <= i < |targets| ==> targets[i].name != p.name) ==> SameAt(now, was, p)
  }

  /** The staged copies of these targets are gone. */
  predicate NoCopies(now: Files, targets: seq<Target>) {
    forall i :: 0 <= i < |targets| && targets[i].text.Some? ==> Tmp(targets[i].name) !in now
  }

  /** Each of them is gone, or was there before and is untouched. */
  predicate CopiesCleared(now: Files, was: Files, targets: seq<Target>) {
    forall i :: 0 <= i < |targets| && targets[i].text.Some? && Tmp(targets[i].name) in now ==>
      SameAt(now, was, Tmp(targets[i].name))
  }

  /** Half swapped: backed up, and at its place nothing or the new text. */
  predicate Swapped(now: Files, was: Files, t: Target) {
    BackedUp(now, was, t) && (Plain(t.name) in now ==> t.text == Some(now[Plain(t.name)]))
  }

  /** Each state of the folder since `from` keeps the old bytes of every target. */
  ghost predicate SafeSince(history: seq<Files>, from: nat, was: Files, targets: seq<Target>) {
    from <= |history| && forall k :: from <= k < |history| ==> AllRecoverable(history[k], was, targets)
  }

  // ----- The steps -----

  /** The first n targets have their new text beside their place. */
  predicate AreStaged(now: Files, targets: seq<Target>, n: nat)
    requires n <= |targets|
  {
    forall i :: 0 <= i < n && targets[i].text.Some? ==>
      Tmp(targets[i].name) in now && now[Tmp(targets[i].name)] == targets[i].text.value
  }

  /** Beside the places of the others everything is as it was. */
  predicate NotYetStaged(now: Files, was: Files, targets: seq<Target>, n: nat) {
    forall i :: n <= i < |targets| ==> SameAt(now, was, Tmp(targets[i].name))
  }

  /** Stages the new texts beside their places. */
  method Stage(folder: Folder, targets: seq<Target>, ghost was: Files, ghost from: nat) returns (ok: bool)
    requires folder.files == was && Distinct(targets) && SafeSince(folder.history, from, was, targets)
    modifies folder
    ensures OnlyTmp(folder.files, was) && OthersKept(folder.files, was, targets)
    ensures SafeSince(folder.history, from, was, targets)
    ensures ok ==> AreStaged(folder.files, targets, |targets|)
    ensures old(folder.history) <= folder.history
    ensures folder.failures >= old(folder.failures) + if ok then 0 else 1
    ensures !ok && folder.failures == old(folder.failures) + 1 ==> CopiesCleared(folder.files, was, targets)
  {
    AtFirst(was, targets, targets);
    hide OnlyTmp, OthersKept, OnlyCopies, SafeSince, AllRecoverable, AreStaged, CopiesCleared, Distinct, NoCopies;
    assert NotYetStaged(was, was, targets, 0) && AreStaged(was, targets, 0) by { NothingStaged(was, targets); }
    hide NotYetStaged;
    for k := 0 to |targets|
      invariant old(folder.history) <= folder.history && folder.failures == old(folder.failures)
      invariant OnlyTmp(folder.files, was) && OthersKept(folder.files, was, targets)
      invariant SafeSince(folder.history, from, was, targets)
      invariant AreStaged(folder.files, targets, k) && NotYetStaged(folder.files, was, targets, k)
    {
      ghost var before, history := folder.files, folder.history;
      if targets[k].text.Some? {
        var written := folder.Write(Tmp(targets[k].name), targets[k].text.value);
        WroteTmp(before, folder.files, was, targets, k);
        BeforeIsRecoverable(folder.files, was, targets);
        SafeOnceMore(history, folder.files, from, was, targets);
        if !written {
          ghost var middle := folder.files;
          Discard(folder, targets[..k + 1], targets, true, was, from);
          OthersStillKept(middle, folder.files, was, targets);
          OnlyTmpStill(middle, folder.files, was);
          if folder.failures == old(folder.failures) + 1 {
            StagedCleared(middle, folder.files, was, targets, k + 1);
          }
          return false;
        }
      }
      OneMoreStaged(before, folder.files, was, targets, k);
    }
    return true;
  }

  lemma {:induction false} NothingStaged(was: Files, targets: seq<Target>)
    ensures NotYetStaged(was, was, targets, 0) && AreStaged(was, targets, 0)
  {
  }

  lemma {:induction false} OnlyTmpStill(before: Files, now: Files, was: Files)
    requires OnlyTmp(before, was) && OnlyTmp(now, before)
    ensures OnlyTmp(now, was)
  {
    forall p: Path | !p.Tmp? ensures SameAt(now, was, p) {
      assert SameAt(before, was, p) && SameAt(now, before, p);
    }
  }

  lemma {:induction false} OneMoreStaged(before: Files, now: Files, was: Files, targets: seq<Target>, k: nat)
    requires k < |targets| && Distinct(targets) && AreStaged(before, targets, k)
    requires NotYetStaged(before, was, targets, k)
    requires now == if targets[k].text.Some? then before[Tmp(targets[k].name) := targets[k].text.value] else before
    ensures AreStaged(now, targets, k + 1) && NotYetStaged(now, was, targets, k + 1)
  {
    assert forall i :: 0 <= i < |targets| && i != k ==> targets[i].name != targets[k].name;
    forall i | k < i < |targets| ensures SameAt(now, was, Tmp(targets[i].name)) {
      assert SameAt(before, was, Tmp(targets[i].name));
    }
  }

  lemma {:induction false} BeforeIsRecoverable(now: Files, was: Files, targets: seq<Target>)
    requires OnlyTmp(now, was)
    ensures AllRecoverable(now, was, targets)
  {
    forall i | 0 <= i < |targets| ensures Recoverable(now, was, targets[i]) {
      assert SameAt(now, was, Plain(targets[i].name));
    }
  }

  lemma {:induction false} WroteTmp(before: Files, now: Files, was: Files, targets: seq<Target>, k: nat)
    requires k < |targets| && before - {Tmp(targets[k].name)} == now - {Tmp(targets[k].name)}
    requires OnlyTmp(before, was) && OthersKept(before, was, targets)
    ensures OnlyTmp(now, was) && OthersKept(now, was, targets)
    ensures Distinct(targets) && NotYetStaged(before, was, targets, k) ==> NotYetStaged(now, was, targets, k + 1)
  {
    SameElsewhere(before, now, Tmp(targets[k].name));
    forall p: Path | !p.Tmp? ensures SameAt(now, was, p) {
      assert SameAt(before, was, p) && SameAt(before, now, p);
    }
    forall p: Path | forall i :: 0 <= i < |targets| ==> targets[i].name != p.name ensures SameAt(now, was, p) {
      assert SameAt(before, was, p) && targets[k].name != p.name && SameAt(before, now, p);
    }
    if Distinct(targets) && NotYetStaged(before, was, targets, k) {
      forall i | k < i < |targets| ensures SameAt(now, was, Tmp(targets[i].name)) {
        assert targets[i].name != targets[k].name;
        assert SameAt(before, was, Tmp(targets[i].name)) && SameAt(before, now, Tmp(targets[i].name));
      }
    }
  }

  lemma {:induction false} SameElsewhere(f: Files, g: Files, path: Path)
    requires f - {path} == g - {path}
    ensures forall p :: p != path ==> SameAt(f, g, p)
  {
    forall p | p != path ensures SameAt(f, g, p) {
      assert p in f - {path} <==> p in f;
      assert p in g - {path} <==> p in g;
      assert p in f ==> (f - {path})[p] == f[p];
    }
  }

  /** The first n copies are gone, and the other ones were never written. */
  lemma {:induction false} StagedCleared(before: Files, now: Files, was: Files, targets: seq<Target>, n: nat)
    requires n <= |targets| && Distinct(targets) && NoCopies(now, targets[..n])
    requires NotYetStaged(before, was, targets, n)
    requires OnlyCopies(now, before, targets[..n])
    ensures CopiesCleared(now, was, targets)
  {
    assert forall i :: 0 <= i < n ==> targets[..n][i] == targets[i];
    forall i | n <= i < |targets| ensures SameAt(now, was, Tmp(targets[i].name)) {
      assert !IsCopy(Tmp(targets[i].name), targets[..n]);
    }
  }

  /** The path of a staged copy of these targets. */
  predicate IsCopy(p: Path, staged: seq<Target>) {
    exists i :: 0 <= i < |staged| && staged[i].text.Some? && p == Tmp(staged[i].name)
  }

  /** No other file beside a place is touched. */
  ghost predicate OnlyCopies(now: Files, was: Files, staged: seq<Target>) {
    forall p: Path :: p.Tmp? && !IsCopy(p, staged) ==> SameAt(now, was, p)
  }

  /** One more copy removed, or one that could not be. */
  lemma {:induction false} OneCopyLess(start: Files, before: Files, now: Files, staged: seq<Target>,
                                       targets: seq<Target>, k: nat, ok: bool)
    requires staged <= targets && k < |staged| && staged[k].text.Some?
    requires now == if ok then before - {Tmp(staged[k].name)} else before
    requires OnlyTmp(before, start) && OthersKept(before, start, targets) && OnlyCopies(before, start, staged)
    ensures OnlyTmp(now, start) && OthersKept(now, start, targets) && OnlyCopies(now, start, staged)
    ensures ok && NoCopies(before, staged[..k]) ==> NoCopies(now, staged[..k + 1])
  {
    assert staged[k] == targets[k];
    var copy := Tmp(staged[k].name);
    assert IsCopy(copy, staged);
    assert forall p :: p != copy ==> SameAt(now, before, p);
    assert forall i :: 0 <= i < k ==> staged[..k][i] == staged[i];
    assert forall i :: 0 <= i <= k ==> staged[..k + 1][i] == staged[i];
  }

  lemma {:induction false} AtFirst(files: Files, targets: seq<Target>, staged: seq<Target>)
    ensures OnlyTmp(files, files) && OthersKept(files, files, targets) && OnlyCopies(files, files, staged)
  {
  }

  lemma {:induction false} SafeOnceMore(history: seq<Files>, now: Files, from: nat, was: Files, targets: seq<Target>)
    requires SafeSince(history, from, was, targets) && AllRecoverable(now, was, targets)
    ensures SafeSince(history + [now], from, was, targets)
  {
  }

  /** Removes staged copies; `strict` gives up at the first one it cannot remove. */
  method Discard(folder: Folder, staged: seq<Target>, targets: seq<Target>, strict: bool, ghost was: Files,
                 ghost from: nat)
    requires staged <= targets && SafeSince(folder.history, from, was, targets)
    requires AllRecoverable(folder.files, was, targets)
    modifies folder
    ensures OnlyTmp(folder.files, old(folder.files)) && OthersKept(folder.files, old(folder.files), targets)
    ensures SafeSince(folder.history, from, was, targets)
    ensures old(folder.history) <= folder.history && folder.failures >= old(folder.failures)
    ensures folder.failures == old(folder.failures) ==> NoCopies(folder.files, staged)
    ensures OnlyCopies(folder.files, old(folder.files), staged)
  {
    hide OnlyTmp, OthersKept, OnlyCopies, SafeSince, AllRecoverable;
    AtFirst(folder.files, targets, staged);
    for k := 0 to |staged|
      invariant old(folder.history) <= folder.history && folder.failures >= old(folder.failures)
      invariant OnlyTmp(folder.files, old(folder.files)) && OthersKept(folder.files, old(folder.files), targets)
      invariant SafeSince(folder.history, from, was, targets)
      invariant folder.failures == old(folder.failures) ==> NoCopies(folder.files, staged[..k])
      invariant OnlyCopies(folder.files, old(folder.files), staged)
    {
      if staged[k].text.Some? {
        ghost var before, history := folder.files, folder.history;
        var ok := folder.Unlink(Tmp(staged[k].name));
        OneCopyLess(old(folder.files), before, folder.files, staged, targets, k, ok);
        StillRecoverable(old(folder.files), folder.files, was, targets);
        SafeOnceMore(history, folder.files, from, was, targets);
        if !ok && strict {
          return;
        }
      }
    }
  }

  lemma {:induction false} StillRecoverable(before: Files, now: Files, was: Files, targets: seq<Target>)
    requires OnlyTmp(now, before) && AllRecoverable(before, was, targets)
    ensures AllRecoverable(now, was, targets)
  {
    forall i | 0 <= i < |targets| ensures Recoverable(now, was, targets[i]) {
      assert SameAt(now, before, Plain(targets[i].name)) && SameAt(now, before, Bak(targets[i].name));
      assert Recoverable(before, was, targets[i]);
    }
  }

  /** Nothing but the files of one name differs. */
  ghost predicate OnlyName(now: Files, before: Files, name: string) {
    forall p: Path :: p.name != name ==> SameAt(now, before, p)
  }

  lemma {:induction false} RecoverableElsewhere(before: Files, now: Files, was: Files, targets: seq<Target>, k: nat)
    requires k < |targets| && Distinct(targets) && OnlyName(now, before, targets[k].name)
    requires AllRecoverable(before, was, targets) && Recoverable(now, was, targets[k])
    ensures AllRecoverable(now, was, targets)
  {
    forall i | 0 <= i < |targets| ensures Recoverable(now, was, targets[i]) {
      if i != k {
        assert targets[i].name != targets[k].name;
        assert SameAt(now, before, Plain(targets[i].name)) && SameAt(now, before, Bak(targets[i].name));
        assert Recoverable(before, was, targets[i]);
      }
    }
  }

  /** Moves the old file aside, then the new one to its place. `begun` says whether
      the swap has to be rolled back, `backup` whether there is an old file. */
  method SwapOne(folder: Folder, targets: seq<Target>, k: nat, ghost was: Files, ghost from: nat)
    returns (ok: bool, begun: bool, backup: bool)
    requires k < |targets| && Distinct(targets) && AsBefore(folder.files, was, targets[k])
    requires SafeSince(folder.history, from, was, targets) && AllRecoverable(folder.files, was, targets)
    requires targets[k].text.Some? ==>
               Tmp(targets[k].name) in folder.files && folder.files[Tmp(targets[k].name)] == targets[k].text.value
    modifies folder
    ensures OnlyName(folder.files, old(folder.files), targets[k].name)
    ensures SafeSince(folder.history, from, was, targets) && AllRecoverable(folder.files, was, targets)
    ensures ok ==> begun && AsWanted(folder.files, targets[k])
    ensures ok && targets[k].text.Some? ==> Tmp(targets[k].name) !in folder.files
    ensures begun ==> Swapped(folder.files, was, targets[k]) && (backup <==> Plain(targets[k].name) in was)
    ensures !begun ==> folder.files == old(folder.files)
    ensures old(folder.history) <= folder.history
    ensures folder.failures >= old(folder.failures) + if ok then 0 else 1
  {
    var t := targets[k];
    backup := Plain(t.name) in folder.files;
    if backup {
      ok := folder.Replace(Plain(t.name), Bak(t.name));
      RecoverableElsewhere(old(folder.files), folder.files, was, targets, k);
      if !ok {
        return false, false, backup;
      }
    }
    ghost var aside := folder.files;
    if t.text.Some? {
      ok := folder.Replace(Tmp(t.name), Plain(t.name));
      RecoverableElsewhere(aside, folder.files, was, targets, k);
      return ok, true, backup;
    }
    return true, true, backup;
  }

  /** Undoes one swap. */
  method Restore(folder: Folder, targets: seq<Target>, k: nat, backup: bool, ghost was: Files, ghost from: nat)
    returns (ok: bool)
    requires k < |targets| && Distinct(targets) && Swapped(folder.files, was, targets[k])
    requires backup <==> Plain(targets[k].name) in was
    requires SafeSince(folder.history, from, was, targets) && AllRecoverable(folder.files, was, targets)
    modifies folder
    ensures OnlyName(folder.files, old(folder.files), targets[k].name)
    ensures SafeSince(folder.history, from, was, targets) && AllRecoverable(folder.files, was, targets)
    ensures if ok then AsBefore(folder.files, was, targets[k]) else folder.files == old(folder.files)
    ensures old(folder.history) <= folder.history
    ensures folder.failures == old(folder.failures) + if ok then 0 else 1
  {
    var t := targets[k];
    if backup {
      ok := folder.Replace(Bak(t.name), Plain(t.name));
    } else {
      ok := folder.Unlink(Plain(t.name));
    }
    RecoverableElsewhere(old(folder.files), folder.files, was, targets, k);
  }

  /** Undoes the swaps of the first |backups| targets, the last one first. */
  method RollBack(folder: Folder, targets: seq<Target>, backups: seq<bool>, ghost was: Files, ghost from: nat)
    returns (failed: seq<string>)
    requires |backups| <= |targets| && Distinct(targets)
    requires forall i :: 0 <= i < |backups| ==>
               Swapped(folder.files, was, targets[i]) && (backups[i] <==> Plain(targets[i].name) in was)
    requires forall i :: |backups| <= i < |targets| ==> AsBefore(folder.files, was, targets[i])
    requires SafeSince(folder.history, from, was, targets) && AllRecoverable(folder.files, was, targets)
    requires OthersKept(folder.files, was, targets)
    modifies folder
    ensures SafeSince(folder.history, from, was, targets) && AllRecoverable(folder.files, was, targets)
    ensures OthersKept(folder.files, was, targets)
    ensures forall i :: 0 <= i < |targets| && targets[i].name !in failed ==> AsBefore(folder.files, was, targets[i])
    ensures forall i :: 0 <= i < |targets| && targets[i].name in failed ==> Swapped(folder.files, was, targets[i])
    ensures forall name :: name in failed ==> exists i :: 0 <= i < |targets| && targets[i].name == name
    ensures old(folder.history) <= folder.history && folder.failures == old(folder.failures) + |failed|
  {
    failed := [];
    var k := |backups|;
    while k > 0
      invariant 0 <= k <= |backups|
      invariant old(folder.history) <= folder.history && folder.failures == old(folder.failures) + |failed|
      invariant SafeSince(folder.history, from, was, targets) && AllRecoverable(folder.files, was, targets)
      invariant OthersKept(folder.files, was, targets)
      invariant forall i :: 0 <= i < k ==> Swapped(folder.files, was, targets[i]) && targets[i].name !in failed
      invariant forall i :: k <= i < |targets| && targets[i].name !in failed ==> AsBefore(folder.files, was, targets[i])
      invariant forall i :: k <= i < |targets| && targets[i].name in failed ==> Swapped(folder.files, was, targets[i])
      invariant forall name :: name in failed ==> exists i :: 0 <= i < |targets| && targets[i].name == name
    {
      k := k - 1;
      ghost var before := folder.files;
      var ok := Restore(folder, targets, k, backups[k], was, from);
      KeptElsewhere(before, folder.files, was, targets, k);
      if !ok {
        failed := failed + [targets[k].name];
      }
    }
  }

  lemma {:induction false} KeptElsewhere(before: Files, now: Files, was: Files, targets: seq<Target>, k: nat)
    requires k < |targets| && Distinct(targets) && OnlyName(now, before, targets[k].name)
    ensures OthersKept(before, was, targets) ==> OthersKept(now, was, targets)
    ensures forall i :: 0 <= i < |targets| && i != k ==>
              && (AsBefore(before, was, targets[i]) ==> AsBefore(now, was, targets[i]))
              && (Swapped(before, was, targets[i]) ==> Swapped(now, was, targets[i]))
              && (AsWanted(before, targets[i]) ==> AsWanted(now, targets[i]))
              && SameAt(before, now, Tmp(targets[i].name))
  {
    forall i | 0 <= i < |targets| && i != k
      ensures SameAt(now, before, Plain(targets[i].name)) && SameAt(now, before, Bak(targets[i].name))
      ensures SameAt(now, before, Tmp(targets[i].name))
    {
      assert targets[i].name != targets[k].name;
    }
    if OthersKept(before, was, targets) {
      forall p: Path | forall i :: 0 <= i < |targets| ==> targets[i].name != p.name ensures SameAt(now, was, p) {
        assert SameAt(before, was, p) && SameAt(now, before, p);
      }
    }
  }

  /** Swaps all targets, or rolls back what was swapped. */
  method SwapAll(folder: Folder, targets: seq<Target>, ghost was: Files, ghost from: nat)
    returns (ok: bool, backups: seq<bool>, failed: seq<string>)
    requires Distinct(targets) && OnlyTmp(folder.files, was) && OthersKept(folder.files, was, targets)
    requires SafeSince(folder.history, from, was, targets)
    requires forall i :: 0 <= i < |targets| && targets[i].text.Some? ==>
               Tmp(targets[i].name) in folder.files && folder.files[Tmp(targets[i].name)] == targets[i].text.value
    modifies folder
    ensures SafeSince(folder.history, from, was, targets) && AllRecoverable(folder.files, was, targets)
    ensures OthersKept(folder.files, was, targets)
    ensures ok ==> AllWanted(folder.files, targets) && |backups| == |targets| && NoCopies(folder.files, targets)
    ensures ok ==> forall i :: 0 <= i < |targets| ==>
              BackedUp(folder.files, was, targets[i]) && (backups[i] <==> Plain(targets[i].name) in was)
    ensures !ok ==> forall i :: 0 <= i < |targets| ==>
              if targets[i].name in failed then Swapped(folder.files, was, targets[i])
              else AsBefore(folder.files, was, targets[i])
    ensures !ok ==> forall name :: name in failed ==> exists i :: 0 <= i < |targets| && targets[i].name == name
    ensures old(folder.history) <= folder.history
    ensures folder.failures >= old(folder.failures) + if ok then 0 else |failed| + 1
  {
    backups, failed := [], [];
    forall i | 0 <= i < |targets| ensures AsBefore(folder.files, was, targets[i]) {
      assert SameAt(folder.files, was, Plain(targets[i].name));
    }
    for k := 0 to |targets|
      invariant old(folder.history) <= folder.history && folder.failures >= old(folder.failures)
      invariant SafeSince(folder.history, from, was, targets) && AllRecoverable(folder.files, was, targets)
      invariant OthersKept(folder.files, was, targets)
      invariant |backups| == k
      invariant forall i :: 0 <= i < k ==>
                  && AsWanted(folder.files, targets[i]) && Swapped(folder.files, was, targets[i])
                  && (backups[i] <==> Plain(targets[i].name) in was)
                  && (targets[i].text.Some? ==> Tmp(targets[i].name) !in folder.files)
      invariant forall i :: k <= i < |targets| ==>
                  && AsBefore(folder.files, was, targets[i])
                  && (targets[i].text.Some? ==>
                        && Tmp(targets[i].name) in folder.files
                        && folder.files[Tmp(targets[i].name)] == targets[i].text.value)
    {
      ghost var before := folder.files;
      var swapped, begun, backup := SwapOne(folder, targets, k, was, from);
      KeptElsewhere(before, folder.files, was, targets, k);
      if begun {
        backups := backups + [backup];
      }
      if !swapped {
        failed := RollBack(folder, targets, backups, was, from);
        return false, backups, failed;
      }
    }
    return true, backups, failed;
  }

  /** Beside the places nothing has changed. */
  ghost predicate SameCopies(now: Files, was: Files) {
    forall p: Path :: p.Tmp? ==> SameAt(now, was, p)
  }

  lemma {:induction false} OneBackupLess(was: Files, before: Files, now: Files, targets: seq<Target>, k: nat, ok: bool)
    requires k < |targets| && Distinct(targets) && now == if ok then before - {Bak(targets[k].name)} else before
    ensures SameCopies(before, was) ==> SameCopies(now, was)
    ensures forall i :: 0 <= i < |targets| && i != k ==> SameAt(before, now, Bak(targets[i].name))
    ensures forall i :: 0 <= i < |targets| ==> SameAt(before, now, Plain(targets[i].name))
  {
    forall i | 0 <= i < |targets| && i != k ensures SameAt(before, now, Bak(targets[i].name)) {
      assert targets[i].name != targets[k].name;
    }
  }

  lemma {:induction false} CopiesStillGone(before: Files, now: Files, targets: seq<Target>)
    requires SameCopies(now, before) && NoCopies(before, targets)
    ensures NoCopies(now, targets)
  {
    forall i | 0 <= i < |targets| && targets[i].text.Some? ensures Tmp(targets[i].name) !in now {
      assert SameAt(now, before, Tmp(targets[i].name));
    }
  }

  /** Removes the backups once everything is in place; those it cannot remove are named. */
  method RemoveBackups(folder: Folder, targets: seq<Target>, backups: seq<bool>, ghost from: nat)
    returns (leftover: seq<string>)
    requires |backups| == |targets| && Distinct(targets) && AllWanted(folder.files, targets)
    requires forall i :: 0 <= i < |targets| && backups[i] ==> Bak(targets[i].name) in folder.files
    requires |folder.history| == from
    modifies folder
    ensures forall k :: from <= k < |folder.history| ==> AllWanted(folder.history[k], targets)
    ensures old(folder.history) <= folder.history && folder.failures == old(folder.failures) + |leftover|
    ensures AllWanted(folder.files, targets) && OthersKept(folder.files, old(folder.files), targets)
    ensures SameCopies(folder.files, old(folder.files))
    ensures forall i :: 0 <= i < |targets| && backups[i] ==>
              (targets[i].name in leftover <==> Bak(targets[i].name) in folder.files)
    ensures forall i :: 0 <= i < |targets| && !backups[i] ==> targets[i].name !in leftover
  {
    leftover := [];
    for k := 0 to |targets|
      invariant forall j :: from <= j < |folder.history| ==> AllWanted(folder.history[j], targets)
      invariant old(folder.history) <= folder.history && folder.failures == old(folder.failures) + |leftover|
      invariant AllWanted(folder.files, targets) && OthersKept(folder.files, old(folder.files), targets)
      invariant SameCopies(folder.files, old(folder.files))
      invariant forall i :: 0 <= i < k && backups[i] ==>
                  (targets[i].name in leftover <==> Bak(targets[i].name) in folder.files)
      invariant forall i :: k <= i < |targets| && backups[i] ==> Bak(targets[i].name) in folder.files
      invariant forall i :: 0 <= i < |targets| && (k <= i || !backups[i]) ==> targets[i].name !in leftover
    {
      if backups[k] {
        ghost var before := folder.files;
        var ok := folder.Unlink(Bak(targets[k].name));
        KeptElsewhere(before, folder.files, old(folder.files), targets, k);
        OneBackupLess(old(folder.files), before, folder.files, targets, k, ok);
        if !ok {
          leftover := leftover + [targets[k].name];
        }
      }
    }
  }

  /** Main result. Published: every target is as wanted, and the backups still there
      are named. Failed: every target is as before. Partial: all targets that are not
      named are as before; of a named one the old bytes, if there were any, are in the
      backup, and one without may be as before as well. Each name stands for one more
      failed operation than the one that stopped the swap, so a single failure never
      ends in a partial error. At every moment before `committed` the old bytes of
      every target are in the folder, and from then on every target is as wanted. No
      copy stays beside its place, unless removing it failed as well. */
  method PublishAll(folder: Folder, targets: seq<Target>) returns (r: Outcome, ghost committed: nat)
    requires Distinct(targets) && folder.history != [] && folder.history[|folder.history| - 1] == folder.files
    modifies folder
    ensures OthersKept(folder.files, old(folder.files), targets)
    ensures r.Published? ==> AllWanted(folder.files, targets)
    ensures r.Published? ==> forall i :: 0 <= i < |targets| && Plain(targets[i].name) in old(folder.files) ==>
              (targets[i].name in r.leftover <==> Bak(targets[i].name) in folder.files)
    ensures r.Failed? ==> AllBefore(folder.files, old(folder.files), targets)
    ensures r.Partial? ==> r.failed != []
    ensures r.Partial? ==> forall name :: name in r.failed ==> exists i :: 0 <= i < |targets| && targets[i].name == name
    ensures r.Partial? ==> forall i :: 0 <= i < |targets| && targets[i].name !in r.failed ==>
              AsBefore(folder.files, old(folder.files), targets[i])
    ensures r.Partial? ==> forall i :: 0 <= i < |targets| && targets[i].name in r.failed ==>
              Swapped(folder.files, old(folder.files), targets[i])
    ensures old(folder.history) <= folder.history && |old(folder.history)| <= committed <= |folder.history|
    ensures folder.failures >= old(folder.failures) + match r {
              case Published(leftover) => |leftover|
              case Failed => 1
              case Partial(names) => |names| + 1
            }
    ensures forall k :: |old(folder.history)| <= k < committed ==>
              AllRecoverable(folder.history[k], old(folder.files), targets)
    ensures forall k :: committed <= k < |folder.history| ==> AllWanted(folder.history[k], targets)
    ensures !r.Published? ==> committed == |folder.history|
    ensures r.Published? ==> NoCopies(folder.files, targets)
    ensures !r.Published? && folder.failures == old(folder.failures) + (if r.Partial? then |r.failed| + 1 else 1) ==>
              CopiesCleared(folder.files, old(folder.files), targets)
  {
    ghost var was, from := folder.files, |folder.history|;
    committed := from;
    for k := 0 to |targets|
      invariant folder.files == was && folder.history == old(folder.history) && folder.failures >= old(folder.failures)
    {
      if Plain(targets[k].name) in folder.files {
        var ok := folder.Probe(Plain(targets[k].name));
        if !ok {
          return Failed, from;
        }
      }
    }
    var staged := Stage(folder, targets, was, from);
    if !staged {
      forall i | 0 <= i < |targets| ensures AsBefore(folder.files, was, targets[i]) {
        assert SameAt(folder.files, was, Plain(targets[i].name));
      }
      return Failed, |folder.history|;
    }
    var swapped, backups, failed := SwapAll(folder, targets, was, from);
    if !swapped {
      ghost var before := folder.files;
      Discard(folder, targets, targets, false, was, from);
      TmpOnly(before, folder.files, was, targets);
      assert targets[..|targets|] == targets;
      return if failed == [] then Failed else Partial(failed), |folder.history|;
    }
    ghost var inPlace, middle := folder.files, folder.history;
    var leftover := RemoveBackups(folder, targets, backups, |folder.history|);
    forall k | from <= k < |middle| ensures AllRecoverable(folder.history[k], was, targets) {
      assert folder.history[k] == middle[k];
    }
    OthersStillKept(inPlace, folder.files, was, targets);
    CopiesStillGone(inPlace, folder.files, targets);
    return Published(leftover), |middle|;
  }

  /** Which of the named targets are as before all the same: without an old file, those
      that never got to their place; with one, those whose old text is also the new one
      and stands there. */
  lemma {:induction false} NamedAsBeforeIff(now: Files, was: Files, t: Target)
    requires Swapped(now, was, t)
    ensures AsBefore(now, was, t) <==>
            if Plain(t.name) in was then Plain(t.name) in now && t.text == Some(was[Plain(t.name)])
            else Plain(t.name) !in now
  {
  }

  /** Such a target: a new file whose copy is staged and still beside its place. */
  lemma {:induction false} NeverThere(was: Files, name: string, text: string)
    requires Plain(name) !in was
    ensures var now, t := was[Tmp(name) := text], Target(name, Some(text));
            Swapped(now, was, t) && AsBefore(now, was, t)
  {
    NamedAsBeforeIff(was[Tmp(name) := text], was, Target(name, Some(text)));
  }

  lemma {:induction false} TmpOnly(before: Files, now: Files, was: Files, targets: seq<Target>)
    requires OnlyTmp(now, before) && OthersKept(now, before, targets) && OthersKept(before, was, targets)
    ensures OthersKept(now, was, targets)
    ensures forall i :: 0 <= i < |targets| ==>
              && (AsBefore(before, was, targets[i]) ==> AsBefore(now, was, targets[i]))
              && (Swapped(before, was, targets[i]) ==> Swapped(now, was, targets[i]))
  {
    forall i | 0 <= i < |targets|
      ensures SameAt(now, before, Plain(targets[i].name)) && SameAt(now, before, Bak(targets[i].name))
    {}
    OthersStillKept(before, now, was, targets);
  }

  lemma {:induction false} OthersStillKept(before: Files, now: Files, was: Files, targets: seq<Target>)
    requires OthersKept(now, before, targets) && OthersKept(before, was, targets)
    ensures OthersKept(now, was, targets)
  {
    forall p: Path | forall i :: 0 <= i < |targets| ==> targets[i].name != p.name ensures SameAt(now, was, p) {
      assert SameAt(before, was, p) && SameAt(now, before, p);
    }
  }
}
