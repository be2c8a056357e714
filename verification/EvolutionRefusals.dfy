// When promotion and rollback refuse: exactly what the checks before the first write ask of a project
// (src/rosetta/evolution.py:546-588), and what a rollback does with files edited since
// (src/rosetta/evolution.py:625-659).
module EvolutionRefusals {
  import opened Wrappers
  import opened Evolution
  import opened EvolutionPaths

  // ---- promotion ----

  // The project is as it was evaluated: what is created is not there, and what is replaced is a file
  // with the digest it was evaluated on.
  ghost predicate AsEvaluated(d: Disk, m: Mutation, hash: Hash) {
    if m.create then m.path !in d.files && m.path !in d.dirs
    else m.path in d.files && m.expected == Some(hash(d.files[m.path]))
  }

  lemma {:induction false} PreflightExactly(d: Disk, changes: Tree, ms: seq<Mutation>, hash: Hash)
    ensures Preflight(d, changes, ms, hash).Ok? <==>
              forall i :: 0 <= i < |ms| ==> ms[i].path in changes.files && AsEvaluated(d, ms[i], hash)
  {
    if ms == [] {
    } else {
      PreflightExactly(d, changes, ms[1..], hash);
      assert forall i :: 0 < i < |ms| ==> ms[i] == ms[1..][i - 1];
      assert forall i :: 0 <= i < |ms[1..]| ==> ms[1..][i] == ms[i + 1];
    }
  }

  // The change files are the mutations' contents under their paths, each path once.
  ghost predicate PackageMatches(changes: Tree, ms: seq<Mutation>) {
    && (forall i :: 0 <= i < |ms| ==> ms[i].path in changes.files && changes.files[ms[i].path] == ms[i].content)
    && (forall p :: p in changes.files ==> exists i :: 0 <= i < |ms| && ms[i].path == p)
    && (forall i, j :: 0 <= i < j < |ms| ==> ms[i].path != ms[j].path)
  }

  // A promotion is refused exactly if a verdict is, the package does not hold the mutations, there is a
  // rollback record already, or the project changed where it was evaluated; a refused one changes
  // nothing.
  lemma {:induction false} RefusedExactly(d0: Disk, changes: Tree, ms: seq<Mutation>, hash: Hash, v: Verdicts,
                                          steps: nat)
    ensures var (d, end) := Promoted(d0, changes, ms, hash, v, steps);
            && (end.Refused? <==>
                  || v.sealed.Err? || v.approved.Err? || !PackageMatches(changes, ms) || d0.recordDir
                  || exists i :: 0 <= i < |ms| && !AsEvaluated(d0, ms[i], hash))
            && (end.Refused? ==> d == d0)
  {
    VerifiedExactly(changes, ms);
    PreflightExactly(d0, changes, ms, hash);
  }

  // ---- rollback ----

  ghost predicate DistinctItems(items: seq<Item>) {
    forall i, j :: 0 <= i < j < |items| ==> items[i].path != items[j].path
  }

  // The file is not what promotion wrote, nor what it found.
  ghost predicate Edited(d: Disk, x: Item, hash: Hash) {
    if x.create then if x.path in d.files then hash(d.files[x.path]) != x.promoted else x.path in d.dirs
    else || x.path !in d.backups || x.path !in d.files
         || (hash(d.files[x.path]) != x.promoted && x.previous != Some(hash(d.files[x.path])))
  }

  ghost predicate SameAt(d: Disk, d': Disk, path: string) {
    (path in d'.files <==> path in d.files) && (path in d.files ==> d'.files[path] == d.files[path])
  }

  // What was promoted is taken back: a created file is gone, a replaced one is its backup again.
  ghost predicate TakenBack(d: Disk, d': Disk, x: Item, hash: Hash) {
    if x.path in d.files && hash(d.files[x.path]) == x.promoted then
      if x.create then x.path !in d'.files
      else x.path in d.backups && x.path in d'.files && d'.files[x.path] == d.backups[x.path]
    else SameAt(d, d', x.path)
  }

  // Only files of the items may differ.
  ghost predicate OnlyItems(d: Disk, d': Disk, items: seq<Item>) {
    && d'.dirs == d.dirs && d'.backups == d.backups && d'.recordDir == d.recordDir
    && forall path :: (forall i :: 0 <= i < |items| ==> items[i].path != path) ==> SameAt(d, d', path)
  }

  ghost predicate NoneEdited(d: Disk, items: seq<Item>, hash: Hash) {
    forall i :: 0 <= i < |items| ==> !Edited(d, items[i], hash)
  }

  // How undoing items in order ends.
  ghost predicate UndoneOrEdited(d: Disk, items: seq<Item>, hash: Hash, steps: nat, d': Disk, end: End)
    requires d.record.Some?
  {
    && OnlyItems(d, d', items)
    && (forall i :: 0 <= i < |items| && Edited(d, items[i], hash) ==> end != Done && SameAt(d, d', items[i].path))
    && (!NoneEdited(d, items, hash) ==> end == Stopped || (end == Died && steps < |items|))
    && (NoneEdited(d, items, hash) ==> end == Done || (end == Died && steps <= |items|))
    && (end == Done ==> forall i :: 0 <= i < |items| ==> TakenBack(d, d', items[i], hash))
    && d'.record == if end == Done then Some(d.record.value.(state := RolledBack)) else d.record
  }

  lemma {:induction false} OneUndone(d: Disk, x: Item, hash: Hash)
    ensures var u := UndoOf(d, x, hash);
            && (u.Drifted? <==> Edited(d, x, hash))
            && (!u.Drifted? ==> TakenBack(d, AfterUndo(d, u, x.path), x, hash))
            && OnlyItems(d, AfterUndo(d, u, x.path), [x])
  {
    var d' := AfterUndo(d, UndoOf(d, x, hash), x.path);
    forall path | forall i :: 0 <= i < |[x]| ==> [x][i].path != path ensures SameAt(d, d', path) {
      assert [x][0].path != path;
    }
  }

  lemma {:induction false} AllUndone(d: Disk, items: seq<Item>, hash: Hash, steps: nat)
    requires d.record.Some? && DistinctItems(items)
    ensures var (d', end) := Undone(d, items, hash, steps);
            UndoneOrEdited(d, items, hash, steps, d', end)
    decreases |items|
  {
    if items == [] {
    } else {
      var x, rest := items[0], items[1..];
      var u := UndoOf(d, x, hash);
      OneUndone(d, x, hash);
      if !u.Drifted? && (u.Nothing? || steps > 0) {
        var mid, left := AfterUndo(d, u, x.path), if u.Nothing? then steps else steps - 1;
        var (d', end) := Undone(mid, rest, hash, left);
        AllUndone(mid, rest, hash, left);
        FirstUndone(d, mid, items, hash, steps, left, d', end);
      }
    }
  }

  lemma {:induction false} OnlyTheseItems(d: Disk, mid: Disk, d': Disk, items: seq<Item>)
    requires items != [] && OnlyItems(d, mid, [items[0]]) && OnlyItems(mid, d', items[1..])
    ensures OnlyItems(d, d', items)
  {
    forall path | forall i :: 0 <= i < |items| ==> items[i].path != path ensures SameAt(d, d', path) {
      assert forall i :: 0 <= i < |[items[0]]| ==> [items[0]][i] == items[i];
      assert forall i :: 0 <= i < |items[1..]| ==> items[1..][i] == items[i + 1];
      assert SameAt(d, mid, path) && SameAt(mid, d', path);
    }
  }

  // Undoing one item leaves the others, edited or not, as they were.
  ghost predicate RestAlike(d: Disk, mid: Disk, d': Disk, items: seq<Item>, hash: Hash) {
    forall i :: 0 < i < |items| ==>
      && SameAt(d, mid, items[i].path) && (Edited(mid, items[i], hash) <==> Edited(d, items[i], hash))
      && (TakenBack(mid, d', items[i], hash) ==> TakenBack(d, d', items[i], hash))
  }

  lemma {:induction false} OthersAlike(d: Disk, mid: Disk, d': Disk, items: seq<Item>, hash: Hash)
    requires items != [] && DistinctItems(items) && OnlyItems(d, mid, [items[0]])
    ensures RestAlike(d, mid, d', items, hash)
  {
    forall i | 0 < i < |items|
      ensures && SameAt(d, mid, items[i].path) && (Edited(mid, items[i], hash) <==> Edited(d, items[i], hash))
              && (TakenBack(mid, d', items[i], hash) ==> TakenBack(d, d', items[i], hash))
    {
      assert forall j :: 0 <= j < |[items[0]]| ==> [items[0]][j].path != items[i].path;
    }
  }

  lemma {:induction false} FirstUndone(d: Disk, mid: Disk, items: seq<Item>, hash: Hash, steps: nat, left: nat,
                                       d': Disk, end: End)
    requires items != [] && DistinctItems(items) && steps <= left + 1 && left <= steps
    requires !Edited(d, items[0], hash) && TakenBack(d, mid, items[0], hash) && OnlyItems(d, mid, [items[0]])
    requires d.record.Some? && mid.record == d.record
    requires UndoneOrEdited(mid, items[1..], hash, left, d', end)
    ensures UndoneOrEdited(d, items, hash, steps, d', end)
  {
    var rest := items[1..];
    OthersAlike(d, mid, d', items, hash);
    OnlyTheseItems(d, mid, d', items);
    assert forall i :: 0 < i < |items| ==> items[i] == rest[i - 1];
    assert forall i :: 0 <= i < |rest| ==> rest[i] == items[i + 1];
    assert NoneEdited(mid, rest, hash) <==> NoneEdited(d, items, hash);
    forall i | 0 <= i < |items| && Edited(d, items[i], hash) ensures end != Done && SameAt(d, d', items[i].path) {
      assert Edited(mid, rest[i - 1], hash);
    }
    assert SameAt(mid, d', items[0].path) by {
      forall i | 0 <= i < |rest| ensures rest[i].path != items[0].path { assert items[0].path != items[i + 1].path; }
    }
    if end == Done {
      forall i | 0 <= i < |items| ensures TakenBack(d, d', items[i], hash) {
        if i > 0 { assert TakenBack(mid, d', rest[i - 1], hash); }
      }
    }
  }

  // A rollback is refused exactly without an approval or a record, and then changes nothing. Otherwise
  // it takes back what was promoted and touches nothing else; with steps enough it completes exactly
  // if no file was edited since, and stops if one was. An edited file is never touched.
  lemma {:induction false} RollbackExactly(d: Disk, hash: Hash, authorised: Result<(), string>, steps: nat)
    requires d.record.Some? ==> DistinctItems(d.record.value.items)
    ensures var (d', end) := RolledBackTo(d, hash, authorised, steps);
            if authorised.Err? || d.record.None? then end.Refused? && d' == d
            else UndoneOrEdited(d, d.record.value.items, hash, steps, d', end)
  {
    if authorised.Ok? && d.record.Some? { AllUndone(d, d.record.value.items, hash, steps); }
  }
}
