// What promotion and rollback keep: wherever a promotion and the rollbacks after it were cut off,
// one more rollback completes and leaves every file as it was (src/rosetta/evolution.py:590-659).
module EvolutionSafety {
  import opened Wrappers
  import opened Evolution
  import opened EvolutionPaths

  // ---- the invariant between the first write and the last undo ----

  // A path that holds what it held before.
  predicate Original(d0: Disk, d: Disk, path: string) {
    (path in d.files <==> path in d0.files) && (path in d.files ==> d.files[path] == d0.files[path])
  }

  predicate HoldsPromoted(d: Disk, c: Change) {
    c.path in d.files && d.files[c.path] == c.promoted
  }

  ghost predicate IsMutated(cs: seq<Change>, path: string) {
    exists i :: 0 <= i < |cs| && cs[i].path == path
  }

  ghost predicate Between(d0: Disk, d: Disk, cs: seq<Change>) {
    && (forall path :: !IsMutated(cs, path) ==> Original(d0, d, path))
    && (forall i :: 0 <= i < |cs| ==> Original(d0, d, cs[i].path) || HoldsPromoted(d, cs[i]))
  }

  ghost predicate BackedUp(d: Disk, cs: seq<Change>) {
    forall i :: 0 <= i < |cs| && cs[i].previous.Some? ==>
      cs[i].path in d.backups && d.backups[cs[i].path] == cs[i].previous.value
  }

  ghost predicate Recorded(d: Disk, cs: seq<Change>, hash: Hash) {
    d.record.Some? && d.record.value.items == ItemsOf(cs, hash) && BackedUp(d, cs)
  }

  // Every directory was there before or was made for some mutation.
  ghost predicate DirsMade(d0: Disk, d: Disk, cs: seq<Change>) {
    forall p :: p in d.dirs ==> p in d0.dirs || exists i :: 0 <= i < |cs| && p in Parents(cs[i].path)
  }

  ghost predicate Midway(d0: Disk, d: Disk, cs: seq<Change>, hash: Hash) {
    Between(d0, d, cs) && Recorded(d, cs, hash) && DirsMade(d0, d, cs)
  }

  lemma {:induction false} SameFilesBetween(d0: Disk, d: Disk, d': Disk, cs: seq<Change>)
    requires Between(d0, d, cs) && d'.files == d.files
    ensures Between(d0, d', cs)
  {
    forall path | !IsMutated(cs, path) ensures Original(d0, d', path) { assert Original(d0, d, path); }
    forall i | 0 <= i < |cs| ensures Original(d0, d', cs[i].path) || HoldsPromoted(d', cs[i]) {
      assert Original(d0, d, cs[i].path) || HoldsPromoted(d, cs[i]);
    }
  }

  // ---- the writes of a promotion ----

  lemma {:induction false} WrittenOneMore(d: Disk, ws: seq<Write>, m: nat)
    requires m < |ws|
    ensures WrittenAll(d, ws[..m + 1]) ==
            if WrittenAll(d, ws[..m]).1 then Written(WrittenAll(d, ws[..m]).0, ws[m]) else WrittenAll(d, ws[..m])
  {
    assert ws[..m + 1][..m] == ws[..m];
  }

  lemma {:induction false} BackupsAreBackups(cs: seq<Change>)
    ensures forall w :: w in Backups(cs) ==> w.Backup?
  {
    if cs == [] {
    } else {
      BackupsAreBackups(cs[..|cs| - 1]);
    }
  }

  // While the rollback directory and its backups are written, files, directories and record stay.
  lemma {:induction false} HeadPrefix(d: Disk, cs: seq<Change>, n: nat)
    requires n <= |Head(cs)|
    ensures var (d', ok) := WrittenAll(d, Head(cs)[..n]);
            ok && d' == d.(recordDir := d.recordDir || n > 0, backups := d'.backups)
  {
    if n == 0 {
    } else {
      HeadPrefix(d, cs, n - 1);
      WrittenOneMore(d, Head(cs), n - 1);
      BackupsAreBackups(cs);
      assert Head(cs)[n - 1] in Head(cs);
    }
  }

  lemma {:induction false} WholeHead(d: Disk, cs: seq<Change>)
    ensures var (d', ok) := WrittenAll(d, Head(cs)); ok && d' == d.(recordDir := true, backups := d'.backups)
  {
    HeadPrefix(d, cs, |Head(cs)|);
    assert Head(cs)[..|Head(cs)|] == Head(cs);
  }

  lemma {:induction false} HeadBacksUp(d: Disk, cs: seq<Change>)
    requires DistinctPaths(cs)
    ensures BackedUp(WrittenAll(d, Head(cs)).0, cs)
  {
    if cs == [] {
    } else {
      var n := |cs| - 1;
      var before := WrittenAll(d, Head(cs[..n])).0;
      HeadBacksUp(d, cs[..n]);
      WholeHead(d, cs[..n]);
      BackupOneMore(d, cs, n);
      forall i | 0 <= i < n && cs[i].previous.Some?
        ensures cs[i].path != cs[n].path && cs[i].path in before.backups
                && before.backups[cs[i].path] == cs[i].previous.value
      {
        assert cs[..n][i] == cs[i];
      }
    }
  }

  lemma {:induction false} BackupOneMore(d: Disk, cs: seq<Change>, n: nat)
    requires |cs| == n + 1 && WrittenAll(d, Head(cs[..n])).1
    ensures var before := WrittenAll(d, Head(cs[..n])).0;
            WrittenAll(d, Head(cs)).0 ==
            if cs[n].previous.Some? then before.(backups := before.backups[cs[n].path := cs[n].previous.value])
              else before
  {
    var front := Head(cs[..n]);
    assert Head(cs) == front + BackupOf(cs[n]);
    if cs[n].previous.Some? {
      WrittenOneMore(d, Head(cs), |front|);
      assert Head(cs)[..|front|] == front && Head(cs)[..|front| + 1] == Head(cs);
    } else {
      assert Head(cs) == front;
    }
  }

  ghost predicate IsMutationWrite(cs: seq<Change>, w: Write) {
    exists i :: 0 <= i < |cs| && w in FilesOf(cs[i])
  }

  lemma {:induction false} FilesAreMutations(cs: seq<Change>)
    ensures forall w :: w in Files(cs) ==> IsMutationWrite(cs, w)
  {
    if cs == [] {
    } else {
      var front := cs[..|cs| - 1];
      FilesAreMutations(front);
      forall w | w in Files(cs) ensures IsMutationWrite(cs, w) {
        if w in Files(front) {
          var i :| 0 <= i < |front| && w in FilesOf(front[i]);
          assert cs[i] == front[i];
        } else {
          assert w in FilesOf(cs[|cs| - 1]);
        }
      }
    }
  }

  lemma {:induction false} PutFileKeeps(d0: Disk, d: Disk, cs: seq<Change>, i: nat)
    requires DistinctPaths(cs) && i < |cs| && Between(d0, d, cs)
    ensures Between(d0, d.(files := d.files[cs[i].path := cs[i].promoted]), cs)
  {
    var d' := d.(files := d.files[cs[i].path := cs[i].promoted]);
    forall path | !IsMutated(cs, path) ensures Original(d0, d', path) {
      assert path != cs[i].path;
      assert Original(d0, d, path);
    }
    forall j | 0 <= j < |cs| ensures Original(d0, d', cs[j].path) || HoldsPromoted(d', cs[j]) {
      assert j != i ==> cs[j].path != cs[i].path;
      assert Original(d0, d, cs[j].path) || HoldsPromoted(d, cs[j]);
    }
  }

  lemma {:induction false} MutationWriteKeeps(d0: Disk, d: Disk, cs: seq<Change>, hash: Hash, w: Write)
    requires DistinctPaths(cs) && Midway(d0, d, cs, hash) && IsMutationWrite(cs, w)
    ensures Midway(d0, Written(d, w).0, cs, hash)
  {
    var i :| 0 <= i < |cs| && w in FilesOf(cs[i]);
    if w.PutFile? { PutFileKeeps(d0, d, cs, i); } else { SameFilesBetween(d0, d, Written(d, w).0, cs); }
  }

  lemma {:induction false} RecordWriteKeeps(d0: Disk, d: Disk, cs: seq<Change>, hash: Hash, state: RecordState)
    requires Between(d0, d, cs) && DirsMade(d0, d, cs) && BackedUp(d, cs)
    ensures Midway(d0, Written(d, PutItems(cs, hash, state)).0, cs, hash)
  {
    SameFilesBetween(d0, d, Written(d, PutItems(cs, hash, state)).0, cs);
  }

  lemma {:induction false} RecordPut(d0: Disk, cs: seq<Change>, hash: Hash)
    requires DistinctPaths(cs)
    ensures var (d, ok) := WrittenAll(d0, Head(cs));
            ok && Midway(d0, Written(d, PutItems(cs, hash, Prepared)).0, cs, hash)
  {
    WholeHead(d0, cs);
    HeadBacksUp(d0, cs);
    RecordWriteKeeps(d0, WrittenAll(d0, Head(cs)).0, cs, hash, Prepared);
  }

  lemma {:induction false} TailWrite(cs: seq<Change>, hash: Hash, n: nat)
    requires n < |Tail(cs, hash)|
    ensures var w := Tail(cs, hash)[n];
            w == PutItems(cs, hash, Prepared) || w == PutItems(cs, hash, Applied) || IsMutationWrite(cs, w)
  {
    FilesAreMutations(cs);
    if 0 < n < |Tail(cs, hash)| - 1 { assert Tail(cs, hash)[n] in Files(cs); }
  }

  // Once the record is there, every further write keeps the invariant.
  lemma {:induction false} TailPrefix(d0: Disk, cs: seq<Change>, hash: Hash, ws: seq<Write>, n: nat)
    requires DistinctPaths(cs) && ws == Writes(cs, hash) && 0 < n && |Head(cs)| + n <= |ws|
    ensures Midway(d0, WrittenAll(d0, ws[..|Head(cs)| + n]).0, cs, hash)
    decreases n
  {
    var m := |Head(cs)| + n - 1;
    WrittenOneMore(d0, ws, m);
    if n == 1 {
      assert ws[..m] == Head(cs) && ws[m] == PutItems(cs, hash, Prepared);
      RecordPut(d0, cs, hash);
    } else {
      TailPrefix(d0, cs, hash, ws, n - 1);
      assert ws[m] == Tail(cs, hash)[n - 1];
      TailWrite(cs, hash, n - 1);
      TailWriteKeeps(d0, WrittenAll(d0, ws[..m]).0, cs, hash, ws[m]);
    }
  }

  lemma {:induction false} TailWriteKeeps(d0: Disk, d: Disk, cs: seq<Change>, hash: Hash, w: Write)
    requires DistinctPaths(cs) && Midway(d0, d, cs, hash)
    requires w == PutItems(cs, hash, Prepared) || w == PutItems(cs, hash, Applied) || IsMutationWrite(cs, w)
    ensures Midway(d0, Written(d, w).0, cs, hash)
  {
    if w == PutItems(cs, hash, Prepared) {
      RecordWriteKeeps(d0, d, cs, hash, Prepared);
    } else if w == PutItems(cs, hash, Applied) {
      RecordWriteKeeps(d0, d, cs, hash, Applied);
    } else {
      MutationWriteKeeps(d0, d, cs, hash, w);
    }
  }

  // What a cut-off promotion leaves: either no record and the old files, or a record that says
  // how to take every change back.
  ghost predicate Recoverable(d0: Disk, d: Disk, cs: seq<Change>, hash: Hash) {
    (d.record.None? ==> d.files == d0.files) && (d.record.Some? ==> Midway(d0, d, cs, hash))
  }

  lemma {:induction false} WritesCutAnywhere(d0: Disk, cs: seq<Change>, hash: Hash, ws: seq<Write>, n: nat)
    requires DistinctPaths(cs) && d0.record.None? && ws == Writes(cs, hash) && n <= |ws|
    ensures Recoverable(d0, WrittenAll(d0, ws[..n]).0, cs, hash)
    ensures n > 0 ==> WrittenAll(d0, ws[..n]).0.recordDir
  {
    if n <= |Head(cs)| {
      assert ws[..n] == Head(cs)[..n];
      HeadPrefix(d0, cs, n);
    } else {
      TailPrefix(d0, cs, hash, ws, n - |Head(cs)|);
      RecordDirStays(d0, ws, n);
    }
  }

  lemma {:induction false} RecordDirStays(d: Disk, ws: seq<Write>, n: nat)
    requires 0 < n <= |ws| && ws[0] == MakeRecordDir
    ensures WrittenAll(d, ws[..n]).0.recordDir
    decreases n
  {
    WrittenOneMore(d, ws, n - 1);
    if n == 1 {
      assert ws[..0] == [];
    } else {
      RecordDirStays(d, ws, n - 1);
    }
  }

  // ---- rollback ----

  ghost predicate RestoredUpTo(d0: Disk, d: Disk, cs: seq<Change>, n: nat)
    requires n <= |cs|
  {
    forall i :: 0 <= i < n ==> Original(d0, d, cs[i].path)
  }

  // No path of a verified package can have become a directory, so nothing has drifted; undoing an
  // item puts its path back.
  lemma {:induction false} UndoRestores(d0: Disk, d: Disk, cs: seq<Change>, hash: Hash, i: nat)
    requires CollisionFree(hash) && Ready(d0, cs) && i < |cs| && Midway(d0, d, cs, hash)
    ensures var u := UndoOf(d, ItemOf(cs[i], hash), hash);
            !u.Drifted? && Original(d0, AfterUndo(d, u, cs[i].path), cs[i].path)
  {
    assert Original(d0, d, cs[i].path) || HoldsPromoted(d, cs[i]);
    assert forall j :: 0 <= j < |cs| ==> cs[i].path !in Parents(cs[j].path);
  }

  lemma {:induction false} OnePathMoved(d0: Disk, d: Disk, d': Disk, cs: seq<Change>, hash: Hash, i: nat)
    requires DistinctPaths(cs) && i < |cs| && Midway(d0, d, cs, hash) && RestoredUpTo(d0, d, cs, i)
    requires d' == d.(files := d'.files) && Original(d0, d', cs[i].path)
    requires forall p :: p != cs[i].path ==> Original(d, d', p)
    ensures Midway(d0, d', cs, hash) && RestoredUpTo(d0, d', cs, i + 1)
  {
    forall path | !IsMutated(cs, path) ensures Original(d0, d', path) {
      assert path != cs[i].path;
      assert Original(d0, d, path) && Original(d, d', path);
    }
    forall j | 0 <= j < |cs| && j != i
      ensures Original(d0, d, cs[j].path) ==> Original(d0, d', cs[j].path)
      ensures HoldsPromoted(d, cs[j]) ==> HoldsPromoted(d', cs[j])
    {
      assert cs[j].path != cs[i].path;
      assert Original(d, d', cs[j].path);
    }
  }

  lemma {:induction false} AllRestored(d0: Disk, d: Disk, cs: seq<Change>)
    requires Between(d0, d, cs) && RestoredUpTo(d0, d, cs, |cs|)
    ensures d.files == d0.files
  {
    forall path
      ensures path in d.files <==> path in d0.files
      ensures path in d.files && path in d0.files ==> d.files[path] == d0.files[path]
    {
      if IsMutated(cs, path) {
        var i :| 0 <= i < |cs| && cs[i].path == path;
        assert Original(d0, d, cs[i].path);
      } else {
        assert Original(d0, d, path);
      }
    }
  }

  // What undoing the items from i on ends with: the invariant, and with steps enough all files.
  ghost predicate UndoneWell(d0: Disk, d: Disk, cs: seq<Change>, hash: Hash, i: nat, steps: nat)
    requires i <= |cs| && d.record.Some?
  {
    var (d', end) := Undone(d, ItemsOf(cs, hash)[i..], hash, steps);
    && Midway(d0, d', cs, hash)
    && (end.Done? ==> d'.files == d0.files)
    && (steps > |cs| - i ==> end.Done?)
  }

  lemma {:induction false} UndoneLast(d0: Disk, d: Disk, cs: seq<Change>, hash: Hash, steps: nat)
    requires Midway(d0, d, cs, hash) && RestoredUpTo(d0, d, cs, |cs|)
    ensures UndoneWell(d0, d, cs, hash, |cs|, steps)
  {
    AllRestored(d0, d, cs);
    SameFilesBetween(d0, d, d.(record := Some(d.record.value.(state := RolledBack))), cs);
  }

  lemma {:induction false} UndoneOne(d: Disk, items: seq<Item>, hash: Hash, i: nat, steps: nat)
    requires d.record.Some? && i < |items|
    ensures var u := UndoOf(d, items[i], hash);
            Undone(d, items[i..], hash, steps) ==
            if u.Drifted? then (d, Stopped)
            else if !u.Nothing? && steps == 0 then (d, Died)
            else Undone(AfterUndo(d, u, items[i].path), items[i + 1..], hash, if u.Nothing? then steps else steps - 1)
  {
    assert items[i..][0] == items[i] && items[i..][1..] == items[i + 1..];
  }

  lemma {:induction false} UndoneFrom(d0: Disk, d: Disk, cs: seq<Change>, hash: Hash, i: nat, steps: nat)
    requires CollisionFree(hash) && Ready(d0, cs) && i <= |cs| && Midway(d0, d, cs, hash) && RestoredUpTo(d0, d, cs, i)
    ensures UndoneWell(d0, d, cs, hash, i, steps)
    decreases |cs| - i
  {
    if i == |cs| {
      UndoneLast(d0, d, cs, hash, steps);
    } else {
      var u := UndoOf(d, ItemOf(cs[i], hash), hash);
      UndoneOne(d, ItemsOf(cs, hash), hash, i, steps);
      UndoRestores(d0, d, cs, hash, i);
      if u.Nothing? || steps > 0 {
        var d' := AfterUndo(d, u, cs[i].path);
        OnePathMoved(d0, d, d', cs, hash, i);
        UndoneFrom(d0, d', cs, hash, i + 1, if u.Nothing? then steps else steps - 1);
      }
    }
  }

  // Any rollback of a recoverable disk, however cut off.
  lemma {:induction false} RollbackOnce(d0: Disk, d: Disk, cs: seq<Change>, hash: Hash, steps: nat)
    requires CollisionFree(hash) && Ready(d0, cs) && Midway(d0, d, cs, hash)
    ensures var (d', end) := RolledBackTo(d, hash, Ok(()), steps);
            && Midway(d0, d', cs, hash)
            && (end.Done? ==> d'.files == d0.files)
            && (steps > |cs| ==> end.Done?)
  {
    UndoneFrom(d0, d, cs, hash, 0, steps);
    assert ItemsOf(cs, hash)[0..] == ItemsOf(cs, hash);
  }

  lemma {:induction false} RollbacksKeep(d0: Disk, d: Disk, cs: seq<Change>, hash: Hash, cuts: seq<nat>)
    requires CollisionFree(hash) && Ready(d0, cs) && Midway(d0, d, cs, hash)
    ensures Midway(d0, RolledBackAll(d, hash, cuts), cs, hash)
  {
    if cuts == [] {
    } else {
      RollbacksKeep(d0, d, cs, hash, cuts[..|cuts| - 1]);
      RollbackOnce(d0, RolledBackAll(d, hash, cuts[..|cuts| - 1]), cs, hash, cuts[|cuts| - 1]);
    }
  }

  lemma {:induction false} NothingToRollBack(d: Disk, hash: Hash, cuts: seq<nat>)
    requires d.record.None?
    ensures RolledBackAll(d, hash, cuts) == d
  {
    if cuts == [] {
    } else {
      NothingToRollBack(d, hash, cuts[..|cuts| - 1]);
    }
  }

  // ---- the theorems ----

  // A record lies in its directory.
  predicate RecordInPlace(d: Disk) {
    d.record.Some? ==> d.recordDir
  }

  // A promotion that was not refused has passed every check, and is its writes up to some point.
  lemma {:induction false} PassedChecks(d0: Disk, changes: Tree, ms: seq<Mutation>, hash: Hash, v: Verdicts, steps: nat)
    returns (cs: seq<Change>, n: nat)
    requires IsTree(changes.files, changes.dirs) && !Promoted(d0, changes, ms, hash, v, steps).1.Refused?
    ensures !d0.recordDir && |cs| == |ms| && Ready(d0, cs) && n <= |Writes(cs, hash)| && (steps > 0 ==> n > 0)
    ensures n == if steps < |Writes(cs, hash)| then steps else |Writes(cs, hash)|
    ensures Promoted(d0, changes, ms, hash, v, steps) == Run(d0, Writes(cs, hash), steps)
    ensures Promoted(d0, changes, ms, hash, v, steps).0 == WrittenAll(d0, Writes(cs, hash)[..n]).0
    ensures forall i :: 0 <= i < |ms| ==>
              cs[i].path == ms[i].path && cs[i].create == ms[i].create && cs[i].promoted == ms[i].content
  {
    cs := Preflight(d0, changes, ms, hash).value;
    n := if steps < |Writes(cs, hash)| then steps else |Writes(cs, hash)|;
    PreflightChecks(d0, changes, ms, hash);
    VerifiedIsReady(d0, changes, ms, hash);
  }

  // A refused promotion changes nothing. Any other, cut off anywhere, either left every file alone
  // or left a record and backups that undo it, and is never run again over its own record.
  lemma {:induction false} PromotionCutAnywhere(d0: Disk, changes: Tree, ms: seq<Mutation>, hash: Hash, v: Verdicts,
                                                steps: nat)
    requires IsTree(changes.files, changes.dirs) && RecordInPlace(d0)
    ensures var (d, end) := Promoted(d0, changes, ms, hash, v, steps);
            if end.Refused? then d == d0
            else (exists cs :: |cs| == |ms| && Ready(d0, cs) && Recoverable(d0, d, cs, hash))
                 && (steps > 0 ==> forall again :: Promoted(d, changes, ms, hash, v, again).1.Refused?)
  {
    if !Promoted(d0, changes, ms, hash, v, steps).1.Refused? {
      var cs, n := PassedChecks(d0, changes, ms, hash, v, steps);
      WritesCutAnywhere(d0, cs, hash, Writes(cs, hash), n);
    }
  }

  // Wherever the promotion and any rollbacks after it were cut off, one more rollback with a step
  // for each mutation and one for the record completes, and every file is as it was.
  lemma {:induction false} RollbackCompletes(d0: Disk, changes: Tree, ms: seq<Mutation>, hash: Hash, v: Verdicts,
                                             steps: nat, cuts: seq<nat>, last: nat)
    requires CollisionFree(hash) && IsTree(changes.files, changes.dirs) && RecordInPlace(d0)
    requires !Promoted(d0, changes, ms, hash, v, steps).1.Refused?
    ensures var d1 := Promoted(d0, changes, ms, hash, v, steps).0;
            var (d2, end) := RolledBackTo(RolledBackAll(d1, hash, cuts), hash, Ok(()), last);
            if d1.record.None? then d2 == d1 && d1.files == d0.files
            else (last > |ms| ==> end.Done?) && (end.Done? ==> d2.files == d0.files)
  {
    var cs, n := PassedChecks(d0, changes, ms, hash, v, steps);
    var d1 := Promoted(d0, changes, ms, hash, v, steps).0;
    WritesCutAnywhere(d0, cs, hash, Writes(cs, hash), n);
    if d1.record.None? {
      NothingToRollBack(d1, hash, cuts);
    } else {
      RollbacksKeep(d0, d1, cs, hash, cuts);
      RollbackOnce(d0, RolledBackAll(d1, hash, cuts), cs, hash, last);
    }
  }
}
