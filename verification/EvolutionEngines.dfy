// EvolutionEngine.promote and rollback as they run: one write after another, the process dying
// when its steps are used up (src/rosetta/evolution.py:546-659).
module EvolutionEngines {
  import opened Wrappers
  import opened Orders
  import opened Evolution

  // ---- the writes in order ----

  lemma {:induction false} FailureStays(d: Disk, ws: seq<Write>, m: nat, n: nat)
    requires m <= n <= |ws| && !WrittenAll(d, ws[..m]).1
    ensures WrittenAll(d, ws[..n]) == WrittenAll(d, ws[..m])
  {
    if m == n {
    } else {
      FailureStays(d, ws, m, n - 1);
      assert ws[..n][..n - 1] == ws[..n - 1];
    }
  }

  lemma {:induction false} OneMore(cs: seq<Change>, i: nat)
    requires i < |cs|
    ensures Backups(cs[..i + 1]) == Backups(cs[..i]) + BackupOf(cs[i])
    ensures Files(cs[..i + 1]) == Files(cs[..i]) + FilesOf(cs[i])
  {
    assert cs[..i + 1][..i] == cs[..i];
  }

  lemma {:induction false} PartsGrow(cs: seq<Change>, i: nat)
    requires i <= |cs|
    ensures Backups(cs[..i]) <= Backups(cs) && Files(cs[..i]) <= Files(cs)
    decreases |cs| - i
  {
    if i == |cs| {
      assert cs[..i] == cs;
    } else {
      PartsGrow(cs, i + 1);
      OneMore(cs, i);
    }
  }

  lemma {:induction false} PrefixInside(head: seq<Write>, some: seq<Write>, all: seq<Write>, end: seq<Write>)
    requires some <= all
    ensures head + some <= head + all + end
  {
  }

  lemma {:induction false} HeadGrows(cs: seq<Change>, hash: Hash, i: nat)
    requires i < |cs|
    ensures Head(cs[..i + 1]) == Head(cs[..i]) + BackupOf(cs[i])
    ensures Head(cs[..i + 1]) <= Writes(cs, hash)
  {
    PartsGrow(cs, i + 1);
    OneMore(cs, i);
    PrefixInside([MakeRecordDir], Backups(cs[..i + 1]), Backups(cs), Tail(cs, hash));
  }

  lemma {:induction false} HeadStarts(cs: seq<Change>, hash: Hash)
    ensures Head(cs[..0]) == [] + [MakeRecordDir] && [] + [MakeRecordDir] <= Writes(cs, hash)
  {
    assert cs[..0] == [];
  }

  lemma {:induction false} ItemsGrow(cs: seq<Change>, hash: Hash, i: nat)
    requires i < |cs|
    ensures ItemsOf(cs[..i + 1], hash) == ItemsOf(cs[..i], hash) + [ItemOf(cs[i], hash)]
  {
  }

  // The writes up to the record, and then those of the first i mutations.
  function Into(cs: seq<Change>, hash: Hash, i: nat): seq<Write>
    requires i <= |cs|
  {
    Head(cs) + [PutItems(cs, hash, Prepared)] + Files(cs[..i])
  }

  lemma {:induction false} IntoGrows(cs: seq<Change>, hash: Hash, i: nat)
    requires i < |cs|
    ensures Into(cs, hash, i) + FilesOf(cs[i]) == Into(cs, hash, i + 1)
    ensures Into(cs, hash, i + 1) <= Writes(cs, hash)
  {
    PartsGrow(cs, i + 1);
    OneMore(cs, i);
    PrefixInside(Head(cs) + [PutItems(cs, hash, Prepared)], Files(cs[..i + 1]), Files(cs),
                 [PutItems(cs, hash, Applied)]);
    WritesInParts(cs, hash);
  }

  lemma {:induction false} WritesInParts(cs: seq<Change>, hash: Hash)
    ensures Writes(cs, hash) == Head(cs) + [PutItems(cs, hash, Prepared)] + Files(cs) + [PutItems(cs, hash, Applied)]
  {
  }

  lemma {:induction false} RecordStarts(cs: seq<Change>, hash: Hash)
    ensures Into(cs, hash, 0) == Head(cs) + [PutItems(cs, hash, Prepared)]
    ensures Into(cs, hash, 0) <= Writes(cs, hash)
  {
    assert cs[..0] == [];
  }

  lemma {:induction false} RecordEnds(cs: seq<Change>, hash: Hash)
    ensures Into(cs, hash, |cs|) + [PutItems(cs, hash, Applied)] == Writes(cs, hash)
  {
    assert cs[..|cs|] == cs;
  }

  // ---- a run between its writes ----

  // The writes made are the first of the promotion and all succeeded.
  ghost predicate Underway(d0: Disk, d: Disk, ws: seq<Write>, written: seq<Write>, steps: nat, left: nat) {
    written <= ws && WrittenAll(d0, written) == (d, true) && |written| + left == steps
  }

  lemma {:induction false} NothingWritten(d0: Disk, ws: seq<Write>, steps: nat)
    ensures Underway(d0, d0, ws, [], steps, steps)
  {
  }

  lemma {:induction false} OneWrite(d0: Disk, d: Disk, ws: seq<Write>, written: seq<Write>, w: Write, steps: nat,
                                    left: nat)
    requires Underway(d0, d, ws, written, steps, left) && written + [w] <= ws
    ensures left == 0 ==> Run(d0, ws, steps) == (d, Died)
    ensures left > 0 && !Written(d, w).1 ==> Run(d0, ws, steps) == (Written(d, w).0, Stopped)
    ensures left > 0 && Written(d, w).1 ==> Underway(d0, Written(d, w).0, ws, written + [w], steps, left - 1)
  {
    var m := |written|;
    assert ws[..m] == written && ws[..m + 1] == written + [w] && (written + [w])[..m] == written;
    if left > 0 && !Written(d, w).1 { FailureStays(d0, ws, m + 1, if steps < |ws| then steps else |ws|); }
  }

  lemma {:induction false} AllWritten(d0: Disk, d: Disk, ws: seq<Write>, steps: nat, left: nat)
    requires Underway(d0, d, ws, ws, steps, left)
    ensures Run(d0, ws, steps) == (d, Done)
  {
    assert ws[..|ws|] == ws;
  }

  class EvolutionEngine {
    var files: map<string, Bytes>
    var dirs: set<string>
    var recordDir: bool
    var backups: map<string, Bytes>
    var record: Option<Record>
    // Writes until the process dies.
    var left: nat

    function Now(): Disk
      reads this
    {
      Disk(files, dirs, recordDir, backups, record)
    }

    // One write: None on success.
    method Perform(w: Write) returns (end: Option<End>)
      modifies this
      ensures old(left) == 0 ==> end == Some(Died) && Now() == old(Now()) && left == 0
      ensures old(left) > 0 ==> left == old(left) - 1 && Now() == Written(old(Now()), w).0
      ensures old(left) > 0 ==> end == if Written(old(Now()), w).1 then None else Some(Stopped)
    {
      if left == 0 { return Some(Died); }
      left := left - 1;
      end := None;
      if w.MakeRecordDir? {
        recordDir := true;
      } else if w.Backup? {
        backups := backups[w.path := w.bytes];
      } else if w.PutRecord? {
        record := Some(w.record);
      } else if w.MakeParents? {
        if Parents(w.path) * files.Keys != {} { return Some(Stopped); }
        dirs := dirs + Parents(w.path);
      } else {
        if w.path in dirs { return Some(Stopped); }
        files := files[w.path := w.bytes];
      }
    }

    // The end of verify_evolution_package, over a walk of the changes in any order.
    method VerifyChanges(changes: Tree, walk: seq<string>, ms: seq<Mutation>) returns (r: Result<(), string>)
      requires multiset(walk) == multiset(changes.files.Keys)
      ensures r == VerifiedChanges(changes, ms)
    {
      var expected, actual := Sort(Paths(ms), StringLe), Sort(walk, StringLe);
      StringLeIsTotalOrder();
      SortedAlike(Paths(ms), walk, StringLe);
      if actual != expected { return Err("evolution package changes do not match candidate"); }
      SameMembers(Paths(ms), changes.files.Keys);
      for i := 0 to |ms|
        invariant Mismatch(changes, ms) == Mismatch(changes, ms[i..])
      {
        assert ms[i..][0] == ms[i] && ms[i..][1..] == ms[i + 1..];
        assert Paths(ms)[i] == ms[i].path;
        if changes.files[ms[i].path] != ms[i].content {
          return Err("evolution change content mismatch: " + ms[i].path);
        }
      }
      return Ok(());
    }

    method Check(changes: Tree, ms: seq<Mutation>, hash: Hash) returns (r: Result<seq<Change>, string>)
      ensures r == Preflight(old(Now()), changes, ms, hash)
    {
      var prepared: seq<Change> := [];
      assert ms[0..] == ms;
      for i := 0 to |ms|
        invariant Preflight(Now(), changes, ms, hash) == After(prepared, Preflight(Now(), changes, ms[i..], hash))
      {
        var m := ms[i];
        assert ms[i..][0] == m && ms[i..][1..] == ms[i + 1..];
        if m.path !in changes.files { return Err("change file cannot be read"); }
        var promoted := changes.files[m.path];
        var previous: Option<Bytes> := None;
        if m.create {
          if m.path in files || m.path in dirs { return Err("promotion create target exists"); }
        } else {
          if m.path !in files { return Err("promotion base is not a file"); }
          previous := Some(files[m.path]);
          if Some(hash(previous.value)) != m.expected { return Err("promotion base changed after evaluation"); }
        }
        var c := Change(m.path, m.create, promoted, previous);
        AfterOneMore(prepared, c, Preflight(Now(), changes, ms[i + 1..], hash));
        prepared := prepared + [c];
      }
      assert prepared + [] == prepared;
      return Ok(prepared);
    }

    method Promote(changes: Tree, walk: seq<string>, ms: seq<Mutation>, hash: Hash, v: Verdicts) returns (end: End)
      requires multiset(walk) == multiset(changes.files.Keys)
      modifies this
      ensures (Now(), end) == Promoted(old(Now()), changes, ms, hash, v, old(left))
    {
      if v.sealed.Err? { return Refused(v.sealed.error); }
      var verified := VerifyChanges(changes, walk, ms);
      if verified.Err? { return Refused(verified.error); }
      if v.approved.Err? { return Refused(v.approved.error); }
      if recordDir { return Refused("rollback record already exists"); }
      var checked := Check(changes, ms, hash);
      if checked.Err? { return Refused(checked.error); }
      end := Apply(checked.value, hash);
    }

    // The backup of one mutation, if it replaces a file.
    method Keep(ghost d0: Disk, ghost ws: seq<Write>, ghost written: seq<Write>, c: Change, ghost steps: nat)
      returns (stop: Option<End>)
      requires Underway(d0, Now(), ws, written, steps, left) && written + BackupOf(c) <= ws
      modifies this
      ensures stop.Some? ==> Run(d0, ws, steps) == (Now(), stop.value)
      ensures stop.None? ==> Underway(d0, Now(), ws, written + BackupOf(c), steps, left)
    {
      if c.previous.Some? {
        OneWrite(d0, Now(), ws, written, Backup(c.path, c.previous.value), steps, left);
        stop := Perform(Backup(c.path, c.previous.value));
      } else {
        assert written + [] == written;
        stop := None;
      }
    }

    method Apply(cs: seq<Change>, hash: Hash) returns (end: End)
      modifies this
      ensures (Now(), end) == Run(old(Now()), Writes(cs, hash), old(left))
    {
      ghost var d0, steps, ws := Now(), left, Writes(cs, hash);
      HeadStarts(cs, hash);
      NothingWritten(d0, ws, steps);
      OneWrite(d0, Now(), ws, [], MakeRecordDir, steps, left);
      var stop := Perform(MakeRecordDir);
      if stop.Some? { return stop.value; }
      var items: seq<Item> := [];
      for i := 0 to |cs|
        invariant Underway(d0, Now(), ws, Head(cs[..i]), steps, left)
        invariant items == ItemsOf(cs[..i], hash)
      {
        HeadGrows(cs, hash, i);
        stop := Keep(d0, ws, Head(cs[..i]), cs[i], steps);
        if stop.Some? { return stop.value; }
        ItemsGrow(cs, hash, i);
        items := items + [ItemOf(cs[i], hash)];
      }
      assert cs[..|cs|] == cs;
      end := Install(d0, cs, items, hash, steps);
    }

    // A mutation's parents and its file.
    method Put(ghost d0: Disk, ghost ws: seq<Write>, ghost written: seq<Write>, c: Change, ghost steps: nat)
      returns (stop: Option<End>)
      requires Underway(d0, Now(), ws, written, steps, left) && written + FilesOf(c) <= ws
      modifies this
      ensures stop.Some? ==> Run(d0, ws, steps) == (Now(), stop.value)
      ensures stop.None? ==> Underway(d0, Now(), ws, written + FilesOf(c), steps, left)
    {
      assert written + [MakeParents(c.path)] + [PutFile(c.path, c.promoted)] == written + FilesOf(c);
      OneWrite(d0, Now(), ws, written, MakeParents(c.path), steps, left);
      stop := Perform(MakeParents(c.path));
      if stop.Some? { return; }
      OneWrite(d0, Now(), ws, written + [MakeParents(c.path)], PutFile(c.path, c.promoted), steps, left);
      stop := Perform(PutFile(c.path, c.promoted));
    }

    method Install(ghost d0: Disk, cs: seq<Change>, items: seq<Item>, hash: Hash, ghost steps: nat) returns (end: End)
      requires items == ItemsOf(cs, hash) && Underway(d0, Now(), Writes(cs, hash), Head(cs), steps, left)
      modifies this
      ensures (Now(), end) == Run(d0, Writes(cs, hash), steps)
    {
      ghost var ws := Writes(cs, hash);
      RecordStarts(cs, hash);
      OneWrite(d0, Now(), ws, Head(cs), PutRecord(Record(Prepared, items)), steps, left);
      var stop := Perform(PutRecord(Record(Prepared, items)));
      if stop.Some? { return stop.value; }
      for i := 0 to |cs|
        invariant Underway(d0, Now(), ws, Into(cs, hash, i), steps, left)
      {
        IntoGrows(cs, hash, i);
        stop := Put(d0, ws, Into(cs, hash, i), cs[i], steps);
        if stop.Some? { return stop.value; }
      }
      RecordEnds(cs, hash);
      OneWrite(d0, Now(), ws, Into(cs, hash, |cs|), PutRecord(Record(Applied, items)), steps, left);
      stop := Perform(PutRecord(Record(Applied, items)));
      if stop.Some? { return stop.value; }
      AllWritten(d0, Now(), ws, steps, left);
      return Done;
    }

    method Rollback(hash: Hash, authorised: Result<(), string>) returns (end: End)
      modifies this
      ensures (Now(), end) == RolledBackTo(old(Now()), hash, authorised, old(left))
    {
      if authorised.Err? { return Refused(authorised.error); }
      if record.None? { return Refused("no promotion record"); }
      var items := record.value.items;
      for i := 0 to |items|
        invariant record == old(record)
        invariant Undone(Now(), items[i..], hash, left) == Undone(old(Now()), items, hash, old(left))
      {
        var x := items[i];
        assert items[i..][0] == x && items[i..][1..] == items[i + 1..];
        if x.create {
          if x.path in files || x.path in dirs {
            if x.path !in files || hash(files[x.path]) != x.promoted { return Stopped; }
            if left == 0 { return Died; }
            left := left - 1;
            files := files - {x.path};
          }
        } else {
          if x.path !in backups || x.path !in files { return Stopped; }
          var current := hash(files[x.path]);
          if current == x.promoted {
            if left == 0 { return Died; }
            left := left - 1;
            files := files[x.path := backups[x.path]];
          } else if Some(current) != x.previous {
            return Stopped;
          }
        }
      }
      if left == 0 { return Died; }
      left := left - 1;
      record := Some(record.value.(state := RolledBack));
      return Done;
    }
  }
}
