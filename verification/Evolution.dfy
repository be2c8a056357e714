// Promotion and rollback of an evolution candidate (src/rosetta/evolution.py:546-659), with a
// death after any write. A disk is the project's files and directories plus one rollback record;
// a package holds the candidate's new files in a directory tree of their own.
module Evolution {
  import opened Wrappers

  type Bytes = seq<bv8>

  type Hash = Bytes -> string

  ghost predicate CollisionFree(hash: Hash) {
    forall x, y :: hash(x) == hash(y) ==> x == y
  }

  datatype Mutation = Mutation(path: string, create: bool, expected: Option<string>, content: Bytes)

  datatype Item = Item(path: string, create: bool, promoted: string, previous: Option<string>)

  datatype RecordState = Prepared | Applied | RolledBack

  datatype Record = Record(state: RecordState, items: seq<Item>)

  datatype Disk = Disk(
    files: map<string, Bytes>,
    dirs: set<string>,
    recordDir: bool,
    backups: map<string, Bytes>,
    record: Option<Record>)

  // The directories a path lies in.
  function Parents(path: string): set<string> {
    set i | 0 <= i < |path| && path[i] == '/' :: path[..i]
  }

  predicate Exists(d: Disk, path: string) {
    path in d.files || path in d.dirs
  }

  // ---- the package ----

  // What lies below the package's "changes" directory.
  datatype Tree = Tree(files: map<string, Bytes>, dirs: set<string>)

  // Every file system is like this: what a file lies in is a directory, and no file is one.
  predicate IsTree(files: map<string, Bytes>, dirs: set<string>) {
    files.Keys !! dirs && forall p :: p in files ==> Parents(p) <= dirs
  }

  function Paths(ms: seq<Mutation>): (paths: seq<string>)
    ensures |paths| == |ms| && forall i :: 0 <= i < |ms| ==> paths[i] == ms[i].path
  {
    seq(|ms|, i requires 0 <= i < |ms| => ms[i].path)
  }

  // The first mutation whose change file does not hold its content.
  function Mismatch(changes: Tree, ms: seq<Mutation>): Option<string> {
    if ms == [] then None
    else if ms[0].path !in changes.files || changes.files[ms[0].path] != ms[0].content then Some(ms[0].path)
    else Mismatch(changes, ms[1..])
  }

  // The last part of verify_evolution_package: the change files are exactly the mutated paths, each
  // once, with their contents.
  function VerifiedChanges(changes: Tree, ms: seq<Mutation>): Result<(), string> {
    if multiset(Paths(ms)) != multiset(changes.files.Keys) then Err("evolution package changes do not match candidate")
    else match Mismatch(changes, ms)
      case Some(path) => Err("evolution change content mismatch: " + path)
      case None => Ok(())
  }

  // ---- preflight ----

  // One prepared mutation: the bytes it will write and those it replaces.
  datatype Change = Change(path: string, create: bool, promoted: Bytes, previous: Option<Bytes>)

  // What will be written, or why promotion is refused.
  function Preflight(d: Disk, changes: Tree, ms: seq<Mutation>, hash: Hash): Result<seq<Change>, string> {
    if ms == [] then Ok([])
    else
      var m := ms[0];
      if m.path !in changes.files then Err("change file cannot be read")
      else if m.create && Exists(d, m.path) then Err("promotion create target exists")
      else if !m.create && m.path !in d.files then Err("promotion base is not a file")
      else if !m.create && Some(hash(d.files[m.path])) != m.expected then Err("promotion base changed after evaluation")
      else After([PreparedFrom(d, changes, m)], Preflight(d, changes, ms[1..], hash))
  }

  function PreparedFrom(d: Disk, changes: Tree, m: Mutation): Change
    requires m.path in changes.files && (!m.create ==> m.path in d.files)
  {
    Change(m.path, m.create, changes.files[m.path], if m.create then None else Some(d.files[m.path]))
  }

  // ---- the writes of a promotion, in order ----

  datatype Write =
    | MakeRecordDir
    | Backup(path: string, bytes: Bytes)
    | PutRecord(record: Record)
    | MakeParents(path: string)
    | PutFile(path: string, bytes: Bytes)

  // A directory cannot be made where a file is, nor a file written where a directory is.
  function Written(d: Disk, w: Write): (Disk, bool) {
    match w
    case MakeRecordDir => (d.(recordDir := true), true)
    case Backup(path, bytes) => (d.(backups := d.backups[path := bytes]), true)
    case PutRecord(record) => (d.(record := Some(record)), true)
    case MakeParents(path) =>
      if Parents(path) * d.files.Keys != {} then (d, false) else (d.(dirs := d.dirs + Parents(path)), true)
    case PutFile(path, bytes) =>
      if path in d.dirs then (d, false) else (d.(files := d.files[path := bytes]), true)
  }

  function WrittenAll(d: Disk, ws: seq<Write>): (Disk, bool) {
    if ws == [] then (d, true)
    else
      var (d', ok) := WrittenAll(d, ws[..|ws| - 1]);
      if !ok then (d', false) else Written(d', ws[|ws| - 1])
  }

  function ItemOf(c: Change, hash: Hash): Item {
    Item(c.path, c.create, hash(c.promoted), match c.previous case None => None case Some(b) => Some(hash(b)))
  }

  function ItemsOf(cs: seq<Change>, hash: Hash): (items: seq<Item>)
    ensures |items| == |cs| && forall i :: 0 <= i < |cs| ==> items[i] == ItemOf(cs[i], hash)
  {
    seq(|cs|, i requires 0 <= i < |cs| => ItemOf(cs[i], hash))
  }

  function BackupOf(c: Change): seq<Write> {
    if c.previous.Some? then [Backup(c.path, c.previous.value)] else []
  }

  function Backups(cs: seq<Change>): seq<Write> {
    if cs == [] then [] else Backups(cs[..|cs| - 1]) + BackupOf(cs[|cs| - 1])
  }

  function FilesOf(c: Change): seq<Write> {
    [MakeParents(c.path), PutFile(c.path, c.promoted)]
  }

  function Files(cs: seq<Change>): seq<Write> {
    if cs == [] then [] else Files(cs[..|cs| - 1]) + FilesOf(cs[|cs| - 1])
  }

  function PutItems(cs: seq<Change>, hash: Hash, state: RecordState): Write {
    PutRecord(Record(state, ItemsOf(cs, hash)))
  }

  function Head(cs: seq<Change>): seq<Write> {
    [MakeRecordDir] + Backups(cs)
  }

  function Tail(cs: seq<Change>, hash: Hash): seq<Write> {
    [PutItems(cs, hash, Prepared)] + Files(cs) + [PutItems(cs, hash, Applied)]
  }

  function Writes(cs: seq<Change>, hash: Hash): seq<Write> {
    Head(cs) + Tail(cs, hash)
  }

  datatype End = Done | Refused(reason: string) | Stopped | Died

  // The checks that are not about files: the gate, the package's seal, identity and lineage
  // before its changes are looked at; approval, evaluation, parent digests and policy after.
  datatype Verdicts = Verdicts(sealed: Result<(), string>, approved: Result<(), string>)

  // The writes made by a process that dies after `steps` of them.
  function Run(d: Disk, ws: seq<Write>, steps: nat): (Disk, End) {
    var (d', ok) := WrittenAll(d, ws[..if steps < |ws| then steps else |ws|]);
    (d', if !ok then Stopped else if steps < |ws| then Died else Done)
  }

  // promote: everything is checked before the first write.
  function Promoted(d: Disk, changes: Tree, ms: seq<Mutation>, hash: Hash, v: Verdicts, steps: nat): (Disk, End) {
    if v.sealed.Err? then (d, Refused(v.sealed.error))
    else if VerifiedChanges(changes, ms).Err? then (d, Refused(VerifiedChanges(changes, ms).error))
    else if v.approved.Err? then (d, Refused(v.approved.error))
    else if d.recordDir then (d, Refused("rollback record already exists"))
    else match Preflight(d, changes, ms, hash)
      case Err(e) => (d, Refused(e))
      case Ok(cs) => Run(d, Writes(cs, hash), steps)
  }

  // ---- rollback ----

  // One item: nothing to do, one write, or a refusal.
  datatype Undo = Nothing | Unlink | Restore(bytes: Bytes) | Drifted

  function UndoOf(d: Disk, x: Item, hash: Hash): Undo {
    if x.create then
      if !Exists(d, x.path) then Nothing
      else if x.path !in d.files || hash(d.files[x.path]) != x.promoted then Drifted
      else Unlink
    else if x.path !in d.backups || x.path !in d.files then Drifted
    else
      var current := hash(d.files[x.path]);
      if current == x.promoted then Restore(d.backups[x.path])
      else if Some(current) != x.previous then Drifted
      else Nothing
  }

  function AfterUndo(d: Disk, u: Undo, path: string): Disk {
    match u
    case Unlink => d.(files := d.files - {path})
    case Restore(bytes) => d.(files := d.files[path := bytes])
    case _ => d
  }

  function Undone(d: Disk, items: seq<Item>, hash: Hash, steps: nat): (Disk, End)
    requires d.record.Some?
    decreases |items|
  {
    if items == [] then
      if steps == 0 then (d, Died) else (d.(record := Some(d.record.value.(state := RolledBack))), Done)
    else
      var u := UndoOf(d, items[0], hash);
      if u.Drifted? then (d, Stopped)
      else if u.Nothing? then Undone(d, items[1..], hash, steps)
      else if steps == 0 then (d, Died)
      else Undone(AfterUndo(d, u, items[0].path), items[1..], hash, steps - 1)
  }

  function RolledBackTo(d: Disk, hash: Hash, authorised: Result<(), string>, steps: nat): (Disk, End) {
    if authorised.Err? then (d, Refused(authorised.error))
    else if d.record.None? then (d, Refused("no promotion record"))
    else Undone(d, d.record.value.items, hash, steps)
  }

  // Rollbacks one after another, each cut off by its own number of steps.
  function RolledBackAll(d: Disk, hash: Hash, cuts: seq<nat>): Disk {
    if cuts == [] then d else RolledBackTo(RolledBackAll(d, hash, cuts[..|cuts| - 1]), hash, Ok(()), cuts[|cuts| - 1]).0
  }
}
