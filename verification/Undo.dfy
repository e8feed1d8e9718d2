/** Cancelling restores the start: the file tools as they change one disk, and the
    undo of a whole plan in the compensation order (vyomel/tools/fs.py,
    vyomel/runtime/cancel.py, vyomel/runtime/dag.py). */
module Undo {
  import opened Wrappers
  import opened Model
  import opened Graph
  import opened FileTools
  import F = FileTools
  import Dag

  // --------------------------------------------------------------------- the disk

  class Disk {
    var files: Files

    constructor (files: Files)
      ensures this.files == files
    {
      this.files := files;
    }

    /** `_backup_existing`. */
    method BackupExisting(a: Id, target: Path) returns (backup: Option<Path>)
      requires target.Sandbox?
      modifies this
      ensures files == BackedUp(old(files), a, target) && backup == BackupOf(old(files), a, target)
    {
      if target !in files { return None; }
      if Backup(a) in files { files := files - {Backup(a)}; }
      files := files[Backup(a) := files[target]];
      return Some(Backup(a));
    }

    /** `_restore_backup`. */
    method RestoreBackup(backup: Option<Path>, dest: Path)
      requires backup.Some? ==> backup.value != dest
      modifies this
      ensures files == Restored(old(files), backup, dest)
    {
      if backup.None? || backup.value !in files { return; }
      if dest in files { files := files - {dest}; }
      files := files[dest := files[backup.value]];
    }

    /** A rename within the disk. */
    method Rename(src: Path, dest: Path)
      requires src in files
      modifies this
      ensures files == Renamed(old(files), src, dest)
    {
      var content := files[src];
      files := files - {src};
      files := files[dest := content];
    }

    method WriteFile(a: Id, path: string, payload: Bytes) returns (r: Result<Output, ToolError>)
      modifies this
      ensures (files, r) == Exec(old(files), a, Write(path, payload))
      ensures r.Ok? <==> |payload| <= 8_000_000
      ensures r.Ok? ==> Sandbox(path) in files && files[Sandbox(path)] == payload
      ensures r.Ok? && Sandbox(path) in old(files) ==>
                Backup(a) in files && files[Backup(a)] == old(files)[Sandbox(path)]
    {
      if |payload| > MAX_WRITE_BYTES { return Err(TooLarge); }
      var target := Sandbox(path);
      var created := target !in files;
      var backup: Option<Path> := None;
      if !created {
        files := files[Backup(a) := files[target]];
        backup := Some(Backup(a));
      }
      files := files[target := payload];
      return Ok(Wrote(created, backup));
    }

    method MoveFile(a: Id, src: string, dest: string) returns (r: Result<Output, ToolError>)
      modifies this
      ensures (files, r) == Exec(old(files), a, F.Move(src, dest))
      ensures r.Ok? <==> Sandbox(src) in old(files) || Sandbox(dest) in old(files)
      ensures Sandbox(src) in old(files) ==>
                && Sandbox(dest) in files && files[Sandbox(dest)] == old(files)[Sandbox(src)]
                && (src != dest ==> Sandbox(src) !in files)
      ensures Sandbox(src) in old(files) && Sandbox(dest) in old(files) ==>
                Backup(a) in files && files[Backup(a)] == old(files)[Sandbox(dest)]
    {
      var s, d := Sandbox(src), Sandbox(dest);
      if s !in files {
        if d in files { return Ok(Moved(None)); }
        return Err(SourceMissing);
      }
      var backup := BackupExisting(a, d);
      Rename(s, d);
      return Ok(Moved(backup));
    }

    method CopyFile(a: Id, src: string, dest: string) returns (r: Result<Output, ToolError>)
      modifies this
      ensures (files, r) == Exec(old(files), a, Copy(src, dest))
      ensures r.Ok? <==> Sandbox(src) in old(files) && src != dest
      ensures r.Ok? ==>
                && Sandbox(dest) in files && files[Sandbox(dest)] == old(files)[Sandbox(src)]
                && Sandbox(src) in files && files[Sandbox(src)] == old(files)[Sandbox(src)]
      ensures r.Ok? && Sandbox(dest) in old(files) ==>
                Backup(a) in files && files[Backup(a)] == old(files)[Sandbox(dest)]
    {
      var s, d := Sandbox(src), Sandbox(dest);
      if s !in files { return Err(SourceMissing); }
      var created := d !in files;
      var backup := BackupExisting(a, d);
      if s == d { return Err(SameFile); }
      files := files[d := files[s]];
      return Ok(Copied(created, backup));
    }

    method DeleteFile(a: Id, path: string) returns (r: Result<Output, ToolError>)
      modifies this
      ensures (files, r) == Exec(old(files), a, Delete(path))
      ensures r.Ok? <==> Sandbox(path) in old(files) || Trash(a, BaseName(path)) in old(files)
      ensures Sandbox(path) in old(files) ==>
                && Sandbox(path) !in files
                && Trash(a, BaseName(path)) in files
                && files[Trash(a, BaseName(path))] == old(files)[Sandbox(path)]
    {
      var target, slot := Sandbox(path), Trash(a, BaseName(path));
      if target !in files {
        if slot in files { return Ok(Deleted(slot)); }
        return Err(SourceMissing);
      }
      ghost var before := files;
      if slot in files { files := files - {slot}; }
      Rename(target, slot);
      assert files == Renamed(before, target, slot);
      return Ok(Deleted(slot));
    }

    method Execute(a: Id, op: Op) returns (r: Result<Output, ToolError>)
      modifies this
      ensures (files, r) == Exec(old(files), a, op)
    {
      match op {
        case Write(path, payload) => r := WriteFile(a, path, payload);
        case Move(src, dest) => r := MoveFile(a, src, dest);
        case Copy(src, dest) => r := CopyFile(a, src, dest);
        case Delete(path) => r := DeleteFile(a, path);
      }
    }

    /** `compensate` of the tool that ran `op`. */
    method Compensate(a: Id, op: Op, out: Output)
      requires OutputOf(a, op, out)
      modifies this
      ensures files == F.Undo(old(files), op, out)
    {
      match op {
        case Write(path, _) =>
          if out.created { files := files - {Sandbox(path)}; }
          else if out.backup.Some? && out.backup.value in files {
            files := files[Sandbox(path) := files[out.backup.value]];
          }
        case Move(src, dest) =>
          var s, d := Sandbox(src), Sandbox(dest);
          if d in files && s !in files { Rename(d, s); }
          RestoreBackup(out.backup, d);
        case Copy(_, dest) =>
          if out.created { files := files - {Sandbox(dest)}; }
          else { RestoreBackup(out.backup, Sandbox(dest)); }
        case Delete(path) =>
          if out.trashedTo in files && Sandbox(path) !in files { Rename(out.trashedTo, Sandbox(path)); }
      }
    }
  }

  /** The shape of what action `a` stores for an operation. */
  predicate OutputOf(a: Id, op: Op, out: Output) {
    match (op, out)
    case (Write(_, _), Wrote(_, backup)) => backup == None || backup == Some(Backup(a))
    case (Move(_, _), Moved(backup)) => backup == None || backup == Some(Backup(a))
    case (Copy(_, _), Copied(_, backup)) => backup == None || backup == Some(Backup(a))
    case (Delete(path), Deleted(trashed)) => trashed == Trash(a, BaseName(path))
    case _ => false
  }

  lemma ExecutionOutput(files: Files, a: Id, op: Op)
    ensures Exec(files, a, op).1.Ok? ==> OutputOf(a, op, Exec(files, a, op).1.value)
  {
  }

  // ----------------------------------------------------------------- a whole plan

  /** An action that ran once, with the operation it ran. */
  datatype Ran = Ran(id: Id, op: Op)

  function OutputAt(files: Files, run: Ran): Output {
    var r := Exec(files, run.id, run.op).1;
    if r.Ok? then r.value else Moved(None)
  }

  /** The disk after the first n actions. */
  function After(files: Files, runs: seq<Ran>, n: nat): Files
    requires n <= |runs|
  {
    if n == 0 then files else Exec(After(files, runs, n - 1), runs[n - 1].id, runs[n - 1].op).0
  }

  /** Every action succeeded and found what it was asked to act on. */
  ghost predicate AllFound(files: Files, runs: seq<Ran>) {
    forall i | 0 <= i < |runs| ::
      Exec(After(files, runs, i), runs[i].id, runs[i].op).1.Ok? && Found(After(files, runs, i), runs[i].op)
  }

  ghost predicate OncePerId(runs: seq<Ran>) {
    forall i, j | 0 <= i < j < |runs| :: runs[i].id != runs[j].id
  }

  /** Nothing ran before something it transitively depends on. */
  ghost predicate Consistent(g: Graph<Id>, runs: seq<Ran>) {
    forall i, j | 0 <= i < j < |runs| :: !Reaches(g, runs[i].id, runs[j].id)
  }

  ghost predicate Touches(run: Ran, p: Path) {
    p in Changes(run.op)
  }

  /** Actions with no dependency either way change different user files. */
  ghost predicate UnrelatedAreDisjoint(g: Graph<Id>, runs: seq<Ran>) {
    forall i, j, p | 0 <= i < j < |runs| && Touches(runs[i], p) && Touches(runs[j], p) ::
        Reaches(g, runs[j].id, runs[i].id) || Reaches(g, runs[i].id, runs[j].id)
  }

  lemma {:induction false} Untouched(files: Files, runs: seq<Ran>, p: Path, i: nat, j: nat)
    requires i <= j <= |runs|
    requires forall k | i <= k < j :: !Touches(runs[k], p) && !OwnedBy(p, runs[k].id)
    ensures At(After(files, runs, j), p) == At(After(files, runs, i), p)
    decreases j
  {
    if i < j {
      Untouched(files, runs, p, i, j - 1);
      OnlyOwnPathsChange(After(files, runs, j - 1), runs[j - 1].id, runs[j - 1].op, Moved(None), files, p);
    }
  }

  // ------------------------------------------------------------------ undo invariant

  /** Among the actions that touch p, exactly those from position m on are undone. */
  ghost predicate Splits(runs: seq<Ran>, done: set<int>, p: Path, m: int) {
    forall k | 0 <= k < |runs| && Touches(runs[k], p) :: k in done <==> m <= k
  }

  /** Each user file is as it was before the first undone action that touched it. */
  ghost predicate UserFilesBack(files: Files, runs: seq<Ran>, done: set<int>, cur: Files) {
    forall p: Path, m {:trigger Splits(runs, done, p, m)} | p.Sandbox? && 0 <= m <= |runs|
        && Splits(runs, done, p, m) ::
      At(cur, p) == At(After(files, runs, m), p)
  }

  /** Backups and trash of what is not undone yet are as the runs left them. */
  ghost predicate OwnedKept(files: Files, runs: seq<Ran>, done: set<int>, cur: Files) {
    forall i, p {:trigger OwnedBy(p, runs[i].id)} | 0 <= i < |runs| && i !in done && OwnedBy(p, runs[i].id) ::
      At(cur, p) == At(After(files, runs, i + 1), p)
  }

  ghost predicate Undoing(files: Files, runs: seq<Ran>, done: set<int>, cur: Files) {
    UserFilesBack(files, runs, done, cur) && OwnedKept(files, runs, done, cur)
  }

  lemma NothingUndone(files: Files, runs: seq<Ran>)
    requires OncePerId(runs)
    ensures Undoing(files, runs, {}, After(files, runs, |runs|))
  {
    var n := |runs|;
    forall p: Path, m | p.Sandbox? && 0 <= m <= n && Splits(runs, {}, p, m)
      ensures At(After(files, runs, n), p) == At(After(files, runs, m), p)
    {
      Untouched(files, runs, p, m, n);
    }
    forall i, p | 0 <= i < n && OwnedBy(p, runs[i].id)
      ensures At(After(files, runs, n), p) == At(After(files, runs, i + 1), p)
    {
      Untouched(files, runs, p, i + 1, n);
    }
  }

  /** Everything that ran later and shares a file with action i is undone, and nothing
      that ran earlier is: what the compensation order provides. */
  ghost predicate Turn(runs: seq<Ran>, done: set<int>, i: int) {
    0 <= i < |runs| && i !in done &&
    forall k, p | 0 <= k < |runs| && k != i && Touches(runs[k], p) && Touches(runs[i], p) :: k in done <==> i < k
  }

  lemma TurnSplits(runs: seq<Ran>, done: set<int>, i: int, p: Path)
    requires Turn(runs, done, i) && Touches(runs[i], p)
    ensures Splits(runs, done, p, i + 1)
  {
  }

  /** Undoing one action, in its turn, puts its user files back. */
  lemma UndoOne(files: Files, runs: seq<Ran>, done: set<int>, cur: Files, i: int)
    requires AllFound(files, runs) && Undoing(files, runs, done, cur) && Turn(runs, done, i)
    ensures AgreeOn(F.Undo(cur, runs[i].op, OutputAt(After(files, runs, i), runs[i])), After(files, runs, i),
            Changes(runs[i].op))
  {
    var run, before := runs[i], After(files, runs, i);
    assert Exec(before, run.id, run.op).1.Ok? && Found(before, run.op);
    assert After(files, runs, i + 1) == Exec(before, run.id, run.op).0;
    forall p | p in Changes(run.op) ensures At(cur, p) == At(After(files, runs, i + 1), p) {
      assert Touches(run, p);
      TurnSplits(runs, done, i, p);
    }
    UndoRestores(before, run.id, run.op, OutputAt(before, run), cur);
  }

  lemma UndoKeepsUserFiles(files: Files, runs: seq<Ran>, done: set<int>, cur: Files, i: int)
    requires AllFound(files, runs) && Undoing(files, runs, done, cur) && Turn(runs, done, i)
    ensures UserFilesBack(files, runs, done + {i}, F.Undo(cur, runs[i].op, OutputAt(After(files, runs, i), runs[i])))
  {
    var run, before := runs[i], After(files, runs, i);
    var out := OutputAt(before, run);
    var after := F.Undo(cur, run.op, out);
    assert Exec(before, run.id, run.op).1.Ok?;
    UndoOne(files, runs, done, cur, i);
    forall p: Path, m | p.Sandbox? && 0 <= m <= |runs| && Splits(runs, done + {i}, p, m)
      ensures At(after, p) == At(After(files, runs, m), p)
    {
      if Touches(run, p) {
        assert i in done + {i} && m <= i;
        forall k | m <= k < i ensures !Touches(runs[k], p) && !OwnedBy(p, runs[k].id) {
          assert Touches(runs[k], p) ==> (k in done + {i} <==> m <= k) && (k in done <==> i < k);
        }
        Untouched(files, runs, p, m, i);
      } else {
        UserPathsStayUsers(before, run.id, run.op, out, cur, p);
        forall k | 0 <= k < |runs| && Touches(runs[k], p) ensures k in done <==> m <= k {}
        assert Splits(runs, done, p, m);
      }
    }
  }

  lemma UndoKeepsOwned(files: Files, runs: seq<Ran>, done: set<int>, cur: Files, i: int)
    requires AllFound(files, runs) && OncePerId(runs) && OwnedKept(files, runs, done, cur) && 0 <= i < |runs|
    ensures OwnedKept(files, runs, done + {i}, F.Undo(cur, runs[i].op, OutputAt(After(files, runs, i), runs[i])))
  {
    var run, before := runs[i], After(files, runs, i);
    var out := OutputAt(before, run);
    assert Exec(before, run.id, run.op).1.Ok?;
    forall j, p | 0 <= j < |runs| && j !in done + {i} && OwnedBy(p, runs[j].id)
      ensures At(F.Undo(cur, run.op, out), p) == At(After(files, runs, j + 1), p)
    {
      assert j != i && runs[j].id != run.id;
      OnlyOwnPathsChange(before, run.id, run.op, out, cur, p);
    }
  }

  // ------------------------------------------------------------------ the theorem

  /** What the rows of the first n actions store: each operation with the output of
      its one execution. */
  ghost predicate RecordedUpTo(files: Files, runs: seq<Ran>, stored: map<Id, (Op, Output)>, n: nat)
    requires n <= |runs|
  {
    && (forall id <- stored :: exists i | 0 <= i < n :: runs[i].id == id)
    && forall i | 0 <= i < n ::
         runs[i].id in stored && stored[runs[i].id] == (runs[i].op, OutputAt(After(files, runs, i), runs[i]))
  }

  ghost predicate Recorded(files: Files, runs: seq<Ran>, stored: map<Id, (Op, Output)>) {
    RecordedUpTo(files, runs, stored, |runs|)
  }

  lemma StoredRun(files: Files, runs: seq<Ran>, stored: map<Id, (Op, Output)>, id: Id) returns (i: int)
    requires Recorded(files, runs, stored) && id in stored
    ensures 0 <= i < |runs| && runs[i].id == id && stored[id] == (runs[i].op, OutputAt(After(files, runs, i), runs[i]))
  {
    i :| 0 <= i < |runs| && runs[i].id == id;
  }

  lemma NotStored(files: Files, runs: seq<Ran>, stored: map<Id, (Op, Output)>, id: Id)
    requires Recorded(files, runs, stored) && id !in stored
    ensures forall i | 0 <= i < |runs| :: runs[i].id != id
  {
  }

  /** The disk after the first n ids of an undo order. */
  function Undone(cur: Files, order: seq<Id>, stored: map<Id, (Op, Output)>, n: nat): Files
    requires n <= |order|
  {
    if n == 0 then cur
    else
      var before := Undone(cur, order, stored, n - 1);
      if order[n - 1] in stored then F.Undo(before, stored[order[n - 1]].0, stored[order[n - 1]].1) else before
  }

  ghost function DoneAt(runs: seq<Ran>, order: seq<Id>, n: nat): set<int>
    requires n <= |order|
  {
    set i | 0 <= i < |runs| && runs[i].id in order[..n]
  }

  lemma ReachedLater(g: Graph<Id>, order: seq<Id>, p: nat, later: Id, q: nat, earlier: Id)
    requires CompensationOrder(g, order) && Reaches(g, later, earlier)
    requires p < |order| && order[p] == later && q < |order| && order[q] == earlier
    ensures p < q
  {
    var walk :| IsWalk(g, walk) && |walk| >= 2 && walk[0] == later && walk[|walk| - 1] == earlier;
    DependentsComeFirst(g, order, walk, p, |walk| - 1);
    var r :| p < r < |order| && order[r] == earlier;
    assert r == q;
  }

  /** The compensation order gives every action its turn. */
  lemma OrderGivesTurn(g: Graph<Id>, runs: seq<Ran>, order: seq<Id>, k: nat, i: int)
    requires CompensationOrder(g, order) && Consistent(g, runs) && UnrelatedAreDisjoint(g, runs)
    requires OncePerId(runs) && forall j | 0 <= j < |runs| :: runs[j].id in g
    requires k < |order| && 0 <= i < |runs| && runs[i].id == order[k]
    ensures Turn(runs, DoneAt(runs, order, k), i)
  {
    var done := DoneAt(runs, order, k);
    forall j, p | 0 <= j < |runs| && j != i && Touches(runs[j], p) && Touches(runs[i], p) ensures j in done <==> i < j {
      assert runs[j].id in order;
      var q :| 0 <= q < |order| && order[q] == runs[j].id;
      if i < j {
        assert !Reaches(g, runs[i].id, runs[j].id) && Reaches(g, runs[j].id, runs[i].id);
        ReachedLater(g, order, q, runs[j].id, k, runs[i].id);
        assert order[..k][q] == runs[j].id;
      } else {
        assert !Reaches(g, runs[j].id, runs[i].id) && Reaches(g, runs[i].id, runs[j].id);
        ReachedLater(g, order, k, runs[i].id, q, runs[j].id);
      }
    }
  }

  lemma {:induction false} UndoingAt(g: Graph<Id>, files: Files, runs: seq<Ran>, order: seq<Id>,
                                     stored: map<Id, (Op, Output)>, n: nat)
    requires AllFound(files, runs) && OncePerId(runs) && Recorded(files, runs, stored)
    requires CompensationOrder(g, order) && Consistent(g, runs) && UnrelatedAreDisjoint(g, runs)
    requires forall j | 0 <= j < |runs| :: runs[j].id in g
    requires n <= |order|
    ensures Undoing(files, runs, DoneAt(runs, order, n), Undone(After(files, runs, |runs|), order, stored, n))
  {
    hide Undoing, AllFound, Recorded, Consistent, UnrelatedAreDisjoint, CompensationOrder, OncePerId;
    if n == 0 {
      NothingUndone(files, runs);
      assert DoneAt(runs, order, 0) == {};
    } else {
      UndoingAt(g, files, runs, order, stored, n - 1);
      UndoingNext(g, files, runs, order, stored, n - 1, Undone(After(files, runs, |runs|), order, stored, n - 1));
    }
  }

  lemma DoneNext(runs: seq<Ran>, order: seq<Id>, n: nat, i: int)
    requires n < |order| && OncePerId(runs) && 0 <= i < |runs| && runs[i].id == order[n]
    ensures DoneAt(runs, order, n + 1) == DoneAt(runs, order, n) + {i}
  {
    assert order[..n + 1] == order[..n] + [order[n]];
  }

  lemma DoneStays(runs: seq<Ran>, order: seq<Id>, n: nat)
    requires n < |order| && forall i | 0 <= i < |runs| :: runs[i].id != order[n]
    ensures DoneAt(runs, order, n + 1) == DoneAt(runs, order, n)
  {
    assert order[..n + 1] == order[..n] + [order[n]];
  }

  lemma UndoingNext(g: Graph<Id>, files: Files, runs: seq<Ran>, order: seq<Id>, stored: map<Id, (Op, Output)>, n: nat,
                    cur: Files)
    requires AllFound(files, runs) && OncePerId(runs) && Recorded(files, runs, stored)
    requires CompensationOrder(g, order) && Consistent(g, runs) && UnrelatedAreDisjoint(g, runs)
    requires forall j | 0 <= j < |runs| :: runs[j].id in g
    requires n < |order| && Undoing(files, runs, DoneAt(runs, order, n), cur)
    ensures Undoing(files, runs, DoneAt(runs, order, n + 1),
                    if order[n] in stored then F.Undo(cur, stored[order[n]].0, stored[order[n]].1) else cur)
  {
    hide UserFilesBack, OwnedKept, AllFound, Recorded, Turn, Consistent, UnrelatedAreDisjoint, CompensationOrder;
    hide DoneAt, OncePerId, F.Undo, OutputAt;
    if order[n] in stored {
      var i := StoredRun(files, runs, stored, order[n]);
      var done := DoneAt(runs, order, n);
      OrderGivesTurn(g, runs, order, n, i);
      UndoKeepsUserFiles(files, runs, done, cur, i);
      TurnInRange(runs, done, i);
      UndoKeepsOwned(files, runs, done, cur, i);
      DoneNext(runs, order, n, i);
    } else {
      NotStored(files, runs, stored, order[n]);
      DoneStays(runs, order, n);
    }
  }

  lemma TurnInRange(runs: seq<Ran>, done: set<int>, i: int)
    requires Turn(runs, done, i)
    ensures 0 <= i < |runs| && i !in done
  {
  }

  /** Undo restores the start: for any dependency graph, any files, and any actions that
      each ran once in an order consistent with the graph and found their source, where
      actions unrelated by dependency change different files, compensating them in the
      compensation order gives back every original file. */
  lemma CancelRestoresTheStart(g: Graph<Id>, files: Files, runs: seq<Ran>, order: seq<Id>,
                               stored: map<Id, (Op, Output)>)
    requires AllFound(files, runs) && OncePerId(runs) && Recorded(files, runs, stored)
    requires CompensationOrder(g, order) && Consistent(g, runs) && UnrelatedAreDisjoint(g, runs)
    requires forall j | 0 <= j < |runs| :: runs[j].id in g
    ensures SameForUser(Undone(After(files, runs, |runs|), order, stored, |order|), files)
  {
    UndoingAt(g, files, runs, order, stored, |order|);
    var done := DoneAt(runs, order, |order|);
    assert order[..|order|] == order;
    forall p: Path | p.Sandbox?
      ensures At(Undone(After(files, runs, |runs|), order, stored, |order|), p) == At(files, p)
    {
      assert Splits(runs, done, p, 0);
    }
  }

  /** A pass that stops early, or an undo that fails, leaves each user file as it was
      before the first undone action that touched it. */
  lemma PartialUndo(g: Graph<Id>, files: Files, runs: seq<Ran>, order: seq<Id>, stored: map<Id, (Op, Output)>, n: nat,
                    p: Path, m: nat)
    requires AllFound(files, runs) && OncePerId(runs) && Recorded(files, runs, stored)
    requires CompensationOrder(g, order) && Consistent(g, runs) && UnrelatedAreDisjoint(g, runs)
    requires forall j | 0 <= j < |runs| :: runs[j].id in g
    requires n <= |order| && m <= |runs| && p.Sandbox?
    requires forall k | 0 <= k < |runs| && Touches(runs[k], p) :: runs[k].id in order[..n] <==> m <= k
    ensures At(Undone(After(files, runs, |runs|), order, stored, n), p) == At(After(files, runs, m), p)
  {
    UndoingAt(g, files, runs, order, stored, n);
    assert Splits(runs, DoneAt(runs, order, n), p, m);
  }

  // ---------------------------------------------------------------- on the disk

  /** Run the actions one by one, storing each output. */
  method ExecuteAll(disk: Disk, runs: seq<Ran>) returns (stored: map<Id, (Op, Output)>)
    requires AllFound(disk.files, runs) && OncePerId(runs)
    modifies disk
    ensures disk.files == After(old(disk.files), runs, |runs|) && Recorded(old(disk.files), runs, stored)
  {
    hide Exec, Found, OutputAt, AllFound, RecordedUpTo, OncePerId;
    ghost var files := disk.files;
    stored := map[];
    NothingRecorded(files, runs);
    for i := 0 to |runs|
      invariant disk.files == After(files, runs, i) && RecordedUpTo(files, runs, stored, i)
    {
      var run := runs[i];
      FoundAt(files, runs, i);
      var r := disk.Execute(run.id, run.op);
      RecordNext(files, runs, stored, i, r);
      stored := stored[run.id := (run.op, r.value)];
    }
  }

  lemma NothingRecorded(files: Files, runs: seq<Ran>)
    ensures RecordedUpTo(files, runs, map[], 0)
  {
  }

  lemma FoundAt(files: Files, runs: seq<Ran>, i: nat)
    requires AllFound(files, runs) && i < |runs|
    ensures Exec(After(files, runs, i), runs[i].id, runs[i].op).1.Ok?
    ensures After(files, runs, i + 1) == Exec(After(files, runs, i), runs[i].id, runs[i].op).0
  {
  }

  lemma RecordNext(files: Files, runs: seq<Ran>, stored: map<Id, (Op, Output)>, i: nat, r: Result<Output, ToolError>)
    requires i < |runs| && OncePerId(runs) && RecordedUpTo(files, runs, stored, i)
    requires r == Exec(After(files, runs, i), runs[i].id, runs[i].op).1 && r.Ok?
    ensures RecordedUpTo(files, runs, stored[runs[i].id := (runs[i].op, r.value)], i + 1)
  {
    hide Exec, After;
    var stored' := stored[runs[i].id := (runs[i].op, r.value)];
    assert OutputAt(After(files, runs, i), runs[i]) == r.value;
    forall id | id in stored' ensures exists j | 0 <= j < i + 1 :: runs[j].id == id {
      if id in stored { var j :| 0 <= j < i && runs[j].id == id; }
    }
  }

  /** The compensation loop over `reverse_topo`, as it meets the disk. */
  method CancelAll(disk: Disk, nodes: seq<Dag.Node<Id>>, stored: map<Id, (Op, Output)>, ghost files: Files,
                   ghost runs: seq<Ran>)
    requires Dag.Acyclic(nodes) && AllFound(files, runs) && OncePerId(runs) && Recorded(files, runs, stored)
    requires Consistent(Dag.GraphOf(nodes), runs) && UnrelatedAreDisjoint(Dag.GraphOf(nodes), runs)
    requires forall j | 0 <= j < |runs| :: runs[j].id in Dag.GraphOf(nodes)
    requires disk.files == After(files, runs, |runs|)
    modifies disk
    ensures SameForUser(disk.files, files)
  {
    hide Dag.Acyclic, Consistent, UnrelatedAreDisjoint, Dag.GraphOf, CompensationOrder, AllFound, Recorded, OncePerId;
    hide After, Exec, F.Undo, OutputOf, SameForUser;
    var sorted := Dag.ReverseTopo(nodes);
    var order := sorted.value;
    ghost var start := disk.files;
    for k := 0 to |order|
      invariant disk.files == Undone(start, order, stored, k)
    {
      if order[k] in stored {
        ghost var i := StoredRun(files, runs, stored, order[k]);
        FoundAt(files, runs, i);
        ExecutionOutput(After(files, runs, i), runs[i].id, runs[i].op);
        disk.Compensate(order[k], stored[order[k]].0, stored[order[k]].1);
      }
    }
    CancelRestoresTheStart(Dag.GraphOf(nodes), files, runs, order, stored);
  }
}
