/** The reversible file tools over a flat map of files, and what undoing one
    execution restores (vyomel/tools/fs.py). */
module FileTools {
  import opened Wrappers
  import opened Model

  type Bytes = seq<bv8>

  /** A file under the allowed roots, the backup of an action, or a file in its trash slot. */
  datatype Path = Sandbox(name: string) | Backup(action: Id) | Trash(action: Id, name: string)

  type Files = map<Path, Bytes>

  const MAX_WRITE_BYTES: nat := 8_000_000

  datatype Op =
    | Write(path: string, payload: Bytes)
    | Move(src: string, dest: string)
    | Copy(src: string, dest: string)
    | Delete(path: string)

  datatype Output =
    | Wrote(created: bool, backup: Option<Path>)
    | Moved(backup: Option<Path>)
    | Copied(created: bool, backup: Option<Path>)
    | Deleted(trashedTo: Path)

  datatype ToolError = TooLarge | SourceMissing | SameFile

  /** The last component of a path. */
  function BaseName(path: string): string {
    if path == "" || path[|path| - 1] == '/' then "" else BaseName(path[..|path| - 1]) + [path[|path| - 1]]
  }

  // ------------------------------------------------------------------ one execution

  function At(files: Files, p: Path): Option<Bytes> {
    if p in files then Some(files[p]) else None
  }

  /** Moving a file onto itself leaves it alone. */
  function Renamed(files: Files, src: Path, dest: Path): Files
    requires src in files
  {
    if src == dest then files else (files - {src})[dest := files[src]]
  }

  function BackedUp(files: Files, a: Id, target: Path): Files {
    if target in files then files[Backup(a) := files[target]] else files
  }

  function BackupOf(files: Files, a: Id, target: Path): Option<Path> {
    if target in files then Some(Backup(a)) else None
  }

  /** The files after `execute`, and what it reports; a failure may leave a backup behind. */
  function Exec(files: Files, a: Id, op: Op): (Files, Result<Output, ToolError>) {
    match op
    case Write(path, payload) =>
      var target := Sandbox(path);
      if |payload| > MAX_WRITE_BYTES then (files, Err(TooLarge))
      else (BackedUp(files, a, target)[target := payload], Ok(Wrote(target !in files, BackupOf(files, a, target))))
    case Move(src, dest) =>
      var s, d := Sandbox(src), Sandbox(dest);
      if s !in files then (files, if d in files then Ok(Moved(None)) else Err(SourceMissing))
      else (Renamed(BackedUp(files, a, d), s, d), Ok(Moved(BackupOf(files, a, d))))
    case Copy(src, dest) =>
      var s, d := Sandbox(src), Sandbox(dest);
      if s !in files then (files, Err(SourceMissing))
      else if s == d then (BackedUp(files, a, d), Err(SameFile))
      else (BackedUp(files, a, d)[d := files[s]], Ok(Copied(d !in files, BackupOf(files, a, d))))
    case Delete(path) =>
      var target, slot := Sandbox(path), Trash(a, BaseName(path));
      if target in files then (Renamed(files, target, slot), Ok(Deleted(slot)))
      else (files, if slot in files then Ok(Deleted(slot)) else Err(SourceMissing))
  }

  function Restored(files: Files, backup: Option<Path>, dest: Path): Files {
    if backup.Some? && backup.value in files then files[dest := files[backup.value]] else files
  }

  /** `compensate`, with the output that `execute` stored. */
  function Undo(files: Files, op: Op, out: Output): Files {
    match (op, out)
    case (Write(path, _), Wrote(created, backup)) =>
      if created then files - {Sandbox(path)} else Restored(files, backup, Sandbox(path))
    case (Move(src, dest), Moved(backup)) =>
      var s, d := Sandbox(src), Sandbox(dest);
      Restored(if d in files && s !in files then Renamed(files, d, s) else files, backup, d)
    case (Copy(_, dest), Copied(created, backup)) =>
      if created then files - {Sandbox(dest)} else Restored(files, backup, Sandbox(dest))
    case (Delete(path), Deleted(trashed)) =>
      if trashed in files && Sandbox(path) !in files then Renamed(files, trashed, Sandbox(path)) else files
    case _ => files
  }

  // ------------------------------------------------------------------- footprints

  /** The user's paths an operation may change. */
  function Changes(op: Op): set<Path> {
    match op
    case Write(path, _) => {Sandbox(path)}
    case Move(src, dest) => {Sandbox(src), Sandbox(dest)}
    case Copy(_, dest) => {Sandbox(dest)}
    case Delete(path) => {Sandbox(path)}
  }

  predicate OwnedBy(p: Path, a: Id) {
    (p.Backup? || p.Trash?) && p.action == a
  }

  /** The operation acted on what it was asked to act on, rather than replaying. */
  predicate Found(files: Files, op: Op) {
    match op
    case Write(_, _) => true
    case Move(src, _) => Sandbox(src) in files
    case Copy(src, _) => Sandbox(src) in files
    case Delete(path) => Sandbox(path) in files
  }

  /** The last component: what follows the last separator. */
  lemma {:induction false} BaseNameMeans(path: string)
    ensures |BaseName(path)| <= |path| && path[|path| - |BaseName(path)|..] == BaseName(path)
    ensures '/' !in BaseName(path)
    ensures |BaseName(path)| < |path| ==> path[|path| - |BaseName(path)| - 1] == '/'
    decreases |path|
  {
    if path != "" && path[|path| - 1] != '/' {
      var n := |path| - 1;
      BaseNameMeans(path[..n]);
      assert path == path[..n] + [path[n]];
    }
  }

  /** What a successful execution does, file by file: the payload is written; the
      destination holds what the source held, and a moved source is gone; a deleted file is
      gone from its place and lies in the action's trash; and whatever was overwritten is in
      the action's backup. Without a source nothing happens, and a failure changes no user
      file. */
  lemma ExecutionPerforms(files: Files, a: Id, op: Op)
    ensures var (after, r) := Exec(files, a, op);
            match op
            case Write(path, payload) =>
              && (r.Ok? <==> |payload| <= 8_000_000)
              && (r.Ok? ==> At(after, Sandbox(path)) == Some(payload))
              && (r.Ok? && Sandbox(path) in files ==> At(after, Backup(a)) == At(files, Sandbox(path)))
            case Move(src, dest) =>
              && (r.Ok? <==> Sandbox(src) in files || Sandbox(dest) in files)
              && (Sandbox(src) in files ==>
                    && At(after, Sandbox(dest)) == At(files, Sandbox(src))
                    && (src != dest ==> Sandbox(src) !in after)
                    && (Sandbox(dest) in files ==> At(after, Backup(a)) == At(files, Sandbox(dest))))
              && (Sandbox(src) !in files ==> after == files)
            case Copy(src, dest) =>
              && (r.Ok? <==> Sandbox(src) in files && src != dest)
              && (r.Ok? ==>
                    && At(after, Sandbox(dest)) == At(files, Sandbox(src)) == At(after, Sandbox(src))
                    && (Sandbox(dest) in files ==> At(after, Backup(a)) == At(files, Sandbox(dest))))
            case Delete(path) =>
              && (r.Ok? <==> Sandbox(path) in files || Trash(a, BaseName(path)) in files)
              && (Sandbox(path) in files ==>
                    Sandbox(path) !in after && At(after, Trash(a, BaseName(path))) == At(files, Sandbox(path)))
              && (Sandbox(path) !in files ==> after == files)
    ensures Exec(files, a, op).1.Err? ==> forall p: Path | p.Sandbox? :: At(Exec(files, a, op).0, p) == At(files, p)
  {
  }

  /** Undoing never writes over a source that somebody has put back. */
  lemma UndoKeepsNewSource(cur: Files, op: Op, out: Output)
    ensures op.Delete? && Sandbox(op.path) in cur ==> Undo(cur, op, out) == cur
    ensures op.Move? && Sandbox(op.src) in cur && op.src != op.dest ==>
              At(Undo(cur, op, out), Sandbox(op.src)) == At(cur, Sandbox(op.src))
              || (out.Moved? && out.backup == Some(Sandbox(op.src)))
  {
  }

  /** Nothing but its own paths is changed by an execution or by its undoing. */
  lemma OnlyOwnPathsChange(files: Files, a: Id, op: Op, out: Output, cur: Files, p: Path)
    requires p !in Changes(op) && !OwnedBy(p, a)
    ensures At(Exec(files, a, op).0, p) == At(files, p)
    ensures Exec(files, a, op).1 == Ok(out) ==> At(Undo(cur, op, out), p) == At(cur, p)
  {
  }

  lemma UserPathsStayUsers(files: Files, a: Id, op: Op, out: Output, cur: Files, p: Path)
    requires p !in Changes(op) && p.Sandbox?
    ensures At(Exec(files, a, op).0, p) == At(files, p)
    ensures Exec(files, a, op).1 == Ok(out) ==> At(Undo(cur, op, out), p) == At(cur, p)
  {
    OnlyOwnPathsChange(files, a, op, out, cur, p);
  }

  ghost predicate AgreeOn(x: Files, y: Files, ps: set<Path>) {
    forall p | p in ps :: At(x, p) == At(y, p)
  }

  ghost predicate AgreeOnOwned(x: Files, y: Files, a: Id) {
    forall p | OwnedBy(p, a) :: At(x, p) == At(y, p)
  }

  /** Undoing works from any state that still looks, on the operation's own paths, as
      it was left: a later state will do, if what was done since has been undone. */
  lemma UndoRestores(files: Files, a: Id, op: Op, out: Output, cur: Files)
    requires Found(files, op) && Exec(files, a, op).1 == Ok(out)
    requires AgreeOn(cur, Exec(files, a, op).0, Changes(op)) && AgreeOnOwned(cur, Exec(files, a, op).0, a)
    ensures AgreeOn(Undo(cur, op, out), files, Changes(op))
  {
    var after := Exec(files, a, op).0;
    assert At(cur, Backup(a)) == At(after, Backup(a));
    match op {
      case Delete(path) =>
        assert At(cur, Trash(a, BaseName(path))) == At(after, Trash(a, BaseName(path)));
        assert At(cur, Sandbox(path)) == At(after, Sandbox(path));
      case Move(src, dest) =>
        assert At(cur, Sandbox(src)) == At(after, Sandbox(src)) && At(cur, Sandbox(dest)) == At(after, Sandbox(dest));
      case Write(path, _) => assert At(cur, Sandbox(path)) == At(after, Sandbox(path));
      case Copy(_, dest) => assert At(cur, Sandbox(dest)) == At(after, Sandbox(dest));
    }
  }

  ghost predicate SameForUser(x: Files, y: Files) {
    forall p: Path | p.Sandbox? :: At(x, p) == At(y, p)
  }

  /** One execution and its undoing restore every user file exactly when the
      operation found what it was asked to act on. */
  lemma RoundTripIffFound(files: Files, a: Id, op: Op, out: Output)
    requires Exec(files, a, op).1 == Ok(out)
    ensures SameForUser(Undo(Exec(files, a, op).0, op, out), files) <==> Found(files, op)
  {
    var after := Exec(files, a, op).0;
    if Found(files, op) {
      UndoRestores(files, a, op, out, after);
      forall p: Path | p.Sandbox? ensures At(Undo(after, op, out), p) == At(files, p) {
        if p !in Changes(op) { UserPathsStayUsers(files, a, op, out, after, p); }
      }
    } else {
      var missing := Sandbox(if op.Move? then op.src else op.path);
      assert At(Undo(after, op, out), missing).Some? && At(files, missing).None?;
    }
  }

  /** A second execution by the same action is undone with the second output only.
      It overwrites the first backup, so a write is restored only if it changed
      nothing, a copy likewise, a move only if it overwrote nothing; a delete is
      always restored. */
  predicate SurvivesRetry(files: Files, op: Op) {
    match op
    case Write(path, payload) => At(files, Sandbox(path)) == Some(payload)
    case Copy(src, dest) => At(files, Sandbox(dest)) == At(files, Sandbox(src))
    case Move(src, dest) => src == dest || Sandbox(dest) !in files
    case Delete(_) => true
  }

  lemma RetriedRestoresIff(files: Files, a: Id, op: Op, first: Output, second: Output)
    requires Found(files, op) && Exec(files, a, op).1 == Ok(first)
    requires var once := Exec(files, a, op).0; Exec(once, a, op).1 == Ok(second)
    ensures var once := Exec(files, a, op).0; var twice := Exec(once, a, op).0;
            SameForUser(Undo(twice, op, second), files) <==> SurvivesRetry(files, op)
  {
    var once := Exec(files, a, op).0;
    var twice := Exec(once, a, op).0;
    var undone := Undo(twice, op, second);
    forall p: Path | p.Sandbox? && p !in Changes(op) ensures At(undone, p) == At(files, p) {
      UserPathsStayUsers(files, a, op, first, once, p);
      UserPathsStayUsers(once, a, op, second, twice, p);
    }
    match op {
      case Write(path, _) => assert At(undone, Sandbox(path)) == At(files, Sandbox(path)) <==> SurvivesRetry(files, op);
      case Copy(_, dest) => assert At(undone, Sandbox(dest)) == At(files, Sandbox(dest)) <==> SurvivesRetry(files, op);
      case Move(src, dest) =>
        var back := At(undone, Sandbox(src)) == At(files, Sandbox(src));
        assert back && At(undone, Sandbox(dest)) == At(files, Sandbox(dest)) <==> SurvivesRetry(files, op);
      case Delete(path) => assert At(undone, Sandbox(path)) == At(files, Sandbox(path));
    }
  }
}
