/** The transactional restore (`restore_encrypted_backup` in `botparty_robot/backup.py`). */
module Restore {
  import opened Prelude

  datatype Owner = Owner(uid: nat, gid: nat)

  datatype Node = Node(content: seq<nat>, mode: nat, owner: Owner)

  /** `BackupOf(p)` is `p` with `.before-restore` added to its name. */
  datatype Path = File(name: nat) | BackupOf(path: Path)

  datatype Target = Target(path: Path, node: Node)

  /** Where the first error is raised, if at all. A failing backup write may or may not have put the
      backup in place. */
  datatype Fault = NoFault | InPrepare(index: nat) | InBackup(index: nat, written: bool) | InReplace(index: nat)

  /** The process: only root can give files away, all other files belong to the process itself. */
  datatype Process = Process(root: bool, me: Owner)

  type Files = map<Path, Node>

  function As(p: Process, n: Node): Node { if p.root then n else n.(owner := p.me) }

  const PRIVATE: nat := 0x180 // 0600 in octal

  function BackupNode(p: Process, was: Node): Node { As(p, Node(was.content, PRIVATE, was.owner)) }

  predicate IsTarget(targets: seq<Target>, path: Path) {
    exists i :: 0 <= i < |targets| && targets[i].path == path
  }

  /** Distinct targets, none of them the backup of another. */
  ghost predicate TargetsOk(targets: seq<Target>) {
    && (forall i, j :: 0 <= i < j < |targets| ==> targets[i].path != targets[j].path)
    && (forall i, j :: 0 <= i < |targets| && 0 <= j < |targets| ==> targets[i].path != BackupOf(targets[j].path))
  }

  /** The error is really raised: a backup is only written for a target that existed. */
  predicate Raises(f: Fault, files: Files, targets: seq<Target>) {
    match f
    case NoFault => false
    case InPrepare(i) => i < |targets|
    case InBackup(i, _) => i < |targets| && targets[i].path in files
    case InReplace(i) => i < |targets|
  }

  /** How many targets had been replaced when the error was raised. */
  function Replaced(f: Fault): nat {
    match f
    case InBackup(i, _) => i
    case InReplace(i) => i
    case _ => 0
  }

  ghost predicate SameAt(a: Files, b: Files, path: Path) {
    (path in a <==> path in b) && (path in a ==> a[path] == b[path])
  }

  /** Same presence, content and mode; the owner may have become the process. */
  ghost predicate SameButOwner(p: Process, before: Files, after: Files, path: Path, touched: bool) {
    && (path in before <==> path in after)
    && (path in before ==> after[path] == if touched then As(p, before[path]) else before[path])
  }

  /** Everything but the targets and their backups is left alone. */
  ghost predicate OthersKept(before: Files, after: Files, targets: seq<Target>) {
    forall path :: !IsTarget(targets, path) && !(path.BackupOf? && IsTarget(targets, path.path)) ==>
      SameAt(before, after, path)
  }

  /** The owners of the files that had been replaced allow an exact undo. A caller can evaluate this
      before the call: a non-root process must own the files it replaces. */
  predicate UndoIsExact(p: Process, files: Files, targets: seq<Target>, replaced: nat) {
    p.root || forall i :: 0 <= i < |targets| && i < replaced && targets[i].path in files ==>
      files[targets[i].path].owner == p.me
  }

  // ---- Spec of the loops ----

  /** The first `k` targets replaced, the others untouched; existing ones backed up. */
  ghost predicate Progress(p: Process, before: Files, now: Files, targets: seq<Target>, k: nat) {
    && (forall i :: 0 <= i < |targets| && i < k ==>
          targets[i].path in now && now[targets[i].path] == As(p, targets[i].node))
    && (forall i :: k <= i < |targets| ==> SameAt(before, now, targets[i].path))
    && (forall i :: 0 <= i < |targets| && i < k && targets[i].path in before ==>
          BackupOf(targets[i].path) in now && now[BackupOf(targets[i].path)] == BackupNode(p, before[targets[i].path]))
    && OthersKept(before, now, targets)
  }

  /** After undoing targets `u..k`, the first `u` are still replaced. */
  ghost predicate Undone(p: Process, before: Files, now: Files, targets: seq<Target>, u: nat, k: nat) {
    && (forall i :: u <= i < |targets| ==> SameButOwner(p, before, now, targets[i].path, i < k))
    && OthersKept(before, now, targets)
  }

  class FileSystem {
    var files: Files

    constructor (files: Files)
      ensures this.files == files
    {
      this.files := files;
    }

    /** `_write_private_file`: a temporary file renamed over the target. */
    method WritePrivate(p: Process, path: Path, node: Node)
      modifies this
      ensures files == old(files)[path := As(p, node)]
    {
      files := files[path := if p.root then node else node.(owner := p.me)];
    }

    /** The prepare loop: remember what was there. The temporary files are not part of the model. */
    method Prepare(targets: seq<Target>, f: Fault) returns (ok: bool, previous: seq<Option<Node>>)
      ensures ok <==> !(f.InPrepare? && f.index < |targets|)
      ensures ok ==> |previous| == |targets|
      ensures ok ==> forall i :: 0 <= i < |targets| ==>
                previous[i] == if targets[i].path in files then Some(files[targets[i].path]) else None
    {
      previous := [];
      var i := 0;
      while i < |targets|
        invariant 0 <= i <= |targets| && |previous| == i
        invariant f.InPrepare? && f.index < |targets| ==> i <= f.index
        invariant forall j :: 0 <= j < i ==>
                    previous[j] == if targets[j].path in files then Some(files[targets[j].path]) else None
      {
        previous := previous + [if targets[i].path in files then Some(files[targets[i].path]) else None];
        if f == InPrepare(i) {
          return false, previous;
        }
        i := i + 1;
      }
      ok := true;
    }

    /** The replace loop: back up, then rename the prepared file over the target. */
    method Replace(p: Process, targets: seq<Target>, previous: seq<Option<Node>>, f: Fault)
      returns (ok: bool, replaced: nat)
      requires TargetsOk(targets) && |previous| == |targets| && !f.InPrepare?
      requires forall i :: 0 <= i < |targets| ==>
                 previous[i] == if targets[i].path in files then Some(files[targets[i].path]) else None
      modifies this
      ensures ok <==> !Raises(f, old(files), targets)
      ensures replaced == if Raises(f, old(files), targets) then Replaced(f) else |targets|
      ensures Progress(p, old(files), files, targets, replaced)
    {
      ok, replaced := false, 0;
      while replaced < |targets|
        invariant 0 <= replaced <= |targets|
        invariant Raises(f, old(files), targets) ==> replaced <= f.index
        invariant Progress(p, old(files), files, targets, replaced)
        decreases |targets| - replaced
      {
        var target := targets[replaced];
        var was := previous[replaced];
        assert SameAt(old(files), files, target.path);
        ghost var start := files;
        if was.Some? {
          if f.InBackup? && f.index == replaced && !f.written {
            return;
          }
          WritePrivate(p, BackupOf(target.path), Node(was.value.content, PRIVATE, was.value.owner));
          BackupKeeps(p, old(files), start, targets, replaced, files);
          if f.InBackup? && f.index == replaced {
            return;
          }
        }
        if f == InReplace(replaced) {
          return;
        }
        ghost var backedUp := files;
        files := files[target.path := As(p, target.node)];
        ReplaceKeeps(p, old(files), backedUp, targets, replaced, files);
        replaced := replaced + 1;
      }
      ok := true;
    }

    /** The undo loop, in reverse order; its writes are assumed to succeed. */
    method Undo(p: Process, targets: seq<Target>, previous: seq<Option<Node>>, replaced: nat, ghost before: Files)
      requires TargetsOk(targets) && |previous| == |targets| && replaced <= |targets|
      requires forall i :: 0 <= i < |targets| ==>
                 previous[i] == if targets[i].path in before then Some(before[targets[i].path]) else None
      requires Progress(p, before, files, targets, replaced)
      modifies this
      ensures Undone(p, before, files, targets, 0, replaced)
    {
      var u := replaced;
      while u > 0
        invariant 0 <= u <= replaced
        invariant Undone(p, before, files, targets, u, replaced)
      {
        u := u - 1;
        ghost var start := files;
        if previous[u].None? {
          files := files - {targets[u].path};
        } else {
          WritePrivate(p, targets[u].path, previous[u].value);
        }
        UndoKeeps(p, before, start, targets, u, replaced, files);
      }
    }

    /**
     The whole restore. Main result: without an error every target is new and every file it replaced
     is kept as a backup; with an error at any point every target has its old content and mode or is
     absent again, and its old owner too exactly when `UndoIsExact`.
     */
    method RestoreAll(p: Process, targets: seq<Target>, f: Fault) returns (ok: bool)
      requires TargetsOk(targets)
      modifies this
      ensures ok <==> !Raises(f, old(files), targets)
      ensures ok ==> Progress(p, old(files), files, targets, |targets|)
      ensures !ok ==> Undone(p, old(files), files, targets, 0, Replaced(f))
      ensures !ok ==>
                ((forall i :: 0 <= i < |targets| ==> SameAt(old(files), files, targets[i].path))
                 <==> UndoIsExact(p, old(files), targets, Replaced(f)))
      ensures OthersKept(old(files), files, targets)
      // The same, field by field.
      ensures ok <==> match f
                      case NoFault => true
                      case InBackup(i, _) => i >= |targets| || targets[i].path !in old(files)
                      case InPrepare(i) => i >= |targets|
                      case InReplace(i) => i >= |targets|
      ensures ok ==> forall i :: 0 <= i < |targets| ==>
                var path, node := targets[i].path, targets[i].node;
                && path in files && files[path].content == node.content && files[path].mode == node.mode
                && files[path].owner == (if p.root then node.owner else p.me)
                && (path in old(files) ==>
                      && BackupOf(path) in files && files[BackupOf(path)].content == old(files)[path].content
                      && files[BackupOf(path)].mode == 0x180)
      ensures !ok ==> forall i :: 0 <= i < |targets| ==>
                var path := targets[i].path;
                && (path in files <==> path in old(files))
                && (path in files ==> files[path].content == old(files)[path].content
                                      && files[path].mode == old(files)[path].mode
                                      && files[path].owner in {old(files)[path].owner, p.me})
    {
      var previous;
      ok, previous := Prepare(targets, f);
      if !ok {
        ExactUndo(p, old(files), files, targets, 0);
        return;
      }
      var fault := if f.InPrepare? then NoFault else f;
      var replaced;
      ok, replaced := Replace(p, targets, previous, fault);
      if !ok {
        Undo(p, targets, previous, replaced, old(files));
        ExactUndo(p, old(files), files, targets, replaced);
      }
    }
  }

  lemma BackupKeeps(p: Process, before: Files, now: Files, targets: seq<Target>, k: nat, after: Files)
    requires TargetsOk(targets) && k < |targets| && Progress(p, before, now, targets, k)
    requires targets[k].path in before
    requires after == now[BackupOf(targets[k].path) := BackupNode(p, before[targets[k].path])]
    ensures Progress(p, before, after, targets, k)
  {
    assert IsTarget(targets, targets[k].path);
  }

  lemma ReplaceKeeps(p: Process, before: Files, now: Files, targets: seq<Target>, k: nat, after: Files)
    requires TargetsOk(targets) && k < |targets| && Progress(p, before, now, targets, k)
    requires after == now[targets[k].path := As(p, targets[k].node)]
    requires targets[k].path in before ==>
               && BackupOf(targets[k].path) in now
               && now[BackupOf(targets[k].path)] == BackupNode(p, before[targets[k].path])
    ensures Progress(p, before, after, targets, k + 1)
  {
    assert IsTarget(targets, targets[k].path);
  }

  lemma UndoKeeps(p: Process, before: Files, now: Files, targets: seq<Target>, u: nat, k: nat, after: Files)
    requires TargetsOk(targets) && u < k <= |targets| && Undone(p, before, now, targets, u + 1, k)
    requires after == if targets[u].path in before then now[targets[u].path := As(p, before[targets[u].path])]
                      else now - {targets[u].path}
    ensures Undone(p, before, after, targets, u, k)
  {
    assert IsTarget(targets, targets[u].path);
  }

  lemma ExactUndo(p: Process, before: Files, after: Files, targets: seq<Target>, k: nat)
    requires Undone(p, before, after, targets, 0, k)
    ensures (forall i :: 0 <= i < |targets| ==> SameAt(before, after, targets[i].path))
            <==> UndoIsExact(p, before, targets, k)
  {
    if forall i :: 0 <= i < |targets| ==> SameAt(before, after, targets[i].path) {
      forall i | 0 <= i < |targets| && i < k && targets[i].path in before && !p.root
        ensures before[targets[i].path].owner == p.me
      {
        assert SameAt(before, after, targets[i].path) && SameButOwner(p, before, after, targets[i].path, true);
      }
    } else {
      var i :| 0 <= i < |targets| && !SameAt(before, after, targets[i].path);
      assert SameButOwner(p, before, after, targets[i].path, i < k);
    }
  }
}
