/** `CheckpointStore`: before-turn snapshots of the workspace and their restore, operation by operation.

    Every filesystem operation is one step that may fail; `faults` says which steps do, so a
    statement about every `faults` is a statement about stopping after every prefix of the work.
 */
module Checkpoint {
  import opened Wrappers
  import opened FileTree
  import opened CheckpointWalks
  import opened Retention

  class CheckpointStore {
    /** The workspace, its skipped directories and the checkpoint storage included. */
    var tree: Tree
    /** Set once a workspace was found too large: later turns skip the walk. */
    var oversized: bool
    /** Filesystem operations so far. */
    var clock: nat
    const rules: Rules
    /** How many checkpoints are kept; 0 keeps them all. */
    const max: nat
    const faults: nat -> Fault

    ghost predicate Reliable()
    {
      forall n: nat :: faults(n).NoFault?
    }

    ghost predicate Valid()
      reads this
    {
      ValidStore(tree, rules)
    }

    constructor (workspace: Tree, canLink: bool, reaches: Stat, max: nat, faults: nat -> Fault)
      requires ValidStore(workspace, Rules(canLink, reaches, SKIP_DIRS, SKIP_DIRS_TOP_LEVEL))
      ensures Valid() && tree == workspace && !oversized && this.max == max && this.faults == faults
      ensures rules == Rules(canLink, reaches, SKIP_DIRS, SKIP_DIRS_TOP_LEVEL)
    {
      tree, oversized, clock := workspace, false, 0;
      rules := Rules(canLink, reaches, SKIP_DIRS, SKIP_DIRS_TOP_LEVEL);
      this.max := max;
      this.faults := faults;
    }

    // ----- Filesystem operations

    method Tick() returns (fault: Fault)
      modifies this`clock
      ensures fault == faults(old(clock))
    {
      fault := faults(clock);
      clock := clock + 1;
    }

    /** `fs::remove_file`, for anything that is not a directory. */
    method RemoveFile(p: Path) returns (ok: bool)
      requires p in tree && !tree[p].Dir?
      modifies this`tree, this`clock
      ensures tree == if ok then old(tree) - {p} else old(tree)
      ensures Reliable() ==> ok
    {
      var fault := Tick();
      ok := fault.NoFault?;
      if ok {
        tree := tree - {p};
      }
    }

    /** `fs::remove_dir`, which refuses a directory that is not empty. */
    method RemoveDir(p: Path) returns (ok: bool)
      requires p in tree && tree[p].Dir?
      modifies this`tree, this`clock
      ensures tree == if ok then old(tree) - {p} else old(tree)
      ensures Reliable() ==> (ok <==> ChildNames(old(tree), p) == {})
    {
      var fault := Tick();
      ok := fault.NoFault? && ChildNames(tree, p) == {};
      if ok {
        tree := tree - {p};
      }
    }

    // ----- Clearing the workspace

    /** Empties `dir` of what the snapshot at `Base(id)` can put back; `kept` tells the caller not to
        remove `dir` itself. `full` is the tree the clear started from. */
    method ClearDirContents(id: string, dir: Path, ghost full: Tree, ghost s: Tree)
      returns (ok: bool, kept: bool, report: set<Path>)
      requires ".deep-code" in rules.skipAnywhere
      requires WellFormed(full) && s == Subtree(full, Base(id))
      requires WellFormed(tree) && ClearInProgress(full, s, rules, tree)
      requires dir in tree && tree[dir].Dir? && !Pruned(rules, dir)
      requires forall p :: p in full && dir <= p ==> p in tree
      modifies this`tree, this`clock
      ensures WellFormed(tree) && ClearInProgress(full, s, rules, tree)
      ensures forall p :: p in tree ==> p in old(tree)
      ensures forall p :: p in old(tree) && !(dir < p) ==> p in tree
      ensures ok ==> DoneBelow(full, s, rules, tree, dir, {})
      ensures ok ==> (kept <==> exists p :: p in tree && dir < p)
      ensures ok ==> forall p :: p in report <==> dir < p && Unrestorable(full, s, rules, p)
      ensures Reliable() ==> ok
      decreases Under(full, dir), 1
    {
      kept, report := false, {};
      var fault := Tick();
      ok := fault.NoFault?;
      if !ok {
        return;
      }
      var todo := ChildNames(tree, dir);
      ClearLoopStarts(full, s, rules, tree, dir);
      while todo != {}
        invariant ok
        invariant WellFormed(tree) && ClearInProgress(full, s, rules, tree)
        invariant forall p :: p in tree ==> p in old(tree)
        invariant forall p :: p in old(tree) && !(dir < p) ==> p in tree
        invariant ClearLoop(full, s, rules, tree, dir, todo, kept, report)
        decreases todo
      {
        var n :| n in todo;
        ghost var before := tree;
        forall p
          ensures dir + [n] <= p <==> dir < p && p[|dir|] == n
        {
          FirstNameBelow(dir, n, p);
        }
        var entryKept, below;
        ok, entryKept, below := ClearEntry(id, dir, n, full, s);
        if !ok {
          return;
        }
        ClearLoopStep(full, s, rules, before, tree, dir, todo, n, kept, report, entryKept, below);
        todo, kept, report := todo - {n}, kept || entryKept, report + below;
      }
    }

    /** One iteration of the clear: the entry `n` of `dir`. */
    method ClearEntry(id: string, dir: Path, n: Name, ghost full: Tree, ghost s: Tree)
      returns (ok: bool, kept: bool, report: set<Path>)
      requires ".deep-code" in rules.skipAnywhere
      requires WellFormed(full) && s == Subtree(full, Base(id))
      requires WellFormed(tree) && ClearInProgress(full, s, rules, tree)
      requires dir in tree && tree[dir].Dir? && !Pruned(rules, dir) && dir + [n] in tree
      requires forall p :: p in full && dir + [n] <= p ==> p in tree
      modifies this`tree, this`clock
      ensures WellFormed(tree) && ClearInProgress(full, s, rules, tree)
      ensures forall p :: p in tree ==> p in old(tree)
      ensures forall p :: p in old(tree) && !(dir + [n] <= p) ==> p in tree
      ensures ok ==> forall p :: p in tree && dir + [n] <= p ==> Kept(full, s, rules, p)
      ensures ok ==> (kept <==> dir + [n] in tree)
      ensures ok ==> forall p :: p in report <==> dir + [n] <= p && Unrestorable(full, s, rules, p)
      ensures Reliable() ==> ok
      decreases Under(full, dir), 0
    {
      var path := dir + [n];
      assert Parent(path) == dir;
      PrunedStep(rules, path);
      report := {};
      kept := false;
      var fault := Tick();
      ok := fault.NoFault?;
      if !ok {
        return;
      }
      if ShouldSkip(rules, path) {
        SkippedIsKept(full, s, rules, path);
        kept := true;
        return;
      }
      if tree[path].Dir? {
        ChildIsSmaller(full, dir, n);
        ok, kept, report := ClearSubdir(id, path, full, s);
      } else {
        ok, kept, report := ClearLeaf(id, path, full, s);
      }
    }

    /** A subdirectory is emptied first and removed only when nothing in it was kept: it may hold a
        skipped directory. */
    method ClearSubdir(id: string, path: Path, ghost full: Tree, ghost s: Tree)
      returns (ok: bool, kept: bool, report: set<Path>)
      requires ".deep-code" in rules.skipAnywhere
      requires WellFormed(full) && s == Subtree(full, Base(id))
      requires WellFormed(tree) && ClearInProgress(full, s, rules, tree)
      requires path != [] && path in tree && tree[path].Dir? && !Pruned(rules, path)
      requires forall p :: p in full && path <= p ==> p in tree
      modifies this`tree, this`clock
      ensures WellFormed(tree) && ClearInProgress(full, s, rules, tree)
      ensures forall p :: p in tree ==> p in old(tree)
      ensures forall p :: p in old(tree) && !(path <= p) ==> p in tree
      ensures ok ==> forall p :: p in tree && path <= p ==> Kept(full, s, rules, p)
      ensures ok ==> (kept <==> path in tree)
      ensures ok ==> forall p :: p in report <==> path <= p && Unrestorable(full, s, rules, p)
      ensures Reliable() ==> ok
      decreases Under(full, path), 2
    {
      ok, kept, report := ClearDirContents(id, path, full, s);
      if !ok {
        return;
      }
      SubdirFinished(full, s, rules, tree, path, kept, report);
      if !kept {
        ok := RemoveDir(path);
      }
    }

    /** A file goes; a link or special file goes only where something can be put back. */
    method ClearLeaf(id: string, path: Path, ghost full: Tree, ghost s: Tree)
      returns (ok: bool, kept: bool, report: set<Path>)
      requires ".deep-code" in rules.skipAnywhere
      requires WellFormed(full) && s == Subtree(full, Base(id))
      requires WellFormed(tree) && ClearInProgress(full, s, rules, tree)
      requires path != [] && path in tree && !tree[path].Dir? && !Pruned(rules, path)
      requires forall p :: p in full && path <= p ==> p in tree
      modifies this`tree, this`clock
      ensures WellFormed(tree) && ClearInProgress(full, s, rules, tree)
      ensures forall p :: p in tree ==> p in old(tree)
      ensures forall p :: p in old(tree) && !(path <= p) ==> p in tree
      ensures ok ==> forall p :: p in tree && path <= p ==> Kept(full, s, rules, p)
      ensures ok ==> (kept <==> path in tree)
      ensures ok ==> forall p :: p in report <==> path <= p && Unrestorable(full, s, rules, p)
      ensures Reliable() ==> ok
    {
      SnapshotSurvives(full, s, rules, tree, id);
      LeafHasNothingBelow(full, path);
      var deletable := match tree[path]
        case File(_) => true
        case Symlink(_) => rules.canLink || SnapshotCovers(tree, Base(id), rules, path)
        case _ => SnapshotCovers(tree, Base(id), rules, path);
      ok, kept, report := true, !deletable, if deletable then {} else {path};
      assert deletable <==> !Unrestorable(full, s, rules, path);
      OnlyItself(full, s, rules, path);
      if deletable {
        LeafIsNotKept(full, s, rules, path);
        RemovalKeepsProgress(full, s, rules, tree, path);
        ok := RemoveFile(path);
      }
    }

    // ----- Writing the snapshot back

    /** `fs::create_dir_all` on a path whose parent is already there. It follows links, so nothing on
        the way may be one. */
    method CreateDir(p: Path) returns (ok: bool)
      requires WellFormed(tree) && p != [] && Parent(p) in tree && tree[Parent(p)].Dir?
      requires p in tree ==> tree[p].Dir? || tree[p].File?
      modifies this`tree, this`clock
      ensures WellFormed(tree)
      ensures tree == if ok then old(tree)[p := Dir] else old(tree)
      ensures ok ==> (p in old(tree) ==> old(tree)[p].Dir?)
      ensures Reliable() ==> (ok <==> (p in old(tree) ==> old(tree)[p].Dir?))
    {
      var fault := Tick();
      ok := fault.NoFault? && (p in tree ==> tree[p].Dir?);
      if ok {
        PutKeepsForm(tree, p, Dir);
        tree := tree[p := Dir];
      }
    }

    /** `copy_file_retrying`: replaces a file, refuses a directory, and may fail half way. */
    method CopyFile(source: Path, p: Path) returns (ok: bool)
      requires WellFormed(tree) && p != [] && Parent(p) in tree && tree[Parent(p)].Dir?
      requires source in tree && tree[source].File?
      requires p in tree ==> tree[p].Dir? || tree[p].File?
      modifies this`tree, this`clock
      ensures WellFormed(tree)
      ensures ok ==> tree == old(tree)[p := old(tree)[source]]
      ensures p in old(tree) && old(tree)[p].Dir? ==> !ok && tree == old(tree)
      ensures forall q :: q != p ==> (q in tree <==> q in old(tree)) && (q in tree ==> tree[q] == old(tree)[q])
      ensures !ok ==> tree == old(tree) || p !in tree || tree[p].File?
      ensures Reliable() ==> (ok <==> !(p in old(tree) && old(tree)[p].Dir?))
    {
      var fault := Tick();
      if p in tree && tree[p].Dir? {
        return false;
      }
      ok := fault.NoFault?;
      if fault.NoFault? {
        PutKeepsForm(tree, p, tree[source]);
        tree := tree[p := tree[source]];
      } else if fault.Torn? {
        PutKeepsForm(tree, p, File(fault.content));
        tree := tree[p := File(fault.content)];
      } else if fault.LosesTarget? {
        LeafHasNothingBelow(tree, p);
        RemoveLeafKeepsForm(tree, p);
        tree := tree - {p};
      }
    }

    /** `symlink(2)`: refuses to replace anything. */
    method CreateLink(p: Path, target: string) returns (ok: bool)
      requires WellFormed(tree) && p != [] && Parent(p) in tree && tree[Parent(p)].Dir?
      modifies this`tree, this`clock
      ensures WellFormed(tree)
      ensures tree == if ok then old(tree)[p := Symlink(target)] else old(tree)
      ensures ok ==> p !in old(tree)
      ensures Reliable() ==> (ok <==> p !in old(tree))
    {
      var fault := Tick();
      ok := fault.NoFault? && p !in tree;
      if ok {
        PutKeepsForm(tree, p, Symlink(target));
        tree := tree[p := Symlink(target)];
      }
    }

    /** Writes one entry of the snapshot, `tree[source]`, at `p`. */
    method WriteEntry(source: Path, p: Path) returns (ok: bool)
      requires WellFormed(tree) && p != [] && Parent(p) in tree && tree[Parent(p)].Dir?
      requires source in tree && !tree[source].Special? && (tree[source].Symlink? ==> rules.canLink)
      requires p in tree ==> tree[p].Dir? || tree[p].File?
      modifies this`tree, this`clock
      ensures WellFormed(tree)
      ensures ok ==> Writable(old(tree), p, old(tree)[source]) && tree == old(tree)[p := old(tree)[source]]
      ensures !ok ==> Spoilt(old(tree), tree, p, old(tree)[source])
      ensures Reliable() ==> (ok <==> Writable(old(tree), p, old(tree)[source]))
    {
      if tree[source].Dir? {
        ok := CreateDir(p);
      } else if tree[source].File? {
        ok := CopyFile(source, p);
      } else {
        ok := CreateLink(p, tree[source].target);
      }
    }

    /** `copy_tree` from the stored snapshot into the workspace. Entries come in any order in which a
        directory comes before its contents; the depth-first walk is one of them. */
    method CopyBack(id: string, ghost s: Tree) returns (error: Option<RestoreError>)
      requires ".deep-code" in rules.skipAnywhere
      requires WellFormed(tree) && SnapshotShape(s, rules) && s == Subtree(tree, Base(id))
      modifies this`tree, this`clock
      ensures WellFormed(tree) && Overlaid(old(tree), s, tree)
      ensures error.None? ==> tree == old(tree) + s
      ensures error.None? ==> forall p :: p in s && p != [] ==> Writable(old(tree), p, s[p])
      ensures error.Some? && error.value.RefusedToWriteThrough? ==>
                var p := error.value.path;
                p in s && p in old(tree) && (old(tree)[p].Symlink? || old(tree)[p].Special?)
      ensures Reliable() && (forall p :: p in s && p != [] ==> Writable(old(tree), p, s[p])) ==> error.None?
    {
      assert Base(id) + [] == Base(id);
      var frontier: set<Path> := {[]};
      ghost var seen: set<Path> := {};
      while frontier != {}
        invariant WellFormed(tree)
        invariant CopyLoop(old(tree), s, tree, frontier, seen)
        decreases s.Keys - seen
      {
        var p :| p in frontier;
        var error, reached := CopyEntry(id, p, old(tree), s, frontier, seen);
        if error.Some? {
          return error;
        }
        frontier := frontier - {p} + reached;
        seen := seen + {p};
      }
      CopyLoopEnds(old(tree), s, tree, seen);
      return None;
    }

    /** One iteration of the walk: the entry `p` of the snapshot. */
    method CopyEntry(id: string, p: Path, ghost t: Tree, ghost s: Tree, ghost frontier: set<Path>,
                     ghost seen: set<Path>)
      returns (error: Option<RestoreError>, reached: set<Path>)
      requires ".deep-code" in rules.skipAnywhere && WellFormed(t) && WellFormed(tree)
      requires SnapshotShape(s, rules) && s == Subtree(t, Base(id))
      requires CopyLoop(t, s, tree, frontier, seen) && p in frontier
      modifies this`tree, this`clock
      ensures WellFormed(tree)
      ensures error.None? ==> CopyLoop(t, s, tree, frontier - {p} + reached, seen + {p})
      ensures error.Some? ==> Overlaid(t, s, tree)
      ensures error.Some? && error.value.RefusedToWriteThrough? ==>
                error.value.path == p && p in s && p in t && (t[p].Symlink? || t[p].Special?)
      ensures Reliable() && (p != [] ==> p in s && Writable(t, p, s[p])) ==> error.None?
    {
      ghost var before := tree;
      SourceUnchanged(t, s, rules, tree, frontier, seen, id);
      assert Untouched(t, tree, p);
      if p != [] {
        if p in tree && (tree[p].Symlink? || tree[p].Special?) {
          CopyLoopIsOverlaid(t, s, tree, frontier, seen);
          return Some(RefusedToWriteThrough(p)), {};
        }
        CopyTargetIsReady(t, s, tree, frontier, seen, p);
        var ok := WriteEntry(Base(id) + p, p);
        if !ok {
          SpoiltIsOverlaid(t, s, before, tree, frontier, seen, p);
          return Some(Io), {};
        }
      }
      CopyLoopStep(t, s, rules, before, tree, frontier, seen, p, id);
      return None, set n | n in ChildNames(tree, Base(id) + p) :: p + [n];
    }

    // ----- Restore

    /** Both levels of the storage directory exist and are real directories, or are made so. */
    method EnsureOwnedStorage() returns (ok: bool)
      requires WellFormed(tree)
      modifies this`tree, this`clock
      ensures WellFormed(tree)
      ensures forall p :: p in old(tree) ==> Untouched(old(tree), tree, p)
      ensures forall p :: p in tree && p !in old(tree) ==> p == STORAGE_ROOT[..1] || p == STORAGE_ROOT
      ensures ok ==> STORAGE_ROOT in tree && tree[STORAGE_ROOT].Dir?
      ensures STORAGE_ROOT in old(tree) && old(tree)[STORAGE_ROOT].Dir? ==> ok && tree == old(tree)
    {
      if STORAGE_ROOT in tree && tree[STORAGE_ROOT].Dir? {
        return true;
      }
      ok := true;
      assert STORAGE_ROOT[..2] == STORAGE_ROOT;
      for level := 1 to 3
        invariant ok && WellFormed(tree)
        invariant forall p :: p in old(tree) ==> Untouched(old(tree), tree, p)
        invariant forall p :: p in tree && p !in old(tree) ==> p == STORAGE_ROOT[..1] || p == STORAGE_ROOT
        invariant STORAGE_ROOT[..level - 1] in tree && tree[STORAGE_ROOT[..level - 1]].Dir?
      {
        var dir := STORAGE_ROOT[..level];
        assert Parent(dir) == STORAGE_ROOT[..level - 1];
        if dir in tree {
          if !tree[dir].Dir? {
            return false;
          }
        } else {
          ok := CreateDir(dir);
          if !ok {
            return;
          }
        }
      }
    }

    /** Clears the workspace of what the checkpoint can put back and copies the checkpoint into it. */
    method Restore(id: string) returns (result: RestoreResult)
      requires Valid()
      modifies this`tree, this`clock
      ensures Valid()
      ensures forall other :: Subtree(tree, Base(other)) == Subtree(old(tree), Base(other))
      ensures !IsCheckpoint(old(tree), id) ==>
                result.Failed? && forall p :: !Pruned(rules, p) ==> Untouched(old(tree), tree, p)
      ensures IsCheckpoint(old(tree), id) ==>
                var s := Subtree(old(tree), Base(id));
                && RestoreOutcome(old(tree), s, rules, tree, result)
                && (Reliable() ==> (result.Done? <==> !Blocked(old(tree), s, rules)))
    {
      if !ValidId(id) {
        return Failed(InvalidId);
      }
      var base := Base(id);
      if base in tree {
        AncestorIsDir(tree, STORAGE_ROOT, base);
      }
      var owned := EnsureOwnedStorage();
      StorageDirsAreNoCheckpoint(old(tree), tree, rules);
      StoreStaysValid(old(tree), tree, rules);
      if !owned {
        return Failed(StorageNotOwned);
      }
      if base !in tree || !tree[base].Dir? {
        return Failed(NoSuchCheckpoint);
      }
      assert IsCheckpoint(tree, id);
      result := RestoreFrom(id);
    }

    /** The two halves, on an existing checkpoint. */
    method RestoreFrom(id: string) returns (result: RestoreResult)
      requires Valid() && IsCheckpoint(tree, id)
      modifies this`tree, this`clock
      ensures Valid()
      ensures forall other :: Subtree(tree, Base(other)) == Subtree(old(tree), Base(other))
      ensures var s := Subtree(old(tree), Base(id));
              && RestoreOutcome(old(tree), s, rules, tree, result)
              && (Reliable() ==> (result.Done? <==> !Blocked(old(tree), s, rules)))
    {
      ghost var full, s := tree, Subtree(tree, Base(id));
      var ok, kept, report := ClearDirContents(id, [], full, s);
      if !ok {
        InterruptedClear(full, s, rules, tree);
        return Failed(Io);
      }
      ReadyToCopy(full, s, rules, tree, id, report);
      var error := CopyBack(id, s);
      result := if error.Some? then Failed(error.value) else Done(report);
      CopyOutcome(full, s, rules, tree, result);
    }

    // ----- Snapshot

    /** One entry of the walk: written when it has a representation, passed over when it has none. */
    method RecordEntry(p: Path, target: Path) returns (ok: bool)
      requires WellFormed(tree) && p in tree && target !in tree
      requires target != [] && Parent(target) in tree && tree[Parent(target)].Dir?
      modifies this`tree, this`clock
      ensures WellFormed(tree)
      ensures ok ==> tree == if Capturable(old(tree)[p], rules) then old(tree)[target := old(tree)[p]] else old(tree)
      ensures !ok ==> forall q :: q != target ==> Untouched(old(tree), tree, q)
      ensures Reliable() ==> ok
    {
      ok := true;
      if Capturable(tree[p], rules) {
        ok := WriteEntry(p, target);
      }
    }

    /** The entry `p` of the walk, on its own. */
    method StageEntry(p: Path, dest: Path, ghost t: Tree, ghost frontier: set<Path>, ghost seen: set<Path>)
      returns (ok: bool, reached: set<Path>)
      requires WellFormed(t) && WellFormed(tree) && IsStaging(t, rules, dest)
      requires StageLoop(t, rules, tree, dest, frontier, seen) && p in frontier && !Pruned(rules, p)
      modifies this`tree, this`clock
      ensures WellFormed(tree)
      ensures ok ==> StageLoop(t, rules, tree, dest, frontier - {p} + reached, seen + {p})
      ensures forall q :: !(dest <= q) ==> Untouched(t, tree, q)
      ensures Reliable() ==> ok
    {
      ghost var before := tree;
      StageStepIsReady(t, rules, tree, dest, frontier, seen, p);
      ok := RecordEntry(p, dest + p);
      if ok {
        StageLoopStep(t, rules, before, tree, dest, frontier, seen, p);
        reached := set n | n in ChildNames(tree, p) :: p + [n];
      } else {
        reached := {};
        StaysInside(t, before, tree, dest, p);
      }
    }

    /** `copy_tree` from the workspace into the staging directory `dest`. `cancelled(n)` is whether the
        turn's token has fired by the time n entries have been counted. */
    method CopyToStaging(dest: Path, cancelled: nat -> bool) returns (status: CopyStatus, copied: nat)
      requires WellFormed(tree) && IsStaging(tree, rules, dest)
      requires STORAGE_ROOT in tree && tree[STORAGE_ROOT].Dir?
      modifies this`tree, this`clock
      ensures WellFormed(tree)
      ensures forall q :: !(dest <= q) ==> Untouched(old(tree), tree, q)
      ensures status.Finished? ==> && Subtree(tree, dest) == Captured(old(tree), rules)
                                   && copied == |Visible(old(tree), rules)| - 1 <= MAX_SNAPSHOT_ENTRIES
      ensures status.Aborted? ==> cancelled(copied) || |Visible(old(tree), rules)| - 1 > MAX_SNAPSHOT_ENTRIES
      ensures Reliable() ==> !status.Broken?
    {
      ghost var t := tree;
      assert Parent(dest) == STORAGE_ROOT && dest <= dest;
      var ok := CreateDir(dest);
      if !ok {
        return Broken, 0;
      }
      StageLoopStarts(t, rules, dest);
      ghost var seen;
      status, copied, seen := StageWalk(dest, set n | n in ChildNames(tree, []) :: [] + [n], cancelled, t);
      if status.Finished? {
        StageLoopEnds(t, rules, tree, dest, seen);
      }
    }

    /** The walk itself, `t` being the tree before the staging directory was made. */
    method StageWalk(dest: Path, start: set<Path>, cancelled: nat -> bool, ghost t: Tree)
      returns (status: CopyStatus, copied: nat, ghost seen: set<Path>)
      requires WellFormed(t) && WellFormed(tree) && IsStaging(t, rules, dest)
      requires StageLoop(t, rules, tree, dest, start, {[]})
      modifies this`tree, this`clock
      ensures WellFormed(tree)
      ensures forall q :: !(dest <= q) ==> Untouched(t, tree, q)
      ensures status.Finished? ==>
                StageLoop(t, rules, tree, dest, {}, seen) && |seen| == copied + 1 && copied <= MAX_SNAPSHOT_ENTRIES
      ensures status.Aborted? ==> cancelled(copied) || |Visible(t, rules)| - 1 > MAX_SNAPSHOT_ENTRIES
      ensures Reliable() ==> !status.Broken?
    {
      copied, seen := 0, {[]};
      var frontier := start;
      while frontier != {}
        invariant WellFormed(tree) && StageLoop(t, rules, tree, dest, frontier, seen)
        invariant |seen| == copied + 1 && copied <= MAX_SNAPSHOT_ENTRIES
        decreases MAX_SNAPSHOT_ENTRIES - copied, frontier
      {
        var p :| p in frontier;
        PrunedStep(rules, p);
        if ShouldSkip(rules, p) {
          StageLoopSkip(t, rules, tree, dest, frontier, seen, p);
          frontier := frontier - {p};
          continue;
        }
        StageStepIsReady(t, rules, tree, dest, frontier, seen, p);
        copied := copied + 1;
        if copied > MAX_SNAPSHOT_ENTRIES {
          SubsetCount(seen + {p}, Visible(t, rules).Keys);
          return Aborted, copied, seen;
        }
        if copied % CANCEL_CHECK_INTERVAL == 0 && cancelled(copied) {
          return Aborted, copied, seen;
        }
        var ok, reached := StageEntry(p, dest, t, frontier, seen);
        if !ok {
          return Broken, copied, seen;
        }
        frontier := frontier - {p} + reached;
        seen := seen + {p};
      }
      return Finished, copied, seen;
    }

    /** `fs::rename` of the finished staging copy to the checkpoint's own name. */
    method Publish(id: string) returns (ok: bool)
      requires WellFormed(tree) && ValidId(id)
      requires var staging := Base(StagingName(id)); staging in tree && tree[staging].Dir?
      requires STORAGE_ROOT in tree && tree[STORAGE_ROOT].Dir?
      modifies this`tree, this`clock
      ensures WellFormed(tree)
      ensures !ok ==> tree == old(tree)
      ensures ok ==> Subtree(tree, Base(id)) == Subtree(old(tree), Base(StagingName(id)))
      ensures forall q :: !(Base(StagingName(id)) <= q) && !(Base(id) <= q) ==> Untouched(old(tree), tree, q)
      ensures Reliable() && IsFree(old(tree), Base(id)) ==> ok
    {
      var staging, base := Base(StagingName(id)), Base(id);
      var fault := Tick();
      ok := fault.NoFault? && forall q :: q in tree ==> (base <= q ==> q == base && tree[q].Dir?);
      if ok {
        StagingIsNoCheckpoint(id, id);
        assert Parent(base) == STORAGE_ROOT;
        MovedHolds(tree, staging, base);
        MovedKeepsForm(tree, staging, base);
        tree := Moved(tree, staging, base);
      }
    }

    /** `fs::remove_dir_all` of an abandoned staging copy; its result is ignored. */
    method Abandon(id: string, ghost t: Tree)
      requires ValidStore(t, rules) && WellFormed(tree)
      requires forall q :: !(Base(StagingName(id)) <= q) ==> Untouched(t, tree, q)
      modifies this`tree, this`clock
      ensures Valid() && SnapshotTaken(t, rules, tree, id, SnapshotFailed)
    {
      var staging := Base(StagingName(id));
      ghost var staged := tree;
      var fault := Tick();
      if fault.NoFault? {
        tree := map q | q in tree && !(staging <= q) :: tree[q];
      } else if fault.Spares? {
        RemainsArePart(tree, StagingName(id), fault.left);
        tree := Remains(tree, staging, fault.left);
      }
      UntouchedTwice(t, staged, tree, staging);
      StagingWorkIsContained(t, tree, rules, id);
    }

    /** `fs::remove_dir_all` of a checkpoint, which may stop half way. */
    method RemoveCheckpoint(id: string) returns (ok: bool)
      requires WellFormed(tree)
      modifies this`tree, this`clock
      ensures ok ==> tree == Without(old(tree), {id})
      ensures !ok ==> PartLeft(old(tree), tree, {id})
      ensures Reliable() ==> ok
    {
      var fault := Tick();
      ok := fault.NoFault?;
      if ok {
        WithoutOne(tree, id);
        tree := map q | q in tree && !(Base(id) <= q) :: tree[q];
      } else if fault.Spares? {
        RemainsArePart(tree, id, fault.left);
        tree := Remains(tree, Base(id), fault.left);
      }
    }

    /** Removes these checkpoints one after the other; a failure is a warning, and the next one is tried. */
    method RemoveCheckpoints(ids: seq<string>) returns (warnings: seq<string>, ghost removed: set<Name>)
      requires WellFormed(tree) && forall i :: 0 <= i < |ids| ==> ids[i] !in Elements(ids[..i])
      modifies this`tree, this`clock
      ensures removed + Elements(warnings) == Elements(ids) && removed !! Elements(warnings)
      ensures PartLeft(Without(old(tree), removed), tree, Elements(warnings))
      ensures Reliable() ==> warnings == []
    {
      warnings, removed := [], {};
      WithoutNothing(tree);
      assert Elements(warnings) == {} && Elements(ids[..0]) == {};
      for i := 0 to |ids|
        invariant removed + Elements(warnings) == Elements(ids[..i]) && removed !! Elements(warnings)
        invariant PartLeft(Without(old(tree), removed), tree, Elements(warnings))
        invariant Reliable() ==> warnings == []
      {
        ElementsSnoc(ids[..i], ids[i]);
        ElementsSnoc(warnings, ids[i]);
        assert ids[..i + 1] == ids[..i] + [ids[i]];
        ghost var before := tree;
        var ok := RemoveCheckpoint(ids[i]);
        if ok {
          OneMoreGone(old(tree), before, removed, Elements(warnings), ids[i]);
          removed := removed + {ids[i]};
        } else {
          OneMoreDamaged(Without(old(tree), removed), before, tree, Elements(warnings), ids[i]);
          warnings := warnings + [ids[i]];
        }
      }
      assert ids[..|ids|] == ids;
    }

    /** Removes the oldest checkpoints beyond the cap, all or, when the directory cannot be read, none. */
    method PruneOldSnapshots() returns (warnings: seq<string>, ghost removed: set<Name>)
      requires Valid()
      modifies this`tree, this`clock
      ensures Valid() && Retained(old(tree), tree, max, removed, Elements(warnings))
      ensures var expired := Expired(Older, SnapshotNames(old(tree)), max);
              && (removed + Elements(warnings) == {} || removed + Elements(warnings) == expired)
              && (Reliable() ==> removed == expired && warnings == [])
    {
      warnings, removed := [], {};
      assert Elements(warnings) == {};
      NothingRemoved(tree, max);
      if max == 0 {
        return;
      }
      var fault := Tick();
      if !fault.NoFault? {
        return;
      }
      var excess := ListExcess();
      warnings, removed := RemoveCheckpoints(excess);
      RetainedKeepsRest(old(tree), tree, max, removed, Elements(warnings), rules);
    }

    /** The ids beyond the cap, oldest first. */
    method ListExcess() returns (excess: seq<string>)
      requires max > 0
      ensures Elements(excess) == Expired(Older, SnapshotNames(tree), max)
      ensures forall i :: 0 <= i < |excess| ==> excess[i] !in Elements(excess[..i])
    {
      OlderIsAnOrder();
      var ids := SortOldestFirst(Older, SnapshotNames(tree));
      ExcessIsExpired(Older, ids, max);
      var n := if |ids| <= max then 0 else |ids| - max;
      ExcessIsDistinct(ids, n);
      excess := ids[..n];
    }

    /** `snapshot`, at the time `now`, which fits the source's 128 bits. `cancelled(n)` is whether the
        turn's token has fired at the n-th look at it. `taken` is the tree before retention. */
    method Snapshot(text: string, now: nat, cancelled: nat -> bool)
      returns (outcome: SnapshotOutcome, warnings: seq<string>, ghost taken: Tree, ghost removed: set<Name>)
      requires Valid() && now < STAMP_LIMIT
      requires IsFree(tree, Base(StagingName(SnapshotId(text, now))))
      requires StaysFired(cancelled)
      modifies this
      ensures Valid() && ValidStore(taken, rules)
      ensures SnapshotTaken(old(tree), rules, taken, SnapshotId(text, now), outcome)
      ensures Retained(taken, tree, max, removed, Elements(warnings))
      ensures !outcome.Created? ==> removed == {} && warnings == []
      ensures outcome.Created? ==>
                var id := SnapshotId(text, now);
                && id in SnapshotNames(taken) && (id in removed ==> !IsCheckpoint(tree, id))
                && (id !in removed && id !in warnings ==> IsCheckpoint(tree, id))
                && ((forall other :: other in SnapshotNames(old(tree)) && other != id ==> Stamp(other) < now) ==>
                      IsCheckpoint(tree, id) && Subtree(tree, Base(id)) == Captured(old(tree), rules))
      ensures outcome.Created? && Reliable() ==> removed == Expired(Older, SnapshotNames(taken), max) && warnings == []
      ensures outcome.Cancelled? ==> Fires(cancelled)
      ensures outcome.TooLarge? ==>
                && oversized && (outcome.first <==> !old(oversized))
                && (outcome.first ==> |Visible(old(tree), rules)| - 1 > MAX_SNAPSHOT_ENTRIES)
      ensures !outcome.TooLarge? ==> oversized == old(oversized)
      ensures && Reliable() && !old(oversized) && !Fires(cancelled)
              && STORAGE_ROOT in old(tree) && old(tree)[STORAGE_ROOT].Dir?
              && IsFree(old(tree), Base(SnapshotId(text, now))) ==>
                (outcome.Created? <==> |Visible(old(tree), rules)| - 1 <= MAX_SNAPSHOT_ENTRIES)
    {
      var id := SnapshotId(text, now);
      outcome, warnings, taken, removed := SnapshotAs(id, cancelled);
      if outcome.Created? {
        MintedStamp(text, now);
        LatestStays(old(tree), rules, taken, id, tree, max, removed, Elements(warnings));
      }
    }

    /** Copies the workspace into a staging directory, publishes it under `id`, and removes the oldest
        checkpoints beyond the cap. */
    method SnapshotAs(id: string, cancelled: nat -> bool)
      returns (outcome: SnapshotOutcome, warnings: seq<string>, ghost taken: Tree, ghost removed: set<Name>)
      requires Valid() && IsSnapshotName(id)
      requires IsFree(tree, Base(StagingName(id)))
      requires StaysFired(cancelled)
      modifies this
      ensures Valid() && ValidStore(taken, rules)
      ensures SnapshotTaken(old(tree), rules, taken, id, outcome)
      ensures Retained(taken, tree, max, removed, Elements(warnings))
      ensures !outcome.Created? ==> removed == {} && warnings == []
      ensures outcome.Created? ==> && id in SnapshotNames(taken) && (id in removed ==> !IsCheckpoint(tree, id))
                                   && (id !in removed && id !in warnings ==> IsCheckpoint(tree, id))
      ensures outcome.Created? && Reliable() ==> removed == Expired(Older, SnapshotNames(taken), max) && warnings == []
      ensures outcome.Cancelled? ==> Fires(cancelled)
      ensures outcome.TooLarge? ==>
                && oversized && (outcome.first <==> !old(oversized))
                && (outcome.first ==> |Visible(old(tree), rules)| - 1 > MAX_SNAPSHOT_ENTRIES)
      ensures !outcome.TooLarge? ==> oversized == old(oversized)
      ensures && Reliable() && !old(oversized) && !Fires(cancelled)
              && STORAGE_ROOT in old(tree) && old(tree)[STORAGE_ROOT].Dir?
              && IsFree(old(tree), Base(id)) ==>
                (outcome.Created? <==> |Visible(old(tree), rules)| - 1 <= MAX_SNAPSHOT_ENTRIES)
    {
      outcome := TryTake(id, cancelled);
      taken := tree;
      if outcome.Created? {
        warnings, removed := Retain(id);
      } else {
        warnings, removed := [], {};
        assert Elements(warnings) == {};
        NothingRemoved(tree, max);
      }
    }

    /** Retention, with what it means for the checkpoint just made. */
    method Retain(id: string) returns (warnings: seq<string>, ghost removed: set<Name>)
      requires Valid() && IsCheckpoint(tree, id) && IsSnapshotName(id)
      modifies this`tree, this`clock
      ensures Valid() && Retained(old(tree), tree, max, removed, Elements(warnings))
      ensures id in SnapshotNames(old(tree)) && (id in removed ==> !IsCheckpoint(tree, id))
      ensures id !in removed && id !in warnings ==> IsCheckpoint(tree, id)
      ensures Reliable() ==> removed == Expired(Older, SnapshotNames(old(tree)), max) && warnings == []
    {
      SnapshotNamesHold(tree, id);
      warnings, removed := PruneOldSnapshots();
      RetainedKeepsRest(old(tree), tree, max, removed, Elements(warnings), rules);
    }

    /** The part of `snapshot` before retention. */
    method TryTake(id: string, cancelled: nat -> bool) returns (outcome: SnapshotOutcome)
      requires Valid() && ValidId(id)
      requires IsFree(tree, Base(StagingName(id)))
      requires StaysFired(cancelled)
      modifies this
      ensures Valid()
      ensures SnapshotTaken(old(tree), rules, tree, id, outcome)
      ensures outcome.Cancelled? ==> Fires(cancelled)
      ensures outcome.TooLarge? ==>
                && oversized && (outcome.first <==> !old(oversized))
                && (outcome.first ==> |Visible(old(tree), rules)| - 1 > MAX_SNAPSHOT_ENTRIES)
      ensures !outcome.TooLarge? ==> oversized == old(oversized)
      ensures && Reliable() && !old(oversized) && !Fires(cancelled)
              && STORAGE_ROOT in old(tree) && old(tree)[STORAGE_ROOT].Dir?
              && IsFree(old(tree), Base(id)) ==>
                (outcome.Created? <==> |Visible(old(tree), rules)| - 1 <= MAX_SNAPSHOT_ENTRIES)
    {
      var owned := EnsureOwnedStorage();
      StorageDirsAreNoCheckpoint(old(tree), tree, rules);
      StoreStaysValid(old(tree), tree, rules);
      CapturedAlike(old(tree), tree, rules);
      if !owned {
        return SnapshotFailed;
      }
      if oversized {
        return TooLarge(false);
      }
      outcome := TakeSnapshot(id, cancelled);
    }

    /** The copy itself, when the workspace has not been found too large before. */
    method TakeSnapshot(id: string, cancelled: nat -> bool) returns (outcome: SnapshotOutcome)
      requires Valid() && ValidId(id) && !oversized
      requires STORAGE_ROOT in tree && tree[STORAGE_ROOT].Dir?
      requires IsFree(tree, Base(StagingName(id)))
      requires StaysFired(cancelled)
      modifies this
      ensures Valid() && SnapshotTaken(old(tree), rules, tree, id, outcome)
      ensures outcome.Cancelled? ==> Fires(cancelled)
      ensures outcome.TooLarge? ==> outcome.first && |Visible(old(tree), rules)| - 1 > MAX_SNAPSHOT_ENTRIES
      ensures oversized == outcome.TooLarge?
      ensures Reliable() && !Fires(cancelled) && IsFree(old(tree), Base(id)) ==>
                (outcome.Created? <==> |Visible(old(tree), rules)| - 1 <= MAX_SNAPSHOT_ENTRIES)
    {
      assert Base(StagingName(id))[..2] == STORAGE_ROOT;
      var status, copied := CopyToStaging(Base(StagingName(id)), cancelled);
      FiredBefore(cancelled, copied);
      outcome := Conclude(id, status, cancelled(copied + 1), old(tree));
    }

    /** What becomes of the copy; `fired` is the look at the token after it. */
    method Conclude(id: string, status: CopyStatus, fired: bool, ghost t: Tree) returns (outcome: SnapshotOutcome)
      requires ValidStore(t, rules) && ValidId(id) && WellFormed(tree) && !oversized
      requires STORAGE_ROOT in t && t[STORAGE_ROOT].Dir?
      requires forall q :: !(Base(StagingName(id)) <= q) ==> Untouched(t, tree, q)
      requires status.Finished? ==> && Subtree(tree, Base(StagingName(id))) == Captured(t, rules)
                                    && |Visible(t, rules)| - 1 <= MAX_SNAPSHOT_ENTRIES
      requires status.Aborted? ==> fired || |Visible(t, rules)| - 1 > MAX_SNAPSHOT_ENTRIES
      requires Reliable() ==> !status.Broken?
      modifies this
      ensures Valid() && SnapshotTaken(t, rules, tree, id, outcome)
      ensures outcome.Cancelled? ==> fired
      ensures outcome.TooLarge? ==> outcome.first && |Visible(t, rules)| - 1 > MAX_SNAPSHOT_ENTRIES
      ensures oversized == outcome.TooLarge?
      ensures Reliable() && !fired && IsFree(t, Base(id)) ==>
                (outcome.Created? <==> |Visible(t, rules)| - 1 <= MAX_SNAPSHOT_ENTRIES)
    {
      if status.Finished? {
        outcome := PublishOrDiscard(id, t);
      } else {
        outcome := GiveUp(id, status, fired, t);
      }
    }

    /** The copy was not finished. */
    method GiveUp(id: string, status: CopyStatus, fired: bool, ghost t: Tree) returns (outcome: SnapshotOutcome)
      requires ValidStore(t, rules) && WellFormed(tree) && !status.Finished?
      requires forall q :: !(Base(StagingName(id)) <= q) ==> Untouched(t, tree, q)
      modifies this
      ensures Valid() && SnapshotTaken(t, rules, tree, id, outcome)
      ensures outcome == if status.Broken? then SnapshotFailed else if fired then Cancelled else TooLarge(true)
      ensures oversized == (old(oversized) || outcome.TooLarge?)
    {
      Abandon(id, t);
      if status.Broken? {
        return SnapshotFailed;
      }
      if fired {
        return Cancelled;
      }
      oversized := true;
      return TooLarge(true);
    }

    method PublishOrDiscard(id: string, ghost t: Tree) returns (outcome: SnapshotOutcome)
      requires ValidStore(t, rules) && ValidId(id) && WellFormed(tree)
      requires STORAGE_ROOT in t && t[STORAGE_ROOT].Dir?
      requires forall q :: !(Base(StagingName(id)) <= q) ==> Untouched(t, tree, q)
      requires Subtree(tree, Base(StagingName(id))) == Captured(t, rules)
      requires |Visible(t, rules)| - 1 <= MAX_SNAPSHOT_ENTRIES
      modifies this`tree, this`clock
      ensures Valid() && SnapshotTaken(t, rules, tree, id, outcome)
      ensures outcome.Created? || outcome.SnapshotFailed?
      ensures Reliable() && IsFree(t, Base(id)) ==> outcome.Created?
    {
      ghost var staged := tree;
      var staging := Base(StagingName(id));
      assert !(staging <= STORAGE_ROOT) && Untouched(t, tree, STORAGE_ROOT);
      assert [] in Captured(t, rules) && staging + [] == staging;
      StagingWorkIsContained(t, tree, rules, id);
      var ok := Publish(id);
      if ok {
        PublishedIsValid(t, staged, tree, rules, id);
        CapturedAlike(t, tree, rules);
        return Created(id);
      }
      Abandon(id, t);
      return SnapshotFailed;
    }
  }

  // ----- Calls one after the other

  lemma ExcessIsDistinct(ids: seq<string>, n: nat)
    requires IsOrder(Older) && Sorted(Older, ids) && n <= |ids|
    ensures forall i :: 0 <= i < n ==> ids[..n][i] !in Elements(ids[..n][..i])
  {
    forall i | 0 <= i < n
      ensures ids[..n][i] !in Elements(ids[..n][..i])
    {
      SortedOnce(Older, ids, i);
      assert ids[..n][..i] == ids[..i];
    }
  }

  /** Exactly the newest checkpoints up to the cap are left, and a new one is among them if and only if
      fewer than the cap are newer: a clock that stepped back can take it away at once. */
  lemma NewestAreLeft(taken: Tree, rules: Rules, max: nat, id: string)
    requires ValidStore(taken, rules) && id in SnapshotNames(taken)
    ensures var ids := SnapshotNames(taken);
            var u := Without(taken, Expired(Older, ids, max));
            && SnapshotNames(u) == ids - Expired(Older, ids, max)
            && |SnapshotNames(u)| == (if max == 0 || |ids| <= max then |ids| else max)
            && (id in SnapshotNames(u) <==> max == 0 || |Newer(Older, ids, id)| < max)
            && forall gone, left :: gone in Expired(Older, ids, max) && left in SnapshotNames(u) ==> Older(gone, left)
  {
    var ids := SnapshotNames(taken);
    var u := Without(taken, Expired(Older, ids, max));
    WithoutKeepsRest(taken, Expired(Older, ids, max), rules);
    forall n
      ensures n in SnapshotNames(u) <==> n in ids - Expired(Older, ids, max)
    {
      SnapshotNamesHold(u, n);
      SnapshotNamesHold(taken, n);
    }
    assert SnapshotNames(u) == ids - Expired(Older, ids, max);
    OlderIsAnOrder();
    if max > 0 {
      ExpiredCount(Older, ids, max);
      forall a, b | a in Expired(Older, ids, max) && b in ids - Expired(Older, ids, max)
        ensures Older(a, b)
      {
        ExpiredAreOlder(Older, ids, max, a, b);
      }
    }
  }

  /** A restore right after its snapshot, when retention left it alone, is never blocked and changes nothing. */
  lemma RestoreRightAfterSnapshot(t: Tree, rules: Rules, taken: Tree, id: string, max: nat, removed: set<Name>,
                                  damaged: set<Name>, u: Tree, v: Tree, result: RestoreResult)
    requires ValidStore(taken, rules) && SnapshotTaken(t, rules, taken, id, Created(id))
    requires Retained(taken, u, max, removed, damaged) && id !in removed && id !in damaged
    requires RestoreOutcome(u, Subtree(u, Base(id)), rules, v, result)
    ensures !Blocked(u, Subtree(u, Base(id)), rules)
    ensures result.Done? ==> v == u && forall p :: !Pruned(rules, p) ==> Untouched(t, v, p)
  {
    RetainedKeepsRest(taken, u, max, removed, damaged, rules);
    CapturedAlike(taken, u, rules);
    SnapshotThenRestoreIsIdentity(u, rules);
    forall p | !Pruned(rules, p)
      ensures Untouched(t, u, p)
    {
      assert Untouched(t, taken, p) && Untouched(taken, u, p);
    }
  }

  /** A snapshot later than every stored one outlives the retention of its own call, whatever the cap. */
  lemma LatestStays(t: Tree, rules: Rules, taken: Tree, id: string, u: Tree, max: nat, removed: set<Name>,
                    damaged: set<Name>)
    requires ValidStore(taken, rules) && SnapshotTaken(t, rules, taken, id, Created(id))
    requires Retained(taken, u, max, removed, damaged)
    ensures (forall other :: other in SnapshotNames(t) && other != id ==> Stamp(other) < Stamp(id)) ==>
              IsCheckpoint(u, id) && Subtree(u, Base(id)) == Captured(t, rules)
  {
    if forall other :: other in SnapshotNames(t) && other != id ==> Stamp(other) < Stamp(id) {
      forall other | other in SnapshotNames(taken) && other != id
        ensures Stamp(other) < Stamp(id)
      {
        StoredBefore(t, rules, taken, id, other);
      }
      LatestIsNotExpired(SnapshotNames(taken), max, id);
      RetainedKeepsRest(taken, u, max, removed, damaged, rules);
    }
  }

  lemma StoredBefore(t: Tree, rules: Rules, taken: Tree, id: string, other: string)
    requires SnapshotTaken(t, rules, taken, id, Created(id)) && other in SnapshotNames(taken) && other != id
    ensures other in SnapshotNames(t)
  {
    SnapshotNamesHold(taken, other);
    SnapshotNamesHold(t, other);
    assert Base(other) + [] == Base(other);
    assert [] in Subtree(taken, Base(other)) && Subtree(taken, Base(other)) == Subtree(t, Base(other));
  }

  /** A checkpoint whose removal stopped half way is still offered, and restoring it deletes the files that
      are no longer in it. */
  lemma DamagedStillRestores(t: Tree, u: Tree, rules: Rules, id: string, p: Path)
    requires ValidStore(t, rules) && id in SnapshotNames(t) && PartLeft(t, u, {id}) && Base(id) in u
    requires p in t && t[p].File? && !Pruned(rules, p) && Base(id) + p !in u
    ensures id in SnapshotNames(u) && p in u && p !in Restored(u, Subtree(u, Base(id)), rules)
  {
    SnapshotNamesHold(t, id);
    SnapshotNamesHold(u, id);
    PartKeepsRest(t, u, {id}, rules);
    assert Untouched(t, u, p);
    RestoreIsExact(u, Subtree(u, Base(id)), rules, p);
  }

  /** However many attempts were cut short, and wherever, the first restore that succeeds leaves the
      workspace and the report a single uninterrupted one would have left. */
  lemma {:induction false} RetriedRestoreConverges(trees: seq<Tree>, s: Tree, rules: Rules, results: seq<RestoreResult>)
    requires results != [] && |trees| == |results| + 1 && WellFormed(trees[0])
    requires forall i :: 0 <= i < |results| ==> RestoreOutcome(trees[i], s, rules, trees[i + 1], results[i])
    requires forall i :: 0 <= i < |results| - 1 ==> results[i].Failed?
    requires results[|results| - 1].Done?
    ensures trees[|results|] == Restored(trees[0], s, rules) && !Blocked(trees[0], s, rules)
    ensures forall p :: p in results[|results| - 1].kept <==> Unrestorable(trees[0], s, rules, p)
    decreases |results|
  {
    if |results| > 1 {
      assert RestoreOutcome(trees[0], s, rules, trees[0 + 1], results[0]);
      RetriedRestoreConverges(trees[1..], s, rules, results[1..]);
      InterruptedRestoreConverges(trees[0], s, rules, trees[1]);
      forall p
        ensures Unrestorable(trees[0], s, rules, p) <==> Unrestorable(trees[1], s, rules, p)
      {
        ResumableKeepsTheSame(trees[0], s, rules, trees[1], p);
      }
    } else {
      assert RestoreOutcome(trees[0], s, rules, trees[0 + 1], results[0]);
    }
  }

  /** The same when a stat through a recorded link may answer differently in every attempt, as it can when
      the link points into the workspace: nothing without a representation may lie below such a link. */
  lemma {:induction false} RetriedRestoreWhateverLinksReach(trees: seq<Tree>, s: Tree, rules: Rules,
                                                            results: seq<RestoreResult>, reaches: seq<Stat>)
    requires results != [] && |trees| == |results| + 1 && |reaches| == |results| && WellFormed(trees[0])
    requires NothingUnderLinks(trees[0], s, rules)
    requires forall i :: 0 <= i < |results| ==>
               RestoreOutcome(trees[i], s, rules.(reaches := reaches[i]), trees[i + 1], results[i])
    requires forall i :: 0 <= i < |results| - 1 ==> results[i].Failed?
    requires results[|results| - 1].Done?
    ensures trees[|results|] == Restored(trees[0], s, rules) && !Blocked(trees[0], s, rules)
    ensures forall p :: p in results[|results| - 1].kept <==> Unrestorable(trees[0], s, rules, p)
    decreases |results|
  {
    assert RestoreOutcome(trees[0], s, rules.(reaches := reaches[0]), trees[0 + 1], results[0]);
    if |results| > 1 {
      FailedAttempt(trees[0], s, rules, reaches[0], trees[1], results[0]);
      RetriedRestoreWhateverLinksReach(trees[1..], s, rules, results[1..], reaches[1..]);
    } else {
      ReachesDoesNotMatter(trees[0], s, rules, reaches[0]);
    }
  }

  /** An attempt that failed leaves everything the next one depends on. */
  lemma FailedAttempt(t: Tree, s: Tree, rules: Rules, reaches: Stat, u: Tree, result: RestoreResult)
    requires WellFormed(t) && NothingUnderLinks(t, s, rules) && result.Failed?
    requires RestoreOutcome(t, s, rules.(reaches := reaches), u, result)
    ensures WellFormed(u) && NothingUnderLinks(u, s, rules)
    ensures Restored(u, s, rules) == Restored(t, s, rules) && (Blocked(u, s, rules) <==> Blocked(t, s, rules))
    ensures forall p :: Unrestorable(u, s, rules, p) <==> Unrestorable(t, s, rules, p)
  {
    var now := rules.(reaches := reaches);
    StillNothingUnderLinks(t, s, rules, u);
    ReachesDoesNotMatter(t, s, rules, reaches);
    ReachesDoesNotMatter(u, s, rules, reaches);
    InterruptedRestoreConverges(t, s, now, u);
    forall p
      ensures Unrestorable(u, s, now, p) <==> Unrestorable(t, s, now, p)
    {
      ResumableKeepsTheSame(t, s, now, u, p);
    }
  }

  lemma StillNothingUnderLinks(t: Tree, s: Tree, rules: Rules, u: Tree)
    requires NothingUnderLinks(t, s, rules)
    requires forall p :: p in u && p !in s ==> p in t && u[p] == t[p]
    ensures NothingUnderLinks(u, s, rules)
  {
  }
}
