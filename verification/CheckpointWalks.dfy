/** The proof side of the checkpoint store: where the clear, the copy back and the snapshot walk stand
    after each step, and what each of them leaves behind. */
module CheckpointWalks {
  import opened Wrappers
  import opened FileTree
  import opened Retention
  import opened Text

  const STORAGE_ROOT: Path := [".deep-code", "checkpoints"]
  const MAX_SNAPSHOT_ENTRIES: nat := 20_000
  const CANCEL_CHECK_INTERVAL: nat := 512

  /** What happens to the n-th filesystem operation. A failing copy may leave part of the file behind,
      or remove what stood there. */
  datatype Fault = NoFault | FailsCleanly | Torn(content: seq<Byte>) | LosesTarget | Spares(left: set<Path>)

  datatype RestoreError =
    | InvalidId
    | StorageNotOwned
    | NoSuchCheckpoint
    | RefusedToWriteThrough(path: Path)
    | Io

  datatype RestoreResult = Done(kept: set<Path>) | Failed(error: RestoreError)

  datatype CopyStatus = Finished | Aborted | Broken

  datatype SnapshotOutcome =
    | Created(id: string)
    | Cancelled
    | TooLarge(first: bool)
    | SnapshotFailed

  predicate ValidId(id: string)
  {
    id != "" && forall i :: 0 <= i < |id| ==> IsIdChar(id[i])
  }

  predicate IsIdChar(c: char)
  {
    'a' <= c <= 'z' || 'A' <= c <= 'Z' || '0' <= c <= '9' || c == '-' || c == '_'
  }

  function SanitizeLabel(text: string): (r: string)
    ensures |r| == |text|
    ensures forall i :: 0 <= i < |r| ==> IsIdChar(r[i]) && (IsIdChar(text[i]) ==> r[i] == text[i])
  {
    seq(|text|, i requires 0 <= i < |text| => if IsIdChar(text[i]) then text[i] else '_')
  }

  /** A directory name `snapshot` produced: the only ones retention looks at. */
  predicate IsSnapshotName(name: string)
  {
    ValidId(name) && IsStamped(name)
  }

  /** The id `snapshot` mints passes the check `restore` makes, whatever the text, is one retention
      recognizes, and carries its time. */
  function MintId(text: string, millis: string): (id: string)
    requires millis != "" && AllDigits(millis)
    ensures IsSnapshotName(id) && LastPart(id) == millis
  {
    var cleaned := SanitizeLabel(text);
    StampedName(cleaned, millis);
    assert (cleaned + "_" + millis)[|cleaned|] == '_';
    cleaned + "_" + millis
  }

  /** The id made at the time `now`. */
  function SnapshotId(text: string, now: nat): (id: string)
    ensures IsSnapshotName(id)
  {
    DecimalReadsBack(now);
    MintId(text, Decimal(now))
  }

  /** The stamp of a minted id is the time it was made at, as the number it is. */
  lemma MintedStamp(text: string, now: nat)
    ensures Stamp(SnapshotId(text, now)) == if now < STAMP_LIMIT then now else 0
  {
    DecimalReadsBack(now);
  }

  /** Whatever the labels, what was made earlier is older. */
  lemma EarlierIsOlder(a: string, m: nat, b: string, n: nat)
    requires m < n < STAMP_LIMIT
    ensures Older(SnapshotId(a, m), SnapshotId(b, n))
  {
    MintedStamp(a, m);
    MintedStamp(b, n);
  }

  function Base(id: string): Path
  {
    STORAGE_ROOT + [id]
  }

  function StagingName(id: string): Name
  {
    ".staging_" + id
  }

  /** Staging copies can never be mistaken for a checkpoint. */
  lemma StagingIsNoCheckpoint(id: string, other: string)
    requires ValidId(other)
    ensures Base(StagingName(id)) != Base(other)
  {
    assert StagingName(id)[0] == '.';
    assert Base(StagingName(id))[2] == StagingName(id) && Base(other)[2] == other;
  }

  lemma StorageIsPruned(rules: Rules, q: Path)
    requires ".deep-code" in rules.skipAnywhere && q != [] && q[0] == ".deep-code"
    ensures Pruned(rules, q)
  {
  }

  lemma BelowBaseIsPruned(rules: Rules, id: string, q: Path)
    requires ".deep-code" in rules.skipAnywhere && Base(id) <= q
    ensures Pruned(rules, q)
  {
    assert q[0] == Base(id)[0];
  }

  /** The names directly inside the directory `dir`. */
  function ChildNames(t: Tree, dir: Path): set<Name>
  {
    set p | p in t && |p| == |dir| + 1 && dir <= p :: p[|dir|]
  }

  lemma ChildNamesHold(t: Tree, dir: Path, n: Name)
    ensures n in ChildNames(t, dir) <==> dir + [n] in t
  {
    var p := dir + [n];
    assert |p| == |dir| + 1 && dir <= p && p[|dir|] == n;
    if n in ChildNames(t, dir) {
      var q :| q in t && |q| == |dir| + 1 && dir <= q && q[|dir|] == n;
      assert q == p;
    }
  }

  /** `snapshot_covers`: does the snapshot stored at `base` hold something at `p`? */
  predicate SnapshotCovers(t: Tree, base: Path, rules: Rules, p: Path)
    ensures SnapshotCovers(t, base, rules, p) <==> Covered(Subtree(t, base), rules, p)
  {
    var s := Subtree(t, base);
    assert forall i :: 0 <= i < |p| ==> (p[..i] in s <==> base + p[..i] in t);
    base + p in t
    || ((exists i :: 0 <= i < |p| && base + p[..i] in t && t[base + p[..i]].Symlink?) && rules.reaches(p))
  }

  // ----- The clear, half way

  /** `u` is `full` with some of what the clear has to delete already gone. */
  ghost predicate ClearInProgress(full: Tree, s: Tree, rules: Rules, u: Tree)
  {
    && (forall p :: p in u ==> p in full && u[p] == full[p])
    && (forall p :: p in full && Kept(full, s, rules, p) ==> p in u)
  }

  lemma ClearInProgressIsResumable(full: Tree, s: Tree, rules: Rules, u: Tree)
    requires WellFormed(u) && ClearInProgress(full, s, rules, u)
    ensures Resumable(full, s, rules, u)
  {
    forall p | p in u && KeptItself(u, s, rules, p)
      ensures Kept(full, s, rules, p)
    {
      assert p <= p && KeptItself(full, s, rules, p);
    }
  }

  /** What is pruned is never deleted, so the stored snapshot is still the same one. */
  lemma PrunedSurvives(full: Tree, s: Tree, rules: Rules, u: Tree, p: Path)
    requires ClearInProgress(full, s, rules, u) && Pruned(rules, p)
    ensures Untouched(full, u, p)
  {
    if p in full {
      assert p <= p && KeptItself(full, s, rules, p);
    }
  }

  lemma SnapshotSurvives(full: Tree, s: Tree, rules: Rules, u: Tree, id: string)
    requires ".deep-code" in rules.skipAnywhere && ClearInProgress(full, s, rules, u)
    ensures Subtree(u, Base(id)) == Subtree(full, Base(id))
  {
    forall p | Base(id) <= p
      ensures Untouched(full, u, p)
    {
      BelowBaseIsPruned(rules, id, p);
      PrunedSurvives(full, s, rules, u, p);
    }
    SameSubtree(full, u, Base(id));
  }

  /** An entry the clear deletes on its own account: nothing under it, nothing to keep it for. */
  lemma LeafIsNotKept(full: Tree, s: Tree, rules: Rules, p: Path)
    requires WellFormed(full) && p in full && p != [] && !full[p].Dir?
    requires !KeptItself(full, s, rules, p)
    ensures !Kept(full, s, rules, p)
  {
    LeafHasNothingBelow(full, p);
    if Kept(full, s, rules, p) {
      var q :| p <= q && KeptItself(full, s, rules, q);
      ProperPrefix(p, q);
    }
  }

  lemma OnlyItself(full: Tree, s: Tree, rules: Rules, p: Path)
    requires forall q :: q in full ==> !(p < q)
    ensures forall q :: q in full && p <= q ==> q == p
    ensures KeptItself(full, s, rules, p) ==> Kept(full, s, rules, p)
  {
    forall q | q in full && p <= q
      ensures q == p
    {
      if q != p {
        ProperPrefix(p, q);
      }
    }
    assert p <= p;
  }

  lemma EmptiedDirIsNotKept(full: Tree, s: Tree, rules: Rules, u: Tree, p: Path)
    requires ClearInProgress(full, s, rules, u)
    requires p in full && p != [] && full[p].Dir? && !Pruned(rules, p)
    requires forall q :: q in u ==> !(p < q)
    ensures !Kept(full, s, rules, p)
  {
    if Kept(full, s, rules, p) {
      var q :| p <= q && KeptItself(full, s, rules, q);
      ProperPrefix(p, q);
      assert q <= q && Kept(full, s, rules, q);
    }
  }

  lemma SkippedIsKept(full: Tree, s: Tree, rules: Rules, p: Path)
    requires Pruned(rules, p)
    ensures forall q :: q in full && p <= q ==> Kept(full, s, rules, q)
    ensures forall q :: p <= q ==> !Unrestorable(full, s, rules, q)
  {
    forall q | p <= q
      ensures Pruned(rules, q)
      ensures q in full ==> Kept(full, s, rules, q)
    {
      PrunedBelow(rules, p, q);
      assert q <= q && (q in full ==> KeptItself(full, s, rules, q));
    }
  }

  lemma KeptUpwards(full: Tree, s: Tree, rules: Rules, u: Tree, p: Path)
    requires ClearInProgress(full, s, rules, u) && p in u
    requires exists q :: q in u && p < q
    requires forall q :: q in u && p < q ==> Kept(full, s, rules, q)
    ensures forall q :: q in u && p <= q ==> Kept(full, s, rules, q)
  {
    var q :| q in u && p < q;
    var r :| q <= r && KeptItself(full, s, rules, r);
    assert p <= r;
    forall q | q in u && p <= q
      ensures Kept(full, s, rules, q)
    {
      if q != p {
        ProperPrefix(p, q);
      }
    }
  }

  lemma NothingBelowMeansNoNames(u: Tree, p: Path)
    requires forall q :: q in u ==> !(p < q)
    ensures ChildNames(u, p) == {}
  {
    forall n
      ensures n !in ChildNames(u, p)
    {
      ChildNamesHold(u, p, n);
      assert p < p + [n];
    }
  }

  lemma RemovalKeepsProgress(full: Tree, s: Tree, rules: Rules, u: Tree, p: Path)
    requires WellFormed(u) && ClearInProgress(full, s, rules, u)
    requires p != [] && !Kept(full, s, rules, p)
    requires forall q :: q in u ==> !(p < q)
    ensures WellFormed(u - {p}) && ClearInProgress(full, s, rules, u - {p})
  {
    RemoveLeafKeepsForm(u, p);
  }

  ghost function Under(t: Tree, dir: Path): set<Path>
  {
    set p | p in t && dir <= p
  }

  lemma ChildIsSmaller(t: Tree, dir: Path, n: Name)
    requires dir in t
    ensures Under(t, dir + [n]) < Under(t, dir)
  {
    assert dir in Under(t, dir) && dir !in Under(t, dir + [n]);
    forall p | p in Under(t, dir + [n])
      ensures p in Under(t, dir)
    {
      assert dir <= dir + [n];
    }
  }

  /** The part of `u` below `dir` whose first name is not waiting in `todo` is exactly what is kept. */
  ghost predicate DoneBelow(full: Tree, s: Tree, rules: Rules, u: Tree, dir: Path, todo: set<Name>)
  {
    && (forall p :: p in u && dir < p && p[|dir|] !in todo ==> Kept(full, s, rules, p))
    && (forall p :: p in full && dir < p && p[|dir|] in todo ==> p in u)
  }

  lemma NothingBelowMissing(u: Tree, p: Path)
    requires WellFormed(u) && p !in u
    ensures forall q :: q in u ==> !(p <= q)
  {
    forall q | q in u
      ensures !(p <= q)
    {
      if p <= q {
        ProperPrefix(p, q);
        AncestorIsDir(u, p, q);
      }
    }
  }

  /** Where the loop over the names of `dir` stands, with the names of `todo` still to come. */
  ghost predicate ClearLoop(full: Tree, s: Tree, rules: Rules, u: Tree, dir: Path, todo: set<Name>,
                            kept: bool, report: set<Path>)
  {
    && (forall n :: n in todo ==> dir + [n] in u)
    && DoneBelow(full, s, rules, u, dir, todo)
    && (kept <==> exists p :: p in u && dir < p && p[|dir|] !in todo)
    && (forall p :: p in report <==> dir < p && p[|dir|] !in todo && Unrestorable(full, s, rules, p))
  }

  lemma FirstNameBelow(dir: Path, n: Name, p: Path)
    ensures dir + [n] <= p <==> dir < p && p[|dir|] == n
  {
    if dir < p && p[|dir|] == n {
      assert dir + [n] == p[..|dir| + 1];
    }
  }

  lemma NamesCover(u: Tree, dir: Path, p: Path)
    requires WellFormed(u) && p in u && dir < p
    ensures p[|dir|] in ChildNames(u, dir)
  {
    var child := p[..|dir| + 1];
    assert dir + [p[|dir|]] == child;
    if child != p {
      AncestorIsDir(u, child, p);
    }
    ChildNamesHold(u, dir, p[|dir|]);
  }

  lemma ClearLoopStarts(full: Tree, s: Tree, rules: Rules, u: Tree, dir: Path)
    requires WellFormed(u) && ClearInProgress(full, s, rules, u)
    requires forall p :: p in full && dir <= p ==> p in u
    ensures ClearLoop(full, s, rules, u, dir, ChildNames(u, dir), false, {})
  {
    forall p | p in u && dir < p
      ensures p[|dir|] in ChildNames(u, dir)
    {
      NamesCover(u, dir, p);
    }
    forall n | n in ChildNames(u, dir)
      ensures dir + [n] in u
    {
      ChildNamesHold(u, dir, n);
    }
  }

  /** Finishing one name of `dir` is one step of finishing `dir`. */
  lemma ClearLoopStep(full: Tree, s: Tree, rules: Rules, u: Tree, v: Tree, dir: Path, todo: set<Name>, n: Name,
                      kept: bool, report: set<Path>, entryKept: bool, below: set<Path>)
    requires ClearLoop(full, s, rules, u, dir, todo, kept, report) && n in todo
    requires WellFormed(v)
    requires forall p :: p in v ==> p in u
    requires forall p :: p in u && !(dir + [n] <= p) ==> p in v
    requires forall p :: p in v && dir + [n] <= p ==> Kept(full, s, rules, p)
    requires entryKept <==> dir + [n] in v
    requires forall p :: p in below <==> dir + [n] <= p && Unrestorable(full, s, rules, p)
    ensures ClearLoop(full, s, rules, v, dir, todo - {n}, kept || entryKept, report + below)
  {
    forall p
      ensures dir + [n] <= p <==> dir < p && p[|dir|] == n
    {
      FirstNameBelow(dir, n, p);
    }
    if !entryKept {
      NothingBelowMissing(v, dir + [n]);
    }
  }

  /** What an emptied subdirectory means for the directory it is in. */
  lemma SubdirFinished(full: Tree, s: Tree, rules: Rules, u: Tree, p: Path, kept: bool, report: set<Path>)
    requires WellFormed(u) && ClearInProgress(full, s, rules, u)
    requires p != [] && p in u && u[p].Dir? && !Pruned(rules, p)
    requires DoneBelow(full, s, rules, u, p, {})
    requires kept <==> exists q :: q in u && p < q
    requires forall q :: q in report <==> p < q && Unrestorable(full, s, rules, q)
    ensures kept ==> forall q :: q in u && p <= q ==> Kept(full, s, rules, q)
    ensures !kept ==> && WellFormed(u - {p}) && ClearInProgress(full, s, rules, u - {p})
                      && ChildNames(u, p) == {} && forall q :: q in u && p <= q ==> q == p
    ensures forall q :: q in report <==> p <= q && Unrestorable(full, s, rules, q)
  {
    forall q | q in full && p <= q && q != p
      ensures p < q
    {
      ProperPrefix(p, q);
    }
    if kept {
      KeptUpwards(full, s, rules, u, p);
    } else {
      EmptiedDirIsNotKept(full, s, rules, u, p);
      RemovalKeepsProgress(full, s, rules, u, p);
      NothingBelowMeansNoNames(u, p);
    }
  }

  // ----- Writing a snapshot back

  /** An entry `n` of the snapshot can be written at `p`. */
  ghost predicate Writable(t: Tree, p: Path, n: Node)
  {
    p in t ==> (t[p].Dir? && n.Dir?) || (t[p].File? && n.File?)
  }

  /** `u` is `t` after a failed attempt to write `n` at `p`: only a file can be left half written. */
  ghost predicate Spoilt(t: Tree, u: Tree, p: Path, n: Node)
  {
    && (forall q :: q != p ==> (q in u <==> q in t) && (q in u ==> u[q] == t[q]))
    && (|| ((p in u <==> p in t) && (p in u ==> u[p] == t[p]))
        || (n.File? && (p in t ==> t[p].File?) && (p in u ==> u[p].File?)))
  }

  /** `u` is `t` with some entries of `s` written over it, or spoilt in the attempt. */
  ghost predicate Overlaid(t: Tree, s: Tree, u: Tree)
  {
    forall p :: || Untouched(t, u, p)
                || (p in s && p in u && u[p] == s[p] && (p != [] ==> Writable(t, p, s[p])))
                || (p in s && s[p].File? && (p in t ==> t[p].File?) && (p in u ==> u[p].File?))
  }

  /** Where the walk over `s` stands: `seen` has been written, `frontier` is what it goes on from. */
  ghost predicate CopyLoop(t: Tree, s: Tree, u: Tree, frontier: set<Path>, seen: set<Path>)
  {
    && WalkCovers(s, frontier, seen)
    && (forall p :: p in seen ==> p in u && u[p] == s[p])
    && (forall p :: p in seen && p != [] ==> Writable(t, p, s[p]))
    && (forall p :: p !in seen ==> Untouched(t, u, p))
  }

  /** The walk has reached exactly the root and the children of what it has seen. */
  ghost predicate WalkCovers(s: Tree, frontier: set<Path>, seen: set<Path>)
  {
    && seen <= s.Keys && frontier <= s.Keys && seen !! frontier
    && [] in seen + frontier
    && (forall p {:trigger Parent(p)} :: p in s && p != [] ==> (Parent(p) in seen <==> p in seen + frontier))
  }

  ghost function Children(s: Tree, p: Path): set<Path>
  {
    set q | q in s && |q| == |p| + 1 && p <= q
  }

  lemma WalkStep(s: Tree, frontier: set<Path>, seen: set<Path>, p: Path)
    requires WalkCovers(s, frontier, seen) && p in frontier
    ensures WalkCovers(s, frontier - {p} + Children(s, p), seen + {p})
  {
    forall q | q in Children(s, p)
      ensures Parent(q) == p && q !in seen
    {
    }
    forall q | q in s && q != [] && Parent(q) == p
      ensures q in Children(s, p)
    {
      assert p <= q;
    }
  }

  lemma {:induction false} WalkEnds(s: Tree, seen: set<Path>, p: Path)
    requires WellFormed(s) && WalkCovers(s, {}, seen) && p in s
    ensures p in seen
    decreases |p|
  {
    if p != [] {
      WalkEnds(s, seen, Parent(p));
    }
  }

  /** The walk reads the stored snapshot, which nothing it writes can change. */
  lemma SourceUnchanged(t: Tree, s: Tree, rules: Rules, u: Tree, frontier: set<Path>, seen: set<Path>, id: string)
    requires ".deep-code" in rules.skipAnywhere && SnapshotShape(s, rules) && s == Subtree(t, Base(id))
    requires CopyLoop(t, s, u, frontier, seen)
    ensures Subtree(u, Base(id)) == s
  {
    forall p | Base(id) <= p
      ensures Untouched(t, u, p)
    {
      BelowBaseIsPruned(rules, id, p);
    }
    SameSubtree(t, u, Base(id));
  }

  lemma ChildrenByName(t: Tree, base: Path, p: Path)
    ensures (set n | n in ChildNames(t, base + p) :: p + [n]) == Children(Subtree(t, base), p)
  {
    var s := Subtree(t, base);
    var names := ChildNames(t, base + p);
    forall n
      ensures n in names <==> p + [n] in s
    {
      ChildNamesHold(t, base + p, n);
      assert base + p + [n] == base + (p + [n]);
    }
    forall q | q in Children(s, p)
      ensures q in (set n | n in names :: p + [n])
    {
      var n := q[|q| - 1];
      assert q == p + [n];
    }
    forall n | n in names
      ensures p + [n] in Children(s, p)
    {
      assert p <= p + [n];
    }
  }

  /** Writing one entry is one step of the walk. */
  lemma CopyLoopStep(t: Tree, s: Tree, rules: Rules, u: Tree, v: Tree, frontier: set<Path>, seen: set<Path>,
                     p: Path, id: string)
    requires WellFormed(t) && CopyLoop(t, s, u, frontier, seen) && p in frontier
    requires ".deep-code" in rules.skipAnywhere && SnapshotShape(s, rules) && s == Subtree(t, Base(id))
    requires if p == [] then v == u else Writable(u, p, s[p]) && v == u[p := s[p]]
    ensures var reached := set n | n in ChildNames(v, Base(id) + p) :: p + [n];
            CopyLoop(t, s, v, frontier - {p} + reached, seen + {p})
  {
    WalkStep(s, frontier, seen, p);
    assert Untouched(t, u, p);
    SourceUnchanged(t, s, rules, v, frontier - {p} + Children(s, p), seen + {p}, id);
    ChildrenByName(v, Base(id), p);
  }

  lemma CopyLoopIsOverlaid(t: Tree, s: Tree, u: Tree, frontier: set<Path>, seen: set<Path>)
    requires CopyLoop(t, s, u, frontier, seen)
    ensures Overlaid(t, s, u)
  {
  }

  /** The next entry's directory has been written before it. */
  lemma CopyTargetIsReady(t: Tree, s: Tree, u: Tree, frontier: set<Path>, seen: set<Path>, p: Path)
    requires WellFormed(s) && CopyLoop(t, s, u, frontier, seen) && p in frontier && p != []
    ensures Parent(p) in u && u[Parent(p)].Dir?
  {
    assert Parent(p) in seen;
  }

  lemma SpoiltIsOverlaid(t: Tree, s: Tree, u: Tree, v: Tree, frontier: set<Path>, seen: set<Path>, p: Path)
    requires CopyLoop(t, s, u, frontier, seen) && p in frontier
    requires Spoilt(u, v, p, s[p])
    ensures Overlaid(t, s, v)
  {
    assert Untouched(t, u, p);
    forall q | q != p
      ensures q in seen || Untouched(t, v, q)
      ensures q in seen ==> q in v && v[q] == s[q]
    {
      assert q in seen || Untouched(t, u, q);
    }
  }

  lemma CopyLoopEnds(t: Tree, s: Tree, u: Tree, seen: set<Path>)
    requires WellFormed(s) && CopyLoop(t, s, u, {}, seen)
    ensures u == t + s && Overlaid(t, s, u)
    ensures forall p :: p in s && p != [] ==> Writable(t, p, s[p])
  {
    forall p | p in s
      ensures p in seen
    {
      WalkEnds(s, seen, p);
    }
    forall p
      ensures p in u <==> p in t + s
      ensures p in u ==> u[p] == (t + s)[p]
    {
      assert p in seen || Untouched(t, u, p);
    }
  }

  // ----- The two halves of a restore together

  lemma ClearEnds(full: Tree, s: Tree, rules: Rules, u: Tree)
    requires WellFormed(full) && WellFormed(u) && ClearInProgress(full, s, rules, u)
    requires DoneBelow(full, s, rules, u, [], {})
    ensures u == Cleared(full, s, rules)
  {
    forall p | p in u
      ensures Kept(full, s, rules, p)
    {
      assert p != [] ==> [] < p;
    }
  }

  /** After the clear, writing back meets an obstacle exactly where a directory had to be kept. */
  lemma WritableIffUnblocked(full: Tree, s: Tree, rules: Rules)
    requires WellFormed(full) && SnapshotShape(s, rules)
    ensures var c := Cleared(full, s, rules);
            && (forall p :: p in s && p in c ==> c[p].Dir?)
            && ((forall p :: p in s && p != [] ==> Writable(c, p, s[p])) <==> !Blocked(full, s, rules))
  {
    var c := Cleared(full, s, rules);
    forall p | p in s && p in c
      ensures c[p].Dir?
    {
      KeptUnderSnapshotIsDir(full, s, rules, p);
    }
    if Blocked(full, s, rules) {
      var p :| p in s && !s[p].Dir? && Kept(full, s, rules, p);
      assert !Writable(c, p, s[p]);
    }
  }

  lemma OverlaidIsResumable(full: Tree, s: Tree, rules: Rules, u: Tree)
    requires WellFormed(full) && SnapshotShape(s, rules) && WellFormed(u)
    requires Overlaid(Cleared(full, s, rules), s, u)
    ensures Resumable(full, s, rules, u)
    ensures forall p :: Pruned(rules, p) ==> Untouched(full, u, p)
  {
    var c := Cleared(full, s, rules);
    forall p | Pruned(rules, p)
      ensures Untouched(full, u, p)
    {
      assert p <= p && p !in s && Untouched(c, u, p);
      assert p in full ==> KeptItself(full, s, rules, p);
    }
    forall p | p in full && Kept(full, s, rules, p)
      ensures p in u && u[p] == full[p]
    {
      if p in s {
        KeptUnderSnapshotIsDir(full, s, rules, p);
      }
      assert Untouched(c, u, p) || p in s;
    }
    forall p | p in u && !(p in full && Kept(full, s, rules, p))
      ensures !KeptItself(u, s, rules, p)
    {
      assert !Untouched(c, u, p);
      assert p in s;
    }
  }

  ghost predicate IsCheckpoint(t: Tree, id: string)
  {
    ValidId(id) && Base(id) in t && t[Base(id)].Dir?
  }

  /** Every checkpoint that can be named holds what a snapshot records. */
  ghost predicate ValidStore(t: Tree, rules: Rules)
  {
    && WellFormed(t)
    && ".deep-code" in rules.skipAnywhere
    && forall id :: IsCheckpoint(t, id) ==> SnapshotShape(Subtree(t, Base(id)), rules)
  }

  lemma SameCheckpoint(t: Tree, u: Tree, id: string)
    requires forall p :: Base(id) <= p ==> Untouched(t, u, p)
    ensures IsCheckpoint(t, id) <==> IsCheckpoint(u, id)
    ensures Subtree(t, Base(id)) == Subtree(u, Base(id))
  {
    assert Base(id) <= Base(id) && Untouched(t, u, Base(id));
    SameSubtree(t, u, Base(id));
  }

  lemma StoreStaysValid(t: Tree, u: Tree, rules: Rules)
    requires ValidStore(t, rules) && WellFormed(u)
    requires forall id, p :: Base(id) <= p ==> Untouched(t, u, p)
    ensures ValidStore(u, rules)
    ensures forall id :: IsCheckpoint(t, id) <==> IsCheckpoint(u, id)
    ensures forall id :: Subtree(t, Base(id)) == Subtree(u, Base(id))
  {
    forall id
      ensures IsCheckpoint(t, id) <==> IsCheckpoint(u, id)
      ensures Subtree(t, Base(id)) == Subtree(u, Base(id))
    {
      SameCheckpoint(t, u, id);
    }
  }

  /** What a restore of the checkpoint `s` may do to the tree `t`. */
  ghost predicate RestoreOutcome(t: Tree, s: Tree, rules: Rules, u: Tree, result: RestoreResult)
  {
    && (forall p :: Pruned(rules, p) ==> Untouched(t, u, p))
    && (forall p :: p in u && p !in s ==> p in t && u[p] == t[p])
    && (result.Done? ==>
          && u == Restored(t, s, rules)
          && !Blocked(t, s, rules)
          && forall p :: p in result.kept <==> Unrestorable(t, s, rules, p))
    && (result.Failed? ==>
          && Resumable(t, s, rules, u)
          && !result.error.RefusedToWriteThrough?)
  }

  lemma PrunedAreTheCheckpoints(t: Tree, u: Tree, rules: Rules)
    requires ValidStore(t, rules) && WellFormed(u)
    requires forall p :: Pruned(rules, p) ==> Untouched(t, u, p)
    ensures ValidStore(u, rules)
    ensures forall id :: Subtree(t, Base(id)) == Subtree(u, Base(id))
  {
    forall id, p | Base(id) <= p
      ensures Untouched(t, u, p)
    {
      BelowBaseIsPruned(rules, id, p);
    }
    StoreStaysValid(t, u, rules);
  }

  lemma InterruptedClear(full: Tree, s: Tree, rules: Rules, u: Tree)
    requires ValidStore(full, rules) && WellFormed(u) && ClearInProgress(full, s, rules, u)
    ensures Resumable(full, s, rules, u)
    ensures forall p :: p in u ==> p in full && u[p] == full[p]
    ensures forall p :: Pruned(rules, p) ==> Untouched(full, u, p)
    ensures ValidStore(u, rules)
    ensures forall id :: Subtree(full, Base(id)) == Subtree(u, Base(id))
  {
    forall p | Pruned(rules, p)
      ensures Untouched(full, u, p)
    {
      PrunedSurvives(full, s, rules, u, p);
    }
    ClearInProgressIsResumable(full, s, rules, u);
    PrunedAreTheCheckpoints(full, u, rules);
  }

  lemma ReadyToCopy(full: Tree, s: Tree, rules: Rules, u: Tree, id: string, report: set<Path>)
    requires ValidStore(full, rules) && s == Subtree(full, Base(id)) && SnapshotShape(s, rules)
    requires WellFormed(u) && ClearInProgress(full, s, rules, u) && DoneBelow(full, s, rules, u, [], {})
    requires forall p :: p in report <==> [] < p && Unrestorable(full, s, rules, p)
    ensures u == Cleared(full, s, rules) && Subtree(u, Base(id)) == s
    ensures forall p :: p in s && p in u ==> u[p].Dir?
    ensures (forall p :: p in s && p != [] ==> Writable(u, p, s[p])) <==> !Blocked(full, s, rules)
    ensures forall p :: p in report <==> Unrestorable(full, s, rules, p)
  {
    ClearEnds(full, s, rules, u);
    WritableIffUnblocked(full, s, rules);
    SnapshotSurvives(full, s, rules, u, id);
    forall p | Unrestorable(full, s, rules, p)
      ensures [] < p
    {
    }
  }

  lemma CopyOutcome(full: Tree, s: Tree, rules: Rules, u: Tree, result: RestoreResult)
    requires ValidStore(full, rules) && SnapshotShape(s, rules) && WellFormed(u)
    requires Overlaid(Cleared(full, s, rules), s, u)
    requires result.Done? ==> && u == Cleared(full, s, rules) + s && !Blocked(full, s, rules)
                              && forall p :: p in result.kept <==> Unrestorable(full, s, rules, p)
    requires result.Failed? ==> !result.error.RefusedToWriteThrough?
    ensures ValidStore(u, rules) && RestoreOutcome(full, s, rules, u, result)
    ensures forall id :: Subtree(full, Base(id)) == Subtree(u, Base(id))
  {
    OverlaidIsResumable(full, s, rules, u);
    PrunedAreTheCheckpoints(full, u, rules);
    forall p | p in u && p !in s
      ensures p in full && u[p] == full[p]
    {
      assert Untouched(Cleared(full, s, rules), u, p);
    }
  }

  /** Creating the storage directories creates no checkpoint and touches nothing else. */
  lemma StorageDirsAreNoCheckpoint(t: Tree, u: Tree, rules: Rules)
    requires ".deep-code" in rules.skipAnywhere
    requires forall p :: p in t ==> Untouched(t, u, p)
    requires forall p :: p in u && p !in t ==> p == STORAGE_ROOT[..1] || p == STORAGE_ROOT
    ensures forall p :: !Pruned(rules, p) ==> Untouched(t, u, p)
    ensures forall id, p :: Base(id) <= p ==> Untouched(t, u, p)
  {
    StorageIsPruned(rules, STORAGE_ROOT[..1]);
    StorageIsPruned(rules, STORAGE_ROOT);
  }

  // ----- Taking a snapshot

  /** Once the turn's token has fired it stays fired. */
  ghost predicate StaysFired(cancelled: nat -> bool)
  {
    forall m: nat, n: nat :: m <= n && cancelled(m) ==> cancelled(n)
  }

  ghost predicate Fires(cancelled: nat -> bool)
  {
    exists n: nat :: cancelled(n)
  }

  lemma FiredBefore(cancelled: nat -> bool, n: nat)
    requires StaysFired(cancelled)
    ensures cancelled(n) ==> cancelled(n + 1)
    ensures cancelled(n + 1) ==> Fires(cancelled)
  {
  }

  /** Where the snapshot walk stands: `u` is `t` with the entries of `seen` recorded under `dest`. */
  ghost predicate StageLoop(t: Tree, rules: Rules, u: Tree, dest: Path, frontier: set<Path>, seen: set<Path>)
  {
    && WalkCovers(Visible(t, rules), Unpruned(rules, frontier), seen)
    && (forall p :: p in frontier ==> p in t && p != [] && !Pruned(rules, Parent(p)))
    && (forall q :: !(dest <= q) ==> Untouched(t, u, q))
    && Recorded(t, rules, u, dest, seen)
  }

  /** Under `dest` stands what has a representation among the entries of `seen`, and nothing else. */
  ghost predicate Recorded(t: Tree, rules: Rules, u: Tree, dest: Path, seen: set<Path>)
  {
    && seen <= t.Keys
    && (forall p :: dest + p in u <==> p in seen && Capturable(t[p], rules))
    && (forall p :: dest + p in u ==> u[dest + p] == t[p])
  }

  ghost function Unpruned(rules: Rules, frontier: set<Path>): set<Path>
  {
    set p | p in frontier && !Pruned(rules, p)
  }

  ghost predicate IsStaging(t: Tree, rules: Rules, dest: Path)
  {
    && ".deep-code" in rules.skipAnywhere
    && |dest| == 3 && dest[..2] == STORAGE_ROOT
    && IsFree(t, dest)
  }

  lemma StagingIsOutOfSight(t: Tree, rules: Rules, dest: Path, p: Path)
    requires IsStaging(t, rules, dest) && !Pruned(rules, p)
    ensures forall q :: |q| <= |p| + 1 && p <= q ==> !(dest <= q)
  {
    assert dest[..2][0] == dest[0] == ".deep-code";
    assert p != [] && p[0] == ".deep-code" ==> Pruned(rules, p);
  }

  /** The entries of an unpruned directory are what they were, as far as the walk will follow them. */
  lemma VisibleChildren(t: Tree, rules: Rules, u: Tree, dest: Path, p: Path)
    requires WellFormed(t) && IsStaging(t, rules, dest) && !Pruned(rules, p)
    requires forall q :: !(dest <= q) ==> Untouched(t, u, q)
    ensures var reached := set n | n in ChildNames(u, p) :: p + [n];
            && reached == Children(t, p)
            && Unpruned(rules, reached) == Children(Visible(t, rules), p)
  {
    StagingIsOutOfSight(t, rules, dest, p);
    var reached := set n | n in ChildNames(u, p) :: p + [n];
    forall n
      ensures n in ChildNames(u, p) <==> p + [n] in t
    {
      ChildNamesHold(u, p, n);
      assert p <= p + [n] && Untouched(t, u, p + [n]);
    }
    forall q | q in Children(t, p)
      ensures q in reached
    {
      var n := q[|p|];
      assert q == p + [n];
    }
    forall q | q in reached
      ensures q in Children(t, p)
    {
      var n :| n in ChildNames(u, p) && q == p + [n];
      assert p <= q;
    }
  }

  lemma StageLoopStarts(t: Tree, rules: Rules, dest: Path)
    requires WellFormed(t) && IsStaging(t, rules, dest)
    ensures var u := t[dest := Dir];
            StageLoop(t, rules, u, dest, set n | n in ChildNames(u, []) :: [] + [n], {[]})
  {
    var u, v := t[dest := Dir], Visible(t, rules);
    VisibleKeepsForm(t, rules);
    VisibleChildren(t, rules, u, dest, []);
    var none: set<Path>, root: set<Path> := {}, {[]};
    WalkStep(v, root, none, []);
    assert root - {[]} + Children(v, []) == Children(v, []);
    assert none + {[]} == root;
    forall p
      ensures dest + p in u <==> p == []
    {
      assert dest <= dest + p;
      assert dest + p == dest <==> p == [];
    }
  }

  lemma StaysInside(t: Tree, u: Tree, v: Tree, dest: Path, p: Path)
    requires forall q :: !(dest <= q) ==> Untouched(t, u, q)
    requires forall q :: q != dest + p ==> Untouched(u, v, q)
    ensures forall q :: !(dest <= q) ==> Untouched(t, v, q)
  {
    assert dest <= dest + p;
    forall q | !(dest <= q)
      ensures Untouched(t, v, q)
    {
      assert Untouched(t, u, q) && Untouched(u, v, q);
    }
  }

  lemma UnprunedStep(rules: Rules, frontier: set<Path>, reached: set<Path>, p: Path)
    ensures Unpruned(rules, frontier - {p} + reached) == Unpruned(rules, frontier) - {p} + Unpruned(rules, reached)
         || p in reached
  {
  }

  lemma RecordedStep(t: Tree, rules: Rules, u: Tree, v: Tree, dest: Path, seen: set<Path>, p: Path)
    requires Recorded(t, rules, u, dest, seen) && p in t && p !in seen
    requires v == if Capturable(t[p], rules) then u[dest + p := t[p]] else u
    ensures Recorded(t, rules, v, dest, seen + {p})
  {
    forall q
      ensures dest + q == dest + p <==> q == p
    {
      assert (dest + q)[|dest|..] == q && (dest + p)[|dest|..] == p;
    }
  }

  /** Recording one entry is one step of the walk. */
  lemma StageLoopStep(t: Tree, rules: Rules, u: Tree, v: Tree, dest: Path, frontier: set<Path>, seen: set<Path>,
                      p: Path)
    requires WellFormed(t) && IsStaging(t, rules, dest)
    requires StageLoop(t, rules, u, dest, frontier, seen) && p in frontier && !Pruned(rules, p)
    requires v == if Capturable(t[p], rules) then u[dest + p := t[p]] else u
    ensures StageLoop(t, rules, v, dest, frontier - {p} + (set n | n in ChildNames(v, p) :: p + [n]), seen + {p})
    ensures p !in seen && seen + {p} <= Visible(t, rules).Keys
  {
    var reached := set n | n in ChildNames(v, p) :: p + [n];
    StaysInside(t, u, v, dest, p);
    VisibleChildren(t, rules, v, dest, p);
    WalkStep(Visible(t, rules), Unpruned(rules, frontier), seen, p);
    UnprunedStep(rules, frontier, reached, p);
    RecordedStep(t, rules, u, v, dest, seen, p);
    assert forall q :: q in reached ==> q in t && q != [] && Parent(q) == p;
  }

  lemma StageStepIsReady(t: Tree, rules: Rules, u: Tree, dest: Path, frontier: set<Path>, seen: set<Path>, p: Path)
    requires WellFormed(t) && IsStaging(t, rules, dest)
    requires StageLoop(t, rules, u, dest, frontier, seen) && p in frontier && !Pruned(rules, p)
    ensures p in u && u[p] == t[p] && dest + p !in u
    ensures dest + p != [] && Parent(dest + p) in u && u[Parent(dest + p)].Dir?
    ensures p !in seen && seen + {p} <= Visible(t, rules).Keys
  {
    StagingIsOutOfSight(t, rules, dest, p);
    assert p <= p && Untouched(t, u, p);
    assert p in Visible(t, rules) && p in Unpruned(rules, frontier);
    assert Parent(p) in seen;
    assert Parent(dest + p) == dest + Parent(p);
  }

  lemma StageLoopSkip(t: Tree, rules: Rules, u: Tree, dest: Path, frontier: set<Path>, seen: set<Path>, p: Path)
    requires StageLoop(t, rules, u, dest, frontier, seen) && p in frontier && Pruned(rules, p)
    ensures StageLoop(t, rules, u, dest, frontier - {p}, seen)
  {
    assert Unpruned(rules, frontier - {p}) == Unpruned(rules, frontier);
  }

  lemma StageLoopEnds(t: Tree, rules: Rules, u: Tree, dest: Path, seen: set<Path>)
    requires WellFormed(t) && StageLoop(t, rules, u, dest, {}, seen)
    ensures Subtree(u, dest) == Captured(t, rules)
    ensures seen == Visible(t, rules).Keys
  {
    var v := Visible(t, rules);
    VisibleKeepsForm(t, rules);
    assert Unpruned(rules, {}) == {};
    forall p | p in v
      ensures p in seen
    {
      WalkEnds(v, seen, p);
    }
  }

  // ----- Publishing a snapshot

  /** `fs::rename` of a directory onto a free name, or onto an empty directory. */
  function Moved(t: Tree, source: Path, dest: Path): Tree
  {
    (map q | q in t && !(source <= q) && !(dest <= q) :: t[q]) + Planted(Subtree(t, source), dest)
  }

  lemma MovedAt(t: Tree, source: Path, dest: Path, q: Path)
    requires !(source <= dest) && !(dest <= source)
    ensures var u := Moved(t, source, dest);
            && (source <= q ==> q !in u)
            && (dest <= q ==> var r := q[|dest|..];
                              (q in u <==> source + r in t) && (q in u ==> u[q] == t[source + r]))
            && (!(source <= q) && !(dest <= q) ==> Untouched(t, u, q))
  {
    if dest <= q {
      if source <= q {
        BothPrefixes(source, dest, q);
      }
      assert q == dest + q[|dest|..];
    }
  }

  lemma MovedWhole(t: Tree, source: Path, dest: Path)
    requires !(source <= dest) && !(dest <= source)
    ensures Subtree(Moved(t, source, dest), dest) == Subtree(t, source)
  {
    var u := Moved(t, source, dest);
    forall r
      ensures dest + r in u <==> source + r in t
      ensures dest + r in u ==> u[dest + r] == t[source + r]
    {
      MovedAt(t, source, dest, dest + r);
      assert dest <= dest + r && (dest + r)[|dest|..] == r;
    }
  }

  lemma MovedHolds(t: Tree, source: Path, dest: Path)
    requires !(source <= dest) && !(dest <= source)
    ensures var u := Moved(t, source, dest);
            && Subtree(u, dest) == Subtree(t, source)
            && (forall q :: q in u ==> !(source <= q))
            && (forall q :: !(source <= q) && !(dest <= q) ==> Untouched(t, u, q))
  {
    MovedWhole(t, source, dest);
    forall q
      ensures q in Moved(t, source, dest) ==> !(source <= q)
      ensures !(source <= q) && !(dest <= q) ==> Untouched(t, Moved(t, source, dest), q)
    {
      MovedAt(t, source, dest, q);
    }
  }

  lemma MovedParent(t: Tree, source: Path, dest: Path, q: Path)
    requires WellFormed(t) && !(source <= dest) && !(dest <= source)
    requires source in t && t[source].Dir? && dest < q && q in Moved(t, source, dest)
    ensures var u := Moved(t, source, dest); Parent(q) in u && u[Parent(q)].Dir?
  {
    var r := q[|dest|..];
    assert dest <= Parent(q) && Parent(q)[|dest|..] == Parent(r) && source + Parent(r) == Parent(source + r);
    MovedAt(t, source, dest, q);
    MovedAt(t, source, dest, Parent(q));
  }

  lemma MovedKeepsForm(t: Tree, source: Path, dest: Path)
    requires WellFormed(t) && !(source <= dest) && !(dest <= source)
    requires source in t && t[source].Dir? && source != [] && dest != []
    requires Parent(dest) in t && t[Parent(dest)].Dir? && !(source <= Parent(dest))
    ensures WellFormed(Moved(t, source, dest))
  {
    var u := Moved(t, source, dest);
    MovedAt(t, source, dest, []);
    forall q | q in u && q != []
      ensures Parent(q) in u && u[Parent(q)].Dir?
    {
      if dest < q {
        MovedParent(t, source, dest, q);
      } else {
        MovedAt(t, source, dest, q);
        MovedAt(t, source, dest, Parent(q));
        assert Parent(q) <= q;
        if dest != q {
          assert !(dest <= q);
        }
      }
    }
  }

  /** What is seen of a workspace is all its snapshot depends on. */
  lemma CapturedAlike(t: Tree, u: Tree, rules: Rules)
    requires forall p :: !Pruned(rules, p) ==> Untouched(t, u, p)
    ensures Captured(t, rules) == Captured(u, rules)
    ensures Visible(t, rules) == Visible(u, rules)
  {
    forall p | !Pruned(rules, p)
      ensures (p in t <==> p in u) && (p in t ==> t[p] == u[p])
    {
      assert Untouched(t, u, p);
    }
  }

  ghost predicate IsFree(t: Tree, base: Path)
  {
    forall q :: q in t ==> !(base <= q)
  }

  /** Work confined to one staging directory leaves the workspace and every checkpoint alone. */
  lemma StagingWorkIsContained(t: Tree, u: Tree, rules: Rules, id: string)
    requires ValidStore(t, rules) && WellFormed(u)
    requires forall q :: !(Base(StagingName(id)) <= q) ==> Untouched(t, u, q)
    ensures ValidStore(u, rules)
    ensures forall p :: !Pruned(rules, p) ==> Untouched(t, u, p)
    ensures forall other, q :: ValidId(other) && Base(other) <= q ==> Untouched(t, u, q)
    ensures forall other :: ValidId(other) ==> Subtree(t, Base(other)) == Subtree(u, Base(other))
    ensures forall other :: IsCheckpoint(t, other) <==> IsCheckpoint(u, other)
    ensures ValidId(id) && IsFree(t, Base(id)) ==> IsFree(u, Base(id))
  {
    forall p | !Pruned(rules, p)
      ensures Untouched(t, u, p)
    {
      if Base(StagingName(id)) <= p {
        BelowBaseIsPruned(rules, StagingName(id), p);
      }
    }
    forall other, q | ValidId(other) && Base(other) <= q
      ensures Untouched(t, u, q)
    {
      StagingIsNoCheckpoint(id, other);
      assert Base(other) == q[..3];
    }
    forall q | q in u && ValidId(id) && Base(id) <= q
      ensures q in t
    {
      assert Untouched(t, u, q);
    }
    forall other | ValidId(other)
      ensures IsCheckpoint(t, other) <==> IsCheckpoint(u, other)
      ensures Subtree(t, Base(other)) == Subtree(u, Base(other))
    {
      SameCheckpoint(t, u, other);
    }
  }

  lemma UntouchedTwice(t: Tree, u: Tree, v: Tree, dest: Path)
    requires forall q :: !(dest <= q) ==> Untouched(t, u, q)
    requires forall q :: !(dest <= q) ==> Untouched(u, v, q)
    ensures forall q :: !(dest <= q) ==> Untouched(t, v, q)
  {
    forall q | !(dest <= q)
      ensures Untouched(t, v, q)
    {
      assert Untouched(t, u, q) && Untouched(u, v, q);
    }
  }

  /** Publishing adds the one checkpoint and changes no other. */
  lemma PublishedIsValid(t: Tree, u: Tree, v: Tree, rules: Rules, id: string)
    requires ValidStore(t, rules) && WellFormed(v) && ValidId(id)
    requires forall q :: !(Base(StagingName(id)) <= q) ==> Untouched(t, u, q)
    requires forall q :: !(Base(StagingName(id)) <= q) && !(Base(id) <= q) ==> Untouched(u, v, q)
    requires Subtree(v, Base(id)) == Captured(t, rules)
    ensures ValidStore(v, rules) && IsCheckpoint(v, id)
    ensures forall p :: !Pruned(rules, p) ==> Untouched(t, v, p)
    ensures forall other :: ValidId(other) && other != id ==> Subtree(t, Base(other)) == Subtree(v, Base(other))
  {
    CapturedHasShape(t, rules);
    assert [] in Captured(t, rules) && Base(id) + [] == Base(id);
    forall p | !Pruned(rules, p)
      ensures Untouched(t, v, p)
    {
      if Base(StagingName(id)) <= p {
        BelowBaseIsPruned(rules, StagingName(id), p);
      } else if Base(id) <= p {
        BelowBaseIsPruned(rules, id, p);
      }
      assert Untouched(t, u, p) && Untouched(u, v, p);
    }
    forall other | ValidId(other) && other != id
      ensures IsCheckpoint(t, other) <==> IsCheckpoint(v, other)
      ensures Subtree(t, Base(other)) == Subtree(v, Base(other))
    {
      forall q | Base(other) <= q
        ensures Untouched(t, v, q)
      {
        StagingIsNoCheckpoint(id, other);
        assert q[2] == other;
        assert Untouched(t, u, q) && Untouched(u, v, q);
      }
      SameCheckpoint(t, v, other);
    }
  }

  lemma BothPrefixes(a: Path, b: Path, q: Path)
    requires a <= q && b <= q
    ensures a <= b || b <= a
  {
  }

  // ----- Retention

  /** The names `list` reports. */
  function SnapshotNames(t: Tree): set<Name>
  {
    set n | n in ChildNames(t, STORAGE_ROOT) && STORAGE_ROOT + [n] in t && t[STORAGE_ROOT + [n]].Dir?
      && IsSnapshotName(n)
  }

  lemma SnapshotNamesHold(t: Tree, id: string)
    ensures id in SnapshotNames(t) <==> IsCheckpoint(t, id) && IsStamped(id)
  {
    ChildNamesHold(t, STORAGE_ROOT, id);
  }

  predicate InCheckpoint(q: Path, ids: set<Name>)
  {
    |q| >= 3 && q[..2] == STORAGE_ROOT && q[2] in ids
  }

  lemma InOneCheckpoint(q: Path, id: string)
    ensures Base(id) <= q <==> InCheckpoint(q, {id})
  {
    if Base(id) <= q {
      assert Base(id) == q[..3] && q[..2] == Base(id)[..2] && Base(id)[2] == id;
    }
    if InCheckpoint(q, {id}) {
      assert q[..3] == q[..2] + [q[2]];
    }
  }

  /** The tree without some checkpoints. */
  function Without(t: Tree, ids: set<Name>): Tree
  {
    map q | q in t && !InCheckpoint(q, ids) :: t[q]
  }

  /** What a removal of everything at and below `base` leaves when it stops half way: of the entries there,
      those of `left` whose directories are left too. */
  function Remains(t: Tree, base: Path, left: set<Path>): Tree
  {
    map q | q in t && (base <= q ==> forall k :: |base| <= k <= |q| ==> q[..k] in left) :: t[q]
  }

  /** Some of these checkpoints may have lost a part; what is left of them is as it was and can be walked, and
      nothing else is touched. */
  ghost predicate PartLeft(t: Tree, u: Tree, damaged: set<Name>)
  {
    && WellFormed(u)
    && (forall q :: !InCheckpoint(q, damaged) ==> Untouched(t, u, q))
    && (forall q :: q in u ==> q in t && u[q] == t[q])
  }

  lemma RemainsArePart(t: Tree, id: string, left: set<Path>)
    requires WellFormed(t)
    ensures PartLeft(t, Remains(t, Base(id), left), {id})
  {
    var base := Base(id);
    var u := Remains(t, base, left);
    forall q | q in u && q != []
      ensures Parent(q) in u && u[Parent(q)].Dir?
    {
      forall k | base <= Parent(q) && |base| <= k <= |q| - 1
        ensures Parent(q)[..k] in left
      {
        assert Parent(q) <= q && Parent(q)[..k] == q[..k];
      }
    }
    forall q | !InCheckpoint(q, {id})
      ensures Untouched(t, u, q)
    {
      InOneCheckpoint(q, id);
    }
  }

  lemma WithoutOne(t: Tree, id: Name)
    ensures (map q | q in t && !(Base(id) <= q) :: t[q]) == Without(t, {id})
  {
    forall q
      ensures Base(id) <= q <==> InCheckpoint(q, {id})
    {
      InOneCheckpoint(q, id);
    }
  }

  lemma WithoutNothing(t: Tree)
    requires WellFormed(t)
    ensures Without(t, {}) == t && PartLeft(Without(t, {}), t, {})
  {
  }

  /** One checkpoint more is gone. */
  lemma OneMoreGone(t: Tree, u: Tree, removed: set<Name>, damaged: set<Name>, id: Name)
    requires PartLeft(Without(t, removed), u, damaged) && id !in damaged
    ensures PartLeft(Without(t, removed + {id}), Without(u, {id}), damaged)
  {
    WithoutKeepsForm(u, {id});
    forall q | !InCheckpoint(q, damaged)
      ensures Untouched(Without(t, removed + {id}), Without(u, {id}), q)
    {
      assert Untouched(Without(t, removed), u, q);
    }
  }

  /** One checkpoint more has lost a part. */
  lemma OneMoreDamaged(t: Tree, u: Tree, v: Tree, damaged: set<Name>, id: Name)
    requires PartLeft(t, u, damaged) && PartLeft(u, v, {id})
    ensures PartLeft(t, v, damaged + {id})
  {
    forall q | !InCheckpoint(q, damaged + {id})
      ensures Untouched(t, v, q)
    {
      assert Untouched(t, u, q) && Untouched(u, v, q);
    }
  }

  lemma WithoutKeepsForm(t: Tree, ids: set<Name>)
    requires WellFormed(t)
    ensures WellFormed(Without(t, ids))
  {
    var u := Without(t, ids);
    forall q | q in u && q != []
      ensures Parent(q) in u && u[Parent(q)].Dir?
    {
      assert |q| >= 3 ==> Parent(q)[..2] == q[..2];
    }
  }

  /** Removing checkpoints leaves the workspace and every other checkpoint alone. */
  lemma WithoutKeepsRest(t: Tree, ids: set<Name>, rules: Rules)
    requires ValidStore(t, rules)
    ensures ValidStore(Without(t, ids), rules)
    ensures forall p :: !Pruned(rules, p) ==> Untouched(t, Without(t, ids), p)
    ensures forall other :: other !in ids ==> Subtree(Without(t, ids), Base(other)) == Subtree(t, Base(other))
    ensures forall other :: IsCheckpoint(Without(t, ids), other) <==> IsCheckpoint(t, other) && other !in ids
  {
    var u := Without(t, ids);
    WithoutKeepsForm(t, ids);
    forall p | !Pruned(rules, p)
      ensures Untouched(t, u, p)
    {
      assert |p| >= 2 ==> p[0] == p[..2][0];
    }
    forall other | other !in ids
      ensures Subtree(u, Base(other)) == Subtree(t, Base(other))
      ensures IsCheckpoint(u, other) <==> IsCheckpoint(t, other)
    {
      forall q | Base(other) <= q
        ensures Untouched(t, u, q)
      {
        InOneCheckpoint(q, other);
      }
      SameCheckpoint(t, u, other);
    }
    forall other | other in ids
      ensures !IsCheckpoint(u, other)
    {
      InOneCheckpoint(Base(other), other);
    }
  }

  lemma PartKeepsForm(t: Tree, u: Tree, base: Path)
    requires WellFormed(u) && base in u && u[base].Dir?
    ensures WellFormed(Subtree(u, base))
  {
    var s := Subtree(u, base);
    assert base + [] == base;
    forall r | r in s && r != []
      ensures Parent(r) in s && s[Parent(r)].Dir?
    {
      assert base + Parent(r) == Parent(base + r);
    }
  }

  /** A checkpoint that lost a part is still one, if its directory is left. */
  lemma PartHasShape(t: Tree, u: Tree, rules: Rules, id: string)
    requires IsCheckpoint(u, id) && WellFormed(u) && (forall q :: q in u ==> q in t && u[q] == t[q])
    requires IsCheckpoint(t, id) ==> SnapshotShape(Subtree(t, Base(id)), rules)
    ensures IsCheckpoint(t, id) && SnapshotShape(Subtree(u, Base(id)), rules)
  {
    PartKeepsForm(t, u, Base(id));
    forall r | r in Subtree(u, Base(id))
      ensures r in Subtree(t, Base(id)) && Subtree(u, Base(id))[r] == Subtree(t, Base(id))[r]
    {
      assert Base(id) + r in t;
    }
  }

  lemma UndamagedIsTheSame(t: Tree, u: Tree, damaged: set<Name>, id: string)
    requires PartLeft(t, u, damaged) && id !in damaged
    ensures Subtree(u, Base(id)) == Subtree(t, Base(id)) && (IsCheckpoint(u, id) <==> IsCheckpoint(t, id))
  {
    forall q | Base(id) <= q
      ensures Untouched(t, u, q)
    {
      InOneCheckpoint(q, id);
    }
    SameCheckpoint(t, u, id);
  }

  lemma PartKeepsRest(t: Tree, u: Tree, damaged: set<Name>, rules: Rules)
    requires ValidStore(t, rules) && PartLeft(t, u, damaged)
    ensures ValidStore(u, rules)
    ensures forall p :: !Pruned(rules, p) ==> Untouched(t, u, p)
  {
    forall id | IsCheckpoint(u, id)
      ensures SnapshotShape(Subtree(u, Base(id)), rules)
    {
      PartHasShape(t, u, rules, id);
    }
    forall p | !Pruned(rules, p)
      ensures Untouched(t, u, p)
    {
      assert |p| >= 2 ==> p[0] == p[..2][0];
    }
  }

  /** What retention may do to the tree `t`: `removed` are expired checkpoints, and nothing of them is left;
      `damaged` are expired checkpoints whose removal failed, and some part of them is left; all else stays. */
  ghost predicate Retained(t: Tree, u: Tree, max: nat, removed: set<Name>, damaged: set<Name>)
  {
    && removed + damaged <= Expired(Older, SnapshotNames(t), max) && removed !! damaged
    && PartLeft(Without(t, removed), u, damaged)
  }

  lemma NothingRemoved(t: Tree, max: nat)
    requires WellFormed(t)
    ensures Retained(t, t, max, {}, {})
  {
    WithoutNothing(t);
  }

  /** Retention leaves the workspace and every other checkpoint alone. */
  lemma RetainedKeepsRest(t: Tree, u: Tree, max: nat, removed: set<Name>, damaged: set<Name>, rules: Rules)
    requires ValidStore(t, rules) && Retained(t, u, max, removed, damaged)
    ensures ValidStore(u, rules)
    ensures forall p :: !Pruned(rules, p) ==> Untouched(t, u, p)
    ensures forall other :: other !in removed && other !in damaged ==>
              Subtree(u, Base(other)) == Subtree(t, Base(other)) && (IsCheckpoint(u, other) <==> IsCheckpoint(t, other))
    ensures forall other :: other in removed ==> !IsCheckpoint(u, other)
  {
    var v := Without(t, removed);
    WithoutKeepsRest(t, removed, rules);
    PartKeepsRest(v, u, damaged, rules);
    forall p | !Pruned(rules, p)
      ensures Untouched(t, u, p)
    {
      assert Untouched(t, v, p) && Untouched(v, u, p);
    }
    forall other | other !in damaged
      ensures Subtree(u, Base(other)) == Subtree(v, Base(other)) && (IsCheckpoint(u, other) <==> IsCheckpoint(v, other))
    {
      UndamagedIsTheSame(v, u, damaged, other);
    }
  }

  /** Nothing under a name that is no label, underscore and digits is ever touched. */
  lemma OtherNamesStay(t: Tree, u: Tree, max: nat, removed: set<Name>, damaged: set<Name>, n: Name, q: Path)
    requires Retained(t, u, max, removed, damaged) && STORAGE_ROOT + [n] <= q
    requires forall front, digits :: digits != "" && AllDigits(digits) ==> n != front + "_" + digits
    ensures Untouched(t, u, q)
  {
    StampedIff(n);
    InOneCheckpoint(q, n);
    assert Base(n) <= q;
    SnapshotNamesHold(t, n);
    assert n !in Expired(Older, SnapshotNames(t), max);
    assert Untouched(Without(t, removed), u, q);
  }

  /** What is later than everything else stored is not expired, whatever the cap. */
  lemma LatestIsNotExpired(names: set<Name>, max: nat, id: string)
    requires forall other :: other in names && other != id ==> Stamp(other) < Stamp(id)
    ensures id !in Expired(Older, names, max)
  {
    LessIsStrict(id);
    assert Newer(Older, names, id) == {};
  }

  /** What taking a snapshot, before retention, may do to the tree `t`. */
  ghost predicate SnapshotTaken(t: Tree, rules: Rules, u: Tree, id: string, outcome: SnapshotOutcome)
  {
    && (forall p :: !Pruned(rules, p) ==> Untouched(t, u, p))
    && (forall other :: ValidId(other) && (other != id || !outcome.Created?) ==>
          Subtree(u, Base(other)) == Subtree(t, Base(other)))
    && (outcome.Created? ==>
          && outcome.id == id && IsCheckpoint(u, id)
          && Subtree(u, Base(id)) == Captured(t, rules) == Captured(u, rules)
          && |Visible(t, rules)| - 1 <= MAX_SNAPSHOT_ENTRIES)
  }
}
