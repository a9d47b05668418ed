/** The workspace on disk as one finite tree of paths, what a snapshot records of it,
    and what a restore makes of it.

    The checkpoint storage (`.deep-code/checkpoints`) is part of the same tree, so
    "the stored snapshot is untouched" is a statement about that tree, not an assumption.
 */
module FileTree {
  import opened Wrappers

  type Name = string
  type Path = seq<Name>

  /** One directory entry, as `classify` tells them apart. `Special` is a FIFO, socket or device. */
  datatype Node =
    | File(content: seq<Byte>)
    | Dir
    | Symlink(target: string)
    | Special(device: nat)

  type Tree = map<Path, Node>

  /** Whether a non-following stat finds something at a path. */
  type Stat = Path -> bool

  /** What both walks are run under: whether this platform records symlinks, whether a non-following
      stat that has to pass through a symlink in the middle of its path finds anything, and the
      directory names that are left out, at any depth or only directly under the workspace. */
  datatype Rules = Rules(canLink: bool, reaches: Stat, skipAnywhere: set<Name>, skipAtRoot: set<Name>)

  function Parent(p: Path): Path
    requires p != []
  {
    p[..|p| - 1]
  }

  ghost predicate WellFormed(t: Tree)
  {
    && [] in t && t[[]].Dir?
    && forall p {:trigger Parent(p)} :: p in t && p != [] ==> Parent(p) in t && t[Parent(p)].Dir?
  }

  lemma ProperPrefix(p: Path, q: Path)
    requires p <= q && p != q
    ensures p < q
  {
    assert q[..|q|] == q;
  }

  /** Every proper ancestor of an existing path is a directory. */
  lemma {:induction false} AncestorIsDir(t: Tree, p: Path, q: Path)
    requires WellFormed(t) && q in t && p < q
    ensures p in t && t[p].Dir?
    decreases |q|
  {
    var up := Parent(q);
    assert p <= up;
    if p != up {
      AncestorIsDir(t, p, up);
    }
  }

  lemma LeafHasNothingBelow(t: Tree, p: Path)
    requires WellFormed(t)
    requires p in t ==> !t[p].Dir?
    ensures forall q :: q in t ==> !(p < q)
  {
    forall q | q in t
      ensures !(p < q)
    {
      if p < q {
        AncestorIsDir(t, p, q);
      }
    }
  }

  /** Removing an entry with nothing below it keeps the tree well formed. */
  lemma RemoveLeafKeepsForm(t: Tree, p: Path)
    requires WellFormed(t) && p != []
    requires forall q :: q in t ==> !(p < q)
    ensures WellFormed(t - {p})
  {
    var u := t - {p};
    forall q | q in u && q != []
      ensures Parent(q) in u && u[Parent(q)].Dir?
    {
      assert Parent(q) < q;
    }
  }

  /** Putting an entry under an existing directory, without replacing a directory by something else,
      keeps the tree well formed. */
  lemma PutKeepsForm(t: Tree, p: Path, n: Node)
    requires WellFormed(t) && p != [] && Parent(p) in t && t[Parent(p)].Dir?
    requires p in t && t[p].Dir? ==> n.Dir?
    ensures WellFormed(t[p := n])
  {
  }

  // ----- What is left out of every snapshot and never touched by a restore

  const SKIP_DIRS: set<Name> := {
    ".git", ".deep-code", "target", "node_modules",
    ".venv", "venv", "__pycache__", ".mypy_cache", ".pytest_cache", ".ruff_cache", ".tox",
    ".next", ".nuxt", ".svelte-kit", ".output",
    ".gradle", ".terraform", ".dart_tool", "DerivedData", "Pods",
    ".idea"
  }

  const SKIP_DIRS_TOP_LEVEL: set<Name> := {"build", "dist"}

  predicate HasSkippedName(rules: Rules, p: Path)
  {
    exists i :: 0 <= i < |p| && p[i] in rules.skipAnywhere
  }

  /** The test both walks put to every path they meet. */
  predicate ShouldSkip(rules: Rules, p: Path)
  {
    HasSkippedName(rules, p) || (|p| == 1 && p[0] in rules.skipAtRoot)
  }

  /** The paths neither walk ever gets to handle, in closed form. */
  predicate Pruned(rules: Rules, p: Path)
  {
    HasSkippedName(rules, p) || (p != [] && p[0] in rules.skipAtRoot)
  }

  /** `ShouldSkip` alone is not closed under descent (`build/x` is not skipped by itself);
      pruning is what makes the two walks agree, and it is exactly "some ancestor is skipped". */
  lemma PrunedMeansSkippedOnTheWay(rules: Rules, p: Path)
    ensures Pruned(rules, p) <==> exists i :: 0 < i <= |p| && ShouldSkip(rules, p[..i])
  {
    if Pruned(rules, p) {
      if HasSkippedName(rules, p) {
        assert p[..|p|] == p;
        assert ShouldSkip(rules, p[..|p|]);
      } else {
        assert ShouldSkip(rules, p[..1]);
      }
    }
    forall i | 0 < i <= |p| && ShouldSkip(rules, p[..i])
      ensures Pruned(rules, p)
    {
      var q := p[..i];
      if HasSkippedName(rules, q) {
        var j :| 0 <= j < |q| && q[j] in rules.skipAnywhere;
        assert p[j] in rules.skipAnywhere;
      }
    }
  }

  /** How the walks compute it: a path is pruned when its parent was, or when it is skipped itself. */
  lemma PrunedStep(rules: Rules, p: Path)
    requires p != []
    ensures Pruned(rules, p) <==> Pruned(rules, Parent(p)) || ShouldSkip(rules, p)
  {
    var up := Parent(p);
    if HasSkippedName(rules, up) {
      var j :| 0 <= j < |up| && up[j] in rules.skipAnywhere;
      assert p[j] in rules.skipAnywhere;
    }
  }

  lemma PrunedBelow(rules: Rules, p: Path, q: Path)
    requires Pruned(rules, p) && p <= q
    ensures Pruned(rules, q)
  {
    if HasSkippedName(rules, p) {
      var j :| 0 <= j < |p| && p[j] in rules.skipAnywhere;
      assert q[j] in rules.skipAnywhere;
    }
  }

  // ----- What a snapshot records

  predicate Capturable(n: Node, rules: Rules)
  {
    n.Dir? || n.File? || (n.Symlink? && rules.canLink)
  }

  /** The snapshot of a workspace: every unpruned entry that has a representation. */
  ghost function Captured(t: Tree, rules: Rules): Tree
  {
    map p | p in t && !Pruned(rules, p) && Capturable(t[p], rules) :: t[p]
  }

  /** What every stored snapshot looks like. */
  ghost predicate SnapshotShape(s: Tree, rules: Rules)
  {
    && WellFormed(s)
    && forall p :: p in s ==> !Pruned(rules, p) && Capturable(s[p], rules)
  }

  /** What the snapshot walk gets to see: everything that is not pruned. */
  ghost function Visible(t: Tree, rules: Rules): Tree
  {
    map p | p in t && !Pruned(rules, p) :: t[p]
  }

  lemma VisibleKeepsForm(t: Tree, rules: Rules)
    requires WellFormed(t)
    ensures WellFormed(Visible(t, rules))
  {
    var v := Visible(t, rules);
    forall p | p in v && p != []
      ensures Parent(p) in v && v[Parent(p)].Dir?
    {
      PrunedStep(rules, p);
    }
  }

  lemma CapturedHasShape(t: Tree, rules: Rules)
    requires WellFormed(t)
    ensures SnapshotShape(Captured(t, rules), rules)
  {
    var s := Captured(t, rules);
    forall p | p in s && p != []
      ensures Parent(p) in s && s[Parent(p)].Dir?
    {
      PrunedStep(rules, p);
    }
  }

  // ----- What a restore leaves in place

  /** The snapshot holds something at `p`, as far as a non-following stat can tell: a symlink recorded
      higher up is followed by that stat, and `reaches` says whether it finds anything. */
  ghost predicate LinkOnTheWay(s: Tree, p: Path)
  {
    exists i :: 0 <= i < |p| && p[..i] in s && s[p[..i]].Symlink?
  }

  ghost predicate Covered(s: Tree, rules: Rules, p: Path)
  {
    p in s || (LinkOnTheWay(s, p) && rules.reaches(p))
  }

  /** An unpruned entry that cannot be put back and that nothing will replace. */
  ghost predicate Unrestorable(t: Tree, s: Tree, rules: Rules, p: Path)
  {
    && p in t && !Pruned(rules, p) && !Covered(s, rules, p)
    && (t[p].Special? || (t[p].Symlink? && !rules.canLink))
  }

  /** The entries the clear keeps for their own sake. */
  ghost predicate KeptItself(t: Tree, s: Tree, rules: Rules, p: Path)
  {
    p in t && (Pruned(rules, p) || Unrestorable(t, s, rules, p))
  }

  /** The entries the clear keeps: those, and the directories leading to them. */
  ghost predicate Kept(t: Tree, s: Tree, rules: Rules, p: Path)
  {
    p in t && (p == [] || exists q :: p <= q && KeptItself(t, s, rules, q))
  }

  ghost function Cleared(t: Tree, s: Tree, rules: Rules): Tree
  {
    map p | p in t && Kept(t, s, rules, p) :: t[p]
  }

  /** The workspace a successful restore leaves behind. */
  ghost function Restored(t: Tree, s: Tree, rules: Rules): Tree
  {
    Cleared(t, s, rules) + s
  }

  /** A file or link of the snapshot cannot be written where the clear had to keep a directory. */
  ghost predicate Blocked(t: Tree, s: Tree, rules: Rules)
  {
    exists p :: p in s && !s[p].Dir? && Kept(t, s, rules, p)
  }

  lemma ClearedKeepsForm(t: Tree, s: Tree, rules: Rules)
    requires WellFormed(t)
    ensures WellFormed(Cleared(t, s, rules))
  {
    var c := Cleared(t, s, rules);
    forall p | p in c && p != []
      ensures Parent(p) in c && c[Parent(p)].Dir?
    {
      var q :| p <= q && KeptItself(t, s, rules, q);
      assert Parent(p) <= q;
    }
  }

  /** Whatever the clear keeps at a snapshot path is a directory: nothing is left there that a write
      would go through. */
  lemma KeptUnderSnapshotIsDir(t: Tree, s: Tree, rules: Rules, p: Path)
    requires WellFormed(t) && SnapshotShape(s, rules)
    requires p in s && Kept(t, s, rules, p)
    ensures t[p].Dir?
  {
    if p != [] {
      var q :| p <= q && KeptItself(t, s, rules, q);
      assert !KeptItself(t, s, rules, p);
      ProperPrefix(p, q);
      AncestorIsDir(t, p, q);
    }
  }

  // ----- Exactness

  /** Entry by entry, what a restored workspace holds. */
  lemma RestoreIsExact(t: Tree, s: Tree, rules: Rules, p: Path)
    requires WellFormed(t) && SnapshotShape(s, rules)
    ensures var r := Restored(t, s, rules);
            && (p in s ==> p in r && r[p] == s[p])
            && (Pruned(rules, p) ==> (p in r <==> p in t) && (p in r ==> r[p] == t[p]))
            && (p !in s && !Pruned(rules, p) ==>
                  (p in r <==> && p in t
                               && (|| Unrestorable(t, s, rules, p)
                                   || (t[p].Dir? && exists q :: p < q && KeptItself(t, s, rules, q))))
                  && (p in r ==> r[p] == t[p]))
  {
    if p !in s && !Pruned(rules, p) && p in t && Kept(t, s, rules, p) && !Unrestorable(t, s, rules, p) {
      var q :| p <= q && KeptItself(t, s, rules, q);
      ProperPrefix(p, q);
      AncestorIsDir(t, p, q);
    }
    assert p <= p;
    assert KeptItself(t, s, rules, p) ==> Kept(t, s, rules, p);
    if p in t && exists q :: p < q && KeptItself(t, s, rules, q) {
      var q :| p < q && KeptItself(t, s, rules, q);
      assert p <= q;
    }
  }

  // ----- What a restore loses

  /** The clear may delete only what the restore can write back. It fails to exactly for an entry without
      a representation below a place where the snapshot has a link, when a stat through that link finds
      something: the entry is gone, nothing replaces it and no report names it. */
  lemma LostIffSeenThroughLink(t: Tree, s: Tree, rules: Rules, p: Path)
    requires WellFormed(t) && SnapshotShape(s, rules)
    requires p in t && p !in s && !Pruned(rules, p) && !Capturable(t[p], rules)
    ensures p !in Restored(t, s, rules) <==> LinkOnTheWay(s, p) && rules.reaches(p)
    ensures Unrestorable(t, s, rules, p) <==> p in Restored(t, s, rules)
  {
    RestoreIsExact(t, s, rules, p);
  }

  /** A workspace that shows it: a socket in a directory that was a link when the snapshot was taken. */
  lemma SocketIsLost(rules: Rules, a: Name, b: Name) returns (t: Tree, s: Tree)
    requires rules.canLink && rules.reaches([a, b])
    requires !Pruned(rules, []) && !Pruned(rules, [a]) && !Pruned(rules, [a, b])
    ensures WellFormed(t) && SnapshotShape(s, rules) && !Blocked(t, s, rules)
    ensures [a, b] in t && t[[a, b]].Special? && [a, b] !in Restored(t, s, rules) && !Unrestorable(t, s, rules, [a, b])
  {
    t := map[[] := Dir, [a] := Dir, [a, b] := Special(0)];
    s := map[[] := Dir, [a] := Symlink("elsewhere")];
    assert Parent([a]) == [] && Parent([a, b]) == [a] && [a, b][..1] == [a];
    assert LinkOnTheWay(s, [a, b]);
    LostIffSeenThroughLink(t, s, rules, [a, b]);
    forall q | KeptItself(t, s, rules, q)
      ensures false
    {
    }
  }

  /** No entry without a representation lies below a place where the snapshot has a link. */
  ghost predicate NothingUnderLinks(t: Tree, s: Tree, rules: Rules)
  {
    forall p :: p in t && p !in s && !Pruned(rules, p) && !Capturable(t[p], rules) ==> !LinkOnTheWay(s, p)
  }

  /** Then nothing is lost, and what a stat through a link answers does not matter. */
  lemma ReachesDoesNotMatter(t: Tree, s: Tree, rules: Rules, other: Stat)
    requires NothingUnderLinks(t, s, rules)
    ensures var rules' := rules.(reaches := other);
            && Restored(t, s, rules') == Restored(t, s, rules)
            && (Blocked(t, s, rules') <==> Blocked(t, s, rules))
            && (forall p :: Unrestorable(t, s, rules', p) <==> Unrestorable(t, s, rules, p))
  {
    var rules' := rules.(reaches := other);
    forall p
      ensures Pruned(rules', p) <==> Pruned(rules, p)
      ensures KeptItself(t, s, rules', p) <==> KeptItself(t, s, rules, p)
    {
      PrunedAlike(rules, rules', p);
    }
    KeptAlike(t, s, rules, rules');
  }

  lemma PrunedAlike(rules: Rules, rules': Rules, p: Path)
    requires rules' == rules.(reaches := rules'.reaches)
    ensures Pruned(rules', p) <==> Pruned(rules, p)
  {
  }

  lemma KeptAlike(t: Tree, s: Tree, rules: Rules, rules': Rules)
    requires forall p :: KeptItself(t, s, rules', p) <==> KeptItself(t, s, rules, p)
    ensures forall p :: Kept(t, s, rules', p) <==> Kept(t, s, rules, p)
    ensures Restored(t, s, rules') == Restored(t, s, rules)
    ensures Blocked(t, s, rules') <==> Blocked(t, s, rules)
  {
    forall p
      ensures Kept(t, s, rules', p) <==> Kept(t, s, rules, p)
    {
      if q :| p <= q && KeptItself(t, s, rules', q) {
        assert KeptItself(t, s, rules, q);
      }
      if q :| p <= q && KeptItself(t, s, rules, q) {
        assert KeptItself(t, s, rules', q);
      }
    }
    assert Cleared(t, s, rules') == Cleared(t, s, rules);
  }

  /** A workspace whose restore is blocked: a skipped directory inside a directory that was a file. */
  lemma SkippedDirBlocks(rules: Rules, a: Name, skipped: Name) returns (t: Tree, s: Tree)
    requires skipped in rules.skipAnywhere && !Pruned(rules, []) && !Pruned(rules, [a])
    ensures WellFormed(t) && SnapshotShape(s, rules) && Blocked(t, s, rules)
  {
    t := map[[] := Dir, [a] := Dir, [a, skipped] := Dir];
    s := map[[] := Dir, [a] := File([])];
    assert Parent([a]) == [] && Parent([a, skipped]) == [a];
    assert [a, skipped][1] in rules.skipAnywhere;
    assert [a] <= [a, skipped] && KeptItself(t, s, rules, [a, skipped]);
    assert Kept(t, s, rules, [a]);
  }

  /** A restored workspace is a tree again exactly when no kept directory stands in the way. */
  lemma RestoredFormIffUnblocked(t: Tree, s: Tree, rules: Rules)
    requires WellFormed(t) && SnapshotShape(s, rules)
    ensures WellFormed(Restored(t, s, rules)) <==> !Blocked(t, s, rules)
  {
    var c, r := Cleared(t, s, rules), Restored(t, s, rules);
    ClearedKeepsForm(t, s, rules);
    if !Blocked(t, s, rules) {
      forall p | p in r && p != []
        ensures Parent(p) in r && r[Parent(p)].Dir?
      {
        if p !in s {
          assert p in c;
          assert Parent(p) in c && Kept(t, s, rules, Parent(p));
        }
      }
    } else {
      var p :| p in s && !s[p].Dir? && Kept(t, s, rules, p);
      KeptUnderSnapshotIsDir(t, s, rules, p);
      var q :| p <= q && KeptItself(t, s, rules, q);
      ProperPrefix(p, q);
      assert q in r;
      if WellFormed(r) {
        AncestorIsDir(r, p, q);
      }
    }
  }

  // ----- Interruption

  /** A state an interrupted restore may leave behind: everything to be kept is still there, and
      everything else is something the next clear will delete. */
  ghost predicate Resumable(t: Tree, s: Tree, rules: Rules, u: Tree)
  {
    && WellFormed(u)
    && (forall p :: p in t && Kept(t, s, rules, p) ==> p in u && u[p] == t[p])
    && (forall p :: p in u && !(p in t && Kept(t, s, rules, p)) ==> !KeptItself(u, s, rules, p))
  }

  lemma ResumableKeepsTheSame(t: Tree, s: Tree, rules: Rules, u: Tree, p: Path)
    requires Resumable(t, s, rules, u) && WellFormed(t)
    ensures KeptItself(t, s, rules, p) <==> KeptItself(u, s, rules, p)
    ensures (p in t && Kept(t, s, rules, p)) <==> (p in u && Kept(u, s, rules, p))
  {
    forall q
      ensures KeptItself(t, s, rules, q) <==> KeptItself(u, s, rules, q)
    {
      if KeptItself(t, s, rules, q) {
        assert q <= q;
        assert Kept(t, s, rules, q);
      }
    }
    if p in u && Kept(u, s, rules, p) && p != [] {
      var q :| p <= q && KeptItself(u, s, rules, q);
      if p != q {
        ProperPrefix(p, q);
        AncestorIsDir(t, p, q);
      }
    }
  }

  /** Convergence: restoring from a state an interrupted restore left behind reaches exactly the
      workspace the uninterrupted restore would have reached, and is blocked exactly when that was. */
  lemma InterruptedRestoreConverges(t: Tree, s: Tree, rules: Rules, u: Tree)
    requires WellFormed(t) && Resumable(t, s, rules, u)
    ensures Restored(u, s, rules) == Restored(t, s, rules)
    ensures Blocked(u, s, rules) <==> Blocked(t, s, rules)
  {
    forall p
      ensures (p in t && Kept(t, s, rules, p)) <==> (p in u && Kept(u, s, rules, p))
    {
      ResumableKeepsTheSame(t, s, rules, u, p);
    }
    assert Cleared(u, s, rules) == Cleared(t, s, rules);
    if Blocked(t, s, rules) {
      var p :| p in s && !s[p].Dir? && Kept(t, s, rules, p);
      assert Kept(u, s, rules, p);
    }
    if Blocked(u, s, rules) {
      var p :| p in s && !s[p].Dir? && Kept(u, s, rules, p);
      assert Kept(t, s, rules, p);
    }
  }

  /** Any number of interrupted attempts in a row is as good as one. */
  lemma ResumableComposes(t: Tree, s: Tree, rules: Rules, u: Tree, v: Tree)
    requires WellFormed(t)
    requires Resumable(t, s, rules, u) && Resumable(u, s, rules, v)
    ensures Resumable(t, s, rules, v)
  {
    forall p
      ensures (p in t && Kept(t, s, rules, p)) <==> (p in u && Kept(u, s, rules, p))
    {
      ResumableKeepsTheSame(t, s, rules, u, p);
    }
  }

  // ----- Round trip

  /** Restoring a snapshot of the present workspace changes nothing, whatever the workspace holds. */
  lemma SnapshotThenRestoreIsIdentity(t: Tree, rules: Rules)
    requires WellFormed(t)
    ensures Restored(t, Captured(t, rules), rules) == t
    ensures !Blocked(t, Captured(t, rules), rules)
  {
    var s := Captured(t, rules);
    CapturedHasShape(t, rules);
    forall p | p in t
      ensures p in Restored(t, s, rules) && Restored(t, s, rules)[p] == t[p]
    {
      RestoreIsExact(t, s, rules, p);
      if p !in s && !Pruned(rules, p) && LinkOnTheWay(s, p) {
        var i :| 0 <= i < |p| && p[..i] in s && s[p[..i]].Symlink?;
        AncestorIsDir(t, p[..i], p);
      }
    }
    if Blocked(t, s, rules) {
      var p :| p in s && !s[p].Dir? && Kept(t, s, rules, p);
      KeptUnderSnapshotIsDir(t, s, rules, p);
    }
  }

  // ----- A directory seen as a tree of its own

  function Below(t: Tree, base: Path): set<Path>
  {
    set p | p in t && base <= p :: p[|base|..]
  }

  lemma BelowHolds(t: Tree, base: Path, r: Path)
    ensures r in Below(t, base) <==> base + r in t
  {
    if base + r in t {
      assert base <= base + r && (base + r)[|base|..] == r;
    }
    if r in Below(t, base) {
      var p :| p in t && base <= p && p[|base|..] == r;
      assert p == base + r;
    }
  }

  /** The contents of the directory `base`, by paths relative to it. */
  function Subtree(t: Tree, base: Path): (s: Tree)
    ensures forall r :: r in s <==> base + r in t
    ensures forall r :: r in s ==> s[r] == t[base + r]
  {
    assert forall r :: r in Below(t, base) <==> base + r in t by {
      forall r ensures r in Below(t, base) <==> base + r in t { BelowHolds(t, base, r); }
    }
    map r | r in Below(t, base) :: t[base + r]
  }

  /** The inverse: the tree `s` placed at `base`. */
  function Planted(s: Tree, base: Path): (u: Tree)
    ensures forall r :: r in s <==> base + r in u
    ensures forall r :: r in s ==> u[base + r] == s[r]
    ensures forall p :: p in u ==> base <= p
  {
    assert forall r: Path :: (base + r)[|base|..] == r;
    map p | p in (set r | r in s :: base + r) :: s[p[|base|..]]
  }

  /** Nothing changed at `p` from `t` to `u`. */
  ghost predicate Untouched(t: Tree, u: Tree, p: Path)
  {
    (p in u <==> p in t) && (p in u ==> u[p] == t[p])
  }

  lemma SameSubtree(t: Tree, u: Tree, base: Path)
    requires forall p :: base <= p ==> Untouched(t, u, p)
    ensures Subtree(t, base) == Subtree(u, base)
  {
    forall r
      ensures Untouched(t, u, base + r)
    {
      assert base <= base + r;
    }
  }
}
