/** Stores on which retention does what one might not expect. */
module CheckpointExamples {
  import opened FileTree
  import opened CheckpointWalks
  import opened Retention
  import opened Checkpoint

  // ----- An empty workspace with empty checkpoints

  const EMPTY_TREE: Tree := map[[] := Dir]

  function Places(names: set<Name>): set<Path>
  {
    {[], STORAGE_ROOT[..1], STORAGE_ROOT} + set n | n in names :: Base(n)
  }

  function Store(names: set<Name>): Tree
  {
    map p | p in Places(names) :: Dir
  }

  lemma StoreAt(names: set<Name>, p: Path)
    ensures p in Store(names) <==>
            p == [] || p == STORAGE_ROOT[..1] || p == STORAGE_ROOT || (InCheckpoint(p, names) && |p| == 3)
    ensures p in Store(names) ==> Store(names)[p] == Dir
  {
    if |p| == 3 && p[..2] == STORAGE_ROOT {
      assert p == Base(p[2]);
    }
    if n :| n in names && p == Base(n) {
      assert p[..2] == STORAGE_ROOT && p[2] == n;
    }
  }

  lemma BaseAt(names: set<Name>, id: string)
    ensures Base(id) in Store(names) <==> id in names
  {
    StoreAt(names, Base(id));
    assert Base(id)[..2] == STORAGE_ROOT && Base(id)[2] == id;
  }

  lemma StoreHasForm(names: set<Name>)
    ensures WellFormed(Store(names))
  {
    var t := Store(names);
    forall p | p in t && p != []
      ensures Parent(p) in t && t[Parent(p)].Dir?
    {
      StoreAt(names, p);
      StoreAt(names, Parent(p));
    }
  }

  lemma StoredIsEmpty(names: set<Name>, id: string)
    ensures Subtree(Store(names), Base(id)) == if id in names then EMPTY_TREE else map[]
  {
    var s := Subtree(Store(names), Base(id));
    BaseAt(names, id);
    assert Base(id) + [] == Base(id);
    forall r
      ensures r in s <==> r == [] && id in names
    {
      StoreAt(names, Base(id) + r);
      assert (Base(id) + r)[..2] == STORAGE_ROOT && (Base(id) + r)[2] == id;
    }
    if id in names {
      assert s[[]] == Dir;
    }
  }

  lemma StoreIsValid(names: set<Name>, rules: Rules)
    requires ".deep-code" in rules.skipAnywhere
    ensures ValidStore(Store(names), rules)
  {
    StoreHasForm(names);
    forall id | IsCheckpoint(Store(names), id)
      ensures SnapshotShape(Subtree(Store(names), Base(id)), rules)
    {
      StoredIsEmpty(names, id);
      BaseAt(names, id);
    }
  }

  lemma AllListed(names: set<Name>)
    requires forall n :: n in names ==> IsSnapshotName(n)
    ensures SnapshotNames(Store(names)) == names
  {
    forall id
      ensures id in SnapshotNames(Store(names)) <==> id in names
    {
      SnapshotNamesHold(Store(names), id);
      BaseAt(names, id);
    }
  }

  lemma StoreIsEmptyWorkspace(names: set<Name>, rules: Rules)
    requires ".deep-code" in rules.skipAnywhere
    ensures Captured(Store(names), rules) == EMPTY_TREE && Visible(Store(names), rules) == EMPTY_TREE
  {
    forall p | p in Store(names) && p != []
      ensures Pruned(rules, p)
    {
      StoreAt(names, p);
      assert |p| >= 2 ==> p[0] == p[..2][0];
    }
    StoreAt(names, []);
  }

  // ----- A stepped-back clock

  lemma OneMoreTaken(rules: Rules, id: string, names: set<Name>)
    requires ".deep-code" in rules.skipAnywhere && ValidId(id)
    ensures SnapshotTaken(Store(names), rules, Store(names + {id}), id, Created(id))
  {
    var t, u := Store(names), Store(names + {id});
    StoreIsEmptyWorkspace(names, rules);
    StoreIsEmptyWorkspace(names + {id}, rules);
    forall p | !Pruned(rules, p)
      ensures Untouched(t, u, p)
    {
      StoreAt(names, p);
      StoreAt(names + {id}, p);
      assert |p| >= 2 ==> p[0] == p[..2][0];
    }
    forall other | other != id
      ensures Subtree(u, Base(other)) == Subtree(t, Base(other))
    {
      StoredIsEmpty(names, other);
      StoredIsEmpty(names + {id}, other);
    }
    StoredIsEmpty(names + {id}, id);
    BaseAt(names + {id}, id);
    StoreAt(names + {id}, Base(id));
  }

  /** With a cap of one, a snapshot with an older stamp than the stored one goes in the call that made it. */
  lemma OlderGoesAtOnce(rules: Rules, older: string, newer: string)
    requires ".deep-code" in rules.skipAnywhere
    requires IsSnapshotName(older) && IsSnapshotName(newer) && Older(older, newer) && older != newer
    ensures var taken := Store({newer} + {older});
            && ValidStore(taken, rules) && SnapshotNames(taken) == {newer, older}
            && older in Expired(Older, {newer, older}, 1)
            && older !in SnapshotNames(Without(taken, Expired(Older, {newer, older}, 1)))
  {
    var names := {newer} + {older};
    assert names == {newer, older};
    StoreIsValid(names, rules);
    AllListed(names);
    OlderIsExpired(older, newer);
    NewestAreLeft(Store(names), rules, 1, older);
  }

  // ----- A removal that stopped half way

  /** The store of these checkpoints, a file `a` in the workspace and, when asked for, in the checkpoint `id`. */
  function WithFile(names: set<Name>, id: string, stored: bool): Tree
  {
    var t := Store(names)[["a"] := File([])];
    if stored then t[Base(id) + ["a"] := File([])] else t
  }

  lemma FileIsNew(names: set<Name>)
    ensures ["a"] !in Store(names)
  {
    StoreAt(names, ["a"]);
    assert ["a"][0] == "a" && STORAGE_ROOT[..1][0] == ".deep-code" && |"a"| != |".deep-code"|;
  }

  lemma FileIsThere(names: set<Name>, id: string, stored: bool)
    requires id in names
    ensures ["a"] in WithFile(names, id, stored) && WithFile(names, id, stored)[["a"]].File?
    ensures Base(id) in WithFile(names, id, stored)
  {
    BaseAt(names, id);
    assert |Base(id) + ["a"]| == 4;
  }

  lemma WithFileHasForm(names: set<Name>, id: string, stored: bool)
    requires id in names
    ensures WellFormed(WithFile(names, id, stored))
  {
    StoreHasForm(names);
    StoreAt(names, []);
    BaseAt(names, id);
    StoreAt(names, Base(id));
    assert Parent(["a"]) == [] && Parent(Base(id) + ["a"]) == Base(id);
    FileIsNew(names);
    PutKeepsForm(Store(names), ["a"], File([]));
    StoreAt(names, Base(id) + ["a"]);
    PutKeepsForm(Store(names)[["a"] := File([])], Base(id) + ["a"], File([]));
  }

  lemma FileLeftOut(names: set<Name>, id: string)
    requires id in names
    ensures PartLeft(WithFile(names, id, true), WithFile(names, id, false), {id})
    ensures Base(id) + ["a"] !in WithFile(names, id, false)
  {
    WithFileHasForm(names, id, false);
    StoreAt(names, Base(id) + ["a"]);
    assert Base(id) <= Base(id) + ["a"];
    InOneCheckpoint(Base(id) + ["a"], id);
  }

  lemma StoredFile(names: set<Name>, id: string, other: string, r: Path)
    requires id in names && Base(other) + r in WithFile(names, id, true)
    ensures r == [] || (r == ["a"] && other == id)
  {
    var p := Base(other) + r;
    StoreAt(names, p);
    assert p[3..] == r && p[2] == other && |p| >= 3;
    if p == Base(id) + ["a"] {
      assert (Base(id) + ["a"])[3..] == ["a"] && (Base(id) + ["a"])[2] == id;
    }
  }

  lemma WithFileIsValid(names: set<Name>, id: string, rules: Rules)
    requires ".deep-code" in rules.skipAnywhere && !Pruned(rules, ["a"]) && id in names
    ensures ValidStore(WithFile(names, id, true), rules)
  {
    var t := WithFile(names, id, true);
    WithFileHasForm(names, id, true);
    forall other | IsCheckpoint(t, other)
      ensures SnapshotShape(Subtree(t, Base(other)), rules)
    {
      PartKeepsForm(t, t, Base(other));
      assert Base(other) + [] == Base(other);
      forall r | r in Subtree(t, Base(other))
        ensures !Pruned(rules, r) && Capturable(t[Base(other) + r], rules)
      {
        StoredFile(names, id, other, r);
      }
    }
  }

  lemma WithFileListed(names: set<Name>, id: string)
    requires forall n :: n in names ==> IsSnapshotName(n)
    ensures SnapshotNames(WithFile(names, id, true)) == names
  {
    AllListed(names);
    forall n
      ensures n in SnapshotNames(WithFile(names, id, true)) <==> n in names
    {
      SnapshotNamesHold(WithFile(names, id, true), n);
      SnapshotNamesHold(Store(names), n);
      assert |Base(n)| == 3 && |Base(id) + ["a"]| == 4;
    }
  }

  /** The older of two checkpoints lost its file `a` in a removal that stopped half way: it is still offered,
      and restoring it deletes the workspace's `a`. */
  lemma HalfRemovedDeletes(rules: Rules, older: string, newer: string) returns (t: Tree, u: Tree)
    requires ".deep-code" in rules.skipAnywhere && !Pruned(rules, ["a"])
    requires IsSnapshotName(older) && IsSnapshotName(newer) && Older(older, newer) && older != newer
    ensures ValidStore(t, rules) && Retained(t, u, 1, {}, {older}) && older in SnapshotNames(u)
    ensures ["a"] in u && ["a"] !in Restored(u, Subtree(u, Base(older)), rules)
  {
    var names := {newer, older};
    t, u := WithFile(names, older, true), WithFile(names, older, false);
    WithFileIsValid(names, older, rules);
    WithFileListed(names, older);
    FileLeftOut(names, older);
    FileIsThere(names, older, true);
    FileIsThere(names, older, false);
    DamagedStillRestores(t, u, rules, older, ["a"]);
    OlderIsExpired(older, newer);
    OneIsDamaged(t, u, 1, older);
  }

  lemma OlderIsExpired(older: string, newer: string)
    requires Older(older, newer) && older != newer
    ensures older in Expired(Older, {newer, older}, 1)
  {
    OlderIsAnOrder();
    assert Newer(Older, {newer, older}, older) == {newer};
  }

  lemma OneIsDamaged(t: Tree, u: Tree, max: nat, id: string)
    requires WellFormed(t) && PartLeft(t, u, {id}) && id in Expired(Older, SnapshotNames(t), max)
    ensures Retained(t, u, max, {}, {id})
  {
    WithoutNothing(t);
  }

  // ----- With actual names

  const FIRST: string := "x" + "_" + "1"
  const SECOND: string := "x" + "_" + "2"

  lemma DigitValue(digit: char)
    requires '0' <= digit <= '9'
    ensures AllDigits([digit]) && Value([digit]) == (digit - '0') as nat
  {
    assert [digit][..0] == "" && Value("") == 0;
  }

  lemma IsShortName(name: string, digit: char)
    requires '0' <= digit <= '9' && |name| == 3 && name[0] == 'x' && name[1] == '_' && name[2] == digit
    ensures ValidId(name) && '_' in name
  {
    assert IsIdChar(name[0]) && IsIdChar(name[1]) && IsIdChar(name[2]);
  }

  lemma NameOf(digit: char)
    requires '0' <= digit <= '9'
    ensures var name := "x" + "_" + [digit]; IsSnapshotName(name) && Stamp(name) == (digit - '0') as nat
  {
    var name := "x" + "_" + [digit];
    DigitValue(digit);
    IsShortName(name, digit);
    StampedName("x", [digit]);
  }

  lemma FirstIsOlder()
    ensures IsSnapshotName(FIRST) && IsSnapshotName(SECOND) && Older(FIRST, SECOND) && FIRST != SECOND
  {
    NameOf('1');
    NameOf('2');
  }

  /** A clock that stepped back: with a cap of one, a store that holds `x_2` takes the snapshot `x_1` and
      removes it in the same call. */
  lemma SteppedBackClock(rules: Rules) returns (t: Tree, taken: Tree)
    requires ".deep-code" in rules.skipAnywhere
    ensures ValidStore(t, rules) && SnapshotNames(t) == {SECOND}
    ensures ValidStore(taken, rules) && SnapshotTaken(t, rules, taken, FIRST, Created(FIRST))
    ensures FIRST in SnapshotNames(taken)
    ensures FIRST !in SnapshotNames(Without(taken, Expired(Older, SnapshotNames(taken), 1)))
  {
    FirstIsOlder();
    t, taken := Store({SECOND}), Store({SECOND} + {FIRST});
    StoreIsValid({SECOND}, rules);
    AllListed({SECOND});
    OneMoreTaken(rules, FIRST, {SECOND});
    OlderGoesAtOnce(rules, FIRST, SECOND);
  }
}
