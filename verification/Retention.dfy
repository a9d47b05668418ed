/** Which checkpoints the retention cap removes: names by their trailing time stamp, oldest first. */
module Retention {
  import opened Text

  // ----- Names

  const STAMP_LIMIT: nat := 0x1_0000_0000_0000_0000_0000_0000_0000_0000

  /** The part of a name after its last underscore. */
  function LastPart(name: string): (part: string)
    ensures |part| <= |name| && part == name[|name| - |part|..] && '_' !in part
    ensures |part| < |name| ==> name[|name| - |part| - 1] == '_'
  {
    if name == "" || name[|name| - 1] == '_' then ""
    else LastPart(name[..|name| - 1]) + [name[|name| - 1]]
  }

  predicate AllDigits(s: string)
  {
    forall i :: 0 <= i < |s| ==> '0' <= s[i] <= '9'
  }

  function Value(digits: string): nat
    requires AllDigits(digits)
  {
    if digits == "" then 0 else 10 * Value(digits[..|digits| - 1]) + (digits[|digits| - 1] - '0') as nat
  }

  /** `is_snapshot_name`, past the character check: a label, an underscore and a stamp. */
  predicate IsStamped(name: string)
  {
    '_' in name && LastPart(name) != "" && AllDigits(LastPart(name))
  }

  /** `snapshot_timestamp`: 0 for what is no 128-bit number. */
  function Stamp(name: string): nat
  {
    var part := LastPart(name);
    if part == "" || !AllDigits(part) || Value(part) >= STAMP_LIMIT then 0 else Value(part)
  }

  /** A name made of a label and a stamp is one of ours, and carries that stamp. */
  lemma {:induction false} StampedName(prefix: string, digits: string)
    requires AllDigits(digits)
    ensures LastPart(prefix + "_" + digits) == digits
    decreases |digits|
  {
    var name := prefix + "_" + digits;
    if digits != "" {
      var n := |digits| - 1;
      assert name[..|name| - 1] == prefix + "_" + digits[..n] && name[|name| - 1] == digits[n];
      StampedName(prefix, digits[..n]);
    }
  }

  /** A printed number reads back as itself. */
  lemma {:induction false} DecimalReadsBack(n: nat)
    ensures Decimal(n) != "" && AllDigits(Decimal(n)) && Value(Decimal(n)) == n
  {
    var digit := ['0' + (n % 10) as char];
    if n < 10 {
      assert Value(digit[..0]) == 0;
    } else {
      DecimalReadsBack(n / 10);
      assert Decimal(n) == Decimal(n / 10) + digit && Decimal(n)[..|Decimal(n)| - 1] == Decimal(n / 10);
    }
  }

  /** The names of this shape are a label, an underscore and digits, and no others. */
  lemma StampedIff(name: string)
    ensures IsStamped(name) <==>
            exists front, digits :: digits != "" && AllDigits(digits) && name == front + "_" + digits
  {
    if IsStamped(name) {
      LastPartBehind(name);
      var part := LastPart(name);
      assert name == name[..|name| - |part| - 1] + "_" + part;
    }
    if front, digits :| digits != "" && AllDigits(digits) && name == front + "_" + digits {
      StampedName(front, digits);
      assert name[|front|] == '_';
    }
  }

  lemma {:induction false} LastPartBehind(name: string)
    requires '_' in name
    ensures |LastPart(name)| < |name|
  {
  }

  // ----- Age

  /** The order of `ids.sort()`. */
  predicate Less(a: string, b: string)
    decreases |a|
  {
    b != "" && (a == "" || a[0] < b[0] || (a[0] == b[0] && Less(a[1..], b[1..])))
  }

  lemma {:induction false} LessIsTotal(a: string, b: string)
    ensures a == b || Less(a, b) || Less(b, a)
    decreases |a|
  {
    if a != "" && b != "" && a[0] == b[0] {
      LessIsTotal(a[1..], b[1..]);
      assert a == [a[0]] + a[1..] && b == [b[0]] + b[1..];
    }
  }

  lemma {:induction false} LessIsTransitive(a: string, b: string, c: string)
    requires Less(a, b) && Less(b, c)
    ensures Less(a, c)
    decreases |a|
  {
    if a != "" && a[0] == b[0] == c[0] {
      LessIsTransitive(a[1..], b[1..], c[1..]);
    }
  }

  lemma {:induction false} LessIsStrict(a: string)
    ensures !Less(a, a)
    decreases |a|
  {
    if a != "" {
      LessIsStrict(a[1..]);
    }
  }

  /** The stable sort by stamp of the sorted names: equal stamps by name. */
  predicate Older(a: string, b: string)
  {
    Stamp(a) < Stamp(b) || (Stamp(a) == Stamp(b) && Less(a, b))
  }

  // ----- The oldest beyond the cap, for any order

  type Order = (string, string) -> bool

  ghost predicate IsOrder(before: Order)
  {
    && (forall a, b :: a == b || before(a, b) || before(b, a))
    && (forall a :: !before(a, a))
    && (forall a, b, c :: before(a, b) && before(b, c) ==> before(a, c))
  }

  lemma OlderIsAnOrder()
    ensures IsOrder(Older)
  {
    forall a, b
      ensures a == b || Older(a, b) || Older(b, a)
    {
      LessIsTotal(a, b);
    }
    forall a
      ensures !Older(a, a)
    {
      LessIsStrict(a);
    }
    forall a, b, c | Older(a, b) && Older(b, c)
      ensures Older(a, c)
    {
      if Stamp(a) == Stamp(c) {
        LessIsTransitive(a, b, c);
      }
    }
  }

  ghost function Newer(before: Order, ids: set<string>, id: string): set<string>
  {
    set o | o in ids && before(id, o)
  }

  /** The ids with at least `max` newer ones; a cap of 0 keeps everything. */
  ghost function Expired(before: Order, ids: set<string>, max: nat): set<string>
  {
    if max == 0 then {} else set id | id in ids && |Newer(before, ids, id)| >= max
  }

  ghost predicate Sorted(before: Order, list: seq<string>)
  {
    forall i, j :: 0 <= i < j < |list| ==> before(list[i], list[j])
  }

  ghost function Elements(list: seq<string>): set<string>
  {
    set x | x in list
  }

  lemma ElementsSnoc(list: seq<string>, x: string)
    ensures Elements(list + [x]) == Elements(list) + {x}
  {
  }

  lemma {:induction false} SortedCount(before: Order, list: seq<string>)
    requires IsOrder(before) && Sorted(before, list)
    ensures |Elements(list)| == |list|
  {
    if list != [] {
      var rest := list[1..];
      SortedCount(before, rest);
      assert forall i :: 0 <= i < |rest| ==> rest[i] == list[i + 1];
      assert Elements(list) == {list[0]} + Elements(rest);
    }
  }

  /** In an oldest-first list the newer ones are those behind. */
  lemma NewerIsBehind(before: Order, list: seq<string>, i: nat)
    requires IsOrder(before) && Sorted(before, list) && i < |list|
    ensures |Newer(before, Elements(list), list[i])| == |list| - 1 - i
  {
    var behind := list[i + 1..];
    forall o
      ensures o in Newer(before, Elements(list), list[i]) <==> o in Elements(behind)
    {
      if o in Newer(before, Elements(list), list[i]) {
        var j :| 0 <= j < |list| && list[j] == o;
        assert behind[j - i - 1] == o;
      }
      if o in Elements(behind) {
        var k :| 0 <= k < |behind| && behind[k] == o;
        assert list[i + 1 + k] == o;
      }
    }
    assert Newer(before, Elements(list), list[i]) == Elements(behind);
    SortedCount(before, behind);
  }

  /** Taking the excess off an oldest-first list takes exactly the expired ones, so `max` are left. */
  lemma ExcessIsExpired(before: Order, list: seq<string>, max: nat)
    requires IsOrder(before) && Sorted(before, list) && 0 < max
    ensures var excess := if |list| <= max then 0 else |list| - max;
            && Elements(list[..excess]) == Expired(before, Elements(list), max)
            && |Elements(list) - Expired(before, Elements(list), max)| == |list| - excess
  {
    var excess := if |list| <= max then 0 else |list| - max;
    var ids := Elements(list);
    forall id
      ensures id in Elements(list[..excess]) <==> id in Expired(before, ids, max)
    {
      if id in Elements(list[..excess]) {
        var i :| 0 <= i < excess && list[..excess][i] == id;
        assert list[i] == id;
        NewerIsBehind(before, list, i);
      }
      if id in Expired(before, ids, max) {
        var i :| 0 <= i < |list| && list[i] == id;
        NewerIsBehind(before, list, i);
        assert list[..excess][i] == id;
      }
    }
    SortedCount(before, list[..excess]);
    SortedCount(before, list);
    assert Elements(list[..excess]) == Expired(before, ids, max) && Expired(before, ids, max) <= ids;
    Difference(ids, Expired(before, ids, max));
  }

  lemma Difference<T>(a: set<T>, b: set<T>)
    requires b <= a
    ensures |a - b| == |a| - |b|
  {
    assert a == (a - b) + b;
  }

  lemma {:induction false} NewestExists(before: Order, ids: set<string>) returns (id: string)
    requires IsOrder(before) && ids != {}
    ensures id in ids && forall o :: o in ids && o != id ==> before(o, id)
    decreases ids
  {
    id :| id in ids;
    var first, rest := id, ids - {id};
    assert forall o :: o in ids <==> o == first || o in rest;
    if rest != {} {
      var other := NewestExists(before, rest);
      if before(first, other) {
        id := other;
      } else {
        assert before(other, first);
        forall o | o in rest && o != other
          ensures before(o, first)
        {
          assert before(o, other);
        }
      }
    }
  }

  lemma {:induction false} SortedListExists(before: Order, ids: set<string>) returns (list: seq<string>)
    requires IsOrder(before)
    ensures Sorted(before, list) && Elements(list) == ids
    decreases ids
  {
    list := [];
    if ids != {} {
      var id := NewestExists(before, ids);
      var older := SortedListExists(before, ids - {id});
      list := older + [id];
      assert forall x :: x in older ==> x in Elements(older);
      assert Elements(list) == Elements(older) + {id};
    }
  }

  lemma ExpiredCount(before: Order, ids: set<string>, max: nat)
    requires IsOrder(before) && 0 < max
    ensures |ids - Expired(before, ids, max)| == if |ids| <= max then |ids| else max
  {
    var list := SortedListExists(before, ids);
    ExcessIsExpired(before, list, max);
    SortedCount(before, list);
  }

  /** Whatever is removed is older than whatever stays. */
  lemma ExpiredAreOlder(before: Order, ids: set<string>, max: nat, a: string, b: string)
    requires IsOrder(before) && a in Expired(before, ids, max) && b in ids - Expired(before, ids, max)
    ensures before(a, b)
  {
    if before(b, a) {
      SubsetCount(Newer(before, ids, a), Newer(before, ids, b));
    }
  }

  lemma SubsetCount<T>(a: set<T>, b: set<T>)
    requires a <= b
    ensures |a| <= |b|
  {
    assert b == a + (b - a);
  }

  lemma SortedOnce(before: Order, list: seq<string>, i: nat)
    requires IsOrder(before) && Sorted(before, list) && i < |list|
    ensures list[i] !in Elements(list[..i])
  {
  }

  /** The oldest of some ids. */
  method Oldest(before: Order, ids: set<string>) returns (id: string)
    requires IsOrder(before) && ids != {}
    ensures id in ids && forall o :: o in ids && o != id ==> before(id, o)
  {
    id :| id in ids;
    var rest := ids - {id};
    while rest != {}
      invariant rest <= ids && id in ids && id !in rest
      invariant forall o :: o in ids && o !in rest && o != id ==> before(id, o)
      decreases rest
    {
      var o :| o in rest;
      if before(o, id) {
        id := o;
      }
      rest := rest - {o};
    }
  }

  /** The ids of the storage directory, oldest first. */
  method SortOldestFirst(before: Order, ids: set<string>) returns (list: seq<string>)
    requires IsOrder(before)
    ensures Sorted(before, list) && Elements(list) == ids
  {
    list := [];
    var rest := ids;
    while rest != {}
      invariant rest <= ids && Sorted(before, list) && Elements(list) == ids - rest
      invariant forall i, o :: 0 <= i < |list| && o in rest ==> before(list[i], o)
      decreases rest
    {
      var id := Oldest(before, rest);
      assert Elements(list + [id]) == Elements(list) + {id};
      list, rest := list + [id], rest - {id};
    }
  }
}
