/** Facts about sequences the other modules share. */
module Sequences {

  function FlatMap<T, U>(f: T -> seq<U>, s: seq<T>): seq<U>
  {
    if s == [] then [] else f(s[0]) + FlatMap(f, s[1..])
  }

  function Filter<T>(keep: T -> bool, s: seq<T>): seq<T>
  {
    if s == [] then [] else (if keep(s[0]) then [s[0]] else []) + Filter(keep, s[1..])
  }

  lemma Assoc<T>(a: seq<T>, b: seq<T>, c: seq<T>)
    ensures a + b + c == a + (b + c)
  {
  }

  lemma TailOfConcat<T>(a: seq<T>, b: seq<T>)
    requires a != []
    ensures (a + b)[0] == a[0] && (a + b)[1..] == a[1..] + b
  {
  }

  lemma {:induction false} FlatMapConcat<T, U>(f: T -> seq<U>, a: seq<T>, b: seq<T>)
    ensures FlatMap(f, a + b) == FlatMap(f, a) + FlatMap(f, b)
  {
    if a == [] {
      assert a + b == b;
    } else {
      TailOfConcat(a, b);
      FlatMapConcat(f, a[1..], b);
      Assoc(f(a[0]), FlatMap(f, a[1..]), FlatMap(f, b));
    }
  }

  lemma {:induction false} FlatMapAround<T, U>(f: T -> seq<U>, s: seq<T>, i: nat)
    requires i < |s|
    ensures FlatMap(f, s) == FlatMap(f, s[..i]) + f(s[i]) + FlatMap(f, s[i + 1..])
  {
    var rest := s[i..];
    assert s == s[..i] + rest && rest[0] == s[i] && rest[1..] == s[i + 1..];
    FlatMapConcat(f, s[..i], rest);
    Assoc(FlatMap(f, s[..i]), f(s[i]), FlatMap(f, s[i + 1..]));
  }

  lemma {:induction false} FilterConcat<T>(keep: T -> bool, a: seq<T>, b: seq<T>)
    ensures Filter(keep, a + b) == Filter(keep, a) + Filter(keep, b)
  {
    if a == [] {
      assert a + b == b;
    } else {
      TailOfConcat(a, b);
      FilterConcat(keep, a[1..], b);
      Assoc(if keep(a[0]) then [a[0]] else [], Filter(keep, a[1..]), Filter(keep, b));
    }
  }

  lemma FilterOne<T>(keep: T -> bool, x: T)
    ensures Filter(keep, [x]) == if keep(x) then [x] else []
  {
    assert [x][1..] == [];
  }

  lemma UpdateInTheMiddle<T>(a: seq<T>, b: seq<T>, c: seq<T>, j: nat, x: T)
    requires j < |b|
    ensures (a + b + c)[|a| + j] == b[j]
    ensures a + b[j := x] + c == (a + b + c)[|a| + j := x]
  {
  }

  function DropFront<T>(p: T -> bool, s: seq<T>): (r: seq<T>)
    ensures |r| <= |s| && r == s[|s| - |r|..]
    ensures r != [] ==> !p(r[0])
  {
    if s != [] && p(s[0]) then DropFront(p, s[1..]) else s
  }

  lemma {:induction false} DropFrontCuts<T>(p: T -> bool, s: seq<T>, i: nat)
    requires i < |s| - |DropFront(p, s)|
    ensures p(s[i])
  {
    if p(s[0]) {
      if i > 0 {
        DropFrontCuts(p, s[1..], i - 1);
        assert s[1..][i - 1] == s[i];
      }
    }
  }

  function DropBack<T>(p: T -> bool, s: seq<T>): (r: seq<T>)
    ensures |r| <= |s| && r == s[..|r|]
    ensures r != [] ==> !p(r[|r| - 1])
  {
    if s != [] && p(s[|s| - 1]) then DropBack(p, s[..|s| - 1]) else s
  }

  lemma {:induction false} DropBackCuts<T>(p: T -> bool, s: seq<T>, i: nat)
    requires |DropBack(p, s)| <= i < |s|
    ensures p(s[i])
  {
    var n := |s| - 1;
    assert DropBack(p, s) == if p(s[n]) then DropBack(p, s[..n]) else s;
    if i < n {
      DropBackCuts(p, s[..n], i);
      assert s[..n][i] == s[i];
    }
  }

  lemma {:induction false} DropBackKeepsFirst<T>(p: T -> bool, s: seq<T>, y: T)
    requires s != [] && !p(s[0]) && !p(y)
    ensures DropBack(p, s) != [] && DropBack(p, s)[0] == s[0]
    ensures DropBack(p, [y] + s[1..]) == [y] + DropBack(p, s)[1..]
    decreases |s|
  {
    var n := |s| - 1;
    if p(s[n]) {
      DropBackKeepsFirst(p, s[..n], y);
      assert ([y] + s[1..])[..n] == [y] + s[..n][1..];
    }
  }

  lemma FrontAndLast<T>(s: seq<T>)
    requires s != []
    ensures s == s[..|s| - 1] + [s[|s| - 1]]
  {
  }

  lemma PartOfPart<T>(s: seq<T>, front: seq<T>, core: seq<T>, d: nat)
    requires |front| <= |s| && d == |s| - |front| && front == s[d..] && |core| <= |front| && core == front[..|core|]
    ensures core == s[d..d + |core|]
  {
    PrefixOfSuffix(s, d, |core|);
  }

  lemma PrefixOfSuffix<T>(s: seq<T>, d: nat, n: nat)
    requires d + n <= |s|
    ensures s[d..][..n] == s[d..d + n]
  {
    forall i | 0 <= i < n
      ensures s[d..][..n][i] == s[d..d + n][i]
    {
      assert s[d..][i] == s[d + i];
    }
  }

  ghost predicate Every<T>(p: T -> bool, s: seq<T>)
  {
    forall i :: 0 <= i < |s| ==> p(s[i])
  }

  lemma ReplacedStillEvery<T>(p: T -> bool, s: seq<T>, x: T)
    requires s != [] && Every(p, s) && p(x)
    ensures Every(p, [x] + s[1..]) && Every(p, s[..|s| - 1] + [x])
  {
  }

  lemma {:induction false} DroppedOutside<T>(p: T -> bool, s: seq<T>, front: seq<T>, core: seq<T>, i: nat)
    requires front == DropFront(p, s) && core == DropBack(p, front)
    requires i < |s| && (i < |s| - |front| || |s| - |front| + |core| <= i)
    ensures p(s[i])
  {
    var d := |s| - |front|;
    if i < d {
      DropFrontCuts(p, s, i);
    } else {
      assert front[i - d] == s[i];
      DropBackCuts(p, front, i - d);
    }
  }

  lemma LastStill<T>(p: T -> bool, s: seq<T>, x: T)
    requires s != [] && p(s[|s| - 1]) && p(x)
    ensures var r := [x] + s[1..]; p(r[|r| - 1])
  {
  }

  lemma {:induction false} DroppedKeeps<T>(q: T -> bool, p: T -> bool, s: seq<T>)
    requires Every(q, s)
    ensures Every(q, DropBack(p, DropFront(p, s)))
  {
    var front := DropFront(p, s);
    assert Every(q, front);
  }

  lemma {:induction false} FilterSnoc<T>(keep: T -> bool, front: seq<T>, last: T)
    ensures Filter(keep, front + [last]) == Filter(keep, front) + if keep(last) then [last] else []
  {
    FilterConcat(keep, front, [last]);
    FilterOne(keep, last);
  }
}
