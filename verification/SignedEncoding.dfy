/** The bytes a session's grants are signed over, and the hex spelling of the tag
    (`message`, `to_hex`, `from_hex`). */
module SignedEncoding {
  import opened Wrappers
  import opened Sequences

  type Bytes = seq<Byte>

  // ----- Little-endian lengths

  /** The `k` low-order bytes of `n`, lowest first. */
  function LittleEndian(n: nat, k: nat): (r: Bytes)
    ensures |r| == k
  {
    if k == 0 then [] else [n % 256] + LittleEndian(n / 256, k - 1)
  }

  function Pow256(k: nat): (r: nat)
    ensures r > 0
  {
    if k == 0 then 1 else 256 * Pow256(k - 1)
  }

  const LENGTH_LIMIT: nat := Pow256(8)

  lemma {:induction false} LittleEndianInjective(n: nat, m: nat, k: nat)
    requires n < Pow256(k) && m < Pow256(k) && LittleEndian(n, k) == LittleEndian(m, k)
    ensures n == m
  {
    if k > 0 {
      var a, b := LittleEndian(n, k), LittleEndian(m, k);
      assert a[0] == b[0] && a[1..] == LittleEndian(n / 256, k - 1) && b[1..] == LittleEndian(m / 256, k - 1);
      LittleEndianInjective(n / 256, m / 256, k - 1);
    }
  }

  // ----- The signed message

  function Field(bytes: Bytes): Bytes
  {
    LittleEndian(|bytes|, 8) + bytes
  }

  function Fields(roots: seq<Bytes>): Bytes
  {
    if roots == [] then [] else Field(roots[0]) + Fields(roots[1..])
  }

  function SignedMessage(id: Bytes, workspace: Bytes, roots: seq<Bytes>): Bytes
  {
    Field(id) + Field(workspace) + Field(LittleEndian(|roots|, 8)) + Fields(roots)
  }

  predicate Short(bytes: Bytes)
  {
    |bytes| < LENGTH_LIMIT
  }

  /** A field says where it ends, whatever follows. */
  lemma FieldIsPrefixFree(a: Bytes, b: Bytes, afterA: Bytes, afterB: Bytes)
    requires Short(a) && Short(b) && Field(a) + afterA == Field(b) + afterB
    ensures a == b && afterA == afterB
  {
    var whole := Field(a) + afterA;
    assert whole[..8] == LittleEndian(|a|, 8) && whole[..8] == LittleEndian(|b|, 8);
    LittleEndianInjective(|a|, |b|, 8);
    assert whole[8..8 + |a|] == a && whole[8..8 + |a|] == b;
    assert whole[8 + |a|..] == afterA && whole[8 + |a|..] == afterB;
  }

  lemma {:induction false} FirstField(a: seq<Bytes>, after: Bytes)
    requires a != []
    ensures Fields(a) + after == Field(a[0]) + (Fields(a[1..]) + after)
  {
  }

  lemma {:induction false} FieldsArePrefixFree(a: seq<Bytes>, b: seq<Bytes>, afterA: Bytes, afterB: Bytes)
    requires |a| == |b| && (forall i :: 0 <= i < |a| ==> Short(a[i]) && Short(b[i]))
    requires Fields(a) + afterA == Fields(b) + afterB
    ensures a == b && afterA == afterB
  {
    if a == [] {
      assert [] + afterA == afterA && [] + afterB == afterB;
    } else {
      FirstField(a, afterA);
      FirstField(b, afterB);
      FieldIsPrefixFree(a[0], b[0], Fields(a[1..]) + afterA, Fields(b[1..]) + afterB);
      FieldsArePrefixFree(a[1..], b[1..], afterA, afterB);
      assert a == [a[0]] + a[1..] && b == [b[0]] + b[1..];
    }
  }

  datatype Grant = Grant(id: Bytes, workspace: Bytes, roots: seq<Bytes>)

  predicate Encodable(g: Grant)
  {
    Short(g.id) && Short(g.workspace) && |g.roots| < LENGTH_LIMIT
      && forall i :: 0 <= i < |g.roots| ==> Short(g.roots[i])
  }

  function Encode(g: Grant): Bytes
  {
    SignedMessage(g.id, g.workspace, g.roots)
  }

  lemma EncodeRegroups(g: Grant, after: Bytes)
    ensures Encode(g) + after ==
            Field(g.id) + (Field(g.workspace) + (Field(LittleEndian(|g.roots|, 8)) + (Fields(g.roots) + after)))
  {
  }

  lemma {:induction false} CountIsShort(n: nat)
    ensures Short(LittleEndian(n, 8))
  {
    assert Pow256(8) == 256 * Pow256(7) && Pow256(7) > 0;
  }

  /** No grant's bytes begin another's, so no two grants share theirs. */
  lemma EncodingIsPrefixFree(g: Grant, h: Grant, afterG: Bytes, afterH: Bytes)
    requires Encodable(g) && Encodable(h) && Encode(g) + afterG == Encode(h) + afterH
    ensures g == h && afterG == afterH
  {
    EncodeRegroups(g, afterG);
    EncodeRegroups(h, afterH);
    var restG, restH := Fields(g.roots) + afterG, Fields(h.roots) + afterH;
    var countG, countH := LittleEndian(|g.roots|, 8), LittleEndian(|h.roots|, 8);
    FieldIsPrefixFree(g.id, h.id, Field(g.workspace) + (Field(countG) + restG),
                      Field(h.workspace) + (Field(countH) + restH));
    FieldIsPrefixFree(g.workspace, h.workspace, Field(countG) + restG, Field(countH) + restH);
    CountIsShort(|g.roots|);
    CountIsShort(|h.roots|);
    FieldIsPrefixFree(countG, countH, restG, restH);
    LittleEndianInjective(|g.roots|, |h.roots|, 8);
    FieldsArePrefixFree(g.roots, h.roots, afterG, afterH);
  }

  lemma EncodingIsInjective(g: Grant, h: Grant)
    requires Encodable(g) && Encodable(h)
    ensures Encode(g) == Encode(h) <==> g == h
  {
    if Encode(g) == Encode(h) {
      EncodingIsPrefixFree(g, h, [], []);
    }
  }

  /** The buffer as it is filled. */
  method BuildMessage(id: Bytes, workspace: Bytes, roots: seq<Bytes>) returns (out: Bytes)
    ensures out == SignedMessage(id, workspace, roots)
  {
    out := Field(id);
    out := out + Field(workspace);
    out := out + Field(LittleEndian(|roots|, 8));
    ghost var head := out;
    assert roots[0..] == roots;
    for i := 0 to |roots|
      invariant out + Fields(roots[i..]) == head + Fields(roots)
    {
      assert roots[i..][0] == roots[i] && roots[i..][1..] == roots[i + 1..];
      Assoc(out, Field(roots[i]), Fields(roots[i + 1..]));
      out := out + Field(roots[i]);
    }
    assert out + [] == out;
  }

  // ----- Hex

  /** ASCII: `0`-`9`, then `a`-`f`. */
  function Digit(v: Byte): (c: Byte)
    requires v < 16
    ensures IsLower(c) && ValueOf(c) == Some(v)
  {
    if v < 10 then 48 + v else 87 + v
  }

  function ValueOf(c: Byte): (v: Option<Byte>)
    ensures v.Some? ==> v.value < 16
  {
    if 48 <= c <= 57 then Some(c - 48)
    else if 97 <= c <= 102 then Some(c - 87)
    else if 65 <= c <= 70 then Some(c - 55)
    else None
  }

  /** A digit in the spelling `to_hex` uses. */
  predicate IsLower(c: Byte)
  {
    48 <= c <= 57 || 97 <= c <= 102
  }

  /** `0`-`9`, `A`-`F`, `a`-`f`. */
  predicate IsHexDigit(c: Byte)
  {
    48 <= c <= 57 || 65 <= c <= 70 || 97 <= c <= 102
  }

  const SMALL_DIGITS: seq<int> := [48, 49, 50, 51, 52, 53, 54, 55, 56, 57, 97, 98, 99, 100, 101, 102]
  const LARGE_DIGITS: seq<int> := [48, 49, 50, 51, 52, 53, 54, 55, 56, 57, 65, 66, 67, 68, 69, 70]

  /** A digit means its place among the sixteen, in either case. */
  lemma DigitsMean(c: Byte, v: Byte)
    ensures ValueOf(c).Some? <==> IsHexDigit(c)
    ensures ValueOf(c) == Some(v) <==>
            v < 16 && (c as int == SMALL_DIGITS[v as int] || c as int == LARGE_DIGITS[v as int])
  {
  }

  const PLUS: Byte := 43

  /** `u8::from_str_radix` of two characters: two digits, or a plus sign and one. */
  function PairValue(high: Byte, low: Byte): Option<Byte>
  {
    if high == PLUS then ValueOf(low)
    else if ValueOf(high).Some? && ValueOf(low).Some? then Some(16 * ValueOf(high).value + ValueOf(low).value)
    else None
  }

  function ToHex(bytes: Bytes): (text: Bytes)
    ensures |text| == 2 * |bytes|
  {
    if bytes == [] then [] else [Digit(bytes[0] / 16), Digit(bytes[0] % 16)] + ToHex(bytes[1..])
  }

  function FromHex(text: Bytes): (r: Option<Bytes>)
    ensures r.Some? ==> |text| == 2 * |r.value|
  {
    if text == [] then Some([])
    else if |text| == 1 then None
    else
      match (PairValue(text[0], text[1]), FromHex(text[2..]))
      case (Some(byte), Some(rest)) => Some([byte] + rest)
      case _ => None
  }

  lemma DigitsRead(byte: Byte)
    ensures PairValue(Digit(byte / 16), Digit(byte % 16)) == Some(byte)
  {
  }

  lemma {:induction false} FromHexUndoesToHex(bytes: Bytes)
    ensures FromHex(ToHex(bytes)) == Some(bytes)
  {
    if bytes != [] {
      FromHexUndoesToHex(bytes[1..]);
      assert ToHex(bytes)[2..] == ToHex(bytes[1..]);
      DigitsRead(bytes[0]);
      assert bytes == [bytes[0]] + bytes[1..];
    }
  }

  /** What `from_hex` accepts: an even number of characters, each pair a digit or plus sign and a digit. */
  lemma {:induction false} FromHexAcceptsExactly(text: Bytes)
    ensures FromHex(text).Some? <==>
            && |text| % 2 == 0
            && forall i :: 0 <= i < |text| ==> IsHexDigit(text[i]) || (i % 2 == 0 && text[i] == PLUS)
  {
    if |text| >= 2 {
      FromHexAcceptsExactly(text[2..]);
      assert forall i :: 2 <= i < |text| ==> text[i] == text[2..][i - 2];
      assert forall i :: 0 <= i < |text| - 2 ==> text[2..][i] == text[i + 2];
    }
  }

  /** An accepted text is the one `to_hex` writes exactly when it holds no plus sign and no capital:
      `from_hex` also reads `+f` and `FF`. */
  lemma {:induction false} ToHexUndoesFromHexIff(text: Bytes)
    requires FromHex(text).Some?
    ensures ToHex(FromHex(text).value) == text <==> forall i :: 0 <= i < |text| ==> IsLower(text[i])
  {
    if |text| >= 2 {
      var rest := FromHex(text[2..]).value;
      ToHexUndoesFromHexIff(text[2..]);
      OnePairMore(text, PairValue(text[0], text[1]).value, rest);
      LowerInTwo(text);
    }
  }

  lemma {:induction false} OnePairMore(text: Bytes, byte: Byte, rest: Bytes)
    requires |text| >= 2 && PairValue(text[0], text[1]) == Some(byte)
    ensures ToHex([byte] + rest) == text <==> IsLower(text[0]) && IsLower(text[1]) && ToHex(rest) == text[2..]
  {
    var back := ToHex([byte] + rest);
    assert ([byte] + rest)[1..] == rest;
    assert back == [Digit(byte / 16), Digit(byte % 16)] + ToHex(rest) && back[2..] == ToHex(rest);
    PairSpelling(text[0], text[1]);
    assert text == [text[0], text[1]] + text[2..];
  }

  lemma LowerInTwo(text: Bytes)
    requires |text| >= 2
    ensures (forall i :: 0 <= i < |text| ==> IsLower(text[i])) <==>
            IsLower(text[0]) && IsLower(text[1]) && forall i :: 0 <= i < |text[2..]| ==> IsLower(text[2..][i])
  {
    assert forall i :: 2 <= i < |text| ==> text[i] == text[2..][i - 2];
    assert forall i :: 0 <= i < |text| - 2 ==> text[2..][i] == text[i + 2];
  }

  lemma PairSpelling(high: Byte, low: Byte)
    requires PairValue(high, low).Some?
    ensures var byte := PairValue(high, low).value;
            (Digit(byte / 16) == high && Digit(byte % 16) == low) <==> IsLower(high) && IsLower(low)
  {
  }

  /** So two texts can name the same tag. */
  lemma PlusSpellsTheSame()
    ensures FromHex([PLUS, 102]) == FromHex([48, 102]) == Some([15])
  {
    assert [PLUS, 102][2..] == [] && [48, 102][2..] == [];
    assert PairValue(PLUS, 102) == Some(15) && PairValue(48, 102) == Some(15) && [15] + [] == [15];
  }
}
