/** The bytes hashed into an operation identifier: a tag, then each request field behind its length. */
module Framing {
  import opened Common

  type Byte = b: int | 0 <= b < 256

  const WORD := 0x1_0000_0000_0000_0000

  /** The last `width` big-endian digits of `n`, base 256; higher ones are cut off. */
  function BigEndian(n: nat, width: nat): (r: seq<Byte>)
    ensures |r| == width
  {
    if width == 0 then [] else BigEndian(n / 256, width - 1) + [n % 256]
  }

  function Value(bytes: seq<Byte>): nat {
    if bytes == [] then 0 else 256 * Value(bytes[..|bytes| - 1]) + Last(bytes)
  }

  function Power(width: nat): nat {
    if width == 0 then 1 else 256 * Power(width - 1)
  }

  lemma {:induction false} ValueOfBigEndian(n: nat, width: nat)
    requires n < Power(width)
    ensures Value(BigEndian(n, width)) == n
  {
    if width > 0 {
      var bytes := BigEndian(n, width);
      assert bytes[..|bytes| - 1] == BigEndian(n / 256, width - 1);
      ValueOfBigEndian(n / 256, width - 1);
    }
  }

  lemma WordIsEightBytes()
    ensures Power(8) == WORD
  {
    assert Power(2) == 0x1_0000;
    assert Power(4) == 0x1_0000_0000;
    assert Power(6) == 0x1_0000_0000_0000;
  }

  function Field(field: seq<Byte>): seq<Byte> {
    BigEndian(|field|, 8) + field
  }

  function Fields(fields: seq<seq<Byte>>): seq<Byte> {
    if fields == [] then [] else Field(fields[0]) + Fields(fields[1..])
  }

  /** The tag `rusqdoltlite-session-operation-v1` and a zero byte. */
  const TAG: seq<Byte> := [
    114, 117, 115, 113, 100, 111, 108, 116, 108, 105, 116, 101, 45, 115, 101, 115, 115, 105, 111, 110, 45,
    111, 112, 101, 114, 97, 116, 105, 111, 110, 45, 118, 49, 0]

  lemma TagSpelled()
    ensures var text := "rusqdoltlite-session-operation-v1";
            |TAG| == |text| + 1 && TAG[|text|] == 0 && forall i :: 0 <= i < |text| ==> TAG[i] == text[i] as int
  {
  }

  function Frame(method_: seq<Byte>, target: seq<Byte>, body: seq<Byte>): seq<Byte> {
    TAG + Fields([method_, target, body])
  }

  /** The hasher, seen through what it has been fed. */
  class Hasher {
    var fed: seq<Byte>

    constructor ()
      ensures fed == []
    {
      fed := [];
    }

    method Update(bytes: seq<Byte>)
      modifies this
      ensures fed == old(fed) + bytes
    {
      fed := fed + bytes;
    }
  }

  method UpdateFields(h: Hasher, fields: seq<seq<Byte>>)
    modifies h
    ensures h.fed == old(h.fed) + Fields(fields)
  {
    var i := 0;
    assert fields[0..] == fields;
    while i < |fields|
      invariant 0 <= i <= |fields|
      invariant h.fed + Fields(fields[i..]) == old(h.fed) + Fields(fields)
    {
      ghost var was := h.fed;
      h.Update(BigEndian(|fields[i]|, 8));
      h.Update(fields[i]);
      assert fields[i..][1..] == fields[i + 1..];
      assert h.fed == was + Field(fields[i]);
      Associates(was, Field(fields[i]), Fields(fields[i + 1..]));
      i := i + 1;
    }
    assert h.fed + [] == h.fed;
  }

  method FromRequest(method_: seq<Byte>, target: seq<Byte>, body: seq<Byte>) returns (h: Hasher)
    ensures fresh(h) && h.fed == Frame(method_, target, body)
  {
    h := new Hasher();
    h.Update(TAG);
    assert [] + TAG == TAG;
    UpdateFields(h, [method_, target, body]);
  }

  // ---------------------------------------------------------------- reading a frame back

  /** Reads `n` fields and nothing else. */
  function Unframe(bytes: seq<Byte>, n: nat): Option<seq<seq<Byte>>>
    decreases n
  {
    if n == 0 then if bytes == [] then Some([]) else None
    else if |bytes| < 8 || |bytes| - 8 < Value(bytes[..8]) then None
    else
      var len := Value(bytes[..8]);
      var rest := Unframe(bytes[8 + len..], n - 1);
      if rest.None? then None else Some([bytes[8..8 + len]] + rest.value)
  }

  predicate Fits(fields: seq<seq<Byte>>) {
    forall i :: 0 <= i < |fields| ==> |fields[i]| < WORD
  }

  lemma FieldFirst(field: seq<Byte>, rest: seq<Byte>)
    requires |field| < WORD
    ensures var bytes := Field(field) + rest;
            Value(bytes[..8]) == |field| && bytes[8..8 + |field|] == field && bytes[8 + |field|..] == rest
  {
    WordIsEightBytes();
    ValueOfBigEndian(|field|, 8);
    assert (Field(field) + rest)[..8] == BigEndian(|field|, 8);
  }

  /** Any number of framed fields reads back exactly. */
  lemma {:induction false} UnframeFields(fields: seq<seq<Byte>>)
    requires Fits(fields)
    ensures Unframe(Fields(fields), |fields|) == Some(fields)
  {
    if fields != [] {
      FieldFirst(fields[0], Fields(fields[1..]));
      UnframeFields(fields[1..]);
      assert fields == [fields[0]] + fields[1..];
    }
  }

  /** The hashed bytes determine method, target and body. */
  lemma FrameInjective(m1: seq<Byte>, t1: seq<Byte>, b1: seq<Byte>, m2: seq<Byte>, t2: seq<Byte>, b2: seq<Byte>)
    requires Fits([m1, t1, b1]) && Fits([m2, t2, b2])
    ensures Frame(m1, t1, b1) == Frame(m2, t2, b2) <==> m1 == m2 && t1 == t2 && b1 == b2
    ensures Unframe(Frame(m1, t1, b1)[|TAG|..], 3) == Some([m1, t1, b1])
  {
    UnframeFields([m1, t1, b1]);
    UnframeFields([m2, t2, b2]);
    assert Frame(m1, t1, b1)[|TAG|..] == Fields([m1, t1, b1]);
    assert Frame(m2, t2, b2)[|TAG|..] == Fields([m2, t2, b2]);
    if Frame(m1, t1, b1) == Frame(m2, t2, b2) {
      assert [m1, t1, b1][0] == [m2, t2, b2][0] && [m1, t1, b1][1] == [m2, t2, b2][1] &&
             [m1, t1, b1][2] == [m2, t2, b2][2];
    }
  }

  lemma PowerPositive(width: nat)
    ensures Power(width) > 0
  {
  }

  lemma DivTwice(n: nat, p: nat)
    requires p > 0
    ensures n / (256 * p) == (n / 256) / p
  {
    var q, r := n / 256, n % 256;
    var a, b := q / p, q % p;
    assert n == 256 * q + r && q == p * a + b;
    assert n == (256 * p) * a + (256 * b + r);
    assert 0 <= 256 * b + r < 256 * p;
    QuotientIs(n, 256 * p, a, 256 * b + r);
  }

  lemma QuotientIs(n: nat, d: nat, q: nat, r: nat)
    requires d > 0 && n == d * q + r && r < d
    ensures n / d == q
  {
    Monotone(d, n / d + 1, q);
    Monotone(d, q + 1, n / d);
  }

  lemma Monotone(d: nat, a: nat, b: nat)
    ensures a <= b ==> d * a <= d * b
  {
  }

  /** The digits are in order, the most significant first. */
  lemma {:induction false} DigitAt(n: nat, width: nat, i: nat)
    requires i < width
    ensures Power(width - 1 - i) > 0 && BigEndian(n, width)[i] == n / Power(width - 1 - i) % 256
  {
    PowerPositive(width - 1 - i);
    if i < width - 1 {
      DigitAt(n / 256, width - 1, i);
      DivTwice(n, Power(width - 2 - i));
    }
  }
}
