/** Clipboard truncation of `neko_input_bridge.rs`: walk back from the byte cap to a
    character boundary.  Text is UTF-8 (section 3 of RFC 3629); the walk is proved to
    return the longest valid prefix that fits. */
module Clipboard {

  type Byte = b: int | 0 <= b < 0x100

  /** A Unicode scalar value: a code point that is not a surrogate. */
  type Scalar = c: int | 0 <= c < 0xD800 || 0xE000 <= c < 0x11_0000

  const MAX_CLIPBOARD_BYTES: nat := 8192

  function EncodeScalar(c: Scalar): seq<Byte> {
    if c < 0x80 then [c]
    else if c < 0x800 then [0xC0 + c / 64, 0x80 + c % 64]
    else if c < 0x1_0000 then [0xE0 + c / 4096, 0x80 + c / 64 % 64, 0x80 + c % 64]
    else [0xF0 + c / 262144, 0x80 + c / 4096 % 64, 0x80 + c / 64 % 64, 0x80 + c % 64]
  }

  function Encode(text: seq<Scalar>): seq<Byte> {
    if |text| == 0 then [] else EncodeScalar(text[0]) + Encode(text[1..])
  }

  ghost predicate ValidUtf8(bytes: seq<Byte>) {
    exists text :: Encode(text) == bytes
  }

  predicate Continuation(b: Byte) {
    0x80 <= b < 0xC0
  }

  /** `str::is_char_boundary`: it looks at one byte only. */
  predicate IsCharBoundary(bytes: seq<Byte>, i: nat) {
    i == 0 || i == |bytes| || (i < |bytes| && !Continuation(bytes[i]))
  }

  function LengthFromLead(b: Byte): nat {
    if b < 0x80 then 1 else if b < 0xE0 then 2 else if b < 0xF0 then 3 else 4
  }

  lemma EncodedScalarShape(c: Scalar)
    ensures 1 <= |EncodeScalar(c)| <= 4
    ensures !Continuation(EncodeScalar(c)[0])
    ensures LengthFromLead(EncodeScalar(c)[0]) == |EncodeScalar(c)|
    ensures forall i :: 1 <= i < |EncodeScalar(c)| ==> Continuation(EncodeScalar(c)[i])
  {
  }

  lemma {:induction false} EncodeConcat(a: seq<Scalar>, b: seq<Scalar>)
    ensures Encode(a + b) == Encode(a) + Encode(b)
  {
    if |a| == 0 {
      assert a + b == b;
    } else {
      assert (a + b)[1..] == a[1..] + b;
      EncodeConcat(a[1..], b);
    }
  }

  /** Cutting before a byte that is not a continuation cuts between two characters. */
  lemma {:induction false} BoundaryCutsBetweenScalars(text: seq<Scalar>, i: nat) returns (k: nat)
    requires i <= |Encode(text)| && IsCharBoundary(Encode(text), i)
    ensures k <= |text| && Encode(text)[..i] == Encode(text[..k])
  {
    if i == 0 {
      k := 0;
    } else {
      var first, rest := EncodeScalar(text[0]), Encode(text[1..]);
      EncodedScalarShape(text[0]);
      assert Encode(text) == first + rest;
      assert forall m :: 0 <= m < |first| ==> Encode(text)[m] == first[m];
      assert i >= |first|;
      var j := BoundaryCutsBetweenScalars(text[1..], i - |first|);
      k := j + 1;
      assert text[..k] == [text[0]] + text[1..][..j];
      assert text[..k][1..] == text[1..][..j];
      assert Encode(text)[..i] == first + rest[..i - |first|];
    }
  }

  /** Conversely, a valid prefix of valid text always ends at such a boundary. */
  lemma {:induction false} ValidPrefixEndsAtBoundary(text: seq<Scalar>, prefix: seq<Scalar>)
    requires Encode(prefix) <= Encode(text)
    ensures IsCharBoundary(Encode(text), |Encode(prefix)|)
  {
    if |text| > 0 && |prefix| > 0 {
      EncodedScalarShape(text[0]);
      EncodedScalarShape(prefix[0]);
      var n := |EncodeScalar(text[0])|;
      assert Encode(prefix)[0] == EncodeScalar(prefix[0])[0];
      assert Encode(text)[0] == EncodeScalar(text[0])[0];
      assert n == |EncodeScalar(prefix[0])|;
      assert Encode(text)[n..] == Encode(text[1..]);
      assert Encode(prefix)[n..] == Encode(prefix[1..]);
      ValidPrefixEndsAtBoundary(text[1..], prefix[1..]);
      var i := |Encode(prefix[1..])|;
      if 0 < i < |Encode(text[1..])| {
        assert Encode(text)[n + i] == Encode(text[1..])[i];
      } else if i == 0 && |text| > 1 {
        EncodedScalarShape(text[1]);
        assert Encode(text)[n] == Encode(text[1..])[0] == EncodeScalar(text[1])[0];
      }
    }
  }

  /** The single-byte test decides validity of a cut, for every position. */
  lemma CutIsValidIffBoundary(bytes: seq<Byte>, i: nat)
    requires ValidUtf8(bytes) && i <= |bytes|
    ensures ValidUtf8(bytes[..i]) <==> IsCharBoundary(bytes, i)
  {
    var text :| Encode(text) == bytes;
    if IsCharBoundary(bytes, i) {
      var k := BoundaryCutsBetweenScalars(text, i);
      assert Encode(text[..k]) == bytes[..i];
    }
    if ValidUtf8(bytes[..i]) {
      var prefix :| Encode(prefix) == bytes[..i];
      ValidPrefixEndsAtBoundary(text, prefix);
    }
  }

  /** No character has more than three continuation bytes. */
  lemma {:induction false} BoundaryWithinFour(text: seq<Scalar>, i: nat) returns (j: nat)
    requires i <= |Encode(text)|
    ensures j <= i <= j + 3 && IsCharBoundary(Encode(text), j)
  {
    if |text| == 0 {
      j := 0;
    } else {
      var n := |EncodeScalar(text[0])|;
      EncodedScalarShape(text[0]);
      if i < n {
        j := 0;
      } else {
        assert Encode(text)[n..] == Encode(text[1..]);
        var k := BoundaryWithinFour(text[1..], i - n);
        j := n + k;
        if 0 < k < |Encode(text[1..])| {
          assert Encode(text)[j] == Encode(text[1..])[k];
        } else if k == 0 && |text| > 1 {
          EncodedScalarShape(text[1]);
          assert Encode(text)[n] == Encode(text[1..])[0] == EncodeScalar(text[1])[0];
        }
      }
    }
  }

  /** The result is a valid prefix within the cap, the longest one there is, and when the
      text was cut it loses at most three bytes below the cap. */
  method TruncateClipboard(text: seq<Byte>) returns (kept: seq<Byte>)
    requires ValidUtf8(text)
    ensures kept <= text && |kept| <= MAX_CLIPBOARD_BYTES && ValidUtf8(kept)
    ensures |text| <= MAX_CLIPBOARD_BYTES ==> kept == text
    ensures forall other :: other <= text && |other| <= MAX_CLIPBOARD_BYTES && ValidUtf8(other) ==> |other| <= |kept|
    ensures |text| > MAX_CLIPBOARD_BYTES ==> |kept| >= MAX_CLIPBOARD_BYTES - 3
  {
    if |text| <= MAX_CLIPBOARD_BYTES {
      return text;
    }
    var end := MAX_CLIPBOARD_BYTES;
    while end > 0 && !IsCharBoundary(text, end)
      invariant 0 <= end <= MAX_CLIPBOARD_BYTES
      invariant forall i :: end < i <= MAX_CLIPBOARD_BYTES ==> !IsCharBoundary(text, i)
    {
      end := end - 1;
    }
    kept := text[..end];
    CutIsValidIffBoundary(text, end);
    forall other | other <= text && |other| <= MAX_CLIPBOARD_BYTES && ValidUtf8(other)
      ensures |other| <= end
    {
      assert other == text[..|other|];
      CutIsValidIffBoundary(text, |other|);
    }
    ghost var scalars :| Encode(scalars) == text;
    ghost var j := BoundaryWithinFour(scalars, MAX_CLIPBOARD_BYTES);
  }
}
