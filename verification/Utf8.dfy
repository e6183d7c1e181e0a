/**
 The byte encoding of text, as a Rust `String` stores it: UTF-8, section 3 of RFC 3629.
 A Dafny `char` is a Unicode scalar value, so a `string` is exactly the sequence of
 characters a valid UTF-8 buffer denotes.
 */
module Utf8 {
  import opened Prelude

  type Byte = b: int | 0 <= b < 256

  /** Octets 10xxxxxx only ever continue a character. */
  predicate IsContinuation(b: Byte) {
    0x80 <= b < 0xC0
  }

  /** The number of octets the table of section 3 gives to a scalar value. */
  function Width(c: char): (w: nat)
    ensures 1 <= w <= 4
  {
    var v := c as int;
    if v < 0x80 then 1 else if v < 0x800 then 2 else if v < 0x10000 then 3 else 4
  }

  function EncodeChar(c: char): (b: seq<Byte>)
    ensures |b| == Width(c)
    ensures !IsContinuation(b[0])
    ensures forall i :: 1 <= i < |b| ==> IsContinuation(b[i])
  {
    var v := c as int;
    if v < 0x80 then [v]
    else if v < 0x800 then [0xC0 + v / 64, 0x80 + v % 64]
    else if v < 0x10000 then [0xE0 + v / 4096, 0x80 + v / 64 % 64, 0x80 + v % 64]
    else [0xF0 + v / 262144, 0x80 + v / 4096 % 64, 0x80 + v / 64 % 64, 0x80 + v % 64]
  }

  function Encode(s: string): (b: seq<Byte>) {
    if s == [] then [] else EncodeChar(s[0]) + Encode(s[1..])
  }

  /** Rust's `str::is_char_boundary`: slicing or inserting anywhere else panics. */
  predicate IsCharBoundary(bytes: seq<Byte>, i: nat) {
    i == 0 || i == |bytes| || (i < |bytes| && !IsContinuation(bytes[i]))
  }

  /** The width announced by a leading octet. */
  function WidthOfLead(b: Byte): (w: nat)
    ensures 1 <= w <= 4
  {
    if b < 0x80 then 1 else if b < 0xE0 then 2 else if b < 0xF0 then 3 else 4
  }

  /** The code point of the character whose leading octet is at `i`. */
  function CodePointAt(bytes: seq<Byte>, i: nat): int
    requires i < |bytes| && i + WidthOfLead(bytes[i]) <= |bytes|
  {
    match WidthOfLead(bytes[i])
    case 1 => bytes[i]
    case 2 => Payload(bytes[i], 0xC0) * 64 + Payload(bytes[i + 1], 0x80)
    case 3 => Payload(bytes[i], 0xE0) * 4096 + Payload(bytes[i + 1], 0x80) * 64 + Payload(bytes[i + 2], 0x80)
    case _ => Payload(bytes[i], 0xF0) * 262144 + Payload(bytes[i + 1], 0x80) * 4096
              + Payload(bytes[i + 2], 0x80) * 64 + Payload(bytes[i + 3], 0x80)
  }

  /** The bits an octet adds to the code point, its marker removed. */
  function Payload(b: Byte, marker: int): int {
    b as int - marker
  }

  lemma {:induction false} EncodeAppend(a: string, b: string)
    ensures Encode(a + b) == Encode(a) + Encode(b)
  {
    if a == [] {
      EmptyAppend(b);
      EmptyAppend(Encode(b));
    } else {
      TailOfAppend(a, b);
      EncodeAppend(a[1..], b);
      AppendAssociates(EncodeChar(a[0]), Encode(a[1..]), Encode(b));
    }
  }

  lemma EncodeSnoc(a: string, c: char)
    ensures Encode(a + [c]) == Encode(a) + EncodeChar(c)
  {
    EncodeAppend(a, [c]);
    assert Encode([c]) == EncodeChar(c) + Encode([]);
  }

  /** The text up to a character index, and the bytes that hold it. */
  lemma EncodeSplit(s: string, k: nat)
    requires k <= |s|
    ensures Encode(s) == Encode(s[..k]) + Encode(s[k..])
  {
    CutAndJoin(s, k);
    EncodeAppend(s[..k], s[k..]);
  }

  lemma CutAndJoin(s: string, k: nat)
    requires k <= |s|
    ensures s == s[..k] + s[k..]
    ensures k < |s| ==> s[..k + 1] == s[..k] + [s[k]] && s[k..] == [s[k]] + s[k + 1..] && s[k..][1..] == s[k + 1..]
  {
  }

  /** Every cut of the text is a legal slice position of its bytes. */
  lemma CutIsBoundary(a: string, b: string)
    ensures IsCharBoundary(Encode(a) + Encode(b), |Encode(a)|)
  {
    if b != [] {
      assert (Encode(a) + Encode(b))[|Encode(a)|] == EncodeChar(b[0])[0];
    }
  }

  /** Decoding inverts encoding, one character at a time. */
  lemma DecodeEncode(c: char)
    ensures WidthOfLead(EncodeChar(c)[0]) == Width(c)
    ensures CodePointAt(EncodeChar(c), 0) == c as int
  {
    Digits(c as int);
  }

  /** The base-64 digits of a code point. */
  lemma Digits(v: nat)
    ensures v == v / 64 * 64 + v % 64
    ensures v / 64 == v / 4096 * 64 + v / 64 % 64
    ensures v / 4096 == v / 262144 * 64 + v / 4096 % 64
  {
  }

  /** The same, with the character standing inside a buffer. */
  lemma DecodeInside(head: seq<Byte>, c: char, tail: seq<Byte>)
    ensures var bytes := head + EncodeChar(c) + tail;
            && WidthOfLead(bytes[|head|]) == Width(c)
            && CodePointAt(bytes, |head|) == c as int
  {
    var bytes := head + EncodeChar(c) + tail;
    DecodeEncode(c);
    assert forall i :: 0 <= i < Width(c) ==> bytes[|head| + i] == EncodeChar(c)[i];
  }

  /** A byte position is a legal slice position exactly when it cuts the text between two characters. */
  lemma {:induction false} BoundaryIffCut(s: string, i: nat)
    requires i <= |Encode(s)|
    ensures IsCharBoundary(Encode(s), i) <==> exists k :: 0 <= k <= |s| && i == |Encode(s[..k])|
  {
    if i == 0 {
      assert |Encode(s[..0])| == i;
    } else if s != [] {
      var w := Width(s[0]);
      if i < w {
        assert Encode(s)[i] == EncodeChar(s[0])[i];
        forall k | 0 <= k <= |s| ensures i != |Encode(s[..k])| {
          if k > 0 { assert s[..k][0] == s[0]; }
        }
      } else {
        var rest := s[1..];
        BoundaryIffCut(rest, i - w);
        assert i < |Encode(s)| ==> Encode(s)[i] == Encode(rest)[i - w];
        if k :| 0 <= k <= |rest| && i - w == |Encode(rest[..k])| {
          assert s[..k + 1][1..] == rest[..k];
          assert i == |Encode(s[..k + 1])|;
        }
        if k :| 0 <= k <= |s| && i == |Encode(s[..k])| {
          assert k > 0;
          assert s[..k][1..] == rest[..k - 1];
          assert i - w == |Encode(rest[..k - 1])|;
        }
        if i == w {
          assert IsCharBoundary(Encode(rest), 0);
          CutIsBoundary([s[0]], rest);
          assert Encode([s[0]]) == EncodeChar(s[0]) + Encode([]);
        }
      }
    }
  }

  lemma FirstChar(c: char, x: seq<Byte>, d: char, y: seq<Byte>)
    requires EncodeChar(c) + x == EncodeChar(d) + y
    ensures c == d && x == y
  {
    EmptyAppend(EncodeChar(c));
    EmptyAppend(EncodeChar(d));
    DecodeInside([], c, x);
    DecodeInside([], d, y);
    var b := EncodeChar(c) + x;
    assert x == b[Width(c)..] && y == b[Width(d)..];
  }

  /** No two texts share a byte representation, so a buffer determines the text it holds. */
  lemma {:induction false} EncodeInjective(s: string, t: string)
    requires Encode(s) == Encode(t)
    ensures s == t
  {
    if s == [] || t == [] {
      assert s == t;
    } else {
      FirstChar(s[0], Encode(s[1..]), t[0], Encode(t[1..]));
      EncodeInjective(s[1..], t[1..]);
      CutAndJoin(s, 0);
      CutAndJoin(t, 0);
    }
  }

  /** A newline byte only ever stands for a newline character. */
  lemma {:induction false} NewlineBytes(s: string)
    ensures '\n' in s <==> 10 in Encode(s)
  {
    if s != [] {
      NewlineBytes(s[1..]);
      assert s == [s[0]] + s[1..];
      assert 10 in EncodeChar(s[0]) <==> s[0] == '\n' by {
        assert s[0] == '\n' ==> EncodeChar(s[0])[0] == 10;
        assert EncodeChar(s[0])[0] == 10 ==> s[0] as int == 10;
      }
    }
  }

  // ----- byte offsets of character positions -----

  /** The byte offset of a character position. */
  ghost function Offset(t: string, k: nat): nat
    requires k <= |t|
  {
    |Encode(t[..k])|
  }

  lemma OffsetEnds(t: string)
    ensures Offset(t, 0) == 0 && Offset(t, |t|) == |Encode(t)|
  {
    assert t[..|t|] == t;
  }

  /** A character position cuts the bytes where it cuts the text. */
  lemma CutAt(t: string, k: nat)
    requires k <= |t|
    ensures Offset(t, k) <= |Encode(t)|
    ensures Encode(t)[..Offset(t, k)] == Encode(t[..k])
    ensures Encode(t)[Offset(t, k)..] == Encode(t[k..])
    ensures IsCharBoundary(Encode(t), Offset(t, k))
  {
    EncodeSplit(t, k);
    CutIsBoundary(t[..k], t[k..]);
  }

  lemma CharSplit(t: string, k: nat)
    requires k < |t|
    ensures Encode(t) == Encode(t[..k]) + EncodeChar(t[k]) + Encode(t[k + 1..])
    ensures Offset(t, k + 1) == Offset(t, k) + Width(t[k])
  {
    CutAndJoin(t, k);
    EncodeSnoc(t[..k], t[k]);
    EncodeSplit(t, k + 1);
  }

  /** The bytes of one character, as the scans below see them. */
  lemma CharAt(t: string, k: nat)
    requires k < |t|
    ensures var i := Offset(t, k); var w := Width(t[k]); var bytes := Encode(t);
            && Offset(t, k + 1) == i + w <= |bytes|
            && WidthOfLead(bytes[i]) == w
            && CodePointAt(bytes, i) == t[k] as int
            && !IsContinuation(bytes[i])
            && (forall j :: i < j < i + w ==> IsContinuation(bytes[j]))
            && (forall j :: i <= j < i + w ==> bytes[j] == EncodeChar(t[k])[j - i])
  {
    CharSplit(t, k);
    DecodeInside(Encode(t[..k]), t[k], Encode(t[k + 1..]));
    CharBytes(Encode(t[..k]), t[k], Encode(t[k + 1..]));
  }

  lemma CharBytes(head: seq<Byte>, c: char, tail: seq<Byte>)
    ensures var bytes := head + EncodeChar(c) + tail; var i := |head|;
            && !IsContinuation(bytes[i])
            && (forall j :: i < j < i + Width(c) ==> IsContinuation(bytes[j]))
            && (forall j :: i <= j < i + Width(c) ==> bytes[j] == EncodeChar(c)[j - i])
  {
  }

  /** Offsets grow with positions. */
  lemma {:induction false} OffsetMonotone(t: string, j: nat, k: nat)
    requires j <= k <= |t|
    ensures Offset(t, j) + (k - j) <= Offset(t, k) <= |Encode(t)|
  {
    CutAt(t, k);
    if j < k {
      CharAt(t, k - 1);
      OffsetMonotone(t, j, k - 1);
    }
  }
}
