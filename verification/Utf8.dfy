/** UTF-8 as Rust strings store it: every string is the encoding of a sequence of scalar values. */
module Utf8 {
  import opened Common

  type scalar = c: int | 0 <= c < 0xD800 || 0xE000 <= c < 0x11_0000

  function Encode(c: scalar): seq<byte> {
    if c < 0x80 then [c]
    else if c < 0x800 then [0xC0 + c / 0x40, 0x80 + c % 0x40]
    else if c < 0x1_0000 then [0xE0 + c / 0x40 / 0x40, 0x80 + c / 0x40 % 0x40, 0x80 + c % 0x40]
    else [0xF0 + c / 0x40 / 0x40 / 0x40, 0x80 + c / 0x40 / 0x40 % 0x40, 0x80 + c / 0x40 % 0x40, 0x80 + c % 0x40]
  }

  predicate IsCont(b: byte) { 0x80 <= b < 0xC0 }

  /** Length of a character, from its first byte. */
  function LeadLen(b: byte): nat {
    if b < 0x80 then 1 else if b < 0xE0 then 2 else if b < 0xF0 then 3 else 4
  }

  function EncodeAll(s: seq<scalar>): seq<byte> {
    if s == [] then [] else EncodeAll(s[..|s| - 1]) + Encode(s[|s| - 1])
  }

  lemma EncodeShape(c: scalar)
    ensures |Encode(c)| == LeadLen(Encode(c)[0])
    ensures !IsCont(Encode(c)[0])
    ensures forall i :: 0 < i < |Encode(c)| ==> IsCont(Encode(c)[i])
  {
  }

  lemma {:induction false} EncodeAppend(a: seq<scalar>, b: seq<scalar>)
    ensures EncodeAll(a + b) == EncodeAll(a) + EncodeAll(b)
  {
    if b == [] {
      assert a + b == a;
    } else {
      assert (a + b)[..|a + b| - 1] == a + b[..|b| - 1];
      EncodeAppend(a, b[..|b| - 1]);
    }
  }

  lemma EncodeOne(c: scalar)
    ensures EncodeAll([c]) == Encode(c)
  {
    assert [c][..0] == [];
  }

  lemma EncodeThree(a: seq<scalar>, c: scalar, b: seq<scalar>)
    ensures EncodeAll(a + [c] + b) == EncodeAll(a) + Encode(c) + EncodeAll(b)
    ensures EncodeAll(a + [c]) == EncodeAll(a) + Encode(c)
  {
    EncodeOne(c);
    EncodeAppend(a, [c]);
    EncodeAppend(a + [c], b);
  }

  /** The number carried by the bits of one encoded character. */
  function Decode(b: seq<byte>): int {
    if |b| == 1 then (b[0] as int)
    else if |b| == 2 then ((b[0] as int) - 0xC0) * 0x40 + ((b[1] as int) - 0x80)
    else if |b| == 3 then (((b[0] as int) - 0xE0) * 0x40 + ((b[1] as int) - 0x80)) * 0x40 + ((b[2] as int) - 0x80)
    else if |b| == 4 then ((((b[0] as int) - 0xF0) * 0x40 + ((b[1] as int) - 0x80)) * 0x40 + ((b[2] as int) - 0x80)) * 0x40 + ((b[3] as int) - 0x80)
    else 0
  }

  lemma DecodeEncode(c: scalar)
    ensures Decode(Encode(c)) == c
  {
  }

  /** Splits off the last character: the last byte that is not a continuation byte starts it. */
  lemma LastChar(s: seq<scalar>)
    requires s != []
    ensures var b, i := EncodeAll(s), |EncodeAll(s[..|s| - 1])|;
      && i < |b| && !IsCont(b[i])
      && b[..i] == EncodeAll(s[..|s| - 1]) && b[i..] == Encode(s[|s| - 1])
      && forall k :: i < k < |b| ==> IsCont(b[k])
  {
    var b, i := EncodeAll(s), |EncodeAll(s[..|s| - 1])|;
    EncodeShape(s[|s| - 1]);
    forall k | i < k < |b| ensures IsCont(b[k]) {
      assert b[k] == Encode(s[|s| - 1])[k - i];
    }
  }

  lemma SameStart(b: seq<byte>, i: nat, j: nat)
    requires i < |b| && j < |b| && !IsCont(b[i]) && !IsCont(b[j])
    requires forall k :: i < k < |b| ==> IsCont(b[k])
    requires forall k :: j < k < |b| ==> IsCont(b[k])
    ensures i == j
  {
  }

  lemma LastIsSame(s: seq<scalar>, t: seq<scalar>)
    requires s != [] && t != [] && EncodeAll(s) == EncodeAll(t)
    ensures s[|s| - 1] == t[|t| - 1] && EncodeAll(s[..|s| - 1]) == EncodeAll(t[..|t| - 1])
  {
    LastChar(s);
    LastChar(t);
    SameStart(EncodeAll(s), |EncodeAll(s[..|s| - 1])|, |EncodeAll(t[..|t| - 1])|);
    DecodeEncode(s[|s| - 1]);
    DecodeEncode(t[|t| - 1]);
  }

  lemma SameParts<T>(s: seq<T>, t: seq<T>)
    requires s != [] && t != [] && s[..|s| - 1] == t[..|t| - 1] && s[|s| - 1] == t[|t| - 1]
    ensures s == t
  {
    assert s == s[..|s| - 1] + [s[|s| - 1]];
    assert t == t[..|t| - 1] + [t[|t| - 1]];
  }

  /** Equal bytes mean equal text, so a byte string determines its characters. */
  lemma {:induction false} EncodeAllInjective(s: seq<scalar>, t: seq<scalar>)
    requires EncodeAll(s) == EncodeAll(t)
    ensures s == t
    decreases |s|
  {
    if s != [] && t != [] {
      LastIsSame(s, t);
      EncodeAllInjective(s[..|s| - 1], t[..|t| - 1]);
      SameParts(s, t);
    } else if s != [] {
      LastChar(s);
    } else if t != [] {
      LastChar(t);
    }
  }

  /** Byte offset of a column. */
  function Offset(t: seq<scalar>, col: nat): nat
    requires col <= |t|
  {
    |EncodeAll(t[..col])|
  }

  lemma SplitAt(t: seq<scalar>, col: nat)
    requires col <= |t|
    ensures EncodeAll(t) == EncodeAll(t[..col]) + EncodeAll(t[col..])
    ensures col == |t| ==> Offset(t, col) == |EncodeAll(t)|
  {
    assert t == t[..col] + t[col..];
    EncodeAppend(t[..col], t[col..]);
    if col == |t| {
      assert t[..col] == t;
    }
  }

  lemma CharSplit(t: seq<scalar>, col: nat)
    requires col < |t|
    ensures EncodeAll(t) == EncodeAll(t[..col]) + Encode(t[col]) + EncodeAll(t[col + 1..])
    ensures Offset(t, col + 1) == Offset(t, col) + |Encode(t[col])|
  {
    SplitAt(t, col + 1);
    var u := t[..col + 1];
    SplitAt(u, col);
    assert u[..col] == t[..col] && u[col..] == [t[col]];
    EncodeOne(t[col]);
  }

  // ---- ASCII ------------------------------------------------------------------------------

  predicate Ascii(t: seq<scalar>) { forall i :: 0 <= i < |t| ==> t[i] < 128 }

  /** ASCII text is its own encoding, and the only text that needs no more bytes than characters. */
  lemma EncodedSize(c: scalar)
    ensures |Encode(c)| >= 1 && (|Encode(c)| == 1 <==> c < 128) && (c < 128 ==> Encode(c) == [c])
  {
  }

  lemma AsciiSnoc(t: seq<scalar>, c: scalar)
    ensures Ascii(t + [c]) <==> Ascii(t) && c < 128
  {
    assert (t + [c])[|t|] == c;
    assert forall i :: 0 <= i < |t| ==> (t + [c])[i] == t[i];
  }

  lemma {:induction false} AsciiLength(t: seq<scalar>)
    ensures |EncodeAll(t)| >= |t|
    ensures Ascii(t) <==> |EncodeAll(t)| == |t|
    decreases |t|
  {
    if t != [] {
      var before, c := t[..|t| - 1], t[|t| - 1];
      AsciiLength(before);
      EncodedSize(c);
      assert t == before + [c];
      AsciiSnoc(before, c);
    }
  }

  lemma {:induction false} AsciiBytes(t: seq<scalar>)
    requires Ascii(t)
    ensures |EncodeAll(t)| == |t| && forall i :: 0 <= i < |t| ==> EncodeAll(t)[i] == t[i]
    decreases |t|
  {
    if t != [] {
      AsciiBytes(t[..|t| - 1]);
      EncodedSize(t[|t| - 1]);
    }
  }
}
