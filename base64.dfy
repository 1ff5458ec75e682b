/** Base64 as defined in section 4 of RFC 4648 (standard alphabet, `=`
    padding): the encoding the visitor id is built with. The decoder is not
    used by the ledger; it is the reference that shows the encoding loses
    nothing. */
module Base64 {
  import opened Common

  type Byte = x: int | 0 <= x < 256
  type Sextet = x: int | 0 <= x < 64

  /** The 64-character alphabet: `A`-`Z`, `a`-`z`, `0`-`9`, `+`, `/`. */
  function Char(v: Sextet): (c: char)
    ensures c != '='
  {
    if v < 26 then ('A' as int + v) as char
    else if v < 52 then ('a' as int + (v - 26)) as char
    else if v < 62 then ('0' as int + (v - 52)) as char
    else if v == 62 then '+'
    else '/'
  }

  predicate IsAlphabet(c: char)
  {
    'A' <= c <= 'Z' || 'a' <= c <= 'z' || '0' <= c <= '9' || c == '+' || c == '/'
  }

  function Value(c: char): (v: Sextet)
    requires IsAlphabet(c)
    ensures Char(v) == c
  {
    if 'A' <= c <= 'Z' then c as int - 'A' as int
    else if 'a' <= c <= 'z' then c as int - 'a' as int + 26
    else if '0' <= c <= '9' then c as int - '0' as int + 52
    else if c == '+' then 62
    else 63
  }

  lemma {:induction false} CharIsAlphabet(v: Sextet)
    ensures IsAlphabet(Char(v)) && Value(Char(v)) == v
  {
  }

  /** Three bytes, 24 bits, become four characters of six bits each. */
  function Quad(b0: Byte, b1: Byte, b2: Byte): string
  {
    [Char(b0 / 4), Char((b0 % 4) * 16 + b1 / 16), Char((b1 % 16) * 4 + b2 / 64), Char(b2 % 64)]
  }

  /** Encoding of a byte string, one 3-byte group at a time; a final group
      of one or two bytes is zero-filled and padded with `=`. */
  function Encode(b: seq<Byte>): (r: string)
    ensures |r| == 4 * ((|b| + 2) / 3)
    decreases |b|
  {
    if |b| == 0 then ""
    else if |b| == 1 then [Char(b[0] / 4), Char((b[0] % 4) * 16), '=', '=']
    else if |b| == 2 then [Char(b[0] / 4), Char((b[0] % 4) * 16 + b[1] / 16), Char((b[1] % 16) * 4), '=']
    else Quad(b[0], b[1], b[2]) + Encode(b[3..])
  }

  /** The reference decoder: four characters at a time, padding only in
      the last group. */
  function Decode(s: string): (r: Option<seq<Byte>>)
    decreases |s|
  {
    if |s| == 0 then Some([])
    else if |s| < 4 then None
    else if |s| == 4 && IsAlphabet(s[0]) && IsAlphabet(s[1]) && s[2] == '=' && s[3] == '=' then
      var c0, c1 := Value(s[0]), Value(s[1]);
      Some([c0 * 4 + c1 / 16])
    else if |s| == 4 && IsAlphabet(s[0]) && IsAlphabet(s[1]) && IsAlphabet(s[2]) && s[3] == '=' then
      var c0, c1, c2 := Value(s[0]), Value(s[1]), Value(s[2]);
      Some([c0 * 4 + c1 / 16, (c1 % 16) * 16 + c2 / 4])
    else if IsAlphabet(s[0]) && IsAlphabet(s[1]) && IsAlphabet(s[2]) && IsAlphabet(s[3]) then
      var c0, c1, c2, c3 := Value(s[0]), Value(s[1]), Value(s[2]), Value(s[3]);
      match Decode(s[4..])
      case None => None
      case Some(rest) => Some([c0 * 4 + c1 / 16, (c1 % 16) * 16 + c2 / 4, (c2 % 4) * 64 + c3] + rest)
    else None
  }

  lemma {:induction false} QuadDecodes(b0: Byte, b1: Byte, b2: Byte)
    ensures var q := Quad(b0, b1, b2);
      IsAlphabet(q[0]) && IsAlphabet(q[1]) && IsAlphabet(q[2]) && IsAlphabet(q[3])
      && Value(q[0]) * 4 + Value(q[1]) / 16 == b0
      && (Value(q[1]) % 16) * 16 + Value(q[2]) / 4 == b1
      && (Value(q[2]) % 4) * 64 + Value(q[3]) == b2
  {
    var v0: Sextet, v1: Sextet, v2: Sextet, v3: Sextet :=
      b0 / 4, (b0 % 4) * 16 + b1 / 16, (b1 % 16) * 4 + b2 / 64, b2 % 64;
    assert Quad(b0, b1, b2) == [Char(v0), Char(v1), Char(v2), Char(v3)];
    CharIsAlphabet(v0);
    CharIsAlphabet(v1);
    CharIsAlphabet(v2);
    CharIsAlphabet(v3);
    SplitAt16(b0 % 4, b1 / 16);
    SplitAt4(b1 % 16, b2 / 64);
  }

  lemma {:induction false} SplitAt16(hi: int, lo: int)
    requires 0 <= lo < 16
    ensures (hi * 16 + lo) / 16 == hi && (hi * 16 + lo) % 16 == lo
  {
  }

  lemma {:induction false} SplitAt4(hi: int, lo: int)
    requires 0 <= lo < 4
    ensures (hi * 4 + lo) / 4 == hi && (hi * 4 + lo) % 4 == lo
  {
  }

  lemma {:induction false} DecodePadded2(c0: Sextet, c1: Sextet)
    ensures Decode([Char(c0), Char(c1), '=', '=']) == Some([c0 * 4 + c1 / 16])
  {
    CharIsAlphabet(c0);
    CharIsAlphabet(c1);
  }

  lemma {:induction false} DecodePadded1(c0: Sextet, c1: Sextet, c2: Sextet)
    ensures Decode([Char(c0), Char(c1), Char(c2), '=']) == Some([c0 * 4 + c1 / 16, (c1 % 16) * 16 + c2 / 4])
  {
    CharIsAlphabet(c0);
    CharIsAlphabet(c1);
    CharIsAlphabet(c2);
  }

  lemma {:induction false} DecodeOneByte(b: seq<Byte>)
    requires |b| == 1
    ensures Decode(Encode(b)) == Some(b)
  {
    var x: Byte := b[0];
    var c0: Sextet, c1: Sextet := x / 4, (x % 4) * 16;
    var e := Encode(b);
    assert e == [Char(c0), Char(c1), '=', '='];
    SplitAt16(x % 4, 0);
    assert c0 * 4 + c1 / 16 == x;
    calc {
      Decode(e);
      { DecodePadded2(c0, c1); }
      Some([c0 * 4 + c1 / 16]);
      { assert b == [x]; }
      Some(b);
    }
  }

  lemma {:induction false} DecodeTwoBytes(b: seq<Byte>)
    requires |b| == 2
    ensures Decode(Encode(b)) == Some(b)
  {
    var x: Byte, y: Byte := b[0], b[1];
    var c0: Sextet, c1: Sextet, c2: Sextet := x / 4, (x % 4) * 16 + y / 16, (y % 16) * 4;
    var e := Encode(b);
    assert e == [Char(c0), Char(c1), Char(c2), '='];
    SplitAt16(x % 4, y / 16);
    SplitAt4(y % 16, 0);
    assert c0 * 4 + c1 / 16 == x;
    assert (c1 % 16) * 16 + c2 / 4 == y;
    calc {
      Decode(e);
      { DecodePadded1(c0, c1, c2); }
      Some([c0 * 4 + c1 / 16, (c1 % 16) * 16 + c2 / 4]);
      { assert b == [x, y]; }
      Some(b);
    }
  }

  lemma {:induction false} DecodeQuadThen(b0: Byte, b1: Byte, b2: Byte, rest: string, tail: seq<Byte>)
    requires Decode(rest) == Some(tail)
    ensures Decode(Quad(b0, b1, b2) + rest) == Some([b0, b1, b2] + tail)
  {
    QuadDecodes(b0, b1, b2);
    var q := Quad(b0, b1, b2);
    var s := q + rest;
    assert s[..4] == q && s[4..] == rest;
    if |rest| == 0 {
      assert s[3] != '=';
    }
  }

  /** Decoding undoes encoding. */
  lemma {:induction false} DecodeEncode(b: seq<Byte>)
    ensures Decode(Encode(b)) == Some(b)
    decreases |b|
  {
    if |b| == 1 {
      DecodeOneByte(b);
    } else if |b| == 2 {
      DecodeTwoBytes(b);
    } else if |b| >= 3 {
      var rest := Encode(b[3..]);
      assert Encode(b) == Quad(b[0], b[1], b[2]) + rest;
      DecodeEncode(b[3..]);
      DecodeQuadThen(b[0], b[1], b[2], rest, b[3..]);
      assert b == [b[0], b[1], b[2]] + b[3..];
    }
  }

  /** Encoding is injective. */
  lemma {:induction false} EncodeInjective(a: seq<Byte>, b: seq<Byte>)
    requires Encode(a) == Encode(b)
    ensures a == b
  {
    DecodeEncode(a);
    DecodeEncode(b);
  }

  /** The first `4k` characters of an encoding are the encoding of the
      first `3k` bytes: nothing after them influences them. */
  lemma {:induction false} EncodePrefix(b: seq<Byte>, k: nat)
    requires 3 * k <= |b|
    ensures |Encode(b)| >= 4 * k
    ensures Encode(b)[..4 * k] == Encode(b[..3 * k])
    decreases k
  {
    if k > 0 {
      EncodePrefix(b[3..], k - 1);
      assert b[..3 * k][3..] == b[3..][..3 * (k - 1)];
      assert b[..3 * k][..3] == b[..3];
      var rest := Encode(b[3..]);
      assert Encode(b) == Quad(b[0], b[1], b[2]) + rest;
      assert Encode(b[..3 * k]) == Quad(b[0], b[1], b[2]) + Encode(b[3..][..3 * (k - 1)]);
    }
  }
}
