/**
 * Base 64 encoding with the standard alphabet and `=` padding, as in section 4
 * of RFC 4648 (what Node's `Buffer#toString("base64")` produces).
 */
module Base64 {
  import opened Common

  type Byte = b: int | 0 <= b < 256

  /** The character for a 6-bit value: `A`-`Z`, `a`-`z`, `0`-`9`, `+`, `/`. */
  function Char(i: int): (c: char)
    requires 0 <= i < 64
    ensures c != '='
  {
    if i < 26 then ('A' as int + i) as char
    else if i < 52 then ('a' as int + i - 26) as char
    else if i < 62 then ('0' as int + i - 52) as char
    else if i == 62 then '+'
    else '/'
  }

  /** The 6-bit value of an alphabet character; `None` for anything else. */
  function Index(c: char): (r: Option<int>)
    ensures r.Some? ==> 0 <= r.value < 64 && Char(r.value) == c
  {
    if 'A' <= c <= 'Z' then Some(c as int - 'A' as int)
    else if 'a' <= c <= 'z' then Some(c as int - 'a' as int + 26)
    else if '0' <= c <= '9' then Some(c as int - '0' as int + 52)
    else if c == '+' then Some(62)
    else if c == '/' then Some(63)
    else None
  }

  lemma IndexOfChar(i: int)
    requires 0 <= i < 64
    ensures Index(Char(i)) == Some(i)
  {
  }

  /** Every character of an encoding is an alphabet character or `=`. */
  predicate InAlphabet(c: char) {
    Index(c).Some? || c == '='
  }

  /** Three bytes (the missing ones as 0) become four 6-bit groups. */
  function Quad(x: Byte, y: Byte, z: Byte): (q: (int, int, int, int))
    ensures 0 <= q.0 < 64 && 0 <= q.1 < 64 && 0 <= q.2 < 64 && 0 <= q.3 < 64
  {
    (x / 4, x % 4 * 16 + y / 16, y % 16 * 4 + z / 64, z % 64)
  }

  /** Four 6-bit groups become three bytes. */
  function Bytes(a: int, b: int, c: int, d: int): (t: (Byte, Byte, Byte))
    requires 0 <= a < 64 && 0 <= b < 64 && 0 <= c < 64 && 0 <= d < 64
  {
    (a * 4 + b / 16, b % 16 * 16 + c / 4, c % 4 * 64 + d)
  }

  lemma BytesOfQuad(x: Byte, y: Byte, z: Byte)
    ensures var q := Quad(x, y, z); Bytes(q.0, q.1, q.2, q.3) == (x, y, z)
  {
  }

  lemma QuadOfBytes(a: int, b: int, c: int, d: int)
    requires 0 <= a < 64 && 0 <= b < 64 && 0 <= c < 64 && 0 <= d < 64
    ensures var t := Bytes(a, b, c, d); Quad(t.0, t.1, t.2) == (a, b, c, d)
  {
    var t := Bytes(a, b, c, d);
    assert t.0 / 4 == a && t.0 % 4 == b / 16;
    assert t.1 / 16 == b % 16 && t.1 % 16 == c / 4;
    assert t.2 / 64 == c % 4 && t.2 % 64 == d;
  }

  function Encode(bs: seq<Byte>): (s: string)
    ensures |bs| > 0 ==> |s| >= 4
    decreases |bs|
  {
    if |bs| == 0 then []
    else if |bs| == 1 then
      var q := Quad(bs[0], 0, 0);
      [Char(q.0), Char(q.1), '=', '=']
    else if |bs| == 2 then
      var q := Quad(bs[0], bs[1], 0);
      [Char(q.0), Char(q.1), Char(q.2), '=']
    else
      var q := Quad(bs[0], bs[1], bs[2]);
      [Char(q.0), Char(q.1), Char(q.2), Char(q.3)] + Encode(bs[3..])
  }

  lemma {:induction false} EncodeInAlphabet(bs: seq<Byte>)
    ensures forall i :: 0 <= i < |Encode(bs)| ==> InAlphabet(Encode(bs)[i])
    decreases |bs|
  {
    var s := Encode(bs);
    if |bs| >= 3 {
      EncodeInAlphabet(bs[3..]);
      var q := Quad(bs[0], bs[1], bs[2]);
      assert s == [Char(q.0), Char(q.1), Char(q.2), Char(q.3)] + Encode(bs[3..]);
      forall i | 0 <= i < |s| ensures InAlphabet(s[i]) {
        if i >= 4 {
          assert s[i] == Encode(bs[3..])[i - 4];
        } else {
          IndexOfChar([q.0, q.1, q.2, q.3][i]);
        }
      }
    } else if |bs| == 2 {
      var q := Quad(bs[0], bs[1], 0);
      IndexOfChar(q.0);
      IndexOfChar(q.1);
      IndexOfChar(q.2);
    } else if |bs| == 1 {
      var q := Quad(bs[0], 0, 0);
      IndexOfChar(q.0);
      IndexOfChar(q.1);
    }
  }

  /** A group of four alphabet characters, no padding. */
  function DecodeFull(s: string): (r: Option<seq<Byte>>)
    requires |s| == 4
    ensures r.Some? ==> |r.value| == 3
  {
    match (Index(s[0]), Index(s[1]), Index(s[2]), Index(s[3]))
    case (Some(a), Some(b), Some(c), Some(d)) =>
      var t := Bytes(a, b, c, d);
      Some([t.0, t.1, t.2])
    case _ => None
  }

  /**
   * The last group: four alphabet characters, or two or three followed by
   * `=` padding whose unused bits are zero (the canonical form).
   */
  function DecodeFinal(s: string): (r: Option<seq<Byte>>)
    requires |s| == 4
    ensures r.Some? ==> 1 <= |r.value| <= 3
  {
    if s[2] == '=' && s[3] == '=' then
      match (Index(s[0]), Index(s[1]))
      case (Some(a), Some(b)) =>
        if b % 16 == 0 then Some([Bytes(a, b, 0, 0).0]) else None
      case _ => None
    else if s[3] == '=' then
      match (Index(s[0]), Index(s[1]), Index(s[2]))
      case (Some(a), Some(b), Some(c)) =>
        if c % 4 == 0 then var t := Bytes(a, b, c, 0); Some([t.0, t.1]) else None
      case _ => None
    else
      DecodeFull(s)
  }

  /** Strict decoding: `None` for any text that `Encode` does not produce. */
  function Decode(s: string): (r: Option<seq<Byte>>)
    decreases |s|
  {
    if |s| == 0 then Some([])
    else if |s| < 4 then None
    else if |s| == 4 then DecodeFinal(s)
    else
      match DecodeFull(s[..4])
      case None => None
      case Some(head) =>
        match Decode(s[4..])
        case None => None
        case Some(tail) => Some(head + tail)
  }

  lemma DecodeFullGroup(x: Byte, y: Byte, z: Byte)
    ensures DecodeFull(Group(x, y, z)) == Some([x, y, z])
  {
    var q := Quad(x, y, z);
    var g := [Char(q.0), Char(q.1), Char(q.2), Char(q.3)];
    IndexOfChar(q.0);
    IndexOfChar(q.1);
    IndexOfChar(q.2);
    IndexOfChar(q.3);
    assert Index(g[0]) == Some(q.0) && Index(g[1]) == Some(q.1);
    assert Index(g[2]) == Some(q.2) && Index(g[3]) == Some(q.3);
    BytesOfQuad(x, y, z);
  }

  lemma DecodeFinalOne(x: Byte)
    ensures var q := Quad(x, 0, 0); DecodeFinal([Char(q.0), Char(q.1), '=', '=']) == Some([x])
  {
    var q := Quad(x, 0, 0);
    var g := [Char(q.0), Char(q.1), '=', '='];
    IndexOfChar(q.0);
    IndexOfChar(q.1);
    assert Index(g[0]) == Some(q.0) && Index(g[1]) == Some(q.1);
    assert q.1 % 16 == 0;
    BytesOfQuad(x, 0, 0);
  }

  lemma DecodeFinalTwo(x: Byte, y: Byte)
    ensures var q := Quad(x, y, 0); DecodeFinal([Char(q.0), Char(q.1), Char(q.2), '=']) == Some([x, y])
  {
    var q := Quad(x, y, 0);
    var g := [Char(q.0), Char(q.1), Char(q.2), '='];
    IndexOfChar(q.0);
    IndexOfChar(q.1);
    IndexOfChar(q.2);
    assert g[2] != '=';
    assert Index(g[0]) == Some(q.0) && Index(g[1]) == Some(q.1) && Index(g[2]) == Some(q.2);
    assert q.2 % 4 == 0;
    BytesOfQuad(x, y, 0);
  }

  lemma DecodeEncodeShort(bs: seq<Byte>)
    requires 1 <= |bs| <= 2
    ensures Decode(Encode(bs)) == Some(bs)
  {
    var s := Encode(bs);
    assert Decode(s) == DecodeFinal(s);
    if |bs| == 1 {
      var q := Quad(bs[0], 0, 0);
      assert s == [Char(q.0), Char(q.1), '=', '='];
      DecodeFinalOne(bs[0]);
      assert bs == [bs[0]];
    } else {
      var q := Quad(bs[0], bs[1], 0);
      assert s == [Char(q.0), Char(q.1), Char(q.2), '='];
      DecodeFinalTwo(bs[0], bs[1]);
      assert bs == [bs[0], bs[1]];
    }
  }

  /** The four characters `Encode` writes for a full group of three bytes. */
  function Group(x: Byte, y: Byte, z: Byte): (g: string)
    ensures |g| == 4 && g[3] != '='
  {
    var q := Quad(x, y, z);
    [Char(q.0), Char(q.1), Char(q.2), Char(q.3)]
  }

  lemma DecodeAppend(g: string, t: string)
    requires |g| == 4 && |t| > 0 && DecodeFull(g).Some? && Decode(t).Some?
    ensures Decode(g + t) == Some(DecodeFull(g).value + Decode(t).value)
  {
    assert (g + t)[..4] == g;
    assert (g + t)[4..] == t;
  }

  lemma EncodeSplit(bs: seq<Byte>)
    requires |bs| >= 3
    ensures Encode(bs) == Group(bs[0], bs[1], bs[2]) + Encode(bs[3..])
  {
  }

  lemma DecodeEncodeThree(bs: seq<Byte>)
    requires |bs| == 3
    ensures Decode(Encode(bs)) == Some(bs)
  {
    var g := Group(bs[0], bs[1], bs[2]);
    EncodeSplit(bs);
    assert Encode(bs) == g;
    DecodeFullGroup(bs[0], bs[1], bs[2]);
    assert DecodeFinal(g) == DecodeFull(g);
    ConsThree(bs);
    assert bs[3..] == [];
    assert [bs[0], bs[1], bs[2]] + [] == [bs[0], bs[1], bs[2]];
  }

  lemma DecodeEncodeStep(bs: seq<Byte>)
    requires |bs| > 3
    requires Decode(Encode(bs[3..])) == Some(bs[3..])
    ensures Decode(Encode(bs)) == Some(bs)
  {
    var g := Group(bs[0], bs[1], bs[2]);
    var e := Encode(bs[3..]);
    EncodeSplit(bs);
    DecodeFullGroup(bs[0], bs[1], bs[2]);
    DecodeAppend(g, e);
    ConsThree(bs);
  }

  lemma ConsThree<T>(bs: seq<T>)
    requires |bs| >= 3
    ensures [bs[0], bs[1], bs[2]] + bs[3..] == bs
  {
  }

  /** Decoding undoes encoding. */
  lemma {:induction false} DecodeEncode(bs: seq<Byte>)
    ensures Decode(Encode(bs)) == Some(bs)
    decreases |bs|
  {
    if |bs| == 0 {
    } else if |bs| <= 2 {
      DecodeEncodeShort(bs);
    } else if |bs| == 3 {
      DecodeEncodeThree(bs);
    } else {
      DecodeEncode(bs[3..]);
      DecodeEncodeStep(bs);
    }
  }

  lemma EncodeFullGroup(s: string)
    requires |s| == 4 && DecodeFull(s).Some?
    ensures var t := DecodeFull(s).value; Encode(t) == s
  {
    var a, b, c, d := Index(s[0]).value, Index(s[1]).value, Index(s[2]).value, Index(s[3]).value;
    QuadOfBytes(a, b, c, d);
    var t := DecodeFull(s).value;
    assert Encode(t[3..]) == [];
  }

  lemma EncodeFinalGroup(s: string)
    requires |s| == 4 && DecodeFinal(s).Some?
    ensures Encode(DecodeFinal(s).value) == s
  {
    if s[2] == '=' && s[3] == '=' {
      var a, b := Index(s[0]).value, Index(s[1]).value;
      QuadOfBytes(a, b, 0, 0);
    } else if s[3] == '=' {
      var a, b, c := Index(s[0]).value, Index(s[1]).value, Index(s[2]).value;
      QuadOfBytes(a, b, c, 0);
    } else {
      EncodeFullGroup(s);
    }
  }

  /** Only an encoding decodes: decoding is canonical. */
  lemma {:induction false} EncodeDecode(s: string)
    requires Decode(s).Some?
    ensures Encode(Decode(s).value) == s
    decreases |s|
  {
    if |s| == 4 {
      EncodeFinalGroup(s);
    } else if |s| > 4 {
      var h := s[..4];
      EncodeFullGroup(h);
      EncodeDecode(s[4..]);
      var head := DecodeFull(h).value;
      var tail := Decode(s[4..]).value;
      var bs := Decode(s).value;
      assert bs == head + tail;
      assert bs[..3] == head && bs[3..] == tail;
      assert s == h + s[4..];
    }
  }

  /** A text decodes to `bs` exactly when it is the encoding of `bs`. */
  lemma DecodeIff(s: string, bs: seq<Byte>)
    ensures Decode(s) == Some(bs) <==> s == Encode(bs)
  {
    if Decode(s) == Some(bs) {
      EncodeDecode(s);
    }
    if s == Encode(bs) {
      DecodeEncode(bs);
    }
  }
}
