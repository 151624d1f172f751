/**
 * `base64.StdEncoding`: the standard alphabet with '=' padding, as defined in
 * section 4 of RFC 4648. Decoding is the partner that shows the encoding loses
 * nothing.
 */
module Base64 {
  import opened Wrappers
  import opened GoText

  /** The symbol for a six-bit value: 'A'-'Z', 'a'-'z', '0'-'9', '+', '/'. */
  function Sym(d: nat): (c: char)
    requires d < 64
    ensures c != '='
  {
    if d < 26 then ('A' as int + d) as char
    else if d < 52 then ('a' as int + d - 26) as char
    else if d < 62 then ('0' as int + d - 52) as char
    else if d == 62 then '+'
    else '/'
  }

  /** The value of an alphabet character, or -1 for any other character. */
  function Val(c: char): (v: int)
    ensures -1 <= v < 64
    ensures 0 <= v ==> Sym(v) == c
  {
    if 'A' <= c <= 'Z' then c as int - 'A' as int
    else if 'a' <= c <= 'z' then c as int - 'a' as int + 26
    else if '0' <= c <= '9' then c as int - '0' as int + 52
    else if c == '+' then 62
    else if c == '/' then 63
    else -1
  }

  lemma ValSym(d: nat)
    requires d < 64
    ensures Val(Sym(d)) == d
  {
  }

  /** Every three bytes become four symbols; a final group of one or two bytes is padded with '='. */
  function Encode(b: seq<byte>): (s: string)
    ensures |s| == 4 * ((|b| + 2) / 3)
    decreases |b|
  {
    if |b| == 0 then []
    else
      var x := b[0];
      var y := if |b| > 1 then b[1] else 0;
      var z := if |b| > 2 then b[2] else 0;
      Bounds(x, y, z);
      if |b| == 1 then [Sym(x / 4), Sym((x % 4) * 16), '=', '=']
      else if |b| == 2 then [Sym(x / 4), Sym((x % 4) * 16 + y / 16), Sym((y % 16) * 4), '=']
      else Group(x, y, z) + Encode(b[3..])
  }

  /** The four symbols of a full group of three bytes. */
  function Group(x: byte, y: byte, z: byte): (g: string)
    ensures |g| == 4
  {
    Bounds(x, y, z);
    [Sym(x / 4), Sym((x % 4) * 16 + y / 16), Sym((y % 16) * 4 + z / 64), Sym(z % 64)]
  }

  lemma Bounds(x: byte, y: byte, z: byte)
    ensures x / 4 < 64 && (x % 4) * 16 + y / 16 < 64 && (y % 16) * 4 + z / 64 < 64 && z % 64 < 64
  {
  }

  lemma DecodeBounds(a: nat, b: nat, c: nat, d: nat)
    requires a < 64 && b < 64 && c < 64 && d < 64
    ensures a * 4 + b / 16 < 256 && (b % 16) * 16 + c / 4 < 256 && (c % 4) * 64 + d < 256
  {
  }

  /** Reads back groups of four symbols. */
  function Decode(s: string): Option<seq<byte>>
    decreases |s|
  {
    if |s| == 0 then Some([])
    else if |s| < 4 then None
    else
      var a, b, c, d := Val(s[0]), Val(s[1]), Val(s[2]), Val(s[3]);
      if a < 0 || b < 0 then None
      else if |s| == 4 && s[2] == '=' && s[3] == '=' then
        DecodeBounds(a, b, 0, 0);
        Some([a * 4 + b / 16])
      else if c < 0 then None
      else if |s| == 4 && s[3] == '=' then
        DecodeBounds(a, b, c, 0);
        Some([a * 4 + b / 16, (b % 16) * 16 + c / 4])
      else if d < 0 then None
      else
        DecodeBounds(a, b, c, d);
        match Decode(s[4..])
        case None => None
        case Some(rest) => Some([a * 4 + b / 16, (b % 16) * 16 + c / 4, (c % 4) * 64 + d] + rest)
  }

  lemma GroupOfThree(x: byte, y: byte, z: byte)
    ensures var a, b, c, d := x / 4, (x % 4) * 16 + y / 16, (y % 16) * 4 + z / 64, z % 64;
            a * 4 + b / 16 == x && (b % 16) * 16 + c / 4 == y && (c % 4) * 64 + d == z
  {
  }

  lemma DecodeOne(x: byte)
    ensures Decode(Encode([x])) == Some([x])
  {
    ValSym(x / 4);
    ValSym((x % 4) * 16);
    GroupOfThree(x, 0, 0);
  }

  lemma DecodeTwo(x: byte, y: byte)
    ensures Decode(Encode([x, y])) == Some([x, y])
  {
    ValSym(x / 4);
    ValSym((x % 4) * 16 + y / 16);
    ValSym((y % 16) * 4);
    GroupOfThree(x, y, 0);
    var s := Encode([x, y]);
    assert s == [Sym(x / 4), Sym((x % 4) * 16 + y / 16), Sym((y % 16) * 4), '='];
  }

  lemma DecodeGroup(x: byte, y: byte, z: byte, t: string)
    ensures Decode(Group(x, y, z) + t) == match Decode(t) case None => None case Some(r) => Some([x, y, z] + r)
  {
    Bounds(x, y, z);
    ValSym(x / 4);
    ValSym((x % 4) * 16 + y / 16);
    ValSym((y % 16) * 4 + z / 64);
    ValSym(z % 64);
    GroupOfThree(x, y, z);
    var g := Group(x, y, z);
    assert g == [Sym(x / 4), Sym((x % 4) * 16 + y / 16), Sym((y % 16) * 4 + z / 64), Sym(z % 64)];
    assert (g + t)[4..] == t;
  }

  /** Decoding an encoding gives back the bytes. */
  lemma {:induction false} DecodeEncode(b: seq<byte>)
    ensures Decode(Encode(b)) == Some(b)
    decreases |b|
  {
    if 1 <= |b| <= 2 {
      DecodeShort(b);
    } else if |b| >= 3 {
      DecodeEncode(b[3..]);
      DecodeLong(b);
    }
  }

  /** A final group of one or two bytes round-trips through its padded encoding. */
  lemma DecodeShort(b: seq<byte>)
    requires 1 <= |b| <= 2
    ensures Decode(Encode(b)) == Some(b)
  {
    if |b| == 1 {
      assert b == [b[0]];
      DecodeOne(b[0]);
    } else {
      assert b == [b[0], b[1]];
      DecodeTwo(b[0], b[1]);
    }
  }

  /** A full group in front of a round-tripping encoding still round-trips. */
  lemma DecodeLong(b: seq<byte>)
    requires |b| >= 3 && Decode(Encode(b[3..])) == Some(b[3..])
    ensures Decode(Encode(b)) == Some(b)
  {
    var t := Encode(b[3..]);
    EncodeStep(b);
    DecodeGroup(b[0], b[1], b[2], t);
    FirstThree(b);
  }

  lemma FirstThree(b: seq<byte>)
    requires |b| >= 3
    ensures [b[0], b[1], b[2]] + b[3..] == b
  {
  }

  /** A group of three bytes encodes to its four symbols in front of the rest's encoding. */
  lemma EncodeStep(b: seq<byte>)
    requires |b| >= 3
    ensures Encode(b) == Group(b[0], b[1], b[2]) + Encode(b[3..])
  {
  }
}
