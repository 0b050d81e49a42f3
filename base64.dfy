/** Go's `base64.StdEncoding`: the standard base64 alphabet with `=`
    padding of section 4 of RFC 4648, as `DecodeString` applies it. Three
    details of Go's decoder are kept: carriage returns and line feeds are
    skipped wherever they occur, padding is required (the input length
    without line breaks must be a multiple of four), and the unused low bits
    of the last character before padding need not be zero (Go's non-strict
    mode, unlike section 3.5 of RFC 4648). */
module Base64 {
  import opened Wrappers
  import opened GoStrings

  /** The six-bit value one character of the alphabet stands for. */
  type Sextet = x: int | 0 <= x < 64

  const PAD: byte := 0x3D  // '='
  const CR: byte := 0x0D
  const LF: byte := 0x0A

  /** The decode table of the standard alphabet (table 1 of RFC 4648):
      'A'-'Z', 'a'-'z', '0'-'9', '+', '/' stand for 0 to 63; every other
      byte, '=' included, is not in the alphabet. */
  function DecodeSextet(c: byte): Option<Sextet>
  {
    if 0x41 <= c <= 0x5A then Some(c - 0x41)
    else if 0x61 <= c <= 0x7A then Some(c - 0x61 + 26)
    else if 0x30 <= c <= 0x39 then Some(c - 0x30 + 52)
    else if c == 0x2B then Some(62)
    else if c == 0x2F then Some(63)
    else None
  }

  predicate InAlphabet(c: byte) {
    DecodeSextet(c).Some?
  }

  /** The character the encoder writes for a six-bit value: the inverse of
      the decode table. */
  function EncodeSextet(v: Sextet): (c: byte)
    ensures DecodeSextet(c) == Some(v)
  {
    if v < 26 then 0x41 + v
    else if v < 52 then 0x61 + (v - 26)
    else if v < 62 then 0x30 + (v - 52)
    else if v == 62 then 0x2B
    else 0x2F
  }

  /** The decode table and the encoder agree on every alphabet character. */
  lemma AlphabetBijection(c: byte, v: Sextet)
    ensures DecodeSextet(c) == Some(v) <==> EncodeSextet(v) == c
  {
  }

  /** A byte that makes any input containing it undecodable. */
  predicate Foreign(c: byte) {
    !InAlphabet(c) && c != PAD && c != CR && c != LF
  }

  /** The input with every carriage return and line feed removed. */
  function StripNewlines(s: Bytes): (t: Bytes)
    ensures CR !in t && LF !in t
    ensures |t| <= |s|
    ensures forall i | 0 <= i < |s| :: s[i] != CR && s[i] != LF ==> s[i] in t
    ensures forall j | 0 <= j < |t| :: t[j] in s
    ensures CR !in s && LF !in s ==> t == s
  {
    if s == [] then []
    else if s[0] == CR || s[0] == LF then StripNewlines(s[1..])
    else [s[0]] + StripNewlines(s[1..])
  }

  /** The three bytes that four six-bit values hold, high bits first. */
  function Unpack(a: Sextet, b: Sextet, c: Sextet, d: Sextet): (r: Bytes)
    ensures |r| == 3
  {
    [a * 4 + b / 16, (b % 16) * 16 + c / 4, (c % 4) * 64 + d]
  }

  /** One four-character quantum. All four characters in the alphabet give
      three bytes; only the last quantum may end in "x=" (two bytes) or
      "==" (one byte), the missing values counting as zero. */
  function DecodeQuantum(q: Bytes, last: bool): (r: Option<Bytes>)
    requires |q| == 4
    ensures r.Some? ==> 1 <= |r.value| <= 3
    ensures r.Some? && !last ==> |r.value| == 3
    ensures r.Some? ==> forall i | 0 <= i < 4 :: InAlphabet(q[i]) || q[i] == PAD
    ensures r.Some? ==> InAlphabet(q[0]) && InAlphabet(q[1])
    ensures r.Some? ==> (q[2] == PAD ==> q[3] == PAD) && (q[3] == PAD ==> last)
    ensures r.Some? ==> (q[3] == PAD <==> |r.value| < 3) && (q[2] == PAD <==> |r.value| == 1)
  {
    match (DecodeSextet(q[0]), DecodeSextet(q[1]), DecodeSextet(q[2]), DecodeSextet(q[3]))
    case (Some(a), Some(b), Some(c), Some(d)) =>
      Some(Unpack(a, b, c, d))
    case (Some(a), Some(b), Some(c), None) =>
      if last && q[3] == PAD then Some(Unpack(a, b, c, 0)[..2]) else None
    case (Some(a), Some(b), None, None) =>
      if last && q[2] == PAD && q[3] == PAD then Some(Unpack(a, b, 0, 0)[..1]) else None
    case _ => None
  }

  /** Decodes an input free of line breaks, quantum by quantum. */
  function DecodeQuanta(s: Bytes): (r: Option<Bytes>)
    ensures r.Some? ==> |s| % 4 == 0
    ensures r.Some? ==> forall i | 0 <= i < |s| :: InAlphabet(s[i]) || s[i] == PAD
    ensures r.Some? ==> 3 * (|s| / 4) - 2 <= |r.value| <= 3 * (|s| / 4)
    decreases |s|
  {
    if s == [] then Some([])
    else if |s| < 4 then None
    else
      match DecodeQuantum(s[..4], |s| == 4)
      case None => None
      case Some(head) =>
        match DecodeQuanta(s[4..])
        case None => None
        case Some(tail) =>
          assert forall i | 4 <= i < |s| :: s[i] == s[4..][i - 4];
          assert |s[4..]| / 4 == |s| / 4 - 1;
          assert |s| == 4 ==> tail == [];
          Some(head + tail)
  }

  /** `base64.StdEncoding.DecodeString`: None stands for Go's non-nil error.
      Decoding fails when a byte outside the alphabet, '=' and line breaks
      occurs, and when the input without line breaks is not padded to a
      multiple of four. */
  function DecodeString(s: Bytes): (r: Option<Bytes>)
    ensures (exists i | 0 <= i < |s| :: Foreign(s[i])) ==> r == None
    ensures r.Some? ==> |StripNewlines(s)| % 4 == 0
  {
    DecodeQuanta(StripNewlines(s))
  }

  /** `base64.StdEncoding.EncodeToString`: every three bytes become four
      characters, and a final one or two bytes are padded with '='. */
  function EncodeToString(b: Bytes): (s: Bytes)
    ensures |s| == 4 * ((|b| + 2) / 3)
    ensures forall i | 0 <= i < |s| :: InAlphabet(s[i]) || s[i] == PAD
    decreases |b|
  {
    if |b| == 0 then []
    else if |b| == 1 then
      [EncodeSextet(b[0] / 4), EncodeSextet((b[0] % 4) * 16), PAD, PAD]
    else if |b| == 2 then
      [EncodeSextet(b[0] / 4), EncodeSextet((b[0] % 4) * 16 + b[1] / 16),
       EncodeSextet((b[1] % 16) * 4), PAD]
    else
      [EncodeSextet(b[0] / 4), EncodeSextet((b[0] % 4) * 16 + b[1] / 16),
       EncodeSextet((b[1] % 16) * 4 + b[2] / 64), EncodeSextet(b[2] % 64)]
      + EncodeToString(b[3..])
  }

  /** Splitting three bytes into four six-bit values and joining them again
      gives the three bytes back. */
  lemma UnpackOfPack(x: byte, y: byte, z: byte)
    ensures Unpack(x / 4, (x % 4) * 16 + y / 16, (y % 16) * 4 + z / 64, z % 64) == [x, y, z]
  {
  }

  lemma {:induction false} DecodeQuantaOfEncode(b: Bytes)
    ensures DecodeQuanta(EncodeToString(b)) == Some(b)
    decreases |b|
  {
    var s := EncodeToString(b);
    if |b| == 0 {
    } else if |b| == 1 {
      UnpackOfPack(b[0], 0, 0);
      assert DecodeSextet(s[0]) == Some(b[0] / 4);
      assert DecodeSextet(s[1]) == Some((b[0] % 4) * 16);
      assert DecodeSextet(s[2]) == None && s[2] == PAD;
      assert DecodeSextet(s[3]) == None && s[3] == PAD;
      assert Unpack(b[0] / 4, (b[0] % 4) * 16, 0, 0)[..1] == b;
      assert DecodeQuantum(s, true) == Some(b);
      assert s[..4] == s && s[4..] == [];
      assert DecodeQuanta(s[4..]) == Some([]);
      assert b + [] == b;
    } else if |b| == 2 {
      UnpackOfPack(b[0], b[1], 0);
      assert DecodeSextet(s[0]) == Some(b[0] / 4);
      assert DecodeSextet(s[1]) == Some((b[0] % 4) * 16 + b[1] / 16);
      assert DecodeSextet(s[2]) == Some((b[1] % 16) * 4);
      assert DecodeSextet(s[3]) == None && s[3] == PAD;
      assert Unpack(b[0] / 4, (b[0] % 4) * 16 + b[1] / 16, (b[1] % 16) * 4, 0)[..2] == b;
      assert DecodeQuantum(s, true) == Some(b);
      assert s[..4] == s && s[4..] == [];
      assert DecodeQuanta(s[4..]) == Some([]);
      assert b + [] == b;
    } else {
      var rest := EncodeToString(b[3..]);
      assert s[..4] + rest == s;
      assert s[4..] == rest;
      UnpackOfPack(b[0], b[1], b[2]);
      var q := s[..4];
      assert DecodeSextet(q[0]) == Some(b[0] / 4);
      assert DecodeSextet(q[1]) == Some((b[0] % 4) * 16 + b[1] / 16);
      assert DecodeSextet(q[2]) == Some((b[1] % 16) * 4 + b[2] / 64);
      assert DecodeSextet(q[3]) == Some(b[2] % 64);
      assert b[..3] == [b[0], b[1], b[2]];
      assert DecodeQuantum(q, |s| == 4) == Some(b[..3]);
      DecodeQuantaOfEncode(b[3..]);
      assert b[..3] + b[3..] == b;
    }
  }

  /** Round trip: decoding what the encoder produces gives the bytes back. */
  lemma {:induction false} DecodeEncode(b: Bytes)
    ensures DecodeString(EncodeToString(b)) == Some(b)
  {
    var s := EncodeToString(b);
    assert CR !in s && LF !in s by {
      AlphabetBijection(CR, 0);
      AlphabetBijection(LF, 0);
    }
    DecodeQuantaOfEncode(b);
  }

  /** Go's decoder tolerates nonzero unused bits: in a final "xy==" only
      the top two bits of y count, so different y with the same top bits
      decode alike ("QQ==" and "QR==" both give "A"). */
  lemma UnusedBitsIgnored(x: Sextet, y: Sextet, y': Sextet)
    requires y / 16 == y' / 16
    ensures DecodeString([EncodeSextet(x), EncodeSextet(y), PAD, PAD]) == Some([x * 4 + y / 16])
    ensures DecodeString([EncodeSextet(x), EncodeSextet(y'), PAD, PAD]) == Some([x * 4 + y / 16])
  {
    DecodeFinalPair(x, y);
    DecodeFinalPair(x, y');
  }

  /** A lone final quantum "xy==" decodes to one byte. */
  lemma DecodeFinalPair(x: Sextet, y: Sextet)
    ensures DecodeString([EncodeSextet(x), EncodeSextet(y), PAD, PAD]) == Some([x * 4 + y / 16])
  {
    var q := [EncodeSextet(x), EncodeSextet(y), PAD, PAD];
    assert DecodeSextet(CR) == None && DecodeSextet(LF) == None && DecodeSextet(PAD) == None;
    assert CR !in q && LF !in q;
    assert StripNewlines(q) == q;
    assert DecodeSextet(q[0]) == Some(x) && DecodeSextet(q[1]) == Some(y);
    assert DecodeSextet(q[2]) == None && DecodeSextet(q[3]) == None;
    assert Unpack(x, y, 0, 0)[..1] == [x * 4 + y / 16];
    assert DecodeQuantum(q, true) == Some([x * 4 + y / 16]);
    assert q[..4] == q && q[4..] == [];
    assert DecodeQuanta(q[4..]) == Some([]);
    assert [x * 4 + y / 16] + [] == [x * 4 + y / 16];
    assert DecodeQuanta(q) == Some([x * 4 + y / 16]);
  }

  /** Padding stands only at the end of an accepted input: nowhere before
      the last two characters, and never before a non-padding character. */
  lemma {:induction false} PaddingAtEnd(s: Bytes)
    requires DecodeQuanta(s).Some?
    ensures forall i | 0 <= i < |s| - 2 :: s[i] != PAD
    ensures |s| >= 2 && s[|s| - 2] == PAD ==> s[|s| - 1] == PAD
    decreases |s|
  {
    if s != [] {
      var q := s[..4];
      assert DecodeSextet(PAD) == None;
      assert DecodeQuantum(q, |s| == 4).Some?;
      if |s| > 4 {
        PaddingAtEnd(s[4..]);
        assert q[3] != PAD && q[2] != PAD;
        forall i | 0 <= i < |s| - 2
          ensures s[i] != PAD
        {
          if i >= 4 {
            assert s[i] == s[4..][i - 4];
          } else {
            assert s[i] == q[i];
          }
        }
        assert s[|s| - 2] == s[4..][|s[4..]| - 2] && s[|s| - 1] == s[4..][|s[4..]| - 1];
      } else {
        assert q == s;
      }
    }
  }

  /** Go's decoder also ignores the two unused low bits of the third
      character of a final "xyz=": characters that agree on their high four
      bits decode to the same two bytes. */
  lemma UnusedBitsIgnoredPair(x: Sextet, y: Sextet, z: Sextet, z': Sextet)
    requires z / 4 == z' / 4
    ensures DecodeString([EncodeSextet(x), EncodeSextet(y), EncodeSextet(z), PAD])
      == Some([x * 4 + y / 16, (y % 16) * 16 + z / 4])
    ensures DecodeString([EncodeSextet(x), EncodeSextet(y), EncodeSextet(z'), PAD])
      == Some([x * 4 + y / 16, (y % 16) * 16 + z / 4])
  {
    DecodeFinalTriple(x, y, z);
    var q' := [EncodeSextet(x), EncodeSextet(y), EncodeSextet(z'), PAD];
    var b' := [x * 4 + y / 16, (y % 16) * 16 + z' / 4];
    DecodeFinalTriple(x, y, z');
    assert DecodeString(q') == Some(b');
    assert b' == [x * 4 + y / 16, (y % 16) * 16 + z / 4];
  }

  /** A lone final quantum "xyz=" decodes to two bytes. */
  lemma DecodeFinalTriple(x: Sextet, y: Sextet, z: Sextet)
    ensures DecodeString([EncodeSextet(x), EncodeSextet(y), EncodeSextet(z), PAD])
      == Some([x * 4 + y / 16, (y % 16) * 16 + z / 4])
  {
    var q := [EncodeSextet(x), EncodeSextet(y), EncodeSextet(z), PAD];
    var b := [x * 4 + y / 16, (y % 16) * 16 + z / 4];
    assert DecodeSextet(CR) == None && DecodeSextet(LF) == None && DecodeSextet(PAD) == None;
    assert CR !in q && LF !in q;
    assert StripNewlines(q) == q;
    assert DecodeSextet(q[0]) == Some(x) && DecodeSextet(q[1]) == Some(y);
    assert DecodeSextet(q[2]) == Some(z) && DecodeSextet(q[3]) == None;
    assert Unpack(x, y, z, 0)[..2] == b;
    assert DecodeQuantum(q, true) == Some(b);
    assert q[..4] == q && q[4..] == [];
    assert DecodeQuanta(q[4..]) == Some([]);
    assert b + [] == b;
    assert DecodeQuanta(q) == Some(b);
  }

  /** Removing the line break at position `i` does not change the input
      once line breaks are stripped. */
  lemma {:induction false} StripSkipsLineBreak(s: Bytes, i: nat)
    requires i < |s| && (s[i] == CR || s[i] == LF)
    ensures StripNewlines(s) == StripNewlines(s[..i] + s[i + 1..])
    decreases i
  {
    var t := s[..i] + s[i + 1..];
    if i == 0 {
      assert t == s[1..];
    } else {
      StripSkipsLineBreak(s[1..], i - 1);
      assert t[0] == s[0];
      assert t[1..] == s[1..][..i - 1] + s[1..][i..];
      assert StripNewlines(s[1..]) == StripNewlines(t[1..]);
    }
  }

  /** Line breaks are skipped wherever they stand, inside a quantum too:
      decoding is the same with or without any one of them. */
  lemma {:induction false} LineBreakIgnored(s: Bytes, i: nat)
    requires i < |s| && (s[i] == CR || s[i] == LF)
    ensures DecodeString(s) == DecodeString(s[..i] + s[i + 1..])
  {
    StripSkipsLineBreak(s, i);
  }
}
