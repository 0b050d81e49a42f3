/** Go strings as byte sequences, and the two standard-library string
    operations the token endpoint relies on: `strings.Index` with a
    one-byte separator and `strings.SplitN(s, sep, 2)`. */
module GoStrings {

  /** A Go `byte`. */
  type byte = x: int | 0 <= x < 0x100

  /** A Go `string` or `[]byte`: a sequence of bytes. */
  type Bytes = seq<byte>

  const SPACE: byte := 0x20
  const COLON: byte := 0x3A

  /** The bytes of an ASCII string literal, as Go stores it. */
  function Ascii(s: string): (b: Bytes)
    requires forall i | 0 <= i < |s| :: s[i] as int < 0x80
    ensures |b| == |s|
    ensures forall i | 0 <= i < |s| :: b[i] == s[i] as int
  {
    seq(|s|, i requires 0 <= i < |s| => s[i] as int)
  }

  /** The index of the first occurrence of `x` in `s`, or -1 when there is
      none, as `strings.Index` returns it for a one-byte separator. */
  function IndexByte(s: Bytes, x: byte): (r: int)
    ensures -1 <= r < |s|
    ensures r == -1 <==> x !in s
    ensures r >= 0 ==> s[r] == x && x !in s[..r]
  {
    if s == [] then -1
    else if s[0] == x then 0
    else
      var k := IndexByte(s[1..], x);
      if k < 0 then -1
      else
        assert s[..k + 1] == [s[0]] + s[1..][..k];
        k + 1
  }

  /** `strings.SplitN(s, sep, 2)` for a one-byte separator: the whole
      string alone when `sep` does not occur, otherwise the text before the
      first `sep` and everything after it. */
  function SplitN2(s: Bytes, sep: byte): (parts: seq<Bytes>)
    ensures |parts| == 1 || |parts| == 2
    ensures |parts| == 1 <==> sep !in s
    ensures |parts| == 1 ==> parts[0] == s
    ensures |parts| == 2 ==> s == parts[0] + [sep] + parts[1] && sep !in parts[0]
  {
    var m := IndexByte(s, sep);
    if m < 0 then [s]
    else
      assert s == s[..m] + [sep] + s[m + 1..];
      [s[..m], s[m + 1..]]
  }

  /** Splitting on the first separator finds the separator that follows a
      prefix free of it, whatever comes after (which may contain `sep`). */
  lemma {:induction false} SplitN2AtFirst(head: Bytes, sep: byte, tail: Bytes)
    requires sep !in head
    ensures SplitN2(head + [sep] + tail, sep) == [head, tail]
  {
    var s := head + [sep] + tail;
    var parts := SplitN2(s, sep);
    assert s[|head|] == sep;
    assert |parts[0]| == |head|;
    assert parts[0] == head;
  }
}
