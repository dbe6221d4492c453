/** Text: ASCII case folding, lexicographic order, and the UTF-8 bytes a string is stored in. */
module Text {
  import opened Wrappers
  import opened Types

  function LowerChar(c: char): char {
    if 'A' <= c <= 'Z' then (c as int + 32) as char else c
  }

  /** ASCII lowercase; every other character is kept. */
  function Lower(s: string): (r: string)
    ensures |r| == |s|
    ensures forall i :: 0 <= i < |s| ==> r[i] == LowerChar(s[i])
  {
    seq(|s|, i requires 0 <= i < |s| => LowerChar(s[i]))
  }

  /** Strictly before in lexicographic order. */
  predicate Before(a: string, b: string) {
    if a == [] then b != []
    else b != [] && (a[0] < b[0] || (a[0] == b[0] && Before(a[1..], b[1..])))
  }

  lemma {:induction false} BeforeIsTotal(a: string, b: string)
    ensures Before(a, b) || a == b || Before(b, a)
    ensures !(Before(a, b) && Before(b, a))
    ensures !Before(a, a)
  {
    if a != [] {
      BeforeIsTotal(a[1..], if b == [] then [] else b[1..]);
      if b != [] && a[0] == b[0] && a[1..] == b[1..] {
        assert a == [a[0]] + a[1..] && b == [b[0]] + b[1..];
      }
    }
  }

  lemma {:induction false} BeforeIsTransitive(a: string, b: string, c: string)
    requires Before(a, b) && Before(b, c)
    ensures Before(a, c)
  {
    if a != [] && a[0] == b[0] == c[0] {
      BeforeIsTransitive(a[1..], b[1..], c[1..]);
    }
  }

  /** The one to four UTF-8 bytes of a character (section 3 of RFC 3629). */
  function EncodeChar(c: char): (r: seq<Byte>)
    ensures 1 <= |r| <= 4
  {
    var n := c as int;
    if n < 0x80 then [n as Byte]
    else if n < 0x800 then [(0xC0 + n / 64) as Byte, (0x80 + n % 64) as Byte]
    else if n < 0x1_0000 then
      [(0xE0 + n / 64 / 64) as Byte, (0x80 + n / 64 % 64) as Byte, (0x80 + n % 64) as Byte]
    else
      [(0xF0 + n / 64 / 64 / 64) as Byte, (0x80 + n / 64 / 64 % 64) as Byte,
       (0x80 + n / 64 % 64) as Byte, (0x80 + n % 64) as Byte]
  }

  function Utf8(s: string): (r: seq<Byte>)
    ensures |r| >= |s|
  {
    if s == [] then [] else EncodeChar(s[0]) + Utf8(s[1..])
  }

  lemma SeqAssociates<T>(a: seq<T>, b: seq<T>, c: seq<T>)
    ensures (a + b) + c == a + (b + c)
  {
  }

  lemma {:induction false} Utf8Concat(s: string, t: string)
    ensures Utf8(s + t) == Utf8(s) + Utf8(t)
  {
    if s == [] {
      assert s + t == t;
    } else {
      Utf8Concat(s[1..], t);
      assert (s + t)[0] == s[0] && (s + t)[1..] == s[1..] + t;
      SeqAssociates(EncodeChar(s[0]), Utf8(s[1..]), Utf8(t));
    }
  }

  /** The code point the leading bytes would spell, before checking that they are its encoding. */
  function Candidate(bytes: seq<Byte>): (r: Option<(int, nat)>)
    ensures r.Some? ==> 1 <= r.value.1 <= |bytes|
  {
    if bytes == [] then None
    else
      var b := bytes[0] as int;
      if b < 0x80 then Some((b, 1))
      else if b < 0xE0 then (if |bytes| < 2 then None else Some((b % 32 * 64 + bytes[1] as int % 64, 2)))
      else if b < 0xF0 then
        (if |bytes| < 3 then None else Some((b % 16 * 4096 + bytes[1] as int % 64 * 64 + bytes[2] as int % 64, 3)))
      else if |bytes| < 4 then None
      else Some((b % 8 * 262144 + bytes[1] as int % 64 * 4096 + bytes[2] as int % 64 * 64 + bytes[3] as int % 64, 4))
  }

  predicate IsScalar(n: int) {
    0 <= n < 0xD800 || 0xE000 <= n < 0x11_0000
  }

  /** The first character, if the bytes start with the encoding of one. */
  function DecodeChar(bytes: seq<Byte>): (r: Option<char>)
    ensures r.Some? ==> EncodeChar(r.value) <= bytes
  {
    match Candidate(bytes)
    case None => None
    case Some((n, len)) =>
      if IsScalar(n) && EncodeChar(n as char) == bytes[..len] then Some(n as char) else None
  }

  /** The text the bytes encode; nothing for bytes that are not UTF-8. */
  function FromUtf8(bytes: seq<Byte>): (r: Option<string>)
    ensures r.Some? ==> Utf8(r.value) == bytes
    decreases |bytes|
  {
    if bytes == [] then Some("")
    else
      match DecodeChar(bytes)
      case None => None
      case Some(c) =>
        var len := |EncodeChar(c)|;
        match FromUtf8(bytes[len..])
        case None => None
        case Some(rest) =>
          assert bytes == EncodeChar(c) + bytes[len..];
          Some([c] + rest)
  }

  lemma SmallPayloads(n: int)
    requires 0 <= n < 64
    ensures (0x80 + n) % 64 == n
    ensures n < 32 ==> (0xC0 + n) % 32 == n
    ensures n < 16 ==> (0xE0 + n) % 16 == n
    ensures n < 8 ==> (0xF0 + n) % 8 == n
  {
  }

  lemma Base64Digits(n: nat)
    ensures n == n / 64 * 64 + n % 64
    ensures n == n / 64 / 64 * 4096 + n / 64 % 64 * 64 + n % 64
    ensures n == n / 64 / 64 / 64 * 262144 + n / 64 / 64 % 64 * 4096 + n / 64 % 64 * 64 + n % 64
  {
    var a := n / 64;
    var b := a / 64;
    assert a == b * 64 + a % 64;
    assert b == b / 64 * 64 + b % 64;
  }

  lemma CandidateOfEncoded(c: char, rest: seq<Byte>)
    ensures Candidate(EncodeChar(c) + rest) == Some((c as int, |EncodeChar(c)|))
  {
    var n, e := c as int, EncodeChar(c);
    var bytes := e + rest;
    assert bytes[0] == e[0] && (|e| > 1 ==> bytes[1] == e[1]) && (|e| > 2 ==> bytes[2] == e[2]) && (|e| > 3 ==> bytes[3] == e[3]);
    Base64Digits(n);
    SmallPayloads(n % 64);
    if |e| == 2 {
      SmallPayloads(n / 64);
    } else if |e| == 3 {
      SmallPayloads(n / 64 % 64);
      SmallPayloads(n / 64 / 64);
    } else if |e| == 4 {
      SmallPayloads(n / 64 % 64);
      SmallPayloads(n / 64 / 64 % 64);
      SmallPayloads(n / 64 / 64 / 64);
    }
  }

  /** Decoding inverts encoding. */
  lemma {:induction false} FromUtf8Inverts(s: string)
    ensures FromUtf8(Utf8(s)) == Some(s)
  {
    if s != [] {
      var e, rest := EncodeChar(s[0]), Utf8(s[1..]);
      CandidateOfEncoded(s[0], rest);
      assert (e + rest)[..|e|] == e && (e + rest)[|e|..] == rest;
      assert DecodeChar(e + rest) == Some(s[0]);
      FromUtf8Inverts(s[1..]);
      assert s == [s[0]] + s[1..];
    }
  }
}
