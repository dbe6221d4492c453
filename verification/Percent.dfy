/** Percent-encoding of selection values (section 2.1 of RFC 3986). */
module Percent {
  import opened Wrappers
  import opened Types
  import Text

  const PERCENT: Byte := 0x25

  function HexDigit(b: Byte): (r: Option<nat>)
    ensures r.Some? ==> r.value < 16
  {
    if 48 <= b <= 57 then Some(b as nat - 48)
    else if 97 <= b <= 102 then Some(b as nat - 97 + 10)
    else if 65 <= b <= 70 then Some(b as nat - 65 + 10)
    else None
  }

  /** Replaces every escape by its byte; nothing when a `%` is not followed by two hex digits. */
  function Unescape(bytes: seq<Byte>): Option<seq<Byte>>
    decreases |bytes|
  {
    if bytes == [] then Some([])
    else if bytes[0] == PERCENT then
      if |bytes| < 3 || HexDigit(bytes[1]).None? || HexDigit(bytes[2]).None? then None
      else Prepend([(HexDigit(bytes[1]).value * 16 + HexDigit(bytes[2]).value) as Byte], Unescape(bytes[3..]))
    else Prepend([bytes[0]], Unescape(bytes[1..]))
  }

  function Prepend(out: seq<Byte>, rest: Option<seq<Byte>>): Option<seq<Byte>> {
    if rest.None? then None else Some(out + rest.value)
  }

  function PercentDecode(raw: string): Option<string> {
    match Unescape(Text.Utf8(raw))
    case None => None
    case Some(bytes) => Text.FromUtf8(bytes)
  }

  lemma PrependTwice(out: seq<Byte>, b: Byte, rest: Option<seq<Byte>>)
    ensures Prepend(out, Prepend([b], rest)) == Prepend(out + [b], rest)
  {
    if rest.Some? {
      assert out + ([b] + rest.value) == (out + [b]) + rest.value;
    }
  }

  /** The cursor loop over the bytes. */
  method PercentDecodeLoop(raw: string) returns (r: Option<string>)
    ensures r == PercentDecode(raw)
  {
    var bytes := Text.Utf8(raw);
    var out: seq<Byte> := [];
    var i := 0;
    assert bytes[0..] == bytes;
    if Unescape(bytes).Some? {
      assert [] + Unescape(bytes).value == Unescape(bytes).value;
    }
    while i < |bytes|
      invariant 0 <= i <= |bytes|
      invariant Unescape(bytes) == Prepend(out, Unescape(bytes[i..]))
    {
      if bytes[i] == PERCENT {
        if i + 2 >= |bytes| || HexDigit(bytes[i + 1]).None? || HexDigit(bytes[i + 2]).None? {
          return None;
        }
        var b := (HexDigit(bytes[i + 1]).value * 16 + HexDigit(bytes[i + 2]).value) as Byte;
        assert bytes[i..][3..] == bytes[i + 3..] && bytes[i..][1] == bytes[i + 1] && bytes[i..][2] == bytes[i + 2];
        PrependTwice(out, b, Unescape(bytes[i + 3..]));
        out := out + [b];
        i := i + 3;
      } else {
        assert bytes[i..][1..] == bytes[i + 1..];
        PrependTwice(out, bytes[i], Unescape(bytes[i + 1..]));
        out := out + [bytes[i]];
        i := i + 1;
      }
    }
    assert bytes[i..] == [] && out + [] == out;
    return Text.FromUtf8(out);
  }

  // ---- What is accepted ----

  predicate IsHexChar(c: char) {
    '0' <= c <= '9' || 'a' <= c <= 'f' || 'A' <= c <= 'F'
  }

  /** Every `%` is followed by two hex digits. */
  predicate WellEscaped(raw: string) {
    forall i :: 0 <= i < |raw| && raw[i] == '%' ==> i + 2 < |raw| && IsHexChar(raw[i + 1]) && IsHexChar(raw[i + 2])
  }

  lemma WellEscapedTail(raw: string)
    requires raw != []
    ensures WellEscaped(raw) <==>
            WellEscaped(raw[1..]) && (raw[0] == '%' ==> 2 < |raw| && IsHexChar(raw[1]) && IsHexChar(raw[2]))
  {
    var tail := raw[1..];
    assert forall i :: 0 <= i < |tail| ==> tail[i] == raw[i + 1];
    if WellEscaped(raw) {
      forall i | 0 <= i < |tail| && tail[i] == '%'
        ensures i + 2 < |tail| && IsHexChar(tail[i + 1]) && IsHexChar(tail[i + 2])
      {
        assert raw[i + 1] == '%';
      }
    }
    if WellEscaped(tail) {
      forall i | 1 <= i < |raw| && raw[i] == '%'
        ensures i + 2 < |raw| && IsHexChar(raw[i + 1]) && IsHexChar(raw[i + 2])
      {
        assert tail[i - 1] == '%';
      }
    }
  }

  /** A character starts with a hex-digit byte, or with `%`, exactly when it is one. */
  lemma FirstByte(c: char)
    ensures HexDigit(Text.EncodeChar(c)[0]).Some? <==> IsHexChar(c)
    ensures Text.EncodeChar(c)[0] == PERCENT <==> c == '%'
    ensures IsHexChar(c) || c == '%' ==> Text.EncodeChar(c) == [c as int as Byte]
  {
  }

  lemma {:induction false} UnescapesExactly(raw: string)
    ensures Unescape(Text.Utf8(raw)).Some? <==> WellEscaped(raw)
    decreases |raw|
  {
    if raw != [] {
      var e, rest := Text.EncodeChar(raw[0]), Text.Utf8(raw[1..]);
      var bytes := e + rest;
      WellEscapedTail(raw);
      FirstByte(raw[0]);
      assert bytes[0] == e[0];
      if raw[0] == '%' {
        assert bytes[1..] == rest;
        if |raw| >= 2 {
          FirstByte(raw[1]);
          assert bytes[1] == Text.EncodeChar(raw[1])[0];
          if |raw| >= 3 && IsHexChar(raw[1]) {
            FirstByte(raw[2]);
            assert raw[1..][1..] == raw[2..] && raw[2..][1..] == raw[3..];
            assert rest == Text.EncodeChar(raw[1]) + Text.Utf8(raw[2..]);
            assert Text.Utf8(raw[2..]) == Text.EncodeChar(raw[2]) + Text.Utf8(raw[3..]);
            assert bytes[2] == Text.EncodeChar(raw[2])[0];
            if IsHexChar(raw[2]) {
              assert bytes[3..] == Text.Utf8(raw[3..]);
              UnescapesExactly(raw[3..]);
              WellEscapedTail(raw[1..]);
              WellEscapedTail(raw[2..]);
            }
          } else if |raw| == 2 {
            assert raw[1..][1..] == [] && Text.Utf8([]) == [];
            assert rest == Text.EncodeChar(raw[1]);
          }
        }
      } else {
        UnescapesExactly(raw[1..]);
        KeptChar(e, rest);
      }
    }
  }

  /** The bytes of a character other than `%` are copied. */
  lemma {:induction false} KeptChar(e: seq<Byte>, rest: seq<Byte>)
    requires PERCENT !in e
    ensures Unescape(e + rest).Some? <==> Unescape(rest).Some?
  {
    if e == [] {
      assert e + rest == rest;
    } else {
      assert (e + rest)[0] == e[0] && (e + rest)[1..] == e[1..] + rest;
      KeptChar(e[1..], rest);
    }
  }

  /** Decoding succeeds exactly on well-escaped text whose bytes are UTF-8, and yields the text of those bytes. */
  lemma DecodesExactly(raw: string)
    ensures PercentDecode(raw).Some? ==> WellEscaped(raw)
    ensures !WellEscaped(raw) ==> PercentDecode(raw).None?
    ensures forall s :: PercentDecode(raw) == Some(s) <==> Unescape(Text.Utf8(raw)) == Some(Text.Utf8(s))
  {
    UnescapesExactly(raw);
    forall s | Unescape(Text.Utf8(raw)) == Some(Text.Utf8(s))
      ensures PercentDecode(raw) == Some(s)
    {
      Text.FromUtf8Inverts(s);
    }
  }

  // ---- The encoder an address is written with ----

  function HexChar(n: nat): (c: char)
    requires n < 16
    ensures IsHexChar(c)
  {
    if n < 10 then (n + 48) as char else (n + 55) as char
  }

  /** One byte of an address, kept if it may be. */
  function Written(b: Byte, keep: bool): (r: string)
    ensures ',' !in r
  {
    if keep && b < 0x80 && b != PERCENT && b as char != ',' then [b as char]
    else ['%', HexChar(b as nat / 16), HexChar(b as nat % 16)]
  }

  /** Keeps the ASCII bytes the caller chooses, other than `%` and `,`; escapes every other byte. */
  function PercentEncode(bytes: seq<Byte>, keep: Byte -> bool): (r: string)
    ensures ',' !in r
  {
    if bytes == [] then "" else Written(bytes[0], keep(bytes[0])) + PercentEncode(bytes[1..], keep)
  }

  lemma EscapeBytes(n: nat, rest: string)
    requires n < 256
    ensures Text.Utf8(['%', HexChar(n / 16), HexChar(n % 16)] + rest) ==
            [PERCENT, HexChar(n / 16) as int as Byte, HexChar(n % 16) as int as Byte] + Text.Utf8(rest)
    ensures HexDigit(HexChar(n / 16) as int as Byte) == Some(n / 16)
    ensures HexDigit(HexChar(n % 16) as int as Byte) == Some(n % 16)
  {
    var hi, lo := HexChar(n / 16), HexChar(n % 16);
    Text.Utf8Concat(['%', hi, lo], rest);
    FirstByte('%');
    FirstByte(hi);
    FirstByte(lo);
    assert [lo][1..] == [] && Text.Utf8([]) == [];
    assert Text.Utf8([lo]) == Text.EncodeChar(lo) + [] == [lo as int as Byte];
    assert [hi, lo][1..] == [lo] && Text.Utf8([hi, lo]) == Text.EncodeChar(hi) + Text.Utf8([lo]);
    assert ['%', hi, lo][1..] == [hi, lo] && Text.Utf8(['%', hi, lo]) == Text.EncodeChar('%') + Text.Utf8([hi, lo]);
    assert Text.EncodeChar('%') == [PERCENT];
  }

  lemma KeptByte(b: Byte, rest: string)
    requires b < 0x80 && b != PERCENT
    ensures Unescape(Text.Utf8([b as char] + rest)) == Prepend([b], Unescape(Text.Utf8(rest)))
  {
    assert ([b as char] + rest)[1..] == rest;
    assert Text.EncodeChar(b as char) == [b];
    assert ([b] + Text.Utf8(rest))[1..] == Text.Utf8(rest);
  }

  lemma EscapedByte(b: Byte, rest: string)
    ensures Unescape(Text.Utf8(['%', HexChar(b as nat / 16), HexChar(b as nat % 16)] + rest)) ==
            Prepend([b], Unescape(Text.Utf8(rest)))
  {
    EscapeBytes(b as nat, rest);
    var escaped := Text.Utf8(['%', HexChar(b as nat / 16), HexChar(b as nat % 16)] + rest);
    assert escaped[3..] == Text.Utf8(rest);
    assert (b as nat / 16 * 16 + b as nat % 16) as Byte == b;
  }

  lemma WrittenDecodes(b: Byte, keep: bool, rest: string)
    ensures Unescape(Text.Utf8(Written(b, keep) + rest)) == Prepend([b], Unescape(Text.Utf8(rest)))
  {
    if keep && b < 0x80 && b != PERCENT && b as char != ',' {
      KeptByte(b, rest);
    } else {
      EscapedByte(b, rest);
    }
  }

  lemma {:induction false} UnescapeInverts(bytes: seq<Byte>, keep: Byte -> bool)
    ensures Unescape(Text.Utf8(PercentEncode(bytes, keep))) == Some(bytes)
  {
    if bytes != [] {
      UnescapeInverts(bytes[1..], keep);
      WrittenDecodes(bytes[0], keep(bytes[0]), PercentEncode(bytes[1..], keep));
      assert [bytes[0]] + bytes[1..] == bytes;
    }
  }

  /** Decoding inverts encoding, whatever the encoder chooses to keep. */
  lemma DecodeInverts(value: string, keep: Byte -> bool)
    ensures PercentDecode(PercentEncode(Text.Utf8(value), keep)) == Some(value)
  {
    UnescapeInverts(Text.Utf8(value), keep);
    Text.FromUtf8Inverts(value);
  }
}
