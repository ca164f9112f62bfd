/**
 * The byte conversions of voice_chat/converter.py: fixed-width big-endian
 * unsigned integers (UIntConverter), UTF-8 text (StrConverter), and the payload
 * codec for a list of names, which takes the place of ArrayConverter in the
 * LIST_RESPONSE frame.
 */
module Converter {
  import opened Wrappers

  type byte = x: int | 0 <= x < 256

  /** 256^n: the number of distinct values n bytes can hold. */
  function Pow256(n: nat): (p: nat)
    ensures p >= 1
  {
    if n == 0 then 1 else 256 * Pow256(n - 1)
  }

  // ---------------------------------------------------------------------------
  // UIntConverter
  // ---------------------------------------------------------------------------

  /** UIntConverter.decode: big-endian, so the last byte is the least significant. */
  function DecodeUInt(raw: seq<byte>): (n: nat)
    ensures n < Pow256(|raw|)
  {
    if raw == [] then 0
    else 256 * DecodeUInt(raw[..|raw| - 1]) + raw[|raw| - 1]
  }

  /**
   * UIntConverter.encode: `int.to_bytes(length, 'big')`, exactly `length`
   * bytes; Python raises OverflowError when n does not fit, hence the requires.
   */
  function EncodeUInt(n: nat, length: nat): (raw: seq<byte>)
    requires n < Pow256(length)
    ensures |raw| == length
    ensures DecodeUInt(raw) == n
  {
    if length == 0 then [] else EncodeUInt(n / 256, length - 1) + [n % 256]
  }

  /** Decoding is big-endian: appending a byte shifts the value one byte left. */
  lemma DecodeUIntAppend(raw: seq<byte>, x: byte)
    ensures DecodeUInt([]) == 0
    ensures DecodeUInt(raw + [x]) == 256 * DecodeUInt(raw) + x
  {
    assert (raw + [x])[..|raw|] == raw;
  }

  /** A fixed-width field is decoded injectively: encoding the decoded value gives the bytes back. */
  lemma {:induction false} EncodeDecodeUInt(raw: seq<byte>)
    ensures EncodeUInt(DecodeUInt(raw), |raw|) == raw
  {
    if raw != [] {
      var init, last := raw[..|raw| - 1], raw[|raw| - 1];
      var n := DecodeUInt(raw);
      assert n == 256 * DecodeUInt(init) + last;
      assert n / 256 == DecodeUInt(init) && n % 256 == last;
      EncodeDecodeUInt(init);
      assert raw == init + [last];
    }
  }

  // ---------------------------------------------------------------------------
  // StrConverter: strict UTF-8
  // ---------------------------------------------------------------------------

  /** The UTF-8 form of one Unicode scalar value. */
  function EncodeChar(c: char): (raw: seq<byte>)
    ensures 1 <= |raw| <= 4
  {
    var cp := c as int;
    if cp < 0x80 then [cp]
    else if cp < 0x800 then [0xC0 + cp / 0x40, 0x80 + cp % 0x40]
    else if cp < 0x1_0000 then [0xE0 + cp / 0x1000, 0x80 + cp / 0x40 % 0x40, 0x80 + cp % 0x40]
    else [0xF0 + cp / 0x4_0000, 0x80 + cp / 0x1000 % 0x40, 0x80 + cp / 0x40 % 0x40, 0x80 + cp % 0x40]
  }

  /** StrConverter.encode: `str.encode('UTF-8')`. */
  function EncodeStr(s: string): (raw: seq<byte>)
    ensures |s| <= |raw| <= 4 * |s|
  {
    if s == [] then [] else EncodeChar(s[0]) + EncodeStr(s[1..])
  }

  predicate IsContinuation(b: byte) {
    0x80 <= b < 0xC0
  }

  /**
   * Decodes the character at the front of raw, with the number of bytes it
   * occupies. Like Python's strict decoder it refuses overlong forms,
   * surrogates, values above U+10FFFF, stray continuation bytes and truncated
   * sequences.
   */
  function DecodeChar(raw: seq<byte>): (r: Option<(char, nat)>)
    ensures r.Some? ==> 1 <= r.value.1 <= |raw|
  {
    if raw == [] then None
    else
      var b0: int := raw[0];
      if b0 < 0x80 then Some((b0 as char, 1))
      else if 0xC2 <= b0 < 0xE0 then
        if |raw| < 2 || !IsContinuation(raw[1]) then None
        else Some((((b0 - 0xC0) * 0x40 + (raw[1] as int - 0x80)) as char, 2))
      else if 0xE0 <= b0 < 0xF0 then
        if |raw| < 3 || !IsContinuation(raw[1]) || !IsContinuation(raw[2]) then None
        else
          var cp := (b0 - 0xE0) * 0x1000 + (raw[1] as int - 0x80) * 0x40 + (raw[2] as int - 0x80);
          if cp < 0x800 || 0xD800 <= cp < 0xE000 then None else Some((cp as char, 3))
      else if 0xF0 <= b0 < 0xF5 then
        if |raw| < 4 || !IsContinuation(raw[1]) || !IsContinuation(raw[2]) || !IsContinuation(raw[3]) then None
        else
          var cp := (b0 - 0xF0) * 0x4_0000 + (raw[1] as int - 0x80) * 0x1000 + (raw[2] as int - 0x80) * 0x40 + (raw[3] as int - 0x80);
          if cp < 0x1_0000 || 0x11_0000 <= cp then None else Some((cp as char, 4))
      else None
  }

  /** StrConverter.decode: `bytes.decode('UTF-8')`; None where Python raises UnicodeDecodeError. */
  function DecodeStr(raw: seq<byte>): Option<string>
    decreases |raw|
  {
    if raw == [] then Some([])
    else match DecodeChar(raw)
      case None => None
      case Some((c, k)) =>
        match DecodeStr(raw[k..])
        case None => None
        case Some(rest) => Some([c] + rest)
  }

  /** Decoding the front of an encoded character gives the character back and consumes exactly its bytes. */
  lemma DecodeEncodeChar(c: char, rest: seq<byte>)
    ensures DecodeChar(EncodeChar(c) + rest) == Some((c, |EncodeChar(c)|))
  {
    var cp := c as int;
    if cp < 0x80 {
      assert (EncodeChar(c) + rest)[0] == cp;
    } else if cp < 0x800 {
      DecodeTwoBytes(c, rest);
    } else if cp < 0x1_0000 {
      DecodeThreeBytes(c, rest);
    } else {
      DecodeFourBytes(c, rest);
    }
  }

  lemma DecodeTwoBytes(c: char, rest: seq<byte>)
    requires 0x80 <= c as int < 0x800
    ensures DecodeChar(EncodeChar(c) + rest) == Some((c, 2))
  {
    var cp := c as int;
    var hi, lo := cp / 0x40, cp % 0x40;
    assert hi * 0x40 + lo == cp;
    var raw := EncodeChar(c) + rest;
    assert raw[0] == 0xC0 + hi && raw[1] == 0x80 + lo;
  }

  lemma DecodeThreeBytes(c: char, rest: seq<byte>)
    requires 0x800 <= c as int < 0x1_0000
    ensures DecodeChar(EncodeChar(c) + rest) == Some((c, 3))
  {
    var cp := c as int;
    var hi, mid, lo := cp / 0x1000, cp / 0x40 % 0x40, cp % 0x40;
    assert cp / 0x40 == hi * 0x40 + mid;
    assert hi * 0x1000 + mid * 0x40 + lo == cp;
    var raw := EncodeChar(c) + rest;
    assert raw[0] == 0xE0 + hi && raw[1] == 0x80 + mid && raw[2] == 0x80 + lo;
  }

  lemma DecodeFourBytes(c: char, rest: seq<byte>)
    requires 0x1_0000 <= c as int
    ensures DecodeChar(EncodeChar(c) + rest) == Some((c, 4))
  {
    var cp := c as int;
    var top, hi, mid, lo := cp / 0x4_0000, cp / 0x1000 % 0x40, cp / 0x40 % 0x40, cp % 0x40;
    assert cp / 0x1000 == top * 0x40 + hi;
    assert cp / 0x40 == (cp / 0x1000) * 0x40 + mid;
    assert top * 0x4_0000 + hi * 0x1000 + mid * 0x40 + lo == cp;
    var raw := EncodeChar(c) + rest;
    assert raw[0] == 0xF0 + top && raw[1] == 0x80 + hi && raw[2] == 0x80 + mid && raw[3] == 0x80 + lo;
  }

  /** StrConverter round trip: decode(encode(s)) == s. */
  lemma {:induction false} DecodeEncodeStr(s: string)
    ensures DecodeStr(EncodeStr(s)) == Some(s)
  {
    if s != [] {
      var head := EncodeChar(s[0]);
      var raw := EncodeStr(s);
      assert raw == head + EncodeStr(s[1..]);
      DecodeEncodeChar(s[0], EncodeStr(s[1..]));
      assert raw[|head|..] == EncodeStr(s[1..]);
      DecodeEncodeStr(s[1..]);
      assert [s[0]] + s[1..] == s;
    }
  }

  // ---------------------------------------------------------------------------
  // Name-list payload of LIST_RESPONSE
  // ---------------------------------------------------------------------------

  /** Width of the length prefix of each name inside a name-list payload. */
  const NAME_PREFIX_SIZE: nat := 2

  /** Every name of the list fits its 2-byte length prefix. */
  predicate NamesEncodable(names: seq<string>) {
    forall i :: 0 <= i < |names| ==> |EncodeStr(names[i])| < Pow256(NAME_PREFIX_SIZE)
  }

  /** The name-list payload: each name as a 2-byte length followed by its UTF-8 bytes. */
  function EncodeNames(names: seq<string>): (raw: seq<byte>)
    requires NamesEncodable(names)
  {
    if names == [] then []
    else
      var enc := EncodeStr(names[0]);
      EncodeUInt(|enc|, NAME_PREFIX_SIZE) + enc + EncodeNames(names[1..])
  }

  /** Decodes a whole name-list payload; None for a truncated item or bad UTF-8. */
  function DecodeNames(raw: seq<byte>): Option<seq<string>>
    decreases |raw|
  {
    if raw == [] then Some([])
    else if |raw| < NAME_PREFIX_SIZE then None
    else
      var len := DecodeUInt(raw[..NAME_PREFIX_SIZE]);
      if |raw| < NAME_PREFIX_SIZE + len then None
      else match DecodeStr(raw[NAME_PREFIX_SIZE..NAME_PREFIX_SIZE + len])
        case None => None
        case Some(name) =>
          match DecodeNames(raw[NAME_PREFIX_SIZE + len..])
          case None => None
          case Some(rest) => Some([name] + rest)
  }

  /** The fields of one name item: its length prefix, its bytes and what follows. */
  lemma NameItemFields(prefix: seq<byte>, enc: seq<byte>, tail: seq<byte>)
    requires |prefix| == NAME_PREFIX_SIZE
    ensures var raw := prefix + enc + tail;
            raw[..NAME_PREFIX_SIZE] == prefix
            && raw[NAME_PREFIX_SIZE..NAME_PREFIX_SIZE + |enc|] == enc
            && raw[NAME_PREFIX_SIZE + |enc|..] == tail
  {
    Associative(prefix, enc, tail);
    var raw := prefix + (enc + tail);
    assert raw[..NAME_PREFIX_SIZE] == prefix;
    assert raw[NAME_PREFIX_SIZE..] == enc + tail;
    assert (enc + tail)[..|enc|] == enc;
    assert (enc + tail)[|enc|..] == tail;
  }

  /** The name-list payload round trip. */
  lemma {:induction false} DecodeEncodeNames(names: seq<string>)
    requires NamesEncodable(names)
    ensures DecodeNames(EncodeNames(names)) == Some(names)
  {
    if names != [] {
      var enc := EncodeStr(names[0]);
      var prefix := EncodeUInt(|enc|, NAME_PREFIX_SIZE);
      assert NamesEncodable(names[1..]) by {
        forall i | 0 <= i < |names[1..]| ensures |EncodeStr(names[1..][i])| < Pow256(NAME_PREFIX_SIZE) {
          assert names[1..][i] == names[i + 1];
        }
      }
      var tail := EncodeNames(names[1..]);
      NameItemFields(prefix, enc, tail);
      DecodeEncodeStr(names[0]);
      DecodeEncodeNames(names[1..]);
      assert [names[0]] + names[1..] == names;
    }
  }
}
