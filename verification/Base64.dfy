/** Base64 as Go's encoding/base64 writes and reads it: the standard alphabet (section 4 of RFC 4648)
    or the URL-safe one (section 5), with padding or without (section 3.2). */
module Base64 {
  import opened Options

  type Byte = b: int | 0 <= b < 256
  type Sextet = v: int | 0 <= v < 64

  datatype Encoding = Encoding(urlSafe: bool, padded: bool)

  const STD: Encoding := Encoding(false, true)
  const URL: Encoding := Encoding(true, true)
  const RAW_STD: Encoding := Encoding(false, false)
  const RAW_URL: Encoding := Encoding(true, false)

  function CharOf(e: Encoding, v: Sextet): char {
    if v < 26 then (v + 'A' as int) as char
    else if v < 52 then (v - 26 + 'a' as int) as char
    else if v < 62 then (v - 52 + '0' as int) as char
    else if v == 62 then (if e.urlSafe then '-' else '+')
    else (if e.urlSafe then '_' else '/')
  }

  function ValueOf(e: Encoding, c: char): Option<Sextet> {
    if 'A' <= c <= 'Z' then Some(c as int - 'A' as int)
    else if 'a' <= c <= 'z' then Some(c as int - 'a' as int + 26)
    else if '0' <= c <= '9' then Some(c as int - '0' as int + 52)
    else if c == (if e.urlSafe then '-' else '+') then Some(62)
    else if c == (if e.urlSafe then '_' else '/') then Some(63)
    else None
  }

  // Three bytes are four sextets.

  function Sextet0(x: Byte): Sextet { x / 4 }

  function Sextet1(x: Byte, y: Byte): Sextet { x % 4 * 16 + y / 16 }

  function Sextet2(y: Byte, z: Byte): Sextet { y % 16 * 4 + z / 64 }

  function Sextet3(z: Byte): Sextet { z % 64 }

  function Byte0(a: Sextet, b: Sextet): Byte { a * 4 + b / 16 }

  function Byte1(b: Sextet, c: Sextet): Byte { b % 16 * 16 + c / 4 }

  function Byte2(c: Sextet, d: Sextet): Byte { c % 4 * 64 + d }

  lemma GroupOfThree(x: Byte, y: Byte, z: Byte)
    ensures Byte0(Sextet0(x), Sextet1(x, y)) == x
    ensures Byte1(Sextet1(x, y), Sextet2(y, z)) == y
    ensures Byte2(Sextet2(y, z), Sextet3(z)) == z
  {
  }

  function Encode(e: Encoding, b: seq<Byte>): string {
    if |b| == 0 then ""
    else if |b| == 1 then
      [CharOf(e, Sextet0(b[0])), CharOf(e, Sextet1(b[0], 0))] + (if e.padded then "==" else "")
    else if |b| == 2 then
      [CharOf(e, Sextet0(b[0])), CharOf(e, Sextet1(b[0], b[1])), CharOf(e, Sextet2(b[1], 0))]
      + (if e.padded then "=" else "")
    else
      [CharOf(e, Sextet0(b[0])), CharOf(e, Sextet1(b[0], b[1])),
       CharOf(e, Sextet2(b[1], b[2])), CharOf(e, Sextet3(b[2]))]
      + Encode(e, b[3..])
  }

  /** Line breaks are skipped wherever they stand. */
  function SkipLineBreaks(text: string): string {
    if text == "" then ""
    else (if text[0] == '\n' || text[0] == '\r' then "" else [text[0]]) + SkipLineBreaks(text[1..])
  }

  function Decode(e: Encoding, text: string): Option<seq<Byte>> {
    DecodeQuanta(e, SkipLineBreaks(text))
  }

  /** Four characters at a time; the bits left over in the last ones are ignored. */
  function DecodeQuanta(e: Encoding, text: string): Option<seq<Byte>> {
    if text == "" then Some([])
    else if |text| >= 4 && AllValid(e, text[..4]) then
      match DecodeQuanta(e, text[4..])
      case None => None
      case Some(rest) =>
        var v := Values(e, text[..4]);
        Some([Byte0(v[0], v[1]), Byte1(v[1], v[2]), Byte2(v[2], v[3])] + rest)
    else DecodeLast(e, text)
  }

  /** A last group of two or three characters: filled up to four, or not, as the encoding has it. */
  function DecodeLast(e: Encoding, text: string): Option<seq<Byte>> {
    if e.padded then
      if |text| != 4 || text[3] != '=' then None
      else DecodeShort(e, if text[2] == '=' then text[..2] else text[..3])
    else DecodeShort(e, text)
  }

  function DecodeShort(e: Encoding, text: string): Option<seq<Byte>> {
    if !AllValid(e, text) then None
    else
      var v := Values(e, text);
      if |v| == 2 then Some([Byte0(v[0], v[1])])
      else if |v| == 3 then Some([Byte0(v[0], v[1]), Byte1(v[1], v[2])])
      else None
  }

  predicate AllValid(e: Encoding, text: string) {
    forall i | 0 <= i < |text| :: ValueOf(e, text[i]).Some?
  }

  function Values(e: Encoding, text: string): (v: seq<Sextet>)
    requires AllValid(e, text)
    ensures |v| == |text| && forall i | 0 <= i < |v| :: Some(v[i]) == ValueOf(e, text[i])
  {
    if text == "" then [] else [ValueOf(e, text[0]).value] + Values(e, text[1..])
  }

  // ---- Reading what another encoding wrote ----

  /** A character of one alphabet either stands for the same value in the other, or for none. */
  lemma CharsAgree(e: Encoding, f: Encoding, v: Sextet)
    ensures ValueOf(f, CharOf(e, v)).Some? ==> ValueOf(f, CharOf(e, v)) == Some(v)
    ensures e.urlSafe == f.urlSafe ==> ValueOf(f, CharOf(e, v)) == Some(v)
    ensures CharOf(e, v) != '=' && CharOf(e, v) != '\n' && CharOf(e, v) != '\r'
  {
  }

  predicate IsEncodingChar(c: char) {
    c != '\n' && c != '\r'
  }

  lemma {:induction false} EncodedChars(e: Encoding, b: seq<Byte>)
    ensures forall i | 0 <= i < |Encode(e, b)| :: IsEncodingChar(Encode(e, b)[i])
  {
    if |b| >= 3 {
      EncodedChars(e, b[3..]);
    }
  }

  lemma {:induction false} NothingToSkip(text: string)
    requires forall i | 0 <= i < |text| :: IsEncodingChar(text[i])
    ensures SkipLineBreaks(text) == text
  {
    if text != "" {
      NothingToSkip(text[1..]);
    }
  }

  /** What a decoder makes of the text another encoder wrote is the bytes that were written, or
      nothing; its own encoder's text it always reads. */
  lemma {:induction false} QuantaAgree(e: Encoding, f: Encoding, b: seq<Byte>)
    ensures var r := DecodeQuanta(f, Encode(e, b)); r.Some? ==> r.value == b
    ensures e == f ==> DecodeQuanta(f, Encode(e, b)) == Some(b)
  {
    hide Encode, DecodeQuanta;
    if |b| >= 3 {
      QuantaAgree(e, f, b[3..]);
      FullGroup(e, f, b);
    } else if |b| == 2 {
      GroupOfTwo(e, f, b);
    } else if |b| == 1 {
      GroupOfOne(e, f, b);
    } else {
      EmptyText(e, f);
    }
  }

  lemma EmptyText(e: Encoding, f: Encoding)
    ensures DecodeQuanta(f, Encode(e, [])) == Some([])
  {
  }

  lemma GroupOfOne(e: Encoding, f: Encoding, b: seq<Byte>)
    requires |b| == 1
    ensures var r := DecodeQuanta(f, Encode(e, b)); r.Some? ==> r.value == b
    ensures e == f ==> DecodeQuanta(f, Encode(e, b)) == Some(b)
  {
    hide CharOf, ValueOf, Sextet0, Sextet1, Sextet2, Sextet3, Byte0, Byte1, Byte2;
    GroupOfThree(b[0], 0, 0);
    CharsAgree(e, f, Sextet0(b[0]));
    CharsAgree(e, f, Sextet1(b[0], 0));
    PaddingIsNoValue(f);
    var text := Encode(e, b);
    if e.padded {
      assert text[..4][2] == '=' && text[3] == '=';
    }
    assert text[..2] == [text[0], text[1]];
  }

  lemma GroupOfTwo(e: Encoding, f: Encoding, b: seq<Byte>)
    requires |b| == 2
    ensures var r := DecodeQuanta(f, Encode(e, b)); r.Some? ==> r.value == b
    ensures e == f ==> DecodeQuanta(f, Encode(e, b)) == Some(b)
  {
    hide CharOf, ValueOf, Sextet0, Sextet1, Sextet2, Sextet3, Byte0, Byte1, Byte2;
    GroupOfThree(b[0], b[1], 0);
    CharsAgree(e, f, Sextet0(b[0]));
    CharsAgree(e, f, Sextet1(b[0], b[1]));
    CharsAgree(e, f, Sextet2(b[1], 0));
    PaddingIsNoValue(f);
    var text := Encode(e, b);
    if e.padded {
      assert text[..4][3] == '=';
    }
    assert text[..3] == [text[0], text[1], text[2]];
  }

  lemma PaddingIsNoValue(f: Encoding)
    ensures ValueOf(f, '=').None?
  {
  }

  lemma FullGroup(e: Encoding, f: Encoding, b: seq<Byte>)
    requires |b| >= 3
    ensures var (r, rest) := (DecodeQuanta(f, Encode(e, b)), DecodeQuanta(f, Encode(e, b[3..])));
            && (r.Some? ==> rest.Some? && r.value == b[..3] + rest.value)
            && (e == f && rest.Some? ==> r.Some?)
  {
    TextOfGroup(e, b);
    hide Encode, CharOf, ValueOf, Sextet0, Sextet1, Sextet2, Sextet3;
    CharsAgree(e, f, Sextet0(b[0]));
    CharsAgree(e, f, Sextet1(b[0], b[1]));
    CharsAgree(e, f, Sextet2(b[1], b[2]));
    CharsAgree(e, f, Sextet3(b[2]));
    var text := Encode(e, b);
    if AllValid(f, text[..4]) {
      assert Values(f, text[..4]) == SextetsOf(b);
      hide DecodeQuanta, AllValid;
      GroupDecoded(f, text, b);
    } else {
      assert DecodeLast(f, text).None?;
    }
  }

  function SextetsOf(b: seq<Byte>): seq<Sextet>
    requires |b| >= 3
  {
    [Sextet0(b[0]), Sextet1(b[0], b[1]), Sextet2(b[1], b[2]), Sextet3(b[2])]
  }

  lemma GroupDecoded(f: Encoding, text: string, b: seq<Byte>)
    requires |text| >= 4 && AllValid(f, text[..4]) && |b| >= 3 && Values(f, text[..4]) == SextetsOf(b)
    ensures DecodeQuanta(f, text).Some? <==> DecodeQuanta(f, text[4..]).Some?
    ensures DecodeQuanta(f, text).Some? ==>
              DecodeQuanta(f, text).value == b[..3] + DecodeQuanta(f, text[4..]).value
  {
    hide ValueOf, Sextet0, Sextet1, Sextet2, Sextet3, Byte0, Byte1, Byte2;
    GroupOfThree(b[0], b[1], b[2]);
  }

  lemma TextOfGroup(e: Encoding, b: seq<Byte>)
    requires |b| >= 3
    ensures var text := Encode(e, b);
            && |text| >= 4 && text[4..] == Encode(e, b[3..]) && text[3] != '='
            && text[..4] == [CharOf(e, Sextet0(b[0])), CharOf(e, Sextet1(b[0], b[1])),
                             CharOf(e, Sextet2(b[1], b[2])), CharOf(e, Sextet3(b[2]))]
  {
    CharsAgree(e, e, Sextet3(b[2]));
  }

  /** Decoding undoes encoding, and another decoder that accepts the text reads the same bytes. */
  lemma DecodeEncode(e: Encoding, f: Encoding, b: seq<Byte>)
    ensures Decode(e, Encode(e, b)) == Some(b)
    ensures Decode(f, Encode(e, b)).Some? ==> Decode(f, Encode(e, b)) == Some(b)
  {
    EncodedChars(e, b);
    NothingToSkip(Encode(e, b));
    QuantaAgree(e, e, b);
    QuantaAgree(e, f, b);
  }

  // ---- Reading any text ----

  lemma CharMeansOne(e: Encoding, f: Encoding, c: char)
    ensures ValueOf(e, c).Some? && ValueOf(f, c).Some? ==> ValueOf(e, c) == ValueOf(f, c)
  {
  }

  lemma ValuesAreOne(e: Encoding, f: Encoding, text: string)
    requires AllValid(e, text) && AllValid(f, text)
    ensures Values(e, text) == Values(f, text)
  {
    hide ValueOf, Values;
    forall i | 0 <= i < |text|
      ensures Values(e, text)[i] == Values(f, text)[i]
    {
      CharMeansOne(e, f, text[i]);
    }
  }

  lemma ShortMeansOne(e: Encoding, f: Encoding, text: string)
    requires DecodeShort(e, text).Some? && DecodeShort(f, text).Some?
    ensures DecodeShort(e, text) == DecodeShort(f, text)
  {
    hide Values, ValueOf;
    ValuesAreOne(e, f, text);
  }

  /** A group of four that one decoder reads in full another reads in full, or not at all. */
  lemma LastMeansOne(e: Encoding, f: Encoding, text: string)
    requires text != "" && DecodeLast(e, text).Some?
    ensures |text| >= 4 && AllValid(f, text[..4]) ==> DecodeQuanta(e, text).None? || AllValid(e, text[..4])
    ensures DecodeLast(f, text).Some? ==> DecodeLast(e, text) == DecodeLast(f, text)
  {
    hide Values, ValueOf, Byte0, Byte1, Byte2;
    PaddingIsNoValue(e);
    PaddingIsNoValue(f);
    if |text| >= 4 {
      assert text[..4][3] == text[3];
    }
    if DecodeLast(f, text).Some? && e.padded == f.padded {
      ShortMeansOne(e, f, if !e.padded then text else if text[2] == '=' then text[..2] else text[..3]);
    }
  }

  lemma {:induction false} QuantaMeanOne(e: Encoding, f: Encoding, text: string)
    requires DecodeQuanta(e, text).Some? && DecodeQuanta(f, text).Some?
    ensures DecodeQuanta(e, text) == DecodeQuanta(f, text)
  {
    hide Values, ValueOf, DecodeLast, AllValid, Byte0, Byte1, Byte2;
    if text != "" {
      var (full, full') := (|text| >= 4 && AllValid(e, text[..4]), |text| >= 4 && AllValid(f, text[..4]));
      if full && full' {
        QuantaMeanOne(e, f, text[4..]);
        ValuesAreOne(e, f, text[..4]);
      } else if full {
        LastMeansOne(f, e, text);
      } else {
        LastMeansOne(e, f, text);
      }
    }
  }

  /** Any two decoders that accept the same text read the same bytes. */
  lemma DecodersAgree(e: Encoding, f: Encoding, text: string)
    ensures Decode(e, text).Some? && Decode(f, text).Some? ==> Decode(e, text) == Decode(f, text)
  {
    if Decode(e, text).Some? && Decode(f, text).Some? {
      QuantaMeanOne(e, f, SkipLineBreaks(text));
    }
  }

  lemma {:induction false} SkipsAtTheEnd(text: string)
    ensures SkipLineBreaks(text + "\n") == SkipLineBreaks(text)
  {
    if text != "" {
      SkipsAtTheEnd(text[1..]);
      assert (text + "\n")[1..] == text[1..] + "\n";
    }
  }

  /** A text with a line break after it is read as the text, though no encoder writes it. */
  lemma LineBreakIsAccepted(e: Encoding, b: seq<Byte>)
    ensures Decode(e, Encode(e, b) + "\n") == Some(b)
    ensures forall f, c :: Encode(f, c) != Encode(e, b) + "\n"
  {
    var text := Encode(e, b) + "\n";
    SkipsAtTheEnd(Encode(e, b));
    DecodeEncode(e, e, b);
    forall f, c: seq<Byte>
      ensures Encode(f, c) != text
    {
      EncodedChars(f, c);
      assert !IsEncodingChar(text[|text| - 1]);
    }
  }

  // ---- Which texts an encoder wrote ----

  predicate NoLineBreaks(text: string) {
    forall i | 0 <= i < |text| :: IsEncodingChar(text[i])
  }

  /** A last group without the characters that fill it up. */
  function Unfilled(e: Encoding, text: string): string {
    if e.padded && |text| == 4 then (if text[2] == '=' then text[..2] else text[..3]) else text
  }

  /** The bits of the last group that stand for no byte are zero. */
  predicate NoSpareBits(e: Encoding, text: string) {
    if |text| >= 4 && AllValid(e, text[..4]) then NoSpareBits(e, text[4..])
    else
      var last := Unfilled(e, text);
      AllValid(e, last) ==>
        var v := Values(e, last);
        (|v| == 2 ==> v[1] % 16 == 0) && (|v| == 3 ==> v[2] % 4 == 0)
  }

  lemma CharOfValue(e: Encoding, c: char)
    requires ValueOf(e, c).Some?
    ensures CharOf(e, ValueOf(e, c).value) == c
  {
  }

  /** Characters are equal if and only if their values are. */
  lemma CharsTellValuesApart(e: Encoding, v: Sextet, w: Sextet)
    ensures CharOf(e, v) == CharOf(e, w) <==> v == w
  {
    CharsAgree(e, e, v);
    CharsAgree(e, e, w);
  }

  lemma GroupOfFour(a: Sextet, b: Sextet, c: Sextet, d: Sextet)
    ensures Sextet0(Byte0(a, b)) == a
    ensures Sextet1(Byte0(a, b), Byte1(b, c)) == b
    ensures Sextet2(Byte1(b, c), Byte2(c, d)) == c
    ensures Sextet3(Byte2(c, d)) == d
    ensures Sextet1(Byte0(a, b), 0) == b <==> b % 16 == 0
    ensures Sextet2(Byte1(b, c), 0) == c <==> c % 4 == 0
  {
  }

  lemma FullGroupWritten(e: Encoding, text: string, rest: seq<Byte>)
    requires |text| >= 4 && AllValid(e, text[..4]) && DecodeQuanta(e, text[4..]) == Some(rest)
    ensures DecodeQuanta(e, text).Some?
    ensures text == Encode(e, DecodeQuanta(e, text).value) <==> text[4..] == Encode(e, rest)
  {
    hide CharOf, ValueOf, Sextet0, Sextet1, Sextet2, Sextet3, Byte0, Byte1, Byte2;
    var (group, v) := (text[..4], Values(e, text[..4]));
    GroupOfFour(v[0], v[1], v[2], v[3]);
    forall i | 0 <= i < 4
      ensures CharOf(e, v[i]) == text[i]
    {
      CharOfValue(e, group[i]);
    }
    var b := DecodeQuanta(e, text).value;
    assert b[3..] == rest;
    assert Encode(e, b) == [text[0], text[1], text[2], text[3]] + Encode(e, rest);
    assert text == [text[0], text[1], text[2], text[3]] + text[4..];
  }

  lemma PairWritten(e: Encoding, text: string)
    requires |text| == 2 && AllValid(e, text)
    ensures DecodeShort(e, text).Some?
    ensures Encode(e, DecodeShort(e, text).value) == text + (if e.padded then "==" else "")
            <==> Values(e, text)[1] % 16 == 0
  {
    hide CharOf, ValueOf, Sextet0, Sextet1, Byte0;
    var v := Values(e, text);
    GroupOfFour(v[0], v[1], 0, 0);
    CharOfValue(e, text[0]);
    CharOfValue(e, text[1]);
    CharsTellValuesApart(e, Sextet1(Byte0(v[0], v[1]), 0), v[1]);
    assert (text + (if e.padded then "==" else ""))[1] == text[1];
  }

  lemma TripleWritten(e: Encoding, text: string)
    requires |text| == 3 && AllValid(e, text)
    ensures DecodeShort(e, text).Some?
    ensures Encode(e, DecodeShort(e, text).value) == text + (if e.padded then "=" else "")
            <==> Values(e, text)[2] % 4 == 0
  {
    hide CharOf, ValueOf, Sextet0, Sextet1, Sextet2, Byte0, Byte1;
    var v := Values(e, text);
    GroupOfFour(v[0], v[1], v[2], 0);
    CharOfValue(e, text[0]);
    CharOfValue(e, text[1]);
    CharOfValue(e, text[2]);
    CharsTellValuesApart(e, Sextet2(Byte1(v[1], v[2]), 0), v[2]);
    assert (text + (if e.padded then "=" else ""))[2] == text[2];
  }

  lemma LastGroupWritten(e: Encoding, text: string)
    requires text != "" && !(|text| >= 4 && AllValid(e, text[..4])) && DecodeQuanta(e, text).Some?
    ensures text == Encode(e, DecodeQuanta(e, text).value) <==> NoSpareBits(e, text)
  {
    var last := Unfilled(e, text);
    ShortLastGroup(e, text);
    hide Encode, Values, ValueOf;
    if |last| == 2 {
      PairWritten(e, last);
    } else {
      TripleWritten(e, last);
    }
  }

  lemma ShortLastGroup(e: Encoding, text: string)
    requires DecodeLast(e, text).Some?
    ensures var last := Unfilled(e, text);
            && DecodeLast(e, text) == DecodeShort(e, last) && AllValid(e, last)
            && text == last + (if !e.padded then "" else if |last| == 2 then "==" else "=")
  {
    hide ValueOf;
  }

  lemma {:induction false} QuantaWritten(e: Encoding, text: string)
    requires DecodeQuanta(e, text).Some?
    ensures text == Encode(e, DecodeQuanta(e, text).value) <==> NoSpareBits(e, text)
  {
    if text == "" {
    } else if |text| >= 4 && AllValid(e, text[..4]) {
      hide Encode, Values, ValueOf;
      QuantaWritten(e, text[4..]);
      FullGroupWritten(e, text, DecodeQuanta(e, text[4..]).value);
    } else {
      LastGroupWritten(e, text);
    }
  }

  /** A text that a decoder accepts is what its encoder writes of the bytes read if and only if it has
      no line break and no bits left over. */
  lemma AcceptedIsWritten(e: Encoding, text: string)
    requires Decode(e, text).Some?
    ensures text == Encode(e, Decode(e, text).value) <==> NoLineBreaks(text) && NoSpareBits(e, text)
  {
    EncodedChars(e, Decode(e, text).value);
    if NoLineBreaks(text) {
      NothingToSkip(text);
      QuantaWritten(e, text);
    }
  }

  lemma {:induction false} SpareBitsAgree(e: Encoding, f: Encoding, text: string)
    requires DecodeQuanta(e, text).Some? && DecodeQuanta(f, text).Some?
    ensures NoSpareBits(e, text) <==> NoSpareBits(f, text)
  {
    hide Values, ValueOf, Byte0, Byte1, Byte2;
    if text != "" {
      var (full, full') := (|text| >= 4 && AllValid(e, text[..4]), |text| >= 4 && AllValid(f, text[..4]));
      if full && full' {
        SpareBitsAgree(e, f, text[4..]);
      } else if full {
        LastMeansOne(f, e, text);
      } else {
        LastMeansOne(e, f, text);
        ShortLastGroup(e, text);
        ShortLastGroup(f, text);
        LastGroupIsOne(e, f, text);
      }
    }
  }

  lemma LastGroupIsOne(e: Encoding, f: Encoding, text: string)
    requires text != "" && DecodeLast(e, text).Some? && DecodeLast(f, text).Some?
    ensures Unfilled(e, text) == Unfilled(f, text)
    ensures AllValid(e, Unfilled(e, text)) && AllValid(f, Unfilled(e, text))
    ensures Values(e, Unfilled(e, text)) == Values(f, Unfilled(e, text))
  {
    hide Values, ValueOf;
    PaddingIsNoValue(e);
    PaddingIsNoValue(f);
    ShortLastGroup(e, text);
    ShortLastGroup(f, text);
    ValuesAreOne(e, f, Unfilled(e, text));
  }

  /** So a text that a decoder accepts was written by some encoder if and only if it was by its own. */
  lemma AnyEncoderWroteIt(e: Encoding, text: string)
    requires Decode(e, text).Some?
    ensures (exists f, b :: text == Encode(f, b)) <==> NoLineBreaks(text) && NoSpareBits(e, text)
  {
    hide Encode, NoSpareBits;
    AcceptedIsWritten(e, text);
    if f, b :| text == Encode(f, b) {
      EncodedChars(f, b);
      NothingToSkip(text);
      DecodeEncode(f, f, b);
      AcceptedIsWritten(f, text);
      SpareBitsAgree(e, f, text);
    }
  }

  /** Two texts of one byte: the bits left over in the last character are ignored. */
  lemma SpareBitsAreAccepted()
    ensures Decode(RAW_STD, "QQ") == Decode(RAW_STD, "QR") == Some([65])
    ensures forall f, c :: Encode(f, c) != "QR"
  {
  }

  // ---- In characters and numbers ----

  /** The capital letters, the small letters, the figures and two signs. */
  predicate InAlphabet(e: Encoding, c: char) {
    'A' <= c <= 'Z' || 'a' <= c <= 'z' || '0' <= c <= '9' || c in (if e.urlSafe then "-_" else "+/")
  }

  /** The characters stand for 0 to 63 in this order, each for one more than the one before. */
  lemma AlphabetInOrder(e: Encoding, v: Sextet)
    ensures InAlphabet(e, CharOf(e, v))
    ensures CharOf(e, 0) == 'A' && CharOf(e, 25) == 'Z' && CharOf(e, 26) == 'a' && CharOf(e, 51) == 'z'
    ensures CharOf(e, 52) == '0' && CharOf(e, 61) == '9'
    ensures [CharOf(e, 62), CharOf(e, 63)] == if e.urlSafe then "-_" else "+/"
    ensures v < 61 && v != 25 && v != 51 ==> CharOf(e, v + 1) as int == CharOf(e, v) as int + 1
  {
  }

  lemma ValueIsInAlphabet(e: Encoding, c: char)
    ensures ValueOf(e, c).Some? <==> InAlphabet(e, c)
    ensures ValueOf(e, c).Some? ==> CharOf(e, ValueOf(e, c).value) == c
  {
  }

  /** The two alphabets and the three endings, by the bytes of section 10 of RFC 4648 and two more. */
  lemma TestVectors()
    ensures Encode(STD, []) == ""
    ensures Encode(STD, [102]) == "Zg==" && Encode(RAW_STD, [102]) == "Zg"
    ensures Encode(STD, [102, 111]) == "Zm8=" && Encode(RAW_STD, [102, 111]) == "Zm8"
    ensures Encode(STD, [102, 111, 111]) == "Zm9v"
    ensures Encode(STD, [251, 255]) == "+/8=" && Encode(URL, [251, 255]) == "-_8="
    ensures Encode(RAW_URL, [251, 255]) == "-_8"
  {
  }

  function Bits24(x: int, y: int, z: int): int { x * 65536 + y * 256 + z }

  function FourDigits(a: int, b: int, c: int, d: int): int { a * 262144 + b * 4096 + c * 64 + d }

  lemma SextetsOfNumber(x: Byte, y: Byte, z: Byte)
    ensures FourDigits(Sextet0(x), Sextet1(x, y), Sextet2(y, z), Sextet3(z)) == Bits24(x, y, z)
  {
  }

  /** Three bytes are one number of 24 bits, written as its four digits to the base 64. Fewer bytes at the
      end are filled up with zero bytes, and the characters that hold none of their bits are left out. */
  lemma WritesTheNumber(e: Encoding, b: seq<Byte>) returns (v: seq<Sextet>, digits: string)
    requires b != []
    ensures |v| == |digits| == 4 && forall i | 0 <= i < 4 :: digits[i] == CharOf(e, v[i])
    ensures FourDigits(v[0], v[1], v[2], v[3])
         == Bits24(b[0], if |b| > 1 then b[1] else 0, if |b| > 2 then b[2] else 0)
    ensures Encode(e, b) == if |b| >= 3 then digits + Encode(e, b[3..])
                            else digits[..|b| + 1] + (if e.padded then ["==", "="][|b| - 1] else "")
  {
    var (x, y, z) := (b[0], if |b| > 1 then b[1] else 0, if |b| > 2 then b[2] else 0);
    hide Encode, CharOf, Sextet0, Sextet1, Sextet2, Sextet3, FourDigits, Bits24;
    SextetsOfNumber(x, y, z);
    v := [Sextet0(x), Sextet1(x, y), Sextet2(y, z), Sextet3(z)];
    digits := [CharOf(e, v[0]), CharOf(e, v[1]), CharOf(e, v[2]), CharOf(e, v[3])];
    WritesDigits(e, b, x, y, z, digits);
  }

  lemma WritesDigits(e: Encoding, b: seq<Byte>, x: Byte, y: Byte, z: Byte, digits: string)
    requires b != [] && x == b[0] && y == (if |b| > 1 then b[1] else 0) && z == (if |b| > 2 then b[2] else 0)
    requires digits == [CharOf(e, Sextet0(x)), CharOf(e, Sextet1(x, y)),
                        CharOf(e, Sextet2(y, z)), CharOf(e, Sextet3(z))]
    ensures Encode(e, b) == if |b| >= 3 then digits + Encode(e, b[3..])
                            else digits[..|b| + 1] + (if e.padded then ["==", "="][|b| - 1] else "")
  {
    hide CharOf, Sextet0, Sextet1, Sextet2, Sextet3;
    if |b| == 1 {
      assert digits[..2] == [digits[0], digits[1]];
    } else if |b| == 2 {
      assert digits[..3] == [digits[0], digits[1], digits[2]];
    }
  }

  /** The two line break characters are left out, and nothing else. */
  lemma SkipsLineBreaksOnly(a: string, b: string, c: char)
    ensures SkipLineBreaks(a + b) == SkipLineBreaks(a) + SkipLineBreaks(b)
    ensures SkipLineBreaks([c]) == if c == '\n' || c == '\r' then "" else [c]
  {
    SkipsInParts(a, b);
  }

  lemma {:induction false} SkipsInParts(a: string, b: string)
    ensures SkipLineBreaks(a + b) == SkipLineBreaks(a) + SkipLineBreaks(b)
  {
    hide SkipLineBreaks;
    SkipsFirst(a);
    if a == "" {
      assert a + b == b;
    } else {
      SkipsFirst(a + b);
      SkipsInParts(a[1..], b);
      assert (a + b)[1..] == a[1..] + b;
    }
  }

  lemma SkipsFirst(text: string)
    ensures text == "" ==> SkipLineBreaks(text) == ""
    ensures text != "" ==> SkipLineBreaks(text) == (if IsEncodingChar(text[0]) then [text[0]] else "")
                                                   + SkipLineBreaks(text[1..])
  {
  }

  /** The texts a decoder accepts, line breaks aside: characters of its alphabet, filled up to a multiple of
      four with one or two padding characters, or, without padding, not one more than a multiple of four. */
  predicate IsWellFormed(e: Encoding, text: string) {
    if e.padded then
      |text| % 4 == 0 && exists k | 0 <= k <= 2 && k <= |text| :: IsFilled(e, text, k)
    else
      |text| % 4 != 1 && forall i | 0 <= i < |text| :: InAlphabet(e, text[i])
  }

  predicate IsFilled(e: Encoding, text: string, k: nat)
    requires k <= |text|
  {
    && (forall i | 0 <= i < |text| - k :: InAlphabet(e, text[i]))
    && forall i | |text| - k <= i < |text| :: text[i] == '='
  }

  lemma ValidByAlphabet(e: Encoding, text: string)
    ensures AllValid(e, text) <==> forall i | 0 <= i < |text| :: InAlphabet(e, text[i])
    ensures !InAlphabet(e, '=')
  {
    hide ValueOf, InAlphabet;
    forall i | 0 <= i < |text|
      ensures ValueOf(e, text[i]).Some? <==> InAlphabet(e, text[i])
    {
      ValueIsInAlphabet(e, text[i]);
    }
    ValueIsInAlphabet(e, '=');
    PaddingIsNoValue(e);
  }

  lemma {:induction false} QuantaAccepted(e: Encoding, text: string)
    ensures DecodeQuanta(e, text).Some? <==> IsWellFormed(e, text)
  {
    hide InAlphabet, ValueOf, Values, Byte0, Byte1, Byte2;
    if text == "" {
      assert IsFilled(e, text, 0);
    } else if |text| >= 4 && AllValid(e, text[..4]) {
      QuantaAccepted(e, text[4..]);
      ValidByAlphabet(e, text[..4]);
      hide AllValid, DecodeLast;
      FullGroupAccepted(e, text);
    } else {
      LastAccepted(e, text);
    }
  }

  lemma FullGroupAccepted(e: Encoding, text: string)
    requires |text| >= 4 && (forall i | 0 <= i < 4 :: InAlphabet(e, text[..4][i])) && !InAlphabet(e, '=')
    ensures IsWellFormed(e, text) <==> IsWellFormed(e, text[4..])
  {
    hide InAlphabet;
    var rest := text[4..];
    forall i | 0 <= i < 4
      ensures InAlphabet(e, text[i]) && text[i] != '='
    {
      assert text[i] == text[..4][i];
    }
    if e.padded && IsWellFormed(e, text) {
      var k :| 0 <= k <= 2 && IsFilled(e, text, k);
      assert k > 0 ==> text[|text| - 1] == '=';
      assert k <= |rest| && IsFilled(e, rest, k);
    }
    if e.padded && IsWellFormed(e, rest) {
      var k :| 0 <= k <= 2 && k <= |rest| && IsFilled(e, rest, k);
      forall i | 4 <= i < |text|
        ensures text[i] == rest[i - 4]
      {
      }
      assert IsFilled(e, text, k);
    }
    if !e.padded && IsWellFormed(e, rest) {
      forall i | 4 <= i < |text|
        ensures InAlphabet(e, text[i])
      {
        assert text[i] == rest[i - 4];
      }
    }
  }

  lemma LastAccepted(e: Encoding, text: string)
    requires text != "" && !(|text| >= 4 && AllValid(e, text[..4]))
    ensures DecodeQuanta(e, text).Some? <==> IsWellFormed(e, text)
  {
    hide InAlphabet, ValueOf, Values, Byte0, Byte1, Byte2;
    ValidByAlphabet(e, text);
    if |text| >= 4 {
      ValidByAlphabet(e, text[..4]);
      ValidByAlphabet(e, text[..2]);
      ValidByAlphabet(e, text[..3]);
    }
    if e.padded && |text| == 4 {
      assert IsFilled(e, text, 1) <==> AllValid(e, text[..3]) && text[3] == '=';
      assert IsFilled(e, text, 2) <==> AllValid(e, text[..2]) && text[2] == text[3] == '=';
      assert !IsFilled(e, text, 0);
    }
  }

  /** A text is accepted if and only if it is well formed but for its line breaks. */
  lemma Accepted(e: Encoding, text: string)
    ensures Decode(e, text).Some? <==> IsWellFormed(e, SkipLineBreaks(text))
  {
    QuantaAccepted(e, SkipLineBreaks(text));
  }

  /** The other way round: four characters are the digits of the number that three bytes are; of two or
      three at the end the bits that do not make a byte are dropped. */
  lemma ReadsTheNumber(e: Encoding, text: string)
    requires DecodeQuanta(e, text).Some? && text != ""
    ensures var b := DecodeQuanta(e, text).value;
            var digit := (i: nat) => if i < |text| && ValueOf(e, text[i]).Some? then ValueOf(e, text[i]).value else 0;
            var n := FourDigits(digit(0), digit(1), digit(2), digit(3));
            var length := if |text| >= 4 && text[3] != '=' then 3 else if |text| >= 3 && text[2] != '=' then 2 else 1;
            && |b| >= length
            && (var m := Bits24(b[0], if length > 1 then b[1] else 0, if length > 2 then b[2] else 0);
                m <= n < m + [65536, 256, 1][length - 1])
            && (if length == 3 then DecodeQuanta(e, text[4..]) == Some(b[3..]) else |b| == length)
  {
    hide ValueOf, Byte0, Byte1, Byte2, Values;
    PaddingIsNoValue(e);
    var digit := (i: nat) => if i < |text| && ValueOf(e, text[i]).Some? then ValueOf(e, text[i]).value else 0;
    BytesOfNumber(digit(0), digit(1), digit(2), digit(3));
    if |text| >= 4 && AllValid(e, text[..4]) {
      assert text[..4][3] == text[3];
    } else {
      ShortLastGroup(e, text);
    }
  }

  lemma BytesOfNumber(a: Sextet, b: Sextet, c: Sextet, d: Sextet)
    ensures FourDigits(a, b, c, d) == Bits24(Byte0(a, b), Byte1(b, c), Byte2(c, d))
  {
  }
}
