/** OTLP/JSON ids are hex text, but arrive decoded as base64 (RFC 4648, section 4). Encoding them back
    recovers the text, and the text names the bytes (RFC 4648, section 8). */
module HexIds {
  import opened Basics

  type byte = x: int | 0 <= x < 256
  type sextet = x: int | 0 <= x < 64

  datatype ExportError = NotHex(text: string) | OddLength | Corrupt

  // ---- base64 characters ----

  function CharOf(v: sextet): char
  {
    if v < 26 then 'A' + v as char
    else if v < 52 then 'a' + (v - 26) as char
    else if v < 62 then '0' + (v - 52) as char
    else if v == 62 then '+'
    else '/'
  }

  predicate InAlphabet(c: char)
  {
    'A' <= c <= 'Z' || 'a' <= c <= 'z' || '0' <= c <= '9' || c == '+' || c == '/'
  }

  function ValueOf(c: char): sextet
    requires InAlphabet(c)
  {
    if 'A' <= c <= 'Z' then (c as int) - ('A' as int)
    else if 'a' <= c <= 'z' then (c as int) - ('a' as int) + 26
    else if '0' <= c <= '9' then (c as int) - ('0' as int) + 52
    else if c == '+' then 62
    else 63
  }

  lemma {:induction false} CharsRoundTrip(v: sextet, c: char)
    ensures InAlphabet(CharOf(v)) && ValueOf(CharOf(v)) == v
    ensures InAlphabet(c) ==> CharOf(ValueOf(c)) == c
  {
  }

  const UpperCase := "ABCDEFGHIJKLMNOPQRSTUVWXYZ"
  const LowerLetters := "abcdefghijklmnopqrstuvwxyz"
  const DigitsAndSigns := "0123456789+/"
  const Base64Table := UpperCase + LowerLetters + DigitsAndSigns

  /** The characters stand for their places in table 1 of RFC 4648. */
  lemma {:induction false} CharsAsInTable(v: sextet)
    ensures |Base64Table| == 64 && CharOf(v) == Base64Table[v] && ValueOf(Base64Table[v]) == v
  {
    CharsRoundTrip(v, 'A');
    if v < 26 {
      UpperAt(v);
    } else if v < 52 {
      LowerAt(v - 26);
    } else {
      SignAt(v - 52);
    }
    hide CharOf, ValueOf;
  }

  lemma {:induction false} UpperAt(k: nat)
    requires k < 26
    ensures |UpperCase| == 26 && CharOf(k) == UpperCase[k]
  {
  }

  lemma {:induction false} LowerAt(k: nat)
    requires k < 26
    ensures |LowerLetters| == 26 && CharOf(k + 26) == LowerLetters[k]
  {
  }

  lemma {:induction false} SignAt(k: nat)
    requires k < 12
    ensures |DigitsAndSigns| == 12 && CharOf(k + 52) == DigitsAndSigns[k]
  {
  }

  // ---- groups of four characters and three bytes ----

  function EncodeGroup(a: byte, b: byte, c: byte): string
  {
    [CharOf(a / 4), CharOf(a % 4 * 16 + b / 16), CharOf(b % 16 * 4 + c / 64), CharOf(c % 64)]
  }

  function DecodeGroup(s: sextet, t: sextet, u: sextet, v: sextet): seq<byte>
  {
    [s * 4 + t / 16, t % 16 * 16 + u / 4, u % 4 * 64 + v]
  }

  /** A group's characters are the base-64 digits of the number its bytes make, most significant first. */
  lemma {:induction false} GroupDigits(a: byte, b: byte, c: byte)
    ensures var n := a * 65536 + b * 256 + c;
            && |Base64Table| == 64 && 0 <= n < 16777216
            && EncodeGroup(a, b, c)
               == [Base64Table[n / 262144], Base64Table[n / 4096 % 64], Base64Table[n / 64 % 64], Base64Table[n % 64]]
  {
    CharsAsInTable(a / 4);
    CharsAsInTable(a % 4 * 16 + b / 16);
    CharsAsInTable(b % 16 * 4 + c / 64);
    CharsAsInTable(c % 64);
    hide CharOf, ValueOf;
    FirstDigit(a, b, c);
    SecondDigit(a, b, c);
    LowDigits(a, b, c);
  }

  lemma {:induction false} FirstDigit(a: byte, b: byte, c: byte)
    ensures (a * 65536 + b * 256 + c) / 262144 == a / 4
  {
  }

  lemma {:induction false} SecondDigit(a: byte, b: byte, c: byte)
    ensures (a * 65536 + b * 256 + c) / 4096 % 64 == a % 4 * 16 + b / 16
  {
    assert (a * 65536 + b * 256 + c) / 4096 == a * 16 + b / 16;
  }

  lemma {:induction false} LowDigits(a: byte, b: byte, c: byte)
    ensures var n := a * 65536 + b * 256 + c; n / 64 % 64 == b % 16 * 4 + c / 64 && n % 64 == c % 64 && 0 <= n < 16777216
  {
    assert (a * 65536 + b * 256 + c) / 64 == a * 1024 + b * 4 + c / 64;
  }

  /** Standard encoding, padded. */
  function Encode(bytes: seq<byte>): string
  {
    if |bytes| == 0 then ""
    else if |bytes| == 1 then EncodeGroup(bytes[0], 0, 0)[..2] + "=="
    else if |bytes| == 2 then EncodeGroup(bytes[0], bytes[1], 0)[..3] + "="
    else EncodeGroup(bytes[0], bytes[1], bytes[2]) + Encode(bytes[3..])
  }

  predicate AllInAlphabet(t: string)
  {
    forall i :: 0 <= i < |t| ==> InAlphabet(t[i])
  }

  /** Decoding of text without padding. Bits left over at the end are dropped. */
  function DecodeUnpadded(t: string): Result<seq<byte>, ExportError>
  {
    if !AllInAlphabet(t) then Err(Corrupt) else DecodeValues(t)
  }

  function DecodeValues(t: string): Result<seq<byte>, ExportError>
    requires AllInAlphabet(t)
  {
    if |t| == 0 then Ok([])
    else if |t| == 1 then Err(Corrupt)
    else if |t| == 2 then Ok(DecodeGroup(ValueOf(t[0]), ValueOf(t[1]), 0, 0)[..1])
    else if |t| == 3 then Ok(DecodeGroup(ValueOf(t[0]), ValueOf(t[1]), ValueOf(t[2]), 0)[..2])
    else
      var rest := DecodeValues(t[4..]);
      if rest.Err? then rest
      else Ok(DecodeGroup(ValueOf(t[0]), ValueOf(t[1]), ValueOf(t[2]), ValueOf(t[3])) + rest.value)
  }

  function WithoutNewlines(t: string): string
  {
    if t == "" then ""
    else
      var front := WithoutNewlines(t[..|t| - 1]);
      var c := t[|t| - 1];
      if c == '\r' || c == '\n' then front else front + [c]
  }

  function WithoutPadding(t: string): string
  {
    if |t| >= 2 && t[|t| - 2..] == "==" then t[..|t| - 2]
    else if |t| >= 1 && t[|t| - 1] == '=' then t[..|t| - 1]
    else t
  }

  /** Decoding as the protobuf JSON mapping does it: newlines are skipped, and the padding of text
      whose length is a multiple of four is taken off. */
  function Decode(t: string): Result<seq<byte>, ExportError>
  {
    var plain := WithoutNewlines(t);
    if |t| % 4 != 0 then DecodeUnpadded(plain)
    else if |plain| % 4 != 0 then Err(Corrupt)
    else DecodeUnpadded(WithoutPadding(plain))
  }

  // ---- hex ----

  predicate IsHexDigit(c: char)
  {
    '0' <= c <= '9' || 'a' <= c <= 'f' || 'A' <= c <= 'F'
  }

  function HexValue(c: char): (v: int)
    requires IsHexDigit(c)
    ensures 0 <= v < 16
  {
    if '0' <= c <= '9' then (c as int) - ('0' as int)
    else if 'a' <= c <= 'f' then (c as int) - ('a' as int) + 10
    else (c as int) - ('A' as int) + 10
  }

  predicate AllHex(t: string)
  {
    forall i :: 0 <= i < |t| ==> IsHexDigit(t[i])
  }

  function ByteOf(high: char, low: char): byte
    requires IsHexDigit(high) && IsHexDigit(low)
  {
    HexValue(high) * 16 + HexValue(low)
  }

  function HexBytes(t: string): seq<byte>
    requires AllHex(t) && |t| % 2 == 0
  {
    if t == "" then [] else [ByteOf(t[0], t[1])] + HexBytes(t[2..])
  }

  /** Hex text in either case names one byte per two digits. */
  function DecodeHex(t: string): Result<seq<byte>, ExportError>
  {
    if !AllHex(t) then Err(NotHex(t)) else if |t| % 2 != 0 then Err(OddLength) else Ok(HexBytes(t))
  }

  function LowerHex(c: char): char
  {
    if 'A' <= c <= 'F' then 'a' + (c - 'A') else c
  }

  const HexTable := "0123456789abcdef"

  /** The hex text of bytes: two digits each, the high one first. */
  function HexText(bytes: seq<byte>): string
  {
    if bytes == [] then "" else [HexDigit(bytes[0] / 16), HexDigit(bytes[0] % 16)] + HexText(bytes[1..])
  }

  function HexDigit(v: int): char
    requires 0 <= v < 16
  {
    HexTable[v]
  }

  function LowerCase(t: string): (u: string)
    ensures |u| == |t| && forall i: nat :: i < |t| ==> u[i] == LowerHex(t[i])
  {
    seq(|t|, i requires 0 <= i < |t| => LowerHex(t[i]))
  }

  lemma {:induction false} DigitBack(v: int)
    requires 0 <= v < 16
    ensures IsHexDigit(HexDigit(v)) && HexValue(HexDigit(v)) == v
  {
  }

  lemma {:induction false} DigitForth(c: char)
    requires IsHexDigit(c)
    ensures HexDigit(HexValue(c)) == LowerHex(c)
  {
  }

  lemma {:induction false} DigitsOfByte(b: byte)
    ensures var high, low := HexDigit(b / 16), HexDigit(b % 16); IsHexDigit(high) && IsHexDigit(low) && ByteOf(high, low) == b
  {
    DigitBack(b / 16);
    DigitBack(b % 16);
    hide HexValue, HexDigit, IsHexDigit;
  }

  lemma {:induction false} HexTextDigits(bytes: seq<byte>)
    ensures |HexText(bytes)| == 2 * |bytes| && AllHex(HexText(bytes)) && HexBytes(HexText(bytes)) == bytes
  {
    if bytes != [] {
      var rest := bytes[1..];
      HexTextDigits(rest);
      DigitsOfByte(bytes[0]);
      hide HexValue, IsHexDigit, HexBytes, HexDigit, ByteOf;
      var t := HexText(bytes);
      assert t[2..] == HexText(rest);
      AllHexMore(t);
      FirstByte(t);
      assert bytes == [bytes[0]] + rest;
    }
  }

  lemma {:induction false} AllHexMore(t: string)
    requires |t| >= 2 && IsHexDigit(t[0]) && IsHexDigit(t[1]) && AllHex(t[2..])
    ensures AllHex(t)
  {
    hide IsHexDigit;
    assert forall i: nat :: 2 <= i < |t| ==> t[i] == t[2..][i - 2];
  }

  /** Every byte string comes back from its hex text. */
  lemma {:induction false} HexBack(bytes: seq<byte>)
    ensures DecodeHex(HexText(bytes)) == Ok(bytes)
  {
    HexTextDigits(bytes);
  }

  lemma {:induction false} FirstByte(t: string)
    requires AllHex(t) && |t| % 2 == 0 && t != ""
    ensures AllHex(t[2..]) && HexBytes(t) == [ByteOf(t[0], t[1])] + HexBytes(t[2..])
  {
  }

  lemma {:induction false} FirstDigits(b: byte, rest: seq<byte>)
    ensures HexText([b] + rest) == [HexDigit(b / 16), HexDigit(b % 16)] + HexText(rest)
  {
    assert ([b] + rest)[1..] == rest;
  }

  lemma {:induction false} Nibbles(high: nat, low: nat)
    requires low < 16
    ensures (high * 16 + low) / 16 == high && (high * 16 + low) % 16 == low
  {
  }

  lemma {:induction false} LowerCaseFirst(t: string)
    requires |t| >= 2
    ensures LowerCase(t) == [LowerHex(t[0]), LowerHex(t[1])] + LowerCase(t[2..])
  {
    hide LowerHex;
  }

  /** A byte's digits are the text that it was read from. */
  lemma {:induction false} ByteText(a: char, b: char)
    requires IsHexDigit(a) && IsHexDigit(b)
    ensures HexDigit(ByteOf(a, b) / 16) == LowerHex(a) && HexDigit(ByteOf(a, b) % 16) == LowerHex(b)
  {
    hide ByteOf, HexValue, HexDigit, LowerHex, IsHexDigit;
    DigitForth(a);
    DigitForth(b);
    ByteNibbles(a, b);
  }

  lemma {:induction false} ByteNibbles(a: char, b: char)
    requires IsHexDigit(a) && IsHexDigit(b)
    ensures ByteOf(a, b) / 16 == HexValue(a) && ByteOf(a, b) % 16 == HexValue(b)
  {
    hide HexValue, IsHexDigit;
    Nibbles(HexValue(a), HexValue(b));
  }

  lemma {:induction false} HexBytesText(t: string)
    requires AllHex(t) && |t| % 2 == 0
    ensures HexText(HexBytes(t)) == LowerCase(t)
  {
    if t != "" {
      FirstByte(t);
      HexBytesText(t[2..]);
      ByteText(t[0], t[1]);
      LowerCaseFirst(t);
      hide ByteOf, HexDigit, HexValue, LowerHex, HexBytes, HexText, LowerCase;
      FirstDigits(ByteOf(t[0], t[1]), HexBytes(t[2..]));
    }
  }

  /** The bytes that a text names have that text, in lower case. */
  lemma {:induction false} HexForth(t: string)
    requires DecodeHex(t).Ok?
    ensures HexText(DecodeHex(t).value) == LowerCase(t)
  {
    HexBytesText(t);
  }

  lemma {:induction false} DigitInTable(c: char)
    ensures IsHexDigit(c) <==> LowerHex(c) in HexTable
  {
    if IsHexDigit(c) {
      DigitForth(c);
      assert HexTable[HexValue(c)] == LowerHex(c);
    }
  }

  /** Exactly the texts of whole bytes are read, with digits of the table in either case. */
  lemma {:induction false} HexAccepted(t: string)
    ensures DecodeHex(t).Ok? <==> |t| % 2 == 0 && forall i: nat :: i < |t| ==> LowerHex(t[i]) in HexTable
  {
    hide IsHexDigit, LowerHex, HexTable, HexBytes;
    forall i: nat | i < |t| ensures IsHexDigit(t[i]) <==> LowerHex(t[i]) in HexTable { DigitInTable(t[i]); }
  }

  // ---- what base64 text is read ----

  lemma {:induction false} AllInRest(t: string)
    requires AllInAlphabet(t) && |t| >= 4
    ensures AllInAlphabet(t[4..]) && |t[4..]| % 4 == |t| % 4
  {
  }

  lemma {:induction false} ValuesAccepted(t: string)
    requires AllInAlphabet(t)
    ensures DecodeValues(t).Ok? <==> |t| % 4 != 1
  {
    hide InAlphabet, AllInAlphabet, ValueOf, DecodeGroup;
    if |t| >= 4 {
      AllInRest(t);
      ValuesAccepted(t[4..]);
    }
  }

  /** The text is made of characters of the alphabet and then n padding characters. */
  predicate PaddedBy(t: string, n: nat)
  {
    n <= |t| && AllInAlphabet(t[..|t| - n]) && forall i: nat :: |t| - n <= i < |t| ==> t[i] == '='
  }

  lemma {:induction false} PaddingTakenOff(t: string)
    requires |t| % 4 == 0
    ensures AllInAlphabet(WithoutPadding(t)) && |WithoutPadding(t)| % 4 != 1 <==> PaddedBy(t, 0) || PaddedBy(t, 1) || PaddedBy(t, 2)
  {
    assert t[..|t|] == t;
    if t != "" {
      assert t[|t| - 2..] == [t[|t| - 2], t[|t| - 1]];
      assert t[..|t| - 1] == t[..|t| - 2] + [t[|t| - 2]];
    }
  }

  /** Apart from its newlines, text is read exactly if it is whole groups, with at most two padding characters
      at the end, or, when its length with the newlines is not a multiple of four, no lone character is left
      over and it has no padding. */
  lemma {:induction false} TextAccepted(t: string)
    ensures var plain := WithoutNewlines(t);
            Decode(t).Ok? <==>
            if |t| % 4 != 0 then AllInAlphabet(plain) && |plain| % 4 != 1
            else |plain| % 4 == 0 && (PaddedBy(plain, 0) || PaddedBy(plain, 1) || PaddedBy(plain, 2))
  {
    var plain := WithoutNewlines(t);
    hide WithoutNewlines, WithoutPadding, DecodeValues, PaddedBy, AllInAlphabet;
    if |t| % 4 != 0 {
      if AllInAlphabet(plain) { ValuesAccepted(plain); }
    } else if |plain| % 4 == 0 {
      PaddingTakenOff(plain);
      if AllInAlphabet(WithoutPadding(plain)) { ValuesAccepted(WithoutPadding(plain)); }
    }
  }

  // ---- the round trip ----

  lemma {:induction false} GroupBack(s: sextet, t: sextet, u: sextet, v: sextet)
    ensures var g := DecodeGroup(s, t, u, v); EncodeGroup(g[0], g[1], g[2]) == [CharOf(s), CharOf(t), CharOf(u), CharOf(v)]
  {
    hide CharOf;
    var g := DecodeGroup(s, t, u, v);
    assert g[0] / 4 == s && g[2] % 64 == v;
    assert g[0] % 4 == t / 16 && g[1] / 16 == t % 16;
    assert g[1] % 16 == u / 4 && g[2] / 64 == u % 4;
  }

  lemma {:induction false} GroupForth(a: byte, b: byte, c: byte)
    ensures DecodeGroup(a / 4, a % 4 * 16 + b / 16, b % 16 * 4 + c / 64, c % 64) == [a, b, c]
  {
  }

  lemma {:induction false} GroupTextBack(c: char, d: char, e: char, f: char)
    requires InAlphabet(c) && InAlphabet(d) && InAlphabet(e) && InAlphabet(f)
    ensures var g := DecodeGroup(ValueOf(c), ValueOf(d), ValueOf(e), ValueOf(f));
            |g| == 3 && EncodeGroup(g[0], g[1], g[2]) == [c, d, e, f]
  {
    GroupBack(ValueOf(c), ValueOf(d), ValueOf(e), ValueOf(f));
    CharsRoundTrip(0, c);
    CharsRoundTrip(0, d);
    CharsRoundTrip(0, e);
    CharsRoundTrip(0, f);
  }

  lemma {:induction false} EncodeMore(g: seq<byte>, rest: seq<byte>)
    requires |g| == 3
    ensures Encode(g + rest) == EncodeGroup(g[0], g[1], g[2]) + Encode(rest)
  {
    hide EncodeGroup;
    assert (g + rest)[3..] == rest;
  }

  lemma {:induction false} DecodeMore(t: string)
    requires AllInAlphabet(t) && |t| >= 4
    ensures AllInAlphabet(t[4..])
    ensures DecodeValues(t[4..]).Ok? ==>
              DecodeValues(t) == Ok(DecodeGroup(ValueOf(t[0]), ValueOf(t[1]), ValueOf(t[2]), ValueOf(t[3])) + DecodeValues(t[4..]).value)
  {
  }

  /** Text of whole groups comes back from its bytes as it was. */
  lemma {:induction false} WholeGroupsBack(t: string)
    requires AllInAlphabet(t) && |t| % 4 == 0
    ensures DecodeValues(t).Ok? && Encode(DecodeValues(t).value) == t
  {
    if t != "" {
      var rest := t[4..];
      assert |rest| == |t| - 4;
      DecodeMore(t);
      WholeGroupsBack(rest);
      FirstGroupBack(t, rest);
    }
  }

  lemma {:induction false} FirstGroupBack(t: string, rest: string)
    requires AllInAlphabet(t) && |t| >= 4 && rest == t[4..] && AllInAlphabet(rest)
    requires DecodeValues(rest).Ok? && Encode(DecodeValues(rest).value) == rest
    requires DecodeValues(t) == Ok(DecodeGroup(ValueOf(t[0]), ValueOf(t[1]), ValueOf(t[2]), ValueOf(t[3])) + DecodeValues(rest).value)
    ensures Encode(DecodeValues(t).value) == t
  {
    hide ValueOf, EncodeGroup, DecodeGroup, InAlphabet, Encode, DecodeValues;
    GroupTextBack(t[0], t[1], t[2], t[3]);
    EncodeMore(DecodeGroup(ValueOf(t[0]), ValueOf(t[1]), ValueOf(t[2]), ValueOf(t[3])), DecodeValues(rest).value);
    assert t == [t[0], t[1], t[2], t[3]] + rest;
  }

  /** Two characters too many leave one byte too many, and so padding when encoded again. */
  lemma {:induction false} HalfGroupPadded(t: string)
    requires AllInAlphabet(t) && |t| % 4 == 2
    ensures DecodeValues(t).Ok?
    ensures var back := Encode(DecodeValues(t).value); |back| == |t| + 2 && back[|back| - 1] == '='
  {
    if |t| > 2 {
      DecodeMore(t);
      HalfGroupPadded(t[4..]);
      EncodeMore(DecodeGroup(ValueOf(t[0]), ValueOf(t[1]), ValueOf(t[2]), ValueOf(t[3])), DecodeValues(t[4..]).value);
    }
  }

  lemma {:induction false} HexIsPlain(t: string)
    requires AllHex(t)
    ensures AllInAlphabet(t) && WithoutNewlines(t) == t && WithoutPadding(t) == t
  {
    forall i: nat | i < |t| ensures InAlphabet(t[i]) && t[i] != '\r' && t[i] != '\n' && t[i] != '=' {
      assert IsHexDigit(t[i]);
    }
    hide IsHexDigit, InAlphabet;
    NoNewlines(t);
    if |t| >= 2 { assert t[|t| - 2..][1] == t[|t| - 1]; }
  }

  lemma {:induction false} NoNewlines(t: string)
    requires forall i: nat :: i < |t| ==> t[i] != '\r' && t[i] != '\n'
    ensures WithoutNewlines(t) == t
  {
    if t != "" { NoNewlines(t[..|t| - 1]); }
  }

  predicate Encoded(c: char)
  {
    InAlphabet(c) || c == '='
  }

  lemma {:induction false} EncodeGroupText(a: byte, b: byte, c: byte)
    ensures AllInAlphabet(EncodeGroup(a, b, c)) && |EncodeGroup(a, b, c)| == 4
    ensures var g := EncodeGroup(a, b, c);
            DecodeGroup(ValueOf(g[0]), ValueOf(g[1]), ValueOf(g[2]), ValueOf(g[3])) == [a, b, c]
  {
    hide CharOf, ValueOf, InAlphabet, DecodeGroup;
    GroupForth(a, b, c);
    CharsRoundTrip(a / 4, 'A');
    CharsRoundTrip(a % 4 * 16 + b / 16, 'A');
    CharsRoundTrip(b % 16 * 4 + c / 64, 'A');
    CharsRoundTrip(c % 64, 'A');
  }

  lemma {:induction false} PaddingAfter(g: string, e: string)
    requires |g| == 4 && AllInAlphabet(g) && |e| % 4 == 0
    ensures WithoutPadding(g + e) == g + WithoutPadding(e)
  {
    if e == "" {
      assert g + e == g && g[2..][0] == g[2] && InAlphabet(g[2]) && InAlphabet(g[3]);
    } else {
      assert (g + e)[|g + e| - 2..] == e[|e| - 2..];
    }
  }

  lemma {:induction false} PaddingOff(s: string)
    requires AllInAlphabet(s)
    ensures WithoutPadding(s + "==") == s
    ensures s != "" ==> WithoutPadding(s + "=") == s
  {
    assert (s + "==")[|s|..] == "==";
    if s != "" {
      assert (s + "=")[|s| - 1..][0] == s[|s| - 1] && InAlphabet(s[|s| - 1]);
    }
  }

  lemma {:induction false} GroupDecodes(g: string, u: string, bytes: seq<byte>)
    requires |g| == 4 && AllInAlphabet(g) && AllInAlphabet(u) && DecodeValues(u) == Ok(bytes)
    ensures AllInAlphabet(g + u)
    ensures DecodeValues(g + u) == Ok(DecodeGroup(ValueOf(g[0]), ValueOf(g[1]), ValueOf(g[2]), ValueOf(g[3])) + bytes)
  {
    assert (g + u)[4..] == u;
    DecodeMore(g + u);
  }

  /** What an encoded text is like, and that its characters without the padding give the bytes. */
  ghost predicate EncodesWell(bytes: seq<byte>, t: string)
  {
    && |t| % 4 == 0 && (forall i: nat :: i < |t| ==> Encoded(t[i]))
    && AllInAlphabet(WithoutPadding(t)) && DecodeValues(WithoutPadding(t)) == Ok(bytes)
  }

  lemma {:induction false} ShortGroups(g: string, a: byte, b: byte, c: byte)
    requires |g| == 4 && AllInAlphabet(g)
    requires DecodeGroup(ValueOf(g[0]), ValueOf(g[1]), ValueOf(g[2]), ValueOf(g[3])) == [a, b, c]
    ensures AllInAlphabet(g[..2]) && DecodeValues(g[..2]) == Ok([a])
    ensures AllInAlphabet(g[..3]) && DecodeValues(g[..3]) == Ok([a, b])
  {
    hide ValueOf, InAlphabet;
    var d := DecodeGroup(ValueOf(g[0]), ValueOf(g[1]), ValueOf(g[2]), ValueOf(g[3]));
    assert d[0] == a && d[1] == b;
    assert g[..2][0] == g[0] && g[..2][1] == g[1];
    assert g[..3][0] == g[0] && g[..3][1] == g[1] && g[..3][2] == g[2];
    assert DecodeGroup(ValueOf(g[0]), ValueOf(g[1]), 0, 0)[..1] == [a];
    assert DecodeGroup(ValueOf(g[0]), ValueOf(g[1]), ValueOf(g[2]), 0)[..2] == [a, b];
  }

  lemma {:induction false} LastGroupText(a: byte, b: byte)
    ensures EncodesWell([a], Encode([a])) && EncodesWell([a, b], Encode([a, b]))
  {
    var g := EncodeGroup(a, 0, 0);
    var h := EncodeGroup(a, b, 0);
    EncodeGroupText(a, 0, 0);
    EncodeGroupText(a, b, 0);
    assert Encode([a]) == g[..2] + "==" && Encode([a, b]) == h[..3] + "=";
    hide EncodeGroup, DecodeGroup, ValueOf, WithoutPadding, InAlphabet, Encode, DecodeValues;
    ShortGroups(g, a, 0, 0);
    ShortGroups(h, a, b, 0);
    PaddingOff(g[..2]);
    PaddingOff(h[..3]);
  }

  lemma {:induction false} EncodedText(bytes: seq<byte>)
    ensures EncodesWell(bytes, Encode(bytes))
  {
    if |bytes| > 2 {
      EncodedText(bytes[3..]);
      hide EncodesWell, Encode;
      GroupAndText(bytes[..3], bytes[3..]);
      assert bytes == bytes[..3] + bytes[3..];
    } else {
      FewBytes(bytes);
    }
  }

  lemma {:induction false} FewBytes(bytes: seq<byte>)
    requires |bytes| < 3
    ensures EncodesWell(bytes, Encode(bytes))
  {
    if |bytes| == 1 {
      assert bytes == [bytes[0]];
      LastGroupText(bytes[0], 0);
    } else if |bytes| == 2 {
      assert bytes == [bytes[0], bytes[1]];
      LastGroupText(bytes[0], bytes[1]);
    }
  }

  lemma {:induction false} GroupAndText(first: seq<byte>, rest: seq<byte>)
    requires |first| == 3 && EncodesWell(rest, Encode(rest))
    ensures EncodesWell(first + rest, Encode(first + rest))
  {
    hide EncodeGroup, DecodeGroup, ValueOf, WithoutPadding, DecodeValues, AllInAlphabet, Encode, Encoded;
    var g := EncodeGroup(first[0], first[1], first[2]);
    FirstGroupText(first);
    EncodeMore(first, rest);
    PaddingAfter(g, Encode(rest));
    GroupDecodes(g, WithoutPadding(Encode(rest)), rest);
    EncodedAfter(g, Encode(rest));
  }

  lemma {:induction false} FirstGroupText(first: seq<byte>)
    requires |first| == 3
    ensures var g := EncodeGroup(first[0], first[1], first[2]);
            |g| == 4 && AllInAlphabet(g) && DecodeGroup(ValueOf(g[0]), ValueOf(g[1]), ValueOf(g[2]), ValueOf(g[3])) == first
  {
    EncodeGroupText(first[0], first[1], first[2]);
    hide EncodeGroup, DecodeGroup, ValueOf;
    assert first == [first[0], first[1], first[2]];
  }

  lemma {:induction false} EncodedAfter(g: string, e: string)
    requires AllInAlphabet(g) && forall i: nat :: i < |e| ==> Encoded(e[i])
    ensures forall i: nat :: i < |g + e| ==> Encoded((g + e)[i])
  {
    hide InAlphabet;
  }

  /** The other way round, every byte string comes back from its text: encoding loses nothing of an id. */
  lemma {:induction false} BytesBack(bytes: seq<byte>)
    ensures Decode(Encode(bytes)) == Ok(bytes)
  {
    EncodedText(bytes);
    var t := Encode(bytes);
    forall i: nat | i < |t| ensures t[i] != '\r' && t[i] != '\n' { assert Encoded(t[i]); }
    NoNewlines(t);
    hide Encode, DecodeValues, WithoutPadding;
  }

  // ---- ids ----

  /** An id is rejected unless it is missing or hex. */
  function CheckHexString(id: Option<string>): Result<(), ExportError>
  {
    if id.None? then Ok(())
    else
      var decoded := DecodeHex(id.value);
      if decoded.Err? then Err(decoded.error) else Ok(())
  }

  /** Replaces ids, decoded as base64, by the bytes their hex text names, in place. On an error
      the ids before it are already replaced. */
  method HexIDs(ids: array<seq<byte>>) returns (res: Result<(), ExportError>)
    modifies ids
    ensures res.Ok? ==> forall k: nat :: k < ids.Length ==> DecodeHex(Encode(old(ids[k]))) == Ok(ids[k])
    ensures res.Ok? ==> forall k: nat :: k < ids.Length ==> HexText(ids[k]) == LowerCase(Encode(old(ids[k])))
    ensures res.Err? ==>
              exists n: nat :: n < ids.Length && DecodeHex(Encode(old(ids[n]))).Err?
                               && res.error == NotHex(Encode(old(ids[n])))
                               && (forall k: nat :: k < n ==> DecodeHex(Encode(old(ids[k]))) == Ok(ids[k]))
                               && (forall k: nat :: n <= k < ids.Length ==> ids[k] == old(ids[k]))
  {
    hide Encode, DecodeHex;
    var i: nat := 0;
    while i < ids.Length
      invariant i <= ids.Length
      invariant forall k: nat :: k < i ==> DecodeHex(Encode(old(ids[k]))) == Ok(ids[k])
      invariant forall k: nat :: i <= k < ids.Length ==> ids[k] == old(ids[k])
    {
      var text := Encode(ids[i]);
      var decoded := DecodeHex(text);
      if decoded.Err? {
        return Err(NotHex(text));
      }
      assert DecodeHex(Encode(old(ids[i]))) == decoded;
      ids[i] := decoded.value;
      i := i + 1;
    }
    forall k: nat | k < ids.Length ensures HexText(ids[k]) == LowerCase(Encode(old(ids[k]))) {
      HexForth(Encode(old(ids[k])));
    }
    return Ok(());
  }

  lemma {:induction false} HexTextDecodes(t: string)
    requires AllHex(t) && |t| % 2 == 0
    ensures AllInAlphabet(t) && Decode(t) == DecodeValues(t)
  {
    HexIsPlain(t);
  }

  /** For every hex text: base64 decoding and encoding give the text back when its length is a
      multiple of four, so the id is the bytes the text names; and otherwise give text that is not
      hex, so the id is rejected. */
  lemma {:induction false} HexTextSurvives(t: string)
    requires CheckHexString(Some(t)).Ok?
    ensures Decode(t).Ok?
    ensures |t| % 4 == 0 ==> Encode(Decode(t).value) == t && DecodeHex(Encode(Decode(t).value)) == DecodeHex(t)
    ensures |t| % 4 != 0 ==> DecodeHex(Encode(Decode(t).value)).Err?
  {
    hide Encode, Decode, DecodeValues, HexBytes, IsHexDigit;
    assert AllHex(t) && |t| % 2 == 0;
    HexTextDecodes(t);
    hide Encode, Decode, DecodeValues, HexBytes, AllInAlphabet, AllHex;
    if |t| % 4 == 0 {
      WholeGroupsBack(t);
    } else {
      HalfGroupPadded(t);
      NotHexDigit(Encode(Decode(t).value));
    }
  }

  lemma {:induction false} NotHexDigit(t: string)
    requires t != "" && t[|t| - 1] == '='
    ensures DecodeHex(t).Err?
  {
    assert !IsHexDigit(t[|t| - 1]);
  }

  /** So, given ids that passed the check, the replacement works exactly when every text has whole
      groups, and then yields the bytes the texts name. */
  method HexIDsOfTexts(texts: seq<string>, ids: array<seq<byte>>) returns (res: Result<(), ExportError>)
    requires ids.Length == |texts|
    requires forall k: nat :: k < |texts| ==> CheckHexString(Some(texts[k])).Ok? && Decode(texts[k]) == Ok(ids[k])
    modifies ids
    ensures res.Ok? <==> forall k: nat :: k < |texts| ==> |texts[k]| % 4 == 0
    ensures res.Ok? ==> forall k: nat :: k < |texts| ==> DecodeHex(texts[k]) == Ok(ids[k]) && HexText(ids[k]) == LowerCase(texts[k])
  {
    forall k: nat | k < |texts|
      ensures |texts[k]| % 4 == 0 ==> DecodeHex(Encode(ids[k])) == DecodeHex(texts[k])
      ensures |texts[k]| % 4 != 0 ==> DecodeHex(Encode(ids[k])).Err?
      ensures DecodeHex(texts[k]).Ok?
    {
      HexTextSurvives(texts[k]);
    }
    hide Encode, Decode, DecodeHex;
    res := HexIDs(ids);
    forall k: nat | k < |texts| && DecodeHex(texts[k]) == Ok(ids[k]) ensures HexText(ids[k]) == LowerCase(texts[k]) {
      HexForth(texts[k]);
    }
  }

  lemma {:induction false} SamePair(a: char, b: char, c: char, d: char)
    requires IsHexDigit(a) && IsHexDigit(b) && IsHexDigit(c) && IsHexDigit(d)
    ensures ByteOf(a, b) == ByteOf(c, d)
            <==> LowerHex(a) == LowerHex(c) && LowerHex(b) == LowerHex(d)
  {
  }

  /** Two hex texts name the same bytes exactly when they differ in case only. */
  lemma {:induction false} SameBytesSameText(t: string, u: string)
    requires AllHex(t) && AllHex(u) && |t| % 2 == 0 && |u| % 2 == 0
    ensures HexBytes(t) == HexBytes(u) <==>
            |t| == |u| && forall i :: 0 <= i < |t| ==> LowerHex(t[i]) == LowerHex(u[i])
  {
    HexBytesLength(t);
    HexBytesLength(u);
    if |t| == |u| && t != "" {
      SameBytesSameText(t[2..], u[2..]);
      SamePair(t[0], t[1], u[0], u[1]);
      hide ByteOf, HexValue, LowerHex, IsHexDigit;
      assert HexBytes(t)[1..] == HexBytes(t[2..]) && HexBytes(u)[1..] == HexBytes(u[2..]);
      assert forall i :: 2 <= i < |t| ==> t[i] == t[2..][i - 2] && u[i] == u[2..][i - 2];
    }
  }

  lemma {:induction false} HexBytesLength(t: string)
    requires AllHex(t) && |t| % 2 == 0
    ensures |HexBytes(t)| == |t| / 2
  {
    if t != "" { HexBytesLength(t[2..]); }
  }

  /** The check comes first for a reason: hex text with a pair of line breaks in it is not hex, but
      decodes as if they were not there, and would pass for an id. */
  lemma {:induction false} NewlinesSlipThrough(a: string, b: string)
    requires AllHex(a) && AllHex(b) && |a + b| % 4 == 0
    ensures var t := a + "\r\n\r\n" + b;
            CheckHexString(Some(t)).Err? && Decode(t) == Decode(a + b) && Decode(t).Ok?
            && DecodeHex(Encode(Decode(t).value)).Ok?
  {
    var t := a + "\r\n\r\n" + b;
    NotHexAt(t, |a|);
    Newlines(a, "\r\n\r\n", b);
    WholeGroupsFour(t, a + b);
    hide WithoutNewlines, Encode, DecodeHex, AllHex;
    DecodesAlike(t, a + b);
    assert CheckHexString(Some(a + b)).Ok? by { HexOk(a + b); }
    HexTextSurvives(a + b);
    HexOk(a + b);
    hide Decode;
  }

  lemma {:induction false} HexOk(t: string)
    requires AllHex(t) && |t| % 4 == 0
    ensures DecodeHex(t).Ok? && CheckHexString(Some(t)).Ok?
  {
  }

  lemma {:induction false} NotHexAt(t: string, k: nat)
    requires k < |t| && !IsHexDigit(t[k])
    ensures CheckHexString(Some(t)).Err?
  {
  }

  lemma {:induction false} WholeGroupsFour(t: string, u: string)
    requires |t| == |u| + 4 && |u| % 4 == 0
    ensures |t| % 4 == 0
  {
  }

  lemma {:induction false} DecodesAlike(t: string, plain: string)
    requires WithoutNewlines(t) == plain && AllHex(plain) && |t| % 4 == 0 && |plain| % 4 == 0
    ensures Decode(t) == Decode(plain)
  {
    HexIsPlain(plain);
    hide WithoutNewlines, WithoutPadding, DecodeUnpadded;
  }

  lemma {:induction false} Newlines(a: string, n: string, b: string)
    requires AllHex(a) && AllHex(b) && forall i :: 0 <= i < |n| ==> n[i] == '\r' || n[i] == '\n'
    ensures WithoutNewlines(a + n + b) == a + b
  {
    if b != "" {
      assert (a + n + b)[..|a + n + b| - 1] == a + n + b[..|b| - 1];
      Newlines(a, n, b[..|b| - 1]);
    } else if n != "" {
      assert (a + n + b)[..|a + n + b| - 1] == a + n[..|n| - 1] + "";
      Newlines(a, n[..|n| - 1], "");
    } else {
      assert a + n + b == a;
      NoNewlines(a);
    }
  }
}
