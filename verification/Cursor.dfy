/**
 Page cursors: a row id as decimal text in unpadded base64url, section 5 of RFC 4648, and the lenient
 decoder that reads one back (src/shared_integration/finding_lifecycle.py, src/shared_integration/identity.py).
 */
module Cursor {
  import opened Prelude
  import opened Findings

  type Byte = b: int | 0 <= b < 256
  type Sextet = x: int | 0 <= x < 64

  // ---------------------------------------------------------------- base64url

  function Symbol(x: Sextet): char {
    if x < 26 then 'A' + x as char
    else if x < 52 then 'a' + (x - 26) as char
    else if x < 62 then '0' + (x - 52) as char
    else if x == 62 then '-' else '_'
  }

  /** The decoder first maps the two url-safe symbols to the standard ones, so it reads either form. */
  function SextetOf(c: char): Option<Sextet> {
    if 'A' <= c <= 'Z' then Some((c - 'A') as int)
    else if 'a' <= c <= 'z' then Some((c - 'a') as int + 26)
    else if '0' <= c <= '9' then Some((c - '0') as int + 52)
    else if c == '-' || c == '+' then Some(62)
    else if c == '_' || c == '/' then Some(63)
    else None
  }

  /** Groups of three bytes as four symbols; the last group of one or two bytes as two or three, without padding. */
  function Encode(bytes: seq<Byte>): string {
    if bytes == [] then []
    else if |bytes| == 1 then Group1(bytes[0])
    else if |bytes| == 2 then Group2(bytes[0], bytes[1])
    else Group3(bytes[0], bytes[1], bytes[2]) + Encode(bytes[3..])
  }

  function Group1(b0: Byte): string {
    [Symbol(b0 / 4), Symbol(b0 % 4 * 16)]
  }

  function Group2(b0: Byte, b1: Byte): string {
    [Symbol(b0 / 4), Symbol(b0 % 4 * 16 + b1 / 16), Symbol(b1 % 16 * 4)]
  }

  function Group3(b0: Byte, b1: Byte, b2: Byte): string {
    [Symbol(b0 / 4), Symbol(b0 % 4 * 16 + b1 / 16), Symbol(b1 % 16 * 4 + b2 / 64), Symbol(b2 % 64)]
  }

  /**
   How far into a group the decoder is: `quad` symbols read, the bits of the last one not yet written, pads seen
   since.
   */
  datatype Reader = Reader(quad: int, left: int, pads: nat) {
    ghost predicate Valid() {
      && 0 <= quad < 4
      && left >= 0 && (quad == 0 ==> left == 0) && (quad == 1 ==> left < 64) && (quad == 2 ==> left < 16)
          && (quad == 3 ==> left < 4)
    }

    /** The byte that one more symbol completes, if any. */
    function Written(x: Sextet): seq<Byte>
      requires Valid()
    {
      if quad == 0 then []
      else if quad == 1 then [left * 4 + x / 16]
      else if quad == 2 then [left * 16 + x / 4]
      else [left * 64 + x]
    }

    function Next(x: Sextet): Reader
      requires Valid()
    {
      if quad == 0 then Reader(1, x, 0)
      else if quad == 1 then Reader(2, x % 16, 0)
      else if quad == 2 then Reader(3, x % 4, 0)
      else Reader(0, 0, 0)
    }
  }

  const FRESH := Reader(0, 0, 0)

  /** Symbols outside the alphabet are skipped; enough padding ends the text; an open group is an error. */
  function Read(s: string, r: Reader): Option<seq<Byte>>
    requires r.Valid()
  {
    if s == [] then
      if r.quad == 0 then Some([]) else None
    else if s[0] == '=' then
      if r.quad < 2 then Read(s[1..], r)
      else if r.quad + r.pads + 1 >= 4 then Some([])
      else Read(s[1..], r.(pads := r.pads + 1))
    else if SextetOf(s[0]).None? then Read(s[1..], r)
    else
      var x := SextetOf(s[0]).value;
      Before(r.Written(x), Read(s[1..], r.Next(x)))
  }

  function Before(bytes: seq<Byte>, rest: Option<seq<Byte>>): Option<seq<Byte>> {
    if rest.None? then None else Some(bytes + rest.value)
  }

  function Padded(s: string): string {
    s + Padding(-|s| % 4)
  }

  function Padding(n: nat): string {
    if n == 0 then "" else "=" + Padding(n - 1)
  }

  function Decode(s: string): Option<seq<Byte>> {
    if exists i :: 0 <= i < |s| && s[i] >= 128 as char then None else Read(Padded(s), FRESH)
  }

  /** Table 2 of RFC 4648, in five pieces. */
  const TABLE := ["ABCDEFGHIJKLM", "NOPQRSTUVWXYZ", "abcdefghijklm", "nopqrstuvwxyz", "0123456789-_"]
  const ALPHABET := TABLE[0] + TABLE[1] + TABLE[2] + TABLE[3] + TABLE[4]

  lemma CapitalIs(x: Sextet)
    requires x < 26
    ensures Symbol(x) == if x < 13 then TABLE[0][x] else TABLE[1][x - 13]
  {
  }

  lemma SmallIs(x: Sextet)
    requires 26 <= x < 52
    ensures Symbol(x) == if x < 39 then TABLE[2][x - 26] else TABLE[3][x - 39]
  {
  }

  lemma OtherIs(x: Sextet)
    requires 52 <= x
    ensures |TABLE[4]| == 12 && Symbol(x) == TABLE[4][x - 52]
  {
  }

  /** Each six bits are written as the alphabet's character at that position. */
  lemma SymbolIs(x: Sextet)
    ensures |ALPHABET| == 64 && Symbol(x) == ALPHABET[x]
  {
    if x < 26 { CapitalIs(x); } else if x < 52 { SmallIs(x); } else { OtherIs(x); }
  }

  /** The character for the six bits of `value` above its lowest `shift`, given as a power of two. */
  function Digit(value: nat, shift: nat): char
    requires shift > 0
  {
    ALPHABET[value / shift % 64]
  }

  /**
   What section 5 of RFC 4648 makes of three bytes and what follows: first their 24 bits as four characters. A last
   one or two bytes are filled up with zero bits to two or three characters, and no padding follows.
   */
  predicate Spelled(bytes: seq<Byte>, text: string) {
    match |bytes|
    case 0 => text == ""
    case 1 => var bits := bytes[0] as int * 16; text == [Digit(bits, 64), Digit(bits, 1)]
    case 2 =>
      var bits := (bytes[0] as int * 256 + bytes[1] as int) * 4;
      text == [Digit(bits, 4096), Digit(bits, 64), Digit(bits, 1)]
    case _ =>
      var bits := bytes[0] as int * 65536 + bytes[1] as int * 256 + bytes[2] as int;
      |text| >= 4 && text[..4] == [Digit(bits, 262144), Digit(bits, 4096), Digit(bits, 64), Digit(bits, 1)]
  }

  lemma DigitIs(value: nat, shift: nat, high: nat, x: Sextet, low: nat)
    requires low < shift && value == (high * 64 + x) * shift + low && shift in {1, 64, 4096, 262144}
    ensures Digit(value, shift) == Symbol(x)
  {
    var whole := high * 64 + x;
    Quotient(value, shift, whole, low);
    DigitOf(value, shift, whole, x);
  }

  lemma DigitOf(value: nat, shift: nat, whole: nat, x: Sextet)
    requires shift > 0 && value / shift == whole && whole % 64 == x
    ensures Digit(value, shift) == Symbol(x)
  {
    SymbolIs(x);
    assert value / shift % 64 == x;
  }

  lemma Quotient(value: nat, shift: nat, quotient: nat, rest: nat)
    requires rest < shift && value == quotient * shift + rest && shift in {1, 64, 4096, 262144}
    ensures value / shift == quotient
  {
    match shift
    case 1 =>
    case 64 =>
    case 4096 =>
    case _ =>
  }

  lemma Spelled1(b0: Byte, bits: nat)
    requires bits == b0 as int * 16
    ensures Group1(b0) == [Digit(bits, 64), Digit(bits, 1)]
  {
    DigitIs(bits, 64, 0, b0 / 4, b0 % 4 * 16);
    DigitIs(bits, 1, b0 / 4, b0 % 4 * 16, 0);
  }

  lemma Spelled2(b0: Byte, b1: Byte, bits: nat)
    requires bits == (b0 as int * 256 + b1 as int) * 4
    ensures Group2(b0, b1) == [Digit(bits, 4096), Digit(bits, 64), Digit(bits, 1)]
  {
    DigitIs(bits, 4096, 0, b0 / 4, b0 % 4 * 1024 + b1 * 4);
    DigitIs(bits, 64, b0 / 4, b0 % 4 * 16 + b1 / 16, b1 % 16 * 4);
    DigitIs(bits, 1, b0 * 16 + b1 / 16, b1 % 16 * 4, 0);
  }

  lemma Spelled3(b0: Byte, b1: Byte, b2: Byte, bits: nat)
    requires bits == b0 as int * 65536 + b1 as int * 256 + b2 as int
    ensures Group3(b0, b1, b2) == [Digit(bits, 262144), Digit(bits, 4096), Digit(bits, 64), Digit(bits, 1)]
  {
    DigitIs(bits, 262144, 0, b0 / 4, b0 % 4 * 65536 + b1 * 256 + b2);
    DigitIs(bits, 4096, b0 / 4, b0 % 4 * 16 + b1 / 16, b1 % 16 * 256 + b2);
    DigitIs(bits, 64, b0 * 16 + b1 / 16, b1 % 16 * 4 + b2 / 64, b2 % 64);
    DigitIs(bits, 1, b0 * 1024 + b1 * 4 + b2 / 64, b2 % 64, 0);
  }

  lemma FirstGroup(bytes: seq<Byte>)
    ensures Spelled(bytes, Encode(bytes))
  {
    match |bytes|
    case 0 =>
    case 1 => Spelled1(bytes[0], bytes[0] as int * 16);
    case 2 => Spelled2(bytes[0], bytes[1], (bytes[0] as int * 256 + bytes[1] as int) * 4);
    case _ => FirstThree(bytes);
  }

  lemma FirstThree(bytes: seq<Byte>)
    requires |bytes| >= 3
    ensures Spelled(bytes, Encode(bytes))
  {
    Spelled3(bytes[0], bytes[1], bytes[2], bytes[0] as int * 65536 + bytes[1] as int * 256 + bytes[2] as int);
    PrefixOf(Group3(bytes[0], bytes[1], bytes[2]), Encode(bytes[3..]), Encode(bytes));
  }

  lemma PrefixOf(group: string, rest: string, text: string)
    requires |group| == 4 && text == group + rest
    ensures |text| >= 4 && text[..4] == group
  {
  }

  /** Every three bytes are spelled so in their place, the last ones included. */
  lemma {:induction false} EncodeSpells(bytes: seq<Byte>, k: nat)
    requires 3 * k <= |bytes|
    ensures 4 * k <= |Encode(bytes)| && Spelled(bytes[3 * k..], Encode(bytes)[4 * k..])
  {
    if k > 0 {
      var last: nat := k - 1;
      EncodeSpells(bytes[3..], last);
      assert bytes[3..][3 * last..] == bytes[3 * k..];
      EncodedTail(bytes, 4 * k);
    } else {
      FirstGroup(bytes);
      assert bytes[0..] == bytes && Encode(bytes)[0..] == Encode(bytes);
    }
  }

  lemma EncodedTail(bytes: seq<Byte>, at: nat)
    requires |bytes| >= 3 && 4 <= at <= |Encode(bytes[3..])| + 4
    ensures at <= |Encode(bytes)| && Encode(bytes)[at..] == Encode(bytes[3..])[at - 4..]
  {
    var tail := Encode(bytes[3..]);
    assert Encode(bytes) == Group3(bytes[0], bytes[1], bytes[2]) + tail;
  }

  lemma SymbolRead(x: Sextet)
    ensures SextetOf(Symbol(x)) == Some(x) && Symbol(x) != '=' && Symbol(x) < 128 as char
  {
  }

  lemma ReadSymbol(x: Sextet, rest: string, r: Reader)
    requires r.Valid()
    ensures Read([Symbol(x)] + rest, r) == Before(r.Written(x), Read(rest, r.Next(x)))
  {
    SymbolRead(x);
    assert ([Symbol(x)] + rest)[1..] == rest;
  }

  lemma BeforeTwice(a: seq<Byte>, b: seq<Byte>, rest: Option<seq<Byte>>)
    ensures Before(a, Before(b, rest)) == Before(a + b, rest) && Before([], rest) == rest
  {
    if rest.Some? {
      assert a + (b + rest.value) == (a + b) + rest.value;
      assert [] + rest.value == rest.value;
    }
  }

  lemma ReadPair(x0: Sextet, x1: Sextet, rest: string)
    ensures Read([Symbol(x0), Symbol(x1)] + rest, FRESH)
        == Before([x0 * 4 + x1 / 16], Read(rest, Reader(2, x1 % 16, 0)))
  {
    var tail := [Symbol(x1)] + rest;
    assert [Symbol(x0), Symbol(x1)] + rest == [Symbol(x0)] + tail;
    ReadSymbol(x0, tail, FRESH);
    ReadSymbol(x1, rest, Reader(1, x0, 0));
    BeforeTwice([], [], Read(tail, Reader(1, x0, 0)));
  }

  lemma ReadTriple(x0: Sextet, x1: Sextet, x2: Sextet, b0: Byte, b1: Byte, rest: string)
    requires b0 == x0 * 4 + x1 / 16 && b1 == x1 % 16 * 16 + x2 / 4
    ensures Read([Symbol(x0), Symbol(x1), Symbol(x2)] + rest, FRESH)
        == Before([b0, b1], Read(rest, Reader(3, x2 % 4, 0)))
  {
    var tail := [Symbol(x2)] + rest;
    ReadThird(x1, x2, b1, rest);
    ReadPair(x0, x1, tail);
    assert [b0] + [b1] == [b0, b1];
    BeforeTwice([b0], [b1], Read(rest, Reader(3, x2 % 4, 0)));
    Rejoin(Symbol(x0), Symbol(x1), Symbol(x2), rest);
  }

  lemma Rejoin(c0: char, c1: char, c2: char, rest: string)
    ensures [c0, c1, c2] + rest == [c0, c1] + ([c2] + rest)
  {
  }

  lemma ReadThird(x1: Sextet, x2: Sextet, b1: Byte, rest: string)
    requires b1 == x1 % 16 * 16 + x2 / 4
    ensures Read([Symbol(x2)] + rest, Reader(2, x1 % 16, 0)) == Before([b1], Read(rest, Reader(3, x2 % 4, 0)))
  {
    ReadSymbol(x2, rest, Reader(2, x1 % 16, 0));
  }

  lemma ReadQuad(x0: Sextet, x1: Sextet, x2: Sextet, x3: Sextet, b0: Byte, b1: Byte, b2: Byte, rest: string)
    requires b0 == x0 * 4 + x1 / 16 && b1 == x1 % 16 * 16 + x2 / 4 && b2 == x2 % 4 * 64 + x3
    ensures Read([Symbol(x0), Symbol(x1), Symbol(x2), Symbol(x3)] + rest, FRESH)
        == Before([b0, b1, b2], Read(rest, FRESH))
  {
    ReadSymbol(x3, rest, Reader(3, x2 % 4, 0));
    ReadTriple(x0, x1, x2, b0, b1, [Symbol(x3)] + rest);
    assert [b0, b1] + [b2] == [b0, b1, b2];
    BeforeTwice([b0, b1], [b2], Read(rest, FRESH));
    assert [Symbol(x0), Symbol(x1), Symbol(x2), Symbol(x3)] + rest
        == [Symbol(x0), Symbol(x1), Symbol(x2)] + ([Symbol(x3)] + rest);
  }

  /** Cutting three bytes into four sextets and joining them again. */
  lemma Regroup(b0: Byte, b1: Byte, b2: Byte)
    ensures var x1, x2 := b0 % 4 * 16 + b1 / 16, b1 % 16 * 4 + b2 / 64;
      b0 / 4 * 4 + x1 / 16 == b0 && x1 % 16 * 16 + x2 / 4 == b1 && x2 % 4 * 64 + b2 % 64 == b2
  {
  }

  lemma ReadPadding(left: int)
    requires 0 <= left < 4
    ensures Read("=", Reader(3, left, 0)) == Some([]) && Read("==", Reader(2, left, 0)) == Some([])
  {
    assert "=="[1..] == "=";
    assert Read("=", Reader(2, left, 1)) == Some([]);
  }

  lemma {:induction false} EncodedAscii(bytes: seq<Byte>)
    ensures forall i :: 0 <= i < |Encode(bytes)| ==> Encode(bytes)[i] < 128 as char && Encode(bytes)[i] != '='
  {
    forall x: Sextet ensures Symbol(x) < 128 as char && Symbol(x) != '=' { SymbolRead(x); }
    if |bytes| > 2 { EncodedAscii(bytes[3..]); }
  }

  lemma ReadGroup1(b0: Byte)
    ensures Read(Group1(b0) + "==", FRESH) == Some([b0])
  {
    Regroup(b0, 0, 0);
    ReadPadding(0);
    ReadPair(b0 / 4, b0 % 4 * 16, "==");
    assert [b0] + [] == [b0];
  }

  lemma ReadGroup2(b0: Byte, b1: Byte)
    ensures Read(Group2(b0, b1) + "=", FRESH) == Some([b0, b1])
  {
    Regroup(b0, b1, 0);
    ReadPadding(0);
    ReadTriple(b0 / 4, b0 % 4 * 16 + b1 / 16, b1 % 16 * 4, b0, b1, "=");
    assert [b0, b1] + [] == [b0, b1];
  }

  lemma ReadGroup3(b0: Byte, b1: Byte, b2: Byte, rest: string)
    ensures Read(Group3(b0, b1, b2) + rest, FRESH) == Before([b0, b1, b2], Read(rest, FRESH))
  {
    Regroup(b0, b1, b2);
    ReadQuad(b0 / 4, b0 % 4 * 16 + b1 / 16, b1 % 16 * 4 + b2 / 64, b2 % 64, b0, b1, b2, rest);
  }

  lemma PaddedGroups(b0: Byte, b1: Byte)
    ensures Padded(Group1(b0)) == Group1(b0) + "==" && Padded(Group2(b0, b1)) == Group2(b0, b1) + "="
  {
    assert Padding(2) == "==" && Padding(1) == "=";
  }

  lemma PaddedLonger(group: string, rest: string)
    requires |group| == 4
    ensures Padded(group + rest) == group + Padded(rest)
  {
  }

  lemma ReadLonger(b0: Byte, b1: Byte, b2: Byte, rest: string, tail: seq<Byte>)
    requires Read(Padded(rest), FRESH) == Some(tail)
    ensures Read(Padded(Group3(b0, b1, b2) + rest), FRESH) == Some([b0, b1, b2] + tail)
  {
    ReadGroup3(b0, b1, b2, Padded(rest));
    PaddedLonger(Group3(b0, b1, b2), rest);
  }

  lemma ReadOneByte(b0: Byte)
    ensures Read(Padded(Group1(b0)), FRESH) == Some([b0])
  {
    ReadGroup1(b0);
    PaddedGroups(b0, 0);
  }

  lemma ReadTwoBytes(b0: Byte, b1: Byte)
    ensures Read(Padded(Group2(b0, b1)), FRESH) == Some([b0, b1])
  {
    ReadGroup2(b0, b1);
    PaddedGroups(b0, b1);
  }

  lemma {:induction false} ReadEncoded(bytes: seq<Byte>)
    ensures Read(Padded(Encode(bytes)), FRESH) == Some(bytes)
  {
    if bytes == [] {
      assert Padding(0) == "";
    } else if |bytes| == 1 {
      assert bytes == [bytes[0]];
      ReadOneByte(bytes[0]);
    } else if |bytes| == 2 {
      assert bytes == [bytes[0], bytes[1]];
      ReadTwoBytes(bytes[0], bytes[1]);
    } else {
      assert bytes == [bytes[0], bytes[1], bytes[2]] + bytes[3..];
      ReadEncoded(bytes[3..]);
      ReadLonger(bytes[0], bytes[1], bytes[2], Encode(bytes[3..]), bytes[3..]);
    }
  }

  /** Decoding undoes encoding, with the stripped padding recomputed from the length. */
  lemma BytesRoundTrip(bytes: seq<Byte>)
    ensures Decode(Encode(bytes)) == Some(bytes)
  {
    EncodedAscii(bytes);
    ReadEncoded(bytes);
  }

  // ---------------------------------------------------------------- decimal text

  function Decimal(n: nat): (s: string)
    ensures s != [] && forall i :: 0 <= i < |s| ==> '0' <= s[i] <= '9'
  {
    (if n < 10 then [] else Decimal(n / 10)) + [DigitChar(n % 10)]
  }

  /** Digits, with single underscores allowed between two of them. */
  function Digits(s: string): Option<nat> {
    if s == [] || !('0' <= s[|s| - 1] <= '9') then None
    else
      var last, front := (s[|s| - 1] - '0') as int, s[..|s| - 1];
      if front == [] then Some(last)
      else
        var high := Digits(if front[|front| - 1] == '_' then front[..|front| - 1] else front);
        if high.None? then None else Some(10 * high.value + last)
  }

  /** `int(text)`: surrounding blanks and one sign are accepted. */
  function ParseInt(text: string): Option<int> {
    var s := Strip(text);
    if s != [] && (s[0] == '-' || s[0] == '+') then
      var n := Digits(s[1..]);
      if n.None? then None else if s[0] == '-' then Some(0 - n.value) else n
    else Digits(s)
  }

  function DigitChar(d: nat): (c: char)
    requires d < 10
    ensures '0' <= c <= '9' && (c - '0') as int == d
  {
    '0' + d as char
  }

  lemma {:induction false} DecimalDigits(n: nat)
    ensures Digits(Decimal(n)) == Some(n)
  {
    if n >= 10 {
      DecimalDigits(n / 10);
      var s, front := Decimal(n), Decimal(n / 10);
      assert s[..|s| - 1] == front && front[|front| - 1] != '_';
      assert Digits(s) == Some(10 * (n / 10) + n % 10);
    }
  }

  /** The number that decimal digits stand for. */
  function Worth(s: string): nat
    requires forall i :: 0 <= i < |s| ==> '0' <= s[i] <= '9'
  {
    if s == [] then 0 else Worth(s[..|s| - 1]) * 10 + (s[|s| - 1] as int - '0' as int)
  }

  /** Printed numbers are their decimal digits, without leading zeros. */
  lemma {:induction false} DecimalIs(n: nat)
    ensures Worth(Decimal(n)) == n && (Decimal(n)[0] == '0' ==> n == 0 && |Decimal(n)| == 1)
  {
    if n >= 10 {
      DecimalIs(n / 10);
      assert Decimal(n)[..|Decimal(n)| - 1] == Decimal(n / 10);
    }
  }

  lemma DecimalParses(n: nat)
    ensures ParseInt(Decimal(n)) == Some(n)
  {
    DecimalDigits(n);
  }

  // ---------------------------------------------------------------- cursors

  datatype CursorError = InvalidCursor

  function Ascii(s: string): seq<Byte>
    requires forall i :: 0 <= i < |s| ==> s[i] < 128 as char
  {
    seq(|s|, i requires 0 <= i < |s| => s[i] as int)
  }

  function Text(bytes: seq<Byte>): string
    requires forall i :: 0 <= i < |bytes| ==> bytes[i] < 128
  {
    seq(|bytes|, i requires 0 <= i < |bytes| => bytes[i] as char)
  }

  function EncodeCursor(rowId: nat): string {
    Encode(Ascii(Decimal(rowId)))
  }

  function DecodeCursor(cursor: string): (value: Result<int, CursorError>)
    ensures value.Ok? ==> value.value >= 1
  {
    var bytes := Decode(cursor);
    if bytes.None? || exists i :: 0 <= i < |bytes.value| && bytes.value[i] >= 128 then Raised(InvalidCursor)
    else
      var n := ParseInt(Text(bytes.value));
      if n.None? || n.value < 1 then Raised(InvalidCursor) else Ok(n.value)
  }

  /** A printed cursor reads back as its row id exactly when the id is at least one; only zero is refused. */
  lemma CursorRoundTrip(rowId: nat)
    ensures DecodeCursor(EncodeCursor(rowId)) == if rowId >= 1 then Ok(rowId) else Raised(InvalidCursor)
  {
    var text := Decimal(rowId);
    BytesRoundTrip(Ascii(text));
    assert Text(Ascii(text)) == text;
    DecimalParses(rowId);
  }

  /** Cursors of different rows differ. */
  lemma CursorInjective(a: nat, b: nat)
    requires a >= 1 && b >= 1 && EncodeCursor(a) == EncodeCursor(b)
    ensures a == b
  {
    CursorRoundTrip(a);
    CursorRoundTrip(b);
  }
}
