/** Standard base64 (section 4 of RFC 4648): the encoder both sides share, and the two
    decoders, which differ on line breaks, alphabets and left-over bits. Go strings and byte
    slices are both sequences of bytes. */
module Base64 {
  import opened Options

  type byte = b: int | 0 <= b < 256
  type sextet = v: int | 0 <= v < 64
  type Bytes = seq<byte>

  const PAD: byte := 61
  const LF: byte := 10
  const CR: byte := 13

  function Symbol(v: sextet): byte {
    if v < 26 then 65 + v
    else if v < 52 then 71 + v
    else if v < 62 then v - 4
    else if v == 62 then 43
    else 47
  }

  /** The value of a symbol; `urlToo` also admits the URL-safe '-' and '_'. */
  function Value(c: byte, urlToo: bool): Option<sextet> {
    if 65 <= c < 91 then Some(c - 65)
    else if 97 <= c < 123 then Some(c - 71)
    else if 48 <= c < 58 then Some(c + 4)
    else if c == 43 || (urlToo && c == 45) then Some(62)
    else if c == 47 || (urlToo && c == 95) then Some(63)
    else None
  }

  function FirstSextet(x: byte): sextet {
    x / 4
  }

  function SecondSextet(x: byte, y: byte): sextet {
    x % 4 * 16 + y / 16
  }

  function ThirdSextet(y: byte, z: byte): sextet {
    y % 16 * 4 + z / 64
  }

  function FourthSextet(z: byte): sextet {
    z % 64
  }

  /** One to three bytes as four symbols, padded at the end. */
  function EncodeQuantum(b: Bytes): (q: Bytes)
    requires 1 <= |b| <= 3
    ensures |q| == 4
  {
    var first := Symbol(FirstSextet(b[0]));
    if |b| == 1 then [first, Symbol(SecondSextet(b[0], 0)), PAD, PAD]
    else
      var second := Symbol(SecondSextet(b[0], b[1]));
      if |b| == 2 then [first, second, Symbol(ThirdSextet(b[1], 0)), PAD]
      else [first, second, Symbol(ThirdSextet(b[1], b[2])), Symbol(FourthSextet(b[2]))]
  }

  function Encode(data: Bytes): Bytes {
    if data == [] then []
    else if |data| <= 3 then EncodeQuantum(data)
    else EncodeQuantum(data[..3]) + Encode(data[3..])
  }

  function FirstByte(p: sextet, q: sextet): byte {
    p * 4 + q / 16
  }

  function SecondByte(q: sextet, r: sextet): byte {
    q % 16 * 16 + r / 4
  }

  function ThirdByte(r: sextet, s: sextet): byte {
    r % 4 * 64 + s
  }

  /** The four symbols of one quantum; padding may only end the text. With `strict`, bits that
      padding leaves over must be zero. */
  function DecodeQuantum(q: Bytes, last: bool, urlToo: bool, strict: bool): Option<Bytes>
    requires |q| == 4
  {
    match (Value(q[0], urlToo), Value(q[1], urlToo))
    case (Some(a), Some(b)) =>
      if q[2] == PAD && q[3] == PAD then
        if last && (strict ==> b % 16 == 0) then Some([FirstByte(a, b)]) else None
      else (
        match Value(q[2], urlToo)
        case None => None
        case Some(c) =>
          if q[3] == PAD then
            if last && (strict ==> c % 4 == 0) then Some([FirstByte(a, b), SecondByte(b, c)]) else None
          else
            match Value(q[3], urlToo)
            case None => None
            case Some(d) => Some([FirstByte(a, b), SecondByte(b, c), ThirdByte(c, d)]))
    case _ => None
  }

  function Decode(text: Bytes, urlToo: bool, strict: bool): Option<Bytes> {
    if text == [] then Some([])
    else if |text| < 4 then None
    else
      match (DecodeQuantum(text[..4], |text| == 4, urlToo, strict), Decode(text[4..], urlToo, strict))
      case (Some(head), Some(tail)) => Some(head + tail)
      case _ => None
  }

  function WithoutLineBreaks(text: Bytes): Bytes {
    if text == [] then []
    else if text[0] == CR || text[0] == LF then WithoutLineBreaks(text[1..])
    else [text[0]] + WithoutLineBreaks(text[1..])
  }

  /** Go's StdEncoding.DecodeString skips line breaks and ignores left-over bits. */
  function GoDecode(text: Bytes): Option<Bytes> {
    Decode(WithoutLineBreaks(text), false, false)
  }

  /** Dart's base64Decode reads both alphabets, takes no line break and checks left-over bits. */
  function DartDecode(text: Bytes): Option<Bytes> {
    Decode(text, true, true)
  }

  lemma SymbolValue(v: sextet, urlToo: bool)
    ensures Value(Symbol(v), urlToo) == Some(v) && Symbol(v) != PAD && Symbol(v) != CR && Symbol(v) != LF
  {
  }

  lemma ValueSymbol(c: byte)
    ensures Value(c, false).Some? ==> Symbol(Value(c, false).value) == c && c != PAD
  {
  }

  /** Cutting three bytes into four sextets loses nothing. */
  lemma SextetsRebuildBytes(x: byte, y: byte, z: byte)
    ensures
      var q, r := SecondSextet(x, y), ThirdSextet(y, z);
      FirstByte(FirstSextet(x), q) == x && SecondByte(q, r) == y && ThirdByte(r, FourthSextet(z)) == z
    ensures SecondSextet(x, 0) % 16 == 0 && ThirdSextet(y, 0) % 4 == 0
  {
  }

  /** Symbols decode to their values, with padding in either place it may stand. */
  lemma SymbolsDecode(p: sextet, q: sextet, r: sextet, s: sextet, last: bool, urlToo: bool, strict: bool)
    ensures DecodeQuantum([Symbol(p), Symbol(q), Symbol(r), Symbol(s)], last, urlToo, strict)
         == Some([FirstByte(p, q), SecondByte(q, r), ThirdByte(r, s)])
    ensures last && r % 4 == 0 ==>
      DecodeQuantum([Symbol(p), Symbol(q), Symbol(r), PAD], last, urlToo, strict)
      == Some([FirstByte(p, q), SecondByte(q, r)])
    ensures last && q % 16 == 0 ==>
      DecodeQuantum([Symbol(p), Symbol(q), PAD, PAD], last, urlToo, strict) == Some([FirstByte(p, q)])
  {
    hide Symbol, Value, FirstByte, SecondByte, ThirdByte;
    SymbolValue(p, urlToo);
    SymbolValue(q, urlToo);
    SymbolValue(r, urlToo);
    SymbolValue(s, urlToo);
  }

  lemma QuantumRoundTrip(b: Bytes, last: bool, urlToo: bool, strict: bool)
    requires 1 <= |b| <= 3 && (|b| < 3 ==> last)
    ensures DecodeQuantum(EncodeQuantum(b), last, urlToo, strict) == Some(b)
  {
    hide Symbol, DecodeQuantum, FirstByte, SecondByte, ThirdByte;
    hide FirstSextet, SecondSextet, ThirdSextet, FourthSextet;
    var x, y, z := b[0], if |b| > 1 then b[1] else 0, if |b| > 2 then b[2] else 0;
    SextetsRebuildBytes(x, y, z);
    SymbolsDecode(FirstSextet(x), SecondSextet(x, y), ThirdSextet(y, z), FourthSextet(z), last, urlToo, strict);
    if |b| == 1 {
      assert b == [x];
    } else if |b| == 2 {
      assert b == [x, y];
    } else {
      assert b == [x, y, z];
    }
  }

  /** Cutting the bytes again gives the sextets back, when what padding leaves over is zero. */
  lemma BytesRebuildSextets(p: sextet, q: sextet, r: sextet, s: sextet)
    ensures
      var x, y, z := FirstByte(p, q), SecondByte(q, r), ThirdByte(r, s);
      && FirstSextet(x) == p && SecondSextet(x, y) == q && ThirdSextet(y, z) == r && FourthSextet(z) == s
      && (q % 16 == 0 ==> SecondSextet(x, 0) == q)
      && (r % 4 == 0 ==> ThirdSextet(y, 0) == r)
  {
  }

  lemma QuantumIsCanonical(q: Bytes, last: bool)
    requires |q| == 4 && DecodeQuantum(q, last, false, true).Some?
    ensures
      var b := DecodeQuantum(q, last, false, true).value;
      1 <= |b| <= 3 && EncodeQuantum(b) == q && (|b| < 3 ==> last)
  {
    hide Symbol, Value, FirstByte, SecondByte, ThirdByte, FirstSextet, SecondSextet, ThirdSextet, FourthSextet;
    ValueSymbol(q[0]);
    ValueSymbol(q[1]);
    ValueSymbol(q[2]);
    ValueSymbol(q[3]);
    var first, second := Value(q[0], false).value, Value(q[1], false).value;
    if q[2] == PAD {
      BytesRebuildSextets(first, second, 0, 0);
      assert q == [q[0], q[1], PAD, PAD];
    } else {
      var third := Value(q[2], false).value;
      if q[3] == PAD {
        BytesRebuildSextets(first, second, third, 0);
        assert q == [q[0], q[1], q[2], PAD];
      } else {
        BytesRebuildSextets(first, second, third, Value(q[3], false).value);
        assert q == [q[0], q[1], q[2], q[3]];
      }
    }
  }

  // ----- The encoding of section 4 of RFC 4648 -----

  /** The alphabet: A to Z, a to z, 0 to 9, plus and slash; the padding is the equals sign. */
  lemma Alphabet(v: sextet)
    ensures Symbol(v) ==
            if v < 26 then 'A' as int + v
            else if v < 52 then 'a' as int + v - 26
            else if v < 62 then '0' as int + v - 52
            else if v == 62 then '+' as int
            else '/' as int
    ensures PAD == '=' as int
  {
  }

  /** The bytes read as one number, the first byte highest. */
  function Number(b: Bytes): int {
    if b == [] then 0 else Number(b[..|b| - 1]) * 256 + b[|b| - 1] as int
  }

  /** The same for four sextets. */
  function Join(p: sextet, q: sextet, r: sextet, s: sextet): int {
    p as int * 262144 + q as int * 4096 + r as int * 64 + s as int
  }

  lemma NumberOfFew(b: Bytes)
    requires 1 <= |b| <= 3
    ensures |b| == 1 ==> Number(b) == b[0] as int
    ensures |b| == 2 ==> Number(b) == b[0] as int * 256 + b[1] as int
    ensures |b| == 3 ==> Number(b) == b[0] as int * 65536 + b[1] as int * 256 + b[2] as int
  {
    assert Number([]) == 0;
    assert Number(b[..1]) == b[0] as int;
    if |b| > 1 {
      assert b[..2][..1] == b[..1];
      assert Number(b[..2]) == b[0] as int * 256 + b[1] as int;
    }
    assert b[..|b|] == b;
  }

  lemma SextetBits(x: byte, y: byte, z: byte)
    ensures Join(0, 0, FirstSextet(x), SecondSextet(x, 0)) == x as int * 16
    ensures Join(0, FirstSextet(x), SecondSextet(x, y), ThirdSextet(y, 0)) == (x as int * 256 + y as int) * 4
    ensures Join(FirstSextet(x), SecondSextet(x, y), ThirdSextet(y, z), FourthSextet(z))
         == x as int * 65536 + y as int * 256 + z as int
  {
  }

  /** Four symbols carry the bits of three bytes, the first ones highest. One or two bytes are
      filled up with zero bits, and padded. */
  lemma QuantumBits(b: Bytes) returns (p: sextet, q: sextet, r: sextet, s: sextet)
    requires 1 <= |b| <= 3
    ensures |b| == 1 ==>
      EncodeQuantum(b) == [Symbol(p), Symbol(q), PAD, PAD] && Join(0, 0, p, q) == Number(b) * 16
    ensures |b| == 2 ==>
      EncodeQuantum(b) == [Symbol(p), Symbol(q), Symbol(r), PAD] && Join(0, p, q, r) == Number(b) * 4
    ensures |b| == 3 ==>
      EncodeQuantum(b) == [Symbol(p), Symbol(q), Symbol(r), Symbol(s)] && Join(p, q, r, s) == Number(b)
  {
    hide Symbol, Join, FirstSextet, SecondSextet, ThirdSextet, FourthSextet;
    var x, y, z := b[0], if |b| > 1 then b[1] else 0, if |b| > 2 then b[2] else 0;
    p, q, r, s := FirstSextet(x), SecondSextet(x, y), ThirdSextet(y, z), FourthSextet(z);
    SextetBits(x, y, z);
    NumberOfFew(b);
  }

  /** The data is encoded three bytes at a time. */
  lemma {:induction false} EncodesByThrees(a: Bytes, b: Bytes)
    requires |a| % 3 == 0
    ensures Encode(a + b) == Encode(a) + Encode(b)
    ensures |Encode(a)| == |a| / 3 * 4
  {
    hide EncodeQuantum;
    if a == [] {
      assert a + b == b;
    } else {
      EncodesByThrees(a[3..], b);
      assert (a + b)[..3] == a[..3] && (a + b)[3..] == a[3..] + b;
      FirstThree(a);
      FirstThree(a + b);
    }
  }

  lemma FirstThree(data: Bytes)
    requires |data| >= 3
    ensures Encode(data) == EncodeQuantum(data[..3]) + Encode(data[3..])
  {
    hide EncodeQuantum;
    if |data| == 3 {
      assert data[..3] == data && data[3..] == [];
    }
  }

  /** Every decoder recovers exactly the bytes that were encoded. */
  lemma {:induction false} DecodeUndoesEncode(data: Bytes, urlToo: bool, strict: bool)
    ensures Decode(Encode(data), urlToo, strict) == Some(data)
  {
    hide DecodeQuantum, EncodeQuantum;
    if data != [] {
      var cut := if |data| <= 3 then |data| else 3;
      QuantumRoundTrip(data[..cut], |data| <= 3, urlToo, strict);
      DecodeUndoesEncode(data[cut..], urlToo, strict);
      var e := Encode(data);
      assert data[..cut] + data[cut..] == data;
      assert |data| <= 3 ==> data[..cut] == data && data[cut..] == [];
      assert e == EncodeQuantum(data[..cut]) + Encode(data[cut..]);
      assert e[..4] == EncodeQuantum(data[..cut]) && e[4..] == Encode(data[cut..]);
    }
  }

  /** Over the standard alphabet and with left-over bits checked, what decodes is what Encode
      makes. The two decoders in use are compared with this one below. */
  lemma {:induction false} StrictDecodeIsCanonical(text: Bytes)
    ensures Decode(text, false, true).Some? ==> Encode(Decode(text, false, true).value) == text
  {
    hide DecodeQuantum, EncodeQuantum;
    if |text| >= 4 && Decode(text, false, true).Some? {
      StrictDecodeIsCanonical(text[4..]);
      QuantumIsCanonical(text[..4], |text| == 4);
      var head := DecodeQuantum(text[..4], |text| == 4, false, true).value;
      var tail := Decode(text[4..], false, true).value;
      assert text == text[..4] + text[4..];
      assert |text| == 4 ==> tail == [] && head + tail == head;
      assert |text| > 4 ==> tail != [] && |head| == 3;
      assert |text| > 4 ==> (head + tail)[..3] == head && (head + tail)[3..] == tail;
    }
  }

  /** The standard symbol for a URL-safe one. */
  function Standard(c: byte): byte {
    if c == 45 then 43 else if c == 95 then 47 else c
  }

  function Standardised(text: Bytes): (s: Bytes)
    ensures |s| == |text| && forall i :: 0 <= i < |text| ==> s[i] == Standard(text[i])
  {
    seq(|text|, i requires 0 <= i < |text| => Standard(text[i]))
  }

  lemma StandardQuantum(q: Bytes, last: bool, strict: bool)
    requires |q| == 4
    ensures DecodeQuantum(q, last, true, strict) == DecodeQuantum(Standardised(q), last, false, strict)
  {
    assert forall c: byte :: Value(c, true) == Value(Standard(c), false);
    hide Value, FirstByte, SecondByte, ThirdByte;
  }

  lemma {:induction false} UrlAlphabetIsAnAlias(text: Bytes, strict: bool)
    ensures Decode(text, true, strict) == Decode(Standardised(text), false, strict)
  {
    hide DecodeQuantum;
    if |text| >= 4 {
      UrlAlphabetIsAnAlias(text[4..], strict);
      StandardQuantum(text[..4], |text| == 4, strict);
      var s := Standardised(text);
      assert s[..4] == Standardised(text[..4]) && s[4..] == Standardised(text[4..]);
    }
  }

  /** Exactly what Dart accepts: canonical base64, in either alphabet. */
  lemma DartDecodesIff(text: Bytes, data: Bytes)
    ensures DartDecode(text) == Some(data) <==> Standardised(text) == Encode(data)
  {
    hide Decode, Encode, Standardised;
    UrlAlphabetIsAnAlias(text, true);
    StrictDecodeIsCanonical(Standardised(text));
    DecodeUndoesEncode(data, false, true);
  }

  /** The symbol with the bits below `unit` cleared; what is no symbol stays. */
  function ClearedSymbol(c: byte, unit: int): byte
    requires unit == 4 || unit == 16
  {
    match Value(c, false)
    case Some(v) => Symbol(v - v % unit)
    case None => c
  }

  /** The quantum with the bits that its padding leaves over cleared. */
  function ClearedQuantum(q: Bytes): (r: Bytes)
    requires |q| == 4
    ensures |r| == 4
  {
    if q[3] != PAD then q
    else if q[2] == PAD then [q[0], ClearedSymbol(q[1], 16), PAD, PAD]
    else [q[0], q[1], ClearedSymbol(q[2], 4), PAD]
  }

  /** The text with the left-over bits of its last quantum cleared. */
  function Cleared(text: Bytes): Bytes {
    if |text| < 4 then text
    else if |text| == 4 then ClearedQuantum(text)
    else text[..4] + Cleared(text[4..])
  }

  lemma ClearedValue(c: byte, unit: int)
    requires unit == 4 || unit == 16
    ensures
      var v, w := Value(c, false), Value(ClearedSymbol(c, unit), false);
      && (v.None? <==> w.None?)
      && (v.Some? ==> w.value == v.value - v.value % unit && ClearedSymbol(c, unit) != PAD)
      && (v.None? ==> ClearedSymbol(c, unit) == c)
  {
    if Value(c, false).Some? {
      var v := Value(c, false).value;
      SymbolValue(v - v % unit, false);
    }
  }

  lemma LeftOverBitsDoNotCount(p: sextet, q: sextet, r: sextet)
    ensures FirstByte(p, q) == FirstByte(p, q - q % 16) && (q - q % 16) % 16 == 0
    ensures SecondByte(q, r) == SecondByte(q, r - r % 4) && (r - r % 4) % 4 == 0
  {
  }

  lemma ClearedQuantumDecodes(q: Bytes)
    requires |q| == 4
    ensures DecodeQuantum(q, true, false, false) == DecodeQuantum(ClearedQuantum(q), true, false, true)
  {
    hide ClearedSymbol, Value, FirstByte, SecondByte, ThirdByte;
    ClearedValue(q[1], 16);
    ClearedValue(q[2], 4);
    PadIsNoSymbol();
    var a, b, c := Value(q[0], false), Value(q[1], false), Value(q[2], false);
    if a.Some? && b.Some? {
      LeftOverBitsDoNotCount(a.value, b.value, if c.Some? then c.value else 0);
    }
  }

  lemma PadIsNoSymbol()
    ensures Value(PAD, false) == None
  {
  }

  lemma UnpaddedQuantum(q: Bytes)
    requires |q| == 4
    ensures DecodeQuantum(q, false, false, false) == DecodeQuantum(q, false, false, true)
  {
  }

  lemma {:induction false} ClearedDecodes(text: Bytes)
    ensures Decode(text, false, false) == Decode(Cleared(text), false, true)
  {
    hide DecodeQuantum, ClearedQuantum;
    if |text| == 4 {
      ClearedQuantumDecodes(text);
      assert text[..4] == text && ClearedQuantum(text)[..4] == ClearedQuantum(text);
    } else if |text| > 4 {
      ClearedDecodes(text[4..]);
      UnpaddedQuantum(text[..4]);
      ClearedLength(text[4..]);
      var c := Cleared(text);
      assert c[..4] == text[..4] && c[4..] == Cleared(text[4..]);
    }
  }

  lemma {:induction false} ClearedLength(text: Bytes)
    ensures |Cleared(text)| == |text|
  {
    if |text| > 4 {
      ClearedLength(text[4..]);
    }
  }

  /** Exactly what Go accepts: base64 with line breaks anywhere, and any bits where padding
      leaves some over. */
  lemma GoDecodesIff(text: Bytes, data: Bytes)
    ensures GoDecode(text) == Some(data) <==> Cleared(WithoutLineBreaks(text)) == Encode(data)
  {
    hide Decode, Encode, Cleared, WithoutLineBreaks;
    ClearedDecodes(WithoutLineBreaks(text));
    StrictDecodeIsCanonical(Cleared(WithoutLineBreaks(text)));
    DecodeUndoesEncode(data, false, true);
  }

  lemma {:induction false} EncodeHasNoLineBreaks(data: Bytes)
    ensures WithoutLineBreaks(Encode(data)) == Encode(data)
  {
    NoBreaksToDrop(Encode(data));
    EncodeSymbols(data);
  }

  lemma {:induction false} EncodeSymbols(data: Bytes)
    ensures forall c :: c in Encode(data) ==> c != CR && c != LF
  {
    if |data| > 3 {
      EncodeSymbols(data[3..]);
    }
  }

  lemma {:induction false} NoBreaksToDrop(text: Bytes)
    ensures (forall c :: c in text ==> c != CR && c != LF) ==> WithoutLineBreaks(text) == text
  {
    if text != [] {
      NoBreaksToDrop(text[1..]);
      assert text[0] in text && forall c :: c in text[1..] ==> c in text;
      assert [text[0]] + text[1..] == text;
    }
  }

  /** Both sides read back what either side encoded. */
  lemma BothDecode(data: Bytes)
    ensures GoDecode(Encode(data)) == Some(data) && DartDecode(Encode(data)) == Some(data)
  {
    EncodeHasNoLineBreaks(data);
    DecodeUndoesEncode(data, false, false);
    DecodeUndoesEncode(data, true, true);
  }
}
