/** `base32Decode` (`frontend/e2e/fixtures.ts`): a 32-bit accumulator that is shifted and
    never masked, against the encoding of section 6 of RFC 4648. */
module Base32 {
  import opened Wrappers
  import opened BitWindows

  const ALPHABET := "ABCDEFGHIJKLMNOPQRSTUVWXYZ234567"

  // ---- the decoder --------------------------------------------------------------------------

  /** Where the character stands in the alphabet, or -1. */
  function SymbolIndex(c: char): (i: int)
    ensures -1 <= i < 32
  {
    if 'A' <= c <= 'Z' then (c - 'A') as int
    else if '2' <= c <= '7' then (c - '2') as int + 26
    else -1
  }

  lemma IndexIsPosition(c: char)
    requires SymbolIndex(c) >= 0
    ensures ALPHABET[SymbolIndex(c)] == c
  {}

  lemma NoPosition(c: char)
    requires SymbolIndex(c) == -1
    ensures c !in ALPHABET
  {}

  /** The arithmetic is `indexOf` on the alphabet: the one place of each of its characters,
      and -1 for exactly the others. */
  lemma SymbolIndexIsIndexOf(c: char, n: nat)
    ensures SymbolIndex(c) == -1 <==> c !in ALPHABET
    ensures n < 32 ==> (ALPHABET[n] == c <==> SymbolIndex(c) == n)
  {
    if SymbolIndex(c) == -1 {
      NoPosition(c);
    } else {
      IndexIsPosition(c);
    }
    if n < 32 {
      SymbolAtIsAlphabet(n);
    }
  }

  predicate IsSymbol(c: char) {
    SymbolIndex(c) != -1
  }

  predicate AllSymbols(s: string) {
    forall i :: 0 <= i < |s| ==> IsSymbol(s[i])
  }

  function ToUpper(c: char): char {
    if 'a' <= c <= 'z' then c - 'a' + 'A' else c
  }

  function UpperCase(s: string): (r: string)
    ensures |r| == |s| && forall i :: 0 <= i < |s| ==> r[i] == ToUpper(s[i])
  {
    seq(|s|, i requires 0 <= i < |s| => ToUpper(s[i]))
  }

  function WithoutTrailing(s: string, c: char): (r: string)
    ensures r <= s && (r != "" ==> r[|r| - 1] != c)
    ensures forall i :: |r| <= i < |s| ==> s[i] == c
  {
    if s != "" && s[|s| - 1] == c then WithoutTrailing(s[..|s| - 1], c) else s
  }

  /** What is decoded: the secret in upper case without its padding. */
  function Symbols(input: string): string {
    WithoutTrailing(UpperCase(input), '=')
  }

  method Base32Decode(input: string) returns (r: Result<seq<Byte>, char>)
    ensures r == Decoded(Symbols(input))
  {
    var chars := Symbols(input);
    var bits := 0;
    var value: bv32 := 0;
    var out: seq<Byte> := [];
    for n := 0 to |chars|
      invariant 0 <= bits < 8
      invariant Consumed(chars, n, out, value, bits)
    {
      var index := SymbolIndex(chars[n]);
      if index == -1 {
        FirstForeign(chars, n);
        return Failure(chars[n]);
      }
      var next := ShiftIn(value, bits, index);
      SymbolConsumed(chars, n, out, value, bits, next);
      value, bits := next, bits + 5;
      if bits >= 8 {
        var byte := ShiftOut(value, bits);
        ByteProduced(chars, n + 1, out, value, bits, byte);
        out := out + [byte];
        bits := bits - 8;
      }
    }
    AllConsumed(chars, out, value, bits);
    return Success(out);
  }

  /** The first n characters have become the bytes put out and the low bits still held. */
  ghost predicate Consumed(chars: string, n: nat, out: seq<Byte>, value: bv32, bits: nat) {
    n <= |chars| && AllSymbols(chars[..n]) && Stream(chars[..n]) == ByteStream(out) + Low(value, bits)
  }

  lemma SymbolConsumed(chars: string, n: nat, out: seq<Byte>, value: bv32, bits: nat, next: bv32)
    requires Consumed(chars, n, out, value, bits) && n < |chars| && IsSymbol(chars[n])
    requires Low(next, bits + 5) == Low(value, bits) + Digits(SymbolIndex(chars[n]), 5)
    ensures Consumed(chars, n + 1, out, next, bits + 5)
  {
    assert chars[..n + 1] == chars[..n] + [chars[n]];
    StreamGrows(chars[..n], chars[n]);
    Regrouped(ByteStream(out), Low(value, bits), Digits(SymbolIndex(chars[n]), 5));
  }

  lemma ByteProduced(chars: string, n: nat, out: seq<Byte>, value: bv32, bits: nat, byte: Byte)
    requires Consumed(chars, n, out, value, bits) && bits >= 8
    requires Low(value, bits) == Digits(byte, 8) + Low(value, bits - 8)
    ensures Consumed(chars, n, out + [byte], value, bits - 8)
  {
    ByteStreamGrows(out, byte);
    Regrouped(ByteStream(out), Digits(byte, 8), Low(value, bits - 8));
  }

  lemma AllConsumed(chars: string, out: seq<Byte>, value: bv32, bits: nat)
    requires Consumed(chars, |chars|, out, value, bits) && bits < 8
    ensures Decoded(chars) == Success(out)
  {
    assert chars[..|chars|] == chars;
    BytesUndoStream(out, Low(value, bits));
  }

  // ---- the reference: a stream of bits -------------------------------------------------------

  /** The symbols' five-bit groups, first symbol first, most significant bit first. */
  function Stream(symbols: string): (r: seq<bool>)
    requires AllSymbols(symbols)
    ensures |r| == 5 * |symbols|
  {
    if symbols == "" then [] else Digits(SymbolIndex(symbols[0]), 5) + Stream(symbols[1..])
  }

  function ByteStream(bytes: seq<Byte>): (r: seq<bool>)
    ensures |r| == 8 * |bytes|
  {
    if bytes == [] then [] else Digits(bytes[0], 8) + ByteStream(bytes[1..])
  }

  /** Whole bytes of a bit string; what does not fill a byte is dropped. */
  function Bytes(bits: seq<bool>): (r: seq<Byte>)
    ensures |r| == |bits| / 8
  {
    if |bits| < 8 then []
    else
      DigitsOfNumber(bits[..8]);
      SmallPowers();
      [NumberOf(bits[..8])] + Bytes(bits[8..])
  }

  /** The first character outside the alphabet. */
  function Foreign(symbols: string): (r: Option<char>)
    ensures r.None? <==> AllSymbols(symbols)
  {
    if symbols == "" then None
    else if !IsSymbol(symbols[0]) then Some(symbols[0])
    else
      assert AllSymbols(symbols[1..]) <==> AllSymbols(symbols) by {
        assert forall i :: 1 <= i < |symbols| ==> symbols[i] == symbols[1..][i - 1];
      }
      Foreign(symbols[1..])
  }

  function Decoded(symbols: string): (r: Result<seq<Byte>, char>)
    ensures r.Success? ==> |r.value| == 5 * |symbols| / 8
  {
    var foreign := Foreign(symbols);
    if foreign.Some? then Failure(foreign.value) else Success(Bytes(Stream(symbols)))
  }

  // ---- streams ---------------------------------------------------------------------------------

  lemma {:induction false} StreamGrows(symbols: string, c: char)
    requires AllSymbols(symbols) && IsSymbol(c)
    ensures AllSymbols(symbols + [c])
    ensures Stream(symbols + [c]) == Stream(symbols) + Digits(SymbolIndex(c), 5)
  {
    if symbols != "" {
      assert (symbols + [c])[1..] == symbols[1..] + [c];
      StreamGrows(symbols[1..], c);
    }
  }

  lemma {:induction false} ByteStreamGrows(bytes: seq<Byte>, b: Byte)
    ensures ByteStream(bytes + [b]) == ByteStream(bytes) + Digits(b, 8)
  {
    if bytes != [] {
      assert (bytes + [b])[1..] == bytes[1..] + [b];
      ByteStreamGrows(bytes[1..], b);
    }
  }

  lemma FirstByte(eight: seq<bool>, rest: seq<bool>)
    requires |eight| == 8
    ensures NumberOf(eight) < 256 && Bytes(eight + rest) == [NumberOf(eight)] + Bytes(rest)
  {
    DigitsOfNumber(eight);
    SmallPowers();
    assert (eight + rest)[..8] == eight && (eight + rest)[8..] == rest;
  }

  lemma {:induction false} BytesUndoStream(bytes: seq<Byte>, rest: seq<bool>)
    requires |rest| < 8
    ensures Bytes(ByteStream(bytes) + rest) == bytes
  {
    if bytes != [] {
      var first, tail := Digits(bytes[0], 8), ByteStream(bytes[1..]) + rest;
      assert ByteStream(bytes) + rest == first + tail;
      FirstByte(first, tail);
      SmallPowers();
      NumberOfDigits(bytes[0], 8);
      BytesUndoStream(bytes[1..], rest);
    }
  }

  lemma {:induction false} FirstForeign(symbols: string, n: nat)
    requires n < |symbols| && !IsSymbol(symbols[n]) && AllSymbols(symbols[..n])
    ensures Foreign(symbols) == Some(symbols[n])
  {
    if n > 0 {
      assert symbols[0] == symbols[..n][0];
      assert symbols[1..][..n - 1] == symbols[..n][1..];
      FirstForeign(symbols[1..], n - 1);
    }
  }

  // ---- the encoding ----------------------------------------------------------------------------

  function Zeros(n: nat): (r: seq<bool>)
    ensures |r| == n
  {
    seq(n, _ => false)
  }

  /** The character at a place of the alphabet. */
  function SymbolAt(n: nat): (c: char)
    requires n < 32
    ensures SymbolIndex(c) == n
  {
    if n < 26 then 'A' + n as char else '2' + (n - 26) as char
  }

  lemma SymbolAtIsAlphabet(n: nat)
    requires n < 32
    ensures SymbolAt(n) == ALPHABET[n]
  {
    IndexIsPosition(SymbolAt(n));
  }

  /** The character standing for five bits. */
  function Symbol(five: seq<bool>): (c: char)
    requires |five| == 5
    ensures IsSymbol(c) && Digits(SymbolIndex(c), 5) == five
  {
    DigitsOfNumber(five);
    SmallPowers();
    SymbolAt(NumberOf(five))
  }

  /** Five bits a symbol, the last group filled up with zeros. */
  function Encoded(bits: seq<bool>): (r: string)
    ensures AllSymbols(r) && |r| == (|bits| + 4) / 5
  {
    if bits == [] then ""
    else if |bits| < 5 then [Symbol(bits + Zeros(5 - |bits|))]
    else [Symbol(bits[..5])] + Encoded(bits[5..])
  }

  function Base32Encode(bytes: seq<Byte>): string {
    Encoded(ByteStream(bytes))
  }

  function Signs(n: nat): (r: string)
    ensures |r| == n
  {
    seq(n, _ => '=')
  }

  lemma StreamStarts(c: char, symbols: string)
    requires IsSymbol(c) && AllSymbols(symbols)
    ensures Stream([c] + symbols) == Digits(SymbolIndex(c), 5) + Stream(symbols)
  {
    assert ([c] + symbols)[1..] == symbols;
  }

  lemma LastSymbol(bits: seq<bool>)
    requires 0 < |bits| < 5
    ensures Stream(Encoded(bits)) == bits + Zeros(5 - |bits|)
  {
    var filled := bits + Zeros(5 - |bits|);
    StreamStarts(Symbol(filled), "");
    assert [Symbol(filled)] + "" == Encoded(bits);
    assert filled + [] == filled;
  }

  lemma {:induction false} StreamOfEncoded(bits: seq<bool>) returns (k: nat)
    ensures k < 5 && Stream(Encoded(bits)) == bits + Zeros(k)
    decreases |bits|
  {
    if bits == [] {
      k := 0;
    } else if |bits| < 5 {
      k := 5 - |bits|;
      LastSymbol(bits);
    } else {
      var first, rest := bits[..5], bits[5..];
      k := StreamOfEncoded(rest);
      StreamStarts(Symbol(first), Encoded(rest));
      Regrouped(first, rest, Zeros(k));
      assert first + rest == bits;
    }
  }

  /** Decoding what section 6 of RFC 4648 makes of any bytes gives the bytes back. */
  lemma DecodedEncoding(bytes: seq<Byte>)
    ensures Decoded(Base32Encode(bytes)) == Success(bytes)
  {
    var k := StreamOfEncoded(ByteStream(bytes));
    BytesUndoStream(bytes, Zeros(k));
  }

  lemma {:induction false} StripsOnlyPadding(s: string, n: nat)
    requires AllSymbols(s)
    ensures WithoutTrailing(s + Signs(n), '=') == s
  {
    var padded := s + Signs(n);
    if n > 0 {
      assert padded[..|padded| - 1] == s + Signs(n - 1);
      StripsOnlyPadding(s, n - 1);
    } else {
      assert padded == s;
    }
  }

  lemma Unpadded(bytes: seq<Byte>, text: string, n: nat)
    requires UpperCase(text) == Base32Encode(bytes)
    ensures Symbols(text + Signs(n)) == Base32Encode(bytes)
  {
    assert UpperCase(text + Signs(n)) == Base32Encode(bytes) + Signs(n);
    StripsOnlyPadding(Base32Encode(bytes), n);
  }

  const SMALL := "abcdefghijklmnopqrstuvwxyz"

  /** The code with any of its letters written small. */
  ghost predicate Written(text: string, code: string) {
    |text| == |code| && forall i :: 0 <= i < |code| ==> text[i] == code[i] || SmallFor(text[i], code[i])
  }

  ghost predicate SmallFor(small: char, large: char) {
    exists n: nat :: n < 26 && small == SMALL[n] && large == ALPHABET[n]
  }

  /** Upper-casing changes exactly the 26 small letters, each into its large one. */
  lemma ToUpperExactly(c: char, n: nat)
    ensures n < 26 ==> ToUpper(SMALL[n]) == ALPHABET[n]
    ensures c !in SMALL ==> ToUpper(c) == c
  {
    if 'a' <= c <= 'z' {
      assert SMALL[(c - 'a') as nat] == c;
    }
  }

  lemma WrittenIsUpperCased(text: string, code: string)
    requires AllSymbols(code) && Written(text, code)
    ensures UpperCase(text) == code
  {
    forall i | 0 <= i < |code| ensures ToUpper(text[i]) == code[i] {
      assert IsSymbol(code[i]);
      if n: nat :| n < 26 && text[i] == SMALL[n] && code[i] == ALPHABET[n] {
        ToUpperExactly(text[i], n);
      }
    }
  }

  /** In whatever case the secret is written, without padding, padded to whole groups of
      eight characters, or with any other number of trailing signs. */
  lemma RoundTrip(bytes: seq<Byte>, text: string, n: nat)
    requires Written(text, Base32Encode(bytes))
    ensures Decoded(Symbols(text)) == Success(bytes)
    ensures Decoded(Symbols(text + Signs((8 - |text| % 8) % 8))) == Success(bytes)
    ensures Decoded(Symbols(text + Signs(n))) == Success(bytes)
  {
    WrittenIsUpperCased(text, Base32Encode(bytes));
    DecodedEncoding(bytes);
    assert text + Signs(0) == text;
    Unpadded(bytes, text, 0);
    Unpadded(bytes, text, (8 - |text| % 8) % 8);
    Unpadded(bytes, text, n);
  }
}
