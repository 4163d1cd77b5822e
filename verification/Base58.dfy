/** Base58 as the TRON and Solana packages implement it: big-number loops, leading zeros as leading
    '1's, and an in-place reversal. Each method is proved against `Encode` or `Decode`, which are
    changes of base, and these are mutual inverses. */
module Base58 {
  import opened Common
  import opened Radix

  type byte = b: nat | b < 256

  const ALPHABET: string :=
    "123456789" + "ABCDEFGH" + "JKLMN" + "PQRSTUVWXYZ" + "abcdefghijk" + "mnopqrstuvwxyz"

  /** The alphabet, range by range; it skips 0, I, O and l. */
  function Letter(d: nat): char
    requires d < 58
  {
    if d < 9 then '1' + d as char
    else if d < 17 then 'A' + (d - 9) as char
    else if d < 22 then 'J' + (d - 17) as char
    else if d < 33 then 'P' + (d - 22) as char
    else if d < 44 then 'a' + (d - 33) as char
    else 'm' + (d - 44) as char
  }

  predicate IsLetter(c: char) {
    '1' <= c <= '9' || 'A' <= c <= 'H' || 'J' <= c <= 'N' || 'P' <= c <= 'Z' || 'a' <= c <= 'k' || 'm' <= c <= 'z'
  }

  function DigitOf(c: char): (d: nat)
    requires IsLetter(c)
    ensures d < 58 && Letter(d) == c
  {
    if c <= '9' then (c - '1') as nat
    else if c <= 'H' then 9 + (c - 'A') as nat
    else if c <= 'N' then 17 + (c - 'J') as nat
    else if c <= 'Z' then 22 + (c - 'P') as nat
    else if c <= 'k' then 33 + (c - 'a') as nat
    else 44 + (c - 'm') as nat
  }

  lemma DigitOfLetter(d: nat)
    requires d < 58
    ensures IsLetter(Letter(d)) && DigitOf(Letter(d)) == d
  {
  }

  lemma AlphabetLetters(d: nat)
    requires d < 58
    ensures |ALPHABET| == 58 && ALPHABET[d] == Letter(d)
  {
  }

  /** strings.IndexRune: the first position of `c`, or a negative number. */
  function IndexRune(s: string, c: char): (i: int)
    ensures i < |s|
    ensures i >= 0 ==> s[i] == c
    ensures i < 0 ==> c !in s
  {
    if s == [] then -1
    else if s[0] == c then 0
    else
      var i := IndexRune(s[1..], c);
      if i < 0 then -1 else i + 1
  }

  /** Looking a character up in the alphabet gives its digit, or a negative number off the alphabet. */
  lemma IndexInAlphabet(c: char)
    ensures var i := IndexRune(ALPHABET, c); if IsLetter(c) then i == DigitOf(c) else i < 0
  {
    var i := IndexRune(ALPHABET, c);
    if i >= 0 {
      AlphabetLetters(i);
      DigitOfLetter(i);
    } else if IsLetter(c) {
      AlphabetLetters(DigitOf(c));
      assert false;
    }
  }

  method AlphabetAt(d: nat) returns (c: char)
    requires d < 58
    ensures c == Letter(d)
  {
    AlphabetLetters(d);
    c := ALPHABET[d];
  }

  method AlphabetIndex(c: char) returns (i: int)
    ensures if IsLetter(c) then i == DigitOf(c) else i < 0
  {
    IndexInAlphabet(c);
    i := IndexRune(ALPHABET, c);
  }

  function Letters(ds: seq<nat>): (s: string)
    requires Digits(58, ds)
    ensures |s| == |ds| && forall i :: 0 <= i < |s| ==> s[i] == Letter(ds[i])
  {
    seq(|ds|, i requires 0 <= i < |ds| => Letter(ds[i]))
  }

  predicate InAlphabet(s: string) {
    forall i :: 0 <= i < |s| ==> IsLetter(s[i])
  }

  function Indices(s: string): (ds: seq<nat>)
    requires InAlphabet(s)
    ensures |ds| == |s| && forall i :: 0 <= i < |ds| ==> ds[i] == DigitOf(s[i])
    ensures Digits(58, ds)
  {
    seq(|s|, i requires 0 <= i < |s| => DigitOf(s[i]))
  }

  function Encode(input: seq<byte>): string {
    Letters(Recode(256, 58, input))
  }

  function Decode(input: string): Option<seq<byte>> {
    if InAlphabet(input) then Some(Recode(58, 256, Indices(input))) else None
  }

  lemma LettersThenIndices(ds: seq<nat>)
    requires Digits(58, ds)
    ensures InAlphabet(Letters(ds)) && Indices(Letters(ds)) == ds
  {
    var s := Letters(ds);
    forall i | 0 <= i < |s| ensures IsLetter(s[i]) && DigitOf(s[i]) == ds[i] { DigitOfLetter(ds[i]); }
  }

  lemma IndicesThenLetters(s: string)
    requires InAlphabet(s)
    ensures Letters(Indices(s)) == s
  {
  }

  /** Decoding what was encoded gives the bytes back, whatever zeros they start with. */
  lemma DecodeEncode(input: seq<byte>)
    ensures Decode(Encode(input)) == Some(input)
  {
    LettersThenIndices(Recode(256, 58, input));
    RecodeInverse(256, 58, input);
  }

  /** Encoding what was decoded gives the string back; decoding fails exactly off the alphabet. */
  lemma EncodeDecode(s: string)
    ensures Decode(s).Some? <==> InAlphabet(s)
    ensures Decode(s).Some? ==> Encode(Decode(s).value) == s
  {
    if InAlphabet(s) {
      RecodeInverse(58, 256, Indices(s));
      IndicesThenLetters(s);
    }
  }

  // ----- the loops ------------------------------------------------------------------------------------

  function Reversed<T>(s: seq<T>): (r: seq<T>)
    ensures |r| == |s| && forall i :: 0 <= i < |s| ==> r[i] == s[|s| - 1 - i]
  {
    seq(|s|, i requires 0 <= i < |s| => s[|s| - 1 - i])
  }

  method ReverseInPlace(a: array<char>)
    modifies a
    ensures a[..] == Reversed(old(a[..]))
  {
    var i, j := 0, a.Length - 1;
    while i < j
      invariant 0 <= i && i + j == a.Length - 1
      invariant forall k :: 0 <= k < a.Length ==>
        a[k] == if k < i || k > j then old(a[a.Length - 1 - k]) else old(a[k])
    {
      a[i], a[j] := a[j], a[i];
      i, j := i + 1, j - 1;
    }
  }

  lemma LettersConcat(a: seq<nat>, b: seq<nat>)
    requires Digits(58, a) && Digits(58, b)
    ensures Digits(58, a + b) && Letters(a + b) == Letters(a) + Letters(b)
  {
  }

  lemma LastLetter(x: nat)
    requires x > 0
    ensures x / 58 < x
    ensures Letters(Shortest(58, x)) == Letters(Shortest(58, x / 58)) + [Letter(x % 58)]
  {
    DivShrinks(x, 58);
    LettersConcat(Shortest(58, x / 58), [x % 58]);
    assert Letters([x % 58]) == [Letter(x % 58)];
  }

  lemma ReversedSnoc(s: string, c: char)
    ensures Reversed(s + [c]) == [c] + Reversed(s)
  {
  }

  /** The DivMod loop: letters of the number, least significant first. */
  method AppendDigits(n: nat) returns (encoded: string)
    ensures Reversed(encoded) == Letters(Shortest(58, n))
  {
    var x := n;
    encoded := "";
    while x > 0
      invariant Letters(Shortest(58, n)) == Letters(Shortest(58, x)) + Reversed(encoded)
      decreases x
    {
      LastLetter(x);
      var c := AlphabetAt(x % 58);
      ReversedSnoc(encoded, c);
      encoded := encoded + [c];
      x := x / 58;
    }
  }

  /** One '1' for each leading zero byte. */
  method AppendZeros(input: seq<byte>, digits: string) returns (encoded: string)
    ensures Reversed(encoded) == Letters(Zeros(LeadingZeros(input))) + Reversed(digits)
  {
    encoded := digits;
    var i := 0;
    while i < |input| && input[i] == 0
      invariant 0 <= i <= LeadingZeros(input)
      invariant Reversed(encoded) == Letters(Zeros(i)) + Reversed(digits)
    {
      var c := AlphabetAt(0);
      ReversedSnoc(encoded, c);
      assert Letters(Zeros(i + 1)) == [c] + Letters(Zeros(i));
      encoded := encoded + [c];
      i := i + 1;
    }
  }

  method Base58Encode(input: seq<byte>) returns (s: string)
    ensures s == Encode(input)
  {
    var encoded := AppendDigits(Value(256, input));
    encoded := AppendZeros(input, encoded);
    LettersConcat(Zeros(LeadingZeros(input)), Shortest(58, Value(256, input)));
    var buffer := new char[|encoded|](k requires 0 <= k < |encoded| => encoded[k]);
    assert buffer[..] == encoded;
    ReverseInPlace(buffer);
    s := buffer[..];
  }

  lemma Horner(s: string, i: nat)
    requires i < |s| && InAlphabet(s[..i]) && IsLetter(s[i])
    ensures InAlphabet(s[..i + 1])
    ensures Value(58, Indices(s[..i + 1])) == Value(58, Indices(s[..i])) * 58 + DigitOf(s[i])
  {
    var t := s[..i + 1];
    assert t[..i] == s[..i];
    assert Indices(t)[..i] == Indices(s[..i]);
  }

  /** The Horner loop both decoders share; fails on the first letter off the alphabet. */
  method DecodeNumber(input: string) returns (result: Option<nat>)
    ensures result == if InAlphabet(input) then Some(Value(58, Indices(input))) else None
  {
    var x, i := 0, 0;
    while i < |input|
      invariant 0 <= i <= |input| && InAlphabet(input[..i])
      invariant x == Value(58, Indices(input[..i]))
    {
      var index := AlphabetIndex(input[i]);
      if index < 0 { return None; }
      Horner(input, i);
      x := x * 58 + index;
      i := i + 1;
    }
    assert input[..i] == input;
    result := Some(x);
  }

  /** A '1' is the digit 0, so leading ones are leading zeros. */
  lemma {:induction false} LeadingOnes(s: string, n: nat)
    requires InAlphabet(s) && n <= |s|
    requires forall i :: 0 <= i < n ==> s[i] == '1'
    requires n < |s| ==> s[n] != '1'
    ensures LeadingZeros(Indices(s)) == n
  {
    var ds := Indices(s);
    assert ds == Zeros(n) + ds[n..];
    LeadingZerosOf(n, ds[n..]);
  }

  /** The loop over leading ones. */
  method CountOnes(input: string) returns (n: nat)
    ensures n <= |input| && (forall i :: 0 <= i < n ==> input[i] == '1') && (n < |input| ==> input[n] != '1')
  {
    n := 0;
    var zero := AlphabetAt(0);
    while n < |input| && input[n] == zero
      invariant 0 <= n <= |input|
      invariant forall i :: 0 <= i < n ==> input[i] == '1'
    {
      n := n + 1;
    }
  }

  /** One zero byte in front per leading one. */
  method PrependZeros(n: nat, digits: seq<byte>) returns (result: Option<seq<byte>>)
    ensures result == Some(Zeros(n) + digits)
  {
    var decoded, i := digits, 0;
    while i < n
      invariant 0 <= i <= n && |decoded| == i + |digits|
      invariant forall k :: 0 <= k < i ==> decoded[k] == 0
      invariant forall k :: 0 <= k < |digits| ==> decoded[i + k] == digits[k]
    {
      decoded := [0] + decoded;
      i := i + 1;
    }
    assert decoded == Zeros(n) + digits;
    result := Some(decoded);
  }

  /** base58Decode of the TRON package. */
  method Base58Decode(input: string) returns (result: Option<seq<byte>>)
    ensures result == Decode(input)
  {
    var x := DecodeNumber(input);
    if x.None? { return None; }
    var decoded := Shortest(256, x.value);
    var leadingZeros := CountOnes(input);
    LeadingOnes(input, leadingZeros);
    assert Zeros(0) + decoded == decoded;
    if leadingZeros > 0 {
      decoded := Zeros(leadingZeros) + decoded;
    }
    result := Some(decoded);
  }

  /** decodeBase58 of the Solana package: written differently, decodes the same. */
  method DecodeBase58(value: string) returns (result: Option<seq<byte>>)
    ensures result == Decode(value)
  {
    if value == "" { return Some([]); }
    var x := DecodeNumber(value);
    if x.None? { return None; }
    var n := CountOnes(value);
    result := PrependZeros(n, Shortest(256, x.value));
    LeadingOnes(value, n);
  }
}
