/** Which string a Base58 encoding is, by the value of its digits and the zeros in front. */
module Base58Exact {
  import opened Common
  import opened Radix
  import opened Base58

  // ----- positional notation ----------------------------------------------------------------------------

  /** Reference: each digit times the power of the base for its place. */
  function Places(base: nat, ds: seq<nat>): nat {
    if ds == [] then 0 else ds[0] * Pow(base, |ds| - 1) + Places(base, ds[1..])
  }

  lemma {:induction false} PlacesSnoc(base: nat, ds: seq<nat>, d: nat)
    ensures Places(base, ds + [d]) == Places(base, ds) * base + d
    decreases |ds|
  {
    var all := ds + [d];
    if ds == [] {
      assert all == [d] && all[1..] == [];
    } else {
      assert all[1..] == ds[1..] + [d] && all[0] == ds[0];
      PlacesSnoc(base, ds[1..], d);
      var p, q := Pow(base, |ds| - 1), Places(base, ds[1..]);
      assert Pow(base, |ds|) == base * p;
      Distribute(ds[0], p, q, base);
    }
  }

  lemma Distribute(x: nat, p: nat, q: nat, base: nat)
    ensures x * (base * p) + q * base == (x * p + q) * base
  {
  }

  lemma {:induction false} ValueIsPlaces(base: nat, ds: seq<nat>)
    ensures Value(base, ds) == Places(base, ds)
    decreases |ds|
  {
    if ds != [] {
      var front, d := ds[..|ds| - 1], ds[|ds| - 1];
      ValueIsPlaces(base, front);
      PlacesSnoc(base, front, d);
      assert ds == front + [d];
    }
  }

  lemma RecodeKeeps(a: nat, b: nat, ds: seq<nat>)
    requires a >= 2 && b >= 2
    ensures var r := Recode(a, b, ds); LeadingZeros(r) == LeadingZeros(ds) && Value(b, r) == Value(a, ds)
  {
    var z, tail := LeadingZeros(ds), Shortest(b, Value(a, ds));
    ValueOfShortest(b, Value(a, ds));
    LeadingZerosOf(z, tail);
    ZerosAddNothing(b, z, tail);
  }

  /** Digits are those of their value behind the zeros in front. */
  lemma DigitsOfValue(b: nat, es: seq<nat>)
    requires b >= 2 && Digits(b, es)
    ensures es == Zeros(LeadingZeros(es)) + Shortest(b, Value(b, es))
  {
    var z := LeadingZeros(es);
    var rest := es[z..];
    assert es == Zeros(z) + rest;
    ZerosAddNothing(b, z, rest);
    ShortestOfValue(b, rest);
  }

  /** The change of base is the one sequence of digits with the same value and the same zeros in front. */
  lemma RecodeIff(a: nat, b: nat, ds: seq<nat>, es: seq<nat>)
    requires a >= 2 && b >= 2 && Digits(a, ds)
    ensures es == Recode(a, b, ds) <==>
      Digits(b, es) && LeadingZeros(es) == LeadingZeros(ds) && Value(b, es) == Value(a, ds)
  {
    RecodeKeeps(a, b, ds);
    if Digits(b, es) { DigitsOfValue(b, es); }
  }

  // ----- Base58 -----------------------------------------------------------------------------------------

  /** The alphabet is the digits and letters but 0, I, O and l, in the order of their codes. */
  lemma AlphabetIs()
    ensures |ALPHABET| == 58
    ensures forall i, j :: 0 <= i < j < 58 ==> ALPHABET[i] < ALPHABET[j]
    ensures forall c :: c in ALPHABET <==>
      ('0' <= c <= '9' || 'A' <= c <= 'Z' || 'a' <= c <= 'z') && c !in {'0', 'I', 'O', 'l'}
  {
    forall i, j | 0 <= i < j < 58 ensures ALPHABET[i] < ALPHABET[j] {
      AlphabetLetters(i);
      AlphabetLetters(j);
    }
    forall c ensures c in ALPHABET <==>
      ('0' <= c <= '9' || 'A' <= c <= 'Z' || 'a' <= c <= 'z') && c !in {'0', 'I', 'O', 'l'}
    {
      IndexInAlphabet(c);
    }
  }

  /** The string stands for the bytes: its letters are digits of the number that the bytes are, and it
      starts with as many ones as these start with zeros. */
  ghost predicate Spells(s: string, input: seq<byte>) {
    && InAlphabet(s) && LeadingZeros(Indices(s)) == LeadingZeros(input)
    && Places(58, Indices(s)) == Places(256, input)
  }

  /** Decoding gives the bytes a string stands for, and encoding the string that stands for them. */
  lemma DecodeIff(s: string, input: seq<byte>)
    ensures Decode(s) == Some(input) <==> Spells(s, input)
    ensures Encode(input) == s <==> Spells(s, input)
  {
    if InAlphabet(s) {
      RecodeIff(58, 256, Indices(s), input);
      ValueIsPlaces(58, Indices(s));
      ValueIsPlaces(256, input);
    }
    DecodeEncode(input);
    EncodeDecode(s);
  }
}
