/** TRON address canonicalisation: every accepted spelling of an account is sent to one Base58Check
    string. SHA-256 (section 6.2 of FIPS 180-4) is any function to 32 bytes. */
module TronAddress {
  import opened Common
  import opened Radix
  import opened Base58

  type Digest = d: seq<byte> | |d| == 32 witness seq(32, _ => 0)
  type Sha = seq<byte> -> Digest

  const PREFIX: byte := 0x41

  // ----- strings --------------------------------------------------------------------------------------

  /** unicode.IsSpace. */
  predicate IsSpace(c: char) {
    c == ' ' || '\t' <= c <= '\r' || c == '\U{0085}' || c == '\U{00A0}' || c == '\U{1680}' ||
    '\U{2000}' <= c <= '\U{200A}' || c == '\U{2028}' || c == '\U{2029}' || c == '\U{202F}' ||
    c == '\U{205F}' || c == '\U{3000}'
  }

  function TrimLeft(s: string): string {
    if s != [] && IsSpace(s[0]) then TrimLeft(s[1..]) else s
  }

  function TrimRight(s: string): string {
    if s != [] && IsSpace(s[|s| - 1]) then TrimRight(s[..|s| - 1]) else s
  }

  function TrimSpace(s: string): string {
    TrimRight(TrimLeft(s))
  }

  /** Other characters may have lower-case forms too, but none of those is a hexadecimal digit or x. */
  function LowerChar(c: char): char {
    if 'A' <= c <= 'Z' then c - 'A' + 'a' else c
  }

  function ToLower(s: string): (r: string)
    ensures |r| == |s| && forall i :: 0 <= i < |s| ==> r[i] == LowerChar(s[i])
  {
    seq(|s|, i requires 0 <= i < |s| => LowerChar(s[i]))
  }

  function Trim0x(s: string): string {
    if |s| >= 2 && s[0] == '0' && s[1] == 'x' then s[2..] else s
  }

  predicate IsHexDigit(c: char) {
    '0' <= c <= '9' || 'a' <= c <= 'f' || 'A' <= c <= 'F'
  }

  predicate IsHexString(s: string) {
    s != "" && forall i :: 0 <= i < |s| ==> IsHexDigit(s[i])
  }

  function HexValue(c: char): (v: nat)
    requires IsHexDigit(c)
    ensures v < 16
  {
    if c <= '9' then (c - '0') as nat else if c <= 'F' then 10 + (c - 'A') as nat else 10 + (c - 'a') as nat
  }

  function HexChar(v: nat): (c: char)
    requires v < 16
    ensures '0' <= c <= '9' || 'a' <= c <= 'f'
    ensures HexValue(c) == v
  {
    if v < 10 then '0' + v as char else 'a' + (v - 10) as char
  }

  predicate LowerHex(s: string) {
    forall i :: 0 <= i < |s| ==> '0' <= s[i] <= '9' || 'a' <= s[i] <= 'f'
  }

  /** hex.EncodeToString. */
  function HexEncode(b: seq<byte>): (s: string)
    ensures |s| == 2 * |b| && LowerHex(s)
  {
    if b == [] then "" else [HexChar(b[0] / 16), HexChar(b[0] % 16)] + HexEncode(b[1..])
  }

  /** hex.DecodeString. */
  function HexDecode(s: string): (r: Option<seq<byte>>)
    ensures r.Some? ==> |s| == 2 * |r.value| && forall i :: 0 <= i < |s| ==> IsHexDigit(s[i])
  {
    if s == "" then Some([])
    else if |s| == 1 || !IsHexDigit(s[0]) || !IsHexDigit(s[1]) then None
    else
      var rest := HexDecode(s[2..]);
      if rest.None? then None else Some([HexValue(s[0]) * 16 + HexValue(s[1])] + rest.value)
  }

  // ----- address.go -----------------------------------------------------------------------------------

  function Checksum(sha: Sha, payload: seq<byte>): (c: seq<byte>)
    ensures |c| == 4
  {
    sha(sha(payload))[..4]
  }

  function CheckEncode(sha: Sha, payload: seq<byte>): string {
    Encode(payload + Checksum(sha, payload))
  }

  function CheckDecode(sha: Sha, address: string): Option<seq<byte>> {
    match Decode(address)
    case None => None
    case Some(decoded) =>
      if |decoded| < 5 then None else
        var payload := decoded[..|decoded| - 4];
        if decoded[|decoded| - 4..] == Checksum(sha, payload) then Some(payload) else None
  }

  function AddressToHex41(sha: Sha, address: string): Option<string> {
    var trimmed := TrimSpace(address);
    if trimmed == "" then None else
      var hexAddr := Trim0x(ToLower(trimmed));
      if IsHexString(hexAddr) && |hexAddr| == 40 then Some("41" + hexAddr)
      else if IsHexString(hexAddr) && |hexAddr| == 42 then
        if hexAddr[0] == '4' && hexAddr[1] == '1' then Some(hexAddr) else None
      else
        match CheckDecode(sha, trimmed)
        case None => None
        case Some(payload) => if IsAccount(payload) then Some(HexEncode(payload)) else None
  }

  function HexToBase58Address(sha: Sha, hexAddr: string): Option<string> {
    var h := Trim0x(ToLower(TrimSpace(hexAddr)));
    var h42 := if |h| == 40 then "41" + h else h;
    if |h42| != 42 then None else
      match HexDecode(h42)
      case None => None
      case Some(payload) => if IsAccount(payload) then Some(CheckEncode(sha, payload)) else None
  }

  function TopicToBase58Address(sha: Sha, topic: string): Option<string> {
    var t := Trim0x(ToLower(TrimSpace(topic)));
    if |t| < 40 || !IsHexString(t) then None
    else HexToBase58Address(sha, "41" + t[|t| - 40..])
  }

  function Normalize(sha: Sha, address: string): Option<string> {
    match AddressToHex41(sha, address)
    case None => None
    case Some(hex41) => HexToBase58Address(sha, hex41)
  }

  // ----- what the spellings mean ----------------------------------------------------------------------

  /** The 21 bytes that identify a TRON account. */
  predicate IsAccount(payload: seq<byte>) {
    |payload| == 21 && payload[0] == PREFIX
  }

  /** Hexadecimal, 20 or 21 bytes, either case, with or without 0x, with space around it. */
  predicate HexSpelling(h: string, account: seq<byte>) {
    IsAccount(account) &&
    var digits := Trim0x(ToLower(TrimSpace(h)));
    digits == HexEncode(account) || digits == HexEncode(account[1..])
  }

  /** Base58Check of the 21 bytes, with space around it. */
  predicate Base58Spelling(sha: Sha, s: string, account: seq<byte>) {
    IsAccount(account) && TrimSpace(s) == CheckEncode(sha, account)
  }

  /** Address `s` is a spelling of the account. */
  predicate Denotes(sha: Sha, s: string, account: seq<byte>) {
    HexSpelling(s, account) || Base58Spelling(sha, s, account)
  }

  // ----- hexadecimal ----------------------------------------------------------------------------------

  lemma {:induction false} HexRoundTrip(b: seq<byte>)
    ensures HexDecode(HexEncode(b)) == Some(b)
  {
    if b != [] {
      HexRoundTrip(b[1..]);
      ByteRoundTrip(b[0], b[1..]);
      assert [b[0]] + b[1..] == b;
    }
  }

  lemma ByteRoundTrip(v: byte, tail: seq<byte>)
    requires HexDecode(HexEncode(tail)) == Some(tail)
    ensures HexDecode(HexEncode([v] + tail)) == Some([v] + tail)
  {
    var hi, lo := v / 16, v % 16;
    HexEncodeCons(v, tail);
    HexDecodeCons(HexChar(hi), HexChar(lo), HexEncode(tail));
    assert hi * 16 + lo == v;
  }

  lemma HexDecodeCons(hi: char, lo: char, tail: string)
    requires IsHexDigit(hi) && IsHexDigit(lo) && HexDecode(tail).Some?
    ensures HexDecode([hi, lo] + tail) == Some([HexValue(hi) * 16 + HexValue(lo)] + HexDecode(tail).value)
  {
    assert ([hi, lo] + tail)[2..] == tail;
  }

  /** A lower-case hexadecimal string of even length is the encoding of what it decodes to. */
  lemma {:induction false} HexDecodes(s: string)
    requires |s| % 2 == 0 && LowerHex(s)
    ensures HexDecode(s).Some? && HexEncode(HexDecode(s).value) == s
    decreases |s|
  {
    if s != "" {
      PairFirst(s);
      HexDecodes(s[2..]);
      PairDecodes(s[0], s[1], s[2..]);
    }
  }

  lemma PairFirst(s: string)
    requires |s| % 2 == 0 && LowerHex(s) && s != ""
    ensures |s| >= 2 && s == [s[0], s[1]] + s[2..] && |s[2..]| % 2 == 0 && LowerHex(s[2..])
    ensures '0' <= s[0] <= '9' || 'a' <= s[0] <= 'f'
    ensures '0' <= s[1] <= '9' || 'a' <= s[1] <= 'f'
  {
  }

  lemma PairDecodes(hi: char, lo: char, tail: string)
    requires '0' <= hi <= '9' || 'a' <= hi <= 'f'
    requires '0' <= lo <= '9' || 'a' <= lo <= 'f'
    requires HexDecode(tail).Some? && HexEncode(HexDecode(tail).value) == tail
    ensures var s := [hi, lo] + tail; HexDecode(s).Some? && HexEncode(HexDecode(s).value) == s
  {
    HexPair(hi, lo);
    HexDecodeCons(hi, lo, tail);
    HexEncodeCons(HexValue(hi) * 16 + HexValue(lo), HexDecode(tail).value);
  }

  lemma HexEncodeCons(v: byte, tail: seq<byte>)
    ensures HexEncode([v] + tail) == [HexChar(v / 16), HexChar(v % 16)] + HexEncode(tail)
  {
    assert ([v] + tail)[1..] == tail;
  }

  lemma HexPair(hi: char, lo: char)
    requires '0' <= hi <= '9' || 'a' <= hi <= 'f'
    requires '0' <= lo <= '9' || 'a' <= lo <= 'f'
    ensures IsHexDigit(hi) && IsHexDigit(lo)
    ensures var v := HexValue(hi) * 16 + HexValue(lo); v < 256 && HexChar(v / 16) == hi && HexChar(v % 16) == lo
  {
    var v := HexValue(hi) * 16 + HexValue(lo);
    assert v / 16 == HexValue(hi) && v % 16 == HexValue(lo);
  }

  lemma AccountHex(account: seq<byte>)
    requires IsAccount(account)
    ensures HexEncode(account) == "41" + HexEncode(account[1..])
  {
    assert account[0] / 16 == 4 && account[0] % 16 == 1;
  }

  /** Cleaning leaves a lower-case hexadecimal string alone. */
  lemma CleanHex(s: string)
    requires LowerHex(s)
    ensures Trim0x(ToLower(TrimSpace(s))) == s
    ensures s != "" ==> IsHexString(s)
  {
    assert ToLower(s) == s;
  }

  lemma NoUpper(s: string)
    ensures var d := Trim0x(ToLower(s)); forall i :: 0 <= i < |d| ==> !('A' <= d[i] <= 'Z')
  {
  }

  lemma LowerOf(s: string)
    requires forall i :: 0 <= i < |s| ==> IsHexDigit(s[i]) && !('A' <= s[i] <= 'Z')
    ensures LowerHex(s)
  {
  }

  /** A hexadecimal spelling is read as its account, wherever it comes from. */
  lemma HexSpellingReads(sha: Sha, h: string, account: seq<byte>)
    requires HexSpelling(h, account)
    ensures HexToBase58Address(sha, h) == Some(CheckEncode(sha, account))
  {
    AccountHex(account);
    HexRoundTrip(account);
  }

  /** Only hexadecimal spellings of an account are read as one. */
  lemma HexReadsOnlySpellings(sha: Sha, h: string, r: string)
    requires HexToBase58Address(sha, h) == Some(r)
    ensures exists account :: HexSpelling(h, account) && r == CheckEncode(sha, account)
  {
    var d := Trim0x(ToLower(TrimSpace(h)));
    var h42 := if |d| == 40 then "41" + d else d;
    var account := HexDecode(h42).value;
    NoUpper(TrimSpace(h));
    LowerOf(h42);
    HexDecodes(h42);
    AccountHex(account);
    assert HexSpelling(h, account);
  }

  // ----- Base58Check ----------------------------------------------------------------------------------

  /** The encoding is Base58 of the payload and the first four bytes of its twofold digest. */
  lemma CheckEncodeIs(sha: Sha, payload: seq<byte>)
    ensures Decode(CheckEncode(sha, payload)) == Some(payload + sha(sha(payload))[..4])
  {
    DecodeEncode(payload + Checksum(sha, payload));
  }

  /** Exactly the strings of that form, for a non-empty payload, decode to it. */
  lemma CheckDecodeIff(sha: Sha, s: string, payload: seq<byte>)
    ensures CheckDecode(sha, s) == Some(payload) <==>
      payload != [] && Decode(s) == Some(payload + sha(sha(payload))[..4])
  {
    if Decode(s).Some? {
      var full := Decode(s).value;
      if |full| >= 4 { assert full == full[..|full| - 4] + full[|full| - 4..]; }
      if full == payload + sha(sha(payload))[..4] {
        assert full[..|full| - 4] == payload && full[|full| - 4..] == sha(sha(payload))[..4];
      }
    }
  }

  lemma CheckRoundTrip(sha: Sha, payload: seq<byte>)
    requires payload != []
    ensures CheckDecode(sha, CheckEncode(sha, payload)) == Some(payload)
  {
    var full := payload + Checksum(sha, payload);
    DecodeEncode(full);
    assert full[..|full| - 4] == payload;
  }

  /** Only the encoding of a payload decodes to it. */
  lemma CheckDecodeUnique(sha: Sha, s: string)
    requires CheckDecode(sha, s).Some?
    ensures s == CheckEncode(sha, CheckDecode(sha, s).value)
  {
    EncodeDecode(s);
    var full := Decode(s).value;
    assert full == full[..|full| - 4] + full[|full| - 4..];
  }

  lemma Powers()
    ensures Pow(58, 33) == 15599970876632771988160814054146447252125923204784443097088
    ensures Pow(58, 34) == 904798310844700775313327215140493940623303545877497699631104
    ensures Pow(256, 24) == 6277101735386680763835789423207666416102355444464034512896
  {
    assert Pow(58, 11) == 24986644000165537792;
    assert Pow(58, 22) == 624332378391008467754527498760580235264;
    assert Pow(256, 4) == 4294967296;
    assert Pow(256, 8) == 18446744073709551616;
    assert Pow(256, 12) == 79228162514264337593543950336;
    assert Pow(256, 16) == 340282366920938463463374607431768211456;
    assert Pow(256, 20) == 1461501637330902918203684832716283019655932542976;
  }

  /** 25 bytes starting with 0x41 lie between 26 and 27 times the 33rd power of 58. */
  lemma AccountString(sha: Sha, account: seq<byte>)
    requires IsAccount(account)
    ensures |CheckEncode(sha, account)| == 34 && CheckEncode(sha, account)[0] == 'T'
    ensures InAlphabet(CheckEncode(sha, account))
  {
    var full := account + Checksum(sha, account);
    var n := Value(256, full);
    LeadingDigitBounds(256, full);
    Powers();
    ShortestLength(58, n, 33);
    assert LeadingZeros(full) == 0;
    assert Recode(256, 58, full) == Shortest(58, n);
    LettersThenIndices(Recode(256, 58, full));
  }

  // ----- canonicalisation -----------------------------------------------------------------------------

  lemma StartsWithT(sha: Sha, s: string, account: seq<byte>)
    requires Base58Spelling(sha, s, account)
    ensures var d := Trim0x(ToLower(TrimSpace(s))); d != "" && d[0] == 't' && !IsHexString(d)
  {
    AccountString(sha, account);
    var d := Trim0x(ToLower(TrimSpace(s)));
    assert d[0] == 't';
  }

  /** A Base58 spelling is read as its account: it starts with T, so it is never taken for hexadecimal. */
  lemma Base58SpellingReads(sha: Sha, s: string, account: seq<byte>)
    requires Base58Spelling(sha, s, account)
    ensures AddressToHex41(sha, s) == Some(HexEncode(account))
  {
    StartsWithT(sha, s, account);
    CheckRoundTrip(sha, account);
  }

  /** The two kinds of spelling never overlap. */
  lemma SpellingsDisjoint(sha: Sha, s: string, a: seq<byte>, b: seq<byte>)
    requires HexSpelling(s, a)
    ensures !Base58Spelling(sha, s, b)
  {
    if Base58Spelling(sha, s, b) {
      StartsWithT(sha, s, b);
      assert false;
    }
  }

  /** Every spelling of an account is normalised to that account's Base58Check string. */
  lemma NormalizeSpelling(sha: Sha, s: string, account: seq<byte>)
    requires Denotes(sha, s, account)
    ensures Normalize(sha, s) == Some(CheckEncode(sha, account))
  {
    if HexSpelling(s, account) {
      HexSpellingToHex41(sha, s, account);
    } else {
      Base58SpellingReads(sha, s, account);
    }
    Hex41Reads(sha, account);
  }

  lemma HexSpellingToHex41(sha: Sha, s: string, account: seq<byte>)
    requires HexSpelling(s, account)
    ensures AddressToHex41(sha, s) == Some(HexEncode(account))
  {
    var d := Trim0x(ToLower(TrimSpace(s)));
    AccountHex(account);
    LowerHexIsHex(d);
    assert |d| == 40 || |d| == 42;
    if |d| == 40 {
      assert d == HexEncode(account[1..]);
    } else {
      assert d == HexEncode(account) && d[0] == '4' && d[1] == '1';
    }
  }

  lemma LowerHexIsHex(s: string)
    requires LowerHex(s) && s != ""
    ensures IsHexString(s)
  {
  }

  lemma Hex41Reads(sha: Sha, account: seq<byte>)
    requires IsAccount(account)
    ensures HexToBase58Address(sha, HexEncode(account)) == Some(CheckEncode(sha, account))
  {
    CleanHex(HexEncode(account));
    HexSpellingReads(sha, HexEncode(account), account);
  }

  /** Nothing else is accepted. */
  lemma NormalizeOnlySpellings(sha: Sha, s: string) returns (account: seq<byte>)
    requires Normalize(sha, s).Some?
    ensures Denotes(sha, s, account) && Normalize(sha, s) == Some(CheckEncode(sha, account))
  {
    var d := Trim0x(ToLower(TrimSpace(s)));
    if IsHexString(d) && (|d| == 40 || |d| == 42) {
      account := HexAccepted(sha, s, d);
    } else {
      account := Base58Accepted(sha, s, d);
    }
    NormalizeSpelling(sha, s, account);
  }

  lemma HexAccepted(sha: Sha, s: string, d: string) returns (account: seq<byte>)
    requires AddressToHex41(sha, s).Some? && d == Trim0x(ToLower(TrimSpace(s)))
    requires IsHexString(d) && (|d| == 40 || |d| == 42)
    ensures HexSpelling(s, account)
  {
    var h42 := if |d| == 40 then "41" + d else d;
    NoUpper(TrimSpace(s));
    LowerOf(h42);
    HexDecodes(h42);
    account := HexDecode(h42).value;
    assert h42[0] == '4' && h42[1] == '1';
    PairFirst(h42);
    HexDecodeCons(h42[0], h42[1], h42[2..]);
    AccountHex(account);
  }

  lemma Base58Accepted(sha: Sha, s: string, d: string) returns (account: seq<byte>)
    requires AddressToHex41(sha, s).Some? && d == Trim0x(ToLower(TrimSpace(s)))
    requires !(IsHexString(d) && (|d| == 40 || |d| == 42))
    ensures Base58Spelling(sha, s, account)
  {
    account := CheckDecode(sha, TrimSpace(s)).value;
    CheckDecodeUnique(sha, TrimSpace(s));
  }

  /** Canonical form: 34 letters, the first a T, and itself a spelling that normalises to itself. */
  lemma NormalForm(sha: Sha, s: string)
    requires Normalize(sha, s).Some?
    ensures var r := Normalize(sha, s).value; |r| == 34 && r[0] == 'T' && Normalize(sha, r) == Some(r)
  {
    var account := NormalizeOnlySpellings(sha, s);
    AccountString(sha, account);
    OwnBase58Spelling(sha, account);
    NormalizeSpelling(sha, CheckEncode(sha, account), account);
  }

  lemma OwnBase58Spelling(sha: Sha, account: seq<byte>)
    requires IsAccount(account)
    ensures Base58Spelling(sha, CheckEncode(sha, account), account)
  {
    var r := CheckEncode(sha, account);
    AccountString(sha, account);
    assert !IsSpace(r[0]) && !IsSpace(r[33]);
    assert TrimSpace(r) == r;
  }

  /** Every account has spellings of each kind, and topics. */
  lemma EveryAccountSpelled(sha: Sha, account: seq<byte>)
    requires IsAccount(account)
    ensures HexSpelling(HexEncode(account), account) && HexSpelling(HexEncode(account[1..]), account)
    ensures Base58Spelling(sha, CheckEncode(sha, account), account)
    ensures TopicOf(HexEncode(account[1..]), account)
  {
    CleanHex(HexEncode(account));
    CleanHex(HexEncode(account[1..]));
    OwnBase58Spelling(sha, account);
    var t := HexEncode(account[1..]);
    assert t[|t| - 40..] == t;
  }

  /** Two accepted addresses normalise equally exactly when they spell the same account. */
  lemma SameFormSameAccount(sha: Sha, s: string, t: string, a: seq<byte>, b: seq<byte>)
    requires Denotes(sha, s, a) && Denotes(sha, t, b)
    ensures Normalize(sha, s) == Normalize(sha, t) <==> a == b
  {
    NormalizeSpelling(sha, s, a);
    NormalizeSpelling(sha, t, b);
    CheckEncodeInjective(sha, a, b);
  }

  // ----- the keys computed from transactions ----------------------------------------------------------

  /** A log topic that carries the 20 bytes of an account in its last 40 digits. */
  predicate TopicOf(topic: string, account: seq<byte>) {
    IsAccount(account) &&
    var t := Trim0x(ToLower(TrimSpace(topic)));
    |t| >= 40 && IsHexString(t) && t[|t| - 40..] == HexEncode(account[1..])
  }

  lemma TopicReads(sha: Sha, topic: string, account: seq<byte>)
    requires TopicOf(topic, account)
    ensures TopicToBase58Address(sha, topic) == Some(CheckEncode(sha, account))
  {
    AccountHex(account);
    Hex41Reads(sha, account);
  }

  lemma CheckEncodeInjective(sha: Sha, a: seq<byte>, b: seq<byte>)
    requires a != [] && b != []
    ensures CheckEncode(sha, a) == CheckEncode(sha, b) <==> a == b
  {
    CheckRoundTrip(sha, a);
    CheckRoundTrip(sha, b);
  }

  /** Native transfers and log topics compute the key under which any spelling of the account is stored. */
  lemma KeysAgree(sha: Sha, spelling: string, native: string, topic: string, account: seq<byte>)
    requires Denotes(sha, spelling, account) && HexSpelling(native, account) && TopicOf(topic, account)
    ensures Normalize(sha, spelling) == HexToBase58Address(sha, native) == TopicToBase58Address(sha, topic)
    ensures Normalize(sha, spelling).Some?
  {
    NormalizeSpelling(sha, spelling, account);
    HexSpellingReads(sha, native, account);
    TopicReads(sha, topic, account);
  }

  /** The tracker manager's add and remove on the watched TRON wallets. */
  function AddWatched(sha: Sha, w: Wallets, address: string, walletID: string): Option<Wallets> {
    match Normalize(sha, address)
    case None => None
    case Some(key) => Some(w[key := walletID])
  }

  function RemoveWatched(sha: Sha, w: Wallets, address: string): Option<Wallets> {
    match Normalize(sha, address)
    case None => None
    case Some(key) => Some(w - {key})
  }

  /** A wallet added under any spelling is found by transfers and topics of its account and of no other,
      and removal under any other spelling takes exactly it away again. */
  lemma WatchedUnderAnySpelling(sha: Sha, w: Wallets, s1: string, s2: string, id: string, account: seq<byte>,
                                topic: string, other: seq<byte>)
    requires Denotes(sha, s1, account) && Denotes(sha, s2, account) && TopicOf(topic, other)
    ensures AddWatched(sha, w, s1, id).Some? && TopicToBase58Address(sha, topic).Some?
    ensures var added := AddWatched(sha, w, s1, id).value; var key := TopicToBase58Address(sha, topic).value;
      && (other == account ==> key in added && added[key] == id)
      && (other != account ==> (key in added <==> key in w) && (key in w ==> added[key] == w[key]))
      && RemoveWatched(sha, added, s2) == RemoveWatched(sha, w, s1)
      && (other == account ==> key !in RemoveWatched(sha, added, s2).value)
  {
    NormalizeSpelling(sha, s1, account);
    NormalizeSpelling(sha, s2, account);
    TopicReads(sha, topic, other);
    CheckEncodeInjective(sha, account, other);
    AddThenRemove(w, CheckEncode(sha, account), id);
  }

  lemma AddThenRemove(w: Wallets, key: string, id: string)
    ensures w[key := id] - {key} == w - {key}
  {
  }
}
