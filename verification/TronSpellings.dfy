/** The spellings of a TRON account written out: what may stand around the digits, in which case, and
    which digits they are. */
module TronSpellings {
  import opened Common
  import opened Base58
  import opened TronAddress

  predicate Spaces(s: string) {
    forall i :: 0 <= i < |s| ==> IsSpace(s[i])
  }

  /** Starts and ends with something other than a space. */
  predicate Solid(s: string) {
    s != "" && !IsSpace(s[0]) && !IsSpace(s[|s| - 1])
  }

  // ----- trimming -------------------------------------------------------------------------------------

  lemma {:induction false} TrimLeftIs(s: string) returns (pre: string)
    ensures Spaces(pre) && s == pre + TrimLeft(s)
    ensures TrimLeft(s) != "" ==> !IsSpace(TrimLeft(s)[0])
    decreases |s|
  {
    pre := "";
    if s != "" && IsSpace(s[0]) {
      var rest := TrimLeftIs(s[1..]);
      pre := [s[0]] + rest;
      assert s == [s[0]] + s[1..];
    }
  }

  lemma {:induction false} TrimRightIs(s: string) returns (post: string)
    ensures Spaces(post) && s == TrimRight(s) + post
    ensures TrimRight(s) != "" ==> !IsSpace(TrimRight(s)[|TrimRight(s)| - 1])
    decreases |s|
  {
    post := "";
    if s != "" && IsSpace(s[|s| - 1]) {
      var rest := TrimRightIs(s[..|s| - 1]);
      post := rest + [s[|s| - 1]];
      assert s == s[..|s| - 1] + [s[|s| - 1]];
    }
  }

  /** Trimming takes off the spaces at both ends and nothing else. */
  lemma TrimSpaceIs(s: string) returns (pre: string, post: string)
    ensures Spaces(pre) && Spaces(post) && s == pre + TrimSpace(s) + post
    ensures TrimSpace(s) == "" || Solid(TrimSpace(s))
  {
    pre := TrimLeftIs(s);
    post := TrimRightIs(TrimLeft(s));
    assert s == pre + (TrimSpace(s) + post) == pre + TrimSpace(s) + post;
    if TrimSpace(s) != "" { assert TrimLeft(s)[0] == TrimSpace(s)[0]; }
  }

  lemma {:induction false} TrimLeftOf(pre: string, s: string)
    requires Spaces(pre) && s != "" && !IsSpace(s[0])
    ensures TrimLeft(pre + s) == s
    decreases |pre|
  {
    if pre == "" {
      assert pre + s == s;
    } else {
      assert (pre + s)[1..] == pre[1..] + s;
      TrimLeftOf(pre[1..], s);
    }
  }

  lemma {:induction false} TrimRightOf(s: string, post: string)
    requires Spaces(post) && s != "" && !IsSpace(s[|s| - 1])
    ensures TrimRight(s + post) == s
    decreases |post|
  {
    if post == "" {
      assert s + post == s;
    } else {
      var all := s + post;
      assert all[..|all| - 1] == s + post[..|post| - 1];
      TrimRightOf(s, post[..|post| - 1]);
    }
  }

  lemma TrimSpaceOf(pre: string, core: string, post: string)
    requires Spaces(pre) && Spaces(post) && Solid(core)
    ensures TrimSpace(pre + core + post) == core
  {
    assert pre + core + post == pre + (core + post);
    TrimLeftOf(pre, core + post);
    TrimRightOf(core, post);
  }

  // ----- digits ---------------------------------------------------------------------------------------

  /** Digit `c` has value `v`, in either case. */
  predicate Stands(c: char, v: nat)
    requires v < 16
  {
    c == "0123456789abcdef"[v] || c == "0123456789ABCDEF"[v]
  }

  /** Two digits for each byte, the high one first. */
  predicate Writes(digits: string, bytes: seq<byte>) {
    |digits| == 2 * |bytes| && forall i :: 0 <= i < |bytes| ==>
      Stands(digits[2 * i], bytes[i] / 16) && Stands(digits[2 * i + 1], bytes[i] % 16)
  }

  lemma StandsLower(c: char, v: nat)
    requires v < 16
    ensures Stands(c, v) <==> LowerChar(c) == HexChar(v)
  {
  }

  lemma WritesCons(digits: string, bytes: seq<byte>)
    requires bytes != [] && |digits| == 2 * |bytes|
    ensures Writes(digits, bytes) <==>
      Stands(digits[0], bytes[0] / 16) && Stands(digits[1], bytes[0] % 16) && Writes(digits[2..], bytes[1..])
  {
    if Stands(digits[0], bytes[0] / 16) && Stands(digits[1], bytes[0] % 16) && Writes(digits[2..], bytes[1..]) {
      forall i | 0 <= i < |bytes|
        ensures Stands(digits[2 * i], bytes[i] / 16) && Stands(digits[2 * i + 1], bytes[i] % 16)
      {
        if i > 0 {
          assert digits[2 * i] == digits[2..][2 * (i - 1)] && digits[2 * i + 1] == digits[2..][2 * (i - 1) + 1];
          assert bytes[i] == bytes[1..][i - 1];
        }
      }
    }
    if Writes(digits, bytes) {
      forall i | 0 <= i < |bytes[1..]|
        ensures Stands(digits[2..][2 * i], bytes[1..][i] / 16) && Stands(digits[2..][2 * i + 1], bytes[1..][i] % 16)
      {
        assert Stands(digits[2 * (i + 1)], bytes[i + 1] / 16) && Stands(digits[2 * (i + 1) + 1], bytes[i + 1] % 16);
      }
    }
  }

  /** In lower case, digits that stand for bytes are what those bytes are encoded as, and only these are. */
  lemma {:induction false} EncodeWrites(digits: string, bytes: seq<byte>)
    ensures ToLower(digits) == HexEncode(bytes) <==> Writes(digits, bytes)
    decreases |bytes|
  {
    if bytes != [] && |digits| == 2 * |bytes| {
      EncodeWrites(digits[2..], bytes[1..]);
      WritesCons(digits, bytes);
      StandsLower(digits[0], bytes[0] / 16);
      StandsLower(digits[1], bytes[0] % 16);
      LowerCons(digits);
    }
  }

  lemma LowerCons(s: string)
    requires |s| >= 2
    ensures ToLower(s) == [LowerChar(s[0]), LowerChar(s[1])] + ToLower(s[2..])
  {
  }

  // ----- what is around them --------------------------------------------------------------------------

  /** Spaces, perhaps 0x or 0X, the digits, spaces. */
  ghost predicate Around(s: string, pre: string, mark: string, digits: string, post: string) {
    s == pre + (mark + digits) + post && Spaces(pre) && Spaces(post) && (mark == "" || mark == "0x" || mark == "0X")
  }

  lemma HexIsSolid(s: string)
    requires s != "" && forall i :: 0 <= i < |s| ==> IsHexDigit(s[i])
    ensures Solid(s) && Solid("0x" + s) && Solid("0X" + s)
  {
  }

  /** The digits left after cleaning, in the case they were written in. */
  function Core(s: string): string {
    var t := TrimSpace(s);
    if |t| >= 2 && t[0] == '0' && (t[1] == 'x' || t[1] == 'X') then t[2..] else t
  }

  lemma CoreLower(s: string)
    ensures Trim0x(ToLower(TrimSpace(s))) == ToLower(Core(s))
  {
  }

  lemma CoreAround(s: string) returns (pre: string, mark: string, post: string)
    ensures Around(s, pre, mark, Core(s), post)
  {
    pre, post := TrimSpaceIs(s);
    var t := TrimSpace(s);
    mark := if |t| >= 2 && t[0] == '0' && (t[1] == 'x' || t[1] == 'X') then t[..2] else "";
    assert mark + Core(s) == t;
  }

  lemma AroundCore(s: string, pre: string, mark: string, digits: string, post: string)
    requires Around(s, pre, mark, digits, post)
    requires digits != "" && forall i :: 0 <= i < |digits| ==> IsHexDigit(digits[i])
    ensures Core(s) == digits
  {
    HexIsSolid(digits);
    if mark == "" { assert mark + digits == digits; }
    TrimSpaceOf(pre, mark + digits, post);
  }

  lemma StandsHex(c: char, v: nat)
    requires v < 16 && Stands(c, v)
    ensures IsHexDigit(c)
  {
  }

  lemma WritesHex(digits: string, bytes: seq<byte>)
    requires Writes(digits, bytes)
    ensures forall i :: 0 <= i < |digits| ==> IsHexDigit(digits[i])
  {
    forall i | 0 <= i < |digits| ensures IsHexDigit(digits[i]) {
      var k := i / 2;
      assert Stands(digits[2 * k], bytes[k] / 16) && Stands(digits[2 * k + 1], bytes[k] % 16);
      if i == 2 * k { StandsHex(digits[i], bytes[k] / 16); } else { StandsHex(digits[i], bytes[k] % 16); }
    }
  }

  /** The hexadecimal spellings of an account are its 21 bytes, or the 20 after the prefix, in digits of
      either case, perhaps after 0x or 0X, with any space around that. */
  lemma HexSpellingIff(s: string, account: seq<byte>)
    requires IsAccount(account)
    ensures HexSpelling(s, account) <==>
      exists pre, mark, digits, post :: Around(s, pre, mark, digits, post) &&
        (Writes(digits, account) || Writes(digits, account[1..]))
  {
    CoreLower(s);
    EncodeWrites(Core(s), account);
    EncodeWrites(Core(s), account[1..]);
    if HexSpelling(s, account) {
      var pre, mark, post := CoreAround(s);
    }
    if exists pre, mark, digits, post :: Around(s, pre, mark, digits, post) &&
        (Writes(digits, account) || Writes(digits, account[1..])) {
      var pre, mark, digits, post :| Around(s, pre, mark, digits, post) &&
        (Writes(digits, account) || Writes(digits, account[1..]));
      if Writes(digits, account) { WritesHex(digits, account); } else { WritesHex(digits, account[1..]); }
      AroundCore(s, pre, mark, digits, post);
    }
  }

  /** The Base58 spellings are the Base58Check string with any space around it. */
  lemma Base58SpellingIff(sha: Sha, s: string, account: seq<byte>)
    requires IsAccount(account)
    ensures Base58Spelling(sha, s, account) <==>
      exists pre, post :: Spaces(pre) && Spaces(post) && s == pre + CheckEncode(sha, account) + post
  {
    if Base58Spelling(sha, s, account) {
      var pre, post := TrimSpaceIs(s);
    }
    if pre, post :| Spaces(pre) && Spaces(post) && s == pre + CheckEncode(sha, account) + post {
      AccountString(sha, account);
      TrimSpaceOf(pre, CheckEncode(sha, account), post);
    }
  }

  /** A topic: the digits of an account's 20 bytes after any other digits. */
  ghost predicate TopicAround(s: string, account: seq<byte>, pre: string, mark: string, lead: string,
                              digits: string, post: string)
    requires account != []
  {
    Around(s, pre, mark, lead + digits, post) && (forall i :: 0 <= i < |lead| ==> IsHexDigit(lead[i])) &&
    Writes(digits, account[1..])
  }

  lemma SplitCore(core: string, account: seq<byte>) returns (lead: string, digits: string)
    requires IsAccount(account) && |core| >= 40 && IsHexString(ToLower(core))
    requires ToLower(core)[|core| - 40..] == HexEncode(account[1..])
    ensures core == lead + digits && (forall i :: 0 <= i < |lead| ==> IsHexDigit(lead[i]))
    ensures Writes(digits, account[1..])
  {
    lead, digits := core[..|core| - 40], core[|core| - 40..];
    LowerHexDigits(core);
    assert ToLower(digits) == HexEncode(account[1..]);
    EncodeWrites(digits, account[1..]);
  }

  lemma TopicWritten(s: string, account: seq<byte>)
    returns (pre: string, mark: string, lead: string, digits: string, post: string)
    requires TopicOf(s, account)
    ensures TopicAround(s, account, pre, mark, lead, digits, post)
  {
    CoreLower(s);
    pre, mark, post := CoreAround(s);
    lead, digits := SplitCore(Core(s), account);
  }

  lemma WrittenTopic(s: string, account: seq<byte>, pre: string, mark: string, lead: string, digits: string,
                     post: string)
    requires IsAccount(account) && TopicAround(s, account, pre, mark, lead, digits, post)
    ensures TopicOf(s, account)
  {
    WritesHex(digits, account[1..]);
    AroundCore(s, pre, mark, lead + digits, post);
    CoreLower(s);
    EncodeWrites(digits, account[1..]);
    LowerHexDigits(lead + digits);
    LowerSplit(lead, digits);
  }

  lemma LowerSplit(lead: string, digits: string)
    ensures ToLower(lead + digits)[|lead|..] == ToLower(digits)
  {
  }

  /** The topics of an account end in the digits of its 20 bytes, after any other digits. */
  lemma TopicIff(s: string, account: seq<byte>)
    requires IsAccount(account)
    ensures TopicOf(s, account) <==>
      exists pre, mark, lead, digits, post :: TopicAround(s, account, pre, mark, lead, digits, post)
  {
    if TopicOf(s, account) {
      var pre, mark, lead, digits, post := TopicWritten(s, account);
    }
    if pre, mark, lead, digits, post :| TopicAround(s, account, pre, mark, lead, digits, post) {
      WrittenTopic(s, account, pre, mark, lead, digits, post);
    }
  }

  lemma LowerHexDigits(s: string)
    ensures (forall i :: 0 <= i < |s| ==> IsHexDigit(s[i])) <==> (s == "" || IsHexString(ToLower(s)))
  {
    var r := ToLower(s);
    forall i | 0 <= i < |s| ensures IsHexDigit(s[i]) <==> IsHexDigit(r[i]) {}
  }

  /** The last 40 of hexadecimal digits without upper case are the 20 bytes of some account. */
  lemma LastBytes(t: string) returns (account: seq<byte>)
    requires |t| >= 40 && LowerHex(t)
    ensures IsAccount(account) && HexEncode(account[1..]) == t[|t| - 40..]
  {
    var last := t[|t| - 40..];
    HexDecodes(last);
    account := [PREFIX] + HexDecode(last).value;
    assert account[1..] == HexDecode(last).value;
  }

  /** Only topics of an account are read as one. */
  lemma TopicReadsOnlyTopics(sha: Sha, s: string, r: string)
    requires TopicToBase58Address(sha, s) == Some(r)
    ensures exists account :: TopicOf(s, account) && r == CheckEncode(sha, account)
  {
    NoUpper(TrimSpace(s));
    LowerOf(Trim0x(ToLower(TrimSpace(s))));
    var account := LastBytes(Trim0x(ToLower(TrimSpace(s))));
    assert TopicOf(s, account);
    TopicReads(sha, s, account);
  }
}
