/**
 Channel keys and conversation IDs: how they are printed, and how they are parsed back.
 */
module ChannelIds {
  import opened Options
  import opened MessageText
  import opened NodeIds
  import Utf8

  const MAX_NAME_BYTES: nat := 80
  const MAX_KEY: nat := 512
  const MAX_CONVERSATION: nat := 768

  // ---------- Percent-encoding, section 2.1 of RFC 3986 ----------

  predicate Unreserved(b: Utf8.Byte) {
    || ('A' as int <= b as int <= 'Z' as int) || ('a' as int <= b as int <= 'z' as int) || ('0' as int <= b as int <= '9' as int)
    || b as int in {'_' as int, '.' as int, '-' as int, '~' as int}
  }

  function HexDigit(n: int): (c: char)
    requires 0 <= n < 16
    ensures '0' <= c <= '9' || 'A' <= c <= 'F'
  {
    if n < 10 then '0' + n as char else 'A' + (n - 10) as char
  }

  function HexValue(c: char): int {
    if '0' <= c <= '9' then c as int - '0' as int else c as int - 'A' as int + 10
  }

  function QuoteByte(b: Utf8.Byte): string {
    if Unreserved(b) then [b as char] else ['%', HexDigit(b as int / 16), HexDigit(b as int % 16)]
  }

  function QuoteBytes(bytes: seq<Utf8.Byte>): string {
    if bytes == [] then [] else QuoteByte(bytes[0]) + QuoteBytes(bytes[1..])
  }

  function Unquote(s: string): seq<int> {
    if s == [] then []
    else if s[0] == '%' && |s| >= 3 then [HexValue(s[1]) * 16 + HexValue(s[2])] + Unquote(s[3..])
    else [s[0] as int] + Unquote(s[1..])
  }

  function Quote(s: string): string {
    QuoteBytes(Utf8.Encode(s))
  }

  // ---------- Printing ----------

  function Digits(n: nat): string {
    if n < 10 then ['0' + n as char] else Digits(n / 10) + ['0' + (n % 10) as char]
  }

  function Decimal(n: int): string {
    if n < 0 then "-" + Digits(-n) else Digits(n)
  }

  /** The number a row of decimal digits stands for. */
  ghost function ValueOf(digits: string): int {
    if digits == [] then 0 else 10 * ValueOf(digits[..|digits| - 1]) + digits[|digits| - 1] as int - '0' as int
  }

  lemma {:induction false} DecimalIs(n: int)
    ensures n >= 0 ==> ValueOf(Decimal(n)) == n
    ensures n < 0 ==> Decimal(n)[0] == '-' && ValueOf(Decimal(n)[1..]) == -n
    decreases if n < 0 then -n + 1 else n
  {
    if n < 0 {
      DecimalIs(-n);
    } else if n >= 10 {
      DecimalIs(n / 10);
      assert Digits(n)[..|Digits(n)| - 1] == Digits(n / 10);
    } else {
      assert Digits(n)[..0] == [];
    }
  }

  function Component(u: Unicode, value: string): string {
    Quote(Strip(u, value))
  }

  function SafeName(u: Unicode, name: string): string {
    Strip(u, Sanitize(u, name, MAX_NAME_BYTES))
  }

  function LogicalChannelKey(u: Unicode, localNode: string, index: int, name: string, id: Option<int>): string {
    if id.Some? && id.value != 0 then "global:" + Component(u, SafeName(u, name)) + ":" + Decimal(id.value)
    else "local:" + Lower(localNode) + ":" + Decimal(index) + ":" + Component(u, SafeName(u, name))
  }

  function ProvisionalChannelKey(localNode: string, index: int): string {
    "provisional:" + Lower(localNode) + ":" + Decimal(index)
  }

  function PublicConversationId(localNode: string, key: string): string {
    "channel:" + Lower(localNode) + ":" + key
  }

  function DmConversationId(localNode: string, peer: string, key: string): string {
    "dm:" + Lower(localNode) + ":" + Lower(peer) + ":" + key
  }

  // ---------- Parsing ----------

  predicate HasControl(s: string) {
    exists c | c in s :: c as int < 32 || c as int == 127
  }

  predicate ValidChannelKey(key: string) {
    && key != [] && |key| <= MAX_KEY && !HasControl(key)
    && (StartsWith(key, "global:") || StartsWith(key, "local:") || StartsWith(key, "legacy:") || StartsWith(key, "provisional:"))
  }

  /** The text before and after the first colon; None without a colon. */
  /** Which keys are accepted. */
  lemma ValidKeyIff(key: string)
    ensures ValidChannelKey(key) <==>
              && 1 <= |key| <= 512 && (forall k | 0 <= k < |key| :: ' ' <= key[k] && key[k] as int != 0x7F)
              && ("global:" <= key || "local:" <= key || "legacy:" <= key || "provisional:" <= key)
  {
    if !HasControl(key) {
      forall k | 0 <= k < |key| ensures ' ' <= key[k] && key[k] as int != 0x7F {
        assert key[k] in key;
      }
    }
    assert forall prefix: string :: StartsWith(key, prefix) <==> prefix <= key;
  }

  function SplitColon(s: string): Option<(string, string)> {
    if s == [] then None
    else if s[0] == ':' then Some(([], s[1..]))
    else
      match SplitColon(s[1..])
      case None => None
      case Some((head, tail)) => Some(([s[0]] + head, tail))
  }

  datatype PublicId = PublicId(local: Option<string>, key: string)
  datatype DmId = DmId(local: string, peer: string, key: string)

  /** None is the error. An ID without a local node is accepted as an old one. */
  function ParsePublic(u: Unicode, value: string): Option<PublicId> {
    var conversation := Strip(u, value);
    if !StartsWith(conversation, "channel:") then None
    else
      var payload := conversation[|"channel:"|..];
      var parts := SplitColon(payload);
      if payload != [] && payload[0] == '!' && parts.Some? then
        var local := NormalizeNodeId(u, parts.value.0);
        if local.Some? && ValidChannelKey(parts.value.1) then Some(PublicId(local, parts.value.1)) else None
      else if ValidChannelKey(payload) then Some(PublicId(None, payload))
      else None
  }

  function ParseDm(u: Unicode, value: string): Option<DmId> {
    ParseStrippedDm(u, Strip(u, value))
  }

  function ParseStrippedDm(u: Unicode, conversation: string): Option<DmId> {
    var first := SplitColon(conversation);
    if first.None? || first.value.0 != "dm" then None
    else
      var second := SplitColon(first.value.1);
      if second.None? then None
      else
        var third := SplitColon(second.value.1);
        if third.None? || |conversation| > MAX_CONVERSATION || HasControl(conversation) || !ValidChannelKey(third.value.1) then None
        else
          var local, peer := NormalizeNodeId(u, second.value.0), NormalizeNodeId(u, third.value.0);
          if local.Some? && peer.Some? then Some(DmId(local.value, peer.value, third.value.1)) else None
  }

  // ---------- Percent-encoding loses nothing ----------

  function Ints(bytes: seq<Utf8.Byte>): seq<int> {
    seq(|bytes|, i requires 0 <= i < |bytes| => bytes[i] as int)
  }

  lemma UnquoteByte(b: Utf8.Byte, rest: string)
    ensures Unquote(QuoteByte(b) + rest) == [b as int] + Unquote(rest)
  {
    var s := QuoteByte(b) + rest;
    if Unreserved(b) {
      assert s[1..] == rest;
    } else {
      assert s[3..] == rest;
      assert b as int == b as int / 16 * 16 + b as int % 16;
      HexRoundTrip(b as int / 16);
      HexRoundTrip(b as int % 16);
    }
  }

  lemma HexRoundTrip(n: int)
    requires 0 <= n < 16
    ensures HexValue(HexDigit(n)) == n
  {
  }

  lemma {:induction false} UnquoteQuoteBytes(bytes: seq<Utf8.Byte>)
    ensures Unquote(QuoteBytes(bytes)) == Ints(bytes)
  {
    if bytes != [] {
      UnquoteByte(bytes[0], QuoteBytes(bytes[1..]));
      UnquoteQuoteBytes(bytes[1..]);
    }
  }

  /** Different names have different encodings. */
  lemma QuoteIsInjective(a: string, b: string)
    requires Quote(a) == Quote(b)
    ensures a == b
  {
    var x, y := Utf8.Encode(a), Utf8.Encode(b);
    UnquoteQuoteBytes(x);
    UnquoteQuoteBytes(y);
    assert |x| == |Ints(x)| == |Ints(y)| == |y|;
    assert forall i | 0 <= i < |x| :: Ints(x)[i] == x[i] as int && Ints(y)[i] == y[i] as int;
    assert x == y;
    Utf8.DecodeEncode(a);
    Utf8.DecodeEncode(b);
  }

  /** Visible ASCII other than the colon. */
  predicate Plain(c: char) {
    '!' <= c <= '~' && c != ':'
  }

  lemma {:induction false} QuotedIsPlain(bytes: seq<Utf8.Byte>)
    ensures forall c | c in QuoteBytes(bytes) :: Plain(c)
    ensures |QuoteBytes(bytes)| <= 3 * |bytes|
  {
    if bytes != [] {
      QuotedIsPlain(bytes[1..]);
      assert forall c | c in QuoteByte(bytes[0]) :: Plain(c);
    }
  }

  // ---------- Decimal numbers ----------

  lemma {:induction false} DigitsFacts(n: nat)
    ensures Digits(n) != [] && forall c | c in Digits(n) :: '0' <= c <= '9'
  {
    if n >= 10 {
      DigitsFacts(n / 10);
    }
  }

  lemma {:induction false} DigitsAreInjective(a: nat, b: nat)
    requires Digits(a) == Digits(b)
    ensures a == b
  {
    DigitsFacts(a / 10);
    DigitsFacts(b / 10);
    if a >= 10 && b >= 10 {
      assert Digits(a)[..|Digits(a)| - 1] == Digits(a / 10) && Digits(b)[..|Digits(b)| - 1] == Digits(b / 10);
      assert Digits(a)[|Digits(a)| - 1] == Digits(b)[|Digits(b)| - 1];
      DigitsAreInjective(a / 10, b / 10);
    }
  }

  lemma DecimalFacts(n: int)
    ensures Decimal(n) != [] && forall c | c in Decimal(n) :: Plain(c)
  {
    DigitsFacts(if n < 0 then -n else n);
  }

  lemma DecimalIsInjective(a: int, b: int)
    requires Decimal(a) == Decimal(b)
    ensures a == b
  {
    var x, y := if a < 0 then -a else a, if b < 0 then -b else b;
    DigitsFacts(x);
    DigitsFacts(y);
    if a < 0 {
      assert Decimal(a)[0] == '-' && Decimal(a)[1..] == Digits(x);
    } else {
      assert Decimal(a)[0] in Digits(x);
    }
    if b < 0 {
      assert Decimal(b)[0] == '-' && Decimal(b)[1..] == Digits(y);
    } else {
      assert Decimal(b)[0] in Digits(y);
    }
    DigitsAreInjective(x, y);
  }

  /** A number below ten to the power `width`. */
  lemma {:induction false} DigitsFit(n: nat, width: nat, limit: nat)
    requires width > 0 && n < limit && limit == Power10(width)
    ensures |Digits(n)| <= width
  {
    if n >= 10 {
      DigitsFit(n / 10, width - 1, Power10(width - 1));
    }
  }

  function Power10(n: nat): nat {
    if n == 0 then 1 else 10 * Power10(n - 1)
  }

  lemma DecimalFits(n: int)
    requires -0x8000_0000 <= n < 0x1_0000_0000
    ensures |Decimal(n)| <= 11
  {
    assert Power10(5) == 100_000 && Power10(10) == 10_000_000_000;
    DigitsFit(if n < 0 then -n else n, 10, 10_000_000_000);
  }

  // ---------- Channel keys ----------

  predicate NoColon(s: string) {
    ':' !in s
  }

  lemma LastColonAt(a: string, b: string)
    requires NoColon(b)
    ensures var s := a + ":" + b; s[|a|] == ':' && forall i | |a| < i < |s| :: s[i] != ':'
  {
    var s := a + ":" + b;
    forall i | |a| < i < |s| ensures s[i] != ':' {
      assert s[i] == b[i - |a| - 1];
    }
  }

  /** Text around a last colon is unique. */
  lemma LastColon(a: string, b: string, c: string, d: string)
    requires a + ":" + b == c + ":" + d && NoColon(b) && NoColon(d)
    ensures a == c && b == d
  {
    LastColonAt(a, b);
    LastColonAt(c, d);
    var s := a + ":" + b;
    assert a == s[..|a|] && c == s[..|c|] && b == s[|a| + 1..] && d == s[|c| + 1..];
  }

  lemma ComponentFacts(u: Unicode, name: string)
    requires Sensible(u)
    ensures Component(u, SafeName(u, name)) == Quote(SafeName(u, name))
    ensures forall c | c in Quote(SafeName(u, name)) :: Plain(c)
    ensures |Quote(SafeName(u, name))| <= 3 * MAX_NAME_BYTES
  {
    var clean := Sanitize(u, name, MAX_NAME_BYTES);
    StripTrims(u, clean);
    StripTrims(u, SafeName(u, name));
    QuotedIsPlain(Utf8.Encode(SafeName(u, name)));
    SanitizedTextIsSafe(u, name, MAX_NAME_BYTES);
    StripShortens(u, clean);
  }

  lemma {:induction false} StripShortens(u: Unicode, text: string)
    ensures ByteLength(Strip(u, text)) <= ByteLength(text)
  {
    LeftShortens(u, text);
    RightShortens(u, TrimLeft(u, text));
  }

  lemma {:induction false} LeftShortens(u: Unicode, text: string)
    ensures ByteLength(TrimLeft(u, text)) <= ByteLength(text)
  {
    if text != [] && u.space(text[0]) {
      LeftShortens(u, text[1..]);
    }
  }

  lemma {:induction false} RightShortens(u: Unicode, text: string)
    ensures ByteLength(TrimRight(u, text)) <= ByteLength(text)
  {
    if text != [] && u.space(text[|text| - 1]) {
      RightShortens(u, text[..|text| - 1]);
      PrefixShortens(text, |text| - 1);
    }
  }

  lemma {:induction false} PrefixShortens(text: string, n: nat)
    requires n <= |text|
    ensures ByteLength(text[..n]) <= ByteLength(text)
  {
    if n > 0 {
      assert text[..n][1..] == text[1..][..n - 1];
      PrefixShortens(text[1..], n - 1);
    }
  }

  /** What a channel key identifies. */
  datatype Identity = Global(name: string, id: int) | Local(localNode: string, index: int, name: string)

  function IdentityOf(u: Unicode, localNode: string, index: int, name: string, id: Option<int>): Identity {
    if id.Some? && id.value != 0 then Global(SafeName(u, name), id.value)
    else Local(Lower(localNode), index, SafeName(u, name))
  }

  /** Two channels get the same key exactly when they have the same identity. */
  lemma KeyIffIdentity(
    u: Unicode, localA: string, indexA: int, nameA: string, idA: Option<int>,
    localB: string, indexB: int, nameB: string, idB: Option<int>)
    requires Sensible(u)
    ensures LogicalChannelKey(u, localA, indexA, nameA, idA) == LogicalChannelKey(u, localB, indexB, nameB, idB) <==>
            IdentityOf(u, localA, indexA, nameA, idA) == IdentityOf(u, localB, indexB, nameB, idB)
  {
    var a, b := IdentityOf(u, localA, indexA, nameA, idA), IdentityOf(u, localB, indexB, nameB, idB);
    ComponentFacts(u, nameA);
    ComponentFacts(u, nameB);
    assert LogicalChannelKey(u, localA, indexA, nameA, idA) == KeyOf(a);
    assert LogicalChannelKey(u, localB, indexB, nameB, idB) == KeyOf(b);
    if KeyOf(a) == KeyOf(b) {
      KeyOfIsInjective(a, b);
    }
  }

  /** A channel with an ID other than zero is known by ID and name everywhere, any other by node, index and name. */
  lemma SameKeyIff(
    u: Unicode, localA: string, indexA: int, nameA: string, idA: Option<int>,
    localB: string, indexB: int, nameB: string, idB: Option<int>)
    requires Sensible(u)
    ensures var sameName := SafeName(u, nameA) == SafeName(u, nameB);
            LogicalChannelKey(u, localA, indexA, nameA, idA) == LogicalChannelKey(u, localB, indexB, nameB, idB) <==>
            if idA in {None, Some(0)} then idB in {None, Some(0)} && Lower(localA) == Lower(localB) && indexA == indexB && sameName
            else idB == idA && sameName
  {
    KeyIffIdentity(u, localA, indexA, nameA, idA, localB, indexB, nameB, idB);
  }

  function KeyOf(i: Identity): string {
    match i
    case Global(name, id) => "global:" + Quote(name) + ":" + Decimal(id)
    case Local(localNode, index, name) => "local:" + localNode + ":" + Decimal(index) + ":" + Quote(name)
  }

  lemma KeyOfIsInjective(a: Identity, b: Identity)
    requires KeyOf(a) == KeyOf(b)
    ensures a == b
  {
    assert KeyOf(a)[0] == if a.Global? then 'g' else 'l';
    assert KeyOf(b)[0] == if b.Global? then 'g' else 'l';
    QuotedIsPlain(Utf8.Encode(a.name));
    QuotedIsPlain(Utf8.Encode(b.name));
    if a.Global? {
      DecimalFacts(a.id);
      DecimalFacts(b.id);
      LastColon("global:" + Quote(a.name), Decimal(a.id), "global:" + Quote(b.name), Decimal(b.id));
      assert Quote(a.name) == ("global:" + Quote(a.name))[7..] == ("global:" + Quote(b.name))[7..] == Quote(b.name);
      DecimalIsInjective(a.id, b.id);
    } else {
      DecimalFacts(a.index);
      DecimalFacts(b.index);
      var x, y := "local:" + a.localNode, "local:" + b.localNode;
      LastColon(x + ":" + Decimal(a.index), Quote(a.name), y + ":" + Decimal(b.index), Quote(b.name));
      LastColon(x, Decimal(a.index), y, Decimal(b.index));
      assert a.localNode == x[6..] == y[6..] == b.localNode;
      DecimalIsInjective(a.index, b.index);
    }
    QuoteIsInjective(a.name, b.name);
  }

  /** Provisional keys tell local nodes and channel indexes apart. */
  lemma ProvisionalIffSame(localA: string, indexA: int, localB: string, indexB: int)
    ensures ProvisionalChannelKey(localA, indexA) == ProvisionalChannelKey(localB, indexB) <==>
            Lower(localA) == Lower(localB) && indexA == indexB
  {
    if ProvisionalChannelKey(localA, indexA) == ProvisionalChannelKey(localB, indexB) {
      DecimalFacts(indexA);
      DecimalFacts(indexB);
      var x, y := "provisional:" + Lower(localA), "provisional:" + Lower(localB);
      LastColon(x, Decimal(indexA), y, Decimal(indexB));
      assert Lower(localA) == x[12..] == y[12..] == Lower(localB);
      DecimalIsInjective(indexA, indexB);
    }
  }

  ghost predicate Is32Bit(n: int) {
    -0x8000_0000 <= n < 0x1_0000_0000
  }

  ghost predicate AllVisible(s: string) {
    forall c | c in s :: '!' <= c <= '~'
  }

  lemma ConcatVisible(a: string, b: string)
    requires AllVisible(a) && AllVisible(b)
    ensures AllVisible(a + b)
  {
  }

  lemma NodeIdIsVisible(id: string)
    requires IsNodeId(id)
    ensures AllVisible(id) && NoColon(id)
  {
    forall c | c in id ensures '!' <= c <= '~' && c != ':' {
      var i :| 0 <= i < |id| && id[i] == c;
      assert i > 0 ==> IsHex(id[i]);
    }
  }

  lemma VisibleKeyIsValid(u: Unicode, key: string, prefix: string)
    requires AsciiIsVisible(u) && AllVisible(key) && |key| <= MAX_KEY && prefix in ["global:", "local:", "provisional:"]
    requires StartsWith(key, prefix)
    ensures ValidChannelKey(key) && !u.space(key[|key| - 1])
  {
    assert key[|key| - 1] in key;
  }

  /** Every key made for a node's channel, whatever its name, is valid and survives stripping. */
  lemma KeyIsValid(u: Unicode, localNode: string, index: int, name: string, id: Option<int>)
    requires Sensible(u) && AsciiIsVisible(u) && IsNodeId(Lower(localNode)) && Is32Bit(index) && (id.Some? ==> Is32Bit(id.value))
    ensures var key := LogicalChannelKey(u, localNode, index, name, id);
            ValidChannelKey(key) && !u.space(key[|key| - 1])
  {
    ComponentFacts(u, name);
    var quoted := Quote(SafeName(u, name));
    if id.Some? && id.value != 0 {
      GlobalKeyIsValid(u, quoted, id.value);
    } else {
      LocalKeyIsValid(u, Lower(localNode), index, quoted);
    }
  }

  lemma GlobalKeyIsValid(u: Unicode, quoted: string, id: int)
    requires AsciiIsVisible(u) && AllVisible(quoted) && |quoted| <= 3 * MAX_NAME_BYTES && Is32Bit(id)
    ensures var key := "global:" + quoted + ":" + Decimal(id);
            ValidChannelKey(key) && !u.space(key[|key| - 1])
  {
    var key := "global:" + quoted + ":" + Decimal(id);
    DecimalFacts(id);
    DecimalFits(id);
    ConcatVisible("global:", quoted);
    ConcatVisible("global:" + quoted, ":");
    ConcatVisible("global:" + quoted + ":", Decimal(id));
    assert key[..7] == "global:";
    VisibleKeyIsValid(u, key, "global:");
  }

  lemma LocalKeyIsValid(u: Unicode, local: string, index: int, quoted: string)
    requires AsciiIsVisible(u) && IsNodeId(local) && AllVisible(quoted) && |quoted| <= 3 * MAX_NAME_BYTES && Is32Bit(index)
    ensures var key := "local:" + local + ":" + Decimal(index) + ":" + quoted;
            ValidChannelKey(key) && !u.space(key[|key| - 1])
  {
    var head := "local:" + local + ":" + Decimal(index) + ":";
    var key := head + quoted;
    DecimalFacts(index);
    DecimalFits(index);
    NodeIdIsVisible(local);
    HeadIsVisible(local, index);
    ConcatVisible(head, quoted);
    assert key[..6] == "local:";
    VisibleKeyIsValid(u, key, "local:");
  }

  lemma HeadIsVisible(local: string, index: int)
    requires AllVisible(local) && AllVisible(Decimal(index))
    ensures AllVisible("local:" + local + ":" + Decimal(index) + ":")
  {
    ConcatVisible("local:", local);
    ConcatVisible("local:" + local, ":");
    ConcatVisible("local:" + local + ":", Decimal(index));
    ConcatVisible("local:" + local + ":" + Decimal(index), ":");
  }

  // ---------- Conversation IDs ----------

  lemma {:induction false} SplitAt(a: string, b: string)
    requires NoColon(a)
    ensures SplitColon(a + ":" + b) == Some((a, b))
  {
    var s := a + ":" + b;
    if a == [] {
      assert s[1..] == b;
    } else {
      assert s[1..] == a[1..] + ":" + b;
      assert a[0] in a && forall c | c in a[1..] :: c in a;
      SplitAt(a[1..], b);
      assert s[0] == a[0] && [a[0]] + a[1..] == a;
    }
  }

  lemma {:induction false} SplitParts(s: string)
    requires SplitColon(s).Some?
    ensures s == SplitColon(s).value.0 + ":" + SplitColon(s).value.1 && NoColon(SplitColon(s).value.0)
  {
    if s[0] == ':' {
      assert s == ":" + s[1..];
    } else {
      SplitParts(s[1..]);
      assert s == [s[0]] + s[1..];
    }
  }

  ghost predicate IsPeer(id: string) {
    IsNodeId(Lower(id)) && Lower(id) != BROADCAST
  }

  lemma {:induction false} TrimRightOfKey(u: Unicode, head: string, key: string)
    requires head != [] && !u.space(head[|head| - 1])
    ensures TrimRight(u, head + key) == head + TrimRight(u, key)
    decreases |key|
  {
    var s := head + key;
    if key == [] {
      assert s == head;
    } else {
      assert s[|s| - 1] == key[|key| - 1];
      if u.space(key[|key| - 1]) {
        assert s[..|s| - 1] == head + key[..|key| - 1];
        TrimRightOfKey(u, head, key[..|key| - 1]);
      }
    }
  }

  /** Stripping takes only the white space after a key, as an ID starts with a letter. */
  lemma StripOnlyRight(u: Unicode, head: string, key: string)
    requires AsciiIsVisible(u) && head != [] && '!' <= head[0] <= '~' && !u.space(head[|head| - 1])
    ensures Strip(u, head + key) == head + TrimRight(u, key)
  {
    assert (head + key)[0] == head[0];
    TrimRightOfKey(u, head, key);
  }

  lemma {:induction false} TrimRightIsIdentityIff(u: Unicode, key: string)
    ensures TrimRight(u, key) == key <==> key == [] || !u.space(key[|key| - 1])
  {
    TrimRightFacts(u, key);
  }

  lemma PublicTextSplits(local: string, key: string)
    requires NoColon(local)
    ensures var text := "channel:" + local + ":" + key;
            text[..8] == "channel:" && text[8..] == local + ":" + key && SplitColon(local + ":" + key) == Some((local, key))
  {
    SplitAt(local, key);
  }

  /** A public conversation ID parses back exactly when its key is valid and does not end in white space. */
  lemma PublicRoundTrip(u: Unicode, localNode: string, key: string)
    requires AsciiIsVisible(u) && IsPeer(localNode)
    ensures ParsePublic(u, PublicConversationId(localNode, key)) == Some(PublicId(Some(Lower(localNode)), key)) <==>
            ValidChannelKey(key) && !u.space(key[|key| - 1])
  {
    var local := Lower(localNode);
    var head, trimmed := "channel:" + local + ":", TrimRight(u, key);
    NodeIdIsVisible(local);
    NodeIdIsItself(u, local);
    StripOnlyRight(u, head, key);
    PublicTextSplits(local, trimmed);
    TrimRightIsIdentityIff(u, key);
  }

  lemma SplitsDm(local: string, peer: string, key: string)
    requires NoColon(local) && NoColon(peer)
    ensures var text := "dm:" + local + ":" + peer + ":" + key;
            && SplitColon(text) == Some(("dm", local + ":" + (peer + ":" + key)))
            && SplitColon(local + ":" + (peer + ":" + key)) == Some((local, peer + ":" + key))
            && SplitColon(peer + ":" + key) == Some((peer, key))
  {
    assert "dm:" + local + ":" + peer + ":" + key == "dm" + ":" + (local + ":" + (peer + ":" + key));
    SplitAt("dm", local + ":" + (peer + ":" + key));
    SplitAt(local, peer + ":" + key);
    SplitAt(peer, key);
  }

  lemma DmHeadIsVisible(local: string, peer: string)
    requires AllVisible(local) && AllVisible(peer)
    ensures AllVisible("dm:" + local + ":" + peer + ":")
  {
    ConcatVisible("dm:", local);
    ConcatVisible("dm:" + local, ":");
    ConcatVisible("dm:" + local + ":", peer);
    ConcatVisible("dm:" + local + ":" + peer, ":");
  }

  lemma DmTextParses(u: Unicode, local: string, peer: string, key: string)
    requires AsciiIsVisible(u) && IsNodeId(local) && local != BROADCAST && IsNodeId(peer) && peer != BROADCAST
    ensures ParseStrippedDm(u, "dm:" + local + ":" + peer + ":" + key) ==
              if ValidChannelKey(key) then Some(DmId(local, peer, key)) else None
  {
    NodeIdIsVisible(local);
    NodeIdIsVisible(peer);
    NodeIdIsItself(u, local);
    NodeIdIsItself(u, peer);
    SplitsDm(local, peer, key);
    DmHeadIsVisible(local, peer);
    if ValidChannelKey(key) {
      NoControlIn("dm:" + local + ":" + peer + ":", key);
    }
  }

  lemma NodeIdIsItself(u: Unicode, id: string)
    requires AsciiIsVisible(u) && IsNodeId(id) && id != BROADCAST
    ensures NormalizeNodeId(u, id) == Some(id)
  {
    LowerIsIdentity(id);
    NodeIdIsNormal(u, id);
  }

  lemma NoControlIn(head: string, key: string)
    requires AllVisible(head) && !HasControl(key)
    ensures !HasControl(head + key)
  {
  }

  /** A direct-message ID parses back under the same condition. */
  lemma DmRoundTrip(u: Unicode, localNode: string, peer: string, key: string)
    requires AsciiIsVisible(u) && IsPeer(localNode) && IsPeer(peer)
    ensures ParseDm(u, DmConversationId(localNode, peer, key)) == Some(DmId(Lower(localNode), Lower(peer), key)) <==>
            ValidChannelKey(key) && !u.space(key[|key| - 1])
  {
    var head := "dm:" + Lower(localNode) + ":" + Lower(peer) + ":";
    StripOnlyRight(u, head, key);
    DmTextParses(u, Lower(localNode), Lower(peer), TrimRight(u, key));
    TrimRightIsIdentityIff(u, key);
  }

  /** Whatever text was accepted, printing what was parsed gives the canonical ID of the same conversation. */
  lemma ParsedDmPrintsBack(u: Unicode, value: string)
    requires AsciiIsVisible(u) && ParseDm(u, value).Some?
    ensures var id := ParseDm(u, value).value;
            ParseDm(u, DmConversationId(id.local, id.peer, id.key)) == Some(id)
  {
    var id := ParseDm(u, value).value;
    var conversation := Strip(u, value);
    var rest := SplitColon(conversation).value.1;
    var last := SplitColon(rest).value.1;
    SplitParts(conversation);
    SplitParts(rest);
    SplitParts(last);
    StripTrims(u, value);
    assert conversation[|conversation| - 1] == id.key[|id.key| - 1];
    NormalizedIsNodeId(u, SplitColon(rest).value.0);
    NormalizedIsNodeId(u, SplitColon(last).value.0);
    LowerIsIdentity(id.local);
    LowerIsIdentity(id.peer);
    DmRoundTrip(u, id.local, id.peer, id.key);
  }

  lemma {:induction false} SplitIff(s: string, head: string, tail: string)
    ensures SplitColon(s) == Some((head, tail)) <==> NoColon(head) && s == head + ":" + tail
  {
    if SplitColon(s) == Some((head, tail)) {
      SplitParts(s);
    } else if NoColon(head) && s == head + ":" + tail {
      SplitAt(head, tail);
    }
  }

  /** The text of a direct-message ID whose nodes are written as `local` and `peer`. */
  ghost predicate WritesDm(u: Unicode, text: string, local: string, peer: string, id: DmId) {
    && text == "dm:" + local + ":" + peer + ":" + id.key && NoColon(local) && NoColon(peer)
    && NormalizeNodeId(u, local) == Some(id.local) && NormalizeNodeId(u, peer) == Some(id.peer)
  }

  /** Which texts are direct-message IDs, and of which conversation. */
  lemma ParseDmIff(u: Unicode, value: string, id: DmId)
    ensures var text := Strip(u, value);
            ParseDm(u, value) == Some(id) <==>
              && (exists local, peer :: WritesDm(u, text, local, peer, id))
              && |text| <= MAX_CONVERSATION && !HasControl(text) && ValidChannelKey(id.key)
  {
    var text := Strip(u, value);
    if ParseDm(u, value) == Some(id) {
      var local, peer := ParsedDmIsWritten(u, text, id);
    } else if exists local, peer :: WritesDm(u, text, local, peer, id) {
      var local, peer :| WritesDm(u, text, local, peer, id);
      SplitsDm(local, peer, id.key);
    }
  }

  lemma ParsedDmIsWritten(u: Unicode, text: string, id: DmId) returns (local: string, peer: string)
    requires ParseStrippedDm(u, text) == Some(id)
    ensures WritesDm(u, text, local, peer, id)
  {
    var rest := SplitColon(text).value.1;
    var last := SplitColon(rest).value.1;
    local, peer := SplitColon(rest).value.0, SplitColon(last).value.0;
    SplitParts(text);
    SplitParts(rest);
    SplitParts(last);
    assert text == "dm:" + local + ":" + peer + ":" + id.key;
  }

  /** Which texts are public conversation IDs: with a node before the key, or with the key alone. */
  lemma ParsePublicIff(u: Unicode, value: string, id: PublicId)
    ensures var text := Strip(u, value);
            ParsePublic(u, value) == Some(id) <==>
              && ValidChannelKey(id.key)
              && if id.local.None? then text == "channel:" + id.key
                 else exists local :: WritesPublic(u, text, local, id)
  {
    var text := Strip(u, value);
    if StartsWith(text, "channel:") {
      var payload := text[8..];
      assert text == "channel:" + payload;
      if payload != [] && payload[0] == '!' && SplitColon(payload).Some? {
        SplitParts(payload);
        var local := SplitColon(payload).value.0;
        assert text == "channel:" + local + ":" + SplitColon(payload).value.1;
        if ParsePublic(u, value) == Some(id) {
          assert WritesPublic(u, text, local, id);
        }
      }
    }
    if id.local.None? && text == "channel:" + id.key {
      assert text[..8] == "channel:" && text[8..] == id.key;
      if ValidChannelKey(id.key) {
        assert id.key[0] != '!' by {
          KeyStarts(id.key);
        }
      }
    }
    if id.local.Some? && exists local :: WritesPublic(u, text, local, id) {
      var local :| WritesPublic(u, text, local, id);
      PublicTextSplits(local, id.key);
    }
  }

  lemma KeyStarts(key: string)
    requires ValidChannelKey(key)
    ensures key[0] == 'g' || key[0] == 'l' || key[0] == 'p'
  {
    assert StartsWith(key, "global:") ==> key[0] == key[..7][0];
    assert StartsWith(key, "local:") ==> key[0] == key[..6][0];
    assert StartsWith(key, "legacy:") ==> key[0] == key[..7][0];
    assert StartsWith(key, "provisional:") ==> key[0] == key[..12][0];
  }

  ghost predicate WritesPublic(u: Unicode, text: string, local: string, id: PublicId) {
    && text == "channel:" + local + ":" + id.key && local != [] && local[0] == '!' && NoColon(local)
    && id.local.Some? && NormalizeNodeId(u, local) == id.local
  }

  lemma DmLocalIsNodeId(u: Unicode, value: string)
    requires AsciiIsVisible(u) && ParseDm(u, value).Some?
    ensures IsNodeId(ParseDm(u, value).value.local) && IsNodeId(ParseDm(u, value).value.peer)
  {
    var rest := SplitColon(Strip(u, value)).value.1;
    NormalizedIsNodeId(u, SplitColon(rest).value.0);
    NormalizedIsNodeId(u, SplitColon(SplitColon(rest).value.1).value.0);
  }
}
