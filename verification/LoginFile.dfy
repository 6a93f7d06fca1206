/**
 The login file: what it holds, and how many bytes it takes.

 The file is one JSON object without spaces, in which every character outside printable ASCII is
 escaped. A write that would make it larger than 128 KiB is refused before the old file is replaced.
 */
module LoginFile {
  import opened Options
  import ChannelIds

  const MAX_FILE_BYTES: nat := 131072

  /** `bytes` is the printed length of the entry apart from the counter and the flag: ID, name, key and time. */
  datatype Credential = Credential(id: nat, counter: int, eligible: bool, bytes: nat)
  datatype Identity = Identity(user: nat, credentials: seq<Credential>)

  /** `printed` is the length of the expiry, a floating-point number, when printed. */
  datatype Code = Code(digest: nat, expires: int, attempts: int, printed: nat)

  datatype File = File(
    origin: string, generation: nat, identity: Identity, code: Option<Code>, previous: map<string, Identity>)

  // ---------- Sizes ----------

  function EscapedSize(c: char): nat {
    if c == '"' || c == '\\' || c as int in {8, 9, 10, 12, 13} then 2
    else if ' ' <= c <= '~' then 1
    else if c as int <= 0xFFFF then 6
    else 12
  }

  /** The characters of a string, without its quotes. */
  function TextSize(s: string): nat {
    if s == [] then 0 else EscapedSize(s[0]) + TextSize(s[1..])
  }

  function QuotedSize(s: string): nat {
    2 + TextSize(s)
  }

  function CredentialSize(c: Credential): nat {
    c.bytes + |ChannelIds.Decimal(c.counter)| + (if c.eligible then 4 else 5)
  }

  /** Every entry with the comma or bracket after it. */
  function ItemsSize(credentials: seq<Credential>): nat {
    if credentials == [] then 0 else CredentialSize(credentials[0]) + 1 + ItemsSize(credentials[1..])
  }

  function ListSize(credentials: seq<Credential>): nat {
    if credentials == [] then 2 else 1 + ItemsSize(credentials)
  }

  /** An absent code is `null`; otherwise its three keys, a digest of 64 digits and an attempt count of one. */
  function CodeSize(code: Option<Code>): nat {
    if code.None? then 4 else 104 + code.value.printed
  }

  /** One stored origin: its name, and an object with a user ID of 43 characters and the list. */
  function EntrySize(origin: string, identity: Identity): nat {
    QuotedSize(origin) + 73 + ListSize(identity.credentials)
  }

  /** Every stored origin with the comma or brace after it. */
  ghost function EntriesSize(previous: map<string, Identity>): nat
    decreases |previous|
  {
    if previous == map[] then 0
    else
      var o :| o in previous;
      assert (previous - {o}).Keys == previous.Keys - {o};
      EntrySize(o, previous[o]) + 1 + EntriesSize(previous - {o})
  }

  /** The key of the stored origins appears with the first of them. */
  ghost function PreviousSize(previous: map<string, Identity>): nat {
    if previous == map[] then 0 else 21 + EntriesSize(previous)
  }

  /** What the remaining keys, the version and the generation take is fixed. */
  function RestSize(file: File): nat {
    182 + QuotedSize(file.origin) + ListSize(file.identity.credentials) + CodeSize(file.code)
  }

  ghost function FileSize(file: File): nat {
    RestSize(file) + PreviousSize(file.previous)
  }

  ghost predicate Fits(file: File) {
    FileSize(file) <= MAX_FILE_BYTES
  }

  /** The order in which stored origins are counted does not matter. */
  lemma {:induction false} EntriesRemove(previous: map<string, Identity>, o: string)
    requires o in previous
    ensures EntriesSize(previous) == EntrySize(o, previous[o]) + 1 + EntriesSize(previous - {o})
    decreases |previous|
  {
    var p :| p in previous && EntriesSize(previous) == EntrySize(p, previous[p]) + 1 + EntriesSize(previous - {p});
    if p != o {
      assert (previous - {p}).Keys == previous.Keys - {p} && (previous - {o}).Keys == previous.Keys - {o};
      EntriesRemove(previous - {p}, o);
      EntriesRemove(previous - {o}, p);
      assert previous - {p} - {o} == previous - {o} - {p};
    }
  }

  // ---------- The printed file ----------

  function HexChar(n: nat): char
    requires n < 16
  {
    if n < 10 then '0' + n as char else 'a' + (n - 10) as char
  }

  /** Four hexadecimal digits after a mark. */
  function Unit(n: nat): string
    requires n < 0x10000
  {
    ['\\', 'u', HexChar(n / 4096), HexChar(n / 256 % 16), HexChar(n / 16 % 16), HexChar(n % 16)]
  }

  /** A character inside a JSON string; one outside the first plane takes two units, section 7 of RFC 8259. */
  function Escaped(c: char): string {
    var n := c as int;
    if c == '"' then ['\\', '"']
    else if c == '\\' then ['\\', '\\']
    else if n == 8 then "\\b"
    else if n == 9 then "\\t"
    else if n == 10 then "\\n"
    else if n == 12 then "\\f"
    else if n == 13 then "\\r"
    else if 0x20 <= n < 0x7F then [c]
    else if n < 0x10000 then Unit(n)
    else Unit(0xD800 + (n - 0x10000) / 1024) + Unit(0xDC00 + (n - 0x10000) % 1024)
  }

  function EscapedAll(s: string): string {
    if s == [] then [] else Escaped(s[0]) + EscapedAll(s[1..])
  }

  function Quoted(s: string): string {
    "\"" + EscapedAll(s) + "\""
  }

  /**
   How the values the model does not spell out are printed: `before` is an entry up to its counter, `after` what
   follows its flag, with the key of the flag in one of them.
   */
  datatype Printer = Printer(
    user: nat -> string, generation: nat -> string, before: Credential -> string, after: Credential -> string,
    digest: nat -> string, expires: Code -> string)

  ghost predicate Prints(p: Printer) {
    && (forall u :: |p.user(u)| == 43) && (forall g :: |p.generation(g)| == 64) && (forall d :: |p.digest(d)| == 64)
    && (forall c :: |p.before(c)| + |p.after(c)| == c.bytes) && forall c :: |p.expires(c)| == c.printed
  }

  function CredentialText(p: Printer, c: Credential): string {
    p.before(c) + ChannelIds.Decimal(c.counter) + (if c.eligible then "true" else "false") + p.after(c)
  }

  function ItemsText(p: Printer, credentials: seq<Credential>): string {
    if credentials == [] then []
    else CredentialText(p, credentials[0]) + (if |credentials| == 1 then "]" else ",") + ItemsText(p, credentials[1..])
  }

  function ListText(p: Printer, credentials: seq<Credential>): string {
    if credentials == [] then "[]" else "[" + ItemsText(p, credentials)
  }

  function CodeText(p: Printer, code: Option<Code>): string {
    if code.None? then "null"
    else
      var c := code.value;
      "{\"digest\":\"" + p.digest(c.digest) + "\",\"expires_at\":" + p.expires(c) + ",\"attempts\":" + ChannelIds.Decimal(c.attempts) + "}"
  }

  function IdentityText(p: Printer, identity: Identity): string {
    "\"user_id\":\"" + p.user(identity.user) + "\",\"credentials\":" + ListText(p, identity.credentials)
  }

  function EntriesText(p: Printer, previous: map<string, Identity>, order: seq<string>): string
    requires forall o | o in order :: o in previous
  {
    if order == [] then []
    else
      Quoted(order[0]) + ":{" + IdentityText(p, previous[order[0]]) + "}" + (if |order| == 1 then "}" else ",")
      + EntriesText(p, previous, order[1..])
  }

  /** `order` is the order of the stored origins; their key appears with the first of them. */
  function FileText(p: Printer, file: File, order: seq<string>): string
    requires forall o | o in order :: o in file.previous
  {
    "{\"version\":1,\"origin\":" + Quoted(file.origin) + ",\"generation\":\"" + p.generation(file.generation) + "\","
    + IdentityText(p, file.identity) + ",\"code\":" + CodeText(p, file.code)
    + (if order == [] then "" else ",\"previous_origins\":{" + EntriesText(p, file.previous, order)) + "}"
  }

  /** All of the text is ASCII, so the size of the file is the length of its text. */
  lemma SizeIsLength(p: Printer, file: File, order: seq<string>)
    requires Prints(p) && (file.code.Some? ==> 0 <= file.code.value.attempts < 10)
    requires forall o :: o in order <==> o in file.previous
    requires forall i, j | 0 <= i < j < |order| :: order[i] != order[j]
    ensures |FileText(p, file, order)| == FileSize(file)
  {
    QuotedLength(file.origin);
    ListLength(p, file.identity.credentials);
    CodeLength(p, file.code);
    if order == [] {
      assert file.previous == map[];
    } else {
      assert order[0] in file.previous;
      EntriesLength(p, file.previous, order);
    }
  }

  lemma {:induction false} QuotedLength(s: string)
    ensures |Quoted(s)| == QuotedSize(s)
  {
    if s != [] {
      QuotedLength(s[1..]);
    }
  }

  lemma {:induction false} ListLength(p: Printer, credentials: seq<Credential>)
    requires Prints(p)
    ensures |ListText(p, credentials)| == ListSize(credentials) && |ItemsText(p, credentials)| == ItemsSize(credentials)
  {
    if credentials != [] {
      ListLength(p, credentials[1..]);
    }
  }

  lemma CodeLength(p: Printer, code: Option<Code>)
    requires Prints(p) && (code.Some? ==> 0 <= code.value.attempts < 10)
    ensures |CodeText(p, code)| == CodeSize(code)
  {
  }

  lemma IdentityLength(p: Printer, identity: Identity)
    requires Prints(p)
    ensures |IdentityText(p, identity)| == 70 + ListSize(identity.credentials)
  {
    ListLength(p, identity.credentials);
  }

  lemma {:induction false} EntriesLength(p: Printer, previous: map<string, Identity>, order: seq<string>)
    requires Prints(p)
    requires forall o :: o in order <==> o in previous
    requires forall i, j | 0 <= i < j < |order| :: order[i] != order[j]
    ensures |EntriesText(p, previous, order)| == EntriesSize(previous)
    decreases |order|
  {
    if order == [] {
      assert previous == map[];
    } else {
      var o, rest := order[0], order[1..];
      var without := previous - {o};
      assert order == [o] + rest && o in previous;
      assert forall x | x in rest :: x != o && without[x] == previous[x];
      EntriesLength(p, without, rest);
      SameEntries(p, previous, without, rest);
      EntriesRemove(previous, o);
      QuotedLength(o);
      IdentityLength(p, previous[o]);
    }
  }

  lemma {:induction false} SameEntries(p: Printer, a: map<string, Identity>, b: map<string, Identity>, order: seq<string>)
    requires forall o | o in order :: o in a && o in b && a[o] == b[o]
    ensures EntriesText(p, a, order) == EntriesText(p, b, order)
  {
    if order != [] {
      SameEntries(p, a, b, order[1..]);
    }
  }

  // ---------- The file as an object ----------

  class AuthFile {
    var state: File

    constructor (state: File)
      ensures this.state == state
    {
      this.state := state;
    }

    /** The loop of the serialiser over the stored origins. */
    static method Measure(file: File) returns (size: nat)
      ensures size == FileSize(file)
    {
      var entries := 0;
      var rest := file.previous;
      while rest != map[]
        invariant entries + EntriesSize(rest) == EntriesSize(file.previous)
        decreases |rest|
      {
        var o :| o in rest;
        EntriesRemove(rest, o);
        assert (rest - {o}).Keys == rest.Keys - {o};
        entries := entries + EntrySize(o, rest[o]) + 1;
        rest := rest - {o};
      }
      size := RestSize(file) + if file.previous == map[] then 0 else 21 + entries;
    }

    /** A file that would be too large is refused, and the old one is kept. */
    method Write(file: File) returns (ok: bool)
      modifies this
      ensures ok <==> Fits(file)
      ensures state == if ok then file else old(state)
    {
      var size := Measure(file);
      ok := size <= MAX_FILE_BYTES;
      if ok {
        state := file;
      }
    }
  }

  // ---------- Which writes grow the file ----------

  /** The file a terminal command at `origin` writes. */
  function Switched(file: File, origin: string, user: nat): File {
    if file.origin == origin then file
    else
      var origins := file.previous[file.origin := file.identity];
      var identity := if origin in origins then origins[origin] else Identity(user, []);
      file.(origin := origin, identity := identity, previous := origins - {origin})
  }

  /** Spending the code, or an attempt of it, never enlarges the file. */
  lemma SpendingShrinks(file: File, code: Option<Code>)
    requires file.code.Some? && (code.Some? ==> code.value.printed == file.code.value.printed)
    ensures FileSize(file.(code := code)) <= FileSize(file)
  {
  }

  /** Returning to a stored origin moves two entries; only the code may change the size. */
  lemma ReturnSize(file: File, origin: string, user: nat)
    requires origin in file.previous && file.origin !in file.previous
    ensures FileSize(Switched(file, origin, user)) == FileSize(file)
  {
    var origins := file.previous[file.origin := file.identity];
    EntriesRemove(origins, file.origin);
    assert origins - {file.origin} == file.previous;
    EntriesRemove(origins, origin);
    assert file.origin in origins - {origin};
  }

  lemma CodeChangesSize(file: File, generation: nat, code: Option<Code>)
    ensures FileSize(file.(generation := generation, code := code)) + CodeSize(file.code) == FileSize(file) + CodeSize(code)
  {
  }
}
