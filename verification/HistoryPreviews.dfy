/**
 The bounded store of cleanup previews held for clients: adding one evicts old ones, and a token
 starts at most one cleanup, for its own gateway and before it expires.
 */
module HistoryPreviews {
  import opened Options

  const MAX_PREVIEWS: nat := 8
  const MAX_SNAPSHOT_ROWS: nat := 1_000_000
  const PREVIEW_TTL := 300

  /** A saved preview with the number of rows its snapshot names; in insertion order. */
  datatype Saved = Saved(token: string, expires: int, gateway: string, rows: nat)

  function Total(saved: seq<Saved>): nat {
    if saved == [] then 0 else saved[0].rows + Total(saved[1..])
  }

  function Unexpired(saved: seq<Saved>, now: int): seq<Saved> {
    if saved == [] then []
    else if saved[0].expires > now then [saved[0]] + Unexpired(saved[1..], now)
    else Unexpired(saved[1..], now)
  }

  predicate Crowded(saved: seq<Saved>, rows: nat) {
    saved != [] && (|saved| >= MAX_PREVIEWS || rows + Total(saved) > MAX_SNAPSHOT_ROWS)
  }

  function Evict(saved: seq<Saved>, rows: nat): seq<Saved> {
    if Crowded(saved, rows) then Evict(saved[1..], rows) else saved
  }

  /** Tokens are random, so the new one is not in the store. */
  function Add(saved: seq<Saved>, token: string, gateway: string, rows: nat, now: int): seq<Saved> {
    var current := Unexpired(saved, now);
    if rows > MAX_SNAPSHOT_ROWS then current
    else Evict(current, rows) + [Saved(token, now + PREVIEW_TTL, gateway, rows)]
  }

  function IndexOf(saved: seq<Saved>, token: string): (index: Option<nat>)
    ensures index.Some? ==> index.value < |saved| && saved[index.value].token == token
    ensures index.None? ==> forall s | s in saved :: s.token != token
  {
    if saved == [] then None
    else if saved[0].token == token then Some(0)
    else match IndexOf(saved[1..], token)
      case None => None
      case Some(i) => Some(i + 1)
  }

  /** The preview that may be executed, if any; it leaves the store at once. */
  function Take(saved: seq<Saved>, token: string, gateway: string, now: int): (seq<Saved>, Option<Saved>) {
    match IndexOf(saved, token)
    case None => (saved, None)
    case Some(i) =>
      if saved[i].expires <= now || saved[i].gateway != gateway then (saved, None)
      else (saved[..i] + saved[i + 1..], Some(saved[i]))
  }

  class PreviewStore {
    var saved: seq<Saved>

    constructor ()
      ensures saved == []
    {
      saved := [];
    }

    method Preview(token: string, gateway: string, rows: nat, now: int) returns (accepted: bool)
      modifies this
      ensures saved == Add(old(saved), token, gateway, rows, now)
      ensures accepted <==> rows <= MAX_SNAPSHOT_ROWS
    {
      saved := Unexpired(saved, now);
      if rows > MAX_SNAPSHOT_ROWS {
        return false;
      }
      ghost var current := saved;
      while saved != [] && (|saved| >= MAX_PREVIEWS || rows + Total(saved) > MAX_SNAPSHOT_ROWS)
        invariant Evict(saved, rows) == Evict(current, rows)
        decreases |saved|
      {
        saved := saved[1..];
      }
      saved := saved + [Saved(token, now + PREVIEW_TTL, gateway, rows)];
      accepted := true;
    }

    method StartCleanup(token: string, gateway: string, now: int) returns (preview: Option<Saved>)
      modifies this
      ensures (saved, preview) == Take(old(saved), token, gateway, now)
    {
      var index := IndexOf(saved, token);
      if index.None? || saved[index.value].expires <= now || saved[index.value].gateway != gateway {
        return None;
      }
      preview := Some(saved[index.value]);
      saved := saved[..index.value] + saved[index.value + 1..];
    }
  }

  // ---------- The bounds ----------

  ghost predicate Bounded(saved: seq<Saved>) {
    |saved| <= MAX_PREVIEWS && Total(saved) <= MAX_SNAPSHOT_ROWS
  }

  lemma {:induction false} TotalAppend(saved: seq<Saved>, s: Saved)
    ensures Total(saved + [s]) == Total(saved) + s.rows
  {
    if saved == [] {
      assert saved + [s] == [s];
    } else {
      assert (saved + [s])[1..] == saved[1..] + [s];
      TotalAppend(saved[1..], s);
    }
  }

  lemma {:induction false} TotalRemove(saved: seq<Saved>, i: nat)
    requires i < |saved|
    ensures Total(saved[..i] + saved[i + 1..]) + saved[i].rows == Total(saved)
  {
    if i == 0 {
      assert saved[..0] + saved[1..] == saved[1..];
    } else {
      assert (saved[..i] + saved[i + 1..])[1..] == saved[1..][..i - 1] + saved[1..][i..];
      TotalRemove(saved[1..], i - 1);
    }
  }

  lemma {:induction false} EvictMakesRoom(saved: seq<Saved>, rows: nat)
    requires rows <= MAX_SNAPSHOT_ROWS
    ensures |Evict(saved, rows)| < MAX_PREVIEWS && rows + Total(Evict(saved, rows)) <= MAX_SNAPSHOT_ROWS
    ensures forall s | s in Evict(saved, rows) :: s in saved
    ensures DistinctTokens(saved) ==> DistinctTokens(Evict(saved, rows))
  {
    if Crowded(saved, rows) {
      EvictMakesRoom(saved[1..], rows);
    }
  }

  lemma {:induction false} UnexpiredFacts(saved: seq<Saved>, now: int)
    ensures Total(Unexpired(saved, now)) <= Total(saved) && |Unexpired(saved, now)| <= |saved|
    ensures forall s :: s in Unexpired(saved, now) <==> s in saved && s.expires > now
  {
    if saved != [] {
      UnexpiredFacts(saved[1..], now);
      assert saved == [saved[0]] + saved[1..];
      if saved[0].expires > now {
        assert ([saved[0]] + Unexpired(saved[1..], now))[1..] == Unexpired(saved[1..], now);
      }
    }
  }

  lemma PrependDistinct(x: Saved, rest: seq<Saved>)
    requires DistinctTokens(rest) && forall k | 0 <= k < |rest| :: x.token != rest[k].token
    ensures DistinctTokens([x] + rest)
  {
  }

  lemma {:induction false} UnexpiredDistinct(saved: seq<Saved>, now: int)
    requires DistinctTokens(saved)
    ensures DistinctTokens(Unexpired(saved, now))
  {
    if saved != [] {
      var rest := Unexpired(saved[1..], now);
      UnexpiredDistinct(saved[1..], now);
      UnexpiredFacts(saved[1..], now);
      forall k | 0 <= k < |rest| ensures saved[0].token != rest[k].token {
        assert rest[k] in rest;
        var l :| 0 <= l < |saved[1..]| && saved[1..][l] == rest[k];
      }
      PrependDistinct(saved[0], rest);
    }
  }

  /** A preview and those made after it leave no room for another one of `rows` rows. */
  ghost predicate NoRoom(current: seq<Saved>, i: nat, rows: nat)
    requires i < |current|
  {
    |current| - i >= 8 || rows + Total(current[i..]) > 1_000_000
  }

  lemma {:induction false} SuffixIsSmaller(current: seq<Saved>, i: nat, j: nat)
    requires i <= j <= |current|
    ensures Total(current[j..]) <= Total(current[i..])
    decreases j - i
  {
    if i < j {
      assert current[i..][1..] == current[i + 1..];
      SuffixIsSmaller(current, i + 1, j);
    }
  }

  /** Eviction takes previews from the oldest on, and each only while there is no room. */
  lemma {:induction false} EvictedIff(current: seq<Saved>, rows: nat) returns (n: nat)
    requires rows <= 1_000_000
    ensures n <= |current| && Evict(current, rows) == current[n..]
    ensures forall i: nat | i < |current| :: i < n <==> NoRoom(current, i, rows)
  {
    if Crowded(current, rows) {
      var m := EvictedIff(current[1..], rows);
      n := m + 1;
      assert current[1..][m..] == current[n..];
      forall i: nat | i < |current| ensures i < n <==> NoRoom(current, i, rows) {
        if i == 0 {
          assert current[0..] == current;
        } else {
          assert current[1..][i - 1..] == current[i..];
          assert NoRoom(current, i, rows) <==> NoRoom(current[1..], i - 1, rows);
        }
      }
    } else {
      n := 0;
      assert current[0..] == current;
      forall i: nat | i < |current| ensures !NoRoom(current, i, rows) {
        SuffixIsSmaller(current, 0, i);
      }
    }
  }

  /** A request leaves a preview exactly while it is in time and, if accepted, there is room beside those from it on. */
  lemma PreviewIsKeptIff(saved: seq<Saved>, token: string, gateway: string, rows: nat, now: int, i: nat)
    requires DistinctTokens(saved) && i < |Unexpired(saved, now)| && forall x | x in saved :: x.token != token
    ensures var current := Unexpired(saved, now);
            current[i] in Add(saved, token, gateway, rows, now) <==> rows > 1_000_000 || !NoRoom(current, i, rows)
  {
    var current := Unexpired(saved, now);
    UnexpiredFacts(saved, now);
    UnexpiredDistinct(saved, now);
    assert current[i] in current;
    if rows <= 1_000_000 {
      var n := EvictedIff(current, rows);
      SuffixHolds(current, n, i);
      assert Add(saved, token, gateway, rows, now) == current[n..] + [Saved(token, now + 300, gateway, rows)];
    }
  }

  lemma ExpiredIsDropped(saved: seq<Saved>, token: string, gateway: string, rows: nat, now: int, x: Saved)
    requires x in saved && x.token != token && x.expires <= now
    ensures x !in Add(saved, token, gateway, rows, now)
  {
    UnexpiredFacts(saved, now);
    if rows <= 1_000_000 {
      EvictMakesRoom(Unexpired(saved, now), rows);
    }
  }

  lemma SuffixHolds(current: seq<Saved>, n: nat, i: nat)
    requires DistinctTokens(current) && i < |current| && n <= |current|
    ensures current[i] in current[n..] <==> i >= n
  {
    if i >= n {
      assert current[n..][i - n] == current[i];
    } else {
      forall k | 0 <= k < |current[n..]| ensures current[n..][k] != current[i] {
        assert current[n..][k] == current[n + k];
      }
    }
  }

  /** A cleanup starts exactly for a stored preview of the same gateway that is in time, and only that one leaves the store. */
  lemma CleanupStartsIff(saved: seq<Saved>, token: string, gateway: string, now: int, x: Saved)
    requires DistinctTokens(saved)
    ensures var (rest, taken) := Take(saved, token, gateway, now);
            && (taken == Some(x) <==> x in saved && x.token == token && x.gateway == gateway && now < x.expires)
            && (x in rest <==> x in saved && taken != Some(x))
  {
    var i := IndexOf(saved, token);
    var (rest, taken) := Take(saved, token, gateway, now);
    if x in saved {
      var k :| 0 <= k < |saved| && saved[k] == x;
      if i.Some? && k != i.value && taken.Some? {
        assert rest[if k < i.value then k else k - 1] == x;
      }
    }
    if taken.Some? {
      assert forall k | 0 <= k < |rest| :: rest[k] == saved[if k < i.value then k else k + 1];
      assert saved[i.value] in saved;
    }
  }

  /** An accepted preview can be executed by its own gateway for 300 seconds. */
  lemma AcceptedIsStored(saved: seq<Saved>, token: string, gateway: string, rows: nat, now: int)
    ensures Saved(token, now + 300, gateway, rows) in Add(saved, token, gateway, rows, now) || rows > 1_000_000
  {
    var added := Add(saved, token, gateway, rows, now);
    if rows <= 1_000_000 {
      assert added[|added| - 1] == Saved(token, now + 300, gateway, rows);
    }
  }

  ghost predicate DistinctTokens(saved: seq<Saved>) {
    forall i, j | 0 <= i < j < |saved| :: saved[i].token != saved[j].token
  }

  // ---------- Whole runs ----------

  datatype Event =
    | Request(token: string, gateway: string, rows: nat, now: int)
    | Execute(token: string, gateway: string, now: int)

  /** `issued` records the preview of every request, refused ones included, `started` the tokens of the cleanups run; no step reads them. */
  datatype State = State(saved: seq<Saved>, issued: map<string, Saved>, started: seq<string>)

  /** A requested token is new. */
  predicate Enabled(s: State, e: Event) {
    e.Request? ==> e.token !in s.issued
  }

  function Advance(s: State, e: Event): State {
    match e
    case Request(token, gateway, rows, now) =>
      State(Add(s.saved, token, gateway, rows, now),
            s.issued[token := Saved(token, now + PREVIEW_TTL, gateway, rows)], s.started)
    case Execute(token, gateway, now) =>
      var (saved, taken) := Take(s.saved, token, gateway, now);
      State(saved, s.issued, s.started + if taken.Some? then [token] else [])
  }

  ghost predicate IsRun(trace: seq<State>, events: seq<Event>) {
    && |trace| == |events| + 1 && trace[0] == State([], map[], [])
    && forall i | 0 <= i < |events| :: Enabled(trace[i], events[i]) && trace[i + 1] == Advance(trace[i], events[i])
  }

  ghost predicate Inv(s: State) {
    && Bounded(s.saved) && DistinctTokens(s.saved)
    && (forall x | x in s.saved :: x.token in s.issued && s.issued[x.token] == x && x.token !in s.started)
    && (forall t | t in s.started :: t in s.issued)
    && (forall i, j | 0 <= i < j < |s.started| :: s.started[i] != s.started[j])
  }

  lemma AddFacts(saved: seq<Saved>, token: string, gateway: string, rows: nat, now: int)
    requires Bounded(saved) && DistinctTokens(saved) && forall x | x in saved :: x.token != token
    ensures var added := Add(saved, token, gateway, rows, now);
            Bounded(added) && DistinctTokens(added)
            && forall x | x in added :: x in saved || x == Saved(token, now + PREVIEW_TTL, gateway, rows)
  {
    UnexpiredFacts(saved, now);
    UnexpiredDistinct(saved, now);
    if rows <= MAX_SNAPSHOT_ROWS {
      EvictMakesRoom(Unexpired(saved, now), rows);
      TotalAppend(Evict(Unexpired(saved, now), rows), Saved(token, now + PREVIEW_TTL, gateway, rows));
    }
  }

  lemma RequestKeepsInv(s: State, token: string, gateway: string, rows: nat, now: int)
    requires Inv(s) && token !in s.issued
    ensures Inv(Advance(s, Request(token, gateway, rows, now)))
  {
    AddFacts(s.saved, token, gateway, rows, now);
  }

  lemma TakeFacts(saved: seq<Saved>, token: string, gateway: string, now: int)
    requires Bounded(saved) && DistinctTokens(saved)
    ensures var (rest, taken) := Take(saved, token, gateway, now);
            && Bounded(rest) && DistinctTokens(rest) && (forall x | x in rest :: x in saved)
            && (taken.Some? ==> taken.value in saved && taken.value.token == token && taken.value.gateway == gateway
                                && now < taken.value.expires && forall x | x in rest :: x.token != token)
  {
    var (rest, taken) := Take(saved, token, gateway, now);
    if taken.Some? {
      var i := IndexOf(saved, token).value;
      TotalRemove(saved, i);
      assert forall k | 0 <= k < |rest| :: rest[k] == saved[if k < i then k else k + 1];
    }
  }

  lemma ExecuteKeepsInv(s: State, token: string, gateway: string, now: int)
    requires Inv(s)
    ensures Inv(Advance(s, Execute(token, gateway, now)))
  {
    TakeFacts(s.saved, token, gateway, now);
  }

  lemma StepKeepsInv(s: State, e: Event)
    requires Inv(s) && Enabled(s, e)
    ensures Inv(Advance(s, e))
  {
    match e
    case Request(token, gateway, rows, now) => RequestKeepsInv(s, token, gateway, rows, now);
    case Execute(token, gateway, now) => ExecuteKeepsInv(s, token, gateway, now);
  }

  lemma {:induction false} RunKeepsInv(trace: seq<State>, events: seq<Event>, n: nat)
    requires IsRun(trace, events) && n < |trace|
    ensures Inv(trace[n])
  {
    if n > 0 {
      RunKeepsInv(trace, events, n - 1);
      StepKeepsInv(trace[n - 1], events[n - 1]);
    }
  }

  /**
   In every run the store holds at most 8 previews and 1 000 000 rows, an accepted preview is
   always kept, and a cleanup starts at most once per token, only for the gateway the preview was
   made for and less than 300 seconds after it.
   */
  lemma TokensStartOneCleanup(trace: seq<State>, events: seq<Event>, n: nat)
    requires IsRun(trace, events) && n < |events|
    ensures |trace[n].saved| <= MAX_PREVIEWS && Total(trace[n].saved) <= MAX_SNAPSHOT_ROWS
    ensures forall i, j | 0 <= i < j < |trace[n].started| :: trace[n].started[i] != trace[n].started[j]
    ensures events[n].Request? && events[n].rows <= MAX_SNAPSHOT_ROWS ==>
              exists x | x in trace[n + 1].saved :: x.token == events[n].token && x.rows == events[n].rows
    ensures events[n].Execute? && trace[n + 1].started != trace[n].started ==>
              && events[n].token !in trace[n].started && events[n].token in trace[n].issued
              && trace[n].issued[events[n].token].gateway == events[n].gateway
              && events[n].now < trace[n].issued[events[n].token].expires
  {
    RunKeepsInv(trace, events, n);
    var s := trace[n];
    match events[n]
    case Request(token, gateway, rows, now) =>
      if rows <= MAX_SNAPSHOT_ROWS {
        var saved := trace[n + 1].saved;
        assert saved[|saved| - 1] == Saved(token, now + PREVIEW_TTL, gateway, rows);
      }
    case Execute(token, gateway, now) =>
      if Take(s.saved, token, gateway, now).1.Some? {
        assert s.saved[IndexOf(s.saved, token).value] in s.saved;
      }
  }
}
