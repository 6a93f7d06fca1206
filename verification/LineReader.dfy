/**
 Reading lines straight from a socket that hands over its bytes in chunks of any size.
 */
module LineReader {
  import opened Arithmetic

  newtype Byte = x: int | 0 <= x < 256

  const NEWLINE: Byte := 10
  const MAX_RESPONSE_BYTES: nat := 2_000_000
  const MAX_CHUNK: nat := 64 * 1024

  /** The index of the first newline, or the length when there is none. */
  function Find(s: seq<Byte>): (i: nat)
    ensures i <= |s| && (i < |s| ==> s[i] == NEWLINE) && forall k | 0 <= k < i :: s[k] != NEWLINE
  {
    if s == [] || s[0] == NEWLINE then 0 else 1 + Find(s[1..])
  }

  /** The first line of a stream, cut at the maximum length; the last line may lack its newline. */
  function FirstLine(stream: seq<Byte>, maximum: nat): seq<Byte> {
    stream[..Min(Min(Find(stream) + 1, |stream|), maximum)]
  }

  /** Cutting a whole stream into lines. */
  function Split(stream: seq<Byte>, maximum: nat): seq<seq<Byte>>
    requires maximum > 0
    decreases |stream|
  {
    if stream == [] then [] else [FirstLine(stream, maximum)] + Split(stream[|FirstLine(stream, maximum)|..], maximum)
  }

  datatype Item = Line(line: seq<Byte>) | Stop | TooLarge

  /** The peer's bytes that were not received yet; an empty chunk means the peer has closed. */
  class Socket {
    var pending: seq<Byte>

    constructor (bytes: seq<Byte>)
      ensures pending == bytes
    {
      pending := bytes;
    }

    /** Any non-empty part of what is pending, up to the size asked for. */
    method Recv(size: nat) returns (chunk: seq<Byte>)
      requires size > 0
      modifies this
      ensures chunk + pending == old(pending) && |chunk| <= size
      ensures chunk == [] ==> old(pending) == []
    {
      if pending == [] {
        return [];
      }
      var n: nat :| 0 < n <= |pending| && n <= size;
      chunk := pending[..n];
      pending := pending[n..];
    }
  }

  class SocketLineStream {
    const socket: Socket
    var buffer: seq<Byte>

    constructor (socket: Socket)
      ensures this.socket == socket && buffer == []
    {
      this.socket := socket;
      buffer := [];
    }

    /** Everything that was not handed out yet. */
    ghost function Rest(): seq<Byte>
      reads this, socket
    {
      buffer + socket.pending
    }

    /** A newline that is already buffered ends the line even past the maximum. */
    method ReadLine(maximum: nat) returns (line: seq<Byte>)
      modifies this, socket
      ensures line == if maximum <= Find(old(buffer)) < |old(buffer)| then old(buffer)[..Find(old(buffer)) + 1]
                      else FirstLine(old(Rest()), maximum)
      ensures line + Rest() == old(Rest())
      ensures |buffer| <= |old(buffer)| || |buffer| <= maximum
    {
      while true
        invariant Rest() == old(Rest())
        invariant buffer == old(buffer) || (Find(old(buffer)) == |old(buffer)| && |buffer| <= maximum)
        decreases |socket.pending|
      {
        ghost var b, p := buffer, socket.pending;
        LineOfBuffer(b, p, maximum);
        var newline := Find(buffer);
        if newline < |buffer| {
          line := buffer[..newline + 1];
          buffer := buffer[newline + 1..];
          CutKeepsRest(b, newline + 1, p);
          return;
        }
        if |buffer| >= maximum {
          line := buffer[..maximum];
          buffer := buffer[maximum..];
          CutKeepsRest(b, maximum, p);
          return;
        }
        var chunk := socket.Recv(Min(MAX_CHUNK, maximum - |buffer|));
        if chunk == [] {
          line := buffer;
          buffer := [];
          return;
        }
        buffer := buffer + chunk;
        Regroup(b, chunk, socket.pending);
      }
    }

    method Next() returns (item: Item)
      requires |buffer| <= MAX_RESPONSE_BYTES + 1
      modifies this, socket
      ensures item == NextItem(old(Rest()))
      ensures Rest() == old(Rest())[|FirstLine(old(Rest()), MAX_RESPONSE_BYTES + 1)|..]
      ensures |buffer| <= MAX_RESPONSE_BYTES + 1
    {
      var line := ReadLine(MAX_RESPONSE_BYTES + 1);
      if line == [] {
        return Stop;
      }
      if |line| > MAX_RESPONSE_BYTES {
        return TooLarge;
      }
      item := Line(line);
    }

    /** A caller that reads line after line to the end. */
    method ReadLines(maximum: nat) returns (lines: seq<seq<Byte>>)
      requires 0 < maximum && |buffer| <= maximum
      modifies this, socket
      ensures lines == Split(old(Rest()), maximum) && Rest() == []
    {
      lines := [];
      ghost var rest := Rest();
      while true
        invariant |buffer| <= maximum && lines + Split(Rest(), maximum) == Split(rest, maximum)
        decreases |Rest()|
      {
        var line := ReadLine(maximum);
        if line == [] {
          return;
        }
        lines := lines + [line];
      }
    }
  }

  function NextItem(stream: seq<Byte>): Item {
    var line := FirstLine(stream, MAX_RESPONSE_BYTES + 1);
    if line == [] then Stop else if |line| > MAX_RESPONSE_BYTES then TooLarge else Line(line)
  }

  lemma {:induction false} FindInPrefix(a: seq<Byte>, b: seq<Byte>)
    ensures Find(a + b) == if Find(a) < |a| then Find(a) else |a| + Find(b)
  {
    var i := if Find(a) < |a| then Find(a) else |a| + Find(b);
    assert forall k | 0 <= k < i :: (a + b)[k] != NEWLINE;
    assert i < |a + b| ==> (a + b)[i] == NEWLINE;
  }

  lemma CutKeepsRest(b: seq<Byte>, n: nat, p: seq<Byte>)
    requires n <= |b|
    ensures b[..n] + (b[n..] + p) == b + p
  {
    assert b == b[..n] + b[n..];
  }

  lemma Regroup(b: seq<Byte>, chunk: seq<Byte>, p: seq<Byte>)
    ensures (b + chunk) + p == b + (chunk + p)
  {
  }

  /** What the buffer alone tells about the first line of the stream. */
  lemma LineOfBuffer(buffer: seq<Byte>, pending: seq<Byte>, maximum: nat)
    ensures Find(buffer) < |buffer| && Find(buffer) < maximum ==> FirstLine(buffer + pending, maximum) == buffer[..Find(buffer) + 1]
    ensures Find(buffer) == |buffer| >= maximum ==> FirstLine(buffer + pending, maximum) == buffer[..maximum]
    ensures Find(buffer) == |buffer| <= maximum && pending == [] ==> FirstLine(buffer + pending, maximum) == buffer
  {
    FindInPrefix(buffer, pending);
  }

  /** A response is refused exactly when it does not end within the allowed bytes. */
  lemma NextItemFacts(stream: seq<Byte>)
    ensures NextItem(stream).Stop? <==> stream == []
    ensures NextItem(stream).TooLarge? <==> |stream| > MAX_RESPONSE_BYTES && NEWLINE !in stream[..MAX_RESPONSE_BYTES]
    ensures NextItem(stream).Line? ==>
              var line := NextItem(stream).line;
              line <= stream && IsLine(line, MAX_RESPONSE_BYTES) && (line == stream || line[|line| - 1] == NEWLINE)
  {
    var n := Find(stream);
    if n < MAX_RESPONSE_BYTES && n < |stream| && |stream| > MAX_RESPONSE_BYTES {
      assert stream[..MAX_RESPONSE_BYTES][n] == NEWLINE;
    }
  }

  // ---------- What splitting means ----------

  ghost function Concat(lines: seq<seq<Byte>>): seq<Byte> {
    if lines == [] then [] else lines[0] + Concat(lines[1..])
  }

  /** A non-empty line within the maximum, with no newline before its last byte. */
  ghost predicate IsLine(line: seq<Byte>, maximum: nat) {
    0 < |line| <= maximum && forall k | 0 <= k < |line| - 1 :: line[k] != NEWLINE
  }

  /** A line that must end where it does. */
  ghost predicate IsComplete(line: seq<Byte>, maximum: nat) {
    IsLine(line, maximum) && (line[|line| - 1] == NEWLINE || |line| == maximum)
  }

  ghost predicate AreLines(lines: seq<seq<Byte>>, maximum: nat) {
    && (forall line | line in lines :: IsLine(line, maximum))
    && forall i | 0 <= i < |lines| - 1 :: IsComplete(lines[i], maximum)
  }

  /** No byte is lost or repeated, and every line but the last is complete. */
  lemma {:induction false} SplitIsLines(stream: seq<Byte>, maximum: nat)
    requires maximum > 0
    ensures Concat(Split(stream, maximum)) == stream && AreLines(Split(stream, maximum), maximum)
    decreases |stream|
  {
    if stream != [] {
      var line := FirstLine(stream, maximum);
      var rest := stream[|line|..];
      var lines := Split(rest, maximum);
      SplitIsLines(rest, maximum);
      FirstLineFacts(stream, maximum);
      assert ([line] + lines)[1..] == lines;
      assert lines != [] ==> rest != [];
      PrependLine(line, lines, maximum);
    }
  }

  lemma FirstLineFacts(stream: seq<Byte>, maximum: nat)
    requires maximum > 0 && stream != []
    ensures var line := FirstLine(stream, maximum);
            && IsLine(line, maximum) && line + stream[|line|..] == stream
            && (|line| < |stream| ==> IsComplete(line, maximum))
  {
  }

  lemma PrependLine(line: seq<Byte>, lines: seq<seq<Byte>>, maximum: nat)
    requires IsLine(line, maximum) && AreLines(lines, maximum) && (lines != [] ==> IsComplete(line, maximum))
    ensures AreLines([line] + lines, maximum)
  {
    forall i | 0 <= i < |lines| ensures IsComplete(([line] + lines)[i], maximum) {
      if i > 0 {
        assert ([line] + lines)[i] == lines[i - 1];
      }
    }
  }

  /** Any way of cutting a stream into such lines is the split: the chunks of the socket cannot matter. */
  lemma {:induction false} SplitIsUnique(stream: seq<Byte>, lines: seq<seq<Byte>>, maximum: nat)
    requires maximum > 0 && Concat(lines) == stream && AreLines(lines, maximum)
    ensures lines == Split(stream, maximum)
    decreases |lines|
  {
    if lines != [] {
      var line, rest := lines[0], Concat(lines[1..]);
      FindInPrefix(line, rest);
      assert line in lines;
      if |lines| == 1 {
        assert rest == [];
      } else {
        assert IsComplete(lines[0], maximum);
      }
      assert Find(line) >= |line| - 1;
      assert FirstLine(stream, maximum) == line;
      assert stream[|line|..] == rest;
      forall i | 0 <= i < |lines[1..]| - 1 ensures IsComplete(lines[1..][i], maximum) {
        assert lines[1..][i] == lines[i + 1];
      }
      SplitIsUnique(rest, lines[1..], maximum);
    }
  }
}
