/**
 Newline framing on the local socket, on both ends
 (client/daemon/daemonlocalserverconnection.cpp:48-76, 169-172 and
 client/mozilla/localsocketcontroller.cpp:386-412, 571-576).
 */
module Framing {
  import opened Basics

  const NEWLINE: Byte := 10

  /** The white space QByteArray::trimmed removes. */
  predicate IsSpace(b: Byte) { b == 32 || 9 <= b <= 13 }

  function TrimLeft(s: Bytes): Bytes {
    if s != [] && IsSpace(s[0]) then TrimLeft(s[1..]) else s
  }

  function TrimRight(s: Bytes): Bytes {
    if s != [] && IsSpace(s[|s|-1]) then TrimRight(s[..|s|-1]) else s
  }

  function Trim(s: Bytes): Bytes { TrimRight(TrimLeft(s)) }

  /** The position of the first newline, or the length if there is none. */
  function LineEnd(s: Bytes): (p: nat)
    ensures p <= |s| && NEWLINE !in s[..p] && (p < |s| ==> s[p] == NEWLINE)
  {
    if s == [] || s[0] == NEWLINE then 0
    else
      var p := 1 + LineEnd(s[1..]);
      assert s[..p] == [s[0]] + s[1..][..p-1];
      p
  }

  predicate HasLine(s: Bytes) { LineEnd(s) < |s| }

  /** What one complete line dispatches: its trimmed text, or nothing if that is empty. */
  function Dispatch(line: Bytes): seq<Bytes> { if Trim(line) == [] then [] else [Trim(line)] }

  /** The commands in a byte stream: the non-empty trimmed complete lines. */
  function Commands(s: Bytes): seq<Bytes>
    decreases |s|
  {
    if HasLine(s) then Dispatch(s[..LineEnd(s)]) + Commands(s[LineEnd(s)+1..]) else []
  }

  /** The unterminated rest of a byte stream. */
  function Tail(s: Bytes): Bytes
    decreases |s|
  {
    if HasLine(s) then Tail(s[LineEnd(s)+1..]) else s
  }

  lemma {:induction false} LineEndIsFirst(s: Bytes, p: nat)
    requires p <= |s| && NEWLINE !in s[..p] && (p < |s| ==> s[p] == NEWLINE)
    ensures LineEnd(s) == p
  {
    if p > 0 {
      assert s[..p] == [s[0]] + s[1..][..p-1];
      LineEndIsFirst(s[1..], p-1);
    }
  }

  lemma LineInPrefix(a: Bytes, b: Bytes)
    requires HasLine(a)
    ensures LineEnd(a + b) == LineEnd(a)
  {
    assert (a + b)[..LineEnd(a)] == a[..LineEnd(a)];
    LineEndIsFirst(a + b, LineEnd(a));
  }

  /** Reading a stream in two parts dispatches the same commands and keeps the same rest. */
  lemma {:induction false} SplitRead(a: Bytes, b: Bytes)
    ensures Commands(a + b) == Commands(a) + Commands(Tail(a) + b)
    ensures Tail(a + b) == Tail(Tail(a) + b)
    decreases |a|
  {
    hide Commands, Tail, LineEnd, Dispatch;
    if HasLine(a) {
      LineInPrefix(a, b);
      var p := LineEnd(a);
      assert (a + b)[..p] == a[..p] && (a + b)[p+1..] == a[p+1..] + b;
      FirstLine(a);
      FirstLine(a + b);
      SplitRead(a[p+1..], b);
    } else {
      NoLineLeft(a);
    }
  }

  // ---------------------------------------------------------------- readers

  function Concat(chunks: seq<Bytes>): Bytes {
    if chunks == [] then [] else Concat(chunks[..|chunks|-1]) + chunks[|chunks|-1]
  }

  /** The bytes the server's loop gets: the reads up to the first empty one. */
  function Flow(pending: seq<Bytes>): Bytes {
    if pending == [] || pending[0] == [] then [] else pending[0] + Flow(pending[1..])
  }

  /** One end of the socket: its buffer, and the commands it has dispatched. */
  class Reader {
    var buffer: Bytes
    ghost var dispatched: seq<Bytes>

    constructor ()
      ensures buffer == [] && dispatched == []
    {
      buffer := [];
      dispatched := [];
    }

    method IndexOfNewline() returns (pos: int)
      ensures pos == if HasLine(buffer) then LineEnd(buffer) else -1
    {
      for i := 0 to |buffer|
        invariant NEWLINE !in buffer[..i]
      {
        if buffer[i] == NEWLINE {
          LineEndIsFirst(buffer, i);
          return i;
        }
        assert buffer[..i+1] == buffer[..i] + [buffer[i]];
      }
      LineEndIsFirst(buffer, |buffer|);
      return -1;
    }

    /** Cuts the first line off the buffer and dispatches it unless it is blank. */
    method TakeLine(pos: nat)
      requires HasLine(buffer) && pos == LineEnd(buffer)
      modifies this
      ensures buffer == old(buffer)[pos+1..]
      ensures dispatched == old(dispatched) + Dispatch(old(buffer)[..pos])
    {
      var line := buffer[..pos];
      buffer := buffer[pos+1..];
      var command := Trim(line);
      if command == [] {
        return;
      }
      dispatched := dispatched + [command];
    }

    /** The client: append what one read gives, then take lines until there is none left. */
    method ClientReadData(input: Bytes)
      modifies this
      ensures buffer == Tail(old(buffer) + input) && !HasLine(buffer)
      ensures dispatched == old(dispatched) + Commands(old(buffer) + input)
    {
      hide Commands, Tail;
      buffer := buffer + input;
      ghost var all, was := buffer, dispatched;
      while true
        invariant Tail(buffer) == Tail(all) && dispatched + Commands(buffer) == was + Commands(all)
        decreases |buffer|
      {
        var pos := IndexOfNewline();
        if pos == -1 {
          NoLineLeft(buffer);
          break;
        }
        FirstLine(buffer);
        TakeLine(pos);
      }
    }

    /** The server: take a line if there is one, otherwise read more, until a read gives nothing. */
    method ServerReadData(pending: seq<Bytes>)
      modifies this
      ensures buffer == Tail(old(buffer) + Flow(pending)) && !HasLine(buffer)
      ensures dispatched == old(dispatched) + Commands(old(buffer) + Flow(pending))
    {
      hide Commands, Tail;
      ghost var was, seen := dispatched, buffer;
      var rest := pending;
      while true
        invariant old(buffer) + Flow(pending) == seen + Flow(rest)
        invariant Tail(buffer) == Tail(seen) && dispatched + Commands(buffer) == was + Commands(seen)
        decreases |rest|, |buffer|
      {
        var pos := IndexOfNewline();
        if pos == -1 {
          NoLineLeft(buffer);
          var input := if rest == [] then [] else rest[0];
          if input == [] {
            break;
          }
          SplitRead(seen, input);
          assert seen + (input + Flow(rest[1..])) == (seen + input) + Flow(rest[1..]);
          assert (dispatched + []) + Commands(buffer + input) == was + (Commands(seen) + Commands(buffer + input));
          buffer, seen, rest := buffer + input, seen + input, rest[1..];
        } else {
          FirstLine(buffer);
          TakeLine(pos);
        }
      }
      assert seen + [] == seen;
    }
  }

  lemma NoLineLeft(s: Bytes)
    requires !HasLine(s)
    ensures Commands(s) == [] && Tail(s) == s
  {
  }

  lemma FirstLine(s: Bytes)
    requires HasLine(s)
    ensures Commands(s) == Dispatch(s[..LineEnd(s)]) + Commands(s[LineEnd(s)+1..])
    ensures Tail(s) == Tail(s[LineEnd(s)+1..])
  {
    hide LineEnd, Dispatch, HasLine, IsSpace;
  }

  // ---------------------------------------------------------------- chunking does not matter

  /** A reader fed chunk by chunk: its buffer and everything it dispatched. */
  function FedBuffer(start: Bytes, chunks: seq<Bytes>): Bytes {
    if chunks == [] then start else Tail(FedBuffer(start, chunks[..|chunks|-1]) + chunks[|chunks|-1])
  }

  function FedCommands(start: Bytes, chunks: seq<Bytes>): seq<Bytes> {
    if chunks == [] then []
    else FedCommands(start, chunks[..|chunks|-1])
         + Commands(FedBuffer(start, chunks[..|chunks|-1]) + chunks[|chunks|-1])
  }

  /**
   Framing is independent of chunking: however a stream is cut into reads, the
   commands dispatched are its non-empty trimmed complete lines and the buffer
   keeps exactly the unterminated rest.
   */
  lemma {:induction false} ChunkingDoesNotMatter(start: Bytes, chunks: seq<Bytes>)
    requires !HasLine(start)
    ensures FedCommands(start, chunks) == Commands(start + Concat(chunks))
    ensures FedBuffer(start, chunks) == Tail(start + Concat(chunks))
  {
    if chunks == [] {
      assert start + [] == start;
    } else {
      var init, last := chunks[..|chunks|-1], chunks[|chunks|-1];
      ChunkingDoesNotMatter(start, init);
      SplitRead(start + Concat(init), last);
      assert start + (Concat(init) + last) == (start + Concat(init)) + last;
    }
  }

  /** The server's loop sees every chunk as long as none of them is empty. */
  lemma {:induction false} FlowIsConcat(chunks: seq<Bytes>)
    requires forall i :: 0 <= i < |chunks| ==> chunks[i] != []
    ensures Flow(chunks) == Concat(chunks)
  {
    if chunks != [] {
      FlowIsConcat(chunks[1..]);
      ConcatFront(chunks);
    }
  }

  lemma {:induction false} ConcatFront(chunks: seq<Bytes>)
    requires chunks != []
    ensures Concat(chunks) == chunks[0] + Concat(chunks[1..])
  {
    if |chunks| > 1 {
      ConcatFront(chunks[..|chunks|-1]);
      assert chunks[1..][..|chunks|-2] == chunks[..|chunks|-1][1..];
    }
  }

  /** The server's pull loop over a list of reads and the client's one-read-a-call loop agree. */
  lemma PullAndPushAgree(start: Bytes, chunks: seq<Bytes>)
    requires !HasLine(start) && forall i :: 0 <= i < |chunks| ==> chunks[i] != []
    ensures Commands(start + Flow(chunks)) == FedCommands(start, chunks)
    ensures Tail(start + Flow(chunks)) == FedBuffer(start, chunks)
  {
    FlowIsConcat(chunks);
    ChunkingDoesNotMatter(start, chunks);
  }

  // ---------------------------------------------------------------- round trip

  /** What a sender writes: every message followed by a newline. */
  function Wire(messages: seq<Bytes>): Bytes {
    if messages == [] then [] else messages[0] + [10] + Wire(messages[1..])
  }

  /** Neither a blank nor a tab, line feed, vertical tab, form feed or carriage return. */
  predicate Visible(b: Byte) { b !in {32, 9, 10, 11, 12, 13} }

  /** A message that starts and ends with something visible and holds no line feed, as compact JSON objects do. */
  predicate Sendable(m: Bytes) {
    m != [] && 10 !in m && Visible(m[0]) && Visible(m[|m|-1])
  }

  lemma WireOne(m: Bytes, rest: Bytes)
    requires NEWLINE !in m
    ensures Commands(m + [NEWLINE] + rest) == Dispatch(m) + Commands(rest)
    ensures Tail(m + [NEWLINE] + rest) == Tail(rest)
  {
    var s := m + [NEWLINE] + rest;
    assert s[..|m|] == m && s[|m|] == NEWLINE && s[|m|+1..] == rest;
    LineEndIsFirst(s, |m|);
  }

  /** Any sequence of sendable messages is received exactly, whatever the chunks. */
  lemma {:induction false} MessagesArriveExactly(messages: seq<Bytes>, chunks: seq<Bytes>)
    requires forall i :: 0 <= i < |messages| ==> Sendable(messages[i])
    requires Concat(chunks) == Wire(messages)
    ensures FedCommands([], chunks) == messages && FedBuffer([], chunks) == []
  {
    ChunkingDoesNotMatter([], chunks);
    assert [] + Concat(chunks) == Wire(messages);
    WireIsReceived(messages);
  }

  lemma SendableDispatch(m: Bytes)
    requires Sendable(m)
    ensures Dispatch(m) == [m]
  {
  }

  lemma {:induction false} WireIsReceived(messages: seq<Bytes>)
    requires forall i :: 0 <= i < |messages| ==> Sendable(messages[i])
    ensures Commands(Wire(messages)) == messages && Tail(Wire(messages)) == []
  {
    hide Commands, Tail, Dispatch;
    NoLineLeft([]);
    if messages != [] {
      WireOne(messages[0], Wire(messages[1..]));
      SendableDispatch(messages[0]);
      WireIsReceived(messages[1..]);
    }
  }

  lemma {:induction false} TrimLeftShape(s: Bytes)
    ensures |TrimLeft(s)| <= |s| && TrimLeft(s) == s[|s|-|TrimLeft(s)|..]
    ensures TrimLeft(s) != [] ==> !IsSpace(TrimLeft(s)[0])
  {
    if s != [] && IsSpace(s[0]) { TrimLeftShape(s[1..]); }
  }

  lemma {:induction false} TrimRightShape(s: Bytes)
    ensures |TrimRight(s)| <= |s| && TrimRight(s) == s[..|TrimRight(s)|]
    ensures TrimRight(s) != [] ==> !IsSpace(TrimRight(s)[|TrimRight(s)|-1])
  {
    if s != [] && IsSpace(s[|s|-1]) { TrimRightShape(s[..|s|-1]); }
  }

  lemma TrimShape(s: Bytes)
    ensures Trim(s) != [] ==> !IsSpace(Trim(s)[0]) && !IsSpace(Trim(s)[|Trim(s)|-1])
    ensures forall b :: b in Trim(s) ==> b in s
  {
    TrimLeftShape(s);
    TrimRightShape(TrimLeft(s));
  }

  lemma {:induction false} CommandsAreSendable(s: Bytes)
    ensures forall i :: 0 <= i < |Commands(s)| ==> Sendable(Commands(s)[i])
    decreases |s|
  {
    if HasLine(s) {
      TrimShape(s[..LineEnd(s)]);
      CommandsAreSendable(s[LineEnd(s)+1..]);
    }
  }

  predicate Blank(s: Bytes) { forall i :: 0 <= i < |s| ==> s[i] in {32, 9, 11, 12, 13} }

  lemma {:induction false} TrimLeftPadding(left: Bytes, s: Bytes)
    requires Blank(left) && (s == [] || Visible(s[0]))
    ensures TrimLeft(left + s) == s
  {
    if left == [] {
      assert left + s == s;
    } else {
      assert (left + s)[1..] == left[1..] + s;
      TrimLeftPadding(left[1..], s);
    }
  }

  lemma {:induction false} TrimRightPadding(s: Bytes, right: Bytes)
    requires Blank(right) && (s == [] || Visible(s[|s|-1]))
    ensures TrimRight(s + right) == s
  {
    if right == [] {
      assert s + right == s;
    } else {
      var n := |s + right| - 1;
      assert (s + right)[..n] == s + right[..|right|-1];
      TrimRightPadding(s, right[..|right|-1]);
    }
  }

  /** White space around a message is dropped, and a line of white space is no message. */
  lemma PaddingIsDropped(left: Bytes, m: Bytes, right: Bytes)
    requires Blank(left) && Blank(right) && (m == [] || Sendable(m))
    ensures Commands(left + m + right + [10]) == if m == [] then [] else [m]
  {
    hide Commands, Dispatch;
    var line := left + m + right;
    assert line + [10] == line + [NEWLINE] + [];
    WireOne(line, []);
    NoLineLeft([]);
    if m == [] {
      assert line == (left + right) + [];
      TrimLeftPadding(left + right, []);
    } else {
      assert line == left + (m + right);
      TrimLeftPadding(left, m + right);
      TrimRightPadding(m, right);
    }
    DispatchesTrimmed(line);
  }

  lemma DispatchesTrimmed(line: Bytes)
    ensures Dispatch(line) == if Trim(line) == [] then [] else [Trim(line)]
  {
  }

  lemma NotEmpty(m: Bytes)
    requires Sendable(m)
    ensures m != []
  {
  }

  /** A single message arrives as it was sent if and only if it is sendable. */
  lemma SendableExactly(m: Bytes)
    ensures Commands(m + [10]) == [m] <==> Sendable(m)
  {
    hide Commands, Dispatch, Sendable;
    if Sendable(m) {
      assert Blank([]) && [] + m + [] + [10] == m + [10];
      NotEmpty(m);
      PaddingIsDropped([], m, []);
    }
    CommandsAreSendable(m + [NEWLINE]);
    if Commands(m + [NEWLINE]) == [m] {
      assert Sendable(Commands(m + [NEWLINE])[0]);
    }
  }
}
