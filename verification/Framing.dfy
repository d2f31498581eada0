/** Newline framing on the engine's socket. */
module Framing {

  // ---- what a stream means ------------------------------------------------

  function FirstNewline(s: string): (i: nat)
    requires '\n' in s
    ensures i < |s| && s[i] == '\n' && '\n' !in s[..i]
  {
    if s[0] == '\n' then 0
    else
      assert s == [s[0]] + s[1..];
      assert s[..1 + FirstNewline(s[1..])] == [s[0]] + s[1..][..FirstNewline(s[1..])];
      1 + FirstNewline(s[1..])
  }

  function NonEmpty(line: string): seq<string> { if line == "" then [] else [line] }

  /** The complete lines of the stream that are not empty, in order. */
  function Lines(s: string): seq<string> {
    if '\n' !in s then []
    else NonEmpty(s[..FirstNewline(s)]) + Lines(s[FirstNewline(s) + 1..])
  }

  /** What follows the last newline. */
  function Rest(s: string): string {
    if '\n' !in s then s else Rest(s[FirstNewline(s) + 1..])
  }

  lemma FirstNewlineIs(s: string, i: nat)
    requires i < |s| && s[i] == '\n' && '\n' !in s[..i]
    ensures '\n' in s && FirstNewline(s) == i
  {
    assert s[i] in s;
    var j := FirstNewline(s);
    assert forall k :: 0 <= k < i ==> s[..i][k] == s[k];
    assert forall k :: 0 <= k < j ==> s[..j][k] == s[k];
  }

  /** Reading on from what was left over gives what reading the whole would have given. */
  lemma {:induction false} LinesSplit(a: string, b: string)
    ensures Lines(a + b) == Lines(a) + Lines(Rest(a) + b)
    ensures Rest(a + b) == Rest(Rest(a) + b)
    decreases |a|
  {
    hide Lines, Rest, FirstNewline, NonEmpty;
    CutAtNewline(a);
    if '\n' in a {
      var i := FirstNewline(a);
      assert (a + b)[..i] == a[..i];
      FirstNewlineIs(a + b, i);
      CutAtNewline(a + b);
      assert (a + b)[i + 1..] == a[i + 1..] + b;
      LinesSplit(a[i + 1..], b);
    } else {
      assert Lines(a) + Lines(a + b) == Lines(a + b);
    }
  }

  // ---- receiving ----------------------------------------------------------

  function IndexOfNewline(s: string): int {
    if '\n' in s then FirstNewline(s) else -1
  }

  /** One turn of the reading loop. */
  lemma {:induction false} CutAtNewline(s: string)
    ensures -1 <= IndexOfNewline(s) < |s|
    ensures IndexOfNewline(s) == -1 ==> Lines(s) == [] && Rest(s) == s
    ensures
      var i := IndexOfNewline(s);
      i != -1 ==>
        && Lines(s) == NonEmpty(s[..i]) + Lines(s[i + 1..])
        && Rest(s) == Rest(s[i + 1..])
  {
    hide FirstNewline, NonEmpty;
  }

  class LineReader {
    var buffer: string

    constructor ()
      ensures buffer == ""
    {
      buffer := "";
    }

    /** Takes in a chunk and hands over the lines it completes. */
    method OnData(chunk: string) returns (lines: seq<string>)
      modifies this
      ensures lines == Lines(old(buffer) + chunk)
      ensures buffer == Rest(old(buffer) + chunk)
    {
      hide Lines, Rest, IndexOfNewline;
      lines := [];
      buffer := buffer + chunk;
      ghost var all := buffer;
      var newlineIndex := IndexOfNewline(buffer);
      while newlineIndex != -1
        invariant newlineIndex == IndexOfNewline(buffer)
        invariant Lines(all) == lines + Lines(buffer) && Rest(all) == Rest(buffer)
        decreases |buffer|
      {
        CutAtNewline(buffer);
        ghost var was := buffer;
        var line := buffer[..newlineIndex];
        assert lines + NonEmpty(line) + Lines(buffer[newlineIndex + 1..]) == lines + Lines(was);
        buffer := buffer[newlineIndex + 1..];
        if |line| > 0 {
          lines := lines + [line];
        }
        newlineIndex := IndexOfNewline(buffer);
      }
      CutAtNewline(buffer);
    }
  }

  function Concat(chunks: seq<string>): string {
    if chunks == [] then "" else Concat(chunks[..|chunks| - 1]) + chunks[|chunks| - 1]
  }

  /** A reader that starts empty, fed chunk by chunk. */
  method Receive(chunks: seq<string>) returns (lines: seq<string>, left: string)
    ensures lines == Lines(Concat(chunks)) && left == Rest(Concat(chunks))
  {
    var reader := new LineReader();
    lines := [];
    for i := 0 to |chunks|
      invariant lines == Lines(Concat(chunks[..i])) && reader.buffer == Rest(Concat(chunks[..i]))
    {
      assert chunks[..i + 1][..i] == chunks[..i];
      LinesSplit(Concat(chunks[..i]), chunks[i]);
      var more := reader.OnData(chunks[i]);
      lines := lines + more;
    }
    assert chunks[..|chunks|] == chunks;
    left := reader.buffer;
  }

  // ---- sending ------------------------------------------------------------

  /** What sendLine writes for these messages. */
  function Framed(messages: seq<string>): string {
    if messages == [] then "" else messages[0] + "\n" + Framed(messages[1..])
  }

  /** The messages that are not empty. */
  function Proper(messages: seq<string>): (r: seq<string>)
    ensures (forall m <- messages :: m != "") ==> r == messages
  {
    if messages == [] then []
    else
      assert messages[0] in messages && forall m <- messages[1..] :: m in messages;
      assert messages == [messages[0]] + messages[1..];
      if messages[0] == "" then Proper(messages[1..]) else [messages[0]] + Proper(messages[1..])
  }

  /**
   * However the stream is cut into chunks, the messages sent come out unchanged and in order, except that
   * empty ones are dropped, and nothing is left over. A message contains no newline, as JSON text never does.
   */
  lemma {:induction false} SentIsReceived(messages: seq<string>)
    requires forall m <- messages :: '\n' !in m
    ensures Lines(Framed(messages)) == Proper(messages) && Rest(Framed(messages)) == ""
  {
    hide Lines, Rest, FirstNewline;
    CutAtNewline("");
    if messages != [] {
      var m, s := messages[0], Framed(messages);
      assert s[..|m|] == m && s[|m|] == '\n' && s[|m| + 1..] == Framed(messages[1..]);
      FirstNewlineIs(s, |m|);
      CutAtNewline(s);
      SentIsReceived(messages[1..]);
      assert NonEmpty(m) + Proper(messages[1..]) == Proper(messages);
    }
  }

  /** Sender and receiver put together, over any cut of the stream. */
  method Transfer(messages: seq<string>, chunks: seq<string>) returns (lines: seq<string>, left: string)
    requires forall m <- messages :: '\n' !in m
    requires Concat(chunks) == Framed(messages)
    ensures lines == Proper(messages) && left == ""
    ensures (forall m <- messages :: m != "") ==> lines == messages
  {
    lines, left := Receive(chunks);
    SentIsReceived(messages);
  }
}
