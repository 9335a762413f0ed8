/** Line framing of a client's input and the bounded output buffer. */
module ClientTransport {
  import opened Basics
  import opened Bits

  // ----- input -----

  /** Complete lines of a text, without their newlines, and what follows the last newline. */
  datatype Framed = Framed(lines: seq<string>, rest: string)

  function FirstNewline(text: string): (n: nat)
    ensures n <= |text|
    ensures n < |text| ==> text[n] == '\n'
    ensures forall i :: 0 <= i < n ==> text[i] != '\n'
  {
    if text == "" || text[0] == '\n' then 0 else 1 + FirstNewline(text[1..])
  }

  function Frame(text: string): Framed
    decreases |text|
  {
    var n := FirstNewline(text);
    if n == |text| then Framed([], text)
    else
      var f := Frame(text[n + 1..]);
      Framed([text[..n]] + f.lines, f.rest)
  }

  function Unframe(f: Framed): string
    decreases |f.lines|
  {
    if f.lines == [] then f.rest else f.lines[0] + "\n" + Unframe(Framed(f.lines[1..], f.rest))
  }

  lemma {:induction false} FrameStep(text: string)
    ensures var n := FirstNewline(text);
            Frame(text) == if n == |text| then Framed([], text)
                           else Framed([text[..n]] + Frame(text[n + 1..]).lines, Frame(text[n + 1..]).rest)
  {
  }

  lemma {:induction false} UnframeStep(line: string, f: Framed)
    ensures Unframe(Framed([line] + f.lines, f.rest)) == line + "\n" + Unframe(f)
  {
    assert ([line] + f.lines)[1..] == f.lines;
  }

  /** Framing loses and invents nothing, and leaves no newline in lines or rest. */
  lemma {:induction false} FrameConserves(text: string)
    ensures Unframe(Frame(text)) == text
    ensures '\n' !in Frame(text).rest
    ensures forall i :: 0 <= i < |Frame(text).lines| ==> '\n' !in Frame(text).lines[i]
    decreases |text|
  {
    hide Frame, FirstNewline;
    var n := FirstNewline(text);
    FrameStep(text);
    if n < |text| {
      FrameConserves(text[n + 1..]);
      var f := Frame(text[n + 1..]);
      UnframeStep(text[..n], f);
      assert text == text[..n] + "\n" + text[n + 1..];
    } else {
      assert Unframe(Framed([], text)) == text;
    }
  }

  lemma {:induction false} FirstNewlineOfAppend(a: string, b: string)
    ensures FirstNewline(a + b) == if FirstNewline(a) < |a| then FirstNewline(a) else |a| + FirstNewline(b)
  {
    if a == "" {
      assert a + b == b;
    } else if a[0] != '\n' {
      assert (a + b)[1..] == a[1..] + b;
      FirstNewlineOfAppend(a[1..], b);
    }
  }

  /** Framing can stop after any prefix and go on with the rest it left. */
  lemma {:induction false} FrameOfAppend(a: string, b: string)
    ensures Frame(a + b) == Framed(Frame(a).lines + Frame(Frame(a).rest + b).lines, Frame(Frame(a).rest + b).rest)
    decreases |a|
  {
    hide Frame, FirstNewline;
    var n := FirstNewline(a);
    FirstNewlineOfAppend(a, b);
    FrameStep(a);
    if n < |a| {
      var tail := a[n + 1..];
      assert (a + b)[..n] == a[..n] && (a + b)[n + 1..] == tail + b;
      FrameStep(a + b);
      FrameOfAppend(tail, b);
      var more := Frame(Frame(tail).rest + b).lines;
      assert [a[..n]] + (Frame(tail).lines + more) == ([a[..n]] + Frame(tail).lines) + more;
    } else {
      assert [] + Frame(a + b).lines == Frame(a + b).lines;
    }
  }

  predicate Blank(line: string, space: char -> bool) { forall i :: 0 <= i < |line| ==> space(line[i]) }

  function NonBlank(lines: seq<string>, space: char -> bool): seq<string> {
    if lines == [] then []
    else NonBlank(lines[..|lines| - 1], space)
         + if Blank(lines[|lines| - 1], space) then [] else [lines[|lines| - 1]]
  }

  lemma {:induction false} NonBlankStep(lines: seq<string>, line: string, space: char -> bool)
    ensures NonBlank([], space) == []
    ensures NonBlank(lines + [line], space) == NonBlank(lines, space) + if Blank(line, space) then [] else [line]
  {
    assert (lines + [line])[..|lines|] == lines;
  }

  lemma {:induction false} NonBlankOfAppend(a: seq<string>, b: seq<string>, space: char -> bool)
    ensures NonBlank(a + b, space) == NonBlank(a, space) + NonBlank(b, space)
  {
    if b == [] {
      assert a + b == a;
    } else {
      assert (a + b)[..|a + b| - 1] == a + b[..|b| - 1];
      NonBlankOfAppend(a, b[..|b| - 1], space);
    }
  }

  /** Exactly the lines that are not blank remain, each as often as it came, in the same order:
      the `k`-th line that is not blank is the one handed over after those before it. */
  lemma {:induction false} HandsOverExactly(lines: seq<string>, space: char -> bool, k: nat)
    ensures multiset(NonBlank(lines, space)) <= multiset(lines)
    ensures forall line :: line in NonBlank(lines, space) <==> line in lines && !Blank(line, space)
    ensures k < |lines| && !Blank(lines[k], space) ==>
              |NonBlank(lines[..k], space)| < |NonBlank(lines, space)|
              && NonBlank(lines, space)[|NonBlank(lines[..k], space)|] == lines[k]
  {
    hide Blank, NonBlank;
    if lines == [] {
      NonBlankStep([], "", space);
    } else {
      var n := |lines| - 1;
      HandsOverExactly(lines[..n], space, k);
      assert lines == lines[..n] + [lines[n]];
      NonBlankStep(lines[..n], lines[n], space);
      if k < n { assert lines[..n][..k] == lines[..k]; }
    }
  }

  class ClientInput {
    const space: char -> bool
    var buffer: string

    constructor (space: char -> bool)
      ensures this.space == space && buffer == ""
    {
      this.space, buffer := space, "";
    }

    /** Handle one received chunk; every complete line that is not blank is handed over. */
    method ServiceChunk(chunk: string) returns (handed: seq<string>)
      modifies this
      ensures handed == NonBlank(Frame(old(buffer) + chunk).lines, space)
      ensures buffer == Frame(old(buffer) + chunk).rest
    {
      hide Frame, FirstNewline, NonBlank, Blank;
      ghost var text := buffer + chunk;
      buffer := buffer + chunk;
      handed := [];
      ghost var taken: seq<string> := [];
      assert [] + Frame(text).lines == Frame(text).lines;
      NonBlankStep([], "", space);
      while FirstNewline(buffer) < |buffer|
        invariant Frame(text) == Framed(taken + Frame(buffer).lines, Frame(buffer).rest)
        invariant handed == NonBlank(taken, space)
        decreases |buffer|
      {
        var n := FirstNewline(buffer);
        var line := buffer[..n];
        FrameStep(buffer);
        ghost var after := Frame(buffer[n + 1..]);
        buffer := buffer[n + 1..];
        NonBlankStep(taken, line, space);
        if !Blank(line, space) { handed := handed + [line]; }
        assert taken + ([line] + after.lines) == (taken + [line]) + after.lines;
        taken := taken + [line];
      }
      FrameStep(buffer);
      assert taken + [] == taken;
    }
  }

  /** What a sequence of chunks hands over, one service call each, and leaves buffered. */
  function Serviced(chunks: seq<string>, space: char -> bool): (seq<string>, string) {
    if chunks == [] then ([], "")
    else
      var n := |chunks| - 1;
      var (handed, buffer) := Serviced(chunks[..n], space);
      var f := Frame(buffer + chunks[n]);
      (handed + NonBlank(f.lines, space), f.rest)
  }

  function Concat(chunks: seq<string>): string {
    if chunks == [] then "" else Concat(chunks[..|chunks| - 1]) + chunks[|chunks| - 1]
  }

  /** However the stream is chunked, the lines handed over and the text left in the buffer are
      those of the whole received text. */
  lemma {:induction false} ChunkingIsInvisible(chunks: seq<string>, space: char -> bool)
    ensures Serviced(chunks, space) == (NonBlank(Frame(Concat(chunks)).lines, space), Frame(Concat(chunks)).rest)
  {
    if chunks != [] {
      var n := |chunks| - 1;
      ChunkingIsInvisible(chunks[..n], space);
      var before := Frame(Concat(chunks[..n]));
      FrameOfAppend(Concat(chunks[..n]), chunks[n]);
      NonBlankOfAppend(before.lines, Frame(before.rest + chunks[n]).lines, space);
    }
  }

  // ----- output -----

  const MAX_OUTPUT_BYTES := 4 * 1024 * 1024

  /** Queue a message, or let the socket take what it will. */
  datatype OutputEvent = Queue(payload: seq<Byte>) | Flush(taken: nat) | WouldBlock

  /** The buffer, what has been accepted for sending and what the socket has taken. */
  datatype Output = Output(buffer: seq<Byte>, accepted: seq<Byte>, sent: seq<Byte>)

  function AfterEvent(o: Output, e: OutputEvent): (Output, bool) {
    match e
    case Queue(payload) =>
      if |o.buffer| + |payload| > MAX_OUTPUT_BYTES then (o, false)
      else (o.(buffer := o.buffer + payload, accepted := o.accepted + payload), true)
    case WouldBlock => (o, true)
    case Flush(taken) =>
      if o.buffer == [] then (o, true)
      else if taken == 0 then (o, false)
      else
        var n := if taken < |o.buffer| then taken else |o.buffer|;
        (o.(buffer := o.buffer[n..], sent := o.sent + o.buffer[..n]), true)
  }

  function AfterEvents(o: Output, es: seq<OutputEvent>): Output {
    if es == [] then o else AfterEvent(AfterEvents(o, es[..|es| - 1]), es[|es| - 1]).0
  }

  predicate Conserved(o: Output) { o.sent + o.buffer == o.accepted && |o.buffer| <= 4194304 }

  /** Over any run of messages, partial sends and blocked sends, the bytes sent followed by the
      buffer are exactly the accepted payloads in order, and the buffer stays within 4 MiB. */
  lemma {:induction false} OutputConserved(o: Output, es: seq<OutputEvent>)
    requires Conserved(o)
    ensures Conserved(AfterEvents(o, es))
  {
    if es != [] {
      OutputConserved(o, es[..|es| - 1]);
      var p := AfterEvents(o, es[..|es| - 1]);
      match es[|es| - 1]
      case Queue(payload) => assert p.sent + (p.buffer + payload) == p.sent + p.buffer + payload;
      case Flush(taken) =>
        var n := if taken < |p.buffer| then taken else |p.buffer|;
        assert p.buffer == p.buffer[..n] + p.buffer[n..];
        assert (p.sent + p.buffer[..n]) + p.buffer[n..] == p.sent + p.buffer;
      case WouldBlock =>
    }
  }

  /** The payloads queued in a run, one after the other. */
  function Queued(es: seq<OutputEvent>): seq<Byte> {
    if es == [] then []
    else Queued(es[..|es| - 1]) + if es[|es| - 1].Queue? then es[|es| - 1].payload else []
  }

  function Taken(es: seq<OutputEvent>): nat {
    if es == [] then 0 else Taken(es[..|es| - 1]) + if es[|es| - 1].Flush? then es[|es| - 1].taken else 0
  }

  /** No message is refused before the buffer is full, and every byte the socket takes is sent:
      as long as no more than 4 MiB have been queued, all of it is accepted in order, and what a
      socket that never takes more than it is offered has taken is what was sent. */
  lemma {:induction false} NothingRefusedEarly(es: seq<OutputEvent>)
    requires |Queued(es)| <= 4194304
    requires forall k :: 0 <= k < |es| && es[k].Flush? ==> es[k].taken <= |AfterEvents(Output([], [], []), es[..k]).buffer|
    ensures AfterEvents(Output([], [], []), es).accepted == Queued(es)
    ensures |AfterEvents(Output([], [], []), es).sent| == Taken(es)
  {
    if es != [] {
      var n := |es| - 1;
      assert forall k :: 0 <= k < n ==> es[..n][..k] == es[..k];
      NothingRefusedEarly(es[..n]);
      OutputConserved(Output([], [], []), es[..n]);
    }
  }

  class ClientOutput {
    var outputBuffer: seq<Byte>
    ghost var accepted: seq<Byte>
    ghost var sent: seq<Byte>

    ghost function View(): Output
      reads this
    {
      Output(outputBuffer, accepted, sent)
    }

    constructor ()
      ensures View() == Output([], [], [])
    {
      outputBuffer, accepted, sent := [], [], [];
    }

    method SendClientMessage(payload: seq<Byte>) returns (ok: bool)
      modifies this
      ensures (View(), ok) == AfterEvent(old(View()), Queue(payload))
    {
      if |outputBuffer| + |payload| > MAX_OUTPUT_BYTES { return false; }
      outputBuffer := outputBuffer + payload;
      accepted := accepted + payload;
      ok := true;
    }

    /** `taken` is what the socket reports, at most the length it was offered. */
    method FlushClientOutput(taken: nat, blocked: bool) returns (ok: bool)
      requires taken <= |outputBuffer|
      modifies this
      ensures (View(), ok) == AfterEvent(old(View()), if blocked then WouldBlock else Flush(taken))
    {
      if outputBuffer == [] { return true; }
      if blocked { return true; }
      if taken == 0 { return false; }
      sent := sent + outputBuffer[..taken];
      outputBuffer := outputBuffer[taken..];
      ok := true;
    }
  }
}
