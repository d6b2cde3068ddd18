/** The server-sent-event readers of frontend/src/services/chat.ts and groupChat.ts: framing on a blank
    line over arbitrarily chunked text, event parsing, and the terminal-event flag. */
module EventStream {
  import opened Wrappers
  import opened Text

  const SEPARATOR: string := "\n\n"

  // ---------- Framing ----------

  /** The complete blocks of a text and what is left over. */
  datatype Framing = Framing(blocks: seq<string>, rest: string)

  function Frame(text: string): Framing
    decreases |text|
  {
    match IndexOf(text, SEPARATOR)
    case None => Framing([], text)
    case Some(i) =>
      var f := Frame(text[i + 2..]);
      Framing([text[..i]] + f.blocks, f.rest)
  }

  function Concat(chunks: seq<string>): string {
    if |chunks| == 0 then "" else Concat(chunks[..|chunks| - 1]) + chunks[|chunks| - 1]
  }

  /** The text that a framing stands for. */
  function Unframe(blocks: seq<string>, rest: string): string {
    if |blocks| == 0 then rest else blocks[0] + SEPARATOR + Unframe(blocks[1..], rest)
  }

  /** `block` ends at the first separator when one follows it. */
  ghost predicate IsBlock(block: string) {
    forall j | 0 <= j < |block| :: !At(block + SEPARATOR, SEPARATOR, j)
  }

  /** Reference definition: the only way to cut `text` at its separators, first one first. */
  ghost predicate IsFraming(text: string, f: Framing) {
    && text == Unframe(f.blocks, f.rest)
    && (forall b | b in f.blocks :: IsBlock(b))
    && !Contains(f.rest, SEPARATOR)
  }

  lemma AtPrefix(s: string, t: string, j: nat)
    requires j + 2 <= |s|
    ensures At(s + t, SEPARATOR, j) <==> At(s, SEPARATOR, j)
  {
    assert (s + t)[j..j + 2] == s[j..j + 2];
  }

  /** A block followed by a separator is found there, whatever comes next. */
  lemma BlockIsFound(block: string, more: string)
    requires IsBlock(block)
    ensures IndexOf(block + SEPARATOR + more, SEPARATOR) == Some(|block|)
  {
    var s := block + SEPARATOR;
    assert s + more == block + SEPARATOR + more;
    assert (s + more)[|block|..|block| + 2] == SEPARATOR;
    forall j | 0 <= j < |block| ensures !At(s + more, SEPARATOR, j) {
      AtPrefix(s, more, j);
    }
    FirstOccurrence(s + more, SEPARATOR, |block|);
  }

  lemma FoundIsBlock(text: string, i: nat)
    requires IndexOf(text, SEPARATOR) == Some(i)
    ensures IsBlock(text[..i]) && text == text[..i] + SEPARATOR + text[i + 2..]
  {
    var s := text[..i] + SEPARATOR;
    assert text == s + text[i + 2..];
    forall j | 0 <= j < i ensures !At(s, SEPARATOR, j) {
      AtPrefix(s, text[i + 2..], j);
    }
  }

  lemma FrameFound(block: string, more: string)
    requires IsBlock(block)
    ensures Frame(block + SEPARATOR + more) == Framing([block] + Frame(more).blocks, Frame(more).rest)
  {
    hide IndexOf, IsBlock;
    var text := block + SEPARATOR + more;
    BlockIsFound(block, more);
    assert text[..|block|] == block && text[|block| + 2..] == more;
  }

  lemma {:induction false} FrameIsFraming(text: string)
    ensures IsFraming(text, Frame(text))
    decreases |text|
  {
    match IndexOf(text, SEPARATOR)
    case None =>
    case Some(i) =>
      FoundIsBlock(text, i);
      FrameIsFraming(text[i + 2..]);
  }

  lemma {:induction false} FramingIsUnique(text: string, f: Framing)
    requires IsFraming(text, f)
    ensures f == Frame(text)
    decreases |f.blocks|
  {
    hide IsBlock, Frame, IndexOf;
    if |f.blocks| > 0 {
      var more := Unframe(f.blocks[1..], f.rest);
      assert f.blocks[0] in f.blocks;
      FrameFound(f.blocks[0], more);
      FramingIsUnique(more, Framing(f.blocks[1..], f.rest));
      assert [f.blocks[0]] + f.blocks[1..] == f.blocks;
    } else {
      NothingToFrame(text);
    }
  }

  lemma NothingToFrame(text: string)
    requires !Contains(text, SEPARATOR)
    ensures Frame(text) == Framing([], text)
  {
  }

  /** What has been framed stays framed: only the remainder meets the text still to come. */
  lemma {:induction false} FrameAppend(a: string, b: string)
    ensures Frame(a + b).blocks == Frame(a).blocks + Frame(Frame(a).rest + b).blocks
    ensures Frame(a + b).rest == Frame(Frame(a).rest + b).rest
    decreases |a|
  {
    hide IsBlock;
    match IndexOf(a, SEPARATOR)
    case None =>
      assert Frame(a) == Framing([], a);
      assert [] + Frame(a + b).blocks == Frame(a + b).blocks;
    case Some(i) =>
      FoundIsBlock(a, i);
      FrameAppendFound(a[..i], a[i + 2..], b);
  }

  lemma {:induction false} FrameAppendFound(block: string, tail: string, b: string)
    requires IsBlock(block)
    ensures var a := block + SEPARATOR + tail;
            && Frame(a + b).blocks == Frame(a).blocks + Frame(Frame(a).rest + b).blocks
            && Frame(a + b).rest == Frame(Frame(a).rest + b).rest
    decreases |tail| + 1
  {
    hide IsBlock, Frame;
    var a := block + SEPARATOR + tail;
    FrameFound(block, tail);
    FrameFound(block, tail + b);
    assert a + b == block + SEPARATOR + (tail + b);
    FrameAppend(tail, b);
    var later := Frame(Frame(tail).rest + b).blocks;
    assert [block] + (Frame(tail).blocks + later) == ([block] + Frame(tail).blocks) + later;
  }

  // ---------- One event ----------

  datatype ParsedEvent = ParsedEvent(event: string, data: string)

  function SplitLines(s: string): (lines: seq<string>)
    ensures |lines| > 0
    decreases |s|
  {
    match IndexOf(s, "\n")
    case None => [s]
    case Some(i) => [s[..i]] + SplitLines(s[i + 1..])
  }

  function JoinLines(lines: seq<string>): string {
    if |lines| == 0 then "" else if |lines| == 1 then lines[0]
    else JoinLines(lines[..|lines| - 1]) + "\n" + lines[|lines| - 1]
  }

  function StripReturn(line: string): string {
    if |line| > 0 && line[|line| - 1] == '\r' then line[..|line| - 1] else line
  }

  predicate StartsWith(s: string, prefix: string): (b: bool)
    ensures b ==> |prefix| <= |s|
  {
    |prefix| <= |s| && s[..|prefix|] == prefix
  }

  function DataValue(line: string): string
    requires StartsWith(line, "data:")
  {
    var v := line[5..];
    if StartsWith(v, " ") then v[1..] else v
  }

  /** The name of the last `event:` line, or the default name. */
  function EventName(lines: seq<string>): string {
    if |lines| == 0 then "message"
    else
      var line := StripReturn(lines[|lines| - 1]);
      if StartsWith(line, "event:") then Trim(line[6..], IsScriptSpace) else EventName(lines[..|lines| - 1])
  }

  /** The values of the `data:` lines, in order. */
  function DataValues(lines: seq<string>): seq<string> {
    if |lines| == 0 then []
    else
      var line := StripReturn(lines[|lines| - 1]);
      DataValues(lines[..|lines| - 1]) + if StartsWith(line, "data:") then [DataValue(line)] else []
  }

  function Parsed(block: string): Option<ParsedEvent> {
    var lines := SplitLines(block);
    var data := DataValues(lines);
    if |data| == 0 then None else Some(ParsedEvent(EventName(lines), JoinLines(data)))
  }

  /** A line is of at most one kind, and a blank or comment line is of none. */
  lemma LineKinds(line: string)
    ensures !(StartsWith(line, "event:") && StartsWith(line, "data:"))
    ensures line == "" || StartsWith(line, ":") ==> !StartsWith(line, "event:") && !StartsWith(line, "data:")
  {
    assert StartsWith(line, "event:") ==> line[0] == "event:"[0];
    assert StartsWith(line, "data:") ==> line[0] == "data:"[0];
    assert StartsWith(line, ":") ==> line[0] == ":"[0];
  }

  method ParseEvent(block: string) returns (parsed: Option<ParsedEvent>)
    ensures parsed == Parsed(block)
  {
    hide Trim, SplitLines, JoinLines, StripReturn, StartsWith, DataValue;
    var event := "message";
    var dataLines := [];
    var lines := SplitLines(block);
    for i := 0 to |lines|
      invariant event == EventName(lines[..i]) && dataLines == DataValues(lines[..i])
    {
      assert lines[..i + 1][..i] == lines[..i];
      var line := StripReturn(lines[i]);
      LineKinds(line);
      if line == "" || StartsWith(line, ":") {
        continue;
      }
      if StartsWith(line, "event:") {
        event := Trim(line[6..], IsScriptSpace);
      } else if StartsWith(line, "data:") {
        dataLines := dataLines + [DataValue(line)];
      }
    }
    assert lines[..|lines|] == lines;
    if |dataLines| == 0 {
      return None;
    }
    return Some(ParsedEvent(event, JoinLines(dataLines)));
  }

  // ---------- Dispatch ----------

  /** What reading the JSON of an event's data tells the handler; JSON itself is not part of this model. Data is not
      readable for an event when taking the fields that its handler needs throws, as it does for `null`. */
  datatype Payloads = Payloads(isJson: string -> bool, isReadable: (string, string) -> bool, errorCode: string -> string,
                               authoritative: string -> bool)

  /** What the caller of the reader gets to see. */
  datatype Callback = Forwarded(event: string, data: string) | Done(data: string) | Error(code: string) {
    predicate IsTerminal() {
      Done? || Error?
    }
  }

  /** What has been called, whether a terminal event has arrived, and whether an exception has ended the reading. */
  datatype Progress = Progress(calls: seq<Callback>, terminal: bool, closed: bool := false)

  datatype Reader = Chat | Group

  predicate IsForwarded(reader: Reader, event: string) {
    match reader
    case Chat => event in ["turn_started", "delta", "reasoning", "tool_call", "tool_result", "usage", "warning",
                           "title_update", "title_error"]
    case Group => event in ["turn_started", "participant_started", "delta", "reasoning", "usage",
                            "participant_done", "participant_skipped", "participant_error"]
  }

  predicate IsKnown(reader: Reader, event: string) {
    event == "error" || event == "done" || IsForwarded(reader, event)
  }

  /** `handleEvent` of `sendMessageStream` (Chat) and of `sendGroupMessageStream` (Group). The group handler reads the
      fields outside of any `try`: an exception reaches the one around the read loop, which reports it and returns. */
  function Handle(reader: Reader, payloads: Payloads, p: Progress, block: string): Progress {
    match Parsed(block)
    case None => p
    case Some(ev) =>
      var readable := payloads.isJson(ev.data) && payloads.isReadable(ev.event, ev.data);
      if p.terminal || (reader.Group? && !payloads.isJson(ev.data)) then p
      else if reader.Group? && IsKnown(reader, ev.event) && !readable then
        Progress(p.calls + [Error("network_error")], true, true)
      else if ev.event == "error" then
        Progress(p.calls + [Error(if readable then payloads.errorCode(ev.data) else "malformed_error")], true)
      else if ev.event == "done" then
        Progress(p.calls + [if readable && payloads.authoritative(ev.data) then Done(ev.data)
                            else Error("malformed_done")], true)
      else if IsForwarded(reader, ev.event) then
        Progress(p.calls + [Forwarded(ev.event, ev.data)], false)
      else p
  }

  function HandleAll(reader: Reader, payloads: Payloads, p: Progress, blocks: seq<string>): Progress {
    if |blocks| == 0 then p
    else Handle(reader, payloads, HandleAll(reader, payloads, p, blocks[..|blocks| - 1]), blocks[|blocks| - 1])
  }

  lemma {:induction false} HandleAllAppend(reader: Reader, payloads: Payloads, p: Progress, a: seq<string>, b: seq<string>)
    ensures HandleAll(reader, payloads, p, a + b) == HandleAll(reader, payloads, HandleAll(reader, payloads, p, a), b)
  {
    hide Handle;
    if |b| == 0 {
      assert a + b == a;
    } else {
      assert (a + b)[..|a + b| - 1] == a + b[..|b| - 1];
      HandleAllAppend(reader, payloads, p, a, b[..|b| - 1]);
    }
  }

  /** The blocks that reach the handler of the chat reader: the complete ones and a non-blank trailing one. */
  function ChatBlocks(text: string): seq<string> {
    var f := Frame(text);
    f.blocks + if Trim(f.rest, IsScriptSpace) != "" then [f.rest] else []
  }

  const START: Progress := Progress([], false)

  /** How the reading ends: with the stream, when the chat client asks its signal whether it was aborted; with a read
      that throws an AbortError; or with a read that fails otherwise. */
  datatype Ending = Ended(aborted: bool) | Aborted | Failed

  /** Only the end of the stream hands over a trailing block. */
  function ChatHandled(text: string, ending: Ending): seq<string> {
    if ending.Ended? then ChatBlocks(text) else Frame(text).blocks
  }

  /** The callbacks after the last read, those of the `catch` included: it does not ask for a terminal event. */
  function Finish(reader: Reader, p: Progress, ending: Ending): seq<Callback> {
    match ending
    case Ended(aborted) =>
      if p.terminal || (reader.Chat? && aborted) then p.calls else p.calls + [Error("stream_incomplete")]
    case Aborted => p.calls
    case Failed =>
      if p.closed then p.calls else p.calls + [Error(if reader.Chat? then "transport_error" else "network_error")]
  }

  /** The callbacks of a whole chat stream, as a function of the unsplit text that was read. */
  function ChatCalls(text: string, payloads: Payloads, ending: Ending): seq<Callback> {
    Finish(Chat, HandleAll(Chat, payloads, START, ChatHandled(text, ending)), ending)
  }

  /** The callbacks of a whole group stream: no trailing flush, and no regard for the abort signal. */
  function GroupCalls(text: string, payloads: Payloads, ending: Ending): seq<Callback> {
    Finish(Group, HandleAll(Group, payloads, START, Frame(text).blocks), ending)
  }

  /** The inner loop: take every complete block off the buffer and hand it over. */
  method Drain(reader: Reader, payloads: Payloads, buffer0: string, p0: Progress)
    returns (buffer: string, p: Progress)
    ensures buffer == Frame(buffer0).rest
    ensures p == HandleAll(reader, payloads, p0, Frame(buffer0).blocks)
  {
    hide Handle, IndexOf;
    buffer, p := buffer0, p0;
    ghost var taken: seq<string> := [];
    while true
      invariant Frame(buffer0).blocks == taken + Frame(buffer).blocks
      invariant Frame(buffer0).rest == Frame(buffer).rest
      invariant p == HandleAll(reader, payloads, p0, taken)
      decreases |buffer|
    {
      var sepIdx := IndexOf(buffer, SEPARATOR);
      if sepIdx.None? {
        break;
      }
      var block := buffer[..sepIdx.value];
      buffer := buffer[sepIdx.value + 2..];
      p := Handle(reader, payloads, p, block);
      assert (taken + [block])[..|taken|] == taken;
      taken := taken + [block];
    }
    assert Frame(buffer0).blocks == taken;
  }

  lemma DrainedChunk(reader: Reader, payloads: Payloads, text: string, chunk: string)
    ensures var f, g := Frame(text), Frame(Frame(text).rest + chunk);
            && Frame(text + chunk).rest == g.rest
            && HandleAll(reader, payloads, START, Frame(text + chunk).blocks)
               == HandleAll(reader, payloads, HandleAll(reader, payloads, START, f.blocks), g.blocks)
  {
    FrameAppend(text, chunk);
    HandleAllAppend(reader, payloads, START, Frame(text).blocks, Frame(Frame(text).rest + chunk).blocks);
  }

  lemma NothingFramed()
    ensures Frame("") == Framing([], "")
  {
  }

  lemma NothingRead(reader: Reader, payloads: Payloads)
    ensures Frame("") == Framing([], "") && HandleAll(reader, payloads, START, []) == START
  {
  }

  lemma TrailingBlock(payloads: Payloads, text: string)
    ensures var f := Frame(text);
            var p := HandleAll(Chat, payloads, START, f.blocks);
            HandleAll(Chat, payloads, START, ChatBlocks(text))
            == if Trim(f.rest, IsScriptSpace) != "" then Handle(Chat, payloads, p, f.rest) else p
  {
    hide Handle, Frame, Trim;
    var f := Frame(text);
    assert (f.blocks + [f.rest])[..|f.blocks|] == f.blocks && f.blocks + [] == f.blocks;
  }

  /** `sendMessageStream` from its first read on. However the text is cut into chunks, the callbacks are the same. */
  method SendMessageStream(chunks: seq<string>, payloads: Payloads, ending: Ending) returns (calls: seq<Callback>)
    ensures calls == ChatCalls(Concat(chunks), payloads, ending)
  {
    hide Frame, Handle, HandleAll, Trim, ChatBlocks;
    NothingRead(Chat, payloads);
    var buffer, p := "", START;
    for i := 0 to |chunks|
      invariant buffer == Frame(Concat(chunks[..i])).rest
      invariant p == HandleAll(Chat, payloads, START, Frame(Concat(chunks[..i])).blocks)
    {
      assert chunks[..i + 1][..i] == chunks[..i];
      DrainedChunk(Chat, payloads, Concat(chunks[..i]), chunks[i]);
      buffer, p := Drain(Chat, payloads, buffer + chunks[i], p);
    }
    assert chunks[..|chunks|] == chunks;
    match ending {
      case Ended(aborted) =>
        TrailingBlock(payloads, Concat(chunks));
        if Trim(buffer, IsScriptSpace) != "" {
          p := Handle(Chat, payloads, p, buffer);
        }
        calls := p.calls;
        if !p.terminal && !aborted {
          calls := calls + [Error("stream_incomplete")];
        }
      case Aborted =>
        calls := p.calls;
      case Failed =>
        ChatIsNeverClosed(payloads, Frame(Concat(chunks)).blocks);
        calls := p.calls + [Error("transport_error")];
    }
  }

  /** The chat handler catches what reading an event's data throws. */
  lemma {:induction false} ChatIsNeverClosed(payloads: Payloads, blocks: seq<string>)
    ensures !HandleAll(Chat, payloads, START, blocks).closed
  {
    hide Parsed;
    if |blocks| > 0 {
      ChatIsNeverClosed(payloads, blocks[..|blocks| - 1]);
    }
  }

  method SendGroupMessageStream(chunks: seq<string>, payloads: Payloads, ending: Ending) returns (calls: seq<Callback>)
    ensures calls == GroupCalls(Concat(chunks), payloads, ending)
  {
    hide Frame, Handle, HandleAll;
    NothingRead(Group, payloads);
    var buffer, p := "", START;
    for i := 0 to |chunks|
      invariant buffer == Frame(Concat(chunks[..i])).rest
      invariant p == HandleAll(Group, payloads, START, Frame(Concat(chunks[..i])).blocks)
    {
      assert chunks[..i + 1][..i] == chunks[..i];
      DrainedChunk(Group, payloads, Concat(chunks[..i]), chunks[i]);
      buffer, p := Drain(Group, payloads, buffer + chunks[i], p);
    }
    assert chunks[..|chunks|] == chunks;
    calls := p.calls;
    match ending {
      case Ended(_) =>
        if !p.terminal {
          calls := calls + [Error("stream_incomplete")];
        }
      case Aborted =>
      case Failed =>
        if !p.closed {
          calls := calls + [Error("network_error")];
        }
    }
  }

  // ---------- Terminal callbacks ----------

  /** There are `n` terminal callbacks, and they are the last ones. */
  ghost predicate TerminalTail(calls: seq<Callback>, n: nat) {
    n <= |calls| && forall i | 0 <= i < |calls| :: calls[i].IsTerminal() <==> i >= |calls| - n
  }

  lemma TailIsUnique(calls: seq<Callback>, n: nat, m: nat)
    requires TerminalTail(calls, n)
    ensures TerminalTail(calls, m) <==> n == m
  {
    if n < m <= |calls| {
      assert !calls[|calls| - m].IsTerminal();
    } else if m < n {
      assert calls[|calls| - n].IsTerminal();
    }
  }

  lemma TailGrows(calls: seq<Callback>, n: nat, code: string)
    requires TerminalTail(calls, n)
    ensures TerminalTail(calls + [Error(code)], n + 1)
  {
    var more := calls + [Error(code)];
    assert forall i | 0 <= i < |calls| :: more[i] == calls[i];
  }

  /** The block is an event that ends the turn. */
  predicate EndsTurn(block: string) {
    Parsed(block).Some? && Parsed(block).value.event in ["error", "done"]
  }

  /** The block is an event whose fields the group handler fails to read. */
  predicate Unreadable(payloads: Payloads, block: string) {
    && Parsed(block).Some?
    && var ev := Parsed(block).value;
       payloads.isJson(ev.data) && IsKnown(Group, ev.event) && !payloads.isReadable(ev.event, ev.data)
  }

  /** The block is the last one that the reader looks at. */
  predicate IsLast(reader: Reader, payloads: Payloads, block: string) {
    match reader
    case Chat => EndsTurn(block)
    case Group =>
      Unreadable(payloads, block) || (EndsTurn(block) && payloads.isJson(Parsed(block).value.data))
  }

  ghost predicate HasLast(reader: Reader, payloads: Payloads, blocks: seq<string>) {
    exists i :: 0 <= i < |blocks| && IsLast(reader, payloads, blocks[i])
  }

  /** The first block of that kind is one that cannot be read. */
  ghost predicate LastIsUnreadable(payloads: Payloads, blocks: seq<string>) {
    exists i :: 0 <= i < |blocks| && Unreadable(payloads, blocks[i])
      && forall j | 0 <= j < i :: !IsLast(Group, payloads, blocks[j])
  }

  lemma HandleOne(reader: Reader, payloads: Payloads, p: Progress, block: string)
    requires TerminalTail(p.calls, if p.terminal then 1 else 0) && (p.closed ==> p.terminal)
    ensures var q := Handle(reader, payloads, p, block);
            && (q.terminal <==> p.terminal || IsLast(reader, payloads, block))
            && (q.closed <==> p.closed || (reader.Group? && !p.terminal && Unreadable(payloads, block)))
            && TerminalTail(q.calls, if q.terminal then 1 else 0) && (q.closed ==> q.terminal)
  {
    hide Parsed;
  }

  lemma {:induction false} HandledTail(reader: Reader, payloads: Payloads, blocks: seq<string>)
    ensures var p := HandleAll(reader, payloads, START, blocks);
            && (p.terminal <==> HasLast(reader, payloads, blocks))
            && (p.closed <==> reader.Group? && LastIsUnreadable(payloads, blocks))
            && TerminalTail(p.calls, if p.terminal then 1 else 0) && (p.closed ==> p.terminal)
  {
    hide Handle, IsLast, Unreadable;
    if |blocks| > 0 {
      var before := blocks[..|blocks| - 1];
      HandledTail(reader, payloads, before);
      HandleOne(reader, payloads, HandleAll(reader, payloads, START, before), blocks[|blocks| - 1]);
      LastAppended(reader, payloads, before, blocks[|blocks| - 1]);
      assert blocks == before + [blocks[|blocks| - 1]];
    }
  }

  lemma LastAppended(reader: Reader, payloads: Payloads, before: seq<string>, block: string)
    ensures HasLast(reader, payloads, before + [block])
            <==> HasLast(reader, payloads, before) || IsLast(reader, payloads, block)
    ensures LastIsUnreadable(payloads, before + [block])
            <==> LastIsUnreadable(payloads, before) || (!HasLast(Group, payloads, before) && Unreadable(payloads, block))
  {
    hide IsLast, Unreadable;
    var blocks := before + [block];
    assert blocks[|before|] == block && forall i | 0 <= i < |before| :: blocks[i] == before[i];
  }

  /** How many terminal callbacks a chat stream fires, given whether an event that ends the turn was handled. */
  function ChatTerminals(ending: Ending, arrived: bool): nat {
    match ending
    case Ended(aborted) => if arrived || !aborted then 1 else 0
    case Aborted => if arrived then 1 else 0
    case Failed => if arrived then 2 else 1
  }

  function GroupTerminals(ending: Ending, arrived: bool, unreadable: bool): nat {
    match ending
    case Ended(_) => 1
    case Aborted => if arrived then 1 else 0
    case Failed => if arrived && !unreadable then 2 else 1
  }

  /** For every text and every ending: so many terminal callbacks, and nothing after the first but another one. */
  lemma TerminalCallbacks(text: string, payloads: Payloads, ending: Ending)
    ensures TerminalTail(ChatCalls(text, payloads, ending),
                         ChatTerminals(ending, HasLast(Chat, payloads, ChatHandled(text, ending))))
    ensures var blocks := Frame(text).blocks;
            TerminalTail(GroupCalls(text, payloads, ending),
                         GroupTerminals(ending, HasLast(Group, payloads, blocks), LastIsUnreadable(payloads, blocks)))
  {
    hide HandleAll, ChatHandled, Frame, HasLast, LastIsUnreadable, TerminalTail;
    FinishedTail(Chat, payloads, ChatHandled(text, ending), ending);
    FinishedTail(Group, payloads, Frame(text).blocks, ending);
  }

  lemma FinishedTail(reader: Reader, payloads: Payloads, blocks: seq<string>, ending: Ending)
    ensures var arrived, unreadable := HasLast(reader, payloads, blocks), LastIsUnreadable(payloads, blocks);
            TerminalTail(Finish(reader, HandleAll(reader, payloads, START, blocks), ending),
                         if reader.Chat? then ChatTerminals(ending, arrived)
                         else GroupTerminals(ending, arrived, unreadable))
  {
    hide HandleAll, HasLast, LastIsUnreadable, TerminalTail;
    var p := HandleAll(reader, payloads, START, blocks);
    HandledTail(reader, payloads, blocks);
    UnreadableIsLast(payloads, blocks);
    if Finish(reader, p, ending) != p.calls {
      var code := Finish(reader, p, ending)[|p.calls|].code;
      TailGrows(p.calls, if p.terminal then 1 else 0, code);
    }
  }

  lemma UnreadableIsLast(payloads: Payloads, blocks: seq<string>)
    ensures LastIsUnreadable(payloads, blocks) ==> HasLast(Group, payloads, blocks)
  {
  }

  /** Exactly one of onDone and onError is called, as the last callback: on every stream that ends unaborted; on an abort
      when the turn has ended; and on a failure when it has not, or when the group reader had stopped before. */
  lemma ExactlyOneTerminal(text: string, payloads: Payloads, ending: Ending)
    ensures TerminalTail(ChatCalls(text, payloads, ending), 1)
            <==> ending == Ended(false) || (ending.Failed? <==> !HasLast(Chat, payloads, ChatHandled(text, ending)))
    ensures var blocks := Frame(text).blocks;
            TerminalTail(GroupCalls(text, payloads, ending), 1)
            <==> ending.Ended? || (ending.Failed? <==> !HasLast(Group, payloads, blocks))
                 || (ending.Failed? && LastIsUnreadable(payloads, blocks))
  {
    hide HandleAll, ChatHandled, Frame, HasLast, LastIsUnreadable, TerminalTail, ChatCalls, GroupCalls;
    var blocks := Frame(text).blocks;
    var n := ChatTerminals(ending, HasLast(Chat, payloads, ChatHandled(text, ending)));
    var m := GroupTerminals(ending, HasLast(Group, payloads, blocks), LastIsUnreadable(payloads, blocks));
    TerminalCallbacks(text, payloads, ending);
    TailIsUnique(ChatCalls(text, payloads, ending), n, 1);
    TailIsUnique(GroupCalls(text, payloads, ending), m, 1);
  }

  /** An aborted chat stream fires a terminal callback exactly when an event that ends the turn was handled. Whether a
      trailing block is among the handled ones depends on how the abort shows. */
  lemma AbortedTerminal(text: string, payloads: Payloads, ending: Ending)
    requires ending == Ended(true) || ending == Aborted
    ensures var calls := ChatCalls(text, payloads, ending);
            (exists i :: 0 <= i < |calls| && calls[i].IsTerminal())
            <==> exists b :: b in ChatHandled(text, ending) && EndsTurn(b)
  {
    hide HandleAll, EndsTurn, ChatHandled, ChatCalls;
    var calls, blocks := ChatCalls(text, payloads, ending), ChatHandled(text, ending);
    TerminalCallbacks(text, payloads, ending);
    if HasLast(Chat, payloads, blocks) {
      var i :| 0 <= i < |blocks| && IsLast(Chat, payloads, blocks[i]);
      assert blocks[i] in blocks && calls[|calls| - 1].IsTerminal();
    }
  }

  // ---------- The server's encoding comes back ----------

  /** What the Gateway writes for one event (gateway/internal/handler/chat.go:583). */
  function Encode(ev: ParsedEvent): string {
    "event: " + ev.event + "\ndata: " + ev.data + "\n\n"
  }

  function EncodeAll(events: seq<ParsedEvent>): string {
    if |events| == 0 then "" else Encode(events[0]) + EncodeAll(events[1..])
  }

  /** A name and data that survive one line each: no line breaks, and no space that trimming would remove. */
  ghost predicate Encodable(ev: ParsedEvent) {
    && '\n' !in ev.event && '\n' !in ev.data
    && (|ev.event| > 0 ==> !IsScriptSpace(ev.event[0]) && !IsScriptSpace(ev.event[|ev.event| - 1]))
    && (|ev.data| > 0 ==> ev.data[|ev.data| - 1] != '\r')
  }

  function EncodedBlock(ev: ParsedEvent): string {
    "event: " + ev.event + "\n" + ("data: " + ev.data)
  }

  lemma LineIsNotSplit(line: string)
    requires '\n' !in line
    ensures IndexOf(line, "\n").None? && SplitLines(line) == [line]
  {
    forall i | 0 <= i < |line| ensures !At(line, "\n", i) {
      assert line[i..i + 1] == [line[i]];
    }
  }

  lemma TwoLinesSplit(a: string, b: string)
    requires '\n' !in a && '\n' !in b
    ensures SplitLines(a + "\n" + b) == [a, b]
  {
    var s := a + "\n" + b;
    assert s[|a|..|a| + 1] == "\n";
    forall j | 0 <= j < |a| ensures !At(s, "\n", j) {
      assert s[j..j + 1] == [a[j]];
    }
    FirstOccurrence(s, "\n", |a|);
    assert s[..|a|] == a && s[|a| + 1..] == b;
    LineIsNotSplit(b);
  }

  lemma EventLineReads(event: string)
    requires |event| > 0 ==> !IsScriptSpace(event[0]) && !IsScriptSpace(event[|event| - 1])
    ensures var line := "event: " + event;
            && StripReturn(line) == line && StartsWith(line, "event:") && !StartsWith(line, "data:")
            && Trim(line[6..], IsScriptSpace) == event
  {
    var line := "event: " + event;
    assert StripReturn(line) == line by {
      assert |event| > 0 ==> line[|line| - 1] == event[|event| - 1];
    }
    hide Trim, IsScriptSpace;
    assert line[..6] == "event:";
    LineKinds(line);
    assert line[6..] == " " + event;
    LeadingSpaceTrimmed(event);
  }

  lemma DataLineReads(data: string)
    requires |data| > 0 ==> data[|data| - 1] != '\r'
    ensures var line := "data: " + data;
            && StripReturn(line) == line && StartsWith(line, "data:") && !StartsWith(line, "event:")
            && DataValue(line) == data
  {
    var line := "data: " + data;
    assert line[..5] == "data:" && line[5..] == " " + data;
    LineKinds(line);
    assert (" " + data)[..1] == " " && (" " + data)[1..] == data;
  }

  lemma EncodedBlockParses(ev: ParsedEvent)
    requires Encodable(ev)
    ensures Parsed(EncodedBlock(ev)) == Some(ev)
  {
    hide Trim, StartsWith, DataValue, StripReturn, SplitLines;
    var a, b := "event: " + ev.event, "data: " + ev.data;
    TwoLinesSplit(a, b);
    EventLineReads(ev.event);
    DataLineReads(ev.data);
    var lines := [a, b];
    assert lines[..1] == [a] && [a][..0] == lines[..0];
    assert DataValues([a]) == [] && EventName([a]) == ev.event;
    assert DataValues(lines) == [ev.data] && EventName(lines) == ev.event;
  }

  lemma LeadingSpaceTrimmed(s: string)
    requires |s| > 0 ==> !IsScriptSpace(s[0]) && !IsScriptSpace(s[|s| - 1])
    ensures Trim(" " + s, IsScriptSpace) == s
  {
    if |s| > 0 {
      assert TrimEnd(" " + s, IsScriptSpace) == " " + s;
      assert (" " + s)[1..] == s;
      assert TrimStart(s, IsScriptSpace) == s;
    } else {
      assert " " + s == " ";
      assert TrimEnd(" ", IsScriptSpace) == TrimEnd("", IsScriptSpace) == "" by { assert " "[..0] == ""; }
    }
  }

  lemma EncodedBlockIsBlock(ev: ParsedEvent)
    requires Encodable(ev)
    ensures IsBlock(EncodedBlock(ev)) && Encode(ev) == EncodedBlock(ev) + SEPARATOR
  {
    var a, b := "event: " + ev.event, "data: " + ev.data;
    var s := EncodedBlock(ev) + SEPARATOR;
    assert Encode(ev) == s;
    forall j | 0 <= j < |EncodedBlock(ev)| ensures !At(s, SEPARATOR, j) {
      if j < |a| {
        assert s[j] == a[j];
        assert SEPARATOR[0] == '\n';
      } else if j == |a| {
        assert s[j + 1] == 'd';
        assert SEPARATOR[1] == '\n';
      } else {
        assert s[j] == b[j - |a| - 1];
        assert SEPARATOR[0] == '\n';
      }
    }
  }

  lemma {:induction false} EncodedStreamFrames(events: seq<ParsedEvent>)
    requires forall ev | ev in events :: Encodable(ev)
    ensures Frame(EncodeAll(events)).rest == "" && |Frame(EncodeAll(events)).blocks| == |events|
    ensures forall i | 0 <= i < |events| :: Parsed(Frame(EncodeAll(events)).blocks[i]) == Some(events[i])
  {
    hide IsBlock, Parsed, Encodable, Encode, EncodedBlock, Frame;
    if |events| == 0 {
      NothingFramed();
    } else {
      var ev, more := events[0], EncodeAll(events[1..]);
      assert ev in events;
      EncodedBlockIsBlock(ev);
      EncodedBlockParses(ev);
      FrameFound(EncodedBlock(ev), more);
      EncodedStreamFrames(events[1..]);
    }
  }

  /** End to end: what the Gateway encodes, cut anywhere in transit, reaches the handler event by event. */
  lemma RoundTrip(events: seq<ParsedEvent>, chunks: seq<string>)
    requires forall ev | ev in events :: Encodable(ev)
    requires Concat(chunks) == EncodeAll(events)
    ensures var blocks := ChatBlocks(Concat(chunks));
            |blocks| == |events| && forall i | 0 <= i < |events| :: Parsed(blocks[i]) == Some(events[i])
  {
    EncodedStreamFrames(events);
    assert TrimEnd("", IsScriptSpace) == "";
  }

  /** A forwarded callback for each event that is taken, with its own name and data, in order. */
  ghost function Forwards(events: seq<ParsedEvent>, taken: ParsedEvent -> bool): seq<Callback> {
    if |events| == 0 then []
    else
      var last := events[|events| - 1];
      Forwards(events[..|events| - 1], taken) + if taken(last) then [Forwarded(last.event, last.data)] else []
  }

  /** The event leaves the turn open. */
  ghost predicate IsOpen(reader: Reader, payloads: Payloads, ev: ParsedEvent) {
    && ev.event != "error" && ev.event != "done"
    && (reader.Group? && IsForwarded(Group, ev.event) && payloads.isJson(ev.data) ==> payloads.isReadable(ev.event, ev.data))
  }

  ghost predicate IsTaken(reader: Reader, payloads: Payloads, ev: ParsedEvent) {
    IsForwarded(reader, ev.event) && (reader.Group? ==> payloads.isJson(ev.data))
  }

  lemma HandleForwards(reader: Reader, payloads: Payloads, p: Progress, block: string, ev: ParsedEvent)
    requires Parsed(block) == Some(ev) && !p.terminal && !p.closed && IsOpen(reader, payloads, ev)
    ensures var q := Handle(reader, payloads, p, block);
            && !q.terminal && !q.closed
            && q.calls == p.calls + if IsTaken(reader, payloads, ev) then [Forwarded(ev.event, ev.data)] else []
  {
    hide Parsed, IsForwarded;
  }

  lemma {:induction false} AllForwarded(reader: Reader, payloads: Payloads, blocks: seq<string>, events: seq<ParsedEvent>,
                                        taken: ParsedEvent -> bool)
    requires |blocks| == |events| && forall i | 0 <= i < |events| :: Parsed(blocks[i]) == Some(events[i])
    requires forall ev | ev in events :: IsOpen(reader, payloads, ev) && taken(ev) == IsTaken(reader, payloads, ev)
    ensures var p := HandleAll(reader, payloads, START, blocks);
            p.calls == Forwards(events, taken) && !p.terminal && !p.closed
  {
    hide Handle, Parsed, IsOpen, IsTaken;
    if |blocks| > 0 {
      var n := |blocks| - 1;
      assert events[n] in events && forall ev | ev in events[..n] :: ev in events;
      AllForwarded(reader, payloads, blocks[..n], events[..n], taken);
      HandleForwards(reader, payloads, HandleAll(reader, payloads, START, blocks[..n]), blocks[n], events[n]);
    }
  }

  /** What an event that ends the turn calls. */
  lemma HandleLast(reader: Reader, payloads: Payloads, p: Progress, block: string, last: ParsedEvent)
    requires Parsed(block) == Some(last) && !p.terminal && last.event in ["error", "done"]
    requires reader.Group? ==> payloads.isJson(last.data)
    ensures var q := Handle(reader, payloads, p, block);
            var readable := payloads.isJson(last.data) && payloads.isReadable(last.event, last.data);
            q.terminal && (q.closed <==> reader.Group? && !readable) && q.calls == p.calls + [
              if reader.Group? && !readable then Error("network_error")
              else if last.event == "error" then Error(if readable then payloads.errorCode(last.data) else "malformed_error")
              else if readable && payloads.authoritative(last.data) then Done(last.data)
              else Error("malformed_done")]
  {
    hide Parsed;
  }

  lemma EndsWith(reader: Reader, payloads: Payloads, blocks: seq<string>, events: seq<ParsedEvent>, last: ParsedEvent,
                 taken: ParsedEvent -> bool)
    requires |blocks| == |events| + 1 && Parsed(blocks[|events|]) == Some(last) && last.event in ["error", "done"]
    requires forall i | 0 <= i < |events| :: Parsed(blocks[i]) == Some(events[i])
    requires forall ev | ev in events :: IsOpen(reader, payloads, ev) && taken(ev) == IsTaken(reader, payloads, ev)
    requires reader.Group? ==> payloads.isJson(last.data)
    ensures var p := HandleAll(reader, payloads, START, blocks);
            var readable := payloads.isJson(last.data) && payloads.isReadable(last.event, last.data);
            p.terminal && (p.closed <==> reader.Group? && !readable) && p.calls == Forwards(events, taken) + [
              if reader.Group? && !readable then Error("network_error")
              else if last.event == "error" then Error(if readable then payloads.errorCode(last.data) else "malformed_error")
              else if readable && payloads.authoritative(last.data) then Done(last.data)
              else Error("malformed_done")]
  {
    hide Handle, Parsed, IsOpen, IsTaken;
    var n := |events|;
    AllForwarded(reader, payloads, blocks[..n], events, taken);
    HandleLast(reader, payloads, HandleAll(reader, payloads, START, blocks[..n]), blocks[n], last);
  }

  lemma ChatTakes(payloads: Payloads, ev: ParsedEvent)
    requires ev.event !in ["error", "done"]
    ensures IsOpen(Chat, payloads, ev)
    ensures IsTaken(Chat, payloads, ev)
            <==> ev.event in ["turn_started", "delta", "reasoning", "tool_call", "tool_result", "usage", "warning",
                              "title_update", "title_error"]
  {
  }

  lemma GroupTakes(payloads: Payloads, ev: ParsedEvent)
    requires ev.event !in ["error", "done"] && payloads.isReadable(ev.event, ev.data)
    ensures IsOpen(Group, payloads, ev)
    ensures IsTaken(Group, payloads, ev)
            <==> payloads.isJson(ev.data)
                 && ev.event in ["turn_started", "participant_started", "delta", "reasoning", "usage",
                                 "participant_done", "participant_skipped", "participant_error"]
  {
  }

  /** What the Gateway writes during a turn reaches the chat client: one call for each event that it knows, in order, and
      at the end of the stream, as the turn is still open, the report that it is incomplete. */
  lemma ChatDelivers(events: seq<ParsedEvent>, chunks: seq<string>, payloads: Payloads)
    requires Concat(chunks) == EncodeAll(events)
    requires forall ev | ev in events :: Encodable(ev) && ev.event !in ["error", "done"]
    ensures var sent := Forwards(events, (ev: ParsedEvent) =>
              ev.event in ["turn_started", "delta", "reasoning", "tool_call", "tool_result", "usage", "warning",
                                     "title_update", "title_error"]);
            && ChatCalls(Concat(chunks), payloads, Ended(false)) == sent + [Error("stream_incomplete")]
            && ChatCalls(Concat(chunks), payloads, Aborted) == ChatCalls(Concat(chunks), payloads, Ended(true)) == sent
            && ChatCalls(Concat(chunks), payloads, Failed) == sent + [Error("transport_error")]
  {
    hide Handle, HandleAll, Parsed, Encodable, ChatBlocks, Frame, Forwards, IsOpen, IsTaken;
    var taken := (ev: ParsedEvent) =>
              ev.event in ["turn_started", "delta", "reasoning", "tool_call", "tool_result", "usage", "warning",
                                     "title_update", "title_error"];
    RoundTrip(events, chunks);
    EncodedStreamFrames(events);
    forall ev | ev in events ensures IsOpen(Chat, payloads, ev) && taken(ev) == IsTaken(Chat, payloads, ev) {
      ChatTakes(payloads, ev);
    }
    AllForwarded(Chat, payloads, ChatBlocks(Concat(chunks)), events, taken);
    AllForwarded(Chat, payloads, Frame(Concat(chunks)).blocks, events, taken);
  }

  /** With the event that ends the turn at its end, the last call says how: completed with the data of a done event that
      is authoritative, otherwise failed; no matter how the reading ends after it, unless it fails. */
  lemma ChatCompletes(events: seq<ParsedEvent>, last: ParsedEvent, chunks: seq<string>, payloads: Payloads, ending: Ending)
    requires Concat(chunks) == EncodeAll(events + [last]) && !ending.Failed?
    requires forall ev | ev in events :: Encodable(ev) && ev.event !in ["error", "done"]
    requires Encodable(last) && last.event in ["error", "done"]
    ensures var readable := payloads.isJson(last.data) && payloads.isReadable(last.event, last.data);
            var sent := Forwards(events, (ev: ParsedEvent) =>
              ev.event in ["turn_started", "delta", "reasoning", "tool_call", "tool_result", "usage", "warning",
                                     "title_update", "title_error"]);
            ChatCalls(Concat(chunks), payloads, ending) == sent + [
              if last.event == "error" then Error(if readable then payloads.errorCode(last.data) else "malformed_error")
              else if readable && payloads.authoritative(last.data) then Done(last.data)
              else Error("malformed_done")]
  {
    hide Handle, HandleAll, Parsed, Encodable, ChatBlocks, Frame, Forwards, IsOpen, IsTaken;
    var taken := (ev: ParsedEvent) =>
              ev.event in ["turn_started", "delta", "reasoning", "tool_call", "tool_result", "usage", "warning",
                                     "title_update", "title_error"];
    RoundTrip(events + [last], chunks);
    EncodedStreamFrames(events + [last]);
    forall ev | ev in events ensures IsOpen(Chat, payloads, ev) && taken(ev) == IsTaken(Chat, payloads, ev) {
      ChatTakes(payloads, ev);
    }
    EndsWith(Chat, payloads, ChatHandled(Concat(chunks), ending), events, last, taken);
  }

  /** The same for the group client, which passes over data that is not JSON. */
  lemma GroupDelivers(events: seq<ParsedEvent>, chunks: seq<string>, payloads: Payloads)
    requires Concat(chunks) == EncodeAll(events)
    requires forall ev | ev in events ::
      Encodable(ev) && ev.event !in ["error", "done"] && payloads.isReadable(ev.event, ev.data)
    ensures var sent := Forwards(events, (ev: ParsedEvent) => payloads.isJson(ev.data) &&
              ev.event in ["turn_started", "participant_started", "delta", "reasoning", "usage",
                                     "participant_done", "participant_skipped", "participant_error"]);
            && (forall aborted :: GroupCalls(Concat(chunks), payloads, Ended(aborted)) == sent + [Error("stream_incomplete")])
            && GroupCalls(Concat(chunks), payloads, Aborted) == sent
            && GroupCalls(Concat(chunks), payloads, Failed) == sent + [Error("network_error")]
  {
    hide Handle, HandleAll, Parsed, Encodable, Frame, Forwards, IsOpen, IsTaken;
    var taken := (ev: ParsedEvent) => payloads.isJson(ev.data) &&
              ev.event in ["turn_started", "participant_started", "delta", "reasoning", "usage",
                                     "participant_done", "participant_skipped", "participant_error"];
    EncodedStreamFrames(events);
    forall ev | ev in events ensures IsOpen(Group, payloads, ev) && taken(ev) == IsTaken(Group, payloads, ev) {
      GroupTakes(payloads, ev);
    }
    AllForwarded(Group, payloads, Frame(Concat(chunks)).blocks, events, taken);
  }

  lemma GroupCompletes(events: seq<ParsedEvent>, last: ParsedEvent, chunks: seq<string>, payloads: Payloads, ending: Ending)
    requires Concat(chunks) == EncodeAll(events + [last]) && !ending.Failed?
    requires forall ev | ev in events ::
      Encodable(ev) && ev.event !in ["error", "done"] && payloads.isReadable(ev.event, ev.data)
    requires Encodable(last) && last.event in ["error", "done"] && payloads.isJson(last.data)
    ensures var readable := payloads.isReadable(last.event, last.data);
            var sent := Forwards(events, (ev: ParsedEvent) => payloads.isJson(ev.data) &&
              ev.event in ["turn_started", "participant_started", "delta", "reasoning", "usage",
                                     "participant_done", "participant_skipped", "participant_error"]);
            GroupCalls(Concat(chunks), payloads, ending) == sent + [
              if !readable then Error("network_error")
              else if last.event == "error" then Error(payloads.errorCode(last.data))
              else if payloads.authoritative(last.data) then Done(last.data)
              else Error("malformed_done")]
  {
    hide Handle, HandleAll, Parsed, Encodable, Frame, Forwards, IsOpen, IsTaken;
    var taken := (ev: ParsedEvent) => payloads.isJson(ev.data) &&
              ev.event in ["turn_started", "participant_started", "delta", "reasoning", "usage",
                                     "participant_done", "participant_skipped", "participant_error"];
    EncodedStreamFrames(events + [last]);
    forall ev | ev in events ensures IsOpen(Group, payloads, ev) && taken(ev) == IsTaken(Group, payloads, ev) {
      GroupTakes(payloads, ev);
    }
    EndsWith(Group, payloads, Frame(Concat(chunks)).blocks, events, last, taken);
  }

  lemma DoneIsHandled(payloads: Payloads, data: string)
    requires Encodable(ParsedEvent("done", data))
    requires payloads.isJson(data) && payloads.isReadable("done", data) && payloads.authoritative(data)
    ensures HandleAll(Chat, payloads, START, [EncodedBlock(ParsedEvent("done", data))]) == Progress([Done(data)], true)
  {
    hide EncodedBlock, Parsed, Encodable;
    var ev := ParsedEvent("done", data);
    EncodedBlockParses(ev);
    var blocks := [EncodedBlock(ev)];
    assert blocks[..0] == [] && HandleAll(Chat, payloads, START, []) == START;
  }

  /** A read that fails after the done event has the turn both completed and reported as failed. */
  lemma FailureAfterDone(payloads: Payloads, data: string)
    requires Encodable(ParsedEvent("done", data))
    requires payloads.isJson(data) && payloads.isReadable("done", data) && payloads.authoritative(data)
    ensures ChatCalls(Encode(ParsedEvent("done", data)), payloads, Failed) == [Done(data), Error("transport_error")]
  {
    hide EncodedBlock, Encode, Encodable, Frame, HandleAll;
    var ev := ParsedEvent("done", data);
    EncodedBlockIsBlock(ev);
    FrameFound(EncodedBlock(ev), "");
    assert Encode(ev) == EncodedBlock(ev) + SEPARATOR + "";
    NothingRead(Chat, payloads);
    assert [EncodedBlock(ev)] + [] == [EncodedBlock(ev)];
    DoneIsHandled(payloads, data);
  }

  lemma UnterminatedBlock(ev: ParsedEvent)
    requires Encodable(ev)
    ensures var text := EncodedBlock(ev);
            Frame(text) == Framing([], text) && Trim(text, IsScriptSpace) != ""
  {
    var text := EncodedBlock(ev);
    EncodedBlockIsBlock(ev);
    forall j | 0 <= j < |text| - 1 ensures !At(text, SEPARATOR, j) {
      AtPrefix(text, SEPARATOR, j);
    }
    LetterSurvives(text);
  }

  lemma {:induction false} LetterSurvives(text: string)
    requires |text| > 0 && !IsScriptSpace(text[0])
    ensures Trim(text, IsScriptSpace) != ""
    decreases |text|
  {
    hide IsScriptSpace;
    assert TrimEnd(text, IsScriptSpace) != "";
    if IsScriptSpace(text[|text| - 1]) {
      LetterSurvives(text[..|text| - 1]);
    }
  }

  /** A done event without its blank line completes an aborted turn only when the abort shows as the end of the stream. */
  lemma UnterminatedDone(payloads: Payloads, data: string)
    requires Encodable(ParsedEvent("done", data))
    requires payloads.isJson(data) && payloads.isReadable("done", data) && payloads.authoritative(data)
    ensures var text := EncodedBlock(ParsedEvent("done", data));
            ChatCalls(text, payloads, Ended(true)) == [Done(data)] && ChatCalls(text, payloads, Aborted) == []
  {
    hide EncodedBlock, Encodable, Frame, HandleAll, Trim;
    var ev := ParsedEvent("done", data);
    UnterminatedBlock(ev);
    DoneIsHandled(payloads, data);
    assert [] + [EncodedBlock(ev)] == [EncodedBlock(ev)];
    NothingRead(Chat, payloads);
  }

  /** One space after the colon does not belong to the data, and all else does. */
  lemma DataKeepsRest(rest: string)
    ensures StartsWith("data:" + rest, "data:")
    ensures DataValue("data:" + rest) == if rest != "" && rest[0] == ' ' then rest[1..] else rest
  {
    var line := "data:" + rest;
    assert line[..5] == "data:" && line[5..] == rest;
    if rest != "" {
      assert rest[..1] == [rest[0]];
    }
  }

  /** Data without an event name belongs to an event of the default name. */
  lemma UnnamedEvent(data: string)
    requires '\n' !in data && (data != "" ==> data[|data| - 1] != '\r')
    ensures Parsed("data: " + data) == Some(ParsedEvent("message", data))
  {
    hide Trim, StartsWith, DataValue, StripReturn, SplitLines;
    var line := "data: " + data;
    LineIsNotSplit(line);
    DataLineReads(data);
    assert [line][..0] == [];
    assert DataValues([line]) == [data] && EventName([line]) == "message";
  }

  // ---------- Carriage-return delimiters ----------

  /** Text whose every line feed follows a carriage return is never cut: it reaches the handler as one block. */
  lemma CarriageReturnsDoNotFrame(text: string)
    requires forall i | 0 <= i < |text| && text[i] == '\n' :: i > 0 && text[i - 1] == '\r'
    ensures Frame(text) == Framing([], text)
  {
    hide IndexOf;
    forall i | 0 <= i < |text| - 1 ensures !At(text, SEPARATOR, i) {
      var pair := text[i..i + 2];
      assert pair[0] == text[i] && pair[1] == text[i + 1];
    }
  }

  const RETURNS: string := "\r\n\r\n"

  /** What the comment above the splitter promises: a cut at whichever of the two delimiters comes first. */
  function FrameBoth(text: string): Framing
    decreases |text|
  {
    var i, c := IndexOf(text, SEPARATOR), IndexOf(text, RETURNS);
    if i.Some? && (c.None? || i.value < c.value) then
      var f := FrameBoth(text[i.value + 2..]);
      Framing([text[..i.value]] + f.blocks, f.rest)
    else if c.Some? then
      var f := FrameBoth(text[c.value + 4..]);
      Framing([text[..c.value]] + f.blocks, f.rest)
    else Framing([], text)
  }

  lemma AtTail(text: string, k: nat, c: nat)
    requires k <= c && k <= |text|
    ensures At(text, RETURNS, c) <==> At(text[k..], RETURNS, c - k)
  {
    if c + 4 <= |text| {
      assert text[c..c + 4] == text[k..][c - k..c - k + 4];
    }
  }

  /** The two delimiters start with different characters, and one does not start inside the other before its end. */
  lemma DelimitersApart(text: string, i: nat, c: nat)
    requires At(text, SEPARATOR, i) && At(text, RETURNS, c)
    ensures i != c && (i < c ==> i + 2 <= c)
  {
    assert text[i..i + 2][0] == '\n' && text[i..i + 2][1] == '\n';
    assert text[c..c + 4][0] == '\r';
  }

  /** The cut leaves all of the other delimiters in the text behind it. */
  lemma ReturnsBehindCut(text: string, i: nat)
    requires IndexOf(text, SEPARATOR) == Some(i)
    requires var c := IndexOf(text, RETURNS); c.Some? ==> i < c.value
    ensures Contains(text, RETURNS) <==> Contains(text[i + 2..], RETURNS)
  {
    var c, d := IndexOf(text, RETURNS), IndexOf(text[i + 2..], RETURNS);
    if c.Some? {
      DelimitersApart(text, i, c.value);
      AtTail(text, i + 2, c.value);
    }
    if d.Some? {
      AtTail(text, i + 2, d.value + i + 2);
    }
  }

  lemma SameBehind(block: string, f: Framing, g: Framing)
    ensures Framing([block] + f.blocks, f.rest) == Framing([block] + g.blocks, g.rest) <==> f == g
  {
    assert ([block] + f.blocks)[1..] == f.blocks && ([block] + g.blocks)[1..] == g.blocks;
  }

  /** The code does what its comment says on exactly the texts without the second delimiter. */
  lemma {:induction false} FrameBothIff(text: string)
    ensures FrameBoth(text) == Frame(text) <==> !Contains(text, RETURNS)
    decreases |text|
  {
    var i, c := IndexOf(text, SEPARATOR), IndexOf(text, RETURNS);
    if i.Some? && c.Some? {
      DelimitersApart(text, i.value, c.value);
    }
    if i.Some? && (c.None? || i.value < c.value) {
      var more := text[i.value + 2..];
      FrameBothIff(more);
      ReturnsBehindCut(text, i.value);
      SameBehind(text[..i.value], FrameBoth(more), Frame(more));
    } else if c.Some? {
      assert FrameBoth(text).blocks[0] == text[..c.value];
      assert i.Some? ==> Frame(text).blocks[0] == text[..i.value];
    }
  }

  /** Every line feed follows a carriage return. */
  ghost predicate ReturnsBeforeFeeds(text: string) {
    forall i | 0 <= i < |text| && text[i] == '\n' :: i > 0 && text[i - 1] == '\r'
  }

  lemma ReturnLine(line: string, more: string)
    requires '\n' !in line && ReturnsBeforeFeeds(more)
    ensures ReturnsBeforeFeeds(line + "\r" + "\n" + more)
  {
    var text := line + "\r" + "\n" + more;
    forall i | 0 <= i < |text| && text[i] == '\n' ensures i > 0 && text[i - 1] == '\r' {
      if i >= |line| + 2 {
        assert text[i] == more[i - |line| - 2];
        assert i > |line| + 2 ==> text[i - 1] == more[i - 1 - |line| - 2];
      }
    }
  }

  lemma FirstLineSplits(line: string, more: string)
    requires '\n' !in line
    ensures SplitLines(line + "\n" + more) == [line] + SplitLines(more)
  {
    var s := line + "\n" + more;
    assert s[|line|..|line| + 1] == "\n";
    forall j | 0 <= j < |line| ensures !At(s, "\n", j) {
      assert s[j..j + 1] == [line[j]];
    }
    FirstOccurrence(s, "\n", |line|);
    assert s[..|line|] == line && s[|line| + 1..] == more;
  }

  lemma LineStep(lines: seq<string>, line: string)
    ensures var stripped := StripReturn(line);
            && EventName(lines + [line])
               == (if StartsWith(stripped, "event:") then Trim(stripped[6..], IsScriptSpace) else EventName(lines))
            && DataValues(lines + [line])
               == DataValues(lines) + if StartsWith(stripped, "data:") then [DataValue(stripped)] else []
  {
    assert (lines + [line])[..|lines|] == lines;
  }

  /** An event with carriage returns before all of its line feeds, and the text after it. */
  function WithReturns(ev: ParsedEvent, more: string): string {
    ("event: " + ev.event) + "\r" + "\n" + (("data: " + ev.data) + "\r" + "\n" + ("" + "\r" + "\n" + more))
  }

  function ReturnLines(ev: ParsedEvent): seq<string> {
    [("event: " + ev.event) + "\r", ("data: " + ev.data) + "\r", "" + "\r"]
  }

  lemma EventWithReturns(ev: ParsedEvent, more: string)
    requires Encodable(ev) && ReturnsBeforeFeeds(more)
    ensures ReturnsBeforeFeeds(WithReturns(ev, more)) && SplitLines(WithReturns(ev, more)) == ReturnLines(ev) + SplitLines(more)
  {
    hide SplitLines, ReturnsBeforeFeeds;
    var a, b := "event: " + ev.event, "data: " + ev.data;
    var rest := "" + "\r" + "\n" + more;
    ReturnLine("", more);
    ReturnLine(b, rest);
    ReturnLine(a, b + "\r" + "\n" + rest);
    FirstLineSplits("" + "\r", more);
    FirstLineSplits(b + "\r", rest);
    FirstLineSplits(a + "\r", b + "\r" + "\n" + rest);
  }

  lemma ReturnLinesRead(before: seq<string>, ev: ParsedEvent)
    requires Encodable(ev)
    ensures EventName(before + ReturnLines(ev)) == ev.event && DataValues(before + ReturnLines(ev)) == DataValues(before) + [ev.data]
  {
    hide Trim, StartsWith, DataValue, StripReturn, EventName, DataValues;
    var a, b := "event: " + ev.event, "data: " + ev.data;
    EventLineReads(ev.event);
    DataLineReads(ev.data);
    ReturnStripped(a);
    ReturnStripped(b);
    ReturnStripped("");
    LineKinds("");
    LineStep(before, a + "\r");
    LineStep(before + [a + "\r"], b + "\r");
    LineStep(before + [a + "\r"] + [b + "\r"], "" + "\r");
    assert before + ReturnLines(ev) == before + [a + "\r"] + [b + "\r"] + ["" + "\r"];
    assert DataValues(before) + [] == DataValues(before);
    assert DataValues(before) + [ev.data] + [] == DataValues(before) + [ev.data];
  }

  lemma ReturnStripped(line: string)
    ensures StripReturn(line + "\r") == line
  {
  }

  lemma BlankLineReads(lines: seq<string>)
    ensures EventName(lines + [""]) == EventName(lines) && DataValues(lines + [""]) == DataValues(lines)
  {
    hide EventName, DataValues, Trim;
    LineStep(lines, "");
    LineKinds("");
    assert StripReturn("") == "";
    assert DataValues(lines) + [] == DataValues(lines);
  }

  /** Two events delimited in this way are not framed, and are read as one: the name of the second with the data of both. */
  lemma ReturnsMergeEvents(e: ParsedEvent, f: ParsedEvent)
    requires Encodable(e) && Encodable(f)
    ensures var text := WithReturns(e, WithReturns(f, ""));
            && Frame(text) == Framing([], text) && Parsed(text) == Some(ParsedEvent(f.event, e.data + "\n" + f.data))
  {
    hide SplitLines, EventName, DataValues, Encodable, ReturnLines, Frame, WithReturns;
    var text := WithReturns(e, WithReturns(f, ""));
    EventWithReturns(f, "");
    EventWithReturns(e, WithReturns(f, ""));
    CarriageReturnsDoNotFrame(text);
    LineIsNotSplit("");
    var first := [] + ReturnLines(e);
    ReturnLinesRead([], e);
    ReturnLinesRead(first, f);
    BlankLineReads(first + ReturnLines(f));
    assert SplitLines(text) == first + ReturnLines(f) + [""];
    NoLines();
    assert DataValues(SplitLines(text)) == [e.data, f.data];
    TwoJoined(e.data, f.data);
  }

  lemma NoLines()
    ensures DataValues([]) == []
  {
  }

  lemma TwoJoined(a: string, b: string)
    ensures JoinLines([a, b]) == a + "\n" + b
  {
    assert [a, b][..1] == [a];
  }

  lemma LettersAreEncodable()
    ensures Encodable(ParsedEvent("delta", "a")) && Encodable(ParsedEvent("done", "b"))
  {
  }

  /** One such text. */
  lemma TwoEventsUnframed()
    ensures var text := WithReturns(ParsedEvent("delta", "a"), WithReturns(ParsedEvent("done", "b"), ""));
            Frame(text) == Framing([], text) && Parsed(text) == Some(ParsedEvent("done", "a" + "\n" + "b"))
  {
    hide *;
    LettersAreEncodable();
    ReturnsMergeEvents(ParsedEvent("delta", "a"), ParsedEvent("done", "b"));
  }
}
