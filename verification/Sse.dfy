/**
 * The run's event stream: the writer in services/orchestrator/src/server.ts and
 * the incremental reader in apps/web/src/lib/run.ts.
 */
module Sse {
  import opened Wrappers
  import opened Json
  import opened Canonical
  import opened Text

  datatype Event = Event(channel: string, data: Value)

  const CHANNELS: set<string> := {"payment", "error", "anchor", "result", "trace"}

  // --------------------------------------------------------------- writer

  /** `JSON.stringify` with bigints as decimal strings; `undefined` interpolates as its name. */
  function DataText(data: Value): string {
    if data.Undefined? then "undefined" else Stringify(Plain(data), "")
  }

  function FrameText(channel: string, data: Value): string {
    "event: " + channel + ("\n" + ("data: " + DataText(data)))
  }

  function StreamText(events: seq<Event>): string {
    if events == [] then "" else
      var n := |events| - 1;
      StreamText(events[..n]) + (FrameText(events[n].channel, events[n].data) + "\n\n")
  }

  /** The response of one run. */
  class EventStream {
    var written: string
    ghost var sent: seq<Event>

    ghost predicate Valid()
      reads this
    {
      written == StreamText(sent)
    }

    constructor ()
      ensures Valid() && sent == []
    {
      written, sent := "", [];
    }

    method Emit(channel: string, data: Value)
      requires Valid()
      modifies this
      ensures Valid() && sent == old(sent) + [Event(channel, data)]
      ensures written == old(written) + (FrameText(channel, data) + "\n\n")
    {
      written := written + (FrameText(channel, data) + "\n\n");
      sent := sent + [Event(channel, data)];
      assert sent[..|sent| - 1] == old(sent);
    }
  }

  // --------------------------------------------------------------- reader

  /** What `/^event:\s*(.+)$/m` captures, trimmed; empty when it captures nothing. */
  function Channel(t: string, lineStart: bool): string {
    if lineStart && StartsWith(t, "event:") then Trim(LineOf(TrimStart(t[6..])))
    else if t == "" then ""
    else Channel(t[1..], IsTerminator(t[0]))
  }

  /** The values of the data lines. */
  function DataLines(lines: seq<string>): seq<string> {
    if lines == [] then []
    else (if StartsWith(lines[0], "data:") then [Trim(lines[0][5..])] else []) + DataLines(lines[1..])
  }

  function Payload(frame: string): string {
    Join(DataLines(SplitOn(frame, "\n")), "\n")
  }

  datatype Decoded = Skip | Yield(event: Event) | Threw

  function DecodeFrame(frame: string): Decoded {
    var channel, payload := Channel(frame, true), Payload(frame);
    if channel == "" || payload == "" then Skip
    else match Parse(payload)
      case None => Threw
      case Some(v) => Yield(Event(channel, v))
  }

  datatype Reading = Reading(events: seq<Event>, threw: bool)

  /** The frames in order, up to one that throws. */
  function DecodeAll(frames: seq<string>): Reading {
    if frames == [] then Reading([], false)
    else match DecodeFrame(frames[0])
      case Threw => Reading([], true)
      case Skip => DecodeAll(frames[1..])
      case Yield(e) => var rest := DecodeAll(frames[1..]); rest.(events := [e] + rest.events)
  }

  /** The complete frames of a text: what follows the last separator is a partial one. */
  function Frames(text: string): seq<string> {
    var parts := SplitOn(text, "\n\n");
    parts[..|parts| - 1]
  }

  function Tail(text: string): string {
    var parts := SplitOn(text, "\n\n");
    parts[|parts| - 1]
  }

  /** One more chunk: the reader's own step, on the buffer alone. */
  lemma FeedFrames(text: string, chunk: string)
    ensures Frames(text + chunk) == Frames(text) + Frames(Tail(text) + chunk)
    ensures Tail(text + chunk) == Tail(Tail(text) + chunk)
  {
    SplitExtends(text, chunk, "\n\n");
    var parts, more := SplitOn(text, "\n\n"), SplitOn(Tail(text) + chunk, "\n\n");
    assert SplitOn(text + chunk, "\n\n") == parts[..|parts| - 1] + more;
  }

  lemma {:induction false} DecodeAppend(a: seq<string>, b: seq<string>)
    ensures DecodeAll(a + b) ==
              if DecodeAll(a).threw then DecodeAll(a)
              else Reading(DecodeAll(a).events + DecodeAll(b).events, DecodeAll(b).threw)
  {
    hide DecodeFrame;
    if a == [] {
      assert a + b == b;
    } else {
      assert (a + b)[0] == a[0] && (a + b)[1..] == a[1..] + b;
      DecodeAppend(a[1..], b);
    }
  }

  /**
   * `streamRun`, from its first read on. Whatever the chunks, it yields what the
   * frames of the whole text decode to.
   */
  method ReadStream(chunks: seq<string>) returns (r: Reading)
    ensures r == DecodeAll(Frames(Concat(chunks)))
  {
    hide DecodeFrame, Frames, Tail;
    EmptyText();
    var buffer, events := "", [];
    for k := 0 to |chunks|
      invariant buffer == Tail(Concat(chunks[..k]))
      invariant Reading(events, false) == DecodeAll(Frames(Concat(chunks[..k])))
    {
      ghost var text := Concat(chunks[..k]);
      assert chunks[..k + 1][..k] == chunks[..k];
      FeedFrames(text, chunks[k]);
      buffer := buffer + chunks[k];
      var frames := Frames(buffer);
      buffer := Tail(buffer);
      assert Frames(text) + frames[..0] == Frames(text);
      for i := 0 to |frames|
        invariant Reading(events, false) == DecodeAll(Frames(text) + frames[..i])
      {
        var decoded := DecodeFrame(frames[i]);
        assert frames[..i + 1] == frames[..i] + [frames[i]];
        assert Frames(text) + frames[..i + 1] == (Frames(text) + frames[..i]) + [frames[i]];
        DecodeAppend(Frames(text) + frames[..i], [frames[i]]);
        if decoded.Threw? {
          ThrewStays(chunks, k, Frames(text) + frames[..i + 1]);
          return Reading(events, true);
        }
        if decoded.Yield? {
          events := events + [decoded.event];
        }
      }
      assert frames[..|frames|] == frames;
    }
    assert chunks[..|chunks|] == chunks;
    r := Reading(events, false);
  }

  lemma {:induction false} FramesGrow(chunks: seq<string>, k: nat)
    requires k <= |chunks|
    ensures Frames(Concat(chunks[..k])) <= Frames(Concat(chunks))
    decreases |chunks| - k
  {
    hide Frames, Tail;
    if k < |chunks| {
      assert chunks[..k + 1][..k] == chunks[..k];
      FeedFrames(Concat(chunks[..k]), chunks[k]);
      FramesGrow(chunks, k + 1);
    } else {
      assert chunks[..k] == chunks;
    }
  }

  /** What has thrown stays thrown, whatever follows. */
  lemma ThrewStays(chunks: seq<string>, k: nat, done: seq<string>)
    requires k < |chunks| && done <= Frames(Concat(chunks[..k + 1])) && DecodeAll(done).threw
    ensures DecodeAll(Frames(Concat(chunks))) == DecodeAll(done)
  {
    hide Frames, DecodeFrame;
    FramesGrow(chunks, k + 1);
    var all := Frames(Concat(chunks));
    assert all == done + all[|done|..];
    DecodeAppend(done, all[|done|..]);
  }

  lemma EmptyText()
    ensures Frames("") == [] && Tail("") == ""
  {
  }

  // --------------------------------------- compact JSON fills one solid line

  /** On one line, with no blank at its end. */
  predicate Whole(t: string) {
    '\n' !in t && (t == "" || !IsBlank(t[|t| - 1]))
  }

  lemma MarkWhole()
    ensures Whole("]") && Whole("}") && Whole("null") && Whole("true") && Whole("false")
    ensures forall c: char :: c == '[' || c == '{' || c == '\"' ==> !IsBlank(c)
  {
  }

  lemma WholeAfter(a: string, t: string)
    requires '\n' !in a && Whole(t) && (t != "" || Whole(a))
    ensures Whole(a + t)
  {
    if t != "" { assert (a + t)[|a + t| - 1] == t[|t| - 1]; }
  }

  lemma {:induction false} EscapeWhole(s: string, rest: string)
    requires Whole(rest) && rest != ""
    ensures Whole(Escape(s, rest)) && Escape(s, rest) != ""
  {
    if s == "" {
    } else {
      EscapeWhole(s[1..], rest);
      EscapedOnOneLine(s[0]);
      WholeAfter(EscapeChar(s[0]), Escape(s[1..], rest));
    }
  }

  lemma EscapedOnOneLine(c: char)
    ensures '\n' !in EscapeChar(c)
  {
    if '\U{8}' != c < ' ' && c != '\U{C}' && c != '\n' && c != '\r' && c != '\t' {
      var hi, lo := HexDigit(c as int / 16), HexDigit(c as int % 16);
      assert EscapeChar(c) == "\\u00" + [hi, lo];
    }
  }

  lemma QuoteWhole(s: string, rest: string)
    requires Whole(rest)
    ensures Whole(Quote(s, rest)) && Quote(s, rest) != "" && Quote(s, rest)[0] == '\"'
  {
    WholeAfter("\"", rest);
    EscapeWhole(s, "\"" + rest);
    WholeAfter("\"", Escape(s, "\"" + rest));
  }

  lemma {:induction false} DigitsAreSolid(n: int)
    ensures Whole(Decimal(n)) && Decimal(n) != "" && !IsBlank(Decimal(n)[0])
  {
    var digits := Digits(if n < 0 then -n else n);
    assert forall i :: 0 <= i < |digits| ==> IsDigit(digits[i]);
    if n < 0 { WholeAfter("-", digits); }
  }

  /** A printed value: one line, blank at neither end. */
  lemma {:induction false} PrintWhole(v: Value, indent: string, rest: string)
    requires IsJson(v) && Whole(rest)
    ensures var t := Print(v, "", indent, rest); Whole(t) && t != "" && !IsBlank(t[0])
    decreases v, 2
  {
    hide Whole, Decimal, Quote;
    MarkWhole();
    match v {
      case Null => WholeAfter("null", rest);
      case Bool(b) => WholeAfter(if b then "true" else "false", rest);
      case Num(n) => DigitsAreSolid(n); WholeAfter(Decimal(n), rest);
      case Str(s) => QuoteWhole(s, rest);
      case Arr(items) => ArrayWhole(items, indent, rest);
      case Obj(members) => ObjectWhole(members, indent, rest);
      case Undefined =>
      case BigInt(_) =>
    }
  }

  lemma {:induction false} ArrayWhole(items: Items, indent: string, rest: string)
    requires ItemsAreJson(items) && Whole(rest)
    ensures var t := Print(Arr(items), "", indent, rest); Whole(t) && t != "" && t[0] == '['
    decreases items, 1
  {
    hide Whole;
    MarkWhole();
    WholeAfter("]", rest);
    if items == NoItems {
      WholeAfter("[", "]" + rest);
    } else {
      assert "" + ("]" + rest) == "]" + rest;
      ItemsWhole(items, indent + "", "]" + rest);
      var body := PrintItems(items, "", indent + "", "]" + rest);
      assert "" + body == body;
      WholeAfter("[", body);
    }
  }

  lemma {:induction false} ObjectWhole(members: Members, indent: string, rest: string)
    requires MembersAreJson(members) && Whole(rest)
    ensures var t := Print(Obj(members), "", indent, rest); Whole(t) && t != "" && t[0] == '{'
    decreases members, 1
  {
    hide Whole;
    MarkWhole();
    WholeAfter("}", rest);
    if members == NoMembers {
      WholeAfter("{", "}" + rest);
    } else {
      assert "" + ("}" + rest) == "}" + rest;
      MembersWhole(members, indent + "", "}" + rest);
      var body := PrintMembers(members, "", indent + "", "}" + rest);
      assert "" + body == body;
      WholeAfter("{", body);
    }
  }

  lemma {:induction false} ItemsWhole(items: Items, indent: string, rest: string)
    requires items.Item? && ItemsAreJson(items) && Whole(rest) && rest != ""
    ensures Whole(PrintItems(items, "", indent, rest)) && PrintItems(items, "", indent, rest) != ""
    decreases items, 0
  {
    if items.tail == NoItems {
      PrintWhole(items.head, indent, rest);
    } else {
      ItemsWhole(items.tail, indent, rest);
      var more := PrintItems(items.tail, "", indent, rest);
      assert "" + more == more;
      WholeAfter(",", more);
      PrintWhole(items.head, indent, "," + more);
    }
  }

  lemma {:induction false} MembersWhole(members: Members, indent: string, rest: string)
    requires members.Member? && MembersAreJson(members) && Whole(rest) && rest != ""
    ensures Whole(PrintMembers(members, "", indent, rest)) && PrintMembers(members, "", indent, rest) != ""
    decreases members, 0
  {
    var after := rest;
    if members.tail != NoMembers {
      MembersWhole(members.tail, indent, rest);
      var more := PrintMembers(members.tail, "", indent, rest);
      assert "" + more == more;
      WholeAfter(",", more);
      after := "," + more;
    }
    PrintWhole(members.value, indent, after);
    WholeAfter(":", Print(members.value, "", indent, after));
    QuoteWhole(members.key, ":" + Print(members.value, "", indent, after));
  }

  lemma DataIsSolid(data: Value)
    ensures Solid(DataText(data)) && '\n' !in DataText(data)
  {
    if !data.Undefined? { PrintWhole(Plain(data), "", ""); }
  }

  // ----------------------------------------------------------- round trip

  /** A channel name the stream can carry: solid, and on one line. */
  predicate ChannelOk(c: string) {
    Solid(c) && forall i :: 0 <= i < |c| ==> !IsTerminator(c[i])
  }

  lemma ChannelsAreOk(c: string)
    requires c in CHANNELS
    ensures ChannelOk(c)
  {
  }

  lemma TrimSolid(t: string)
    requires Solid(t)
    ensures Trim(t) == t && Trim(" " + t) == t
  {
    assert (" " + t)[1..] == t;
  }

  lemma {:induction false} LineEnds(c: string, rest: string)
    requires forall i :: 0 <= i < |c| ==> !IsTerminator(c[i])
    ensures LineOf(c + "\n" + rest) == c
  {
    var t := c + "\n" + rest;
    if c == "" {
    } else {
      assert t[1..] == c[1..] + "\n" + rest;
      LineEnds(c[1..], rest);
    }
  }

  lemma ChannelOfFrame(channel: string, data: Value)
    requires ChannelOk(channel)
    ensures Channel(FrameText(channel, data), true) == channel
  {
    hide DataText;
    var rest := "data: " + DataText(data);
    var t := FrameText(channel, data);
    assert t == "event:" + (" " + (channel + "\n" + rest));
    assert t[6..] == " " + (channel + "\n" + rest);
    assert (" " + (channel + "\n" + rest))[1..] == channel + "\n" + rest;
    assert TrimStart(t[6..]) == channel + "\n" + rest;
    LineEnds(channel, rest);
    TrimSolid(channel);
  }

  lemma OneLine(b: string)
    requires '\n' !in b
    ensures SplitOn(b, "\n") == [b]
  {
    forall j | 0 <= j < |b|
      ensures !StartsWith(b[j..], "\n")
    {
      assert b[j..][0] == b[j];
    }
    assert IndexOf(b, "\n") < 0;
  }

  lemma FirstNewline(a: string, b: string)
    requires '\n' !in a
    ensures IndexOf(a + ("\n" + b), "\n") == |a|
  {
    hide IndexOf;
    var t := a + ("\n" + b);
    assert t[|a|..] == "\n" + b;
    forall j | 0 <= j < |a|
      ensures !StartsWith(t[j..], "\n")
    {
      assert t[j..][0] == a[j];
    }
    IndexOfIs(t, "\n", |a|);
  }

  lemma LinesOfFrame(a: string, b: string)
    requires '\n' !in a && '\n' !in b
    ensures SplitOn(a + ("\n" + b), "\n") == [a, b]
  {
    hide IndexOf, StartsWith;
    var t := a + ("\n" + b);
    FirstNewline(a, b);
    assert t[..|a|] == a && t[|a| + 1..] == b;
    OneLine(b);
  }

  lemma DataLine(channel: string, json: string)
    requires Solid(json)
    ensures DataLines(["event: " + channel, "data: " + json]) == [json]
  {
    var lines := ["event: " + channel, "data: " + json];
    assert lines[0][0] == 'e' && lines[1][..5] == "data:";
    assert lines[1][5..] == " " + json;
    TrimSolid(json);
    assert lines[1..] == [lines[1]];
    assert DataLines(lines[1..]) == [json];
  }

  /** One frame there and back. Only `undefined` cannot make the trip. */
  lemma FrameRoundTrip(channel: string, data: Value)
    requires ChannelOk(channel)
    ensures DecodeFrame(FrameText(channel, data)) == if data.Undefined? then Threw
              else Yield(Event(channel, Plain(data)))
  {
    hide DataText, Channel, Parse, Stringify, DataLines, SplitOn, IsBlank;
    DataIsSolid(data);
    ChannelOfFrame(channel, data);
    LinesOfFrame("event: " + channel, "data: " + DataText(data));
    DataLine(channel, DataText(data));
    assert Payload(FrameText(channel, data)) == DataText(data);
    DataParses(data);
  }

  lemma DataParses(data: Value)
    ensures Parse(DataText(data)) == if data.Undefined? then None else Some(Plain(data))
  {
    if !data.Undefined? { StringifyParse(Plain(data), ""); }
  }

  predicate Deliverable(events: seq<Event>) {
    forall i :: 0 <= i < |events| ==> ChannelOk(events[i].channel) && !events[i].data.Undefined?
  }

  /** The events as the reader sees them: bigints as decimal strings, undefined members gone. */
  function Delivered(events: seq<Event>): seq<Event> {
    seq(|events|, i requires 0 <= i < |events| => Event(events[i].channel, Plain(events[i].data)))
  }

  function FramesOf(events: seq<Event>): seq<string> {
    seq(|events|, i requires 0 <= i < |events| => FrameText(events[i].channel, events[i].data))
  }

  /** A frame of two lines holds no separator and does not end in a newline. */
  lemma FrameStands(a: string, b: string, rest: string)
    requires '\n' !in a && '\n' !in b && a != "" && b != ""
    ensures var frame := a + ("\n" + b); SplitOn((frame + "\n\n") + rest, "\n\n") == [frame] + SplitOn(rest, "\n\n")
  {
    var frame := a + ("\n" + b);
    var t := (frame + "\n\n") + rest;
    assert t[|frame|..][..2] == "\n\n";
    forall j | 0 <= j < |frame|
      ensures !StartsWith(t[j..], "\n\n")
    {
      if j == |a| {
        assert t[j..][1] == b[0];
      } else if j < |a| {
        assert t[j..][0] == a[j];
      } else {
        assert t[j..][0] == b[j - |a| - 1];
      }
    }
    IndexOfIs(t, "\n\n", |frame|);
    assert t[..|frame|] == frame && t[|frame| + 2..] == rest;
  }

  lemma FrameSplits(channel: string, data: Value)
    requires ChannelOk(channel)
    ensures SplitOn(FrameText(channel, data) + "\n\n", "\n\n") == [FrameText(channel, data), ""]
  {
    hide DataText, SplitOn, IsBlank;
    DataIsSolid(data);
    var frame := FrameText(channel, data);
    FrameStands("event: " + channel, "data: " + DataText(data), "");
    assert (frame + "\n\n") + "" == frame + "\n\n";
    SplitEmpty();
  }

  lemma SplitEmpty()
    ensures SplitOn("", "\n\n") == [""]
  {
  }

  /** The whole stream splits into its frames and an empty rest. */
  lemma {:induction false} StreamSplits(events: seq<Event>)
    requires forall i :: 0 <= i < |events| ==> ChannelOk(events[i].channel)
    ensures SplitOn(StreamText(events), "\n\n") == FramesOf(events) + [""]
  {
    hide FrameText, ChannelOk, SplitOn;
    if events == [] {
      SplitEmpty();
    } else {
      var n := |events| - 1;
      var before, frame := StreamText(events[..n]), FrameText(events[n].channel, events[n].data);
      StreamSplits(events[..n]);
      FrameSplits(events[n].channel, events[n].data);
      SplitExtends(before, frame + "\n\n", "\n\n");
      assert "" + (frame + "\n\n") == frame + "\n\n";
      assert FramesOf(events) == FramesOf(events[..n]) + [frame];
    }
  }

  lemma {:induction false} DecodeFrames(events: seq<Event>)
    requires Deliverable(events)
    ensures DecodeAll(FramesOf(events)) == Reading(Delivered(events), false)
  {
    hide FrameText, DecodeFrame, ChannelOk;
    if events == [] {
    } else {
      FrameRoundTrip(events[0].channel, events[0].data);
      DecodeFrames(events[1..]);
      assert FramesOf(events)[1..] == FramesOf(events[1..]);
      assert Delivered(events) == [Event(events[0].channel, Plain(events[0].data))] + Delivered(events[1..]);
    }
  }

  /**
   * The round trip, under every chunking: however the text of the emitted
   * events is cut, in the middle of a separator or of a number, the reader
   * yields exactly those events, in order.
   */
  lemma StreamRoundTrip(events: seq<Event>, chunks: seq<string>)
    requires Deliverable(events) && Concat(chunks) == StreamText(events)
    ensures DecodeAll(Frames(Concat(chunks))) == Reading(Delivered(events), false)
  {
    StreamSplits(events);
    DecodeFrames(events);
    assert (FramesOf(events) + [""])[..|events|] == FramesOf(events);
  }

  /**
   * What one run's response carries comes back: whatever the server emitted on
   * its five channels, and however the connection chunks it.
   */
  lemma ResponseRoundTrip(stream: EventStream, chunks: seq<string>)
    requires stream.Valid() && Concat(chunks) == stream.written
    requires forall i :: 0 <= i < |stream.sent| ==>
               stream.sent[i].channel in CHANNELS && !stream.sent[i].data.Undefined?
    ensures DecodeAll(Frames(Concat(chunks))) == Reading(Delivered(stream.sent), false)
  {
    forall i | 0 <= i < |stream.sent|
      ensures ChannelOk(stream.sent[i].channel)
    {
      ChannelsAreOk(stream.sent[i].channel);
    }
    StreamRoundTrip(stream.sent, chunks);
  }

  /** A connection cut anywhere yields a prefix of them, and never throws. */
  lemma CutStream(events: seq<Event>, text: string)
    requires Deliverable(events) && text <= StreamText(events)
    ensures exists k :: 0 <= k <= |events| && DecodeAll(Frames(text)) == Reading(Delivered(events)[..k], false)
  {
    hide DecodeAll, StreamText, Frames, FramesOf, ChannelOk, Plain;
    var k := CutFrames(events, text);
    DecodeFrames(events[..k]);
    assert Delivered(events[..k]) == Delivered(events)[..k];
  }

  lemma CutFrames(events: seq<Event>, text: string) returns (k: nat)
    requires text <= StreamText(events) && forall i :: 0 <= i < |events| ==> ChannelOk(events[i].channel)
    ensures k <= |events| && Frames(text) == FramesOf(events[..k])
  {
    hide StreamText, SplitOn, ChannelOk, FrameText;
    var more := StreamText(events)[|text|..];
    assert StreamText(events) == text + more;
    FeedFrames(text, more);
    StreamSplits(events);
    assert Frames(StreamText(events)) == FramesOf(events);
    k := |Frames(text)|;
    assert Frames(text) == FramesOf(events)[..k];
    assert FramesOf(events)[..k] == FramesOf(events[..k]);
  }
}
