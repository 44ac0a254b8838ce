/** Server-sent events on both sides of the wire: the printer (`encode_sse_data` in
    backend/app/chat/sse.py, the ping comment in backend/app/api/routes/conversations.py) and the
    incremental reader (`streamMessage`, `consumeFrames`, `parseFrame` in frontend/src/api/chat.ts).

    Payloads are printed and parsed by a codec that is a parameter; the text is a sequence of
    characters. */
module Sse {
  import opened Text

  // The printer

  function EncodeSseData(eventName: string, data: string, eventId: Option<string>): string {
    (if Truthy(eventId) then ("id: " + eventId.value) + "\n" else "")
    + (("event: " + eventName) + "\n" + ("data: " + data)) + "\n\n"
  }

  const PING := ": ping\n\n"

  // The reader: frames

  /** Length of the line break `s` begins with, zero if none. */
  function BreakLength(s: string): (n: nat)
    ensures n <= 2 && n <= |s|
  {
    if |s| >= 1 && s[0] == '\n' then 1
    else if |s| >= 2 && s[0] == '\r' && s[1] == '\n' then 2
    else 0
  }

  /** Length of the blank-line separator `s` begins with, zero if none. */
  function SeparatorLength(s: string): (n: nat)
    ensures n <= 4 && n <= |s|
    ensures n == 0 || n >= 2
  {
    var first := BreakLength(s);
    var second := BreakLength(s[first..]);
    if first > 0 && second > 0 then first + second else 0
  }

  /** Where the leftmost separator begins; the length of `s` if there is none. */
  function FirstSeparator(s: string): (k: nat)
    ensures k <= |s|
    ensures k < |s| ==> SeparatorLength(s[k..]) > 0
  {
    if s == "" then 0
    else if SeparatorLength(s) > 0 then 0
    else 1 + FirstSeparator(s[1..])
  }

  datatype Split = Split(frames: seq<string>, rest: string)

  function Frames(s: string): Split
    decreases |s|
  {
    var k := FirstSeparator(s);
    if k == |s| then Split([], s)
    else
      var n := k + SeparatorLength(s[k..]);
      var more := Frames(s[n..]);
      Split([s[..k]] + more.frames, more.rest)
  }

  lemma SeparatorExtends(s: string, t: string)
    requires SeparatorLength(s) > 0
    ensures SeparatorLength(s + t) == SeparatorLength(s)
  {
    var first := BreakLength(s);
    assert BreakLength(s + t) == first;
    assert (s + t)[first..] == s[first..] + t;
  }

  /** A separator found later shows that none was about to be completed here. */
  lemma SeparatorNotAcross(s: string, t: string)
    requires s != "" && SeparatorLength(s) == 0 && FirstSeparator(s[1..]) < |s| - 1
    ensures SeparatorLength(s + t) == 0
  {
    assert SeparatorLength(s[1..][FirstSeparator(s[1..])..]) > 0;
  }

  lemma DropInside(s: string, k: nat, t: string)
    requires s != "" && k <= |s| - 1
    ensures (s + t)[1..] == s[1..] + t
    ensures s[1..][k..] == s[1 + k..]
    ensures (s[1..] + t)[k..] == (s + t)[1 + k..]
    ensures (s + t)[k..] == s[k..] + t
  {
  }

  /** More input never moves a frame boundary that has been found. */
  lemma {:induction false} SeparatorIsStable(s: string, t: string)
    requires FirstSeparator(s) < |s|
    ensures FirstSeparator(s + t) == FirstSeparator(s)
    ensures SeparatorLength((s + t)[FirstSeparator(s)..]) == SeparatorLength(s[FirstSeparator(s)..])
  {
    hide SeparatorLength;
    if SeparatorLength(s) > 0 {
      SeparatorExtends(s, t);
      assert s[0..] == s && (s + t)[0..] == s + t;
    } else {
      SeparatorIsStable(s[1..], t);
      SeparatorNotAcross(s, t);
      DropInside(s, FirstSeparator(s[1..]), t);
    }
  }

  lemma {:induction false} FramesStep(s: string)
    requires FirstSeparator(s) < |s|
    ensures var k := FirstSeparator(s);
            var more := Frames(s[k + SeparatorLength(s[k..])..]);
            Frames(s) == Split([s[..k]] + more.frames, more.rest)
  {
    hide SeparatorLength, FirstSeparator;
  }

  lemma {:induction false} NoFrameYet(s: string)
    requires FirstSeparator(s) == |s|
    ensures Frames(s) == Split([], s)
  {
    hide SeparatorLength, FirstSeparator;
  }

  /** Feeding the rest of one read in front of the next gives the frames of the whole text, however
      the text was cut. */
  lemma {:induction false} FramesOfPieces(s: string, t: string)
    ensures var a := Frames(s);
            var b := Frames(a.rest + t);
            Frames(s + t) == Split(a.frames + b.frames, b.rest)
    decreases |s|
  {
    hide SeparatorLength, FirstSeparator, Frames;
    var k := FirstSeparator(s);
    if k < |s| {
      SeparatorIsStable(s, t);
      var n := k + SeparatorLength(s[k..]);
      FramesOfPieces(s[n..], t);
      FramesStep(s);
      FramesStep(s + t);
      assert (s + t)[n..] == s[n..] + t;
      assert (s + t)[..k] == s[..k];
      var a, b := Frames(s), Frames(Frames(s).rest + t);
      assert a.frames + b.frames == [s[..k]] + (Frames(s[n..]).frames + b.frames);
    } else {
      NoFrameYet(s);
      assert [] + Frames(s + t).frames == Frames(s + t).frames;
    }
  }

  // The reader: one frame

  function FirstBreak(s: string): (k: nat)
    ensures k <= |s|
    ensures k < |s| ==> BreakLength(s[k..]) > 0
  {
    if s == "" then 0
    else if BreakLength(s) > 0 then 0
    else 1 + FirstBreak(s[1..])
  }

  function Lines(s: string): (lines: seq<string>)
    decreases |s|
  {
    var k := FirstBreak(s);
    if k == |s| then [s] else [s[..k]] + Lines(s[k + BreakLength(s[k..])..])
  }

  /** White space as trimmed by the browser. */
  predicate IsSpace(c: char) {
    || '\t' <= c <= '\r'
    || c in {' ', '\U{00A0}', '\U{1680}', '\U{2028}', '\U{2029}', '\U{202F}', '\U{205F}', '\U{3000}', '\U{FEFF}'}
    || '\U{2000}' <= c <= '\U{200A}'
  }

  function TrimStart(s: string): string {
    if s != "" && IsSpace(s[0]) then TrimStart(s[1..]) else s
  }

  function TrimEnd(s: string): string {
    if s != "" && IsSpace(s[|s| - 1]) then TrimEnd(s[..|s| - 1]) else s
  }

  function Trim(s: string): string {
    TrimEnd(TrimStart(s))
  }

  datatype Fields = Fields(id: Option<string>, event: string, dataLines: seq<string>)

  const NO_FIELDS := Fields(None, "message", [])

  function ReadLine(f: Fields, line: string): Fields {
    if "event:" <= line then f.(event := Trim(line[6..]))
    else if "id:" <= line then f.(id := Some(Trim(line[3..])))
    else if "data:" <= line then f.(dataLines := f.dataLines + [TrimStart(line[5..])])
    else f
  }

  function ReadLines(lines: seq<string>): Fields {
    if lines == [] then NO_FIELDS else ReadLine(ReadLines(lines[..|lines| - 1]), lines[|lines| - 1])
  }

  datatype StreamEvent<J> = StreamEvent(id: Option<string>, event: string, data: J)

  /** A frame is a comment, an event, or text the payload parser throws at. */
  datatype Parsed<J> = Comment | Event(event: StreamEvent<J>) | Throws

  function ParsedFields<J>(f: Fields, parse: string -> Option<J>): Parsed<J> {
    if f.dataLines == [] then Comment
    else
      var data := parse(Join("\n", f.dataLines));
      if data.None? then Throws else Event(StreamEvent(f.id, f.event, data.value))
  }

  function ParseFrame<J>(frame: string, parse: string -> Option<J>): Parsed<J> {
    ParsedFields(ReadLines(Lines(frame)), parse)
  }

  method ParseFrameByLine<J>(frame: string, parse: string -> Option<J>) returns (r: Parsed<J>)
    ensures r == ParseFrame(frame, parse)
  {
    var eventId, eventName, dataLines := None, "message", [];
    var lines := Lines(frame);
    for i := 0 to |lines|
      invariant Fields(eventId, eventName, dataLines) == ReadLines(lines[..i])
    {
      var line := lines[i];
      assert lines[..i + 1][..i] == lines[..i];
      if "event:" <= line {
        eventName := Trim(line[6..]);
      } else if "id:" <= line {
        eventId := Some(Trim(line[3..]));
      } else if "data:" <= line {
        dataLines := dataLines + [TrimStart(line[5..])];
      }
    }
    assert lines[..|lines|] == lines;
    if dataLines == [] {
      return Comment;
    }
    var data := parse(Join("\n", dataLines));
    return if data.None? then Throws else Event(StreamEvent(eventId, eventName, data.value));
  }

  // The reader: deliveries

  /** What the callback has been given, and whether reading stopped with an exception. */
  datatype Delivery<J> = Delivery(events: seq<StreamEvent<J>>, threw: bool)

  function Deliver<J>(frames: seq<string>, parse: string -> Option<J>): Delivery<J> {
    if frames == [] then Delivery([], false)
    else
      var before := Deliver(frames[..|frames| - 1], parse);
      if before.threw then before
      else
        match ParseFrame(frames[|frames| - 1], parse)
        case Comment => before
        case Event(e) => Delivery(before.events + [e], false)
        case Throws => Delivery(before.events, true)
  }

  lemma {:induction false} DeliverMore<J>(a: seq<string>, b: seq<string>, parse: string -> Option<J>)
    ensures Deliver(a, parse).threw ==> Deliver(a + b, parse) == Deliver(a, parse)
    ensures !Deliver(a, parse).threw ==>
      Deliver(a + b, parse)
      == Delivery(Deliver(a, parse).events + Deliver(b, parse).events, Deliver(b, parse).threw)
  {
    if b == [] {
      assert a + b == a;
    } else {
      assert (a + b)[..|a + b| - 1] == a + b[..|b| - 1];
      DeliverMore(a, b[..|b| - 1], parse);
    }
  }

  function Concat(pieces: seq<string>): string {
    if pieces == [] then "" else Concat(pieces[..|pieces| - 1]) + pieces[|pieces| - 1]
  }

  lemma NoFramesTaken(split: Split)
    ensures Split([] + split.frames, split.rest) == split
  {
    assert [] + split.frames == split.frames;
  }

  /** The text left after taking the first frame off. */
  function AfterFrame(buffer: string): (rest: string)
    requires FirstSeparator(buffer) < |buffer|
    ensures |rest| < |buffer|
  {
    var k := FirstSeparator(buffer);
    buffer[k + SeparatorLength(buffer[k..])..]
  }

  lemma FrameFirstTaken(buffer: string)
    requires FirstSeparator(buffer) < |buffer|
    ensures var more := Frames(AfterFrame(buffer));
            Frames(buffer) == Split([buffer[..FirstSeparator(buffer)]] + more.frames, more.rest)
  {
    hide SeparatorLength, FirstSeparator;
  }

  lemma Regroup(a: seq<string>, b: seq<string>, c: seq<string>)
    ensures a + (b + c) == (a + b) + c
  {
  }

  lemma TakeFrame(taken: seq<string>, buffer: string)
    requires FirstSeparator(buffer) < |buffer|
    ensures var frame, more := buffer[..FirstSeparator(buffer)], Frames(AfterFrame(buffer));
            taken + Frames(buffer).frames == (taken + [frame]) + more.frames && Frames(buffer).rest == more.rest
  {
    hide FirstSeparator, AfterFrame, Frames;
    FrameFirstTaken(buffer);
    Regroup(taken, [buffer[..FirstSeparator(buffer)]], Frames(AfterFrame(buffer)).frames);
  }

  lemma DeliverOne<J>(taken: seq<string>, frame: string, parse: string -> Option<J>)
    ensures var before := Deliver(taken, parse);
            Deliver(taken + [frame], parse)
            == if before.threw then before
               else match ParseFrame(frame, parse)
                    case Comment => before
                    case Event(e) => Delivery(before.events + [e], false)
                    case Throws => Delivery(before.events, true)
  {
    assert (taken + [frame])[..|taken|] == taken;
  }

  /** `consumeFrames`: delivers every complete frame and keeps the rest. */
  method ConsumeFrames<J>(input: string, parse: string -> Option<J>)
    returns (d: Delivery<J>, rest: string)
    ensures d == Deliver(Frames(input).frames, parse)
    ensures !d.threw ==> rest == Frames(input).rest
  {
    hide FirstSeparator, ParseFrame, AfterFrame, Deliver;
    var buffer := input;
    d := Delivery([], false);
    ghost var taken: seq<string> := [];
    NoFramesTaken(Frames(input));
    DeliverNothing(parse);
    while true
      invariant d == Deliver(taken, parse) && !d.threw
      invariant Frames(input) == Split(taken + Frames(buffer).frames, Frames(buffer).rest)
      decreases |buffer|
    {
      var index := FirstSeparator(buffer);
      if index == |buffer| {
        assert taken + [] == taken;
        return d, buffer;
      }
      var frame := buffer[..index];
      TakeFrame(taken, buffer);
      buffer := AfterFrame(buffer);
      DeliverOne(taken, frame, parse);
      taken := taken + [frame];
      DeliverMore(taken, Frames(buffer).frames, parse);
      var parsed := ParseFrameByLine(frame, parse);
      match parsed {
        case Comment =>
        case Event(e) => d := Delivery(d.events + [e], false);
        case Throws => return Delivery(d.events, true), buffer;
      }
    }
  }

  lemma DeliverNothing<J>(parse: string -> Option<J>)
    ensures Deliver([], parse) == Delivery([], false)
  {
  }

  /** `streamMessage`: however the body arrives, the callback sees what the whole text says. */
  method StreamMessage<J>(pieces: seq<string>, parse: string -> Option<J>) returns (d: Delivery<J>)
    ensures d == Deliver(Frames(Concat(pieces)).frames, parse)
  {
    var buffer := "";
    d := Delivery([], false);
    for i := 0 to |pieces|
      invariant d == Deliver(Frames(Concat(pieces[..i])).frames, parse)
      invariant !d.threw
      invariant buffer == Frames(Concat(pieces[..i])).rest
    {
      ghost var before := Concat(pieces[..i]);
      assert pieces[..i + 1][..i] == pieces[..i];
      FramesOfPieces(before, pieces[i]);
      buffer := buffer + pieces[i];
      var got, rest := ConsumeFrames(buffer, parse);
      DeliverMore(Frames(before).frames, Frames(buffer).frames, parse);
      d := Delivery(d.events + got.events, got.threw);
      if got.threw {
        PrefixOfText(pieces, i + 1);
        StopsAtThrow(Concat(pieces[..i + 1]), Concat(pieces), parse);
        return;
      }
      buffer := rest;
    }
    assert pieces[..|pieces|] == pieces;
  }

  lemma {:induction false} PrefixOfText(pieces: seq<string>, i: nat)
    requires i <= |pieces|
    ensures Concat(pieces[..i]) <= Concat(pieces)
    decreases |pieces|
  {
    if i < |pieces| {
      PrefixOfText(pieces[..|pieces| - 1], i);
      assert pieces[..|pieces| - 1][..i] == pieces[..i];
    } else {
      assert pieces[..i] == pieces;
    }
  }

  lemma StopsAtThrow<J>(prefix: string, text: string, parse: string -> Option<J>)
    requires prefix <= text && Deliver(Frames(prefix).frames, parse).threw
    ensures Deliver(Frames(text).frames, parse) == Deliver(Frames(prefix).frames, parse)
  {
    var tail := text[|prefix|..];
    assert text == prefix + tail;
    FramesOfPieces(prefix, tail);
    DeliverMore(Frames(prefix).frames, Frames(Frames(prefix).rest + tail).frames, parse);
  }

  /** A body cut at an arbitrary character delivers a prefix of what the whole body delivers. */
  lemma CutDeliversPrefix<J>(prefix: string, text: string, parse: string -> Option<J>)
    requires prefix <= text
    ensures Deliver(Frames(prefix).frames, parse).events <= Deliver(Frames(text).frames, parse).events
  {
    var tail := text[|prefix|..];
    assert text == prefix + tail;
    FramesOfPieces(prefix, tail);
    DeliverMore(Frames(prefix).frames, Frames(Frames(prefix).rest + tail).frames, parse);
  }

  /** What a line adds, also when nothing stands behind its colon; the last event name and id count, and
      every data line. */
  lemma LineAdds(f: Fields, text: string)
    ensures ReadLine(f, "event:" + text) == f.(event := Trim(text))
    ensures ReadLine(f, "id:" + text) == f.(id := Some(Trim(text)))
    ensures ReadLine(f, "data:" + text) == f.(dataLines := f.dataLines + [TrimStart(text)])
    ensures !("event:" <= text) && !("id:" <= text) && !("data:" <= text) ==> ReadLine(f, text) == f
  {
    assert ("event:" + text)[6..] == text && ("id:" + text)[3..] == text && ("data:" + text)[5..] == text;
    assert ("id:" + text)[0] == 'i' && ("data:" + text)[0] == 'd';
  }
}
