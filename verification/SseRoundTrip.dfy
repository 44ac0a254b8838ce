/** The reader undoes the printer.  Event names and ids are single trimmed lines; the payload text
    is a single line that does not start with white space, as any JSON object printed without
    raw line breaks is (section 7 of RFC 8259). */
module SseRoundTrip {
  import opened Text
  import opened Sse

  predicate OneLine(s: string) {
    forall i :: 0 <= i < |s| ==> s[i] != '\r' && s[i] != '\n'
  }

  predicate Trimmed(s: string) {
    s != "" ==> !IsSpace(s[0]) && !IsSpace(s[|s| - 1])
  }

  /** One write of the server: an event or a heartbeat. */
  datatype Item<J> = Sent(id: Option<string>, event: string, payload: J) | Ping

  predicate GoodItem<J>(item: Item<J>) {
    item.Sent? ==>
      && OneLine(item.event) && Trimmed(item.event)
      && (item.id.Some? ==> item.id.value != "" && OneLine(item.id.value) && Trimmed(item.id.value))
  }

  /** The parser undoes the printer, which writes one line not starting with white space. */
  ghost predicate GoodCodec<J(!new)>(print_: J -> string, parse: string -> Option<J>) {
    forall j :: && OneLine(print_(j))
                && (print_(j) != "" ==> !IsSpace(print_(j)[0]))
                && parse(print_(j)) == Some(j)
  }

  function ItemText<J>(item: Item<J>, print_: J -> string): string {
    match item
    case Sent(id, event, payload) => EncodeSseData(event, print_(payload), id)
    case Ping => PING
  }

  function WireText<J>(items: seq<Item<J>>, print_: J -> string): string {
    if items == [] then ""
    else WireText(items[..|items| - 1], print_) + ItemText(items[|items| - 1], print_)
  }

  function EventsOf<J>(items: seq<Item<J>>): seq<StreamEvent<J>> {
    if items == [] then []
    else
      var last := items[|items| - 1];
      EventsOf(items[..|items| - 1])
      + (if last.Sent? then [StreamEvent(last.id, last.event, last.payload)] else [])
  }

  // Lines put together and taken apart

  predicate FullLines(lines: seq<string>) {
    lines != [] && forall i :: 0 <= i < |lines| ==> lines[i] != "" && OneLine(lines[i])
  }

  lemma {:induction false} NoBreakHere(s: string)
    requires s != "" && s[0] != '\r' && s[0] != '\n'
    ensures BreakLength(s) == 0 && SeparatorLength(s) == 0
  {
  }

  lemma {:induction false} SkipLine(line: string, tail: string)
    requires OneLine(line)
    ensures FirstBreak(line + tail) == |line| + FirstBreak(tail)
    ensures FirstSeparator(line + tail) == |line| + FirstSeparator(tail)
  {
    hide BreakLength, SeparatorLength;
    if line == "" {
      assert line + tail == tail;
    } else {
      NoBreakHere(line + tail);
      assert (line + tail)[1..] == line[1..] + tail;
      SkipLine(line[1..], tail);
    }
  }

  lemma JoinStep(lines: seq<string>)
    requires |lines| > 1
    ensures Join("\n", lines) == lines[0] + ("\n" + Join("\n", lines[1..]))
  {
    assert lines[0] + "\n" + Join("\n", lines[1..]) == lines[0] + ("\n" + Join("\n", lines[1..]));
  }

  lemma {:induction false} JoinedLinesStartFull(lines: seq<string>)
    requires FullLines(lines)
    ensures Join("\n", lines) != "" && BreakLength(Join("\n", lines)) == 0
  {
    if |lines| > 1 {
      JoinStep(lines);
    }
  }

  lemma LineBreakThen(rest: string)
    requires rest != "" && BreakLength(rest) == 0
    ensures FirstSeparator("\n" + rest) == 1 + FirstSeparator(rest)
    ensures FirstBreak("\n" + rest) == 0 && BreakLength("\n" + rest) == 1
  {
    assert ("\n" + rest)[1..] == rest;
  }

  lemma {:induction false} SeparatorFollowsLines(lines: seq<string>)
    requires FullLines(lines)
    ensures FirstSeparator(Join("\n", lines) + "\n\n") == |Join("\n", lines)|
  {
    hide SeparatorLength, BreakLength, FirstSeparator;
    if |lines| == 1 {
      SkipLine(lines[0], "\n\n");
      BlankLine();
    } else {
      var rest := Join("\n", lines[1..]);
      JoinStep(lines);
      SeparatorFollowsLines(lines[1..]);
      JoinedLinesStartFull(lines[1..]);
      BreakOfPrefix(rest, "\n\n");
      LineBreakThen(rest + "\n\n");
      SkipLine(lines[0], "\n" + (rest + "\n\n"));
      assert lines[0] + ("\n" + rest) + "\n\n" == lines[0] + ("\n" + (rest + "\n\n"));
    }
  }

  lemma BlankLine()
    ensures FirstSeparator("\n\n") == 0 && SeparatorLength("\n\n") == 2
  {
    assert "\n\n"[1..] == "\n";
  }

  lemma BreakOfPrefix(s: string, t: string)
    requires s != "" && BreakLength(s) == 0 && s[0] != '\r'
    ensures BreakLength(s + t) == 0 && s + t != ""
  {
  }

  lemma {:induction false} LinesStep(s: string, k: nat)
    requires FirstBreak(s) == k < |s| && BreakLength(s[k..]) == 1
    ensures Lines(s) == [s[..k]] + Lines(s[k + 1..])
  {
    hide FirstBreak, BreakLength;
  }

  lemma {:induction false} OnlyLine(s: string)
    requires FirstBreak(s) == |s|
    ensures Lines(s) == [s]
  {
    hide FirstBreak, BreakLength;
  }

  lemma {:induction false} LinesOfJoin(lines: seq<string>)
    requires FullLines(lines)
    ensures Lines(Join("\n", lines)) == lines
  {
    hide Lines, FirstBreak, BreakLength, FirstSeparator;
    if |lines| == 1 {
      SkipLine(lines[0], "");
      NoBreakInNothing();
      assert lines[0] + "" == lines[0];
      OnlyLine(lines[0]);
    } else {
      var rest := Join("\n", lines[1..]);
      var all := Join("\n", lines);
      JoinStep(lines);
      LinesOfJoin(lines[1..]);
      JoinedLinesStartFull(lines[1..]);
      LineBreakThen(rest);
      SkipLine(lines[0], "\n" + rest);
      var k := |lines[0]|;
      assert all[..k] == lines[0];
      assert all[k..] == "\n" + rest;
      assert all[k + 1..] == rest;
      LinesStep(all, k);
    }
  }

  lemma NoBreakInNothing()
    ensures FirstBreak("") == 0
  {
  }

  // One item

  /** The lines of an event's frame. */
  function FrameLines(id: Option<string>, event: string, data: string): seq<string> {
    (if Truthy(id) then ["id: " + id.value] else []) + ["event: " + event, "data: " + data]
  }

  lemma EncodedAsLines(id: Option<string>, event: string, data: string)
    ensures EncodeSseData(event, data, id) == Join("\n", FrameLines(id, event, data)) + "\n\n"
  {
    var eventLine, dataLine := "event: " + event, "data: " + data;
    var tail := [eventLine, dataLine];
    assert tail[1..] == [dataLine];
    assert Join("\n", tail) == eventLine + "\n" + dataLine;
    var lines := FrameLines(id, event, data);
    if Truthy(id) {
      assert lines == ["id: " + id.value] + tail && lines[1..] == tail;
      assert Join("\n", lines) == ("id: " + id.value) + "\n" + Join("\n", tail);
    } else {
      assert lines == tail;
      assert "" + (eventLine + "\n" + dataLine) == eventLine + "\n" + dataLine;
    }
  }

  lemma TrimOne(s: string)
    requires Trimmed(s)
    ensures Trim(" " + s) == s
  {
    var spaced := " " + s;
    assert spaced[0] == ' ' && IsSpace(' ') && spaced[1..] == s;
    assert TrimStart(spaced) == TrimStart(s);
    assert TrimStart(s) == s && TrimEnd(s) == s;
  }

  lemma ReadIdLine(f: Fields, id: string)
    requires Trimmed(id)
    ensures ReadLine(f, "id: " + id) == f.(id := Some(id))
  {
    var line := "id: " + id;
    TrimOne(id);
    assert line[0] == 'i' && line[..3] == "id:" && line[3..] == " " + id;
    assert "event:"[0] == 'e';
  }

  lemma ReadEventLine(f: Fields, event: string)
    requires Trimmed(event)
    ensures ReadLine(f, "event: " + event) == f.(event := event)
  {
    var line := "event: " + event;
    TrimOne(event);
    assert line[..6] == "event:" && line[6..] == " " + event;
  }

  lemma ReadDataLine(f: Fields, data: string)
    requires data != "" ==> !IsSpace(data[0])
    ensures ReadLine(f, "data: " + data) == f.(dataLines := f.dataLines + [data])
  {
    var line := "data: " + data;
    assert line[0] == 'd' && line[..5] == "data:" && line[5..] == " " + data;
    assert "event:"[0] == 'e' && "id:"[0] == 'i';
    var spaced := " " + data;
    assert spaced[0] == ' ' && IsSpace(' ') && spaced[1..] == data;
    assert TrimStart(spaced) == TrimStart(data) == data;
  }

  lemma ReadOneMore(lines: seq<string>, line: string)
    ensures ReadLines(lines + [line]) == ReadLine(ReadLines(lines), line)
  {
    assert (lines + [line])[..|lines|] == lines;
  }

  lemma ReadFrameLines(id: Option<string>, event: string, data: string)
    requires Trimmed(event) && (id.Some? ==> id.value != "" && Trimmed(id.value))
    requires data != "" ==> !IsSpace(data[0])
    ensures ReadLines(FrameLines(id, event, data)) == Fields(id, event, [data])
  {
    hide ReadLine, ReadLines;
    var eventLine, dataLine := "event: " + event, "data: " + data;
    var head := if Truthy(id) then ["id: " + id.value] else [];
    ReadNothing();
    if Truthy(id) {
      ReadIdLine(NO_FIELDS, id.value);
      ReadOneMore([], "id: " + id.value);
      assert [] + ["id: " + id.value] == head;
    }
    ReadEventLine(ReadLines(head), event);
    ReadOneMore(head, eventLine);
    ReadDataLine(ReadLines(head + [eventLine]), data);
    ReadOneMore(head + [eventLine], dataLine);
    assert FrameLines(id, event, data) == head + [eventLine] + [dataLine];
    assert [] + [data] == [data];
  }

  lemma ReadNothing()
    ensures ReadLines([]) == NO_FIELDS
  {
  }

  lemma ReadPing()
    ensures ReadLines([": ping"]) == NO_FIELDS
  {
    var line := ": ping";
    assert line[0] == ':' && "event:"[0] == 'e' && "id:"[0] == 'i' && "data:"[0] == 'd';
    ReadOneMore([], line);
    assert [] + [line] == [line];
  }

  lemma PingIsComment<J>(parse: string -> Option<J>)
    ensures Frames(PING) == Split([": ping"], "")
    ensures ParseFrame(": ping", parse) == Comment
  {
    hide Lines, ReadLines, FirstSeparator, Frames;
    var lines := [": ping"];
    JoinOne(": ping");
    SeparatorFollowsLines(lines);
    LinesOfJoin(lines);
    assert PING == ": ping" + "\n\n";
    OneFrame(": ping");
    ReadPing();
  }

  lemma {:induction false} OneFrame(frame: string)
    requires FirstSeparator(frame + "\n\n") == |frame|
    ensures Frames(frame + "\n\n") == Split([frame], "")
  {
    var s := frame + "\n\n";
    BlankLine();
    FramesStep(s);
    NoFrames();
    hide Frames, FirstSeparator, SeparatorLength;
    assert s[|frame|..] == "\n\n" && s[..|frame|] == frame && s[|frame| + 2..] == "";
  }

  lemma SentIsEvent<J(!new)>(item: Item<J>, print_: J -> string, parse: string -> Option<J>)
    requires item.Sent? && GoodItem(item) && GoodCodec(print_, parse)
    ensures var frame := Join("\n", FrameLines(item.id, item.event, print_(item.payload)));
            && Frames(ItemText(item, print_)) == Split([frame], "")
            && ParseFrame(frame, parse) == Event(StreamEvent(item.id, item.event, item.payload))
  {
    hide FirstSeparator, Lines, Join, Frames, EncodeSseData, ReadLines;
    var data := print_(item.payload);
    var lines := FrameLines(item.id, item.event, data);
    assert FullLines(lines);
    EncodedAsLines(item.id, item.event, data);
    SeparatorFollowsLines(lines);
    LinesOfJoin(lines);
    ReadFrameLines(item.id, item.event, data);
    OneFrame(Join("\n", lines));
    JoinOne(data);
  }

  lemma JoinOne(data: string)
    ensures Join("\n", [data]) == data
  {
  }

  // Any list of writes, in any pieces

  /** Reading the whole text of any list of writes gives exactly the events written, in order, and
      leaves nothing in the buffer. */
  lemma {:induction false} ReaderUndoesPrinter<J(!new)>(
      items: seq<Item<J>>, print_: J -> string, parse: string -> Option<J>)
    requires GoodCodec(print_, parse)
    requires forall i :: 0 <= i < |items| ==> GoodItem(items[i])
    ensures Frames(WireText(items, print_)).rest == ""
    ensures Deliver(Frames(WireText(items, print_)).frames, parse) == Delivery(EventsOf(items), false)
  {
    hide Frames, ParseFrame, GoodCodec;
    if items == [] {
      NoFrames();
    } else {
      var before, last := items[..|items| - 1], items[|items| - 1];
      ReaderUndoesPrinter(before, print_, parse);
      var a, t := WireText(before, print_), ItemText(last, print_);
      FramesOfPieces(a, t);
      assert "" + t == t;
      DeliverMore(Frames(a).frames, Frames(t).frames, parse);
      match last {
        case Ping =>
          PingIsComment(parse);
          DeliverOne([], ": ping", parse);
          assert [] + [": ping"] == [": ping"];
        case Sent(id, event, payload) =>
          SentIsEvent(last, print_, parse);
          var frame := Join("\n", FrameLines(id, event, print_(payload)));
          DeliverOne([], frame, parse);
          assert [] + [frame] == [frame];
      }
    }
  }

  lemma NoFrames()
    ensures Frames("") == Split([], "")
  {
  }

  /** Events reach the callback once each and in order under any chunking of the body. */
  method Receive<J(!new)>(
      pieces: seq<string>, ghost items: seq<Item<J>>, ghost print_: J -> string, parse: string -> Option<J>)
    returns (d: Delivery<J>)
    requires GoodCodec(print_, parse)
    requires forall i :: 0 <= i < |items| ==> GoodItem(items[i])
    requires Concat(pieces) <= WireText(items, print_)
    ensures !d.threw && d.events <= EventsOf(items)
    ensures Concat(pieces) == WireText(items, print_) ==> d.events == EventsOf(items)
  {
    d := StreamMessage(pieces, parse);
    ReaderUndoesPrinter(items, print_, parse);
    CutNeverThrows(Concat(pieces), WireText(items, print_), parse);
    CutDeliversPrefix(Concat(pieces), WireText(items, print_), parse);
  }

  lemma CutNeverThrows<J>(prefix: string, text: string, parse: string -> Option<J>)
    requires prefix <= text && !Deliver(Frames(text).frames, parse).threw
    ensures !Deliver(Frames(prefix).frames, parse).threw
  {
    if Deliver(Frames(prefix).frames, parse).threw {
      StopsAtThrow(prefix, text, parse);
    }
  }
}
