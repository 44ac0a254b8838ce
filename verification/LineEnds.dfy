/** The incremental reader takes both line ends (the expressions in `consumeFrames` and `parseFrame` of
    frontend/src/api/chat.ts): a proxy that rewrites every line feed as carriage return and line feed
    changes nothing. */
module LineEnds {
  import opened Text
  import opened Sse

  /** Every line feed written as carriage return and line feed. */
  function Crlf(s: string): (r: string)
    ensures s == "" <==> r == ""
  {
    if s == "" then "" else (if s[0] == '\n' then "\r\n" else [s[0]]) + Crlf(s[1..])
  }

  predicate NoCarriageReturn(s: string) {
    forall i :: 0 <= i < |s| ==> s[i] != '\r'
  }

  /** What both expressions accept: one or two line ends, each of either kind. */
  lemma SeparatorsAreTwoLineEnds(s: string)
    ensures BreakLength(s) == if "\n" <= s then 1 else if "\r\n" <= s then 2 else 0
    ensures SeparatorLength(s)
         == if "\n\n" <= s then 2
            else if "\n\r\n" <= s then 3
            else if "\r\n\n" <= s then 3
            else if "\r\n\r\n" <= s then 4
            else 0
  {
    var first := BreakLength(s);
    if first > 0 && BreakLength(s[first..]) > 0 {
      assert |s| >= 2;
    }
  }

  lemma {:induction false} CrlfConcat(a: string, b: string)
    ensures Crlf(a + b) == Crlf(a) + Crlf(b)
  {
    if a == "" {
      assert a + b == b;
    } else {
      assert (a + b)[1..] == a[1..] + b;
      CrlfConcat(a[1..], b);
    }
  }

  lemma CrlfHead(s: string)
    requires s != "" && NoCarriageReturn(s)
    ensures NoCarriageReturn(s[1..])
    ensures s[0] == '\n' ==> "\r\n" <= Crlf(s) && Crlf(s)[2..] == Crlf(s[1..])
    ensures s[0] != '\n' ==> [s[0]] <= Crlf(s) && Crlf(s)[1..] == Crlf(s[1..]) && s[0] != '\r'
  {
  }

  lemma BreakOfCrlf(s: string)
    requires NoCarriageReturn(s)
    ensures BreakLength(Crlf(s)) == 2 * BreakLength(s)
    ensures BreakLength(s) > 0 ==> Crlf(s)[2..] == Crlf(s[1..]) && BreakLength(s) == 1
  {
    if s != "" {
      CrlfHead(s);
    }
  }

  lemma SeparatorOfCrlf(s: string)
    requires NoCarriageReturn(s)
    ensures SeparatorLength(Crlf(s)) == 2 * SeparatorLength(s)
    ensures SeparatorLength(s) > 0 ==>
              && SeparatorLength(s) == 2 && Crlf(s)[4..] == Crlf(s[2..])
    ensures s != "" && s[0] == '\n' && SeparatorLength(s) == 0 ==> SeparatorLength(Crlf(s)[1..]) == 0
  {
    BreakOfCrlf(s);
    if s != "" {
      BreakOfCrlf(s[1..]);
      if s[0] == '\n' {
        assert Crlf(s)[1..][1..] == Crlf(s[1..]);
      }
    }
  }

  /** The same separator is found, with the same text before it and the same text from it on. */
  lemma {:induction false} SameFirstSeparator(s: string)
    requires NoCarriageReturn(s)
    ensures var k := FirstSeparator(s); FirstSeparator(Crlf(s)) == |Crlf(s[..k])|
  {
    hide SeparatorLength, Crlf, NoCarriageReturn;
    SeparatorOfCrlf(s);
    if s == "" || SeparatorLength(s) > 0 {
      assert s[..0] == "" && Crlf("") == "";
    } else {
      CrlfHead(s);
      SameFirstSeparator(s[1..]);
      hide FirstSeparator;
      NoSeparatorHere(s);
      LengthOfMore(s, FirstSeparator(s[1..]));
    }
  }

  lemma NoSeparatorHere(s: string)
    requires NoCarriageReturn(s) && s != "" && SeparatorLength(s) == 0
    ensures FirstSeparator(s) == 1 + FirstSeparator(s[1..])
    ensures FirstSeparator(Crlf(s)) == (if s[0] == '\n' then 2 else 1) + FirstSeparator(Crlf(s[1..]))
  {
    hide SeparatorLength, Crlf, NoCarriageReturn;
    SeparatorOfCrlf(s);
    CrlfHead(s);
    if s[0] == '\n' {
      DropTwice(Crlf(s), 1, 1);
    }
  }

  lemma LengthOfMore(s: string, k: nat)
    requires s != "" && k < |s|
    ensures |Crlf(s[..k + 1])| == (if s[0] == '\n' then 2 else 1) + |Crlf(s[1..][..k])|
  {
    assert s[..k + 1][1..] == s[1..][..k];
  }

  lemma {:induction false} SameFirstBreak(s: string)
    requires NoCarriageReturn(s)
    ensures var k := FirstBreak(s); FirstBreak(Crlf(s)) == k && Crlf(s[..k]) == s[..k]
  {
    hide BreakLength, Crlf, NoCarriageReturn;
    BreakOfCrlf(s);
    if s == "" {
      assert s[..0] == "";
    } else if BreakLength(s) == 0 {
      var k := FirstBreak(s[1..]);
      NoBreakHere(s);
      CrlfHead(s);
      SameFirstBreak(s[1..]);
      OneMoreBefore(s, k);
    } else {
      assert s[..0] == "" && Crlf("") == "";
    }
  }

  lemma OneMoreBefore(s: string, k: nat)
    requires s != "" && k < |s| && s[0] != '\n'
    ensures Crlf(s[1..][..k]) == s[1..][..k] ==> Crlf(s[..k + 1]) == s[..k + 1]
  {
    assert s[..k + 1][1..] == s[1..][..k];
  }

  lemma NoBreakHere(s: string)
    requires s != "" && BreakLength(s) == 0
    ensures s[0] != '\n'
  {
  }

  lemma CrlfCut(s: string, k: nat)
    requires k <= |s|
    ensures |Crlf(s[..k])| <= |Crlf(s)|
    ensures Crlf(s)[..|Crlf(s[..k])|] == Crlf(s[..k])
    ensures Crlf(s)[|Crlf(s[..k])|..] == Crlf(s[k..])
  {
    CrlfConcat(s[..k], s[k..]);
    assert s == s[..k] + s[k..];
  }

  lemma RestHasNone(s: string, k: nat)
    requires NoCarriageReturn(s) && k <= |s|
    ensures NoCarriageReturn(s[k..]) && NoCarriageReturn(s[..k])
  {
  }

  lemma {:induction false} SameLines(s: string)
    requires NoCarriageReturn(s)
    ensures Lines(Crlf(s)) == Lines(s)
    decreases |s|
  {
    hide BreakLength, FirstBreak;
    var k := FirstBreak(s);
    SameFirstBreak(s);
    CrlfCut(s, k);
    if k < |s| {
      RestHasNone(s, k);
      BreakOfCrlf(s[k..]);
      var n := k + BreakLength(s[k..]);
      RestHasNone(s, n);
      assert s[n..] == s[k..][1..];
      SameLines(s[n..]);
      assert Crlf(s)[k + 2..] == Crlf(s)[k..][2..];
    } else {
      assert s[..k] == s && Crlf(s) == s;
    }
  }

  lemma SameFrame<J>(frame: string, parse: string -> Option<J>)
    requires NoCarriageReturn(frame)
    ensures ParseFrame(Crlf(frame), parse) == ParseFrame(frame, parse)
  {
    SameLines(frame);
  }

  /** One frame is cut off at the same place. */
  lemma CutCrlf(s: string)
    requires NoCarriageReturn(s)
    ensures var k := FirstSeparator(s);
            && (k == |s| <==> FirstSeparator(Crlf(s)) == |Crlf(s)|)
            && Crlf(s)[..FirstSeparator(Crlf(s))] == Crlf(s[..k])
            && Crlf(s)[FirstSeparator(Crlf(s))..] == Crlf(s[k..])
            && NoCarriageReturn(s[..k]) && NoCarriageReturn(s[k..])
  {
    hide FirstSeparator, SeparatorLength, Crlf, NoCarriageReturn;
    var k := FirstSeparator(s);
    SameFirstSeparator(s);
    CrlfCut(s, k);
    RestHasNone(s, k);
    if k == |s| {
      assert s[..k] == s;
    }
  }

  lemma RestCrlf(s: string)
    requires NoCarriageReturn(s) && FirstSeparator(s) < |s|
    ensures FirstSeparator(Crlf(s)) < |Crlf(s)| && AfterFrame(Crlf(s)) == Crlf(AfterFrame(s))
    ensures NoCarriageReturn(AfterFrame(s))
  {
    hide FirstSeparator, SeparatorLength, Crlf, NoCarriageReturn;
    CutCrlf(s);
    var k := FirstSeparator(s);
    SeparatorOfCrlf(s[k..]);
    RestHasNone(s[k..], 2);
    DropTwice(s, k, 2);
    DropTwice(Crlf(s), FirstSeparator(Crlf(s)), 4);
  }

  lemma DropTwice(s: string, i: nat, j: nat)
    requires i + j <= |s|
    ensures s[i..][j..] == s[i + j..]
  {
  }

  /** Whatever a text without carriage returns delivers, it delivers with either line end. */
  lemma {:induction false} LineEndsMakeNoDifference<J>(s: string, parse: string -> Option<J>)
    requires NoCarriageReturn(s)
    ensures Deliver(Frames(Crlf(s)).frames, parse) == Deliver(Frames(s).frames, parse)
    ensures Frames(Crlf(s)).rest == Crlf(Frames(s).rest)
    decreases |s|
  {
    hide FirstSeparator, SeparatorLength, Frames, Deliver, ParseFrame, AfterFrame, NoCarriageReturn;
    CutCrlf(s);
    var k, t := FirstSeparator(s), Crlf(s);
    if k == |s| {
      NoFrameYet(s);
      NoFrameYet(t);
    } else {
      RestCrlf(s);
      var frame, rest := s[..k], AfterFrame(s);
      LineEndsMakeNoDifference(rest, parse);
      FrameFirstTaken(s);
      FrameFirstTaken(t);
      SameFrame(frame, parse);
      FrameFirst(frame, Frames(rest).frames, parse);
      FrameFirst(Crlf(frame), Frames(Crlf(rest)).frames, parse);
    }
  }

  /** Delivering a frame and then more depends on what the frame parses to. */
  lemma FrameFirst<J>(frame: string, more: seq<string>, parse: string -> Option<J>)
    ensures var after := Deliver(more, parse);
            Deliver([frame] + more, parse)
            == match ParseFrame(frame, parse)
               case Comment => after
               case Event(e) => Delivery([e] + after.events, after.threw)
               case Throws => Delivery([], true)
  {
    hide ParseFrame, Deliver;
    DeliverSingle(frame, parse);
    DeliverMore([frame], more, parse);
    assert [] + Deliver(more, parse).events == Deliver(more, parse).events;
  }

  lemma DeliverSingle<J>(frame: string, parse: string -> Option<J>)
    ensures Deliver([frame], parse)
         == match ParseFrame(frame, parse)
            case Comment => Delivery([], false)
            case Event(e) => Delivery([e], false)
            case Throws => Delivery([], true)
  {
    hide ParseFrame;
    assert [frame][..0] == [];
  }
}
