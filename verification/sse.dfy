/**
 Server-sent events as the replay server writes them and the threaded ingest reads them. The reader
 takes a subset of the format of the WHATWG HTML Standard, sections 9.2.5 and 9.2.6, and deviates from
 it in two ways: it strips every leading space of a data line, and it delivers empty data.
 */
module Sse {

  const LF := '\n'
  const CR := '\r'

  // ---- Lines ----

  /** The finished lines of a text, and the unfinished line after the last line feed. */
  datatype Split = Split(lines: seq<string>, rest: string)

  function StripCr(line: string): string {
    if line != [] && line[|line| - 1] == CR then line[..|line| - 1] else line
  }

  function SplitLines(text: string): Split {
    if text == [] then Split([], [])
    else
      var before, c := SplitLines(text[..|text| - 1]), text[|text| - 1];
      if c == LF then Split(before.lines + [StripCr(before.rest)], []) else Split(before.lines, before.rest + [c])
  }

  // ---- The decoder ----

  /** The data lines of the event being read, and the payloads delivered so far. */
  datatype Decoder = Decoder(data: seq<string>, out: seq<string>)

  const IDLE := Decoder([], [])

  function TrimStart(s: string): (r: string)
    ensures |r| <= |s|
  {
    if s != [] && s[0] == ' ' then TrimStart(s[1..]) else s
  }

  function Join(parts: seq<string>): string {
    if parts == [] then []
    else if |parts| == 1 then parts[0]
    else Join(parts[..|parts| - 1]) + [LF] + parts[|parts| - 1]
  }

  predicate IsData(line: string) {
    |line| >= 5 && line[..5] == "data:"
  }

  /** An empty line ends an event, a data line adds to it, and every other line is ignored. */
  function Feed(d: Decoder, line: string): Decoder {
    if line == [] then
      if d.data == [] then d else Decoder([], d.out + [Join(d.data)])
    else if IsData(line) then Decoder(d.data + [TrimStart(line[5..])], d.out)
    else d
  }

  function FeedAll(d: Decoder, lines: seq<string>): Decoder {
    if lines == [] then d else Feed(FeedAll(d, lines[..|lines| - 1]), lines[|lines| - 1])
  }

  /** How a connection's bytes end: by a clean end of stream or by an error. */
  datatype Ending = Eof | Failure

  /** What the line iterator yields: an unfinished last line counts at the end of the stream, and not on an error. */
  function LinesRead(text: string, ending: Ending): seq<string> {
    var s := SplitLines(text);
    if ending.Eof? && s.rest != [] then s.lines + [s.rest] else s.lines
  }

  function Delivered(text: string, ending: Ending): seq<string> {
    FeedAll(IDLE, LinesRead(text, ending)).out
  }

  // ---- Truncation ----

  lemma {:induction false} FeedAllAppend(d: Decoder, a: seq<string>, b: seq<string>)
    ensures FeedAll(d, a + b) == FeedAll(FeedAll(d, a), b)
  {
    if b == [] {
      assert a + b == a;
    } else {
      assert (a + b)[..|a + b| - 1] == a + b[..|b| - 1];
      FeedAllAppend(d, a, b[..|b| - 1]);
    }
  }

  lemma {:induction false} FeedAllGrows(d: Decoder, lines: seq<string>)
    ensures d.out <= FeedAll(d, lines).out
  {
    if lines != [] {
      FeedAllGrows(d, lines[..|lines| - 1]);
    }
  }

  /** An unfinished line is never empty, so it cannot complete an event. */
  lemma EndingDeliversNothing(text: string, ending: Ending)
    ensures Delivered(text, ending) == FeedAll(IDLE, SplitLines(text).lines).out
  {
  }

  lemma {:induction false} SplitGrows(text: string, k: nat)
    requires k <= |text|
    ensures SplitLines(text[..k]).lines <= SplitLines(text).lines
    decreases |text|
  {
    if k == |text| {
      assert text[..k] == text;
    } else {
      assert text[..|text| - 1][..k] == text[..k];
      SplitGrows(text[..|text| - 1], k);
    }
  }

  lemma FeedPrefix(short: seq<string>, long: seq<string>)
    requires short <= long
    ensures FeedAll(IDLE, short).out <= FeedAll(IDLE, long).out
  {
    assert long == short + long[|short|..];
    FeedAllAppend(IDLE, short, long[|short|..]);
    FeedAllGrows(FeedAll(IDLE, short), long[|short|..]);
  }

  /** Cutting any stream anywhere delivers the first so many payloads of the whole: none partial, none merged. */
  lemma TruncationIsSafe(text: string, k: nat, cut: Ending, ending: Ending)
    requires k <= |text|
    ensures Delivered(text[..k], cut) <= Delivered(text, ending)
  {
    SplitGrows(text, k);
    EndingDeliversNothing(text[..k], cut);
    EndingDeliversNothing(text, ending);
    FeedPrefix(SplitLines(text[..k]).lines, SplitLines(text).lines);
  }

  // ---- The encoder ----

  const HEADER := "event: message"
  const FIELD := "data: "

  function Frame(payload: string): string {
    HEADER + [LF] + (FIELD + payload) + [LF] + [LF]
  }

  function Encode(payloads: seq<string>): string {
    if payloads == [] then [] else Encode(payloads[..|payloads| - 1]) + Frame(payloads[|payloads| - 1])
  }

  lemma {:induction false} SplitAppend(t: string, u: string)
    requires SplitLines(t).rest == []
    ensures SplitLines(t + u) == Split(SplitLines(t).lines + SplitLines(u).lines, SplitLines(u).rest)
  {
    if u == [] {
      assert t + u == t;
    } else {
      assert (t + u)[..|t + u| - 1] == t + u[..|u| - 1];
      SplitAppend(t, u[..|u| - 1]);
    }
  }

  lemma SplitLf(t: string)
    ensures SplitLines(t + [LF]) == Split(SplitLines(t).lines + [StripCr(SplitLines(t).rest)], [])
  {
  }

  lemma {:induction false} SplitPlain(w: string)
    requires LF !in w
    ensures SplitLines(w) == Split([], w)
  {
    if w != [] {
      SplitPlain(w[..|w| - 1]);
      assert w[|w| - 1] in w && w == w[..|w| - 1] + [w[|w| - 1]];
    }
  }

  /** A text of one finished line. */
  lemma SplitLine(w: string)
    requires LF !in w
    ensures SplitLines(w + [LF]) == Split([StripCr(w)], [])
  {
    SplitPlain(w);
    SplitLf(w);
  }

  /** The header line is ignored, and what follows it decides. */
  lemma FrameLines(payload: string)
    ensures SplitLines(Frame(payload)).rest == []
    ensures var body := SplitLines(FIELD + payload + [LF]).lines;
            SplitLines(Frame(payload)).lines == [HEADER] + body + [[]]
  {
    var head, body := HEADER + [LF], FIELD + payload + [LF];
    SplitLine(HEADER);
    SplitLf(FIELD + payload);
    SplitAppend(head, body);
    SplitLf(head + body);
    assert Frame(payload) == head + body + [LF];
    assert SplitLines(head + body).rest == [];
  }

  /** A closed event does not influence the next. */
  lemma {:induction false} FeedAllShift(d: Decoder, lines: seq<string>)
    ensures FeedAll(d, lines).data == FeedAll(Decoder(d.data, []), lines).data
    ensures FeedAll(d, lines).out == d.out + FeedAll(Decoder(d.data, []), lines).out
  {
    if lines != [] {
      FeedAllShift(d, lines[..|lines| - 1]);
    }
  }

  lemma EncodeSplits(payloads: seq<string>)
    ensures SplitLines(Encode(payloads)).rest == []
    ensures FeedAll(IDLE, SplitLines(Encode(payloads)).lines).data == []
  {
  }

  /** What follows a whole number of frames is decoded on its own. */
  lemma DeliveredAfterFrames(payloads: seq<string>, more: string, ending: Ending)
    ensures Delivered(Encode(payloads) + more, ending) == Delivered(Encode(payloads), ending) + Delivered(more, ending)
  {
    var t := Encode(payloads);
    EncodeSplits(payloads);
    SplitAppend(t, more);
    EndingDeliversNothing(t + more, ending);
    EndingDeliversNothing(t, ending);
    EndingDeliversNothing(more, ending);
    FeedAllAppend(IDLE, SplitLines(t).lines, SplitLines(more).lines);
    FeedAllShift(FeedAll(IDLE, SplitLines(t).lines), SplitLines(more).lines);
  }

  // ---- Round trip ----

  /** The payloads a frame carries unharmed. */
  predicate Clean(payload: string) {
    && LF !in payload
    && (payload != [] ==> payload[0] != ' ' && payload[|payload| - 1] != CR)
  }

  lemma StripCrOfField(payload: string)
    ensures StripCr(FIELD + payload) == FIELD + StripCr(payload)
  {
  }

  lemma PlainFrameLines(payload: string)
    requires LF !in payload
    ensures SplitLines(Frame(payload)).lines == [HEADER, FIELD + StripCr(payload), []]
  {
    SplitLine(FIELD + payload);
    StripCrOfField(payload);
    FrameLines(payload);
  }

  lemma HeaderIsIgnored()
    ensures FeedAll(IDLE, [HEADER]) == IDLE
  {
    assert [HEADER][..0] == [];
    assert HEADER[..5][0] == 'e' && "data:"[0] == 'd';
    assert Feed(IDLE, HEADER) == IDLE;
  }

  lemma DataOfField(payload: string)
    ensures IsData(FIELD + payload) && TrimStart((FIELD + payload)[5..]) == TrimStart(payload)
  {
  }

  lemma TwoLines(payload: string)
    ensures FeedAll(IDLE, [HEADER, FIELD + payload]) == Decoder([TrimStart(payload)], [])
  {
    HeaderIsIgnored();
    DataOfField(payload);
    assert [HEADER, FIELD + payload][..1] == [HEADER];
  }

  lemma ThreeLines(payload: string)
    ensures FeedAll(IDLE, [HEADER, FIELD + payload, []]).out == [TrimStart(payload)]
  {
    TwoLines(payload);
    assert [HEADER, FIELD + payload, []][..2] == [HEADER, FIELD + payload];
  }

  /** A payload of one line loses a final carriage return and its leading spaces, and nothing else. */
  lemma FrameOfLine(payload: string, ending: Ending)
    requires LF !in payload
    ensures Delivered(Frame(payload), ending) == [TrimStart(StripCr(payload))]
  {
    PlainFrameLines(payload);
    EndingDeliversNothing(Frame(payload), ending);
    ThreeLines(StripCr(payload));
  }

  lemma TrimStartIsId(s: string)
    ensures TrimStart(s) == s <==> s == [] || s[0] != ' '
  {
  }

  lemma LineRoundTrips(payload: string, ending: Ending)
    requires LF !in payload
    ensures Delivered(Frame(payload), ending) == [payload] <==> Clean(payload)
  {
    FrameOfLine(payload, ending);
    TrimStartIsId(payload);
    if payload != [] && payload[|payload| - 1] == CR {
      assert |TrimStart(StripCr(payload))| < |payload|;
    }
  }

  // ---- Payloads of several lines never survive ----

  /** The characters of some lines, and one more for each. */
  function Size(lines: seq<string>): nat {
    if lines == [] then 0 else Size(lines[..|lines| - 1]) + |lines[|lines| - 1]| + 1
  }

  /** The characters a decoder holds and has delivered. */
  function Weight(d: Decoder): nat {
    Size(d.data) + Size(d.out)
  }

  lemma {:induction false} JoinSize(parts: seq<string>)
    requires parts != []
    ensures |Join(parts)| + 1 == Size(parts)
  {
    if |parts| > 1 {
      JoinSize(parts[..|parts| - 1]);
    } else {
      assert parts[..0] == [];
    }
  }

  lemma SizeAppend(lines: seq<string>, line: string)
    ensures Size(lines + [line]) == Size(lines) + |line| + 1
  {
  }

  /** A line adds at most its own characters: the colon and the field name pay for the line's end. */
  lemma FeedWeight(d: Decoder, line: string)
    ensures Weight(Feed(d, line)) <= Weight(d) + |line|
  {
    if line == [] && d.data != [] {
      JoinSize(d.data);
      SizeAppend(d.out, Join(d.data));
    } else if line != [] && IsData(line) {
      SizeAppend(d.data, TrimStart(line[5..]));
    }
  }

  lemma {:induction false} FeedAllWeight(d: Decoder, lines: seq<string>)
    ensures Weight(FeedAll(d, lines)) + |lines| <= Weight(d) + Size(lines)
  {
    if lines != [] {
      FeedAllWeight(d, lines[..|lines| - 1]);
      FeedWeight(FeedAll(d, lines[..|lines| - 1]), lines[|lines| - 1]);
    }
  }

  lemma {:induction false} SplitSize(text: string)
    ensures Size(SplitLines(text).lines) + |SplitLines(text).rest| <= |text|
  {
    if text != [] {
      var before := SplitLines(text[..|text| - 1]);
      SplitSize(text[..|text| - 1]);
      if text[|text| - 1] == LF {
        SizeAppend(before.lines, StripCr(before.rest));
      }
    }
  }

  lemma {:induction false} FirstLf(text: string) returns (i: nat)
    requires LF in text
    ensures i < |text| && text[i] == LF && LF !in text[..i]
  {
    if LF in text[..|text| - 1] {
      i := FirstLf(text[..|text| - 1]);
      assert text[..|text| - 1][..i] == text[..i];
    } else {
      i := |text| - 1;
    }
  }

  lemma FrameSplitsAt(payload: string, i: nat)
    requires i < |payload| && payload[i] == LF && LF !in payload[..i]
    ensures SplitLines(Frame(payload)).lines
         == [HEADER, FIELD + StripCr(payload[..i])] + SplitLines(payload[i + 1..] + [LF, LF]).lines
  {
    var head, line, more := HEADER + [LF], FIELD + payload[..i], payload[i + 1..] + [LF, LF];
    assert payload == payload[..i] + [LF] + payload[i + 1..];
    assert Frame(payload) == head + ((line + [LF]) + more);
    SplitLine(HEADER);
    SplitLine(line);
    StripCrOfField(payload[..i]);
    SplitAppend(line + [LF], more);
    SplitAppend(head, (line + [LF]) + more);
  }

  /** The first line of the payload is data; the rest of it is decoded from there. */
  lemma FrameOfLines(payload: string, i: nat, ending: Ending)
    requires i < |payload| && payload[i] == LF && LF !in payload[..i]
    ensures var first := Decoder([TrimStart(StripCr(payload[..i]))], []);
            Delivered(Frame(payload), ending) == FeedAll(first, SplitLines(payload[i + 1..] + [LF, LF]).lines).out
  {
    FrameSplitsAt(payload, i);
    EndingDeliversNothing(Frame(payload), ending);
    var lines := SplitLines(payload[i + 1..] + [LF, LF]).lines;
    FeedAllAppend(IDLE, [HEADER, FIELD + StripCr(payload[..i])], lines);
    TwoLines(StripCr(payload[..i]));
  }

  lemma TwoMoreLines(text: string)
    ensures |SplitLines(text + [LF, LF]).lines| >= 2
  {
  }

  /** A line feed inside a payload costs at least one character, so the payload cannot come back. */
  lemma LinesNeverRoundTrip(payload: string, ending: Ending)
    requires LF in payload
    ensures Delivered(Frame(payload), ending) != [payload]
  {
    var i := FirstLf(payload);
    FrameOfLines(payload, i, ending);
    var first := Decoder([TrimStart(StripCr(payload[..i]))], []);
    var more := payload[i + 1..] + [LF, LF];
    var lines := SplitLines(more).lines;
    FeedAllWeight(first, lines);
    SplitSize(more);
    TwoMoreLines(payload[i + 1..]);
    SizeAppend([], first.data[0]);
    SizeAppend([], payload);
    assert [] + [payload] == [payload] && [] + [first.data[0]] == first.data;
    assert Weight(first) <= i + 1;
  }

  /** A frame gives back its payload exactly when the payload is clean. */
  lemma FrameRoundTripsIff(payload: string, ending: Ending)
    ensures Delivered(Frame(payload), ending) == [payload] <==> Clean(payload)
  {
    if LF in payload {
      LinesNeverRoundTrip(payload, ending);
    } else {
      LineRoundTrips(payload, ending);
    }
  }

  lemma FrameAdds(payloads: seq<string>, last: string, ending: Ending)
    requires Delivered(Encode(payloads), ending) == payloads && Clean(last)
    ensures Delivered(Encode(payloads) + Frame(last), ending) == payloads + [last]
  {
    DeliveredAfterFrames(payloads, Frame(last), ending);
    FrameRoundTripsIff(last, ending);
  }

  lemma {:induction false} EncodeRoundTrips(payloads: seq<string>, ending: Ending)
    requires forall i :: 0 <= i < |payloads| ==> Clean(payloads[i])
    ensures Delivered(Encode(payloads), ending) == payloads
  {
    if payloads != [] {
      EncodeRoundTrips(payloads[..|payloads| - 1], ending);
      FrameAdds(payloads[..|payloads| - 1], payloads[|payloads| - 1], ending);
    }
  }

  lemma OpenFrame(payload: string)
    requires LF !in payload
    ensures SplitLines((HEADER + [LF]) + (FIELD + payload + [LF])).lines == [HEADER, FIELD + StripCr(payload)]
  {
    SplitLine(HEADER);
    SplitLine(FIELD + payload);
    SplitAppend(HEADER + [LF], FIELD + payload + [LF]);
    StripCrOfField(payload);
  }

  lemma PartialFrame(payload: string, k: nat, ending: Ending)
    requires LF !in payload && k < |Frame(payload)|
    ensures Delivered(Frame(payload)[..k], ending) == []
  {
    var open := (HEADER + [LF]) + (FIELD + payload + [LF]);
    assert Frame(payload) == open + [LF] && Frame(payload)[..k] == open[..k];
    EndingDeliversNothing(open[..k], ending);
    SplitGrows(open, k);
    OpenFrame(payload);
    TwoLines(StripCr(payload));
    FeedPrefix(SplitLines(open[..k]).lines, SplitLines(open).lines);
  }

  /** Clean frames, cut inside the last one, deliver the payloads of the whole frames, no more and no less. */
  lemma CutFrameIsDropped(payloads: seq<string>, last: string, k: nat, ending: Ending)
    requires forall i :: 0 <= i < |payloads| ==> Clean(payloads[i])
    requires Clean(last) && k < |Frame(last)|
    ensures Delivered(Encode(payloads) + Frame(last)[..k], ending) == payloads
  {
    EncodeRoundTrips(payloads, ending);
    DeliveredAfterFrames(payloads, Frame(last)[..k], ending);
    PartialFrame(last, k, ending);
  }
}
