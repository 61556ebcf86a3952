/** What the reader of server-sent events makes of each kind of line, in plain text. */
module SseLines {
  import opened Sse

  /** The text consists of finished lines, and no event is being read at its end. */
  ghost predicate Closed(text: string) {
    SplitLines(text).rest == [] && FeedAll(IDLE, SplitLines(text).lines).data == []
  }

  lemma TextSplits(pre: string, line: string, post: string)
    requires SplitLines(pre).rest == [] && LF !in line
    ensures SplitLines(pre + (line + [LF]) + post).lines
         == SplitLines(pre).lines + [StripCr(line)] + SplitLines(post).lines
    ensures SplitLines(pre + (line + [LF])).lines == SplitLines(pre).lines + [StripCr(line)]
    ensures SplitLines(pre + (line + [LF])).rest == []
  {
    SplitLine(line);
    SplitAppend(pre, line + [LF]);
    SplitAppend(pre + (line + [LF]), post);
  }

  lemma {:induction false} FeedThree(a: seq<string>, line: string, b: seq<string>)
    ensures FeedAll(IDLE, a + [line] + b) == FeedAll(Feed(FeedAll(IDLE, a), line), b)
  {
    FeedAllAppend(IDLE, a + [line], b);
    assert (a + [line])[..|a|] == a;
  }

  // ---- Lines that do not matter ----

  /** A line that is neither empty nor data changes nothing, wherever it stands. */
  lemma OtherLineIsIgnored(pre: string, line: string, post: string, ending: Ending)
    requires SplitLines(pre).rest == [] && LF !in line
    requires StripCr(line) != [] && !("data:" <= StripCr(line))
    ensures Delivered(pre + (line + [LF]) + post, ending) == Delivered(pre + post, ending)
  {
    TextSplits(pre, line, post);
    SplitAppend(pre, post);
    EndingDeliversNothing(pre + (line + [LF]) + post, ending);
    EndingDeliversNothing(pre + post, ending);
    FeedThree(SplitLines(pre).lines, StripCr(line), SplitLines(post).lines);
    FeedAllAppend(IDLE, SplitLines(pre).lines, SplitLines(post).lines);
    assert !IsData(StripCr(line));
  }

  /** An empty line between events changes nothing. */
  lemma BlankLineIsIgnored(pre: string, post: string, ending: Ending)
    requires Closed(pre)
    ensures Delivered(pre + [LF] + post, ending) == Delivered(pre + post, ending)
  {
    TextSplits(pre, [], post);
    assert [] + [LF] == [LF];
    SplitAppend(pre, post);
    EndingDeliversNothing(pre + [LF] + post, ending);
    EndingDeliversNothing(pre + post, ending);
    FeedThree(SplitLines(pre).lines, [], SplitLines(post).lines);
    FeedAllAppend(IDLE, SplitLines(pre).lines, SplitLines(post).lines);
  }

  lemma SameLines(a: string, b: string, ending: Ending)
    requires SplitLines(a).lines == SplitLines(b).lines
    ensures Delivered(a, ending) == Delivered(b, ending)
  {
    EndingDeliversNothing(a, ending);
    EndingDeliversNothing(b, ending);
  }

  lemma EndsInCr(line: string, with: string)
    requires LF !in line && (line != [] ==> line[|line| - 1] != CR) && with == line + [CR]
    ensures LF !in with && StripCr(with) == line == StripCr(line) && with + [LF] == line + [CR, LF]
  {
  }

  /** A carriage return before the line feed changes nothing. */
  lemma CarriageReturnIsIgnored(pre: string, line: string, post: string, ending: Ending)
    requires SplitLines(pre).rest == [] && LF !in line && (line != [] ==> line[|line| - 1] != CR)
    ensures Delivered(pre + (line + [CR, LF]) + post, ending) == Delivered(pre + (line + [LF]) + post, ending)
  {
    var with := line + [CR];
    EndsInCr(line, with);
    TextSplits(pre, line, post);
    TextSplits(pre, with, post);
    SameLines(pre + (with + [LF]) + post, pre + (line + [LF]) + post, ending);
  }

  // ---- Data ----

  function Spaces(n: nat): string {
    seq(n, _ => ' ')
  }

  lemma {:induction false} SpacesAreTrimmed(n: nat, core: string)
    requires core != [] ==> core[0] != ' '
    ensures TrimStart(Spaces(n) + core) == core
  {
    if n == 0 {
      assert Spaces(0) + core == core;
    } else {
      assert (Spaces(n) + core)[1..] == Spaces(n - 1) + core;
      SpacesAreTrimmed(n - 1, core);
    }
  }

  function Field(spaces: nat, core: string): string {
    "data:" + Spaces(spaces) + core
  }

  lemma FieldIsData(spaces: nat, core: string)
    requires Clean(core)
    ensures LF !in Field(spaces, core) && StripCr(Field(spaces, core)) == Field(spaces, core)
    ensures IsData(Field(spaces, core)) && TrimStart(Field(spaces, core)[5..]) == core
  {
    assert Field(spaces, core)[5..] == Spaces(spaces) + core;
    SpacesAreTrimmed(spaces, core);
  }

  /** The first `n` data lines, one after the other. */
  function Fields(spaces: seq<nat>, cores: seq<string>, n: nat): string
    requires n <= |spaces| == |cores|
  {
    if n == 0 then [] else Fields(spaces, cores, n - 1) + (Field(spaces[n - 1], cores[n - 1]) + [LF])
  }

  /** The text is finished lines, and their data is that of the event being read. */
  ghost predicate Collected(text: string, cores: seq<string>) {
    SplitLines(text).rest == [] && FeedAll(IDLE, SplitLines(text).lines) == Decoder(cores, [])
  }

  lemma FieldCollects(before: string, cores: seq<string>, spaces: nat, core: string)
    requires Collected(before, cores) && Clean(core)
    ensures Collected(before + (Field(spaces, core) + [LF]), cores + [core])
  {
    var lines, line := SplitLines(before).lines, Field(spaces, core);
    FieldIsData(spaces, core);
    TextSplits(before, line, []);
    assert (lines + [line])[..|lines|] == lines;
  }

  lemma {:induction false} FieldsCollect(spaces: seq<nat>, cores: seq<string>, n: nat, text: string, so: seq<string>)
    requires n <= |spaces| == |cores| && forall i :: 0 <= i < n ==> Clean(cores[i])
    requires text == Fields(spaces, cores, n) && so == cores[..n]
    ensures Collected(text, so)
  {
    if n > 0 {
      var before := Fields(spaces, cores, n - 1);
      FieldsCollect(spaces, cores, n - 1, before, cores[..n - 1]);
      FieldCollects(before, cores[..n - 1], spaces[n - 1], cores[n - 1]);
      assert so == cores[..n - 1] + [cores[n - 1]];
    }
  }

  /** An event: its data lines, and the empty line that ends it. */
  function Event(spaces: seq<nat>, cores: seq<string>): string
    requires |spaces| == |cores|
  {
    Fields(spaces, cores, |cores|) + [LF]
  }

  lemma EventEnds(before: string, cores: seq<string>, ending: Ending)
    requires Collected(before, cores) && cores != []
    ensures Closed(before + [LF]) && Delivered(before + [LF], ending) == [Join(cores)]
  {
    SplitLf(before);
    EndingDeliversNothing(before + [LF], ending);
    FeedAllAppend(IDLE, SplitLines(before).lines, [[]]);
  }

  lemma EventDelivers(spaces: seq<nat>, cores: seq<string>, ending: Ending)
    requires |spaces| == |cores| > 0 && forall i :: 0 <= i < |cores| ==> Clean(cores[i])
    ensures Closed(Event(spaces, cores)) && Delivered(Event(spaces, cores), ending) == [Join(cores)]
  {
    var text := Fields(spaces, cores, |cores|);
    FieldsCollect(spaces, cores, |cores|, text, cores);
    EventEnds(text, cores, ending);
  }

  /** The text is that of the finished lines. */
  ghost predicate HasLines(text: string, lines: seq<string>) {
    SplitLines(text + [LF]) == Split(lines, [])
  }

  lemma LineJoins(lines: seq<string>, core: string, so: seq<string>)
    requires lines != [] && HasLines(Join(lines), lines) && Clean(core) && so == lines + [core]
    ensures HasLines(Join(so), so)
  {
    var text := Join(lines) + [LF];
    SplitLine(core);
    SplitAppend(text, core + [LF]);
    assert so[..|lines|] == lines;
    assert Join(so) + [LF] == text + (core + [LF]);
  }

  lemma {:induction false} FirstLines(cores: seq<string>, n: nat, so: seq<string>)
    requires 0 < n <= |cores| && forall i :: 0 <= i < n ==> Clean(cores[i])
    requires so == cores[..n]
    ensures HasLines(Join(so), so)
  {
    if n == 1 {
      SplitLine(cores[0]);
      assert so == [cores[0]];
    } else {
      FirstLines(cores, n - 1, cores[..n - 1]);
      LineJoins(cores[..n - 1], cores[n - 1], so);
    }
  }

  /** The lines of a delivered payload are the data of the event's lines. */
  lemma PayloadHasLines(cores: seq<string>)
    requires cores != [] && forall i :: 0 <= i < |cores| ==> Clean(cores[i])
    ensures SplitLines(Join(cores) + [LF]) == Split(cores, [])
  {
    FirstLines(cores, |cores|, cores);
  }

  /** Events do not influence each other. */
  lemma ClosedTextsAreApart(pre: string, post: string, ending: Ending)
    requires Closed(pre)
    ensures Delivered(pre + post, ending) == Delivered(pre, ending) + Delivered(post, ending)
  {
    SplitAppend(pre, post);
    EndingDeliversNothing(pre + post, ending);
    EndingDeliversNothing(pre, ending);
    EndingDeliversNothing(post, ending);
    FeedAllAppend(IDLE, SplitLines(pre).lines, SplitLines(post).lines);
    FeedAllShift(FeedAll(IDLE, SplitLines(pre).lines), SplitLines(post).lines);
  }

  lemma EventOfTwo(a: string, b: string)
    ensures Event([1, 0], [a, b]) == "data: " + a + "\n" + "data:" + b + "\n" + "\n"
  {
    assert Spaces(1) == " " && Spaces(0) == "";
    assert Fields([1, 0], [a, b], 1) == "data: " + a + "\n";
    assert Field(0, b) == "data:" + b;
  }

  /** Two data lines make one payload of two lines. */
  lemma TwoDataLines(a: string, b: string, ending: Ending)
    requires Clean(a) && Clean(b)
    ensures Delivered("data: " + a + "\n" + "data:" + b + "\n" + "\n", ending) == [a + "\n" + b]
  {
    var cores := [a, b];
    EventDelivers([1, 0], cores, ending);
    EventOfTwo(a, b);
    assert cores[..1] == [a];
    assert Join(cores) == a + "\n" + b;
  }

  lemma OneDataLine(line: string, ending: Ending)
    requires LF !in line && IsData(StripCr(line))
    ensures Delivered(line + [LF] + [LF], ending) == [TrimStart(StripCr(line)[5..])]
  {
    var text, data := line + [LF], StripCr(line);
    SplitLine(line);
    SplitLf(text);
    var lines: seq<string> := [data, []];
    assert lines[..1] == [data] && lines[..1][..0] == [];
    assert FeedAll(IDLE, [data]) == Decoder([TrimStart(data[5..])], []);
    EndingDeliversNothing(text + [LF], ending);
  }

  /** Of two carriage returns before the line feed, one is the payload's. */
  lemma OneCarriageReturnGoes(core: string, ending: Ending)
    requires Clean(core)
    ensures Delivered("data:" + core + "\r\r\n\n", ending) == [core + "\r"]
  {
    var rest, line := core + "\r", "data:" + core + "\r\r";
    SpacesAreTrimmed(0, rest);
    assert Spaces(0) + rest == rest;
    assert StripCr(line) == "data:" + rest && StripCr(line)[5..] == rest;
    OneDataLine(line, ending);
    assert "data:" + core + "\r\r\n\n" == line + [LF] + [LF];
  }

  /** The text of a frame. */
  lemma FrameText(payload: string)
    ensures Frame(payload) == "event: message\ndata: " + payload + "\n\n"
  {
  }
}
