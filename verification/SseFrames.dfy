// The monitor's incremental reader of the telemetry stream: chunks of text in, events out.
module SseFrames {
  import opened Basics
  import opened Text

  // ---- cutting the stream at blank lines ----

  predicate BreakAt(s: string, k: nat) {
    k + 1 < |s| && s[k] == '\n' && s[k + 1] == '\n'
  }

  // Position of the first "\n\n", or |s|.
  function FindBreak(s: string): (k: nat)
    ensures k <= |s| && (k < |s| ==> BreakAt(s, k) && k + 2 <= |s|)
    ensures forall i | 0 <= i < k :: !BreakAt(s, i)
  {
    if |s| < 2 then |s|
    else if BreakAt(s, 0) then 0
    else
      var k := 1 + FindBreak(s[1..]);
      assert forall i | 1 <= i < k :: BreakAt(s, i) == BreakAt(s[1..], i - 1);
      k
  }

  // All complete parts of split("\n\n"), and the unfinished last one.
  function Parts(s: string): seq<string>
    decreases |s|
  {
    var k := FindBreak(s);
    if k == |s| then [] else [s[..k]] + Parts(s[k + 2..])
  }

  function Rest(s: string): string
    decreases |s|
  {
    var k := FindBreak(s);
    if k == |s| then s else Rest(s[k + 2..])
  }

  lemma FindBreakIs(s: string, k: nat)
    requires k <= |s| && (k < |s| ==> BreakAt(s, k)) && forall i | 0 <= i < k :: !BreakAt(s, i)
    ensures FindBreak(s) == k
  {
    hide FindBreak;
    var j := FindBreak(s);
    assert !(j < k) && !(k < j);
  }

  // What is carried over never holds a complete separator.
  lemma {:induction false} RestIsUnfinished(s: string)
    ensures FindBreak(Rest(s)) == |Rest(s)|
    decreases |s|
  {
    hide FindBreak;
    var k := FindBreak(s);
    if k < |s| {
      RestIsUnfinished(s[k + 2..]);
    }
  }

  // Cutting a prefix first and the carried rest later gives the same parts and the same rest.
  lemma {:induction false} CutLater(x: string, y: string)
    ensures Parts(x + y) == Parts(x) + Parts(Rest(x) + y)
    ensures Rest(x + y) == Rest(Rest(x) + y)
    decreases |x|
  {
    hide FindBreak, BreakAt;
    var k := FindBreak(x);
    if k < |x| {
      BreakKept(x, y);
      assert (x + y)[..k] == x[..k];
      assert (x + y)[k + 2..] == x[k + 2..] + y;
      CutLater(x[k + 2..], y);
    }
  }

  lemma BreakKept(x: string, y: string)
    requires FindBreak(x) < |x|
    ensures FindBreak(x) + 2 <= |x| && FindBreak(x + y) == FindBreak(x)
  {
    hide FindBreak;
    var k := FindBreak(x);
    assert BreakAt(x + y, k);
    assert forall i | 0 <= i < k :: BreakAt(x + y, i) == BreakAt(x, i);
    FindBreakIs(x + y, k);
  }

  // ---- reading one part ----

  // White space as String.prototype.trim removes it.
  predicate IsSpace(c: char) {
    var k := c as int;
    9 <= k <= 13 || k == 0x20 || k == 0xA0 || k == 0x1680 || 0x2000 <= k <= 0x200A ||
    k == 0x2028 || k == 0x2029 || k == 0x202F || k == 0x205F || k == 0x3000 || k == 0xFEFF
  }

  function TrimLeft(s: string): string {
    if s != "" && IsSpace(s[0]) then TrimLeft(s[1..]) else s
  }

  function TrimRight(s: string): string {
    if s != "" && IsSpace(s[|s| - 1]) then TrimRight(s[..|s| - 1]) else s
  }

  function Trim(s: string): string {
    TrimRight(TrimLeft(s))
  }

  function Lines(s: string): seq<string>
    decreases |s|
  {
    var k := IndexOf(s, '\n');
    if k == |s| then [s] else [s[..k]] + Lines(s[k + 1..])
  }

  datatype Frame = Frame(tag: string, id: Option<string>, dataLines: seq<string>)

  function ReadLine(f: Frame, line: string): Frame {
    if "event:" <= line then f.(tag := Trim(line[6..]))
    else if "id:" <= line then f.(id := Some(Trim(line[3..])))
    else if "data:" <= line then f.(dataLines := f.dataLines + [Trim(line[5..])])
    else f
  }

  function ReadLines(lines: seq<string>): Frame {
    if lines == [] then Frame("SYSTEM", None, []) else ReadLine(ReadLines(lines[..|lines| - 1]), lines[|lines| - 1])
  }

  // The frames of some parts: blank parts are skipped.
  function Frames(parts: seq<string>): seq<Frame> {
    if parts == [] then []
    else
      var last := parts[|parts| - 1];
      Frames(parts[..|parts| - 1]) + (if Trim(last) == "" then [] else [ReadLines(Lines(last))])
  }

  class SseReader {
    var buffer: string

    constructor ()
      ensures buffer == ""
    {
      buffer := "";
    }

    // One chunk of decoded text.
    method Feed(chunk: string) returns (frames: seq<Frame>)
      modifies this
      ensures buffer == Rest(old(buffer) + chunk) && frames == Frames(Parts(old(buffer) + chunk))
    {
      hide Parts, Rest, ReadLines, Lines, Trim;
      buffer := buffer + chunk;
      var parts := Parts(buffer);
      buffer := Rest(buffer);
      frames := [];
      for i := 0 to |parts|
        invariant buffer == Rest(old(buffer) + chunk)
        invariant frames == Frames(parts[..i])
      {
        assert parts[..i + 1][..i] == parts[..i];
        if Trim(parts[i]) == "" {
          continue;
        }
        var frame := ReadPart(parts[i]);
        frames := frames + [frame];
      }
      assert parts[..|parts|] == parts;
    }

    method ReadPart(part: string) returns (frame: Frame)
      ensures frame == ReadLines(Lines(part))
    {
      hide Lines, Trim;
      var lines := Lines(part);
      var tag := "SYSTEM";
      var eventId: Option<string> := None;
      var dataLines: seq<string> := [];
      for j := 0 to |lines|
        invariant Frame(tag, eventId, dataLines) == ReadLines(lines[..j])
      {
        assert lines[..j + 1][..j] == lines[..j];
        var line := lines[j];
        if "event:" <= line {
          tag := Trim(line[6..]);
        } else if "id:" <= line {
          eventId := Some(Trim(line[3..]));
        } else if "data:" <= line {
          dataLines := dataLines + [Trim(line[5..])];
        }
      }
      assert lines[..|lines|] == lines;
      return Frame(tag, eventId, dataLines);
    }
  }

  // ---- chunk independence ----

  datatype Fed = Fed(buffer: string, frames: seq<Frame>)

  function FeedAll(chunks: seq<string>): Fed {
    if chunks == [] then Fed("", [])
    else
      var before := FeedAll(chunks[..|chunks| - 1]);
      var text := before.buffer + chunks[|chunks| - 1];
      Fed(Rest(text), before.frames + Frames(Parts(text)))
  }

  function Joined(chunks: seq<string>): string {
    if chunks == [] then "" else Joined(chunks[..|chunks| - 1]) + chunks[|chunks| - 1]
  }

  lemma NoFrames(parts: seq<string>)
    requires parts == []
    ensures Frames(parts) == []
  {
  }

  lemma FramesLast(parts: seq<string>)
    requires parts != []
    ensures var last := parts[|parts| - 1];
            Frames(parts)
            == Frames(parts[..|parts| - 1]) + (if Trim(last) == "" then [] else [ReadLines(Lines(last))])
  {
    hide Trim, Lines, ReadLines;
  }

  lemma {:induction false} FramesAppend(a: seq<string>, b: seq<string>)
    ensures Frames(a + b) == Frames(a) + Frames(b)
  {
    hide Frames, Trim, Lines, ReadLines;
    if b == [] {
      assert a + b == a && Frames(b) == [] by { NoFrames(b); }
    } else {
      assert (a + b)[..|a| + |b| - 1] == a + b[..|b| - 1];
      FramesAppend(a, b[..|b| - 1]);
      FramesLast(a + b);
      FramesLast(b);
    }
  }

  // However the stream is cut into chunks, the reader yields the frames of the whole stream, keeps
  // the same unfinished rest, and never carries a complete separator.
  lemma {:induction false} ChunkIndependence(chunks: seq<string>)
    ensures FeedAll(chunks) == Fed(Rest(Joined(chunks)), Frames(Parts(Joined(chunks))))
    ensures FindBreak(FeedAll(chunks).buffer) == |FeedAll(chunks).buffer|
  {
    hide Frames, FindBreak;
    RestIsUnfinished(Joined(chunks));
    if chunks != [] {
      var n := |chunks| - 1;
      ChunkIndependence(chunks[..n]);
      var x, y := Joined(chunks[..n]), chunks[n];
      CutLater(x, y);
      FramesAppend(Parts(x), Parts(Rest(x) + y));
    } else {
      EmptyStream();
    }
  }

  lemma EmptyStream()
    ensures Parts("") == [] && Rest("") == "" && Frames([]) == []
  {
  }

  lemma SameStreamSameFrames(a: seq<string>, b: seq<string>)
    requires Joined(a) == Joined(b)
    ensures FeedAll(a) == FeedAll(b)
  {
    ChunkIndependence(a);
    ChunkIndependence(b);
  }

  // ---- delivery ----

  // An event in the form of the telemetry document: an optional id line, an event and a data line,
  // then a blank line.
  datatype Sent = Sent(id: Option<string>, tag: string, data: string)

  function Block(e: Sent): string {
    var block := ("event: " + e.tag) + "\n" + ("data: " + e.data);
    if e.id.Some? then "id: " + e.id.value + "\n" + block else block
  }

  function StreamOf(events: seq<Sent>): string {
    if events == [] then "" else Block(events[0]) + "\n\n" + StreamOf(events[1..])
  }

  // Text that survives the reader's trimming and line splitting.
  predicate Clean(s: string) {
    '\n' !in s && (s != "" ==> !IsSpace(s[0]) && !IsSpace(s[|s| - 1]))
  }

  predicate CleanEvent(e: Sent) {
    (e.id.Some? ==> Clean(e.id.value)) && Clean(e.tag) && Clean(e.data)
  }

  function Read(e: Sent): Frame {
    Frame(e.tag, e.id, [e.data])
  }

  lemma TrimPadded(s: string)
    requires Clean(s)
    ensures Trim(" " + s) == s
  {
    assert (" " + s)[1..] == s && IsSpace(' ');
    assert TrimLeft(s) == s;
    assert TrimLeft(" " + s) == TrimLeft(s);
  }

  lemma LinesStep(a: string, b: string)
    requires '\n' !in a
    ensures Lines(a + "\n" + b) == [a] + Lines(b)
  {
    IndexOfPrefix(a, '\n', b);
    var t := a + "\n" + b;
    assert t == a + ['\n'] + b;
    assert t[..|a|] == a && t[|a| + 1..] == b;
  }

  lemma LinesLast(a: string)
    requires '\n' !in a
    ensures Lines(a) == [a]
  {
  }

  lemma BlockLines(e: Sent)
    requires CleanEvent(e)
    ensures Lines(Block(e))
         == (if e.id.Some? then ["id: " + e.id.value] else []) + ["event: " + e.tag, "data: " + e.data]
  {
    hide Lines, IsSpace;
    var b, c := "event: " + e.tag, "data: " + e.data;
    LinesStep(b, c);
    LinesLast(c);
    if e.id.Some? {
      LinesStep("id: " + e.id.value, b + "\n" + c);
    }
  }

  lemma BlockRead(e: Sent)
    requires CleanEvent(e)
    ensures ReadLines(Lines(Block(e))) == Read(e)
  {
    hide Lines, Trim, IsSpace, Block;
    BlockLines(e);
    var a, b, c := "id: " + (if e.id.Some? then e.id.value else ""), "event: " + e.tag, "data: " + e.data;
    assert a[3..] == " " + (if e.id.Some? then e.id.value else "") && b[6..] == " " + e.tag && c[5..] == " " + e.data;
    TrimPadded(if e.id.Some? then e.id.value else "");
    TrimPadded(e.tag);
    TrimPadded(e.data);
    ReadThree(a, b, c);
    assert !("event:" <= a) by {
      assert a[0] == 'i';
    }
    assert !("event:" <= c) && !("id:" <= c) by {
      assert c[0] == 'd';
    }
  }

  lemma ReadThree(a: string, b: string, c: string)
    ensures ReadLines([a] + [b, c]) == ReadLine(ReadLine(ReadLine(Frame("SYSTEM", None, []), a), b), c)
    ensures ReadLines([] + [b, c]) == ReadLine(ReadLine(Frame("SYSTEM", None, []), b), c)
  {
    hide ReadLine;
    ReadTwo([a], b, c);
    ReadTwo([], b, c);
    assert [a][..0] == [];
    assert ReadLines([a]) == ReadLine(ReadLines([]), a);
  }

  lemma ReadTwo(lines: seq<string>, b: string, c: string)
    ensures ReadLines(lines + [b, c]) == ReadLine(ReadLine(ReadLines(lines), b), c)
  {
    hide ReadLine;
    assert (lines + [b, c])[..|lines| + 1] == lines + [b];
    assert (lines + [b])[..|lines|] == lines;
  }

  lemma BlockNotBlank(e: Sent)
    ensures Trim(Block(e)) != ""
  {
    var t := Block(e);
    assert t[0] == if e.id.Some? then 'i' else 'e';
    TrimRightKeeps(t);
  }

  lemma {:induction false} TrimRightKeeps(t: string)
    requires t != "" && !IsSpace(t[0])
    ensures TrimRight(t) != ""
  {
    if IsSpace(t[|t| - 1]) {
      TrimRightKeeps(t[..|t| - 1]);
    }
  }

  lemma BlockBreak(e: Sent, rest: string)
    requires CleanEvent(e)
    ensures FindBreak(Block(e) + "\n\n" + rest) == |Block(e)|
  {
    hide FindBreak, BreakAt, IsSpace;
    var b, c := "event: " + e.tag, "data: " + e.data;
    var tail := b + "\n" + (c + "\n\n" + rest);
    LastLine(c, rest);
    LineBefore(b, c + "\n\n" + rest, |c|);
    if e.id.Some? {
      LineBefore("id: " + e.id.value, tail, |b| + 1 + |c|);
      assert Block(e) + "\n\n" + rest == "id: " + e.id.value + "\n" + tail;
    } else {
      assert Block(e) + "\n\n" + rest == tail;
    }
    FindBreakIs(Block(e) + "\n\n" + rest, |Block(e)|);
  }

  // The first blank line of t is at n, and t does not start with a line break.
  predicate FirstBreak(t: string, n: nat) {
    t != "" && t[0] != '\n' && BreakAt(t, n) && forall i | 0 <= i < n :: !BreakAt(t, i)
  }

  lemma LastLine(c: string, rest: string)
    requires '\n' !in c && c != ""
    ensures FirstBreak(c + "\n\n" + rest, |c|)
  {
    var t := c + "\n\n" + rest;
    assert forall i | 0 <= i < |c| :: t[i] == c[i];
  }

  lemma LineBefore(a: string, t: string, n: nat)
    requires '\n' !in a && a != "" && FirstBreak(t, n)
    ensures FirstBreak(a + "\n" + t, |a| + 1 + n)
  {
    var u := a + "\n" + t;
    assert forall i | 0 <= i < |a| :: u[i] == a[i];
    assert forall i | 0 <= i < |t| :: u[|a| + 1 + i] == t[i];
    forall i | 0 <= i < |a| + 1 + n ensures !BreakAt(u, i) {
      if i > |a| {
        assert !BreakAt(t, i - |a| - 1);
      } else if i == |a| {
        assert u[i + 1] == t[0];
      }
    }
  }

  lemma {:induction false} StreamParts(events: seq<Sent>)
    requires forall e | e in events :: CleanEvent(e)
    ensures Rest(StreamOf(events)) == ""
    ensures Frames(Parts(StreamOf(events))) == seq(|events|, i requires 0 <= i < |events| => Read(events[i]))
  {
    hide FindBreak, Block, Trim, Lines, ReadLines, CleanEvent, Frames;
    if events == [] {
      EmptyStream();
    } else {
      var e, rest := events[0], StreamOf(events[1..]);
      var t := Block(e) + "\n\n" + rest;
      BlockBreak(e, rest);
      assert t[..|Block(e)|] == Block(e) && t[|Block(e)| + 2..] == rest;
      StreamParts(events[1..]);
      BlockRead(e);
      BlockNotBlank(e);
      FramesAppend([Block(e)], Parts(rest));
      OneFrame(Block(e));
    }
  }

  lemma OneFrame(part: string)
    requires Trim(part) != ""
    ensures Frames([part]) == [ReadLines(Lines(part))]
  {
    hide Trim, Lines, ReadLines;
    assert [part][..0] == [];
  }

  // Delivery: whatever events are sent, and however the network cuts the text, the reader hands over
  // exactly those events in order and holds nothing back.
  lemma Delivery(events: seq<Sent>, chunks: seq<string>)
    requires (forall e | e in events :: CleanEvent(e)) && Joined(chunks) == StreamOf(events)
    ensures FeedAll(chunks) == Fed("", seq(|events|, i requires 0 <= i < |events| => Read(events[i])))
  {
    hide FeedAll, StreamOf, Joined, Parts, Rest, Frames, CleanEvent;
    ChunkIndependence(chunks);
    StreamParts(events);
  }

  // ---- what cutting, trimming and reading mean ----

  function Glued(parts: seq<string>): string {
    if parts == [] then "" else parts[0] + "\n\n" + Glued(parts[1..])
  }

  lemma GluedFirst(part: string, parts: seq<string>, rest: string)
    ensures Glued([]) + rest == rest
    ensures Glued([part] + parts) + rest == part + "\n\n" + (Glued(parts) + rest)
  {
    assert ([part] + parts)[1..] == parts;
  }

  lemma BreakCut(s: string)
    requires FindBreak(s) < |s|
    ensures FindBreak(s) + 2 <= |s| && s == s[..FindBreak(s)] + "\n\n" + s[FindBreak(s) + 2..]
  {
    hide FindBreak;
  }

  // Nothing is lost in cutting: the parts, each with its separator, and the rest are the stream.
  lemma {:induction false} PartsRejoin(s: string)
    ensures Glued(Parts(s)) + Rest(s) == s
    decreases |s|
  {
    hide FindBreak, Glued;
    var k := FindBreak(s);
    if k < |s| {
      BreakCut(s);
      var tail := s[k + 2..];
      PartsRejoin(tail);
      GluedFirst(s[..k], Parts(tail), Rest(tail));
    } else {
      GluedFirst("", [], s);
    }
  }

  predicate AllSpace(s: string) {
    forall c | c in s :: IsSpace(c)
  }

  lemma {:induction false} TrimLeftMeaning(s: string) returns (a: string)
    ensures AllSpace(a) && s == a + TrimLeft(s)
    ensures TrimLeft(s) != "" ==> !IsSpace(TrimLeft(s)[0])
  {
    if s != "" && IsSpace(s[0]) {
      var rest := TrimLeftMeaning(s[1..]);
      a := [s[0]] + rest;
    } else {
      a := "";
    }
  }

  lemma {:induction false} TrimRightMeaning(s: string) returns (b: string)
    ensures AllSpace(b) && s == TrimRight(s) + b
    ensures TrimRight(s) != "" ==> !IsSpace(TrimRight(s)[|TrimRight(s)| - 1])
  {
    var n := |s|;
    if s != "" && IsSpace(s[n - 1]) {
      var rest := TrimRightMeaning(s[..n - 1]);
      b := rest + [s[n - 1]];
      assert s == s[..n - 1] + [s[n - 1]];
    } else {
      b := "";
    }
  }

  // Trimming removes white space at both ends, all of it and nothing else.
  lemma TrimMeaning(s: string)
    ensures exists a, b :: AllSpace(a) && AllSpace(b) && s == a + Trim(s) + b
    ensures Trim(s) != "" ==> !IsSpace(Trim(s)[0]) && !IsSpace(Trim(s)[|Trim(s)| - 1])
    ensures Trim(s) == "" <==> AllSpace(s)
  {
    hide TrimLeft, TrimRight, IsSpace;
    var a := TrimLeftMeaning(s);
    var b := TrimRightMeaning(TrimLeft(s));
    assert s == a + Trim(s) + b;
    if Trim(s) != "" {
      assert Trim(s)[0] == TrimLeft(s)[0];
      assert Trim(s)[0] in s;
    }
  }

  // The data of a part, read from its first line on.
  function DataOf(lines: seq<string>): seq<string> {
    if lines == [] then []
    else (if "data:" <= lines[0] then [Trim(lines[0][5..])] else []) + DataOf(lines[1..])
  }

  lemma {:induction false} DataOfLast(lines: seq<string>, line: string)
    ensures DataOf(lines + [line]) == DataOf(lines) + (if "data:" <= line then [Trim(line[5..])] else [])
  {
    hide Trim;
    if lines == [] {
      assert lines + [line] == [line] && [line][1..] == [];
      assert DataOf([line]) == (if "data:" <= line then [Trim(line[5..])] else []) + DataOf([]);
    } else {
      assert (lines + [line])[1..] == lines[1..] + [line];
      DataOfLast(lines[1..], line);
    }
  }

  predicate NoneAfter(lines: seq<string>, from: nat, prefix: string) {
    forall j | from <= j < |lines| :: !(prefix <= lines[j])
  }

  // A part's frame has all its data lines in order. Other lines, comments among them, count for nothing.
  lemma {:induction false} FrameData(lines: seq<string>)
    ensures ReadLines(lines).dataLines == DataOf(lines)
  {
    hide Trim, DataOf;
    if lines == [] {
      NoData();
    } else {
      var n := |lines| - 1;
      FrameData(lines[..n]);
      DataOfLast(lines[..n], lines[n]);
      assert lines == lines[..n] + [lines[n]];
      PrefixesDiffer(lines[n]);
    }
  }

  // Its tag is that of its last event line, or SYSTEM without one.
  lemma {:induction false} FrameTag(lines: seq<string>, i: nat)
    requires i <= |lines| && NoneAfter(lines, i, "event:") && (i > 0 ==> "event:" <= lines[i - 1])
    ensures ReadLines(lines).tag == if i > 0 then Trim(lines[i - 1][6..]) else "SYSTEM"
  {
    hide Trim;
    if i < |lines| {
      FrameTag(lines[..|lines| - 1], i);
    }
  }

  // Its id is that of its last id line.
  lemma {:induction false} FrameId(lines: seq<string>, i: nat)
    requires i <= |lines| && NoneAfter(lines, i, "id:") && (i > 0 ==> "id:" <= lines[i - 1])
    ensures ReadLines(lines).id == if i > 0 then Some(Trim(lines[i - 1][3..])) else None
  {
    hide Trim;
    if i < |lines| {
      FrameId(lines[..|lines| - 1], i);
    } else if i > 0 {
      PrefixesDiffer(lines[i - 1]);
    }
  }

  lemma NoData()
    ensures DataOf([]) == []
  {
  }

  lemma PrefixesDiffer(line: string)
    ensures "event:" <= line ==> !("id:" <= line) && !("data:" <= line)
    ensures "id:" <= line ==> !("data:" <= line)
  {
    assert "event:" <= line ==> line[0] == 'e';
    assert "id:" <= line ==> line[0] == 'i';
    assert "data:" <= line ==> line[0] == 'd';
  }
}
