/** What the chat page hands over for streams of whole server-sent events, told from the lines that were written. */
module SseDelivery {
  import opened SseReader

  // ---- What is written ----

  /** A line of an event: a data line, or any other field or comment. */
  datatype Line = Data(value: string) | Other(text: string)

  predicate NoBreaks(s: string) { forall c <- s :: c != '\n' && c != '\r' }

  predicate GoodLine(l: Line) {
    match l
    case Data(v) => NoBreaks(v) && (v == "" || !IsSpace(v[0]))
    case Other(t) => NoBreaks(t) && t != "" && !("data:" <= t)
  }

  predicate GoodEvent(f: seq<Line>) { f != [] && forall l <- f :: GoodLine(l) }

  function LineText(l: Line): string { if l.Data? then "data: " + l.value else l.text }

  /** The lines of an event, without the blank line that ends it. */
  function EventText(f: seq<Line>): string {
    if f == [] then "" else if |f| == 1 then LineText(f[0]) else LineText(f[0]) + "\n" + EventText(f[1..])
  }

  function StreamText(fs: seq<seq<Line>>): string {
    if fs == [] then "" else EventText(fs[0]) + "\n\n" + StreamText(fs[1..])
  }

  // ---- What is to arrive ----

  function Values(f: seq<Line>): seq<string> {
    if f == [] then [] else (if f[0].Data? then [f[0].value] else []) + Values(f[1..])
  }

  /** The values of the data lines, one below the other. */
  function Lines(vs: seq<string>): string {
    if vs == [] then "" else if |vs| == 1 then vs[0] else vs[0] + "\n" + Lines(vs[1..])
  }

  /** One payload for each event with a data line. */
  function Payloads(fs: seq<seq<Line>>): seq<string> {
    if fs == [] then []
    else (if Values(fs[0]) == [] then [] else [Lines(Values(fs[0]))]) + Payloads(fs[1..])
  }

  // ---- Reading the lines back ----

  lemma {:induction false} SplitHead(l: string, rest: string)
    requires forall c <- l :: c != '\n'
    ensures SplitLines(l + "\n" + rest) == [l] + SplitLines(rest)
  {
    var s := l + "\n" + rest;
    if l == "" {
      assert s[1..] == rest;
    } else {
      assert l[0] in l && forall c <- l[1..] :: c in l;
      SplitHead(l[1..], rest);
      assert s[1..] == l[1..] + "\n" + rest;
      assert [l[0]] + l[1..] == l;
      assert ([l[1..]] + SplitLines(rest))[1..] == SplitLines(rest);
    }
  }

  lemma DataPrefix(s: string)
    ensures IsData(s) <==> "data:" <= s
  {
    if |s| >= 5 { assert s[..5] == [s[0], s[1], s[2], s[3], s[4]]; }
  }

  lemma LineReads(l: Line)
    requires GoodLine(l)
    ensures var s := LineText(l);
            && s != "" && NoBreaks(s) && s[0] != '\n' && (IsData(s) <==> l.Data?)
            && (l.Data? ==> TrimLeft(s[5..]) == l.value)
  {
    var s := LineText(l);
    if l.Data? {
      assert forall c <- "data: " :: c != '\n' && c != '\r';
      assert s[5..] == " " + l.value && (" " + l.value)[1..] == l.value;
      assert TrimLeft(l.value) == l.value;
    } else {
      assert s[0] in s;
      DataPrefix(s);
    }
  }

  lemma OneLineList(l: string)
    ensures DataLines([l]) == if IsData(l) then [TrimLeft(l[5..])] else []
    ensures forall ls: seq<string> :: DataLines([l] + ls) == DataLines([l]) + DataLines(ls)
  {
    forall ls: seq<string> ensures DataLines([l] + ls) == DataLines([l]) + DataLines(ls) { DataLinesAppend([l], ls); }
  }

  /** No blank line is inside of a text or at its ends. */
  predicate Solid(s: string) {
    && s != "" && s[0] != '\n' && s[|s| - 1] != '\n' && (forall c <- s :: c != '\r')
    && (forall i | 0 <= i < |s| - 1 :: s[i] != '\n' || s[i + 1] != '\n')
  }

  lemma LineIsSolid(l: string)
    requires l != "" && NoBreaks(l)
    ensures Solid(l) && forall c <- l :: c != '\n'
  {
    assert l[0] in l && l[|l| - 1] in l;
    assert forall i | 0 <= i < |l| :: l[i] in l;
  }

  lemma SolidLines(l: string, rest: string)
    requires l != "" && NoBreaks(l) && Solid(rest)
    ensures Solid(l + "\n" + rest)
  {
    LineIsSolid(l);
    var s, n := l + "\n" + rest, |l|;
    assert s[0] == l[0] && s[|s| - 1] == rest[|rest| - 1];
    assert forall c <- s :: c in l || c == '\n' || c in rest;
    forall i | 0 <= i < |s| - 1 ensures s[i] != '\n' || s[i + 1] != '\n' {
      if i < n {
        assert s[i] == l[i] && l[i] in l;
      } else if i == n {
        assert s[i + 1] == rest[0];
      } else {
        assert s[i] == rest[i - n - 1] && s[i + 1] == rest[i - n];
      }
    }
  }

  /** The data of an event is that of its data lines. */
  lemma {:induction false} EventReads(f: seq<Line>)
    requires GoodEvent(f)
    ensures FrameLines(EventText(f)) == Values(f) && Solid(EventText(f))
  {
    var l := LineText(f[0]);
    assert f[0] in f;
    LineReads(f[0]);
    LineIsSolid(l);
    OneLineList(l);
    hide *;
    EventStep(f);
    if |f| == 1 {
      OneSplit(l);
      FrameLinesAre(l);
    } else {
      var rest := EventText(f[1..]);
      GoodRest(f);
      EventReads(f[1..]);
      SplitHead(l, rest);
      SolidLines(l, rest);
      FrameLinesAre(l + "\n" + rest);
      FrameLinesAre(rest);
    }
  }

  lemma EventStep(f: seq<Line>)
    requires f != []
    ensures EventText(f) == if |f| == 1 then LineText(f[0]) else LineText(f[0]) + "\n" + EventText(f[1..])
    ensures Values(f) == (if f[0].Data? then [f[0].value] else []) + Values(f[1..])
    ensures |f| == 1 ==> Values(f[1..]) == []
  {}

  lemma GoodRest(f: seq<Line>)
    requires GoodEvent(f) && |f| > 1
    ensures GoodEvent(f[1..])
  {}

  lemma {:induction false} JoinIsLines(vs: seq<string>)
    requires vs != []
    ensures Join(vs) == Lines(vs)
  {
    if |vs| > 1 { JoinIsLines(vs[1..]); }
  }

  lemma DataIsInk(f: seq<Line>)
    requires GoodEvent(f) && Values(f) != []
    ensures Trim(EventText(f)) != "" && FrameData(EventText(f)) == Lines(Values(f))
  {
    EventReads(f);
    JoinIsLines(Values(f));
    hide *;
    FrameLinesAre(EventText(f));
    FrameDataIs(EventText(f));
    TrimBlank(EventText(f));
    if Trim(EventText(f)) == "" {
      BlankLines(EventText(f));
      NoDataLine(SplitLines(EventText(f)));
    }
  }

  lemma FrameLinesAre(s: string)
    ensures FrameLines(s) == DataLines(SplitLines(s))
  {}

  lemma FrameDataIs(s: string)
    ensures FrameData(s) == Join(FrameLines(s))
  {}

  // ---- Events one by one ----

  lemma BreakAtEnd(f: seq<Line>, t: string)
    requires GoodEvent(f)
    ensures FindBreak(EventText(f) + "\n\n" + t) == |EventText(f)|
  {
    EventReads(f);
    var raw := EventText(f);
    var s := raw + "\n\n" + t;
    assert s[|raw|] == '\n' && s[|raw| + 1] == '\n';
    assert forall i | 0 <= i < |raw| :: s[i] == raw[i];
  }

  /** An event with data is handed over, one without is skipped. */
  lemma OneEvent(r: Reader, f: seq<Line>, t: string, fatal: string -> bool)
    requires !r.Stopped() && GoodEvent(f)
    ensures Drain(r.(buffer := EventText(f) + "\n\n" + t), fatal)
         == Drain(if Values(f) == [] then r.(buffer := t) else Hand(r.(buffer := t), Lines(Values(f)), fatal), fatal)
  {
    var raw := EventText(f);
    var b := raw + "\n\n" + t;
    BreakAtEnd(f, t);
    EventReads(f);
    if Values(f) != [] { DataIsInk(f); }
    assert b[..|raw|] == raw && b[|raw| + 2..] == t;
    hide FindBreak, Drain, FrameLines, FrameData, Trim, EventText, Values, Lines;
    DrainStep(r.(buffer := b), fatal);
  }

  predicate AllGood(fs: seq<seq<Line>>) { forall f <- fs :: GoodEvent(f) }

  /** None of the payloads is the end marker, and the handler takes all of them. */
  predicate Passing(ps: seq<string>, fatal: string -> bool) { forall p <- ps :: p != "[DONE]" && !fatal(p) }

  /** What the first event does to a reader. */
  function Played(r: Reader, f: seq<Line>): Reader {
    if Values(f) == [] then r else r.(out := r.out + [Lines(Values(f))])
  }

  lemma PlayOne(r: Reader, f: seq<Line>, rest: string, fatal: string -> bool)
    requires !r.Stopped() && GoodEvent(f) && (Values(f) != [] ==> Lines(Values(f)) != "[DONE]" && !fatal(Lines(Values(f))))
    ensures Drain(r.(buffer := EventText(f) + "\n\n" + rest), fatal) == Drain(Played(r.(buffer := rest), f), fatal)
    ensures !Played(r.(buffer := rest), f).Stopped()
  {
    hide Drain, EventText, Values, Lines, GoodEvent;
    OneEvent(r, f, rest, fatal);
  }

  lemma PlayedOut(r: Reader, fs: seq<seq<Line>>)
    requires fs != []
    ensures Payloads(fs) == (if Values(fs[0]) == [] then [] else [Lines(Values(fs[0]))]) + Payloads(fs[1..])
    ensures Played(r, fs[0]).out + Payloads(fs[1..]) == r.out + Payloads(fs)
  {
    hide Values, Lines;
  }

  lemma PassingRest(fs: seq<seq<Line>>, fatal: string -> bool)
    requires fs != [] && AllGood(fs) && Passing(Payloads(fs), fatal)
    ensures GoodEvent(fs[0]) && AllGood(fs[1..]) && Passing(Payloads(fs[1..]), fatal)
    ensures Values(fs[0]) != [] ==> Lines(Values(fs[0])) != "[DONE]" && !fatal(Lines(Values(fs[0])))
  {
    PlayedOut(INIT, fs);
    assert fs[0] in fs && forall x <- fs[1..] :: x in fs;
    hide Values, Lines, GoodEvent, Payloads, Passing;
    var first := if Values(fs[0]) == [] then [] else [Lines(Values(fs[0]))];
    PassingSplit(first, Payloads(fs[1..]), fatal);
  }

  lemma PassingSplit(a: seq<string>, b: seq<string>, fatal: string -> bool)
    requires Passing(a + b, fatal)
    ensures Passing(b, fatal) && (a != [] ==> a[0] != "[DONE]" && !fatal(a[0]))
  {
    assert forall p <- b :: p in a + b;
    if a != [] { assert a[0] in a + b; }
  }

  lemma {:induction false} DrainEvents(r: Reader, fs: seq<seq<Line>>, t: string, fatal: string -> bool)
    requires !r.Stopped() && AllGood(fs) && Passing(Payloads(fs), fatal)
    ensures Drain(r.(buffer := StreamText(fs) + t), fatal)
         == Drain(r.(buffer := t, out := r.out + Payloads(fs)), fatal)
    decreases |fs|
  {
    hide Drain, EventText, Values, Lines, GoodEvent, AllGood, Passing;
    if fs == [] {
      assert StreamText(fs) + t == t && r.out + [] == r.out;
    } else {
      hide Payloads;
      var f, rest := fs[0], StreamText(fs[1..]) + t;
      assert StreamText(fs) + t == EventText(f) + "\n\n" + rest;
      PassingRest(fs, fatal);
      PlayOne(r, f, rest, fatal);
      DrainEvents(Played(r, f), fs[1..], t, fatal);
      PlayedOut(r, fs);
    }
  }

  lemma {:induction false} StreamHasNoCr(fs: seq<seq<Line>>)
    requires AllGood(fs)
    ensures forall c <- StreamText(fs) :: c != '\r'
  {
    hide EventText, GoodEvent;
    if fs != [] {
      assert fs[0] in fs && forall x <- fs[1..] :: x in fs;
      StreamHasNoCr(fs[1..]);
      EventReads(fs[0]);
      assert forall c <- "\n\n" :: c != '\r';
    }
  }

  lemma NoCrIsClean(s: string)
    requires forall c <- s :: c != '\r'
    ensures NoCrCrLf(s) && Norm(s) == s
  {
    assert forall i | 0 <= i < |s| :: s[i] in s;
    NormOfClean(s);
  }

  // ---- Whole streams ----

  /** The reader after the pieces of a stream whose last event is not ended yet. */
  lemma ReadSoFar(fs: seq<seq<Line>>, open: string, chunks: seq<string>, fatal: string -> bool)
    requires AllGood(fs) && Passing(Payloads(fs), fatal) && Flatten(chunks) == StreamText(fs) + open
    requires FindBreak(open) < 0 && forall c <- open :: c != '\r'
    ensures Run(chunks, fatal) == Reader(open, Payloads(fs), false, false)
  {
    assert !INIT.Stopped();
    hide *;
    var s := StreamText(fs) + open;
    StreamHasNoCr(fs);
    NoCrIsClean(s);
    DrainEvents(INIT, fs, open, fatal);
    assert [] + Payloads(fs) == Payloads(fs);
    DrainIdle(Reader(open, Payloads(fs), false, false), fatal);
    assert Whole(s, fatal) == Reader(open, Payloads(fs), false, false) by { WholeOf(s, fatal); }
    RunIsWhole(chunks, fatal);
    NotStopped(open, Payloads(fs));
  }

  lemma WholeOf(s: string, fatal: string -> bool)
    requires Norm(s) == s
    ensures Whole(s, fatal) == Drain(INIT.(buffer := s), fatal)
  {}

  lemma NotStopped(open: string, out: seq<string>)
    ensures !Reader(open, out, false, false).Stopped()
  {}

  lemma OpenHasNoBreak(f: seq<Line>, open: string)
    requires GoodEvent(f) && open <= EventText(f)
    ensures FindBreak(open) < 0 && forall c <- open :: c != '\r'
  {
    hide EventText, GoodEvent;
    EventReads(f);
    var s := EventText(f);
    assert forall i | 0 <= i < |open| :: open[i] == s[i] && s[i] in s;
  }

  /** A last event that no blank line ends arrives all the same, trimmed, even if the decoder still held part of it;
      as the end marker it closes the stream. */
  lemma LastEventArrives(fs: seq<seq<Line>>, f: seq<Line>, chunks: seq<string>, flush: string, fatal: string -> bool)
    requires AllGood(fs) && Passing(Payloads(fs), fatal) && GoodEvent(f)
    requires |flush| <= |EventText(f)| && Flatten(chunks) + flush == StreamText(fs) + EventText(f)
    ensures Outcome(chunks, flush, fatal)
         == var p := if Values(f) == [] then "" else Trim(Lines(Values(f)));
            if p == "" then Result(Payloads(fs), false, false)
            else if p == "[DONE]" then Result(Payloads(fs), true, false)
            else Result(Payloads(fs) + [p], false, fatal(p))
  {
    hide EventText, StreamText, Payloads, Values, Lines, FindBreak, Run, Norm, Drain, FrameLines, FrameData, Trim, GoodEvent, AllGood;
    var text := EventText(f);
    var open := text[..|text| - |flush|];
    var whole := StreamText(fs) + text;
    assert whole[|whole| - |flush|..] == flush && whole[..|whole| - |flush|] == Flatten(chunks);
    assert Flatten(chunks) == StreamText(fs) + open;
    assert text[|text| - |flush|..] == flush && open + flush == text;
    OpenHasNoBreak(f, open);
    ReadSoFar(fs, open, chunks, fatal);
    TailOfEvent(f);
  }

  lemma TailOfEvent(f: seq<Line>)
    requires GoodEvent(f)
    ensures Tail(EventText(f)) == if Values(f) == [] then "" else Trim(Lines(Values(f)))
    ensures Tail(EventText(f)) != "" ==> Trim(EventText(f)) != ""
  {
    if Values(f) == [] {
      EventReads(f);
      assert Join([]) == "" && Trim("") == "";
    } else {
      DataIsInk(f);
    }
  }

  /** All that complete events carry arrives, one payload for each event with data, in order, whatever other lines,
      comments and line breaks in the data they have, and however the stream is cut. */
  lemma EventsArrive(fs: seq<seq<Line>>, chunks: seq<string>, fatal: string -> bool)
    requires AllGood(fs) && Passing(Payloads(fs), fatal) && Flatten(chunks) == StreamText(fs)
    ensures Outcome(chunks, "", fatal) == Result(Payloads(fs), false, false)
  {
    hide StreamText, Payloads, Run, AllGood, Finish;
    assert StreamText(fs) + "" == StreamText(fs);
    assert FindBreak("") < 0;
    ReadSoFar(fs, "", chunks, fatal);
    FinishNil(Reader("", Payloads(fs), false, false), fatal);
  }

  /** A payload that the handler refuses is the last one, whatever follows. */
  lemma RefusedIsLast(fs: seq<seq<Line>>, f: seq<Line>, rest: string, chunks: seq<string>, flush: string, fatal: string -> bool)
    requires AllGood(fs) && Passing(Payloads(fs), fatal) && GoodEvent(f) && Values(f) != []
    requires fatal(Lines(Values(f))) && Lines(Values(f)) != "[DONE]"
    requires (forall c <- rest :: c != '\r') && Flatten(chunks) == StreamText(fs) + (EventText(f) + "\n\n" + rest)
    ensures Outcome(chunks, flush, fatal) == Result(Payloads(fs) + [Lines(Values(f))], false, true)
  {
    hide EventText, StreamText, Payloads, Values, Lines, Run, Norm, GoodEvent, AllGood, Drain, FindBreak;
    var s, p := StreamText(fs) + (EventText(f) + "\n\n" + rest), Lines(Values(f));
    StreamHasNoCr(fs);
    EventReads(f);
    assert forall c <- "\n\n" :: c != '\r';
    NoCrIsClean(s);
    DrainEvents(INIT, fs, EventText(f) + "\n\n" + rest, fatal);
    assert [] + Payloads(fs) == Payloads(fs);
    OneEvent(Reader("", Payloads(fs), false, false), f, rest, fatal);
    var w := Reader(rest, Payloads(fs) + [p], false, true);
    DrainIdle(w, fatal);
    WholeOf(s, fatal);
    RunIsWhole(chunks, fatal);
    var r := Run(chunks, fatal);
    assert SameOutput(r, w);
  }

  // ---- What trimming does ----

  /** White space of JavaScript among the ASCII characters. */
  lemma AsciiSpaces(c: char)
    requires (c as int) < 128
    ensures IsSpace(c) <==> c in "\t\n\U{000B}\U{000C}\r "
  {}

  /** The ink of a text with white space around it. */
  lemma {:induction false} TrimMeans(a: string, t: string, b: string)
    requires AllSpace(a) && AllSpace(b) && (t == "" || (!IsSpace(t[0]) && !IsSpace(t[|t| - 1])))
    ensures Trim(a + t + b) == t
    decreases |a| + |b|
  {
    hide IsSpace;
    var s := a + t + b;
    if t == "" {
      assert AllSpace(s);
      TrimBlank(s);
    } else if a != "" {
      assert a[0] in a && forall c <- a[1..] :: c in a;
      assert s[1..] == a[1..] + t + b;
      TrimMeans(a[1..], t, b);
    } else {
      assert s == t + b && TrimLeft(s) == s;
      TrimRightMeans(t, b);
    }
  }

  lemma {:induction false} TrimRightMeans(t: string, b: string)
    requires AllSpace(b) && t != "" && !IsSpace(t[|t| - 1])
    ensures TrimRight(t + b) == t
  {
    hide IsSpace;
    if b == "" {
      assert t + b == t;
    } else {
      assert b[|b| - 1] in b && forall c <- b[..|b| - 1] :: c in b;
      assert (t + b)[..|t + b| - 1] == t + b[..|b| - 1];
      TrimRightMeans(t, b[..|b| - 1]);
    }
  }
}
