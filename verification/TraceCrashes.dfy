/** What crashes, failed flushes and lost sidecars do to the records of the trace store. */
module TraceCrashes {
  import opened TraceStore
  import opened Utf8
  import opened Wrappers
  import Text

  // ---- Which lines can be torn ----

  /** Every line written so far, and every line that was not, is ASCII. */
  predicate AsciiRun(c: Codec, l: Limits, events: seq<Event>) {
    events == []
    || (var front, e := events[..|events| - 1], events[|events| - 1];
        AsciiRun(c, l, front) && (e.Append? ==> IsAscii(LineText(c, l, Run(c, l, front).disk.files, e.put))))
  }

  lemma AsciiAppend(c: Codec, l: Limits, st: Store, t: Trail, p: Put)
    requires !t.torn && IsAscii(t.text) && IsAscii(LineText(c, l, st.disk.files, p))
    ensures !FollowAppend(c, l, st, t, p).torn && IsAscii(FollowAppend(c, l, st, t, p).text)
  {
    hide Inside, Chars, Dropped, LineText, Encode, SplitLog, PutName, IsAscii;
    var line := LineText(c, l, st.disk.files, p);
    AsciiParts(t.text, line, 0);
    if |st.pending| <= p.written < |st.pending| + |Encode(line)| {
      AsciiIsNeverTorn(line, p.written - |st.pending|);
      AsciiParts(t.text, line, Chars(line, p.written - |st.pending|));
    }
  }

  lemma AsciiReopen(c: Codec, st: Store, t: Trail, flushed: nat)
    requires !t.torn && IsAscii(t.text) && st.disk.log + st.pending == Encode(t.text)
    ensures !FollowReopen(c, st, t, flushed).torn && IsAscii(FollowReopen(c, st, t, flushed).text)
  {
    hide Inside, Chars, Encode, SplitLog, Found, IsAscii;
    if flushed < |st.pending| {
      AsciiIsNeverTorn(t.text, |st.disk.log| + flushed);
      AsciiParts(t.text, t.text, Chars(t.text, |st.disk.log| + flushed));
    }
  }

  lemma {:induction false} AsciiIsNotTorn(c: Codec, l: Limits, events: seq<Event>)
    requires IsJson(c) && AsciiRun(c, l, events)
    ensures !TrailOf(c, l, events).torn && IsAscii(TrailOf(c, l, events).text)
  {
    hide Run, LineText, TextOk, IsJson, Encode, FollowAppend, FollowReopen;
    if events != [] {
      var front, e := events[..|events| - 1], events[|events| - 1];
      AsciiIsNotTorn(c, l, front);
      RunFollows(c, l, front);
      match e
      case Append(p) => AsciiAppend(c, l, Run(c, l, front), TrailOf(c, l, front), p);
      case Reopen(flushed) => AsciiReopen(c, Run(c, l, front), TrailOf(c, l, front), flushed);
    }
  }

  /** While all lines are ASCII every read succeeds, wherever the writes break off. */
  lemma AsciiIsReadable(c: Codec, l: Limits, events: seq<Event>)
    requires IsJson(c) && AsciiRun(c, l, events)
    ensures Read(c, Run(c, l, events).disk).Some?
  {
    assert (events + [Reopen(0)])[..|events|] == events;
    hide Run, Read, TrailOf, Inside;
    ReadableIff(c, l, events);
    AsciiIsNotTorn(c, l, events + [Reopen(0)]);
  }

  /** An append by itself: onto a log without anything pending, and the rest of it lost. */
  function BrokenOff(p: Put, written: nat): Event { Append(p.(written := written, kept := false)) }

  /** Some break-off of an append makes the log unreadable for good exactly if its line is not ASCII. */
  lemma TearableIff(c: Codec, l: Limits, events: seq<Event>, p: Put)
    requires IsJson(c) && !TrailOf(c, l, events).torn && Run(c, l, events).pending == []
    requires !Dropped(c, l, Run(c, l, events).disk.files, p)
    ensures IsAscii(LineText(c, l, Run(c, l, events).disk.files, p))
            <==> forall written: nat :: !TrailOf(c, l, events + [BrokenOff(p, written)]).torn
  {
    var files := Run(c, l, events).disk.files;
    var line := LineText(c, l, files, p);
    forall w: nat
      ensures TrailOf(c, l, events + [BrokenOff(p, w)]).torn <==> w < |Encode(line)| && Inside(line, w)
    {
      BrokenOffTrail(c, l, events, p, w);
    }
    hide Run, TrailOf, Inside, Encode, Dropped, LineText;
    if IsAscii(line) {
      forall w: nat | w < |Encode(line)| ensures !Inside(line, w) { AsciiIsNeverTorn(line, w); }
    } else {
      var w := OthersCanBeTorn(line);
      assert TrailOf(c, l, events + [BrokenOff(p, w)]).torn;
    }
  }

  lemma BrokenOffTrail(c: Codec, l: Limits, events: seq<Event>, p: Put, w: nat)
    requires !TrailOf(c, l, events).torn && Run(c, l, events).pending == []
    requires !Dropped(c, l, Run(c, l, events).disk.files, p)
    ensures var line := LineText(c, l, Run(c, l, events).disk.files, p);
            TrailOf(c, l, events + [BrokenOff(p, w)]).torn <==> w < |Encode(line)| && Inside(line, w)
  {
    assert (events + [BrokenOff(p, w)])[..|events|] == events;
    var q := p.(written := w, kept := false);
    BreakingOffIsLate(c, l, Run(c, l, events).disk.files, p, q);
    hide Run, Inside, Chars, Encode, LineText, Dropped;
  }

  /** How much gets out makes no difference to the sidecar and the line. */
  lemma BreakingOffIsLate(c: Codec, l: Limits, files: map<string, string>, p: Put, q: Put)
    requires q == p.(written := q.written, kept := q.kept)
    ensures LineText(c, l, files, q) == LineText(c, l, files, p) && Dropped(c, l, files, q) == Dropped(c, l, files, p)
  {}

  /** A record that holds one Chinese character, cut one byte short of it: every record before it is lost with it. */
  lemma OneByteShort(c: Codec, l: Limits, events: seq<Event>, p: Put, later: seq<Event>)
    requires IsJson(c) && !TrailOf(c, l, events).torn && Run(c, l, events).pending == []
    requires p.obj == map["text" := Text("\U{4E2D}")] && c.dumps(p.obj) == "{\"text\": \"\U{4E2D}\"}" && |c.dumps(p.obj)| <= l.text
    ensures Read(c, Run(c, l, events).disk).Some?
    ensures Read(c, Run(c, l, events + [BrokenOff(p, 12)] + later).disk) == None
  {
    hide Run, Read, TrailOf, Inside, Encode, Dropped, LineText;
    ReadableIff(c, l, events);
    var files := Run(c, l, events).disk.files;
    var a, ch, b := "{\"text\": \"", '\U{4E2D}', "\"}\n";
    InlineLine(c, l, files, p);
    assert LineText(c, l, files, p) == a + [ch] + b;
    AsciiIsNeverTorn(a, 0);
    InsideAt(a, ch, b, 2);
    BrokenOffTrail(c, l, events, p, 12);
    TornForever(c, l, events + [BrokenOff(p, 12)], later);
  }

  /** A short object that is no tool result is its own line. */
  lemma InlineLine(c: Codec, l: Limits, files: map<string, string>, p: Put)
    requires "type" !in p.obj && |c.dumps(p.obj)| <= l.text
    ensures !Dropped(c, l, files, p) && LineText(c, l, files, p) == c.dumps(p.obj) + "\n"
  {
    assert !Spills(c, l, p.obj);
  }

  // ---- One writer that lives on ----

  /** The event is an append by a living writer whose line is written or kept: its flush may fail anywhere. */
  predicate Lives(c: Codec, l: Limits, st: Store, e: Event) {
    && e.Append? && !Dropped(c, l, st.disk.files, e.put)
    && (e.put.kept || e.put.written >= |st.pending| + |Encode(LineText(c, l, st.disk.files, e.put))|)
  }

  predicate AllLive(c: Codec, l: Limits, events: seq<Event>) {
    events == []
    || (AllLive(c, l, events[..|events| - 1]) && Lives(c, l, Run(c, l, events[..|events| - 1]), events[|events| - 1]))
  }

  lemma LiveStep(c: Codec, l: Limits, st: Store, t: Trail, p: Put)
    requires IsJson(c) && Follows(c, l, st, t) && !t.torn && Lives(c, l, st, Append(p))
    ensures var t' := FollowAppend(c, l, st, t, p);
            && !t'.torn && t'.Tail() == []
            && t'.saved == if t.Tail() == [] then t.saved + [Saved(p.obj, PutName(c, l, st.disk.files, p).0)] else t.saved
  {
    TextWhole(c, l, t.text, t.saved, p.obj, PutName(c, l, st.disk.files, p).0);
    hide Dropped, IsJson, TextOk, LineFor, Encode, SplitLog, Inside, Chars, PutName;
  }

  /** Every event is an append, and its object is saved. */
  predicate SavesAll(events: seq<Event>, saved: seq<Saved>) {
    |saved| == |events| && forall i | 0 <= i < |events| :: events[i].Append? && saved[i].obj == events[i].put.obj
  }

  lemma SavesNext(events: seq<Event>, saved: seq<Saved>, p: Put, name: string)
    requires SavesAll(events, saved)
    ensures SavesAll(events + [Append(p)], saved + [Saved(p.obj, name)])
  {}

  lemma {:induction false} LiveRunsSaveAll(c: Codec, l: Limits, events: seq<Event>)
    requires IsJson(c) && AllLive(c, l, events)
    ensures var t := TrailOf(c, l, events); !t.torn && t.Tail() == [] && SavesAll(events, t.saved)
  {
    hide Run, IsJson, Follows, FollowAppend, PutName;
    if events == [] {
      assert SplitLog([]).last == [];
    } else {
      hide SplitLog, TrailOf, SavesAll, Lives;
      var front, e := events[..|events| - 1], events[|events| - 1];
      assert events == front + [e];
      LiveRunsSaveAll(c, l, front);
      LiveNext(c, l, front, e);
      assert SavesAll(events, TrailOf(c, l, events).saved);
      assert TrailOf(c, l, events).Tail() == [];
    }
  }

  lemma LiveNext(c: Codec, l: Limits, events: seq<Event>, e: Event)
    requires IsJson(c) && Lives(c, l, Run(c, l, events), e)
    requires var t := TrailOf(c, l, events); !t.torn && t.Tail() == [] && SavesAll(events, t.saved)
    ensures var t := TrailOf(c, l, events + [e]); !t.torn && t.Tail() == [] && SavesAll(events + [e], t.saved)
  {
    hide Run, IsJson, Follows, FollowAppend, PutName, SplitLog, TrailOf, SavesAll;
    var st, t := Run(c, l, events), TrailOf(c, l, events);
    RunFollows(c, l, events);
    RunSnoc(c, l, events, e);
    assert e == Append(e.put);
    LiveStep(c, l, st, t, e.put);
    SavesNext(events, t.saved, e.put, PutName(c, l, st.disk.files, e.put).0);
  }

  /** The record without what offloading adds to it. */
  function Bare(o: Obj): Obj { o - {"result_path", "preview"} }

  /** A spilled tool result comes back with its serialised content, in the text mode of the reader, and every
      other object comes back as it was; the content is unchanged exactly if it has no carriage return. */
  lemma RestoredMeans(c: Codec, l: Limits, s: Saved)
    ensures !BigTool(c, l, s.obj) ==> Restored(c, l, s) == s.obj
    ensures BigTool(c, l, s.obj) ==>
              && Bare(Restored(c, l, s)) == Bare(s.obj)["content" := Text(Universal(ContentText(c, s.obj)))]
              && Restored(c, l, s)["preview"] == Text(Text.Take(ContentText(c, s.obj), l.preview))
              && (Restored(c, l, s)["content"] == Text(ContentText(c, s.obj)) <==> '\r' !in ContentText(c, s.obj))
  {
    if BigTool(c, l, s.obj) { UniversalIff(ContentText(c, s.obj)); }
  }

  /** The record is read as it was appended. */
  predicate ComesBack(c: Codec, l: Limits, o: Obj, rec: Obj) {
    && (!BigTool(c, l, o) ==> rec == o)
    && (BigTool(c, l, o) ==> Bare(rec) == Bare(o)["content" := Text(Universal(ContentText(c, o)))])
  }

  /** A failed flush heals: as soon as a living writer has got everything out, all its appends are read back, record
      by record, in order, wherever the flushes before had stopped. */
  lemma RoundTrip(c: Codec, l: Limits, events: seq<Event>)
    requires IsJson(c) && AllLucky(c, l, events) && AllLive(c, l, events) && Run(c, l, events).pending == []
    ensures var r := Read(c, Run(c, l, events).disk);
            && r.Some? && |r.value| == |events|
            && forall i | 0 <= i < |events| :: events[i].Append? && ComesBack(c, l, events[i].put.obj, r.value[i])
  {
    hide *;
    LiveRunsSaveAll(c, l, events);
    LiveReads(c, l, events);
    SavedComeBack(c, l, events, TrailOf(c, l, events).saved);
  }

  lemma LiveReads(c: Codec, l: Limits, events: seq<Event>)
    requires IsJson(c) && AllLucky(c, l, events) && Run(c, l, events).pending == []
    requires var t := TrailOf(c, l, events); !t.torn && t.Tail() == []
    ensures Read(c, Run(c, l, events).disk) == Some(RestoredAll(c, l, TrailOf(c, l, events).saved))
  {
    BlankRow(c, Run(c, l, events).disk.files);
    hide RestoredAll, Read, Run, TrailOf, AllLucky, IsJson;
    NowFollows(c, l, events);
    ReadsBack(c, l, events);
    assert RestoredAll(c, l, TrailOf(c, l, events).saved) + [] == RestoredAll(c, l, TrailOf(c, l, events).saved);
  }

  lemma SavedComeBack(c: Codec, l: Limits, events: seq<Event>, saved: seq<Saved>)
    requires SavesAll(events, saved)
    ensures var r := RestoredAll(c, l, saved);
            |r| == |events| && forall i | 0 <= i < |events| :: events[i].Append? && ComesBack(c, l, events[i].put.obj, r[i])
  {
    hide Restored, ComesBack;
    forall i | 0 <= i < |events|
      ensures RestoredAll(c, l, saved)[i] == Restored(c, l, saved[i]) && ComesBack(c, l, saved[i].obj, Restored(c, l, saved[i]))
    {
      RestoredComesBack(c, l, saved[i]);
    }
  }

  lemma RestoredComesBack(c: Codec, l: Limits, s: Saved)
    ensures ComesBack(c, l, s.obj, Restored(c, l, s))
  {
    RestoredMeans(c, l, s);
  }

  // ---- Crashes ----

  lemma CrashIsBreakOff(c: Codec, l: Limits, events: seq<Event>, p: Put)
    requires Run(c, l, events).pending == []
    ensures Run(c, l, events + [Append(p), Reopen(0)]).disk == Run(c, l, events + [BrokenOff(p, p.written)]).disk
    ensures Run(c, l, events + [BrokenOff(p, p.written)]).pending == []
  {
    hide Run, AppendPut, ReopenLog;
    var e := BrokenOff(p, p.written);
    RunSnoc(c, l, events, Append(p));
    RunSnoc(c, l, events + [Append(p)], Reopen(0));
    RunSnoc(c, l, events, e);
    assert events + [Append(p)] + [Reopen(0)] == events + [Append(p), Reopen(0)];
    StopIsBreakOff(c, l, Run(c, l, events), p);
    hide BrokenOff, TrailOf, AllLucky, Follow;
  }

  lemma StopIsBreakOff(c: Codec, l: Limits, st: Store, p: Put)
    requires st.pending == []
    ensures ReopenLog(AppendPut(c, l, st, p), 0) == AppendPut(c, l, st, BrokenOff(p, p.written).put)
    ensures ReopenLog(AppendPut(c, l, st, p), 0).pending == []
  {
    hide Files, LineText, Encode, Dropped, PutName;
    SameBut(c, l, st.disk.files, p, BrokenOff(p, p.written).put);
    var line := Encode(LineText(c, l, st.disk.files, p));
    assert [] + line == line;
    var f := FlushLine(st.pending, line, p.written, p.kept);
    assert st.disk.log + f.out + [] == st.disk.log + f.out && f.pending[..0] == [];
  }

  lemma RunSnoc(c: Codec, l: Limits, events: seq<Event>, e: Event)
    ensures Run(c, l, events + [e]) == Next(c, l, Run(c, l, events), e)
    ensures TrailOf(c, l, events + [e]) == Follow(c, l, Run(c, l, events), TrailOf(c, l, events), e)
    ensures AllLucky(c, l, events + [e]) ==> AllLucky(c, l, events)
    ensures AllLucky(c, l, events + [e]) && e.Append? ==> Lucky(c, l, Run(c, l, events).disk.files, e.put) && !Reserved(e.put.obj)
  {
    assert (events + [e])[..|events|] == events;
    hide Next, Follow, Lucky, Reserved;
  }

  /** A crash anywhere in an append onto ended lines: if it falls inside a character, nothing can be read any more;
      else what was readable before still is, and the append adds nothing or exactly its own record. */
  lemma CrashLeavesOldOrNew(c: Codec, l: Limits, events: seq<Event>, p: Put)
    requires IsJson(c) && AllLucky(c, l, events + [BrokenOff(p, p.written)])
    requires var t := TrailOf(c, l, events); !t.torn && t.Tail() == [] && Run(c, l, events).pending == []
    ensures var st := Run(c, l, events);
            var line := LineText(c, l, st.disk.files, p);
            var before, after := Read(c, st.disk), Read(c, Run(c, l, events + [Append(p), Reopen(0)]).disk);
            && before.Some?
            && (after == None <==> !Dropped(c, l, st.disk.files, p) && p.written < |Encode(line)| && Inside(line, p.written))
            && (after.Some? ==>
                  || after == before
                  || after.value == before.value + [Restored(c, l, Saved(p.obj, PutName(c, l, st.disk.files, p).0))])
  {
    hide Run, TrailOf, Read, Restored, RestoredAll, IsJson, AllLucky, AppendPut, FollowAppend, Now, TailRecord, Follows;
    hide Lucky, Dropped, LineText, PutName, Inside, Encode, SplitLog;
    var st, t := Run(c, l, events), TrailOf(c, l, events);
    var e := BrokenOff(p, p.written);
    RunSnoc(c, l, events, e);
    CrashIsBreakOff(c, l, events, p);
    NowFollows(c, l, events);
    NowFollows(c, l, events + [e]);
    ReadsBack(c, l, events);
    ReadsBack(c, l, events + [e]);
    RunFollows(c, l, events);
    BlankRow(c, st.disk.files);
    SameBut(c, l, st.disk.files, p, e.put);
    assert RestoredAll(c, l, t.saved) + [] == RestoredAll(c, l, t.saved);
    if Dropped(c, l, st.disk.files, p) {
      DroppedChangesNothing(c, l, st, e.put);
    } else {
      CrashTail(c, l, st, t, e.put);
    }
  }

  lemma SameBut(c: Codec, l: Limits, files: map<string, string>, p: Put, q: Put)
    requires q == p.(written := q.written, kept := q.kept)
    ensures LineText(c, l, files, q) == LineText(c, l, files, p) && Dropped(c, l, files, q) == Dropped(c, l, files, p)
    ensures PutName(c, l, files, q) == PutName(c, l, files, p) && Files(c, l, files, q) == Files(c, l, files, p)
    ensures Lucky(c, l, files, q) == Lucky(c, l, files, p)
  {}

  lemma BlankRow(c: Codec, files: map<string, string>)
    requires IsJson(c)
    ensures TailRecord(c, files, []) == []
  {}

  lemma DroppedChangesNothing(c: Codec, l: Limits, st: Store, p: Put)
    requires Dropped(c, l, st.disk.files, p)
    ensures AppendPut(c, l, st, p) == st && forall t :: FollowAppend(c, l, st, t, p) == t
  {}

  /** What a broken-off line adds to a read, if it is not torn. */
  lemma PartReads(c: Codec, l: Limits, files: map<string, string>, s: Saved, n: nat)
    requires IsJson(c) && Backed(c, l, files, s) && n <= |c.dumps(LineFor(c, l, s.obj, s.name))|
    ensures TailRecord(c, files, c.dumps(LineFor(c, l, s.obj, s.name))[..n])
         == if n == |c.dumps(LineFor(c, l, s.obj, s.name))| then [Restored(c, l, s)] else []
  {
    var obj := LineFor(c, l, s.obj, s.name);
    ResolveRestores(c, l, files, s);
    DumpsFacts(c, obj);
    assert c.dumps(obj)[..|c.dumps(obj)|] == c.dumps(obj);
    assert 0 < n < |c.dumps(obj)| ==> c.loads(c.dumps(obj)[..n]) == None;
    assert c.dumps(obj)[..0] == [];
    hide Resolve, Restored, IsJson, LineFor, Backed;
  }

  lemma CrashWhole(c: Codec, l: Limits, st: Store, t: Trail, p: Put)
    requires IsJson(c) && Follows(c, l, st, t) && !t.torn && t.Tail() == [] && Lives(c, l, st, Append(p))
    ensures var t' := FollowAppend(c, l, st, t, p);
            && !t'.torn && t'.Tail() == []
            && RestoredAll(c, l, t'.saved) == RestoredAll(c, l, t.saved) + [Restored(c, l, Saved(p.obj, PutName(c, l, st.disk.files, p).0))]
  {
    hide Follows, FollowAppend, IsJson, PutName, Restored, SplitLog, Lives;
    LiveStep(c, l, st, t, p);
  }

  lemma CrashPart(c: Codec, l: Limits, st: Store, t: Trail, p: Put)
    requires IsJson(c) && Follows(c, l, st, t) && !t.torn && t.Tail() == [] && st.pending == [] && !p.kept
    requires !Dropped(c, l, st.disk.files, p) && p.written < |Encode(LineText(c, l, st.disk.files, p))|
    ensures var line := LineText(c, l, st.disk.files, p);
            var t', n := FollowAppend(c, l, st, t, p), Chars(line, p.written);
            && (t'.torn <==> Inside(line, p.written))
            && (!t'.torn ==> n < |line| && t'.saved == t.saved && t'.Tail() == line[..n])
  {
    hide Encode, Inside, Chars, LineText, Dropped, IsJson, TextOk, SplitLog, EncodeChar, Width, PutName, IsCut;
    var line := LineText(c, l, st.disk.files, p);
    if !Inside(line, p.written) {
      LineStarts(c, l, st.disk.files, p);
      PartIsOpen(line, p.written);
      var part := line[..Chars(line, p.written)];
      TextCut(c, l, t.text, t.saved, part);
      assert [] + part == part;
    }
  }

  /** The whole characters of a broken-off line: less than the line, so without its line break. */
  lemma PartIsOpen(line: string, k: nat)
    requires k < |Encode(line)| && !Inside(line, k) && line != [] && line[0] == '{' && '\n' !in line[..|line| - 1]
    ensures Chars(line, k) < |line| && Opens(line[..Chars(line, k)]) && '\n' !in line[..Chars(line, k)]
  {
    hide Encode, Chars, EncodeChar, Width;
    var n := Chars(line, k);
    var torn := CutText(line, k);
    WholeIsNotCut(line, k, n);
    assert line[..n] == line[..|line| - 1][..n];
  }

  lemma CrashTail(c: Codec, l: Limits, st: Store, t: Trail, p: Put)
    requires IsJson(c) && Follows(c, l, st, t) && !t.torn && t.Tail() == [] && st.pending == [] && !p.kept
    requires Lucky(c, l, st.disk.files, p) && !Dropped(c, l, st.disk.files, p) && !Reserved(p.obj)
    ensures var t' := FollowAppend(c, l, st, t, p);
            var line := LineText(c, l, st.disk.files, p);
            && (t'.torn <==> p.written < |Encode(line)| && Inside(line, p.written))
            && (!t'.torn ==>
                  var r := RestoredAll(c, l, t'.saved) + TailRecord(c, AppendPut(c, l, st, p).disk.files, t'.Tail());
                  || r == RestoredAll(c, l, t.saved)
                  || r == RestoredAll(c, l, t.saved) + [Restored(c, l, Saved(p.obj, PutName(c, l, st.disk.files, p).0))])
  {
    hide FollowAppend, Follows, Inside, Chars, Encode, SplitLog, IsJson, Lucky, Files;
    var files := Files(c, l, st.disk.files, p);
    var s := Saved(p.obj, PutName(c, l, st.disk.files, p).0);
    var line := LineText(c, l, st.disk.files, p);
    AppendBacks(c, l, st.disk.files, p);
    LineStarts(c, l, st.disk.files, p);
    assert AppendPut(c, l, st, p).disk.files == files;
    hide AppendPut, LineText, Dropped, PutName, LineFor, Restored, Backed, RestoredAll;
    if p.written >= |Encode(line)| {
      CrashWhole(c, l, st, t, p);
      BlankRow(c, files);
      assert RestoredAll(c, l, FollowAppend(c, l, st, t, p).saved) + [] == RestoredAll(c, l, FollowAppend(c, l, st, t, p).saved);
    } else {
      CrashPart(c, l, st, t, p);
      if !Inside(line, p.written) {
        var n := Chars(line, p.written);
        assert line[..n] == line[..|line| - 1][..n];
        PartReads(c, l, files, s, n);
        assert RestoredAll(c, l, t.saved) + [] == RestoredAll(c, l, t.saved);
      }
    }
  }

  /** A line that nobody will complete costs the record after it as well: behind an unended line of a writer that is
      gone, the next append that is written completely is not read back, and takes the unended record with it. */
  lemma TornLineCostsTheNext(c: Codec, l: Limits, events: seq<Event>, p: Put)
    requires IsJson(c) && AllLucky(c, l, events + [Append(p)])
    requires !TrailOf(c, l, events).torn && TrailOf(c, l, events).Tail() != [] && Lives(c, l, Run(c, l, events), Append(p))
    requires Run(c, l, events + [Append(p)]).pending == []
    ensures Read(c, Run(c, l, events + [Append(p)]).disk) == Some(RestoredAll(c, l, TrailOf(c, l, events).saved))
    ensures TrailOf(c, l, events + [Append(p)]).Tail() == [] && !AllLive(c, l, events)
  {
    hide Run, TrailOf, Now, Read, RestoredAll, IsJson, AllLucky, SplitLog, TailRecord, Follows, FollowAppend, AllLive, Lives;
    var st, t := Run(c, l, events), TrailOf(c, l, events);
    RunSnoc(c, l, events, Append(p));
    ReadsBack(c, l, events + [Append(p)]);
    NowFollows(c, l, events + [Append(p)]);
    RunFollows(c, l, events);
    LiveStep(c, l, st, t, p);
    BlankRow(c, Run(c, l, events + [Append(p)]).disk.files);
    assert RestoredAll(c, l, t.saved) + [] == RestoredAll(c, l, t.saved);
    if AllLive(c, l, events) { LiveRunsSaveAll(c, l, events); }
  }

  /** When the sidecar gets a new name, its record comes back exactly if publishing worked.  A failed hard link
      followed by a failed rename is only logged, and the line is written all the same. */
  lemma SpilledComesBackIff(c: Codec, l: Limits, files: map<string, string>, p: Put)
    requires IsJson(c) && !Reserved(p.obj) && Spills(c, l, p.obj) && !Dropped(c, l, files, p)
    requires PutName(c, l, files, p).1 && PutName(c, l, files, p).0 !in files
    ensures var s := Saved(p.obj, PutName(c, l, files, p).0);
            (Resolve(c, Files(c, l, files, p), LineFor(c, l, p.obj, s.name)) == Restored(c, l, s))
            == (p.publication == Published)
  {
    var s := Saved(p.obj, PutName(c, l, files, p).0);
    if p.publication == Lost {
      var rec := Resolve(c, files, LineFor(c, l, p.obj, s.name));
      assert Files(c, l, files, p) == files;
      if BigTool(c, l, p.obj) {
        assert "content" !in rec && "content" in Restored(c, l, s);
      } else {
        assert "sidecar" in rec && "sidecar" !in Restored(c, l, s);
      }
    } else {
      AppendBacks(c, l, files, p);
      ResolveRestores(c, l, Files(c, l, files, p), s);
    }
  }
}
