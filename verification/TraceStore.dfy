/** The trace store: a log of JSON lines beside write-once sidecar files for large contents.

    The log is a file of UTF-8 bytes.  A flush may stop after any number of them.  The writer then keeps the rest
    of a line that fits into the buffer of the file, and writes it before the next line; what it has not written
    when it goes away, by a crash or because even closing fails, is lost, as is the rest of a longer line.  A
    later writer goes on appending to the same log.
 */
module TraceStore {
  import opened Utf8
  import opened Wrappers
  import Text

  datatype Value = Text(s: string) | Other(id: nat)

  type Obj = map<string, Value>

  /** `loads` gives None for text that is not a JSON object; `show` serialises a content that is not text. */
  datatype Codec = Codec(
    dumps: Obj -> string,
    loads: string -> Option<Obj>,
    show: Value -> string,
    digest: string -> string)

  /** What is used of JSON: a serialised object has no raw line break, opens with a brace that only its own last
      character closes, and is read back; nothing that already opens a brace parses with an object appended.
      The digest may collide. */
  ghost predicate IsJson(c: Codec) {
    && (forall o: Obj :: c.loads(c.dumps(o)) == Some(o))
    && (forall o: Obj :: |c.dumps(o)| >= 2 && c.dumps(o)[0] == '{' && '\n' !in c.dumps(o) && '\r' !in c.dumps(o))
    && (forall o: Obj, k | 0 < k < |c.dumps(o)| :: c.loads(c.dumps(o)[..k]) == None)
    && (forall t: string, o: Obj :: t != [] && t[0] == '{' ==> c.loads(t + c.dumps(o)) == None)
    && c.loads([]) == None
  }

  /** The thresholds of a writer. */
  datatype Limits = Limits(tool: nat, text: nat, preview: nat)

  datatype Disk = Disk(files: map<string, string>, log: seq<Byte>)

  /** The directory, and what the writer has not got out yet. */
  datatype Store = Store(disk: Disk, pending: seq<Byte>)

  const EMPTY: Store := Store(Disk(map[], []), [])

  /** Lost: neither the hard link nor the rename worked, which is only logged.  Raised: the temporary file
      could not be written. */
  datatype Publication = Published | Lost | Raised

  /** One append and what happens to it: `readable` says whether an existing sidecar can be compared, `suffix` is
      the random part of a second name, `written` how many bytes the flush gets out, and `kept` whether the line
      fits into the buffer, which keeps what is left of it. */
  datatype Put = Put(obj: Obj, readable: bool, suffix: string, publication: Publication, written: nat, kept: bool)

  /** Reopen: the writer goes away after getting out some bytes of what it still had, and another one comes. */
  datatype Event = Append(put: Put) | Reopen(flushed: nat)

  // ---- What goes where ----

  predicate IsToolResult(o: Obj) { "type" in o && o["type"] == Text("tool_result") && "content" in o }

  function ContentText(c: Codec, o: Obj): string
    requires "content" in o
  {
    if o["content"].Text? then o["content"].s else c.show(o["content"])
  }

  predicate BigTool(c: Codec, l: Limits, o: Obj) { IsToolResult(o) && |ContentText(c, o)| > l.tool }

  predicate BigText(c: Codec, l: Limits, o: Obj) { !BigTool(c, l, o) && |c.dumps(o)| > l.text }

  predicate Spills(c: Codec, l: Limits, o: Obj) { BigTool(c, l, o) || BigText(c, l, o) }

  function Payload(c: Codec, l: Limits, o: Obj): string {
    if BigTool(c, l, o) then ContentText(c, o) else c.dumps(o)
  }

  function Extension(c: Codec, l: Limits, o: Obj): string { if BigTool(c, l, o) then ".txt" else ".json" }

  /** The name a payload gets, and whether it still has to be written. */
  function NameFor(files: map<string, string>, digest: string, ext: string, payload: string, p: Put): (string, bool) {
    var name := digest + ext;
    if name !in files then (name, true)
    else if p.readable && files[name] == payload then (name, false)
    else (digest + "_" + p.suffix + ext, true)
  }

  function PutName(c: Codec, l: Limits, files: map<string, string>, p: Put): (string, bool) {
    var payload := Payload(c, l, p.obj);
    NameFor(files, c.digest(payload), Extension(c, l, p.obj), payload, p)
  }

  /** Publishing never replaces an existing file. */
  function Publish(files: map<string, string>, name: string, payload: string, how: Publication): map<string, string> {
    if how == Lost || name in files then files else files[name := payload]
  }

  /** The object that is written as the line of the log. */
  function LineFor(c: Codec, l: Limits, o: Obj, name: string): Obj {
    if BigTool(c, l, o)
    then (o - {"content"})["result_path" := Text(name)]["preview" := Text(Text.Take(ContentText(c, o), l.preview))]
    else if BigText(c, l, o) then map["sidecar" := Text(name)]
    else o
  }

  /** An append whose sidecar cannot even be started is dropped as a whole. */
  predicate Dropped(c: Codec, l: Limits, files: map<string, string>, p: Put) {
    Spills(c, l, p.obj) && PutName(c, l, files, p).1 && p.publication == Raised
  }

  function Files(c: Codec, l: Limits, files: map<string, string>, p: Put): map<string, string> {
    var (name, isNew) := PutName(c, l, files, p);
    if Dropped(c, l, files, p) || !Spills(c, l, p.obj) || !isNew then files
    else Publish(files, name, Payload(c, l, p.obj), p.publication)
  }

  /** The text of the line that refers to the sidecar, or holds the object. */
  function LineText(c: Codec, l: Limits, files: map<string, string>, p: Put): string {
    c.dumps(LineFor(c, l, p.obj, PutName(c, l, files, p).0)) + "\n"
  }

  /** What a flush gets out, and what stays in the buffer.  A long line is only taken in when the buffer is empty,
      and of it nothing is kept. */
  datatype Flush = Flush(out: seq<Byte>, pending: seq<Byte>)

  function FlushLine(pending: seq<Byte>, line: seq<Byte>, written: nat, kept: bool): Flush {
    var queue := pending + line;
    if written >= |queue| then Flush(queue, [])
    else if kept then Flush(queue[..written], queue[written..])
    else Flush(queue[..written], if written < |pending| then pending[written..] else [])
  }

  function AppendPut(c: Codec, l: Limits, st: Store, p: Put): Store {
    if Dropped(c, l, st.disk.files, p) then st
    else
      var f := FlushLine(st.pending, Encode(LineText(c, l, st.disk.files, p)), p.written, p.kept);
      Store(Disk(Files(c, l, st.disk.files, p), st.disk.log + f.out), f.pending)
  }

  function ReopenLog(st: Store, flushed: nat): Store {
    Store(st.disk.(log := st.disk.log + if flushed < |st.pending| then st.pending[..flushed] else st.pending), [])
  }

  function Next(c: Codec, l: Limits, st: Store, e: Event): Store {
    match e
    case Append(p) => AppendPut(c, l, st, p)
    case Reopen(flushed) => ReopenLog(st, flushed)
  }

  function Run(c: Codec, l: Limits, events: seq<Event>): Store {
    if events == [] then EMPTY else Next(c, l, Run(c, l, events[..|events| - 1]), events[|events| - 1])
  }

  // ---- Reading ----

  /** Text mode turns CR LF and CR into LF. */
  function Universal(s: string): string {
    if s == [] then []
    else if s[0] != '\r' then [s[0]] + Universal(s[1..])
    else if |s| > 1 && s[1] == '\n' then Universal(s[1..])
    else ['\n'] + Universal(s[1..])
  }

  /** The log split at its line breaks; the last row is what no line break has ended. */
  datatype Split = Split(ended: seq<string>, last: string)

  function SplitLog(log: string): Split {
    if log == [] then Split([], [])
    else
      var s, ch := SplitLog(log[..|log| - 1]), log[|log| - 1];
      if ch == '\n' then Split(s.ended + [s.last], []) else Split(s.ended, s.last + [ch])
  }

  function Rows(log: string): seq<string> { SplitLog(log).ended + [SplitLog(log).last] }

  /** A record with its sidecar put back. */
  function Resolve(c: Codec, files: map<string, string>, rec: Obj): Obj {
    if "sidecar" in rec then
      if !(rec["sidecar"].Text? && rec["sidecar"].s in files) then rec
      else
        var raw := Universal(files[rec["sidecar"].s]);
        if c.loads(raw).Some? then c.loads(raw).value else rec["sidecar_content" := Text(raw)]
    else if "result_path" in rec && rec["result_path"].Text? && rec["result_path"].s in files && "content" !in rec then
      rec["content" := Text(Universal(files[rec["result_path"].s]))]
    else rec
  }

  /** The records of some rows; rows that do not parse are skipped. */
  function Records(c: Codec, rows: seq<string>): seq<Obj> {
    if rows == [] then []
    else
      var front, last := Records(c, rows[..|rows| - 1]), c.loads(rows[|rows| - 1]);
      if last.Some? then front + [last.value] else front
  }

  function ResolveAll(c: Codec, files: map<string, string>, recs: seq<Obj>): seq<Obj> {
    seq(|recs|, i requires 0 <= i < |recs| => Resolve(c, files, recs[i]))
  }

  /** None when decoding the log fails: the exception leaves the loop over its lines, and `read` with it. */
  function Read(c: Codec, d: Disk): Option<seq<Obj>> {
    var text := Decode(d.log);
    if text.None? then None else Some(ResolveAll(c, d.files, Records(c, Rows(text.value))))
  }

  class TraceWriter {
    const codec: Codec
    const limits: Limits
    var files: map<string, string>
    var log: seq<Byte>
    var pending: seq<Byte>
    var closed: bool

    ghost function View(): Store
      reads this
    {
      Store(Disk(files, log), pending)
    }

    /** A writer on whatever an earlier one has left. */
    constructor (c: Codec, l: Limits, d: Disk)
      ensures codec == c && limits == l && View() == Store(d, []) && !closed
    {
      codec, limits := c, l;
      files, log, pending, closed := d.files, d.log, [], false;
    }

    /** Closing flushes as far as it can; what is left is lost. */
    method Close(flushed: nat)
      modifies this
      ensures closed
      ensures View() == if old(closed) then old(View()) else ReopenLog(old(View()), flushed)
    {
      if closed { return; }
      log := log + if flushed < |pending| then pending[..flushed] else pending;
      pending, closed := [], true;
    }

    /** Write the payload under a name that is not taken; the result says whether an exception ends the append. */
    method WriteSidecar(name: string, payload: string, how: Publication) returns (ok: bool)
      modifies `files
      ensures ok <==> how != Raised
      ensures files == if ok then Publish(old(files), name, payload, how) else old(files)
    {
      if how == Raised { return false; }
      if name !in files && how == Published { files := files[name := payload]; }
      ok := true;
    }

    method Spill(digest: string, ext: string, payload: string, p: Put) returns (name: string, ok: bool)
      modifies `files
      ensures var (n, isNew) := NameFor(old(files), digest, ext, payload, p);
              && name == n
              && (ok <==> !(isNew && p.publication == Raised))
              && files == if ok && isNew then Publish(old(files), n, payload, p.publication) else old(files)
    {
      name := digest + ext;
      ok := true;
      if name !in files {
        ok := WriteSidecar(name, payload, p.publication);
      } else if !p.readable || files[name] != payload {
        name := digest + "_" + p.suffix + ext;
        ok := WriteSidecar(name, payload, p.publication);
      }
    }

    /** Write a line behind what is still pending, and flush. */
    method WriteLine(line: seq<Byte>, written: nat, kept: bool)
      modifies `log, `pending
      ensures var f := FlushLine(old(pending), line, written, kept); log == old(log) + f.out && pending == f.pending
    {
      if kept || written >= |pending| + |line| {
        pending := pending + line;
        var n := if written < |pending| then written else |pending|;
        log, pending := log + pending[..n], pending[n..];
      } else if written < |pending| {
        assert (pending + line)[..written] == pending[..written];
        log, pending := log + pending[..written], pending[written..];
      } else {
        assert (pending + line)[..written] == pending + line[..written - |pending|];
        log, pending := log + (pending + line[..written - |pending|]), [];
      }
    }

    method AppendObject(p: Put)
      modifies this
      ensures closed == old(closed)
      ensures View() == if closed then old(View()) else AppendPut(codec, limits, old(View()), p)
    {
      if closed { return; }
      var line;
      if "type" in p.obj && p.obj["type"] == Text("tool_result") && "content" in p.obj
         && |ContentText(codec, p.obj)| > limits.tool {
        var content := ContentText(codec, p.obj);
        var name, ok := Spill(codec.digest(content), ".txt", content, p);
        if !ok { return; }
        line := codec.dumps((p.obj - {"content"})["result_path" := Text(name)]["preview" := Text(Text.Take(content, limits.preview))]);
      } else {
        var raw := codec.dumps(p.obj);
        line := raw;
        if |raw| > limits.text {
          var name, ok := Spill(codec.digest(raw), ".json", raw, p);
          if !ok { return; }
          line := codec.dumps(map["sidecar" := Text(name)]);
        }
      }
      WriteLine(Encode(line + "\n"), p.written, p.kept);
    }

    /** None stands for the exception that a log which does not decode raises. */
    method ReadResolved() returns (records: Option<seq<Obj>>)
      ensures records == Read(codec, View().disk)
    {
      var text := Decode(log);
      if text.None? { return None; }
      var rows := Rows(text.value);
      var found: seq<Obj> := [];
      for i := 0 to |rows|
        invariant found == ResolveAll(codec, files, Records(codec, rows[..i]))
      {
        assert rows[..i + 1][..i] == rows[..i];
        var rec := codec.loads(rows[i]);
        if rec.Some? { found := found + [Resolve(codec, files, rec.value)]; }
      }
      assert rows[..|rows|] == rows;
      records := Some(found);
    }
  }

  // ---- Text mode ----

  lemma {:induction false} UniversalHasNoCr(s: string)
    ensures '\r' !in Universal(s)
  {
    if s != [] { UniversalHasNoCr(s[1..]); }
  }

  lemma {:induction false} UniversalKeeps(s: string)
    requires '\r' !in s
    ensures Universal(s) == s
  {
    if s != [] { UniversalKeeps(s[1..]); }
  }

  /** Reading a sidecar in text mode gives back its content exactly if that has no carriage return. */
  lemma UniversalIff(s: string)
    ensures Universal(s) == s <==> '\r' !in s
  {
    UniversalHasNoCr(s);
    if '\r' !in s { UniversalKeeps(s); }
  }

  // ---- Rows ----

  lemma SplitSnoc(log: string, ch: char)
    ensures SplitLog(log + [ch]) == if ch == '\n' then Split(SplitLog(log).ended + [SplitLog(log).last], [])
                                    else Split(SplitLog(log).ended, SplitLog(log).last + [ch])
  {
    assert (log + [ch])[..|log|] == log;
  }

  lemma {:induction false} SplitExtend(log: string, text: string)
    requires '\n' !in text
    ensures SplitLog(log + text) == Split(SplitLog(log).ended, SplitLog(log).last + text)
  {
    hide SplitLog;
    if text == [] {
      assert log + text == log && SplitLog(log).last + text == SplitLog(log).last;
    } else {
      var front, ch := text[..|text| - 1], text[|text| - 1];
      SplitExtend(log, front);
      SplitSnoc(log + front, ch);
      assert (log + front) + [ch] == log + text;
      assert SplitLog(log).last + text == (SplitLog(log).last + front) + [ch];
    }
  }

  lemma RecordsSnoc(c: Codec, rows: seq<string>, row: string)
    ensures Records(c, rows + [row])
         == if c.loads(row).Some? then Records(c, rows) + [c.loads(row).value] else Records(c, rows)
  {
    assert (rows + [row])[..|rows|] == rows;
  }

  lemma {:induction false} RecordsPrefix(c: Codec, rows: seq<string>, k: nat)
    requires k <= |rows|
    ensures Records(c, rows[..k]) <= Records(c, rows)
  {
    if k == |rows| {
      assert rows[..k] == rows;
    } else {
      assert rows[..|rows| - 1][..k] == rows[..k];
      RecordsPrefix(c, rows[..|rows| - 1], k);
    }
  }

  // ---- What survives ----

  datatype Saved = Saved(obj: Obj, name: string)

  /** What the log holds, with what is still pending: the appends that a reader finds on ended lines, with the names
      of their sidecars, and the whole text; `torn` when a character has been lost in part. */
  datatype Trail = Trail(saved: seq<Saved>, text: string, torn: bool) {
    /** What no line break has ended. */
    function Tail(): string { SplitLog(text).last }
  }

  /** How many records a reader finds on ended lines. */
  function Found(c: Codec, text: string): nat { |Records(c, SplitLog(text).ended)| }

  /** A line is kept if it starts on a fresh row; behind an unended line it is lost with it. */
  function FollowAppend(c: Codec, l: Limits, st: Store, t: Trail, p: Put): Trail {
    if t.torn || Dropped(c, l, st.disk.files, p) then t
    else
      var line, q := LineText(c, l, st.disk.files, p), |st.pending|;
      if p.kept || p.written >= q + |Encode(line)| then
        Trail(if t.Tail() == [] then t.saved + [Saved(p.obj, PutName(c, l, st.disk.files, p).0)] else t.saved,
              t.text + line, false)
      else if p.written < q then t
      else if Inside(line, p.written - q) then t.(torn := true)
      else t.(text := t.text + line[..Chars(line, p.written - q)])
  }

  /** The text is cut where the old writer stopped. */
  function FollowReopen(c: Codec, st: Store, t: Trail, flushed: nat): Trail {
    if t.torn || flushed >= |st.pending| then t
    else if Inside(t.text, |st.disk.log| + flushed) then t.(torn := true)
    else
      var text := t.text[..Chars(t.text, |st.disk.log| + flushed)];
      Trail(if Found(c, text) < |t.saved| then t.saved[..Found(c, text)] else t.saved, text, false)
  }

  function Follow(c: Codec, l: Limits, st: Store, t: Trail, e: Event): Trail {
    match e
    case Append(p) => FollowAppend(c, l, st, t, p)
    case Reopen(flushed) => FollowReopen(c, st, t, flushed)
  }

  function TrailOf(c: Codec, l: Limits, events: seq<Event>): Trail {
    if events == [] then Trail([], [], false)
    else
      var front := events[..|events| - 1];
      Follow(c, l, Run(c, l, front), TrailOf(c, l, front), events[|events| - 1])
  }

  function Lines(c: Codec, l: Limits, saved: seq<Saved>): seq<Obj> {
    seq(|saved|, i requires 0 <= i < |saved| => LineFor(c, l, saved[i].obj, saved[i].name))
  }

  predicate Opens(row: string) { row != [] ==> row[0] == '{' }

  /** The text holds the saved lines, other rows that do not parse, and the tail; every row is empty or opens a brace. */
  predicate TextOk(c: Codec, l: Limits, text: string, saved: seq<Saved>) {
    && (forall row <- Rows(text) :: Opens(row))
    && Records(c, SplitLog(text).ended) == Lines(c, l, saved)
  }

  /** The log ends a character early at some place, and a new one begins there. */
  predicate TornAt(st: Store, text: string, ch: char, k: nat) {
    var head := Encode(text) + if k < Width(ch) then EncodeChar(ch)[..k] else [];
    && 0 < k < Width(ch)
    && head <= st.disk.log
    && var more := (st.disk.log + st.pending)[|head|..]; more == [] || !IsRest(more[0])
  }

  ghost predicate Follows(c: Codec, l: Limits, st: Store, t: Trail) {
    if t.torn then exists text, ch, k :: TornAt(st, text, ch, k)
    else
      && st.disk.log + st.pending == Encode(t.text)
      && TextOk(c, l, t.text, t.saved)
      && (st.pending != [] ==> t.Tail() == [])
  }

  // ---- One event on the text ----

  lemma DumpsFacts(c: Codec, o: Obj)
    requires IsJson(c)
    ensures c.loads(c.dumps(o)) == Some(o) && c.loads([]) == None
    ensures |c.dumps(o)| >= 2 && c.dumps(o)[0] == '{' && '\n' !in c.dumps(o) && '\r' !in c.dumps(o)
  {}

  lemma Glued(c: Codec, t: string, o: Obj)
    requires IsJson(c) && t != [] && t[0] == '{'
    ensures c.loads(t + c.dumps(o)) == None
  {}

  lemma TextCut(c: Codec, l: Limits, text: string, saved: seq<Saved>, more: string)
    requires TextOk(c, l, text, saved) && Opens(more) && '\n' !in more
    ensures TextOk(c, l, text + more, saved) && SplitLog(text + more).last == SplitLog(text).last + more
  {
    hide Records, Lines, SplitLog;
    SplitExtend(text, more);
    var a, b := SplitLog(text), SplitLog(text + more);
    forall row | row in Rows(text + more) ensures Opens(row) {
      if row in b.ended { assert row in Rows(text); } else { assert a.last in Rows(text); }
    }
  }

  lemma LinesSnoc(c: Codec, l: Limits, saved: seq<Saved>, s: Saved)
    ensures Lines(c, l, saved + [s]) == Lines(c, l, saved) + [LineFor(c, l, s.obj, s.name)]
  {}

  lemma TextWhole(c: Codec, l: Limits, text: string, saved: seq<Saved>, o: Obj, name: string)
    requires IsJson(c) && TextOk(c, l, text, saved)
    ensures var line := c.dumps(LineFor(c, l, o, name)) + "\n";
            && TextOk(c, l, text + line, if SplitLog(text).last == [] then saved + [Saved(o, name)] else saved)
            && SplitLog(text + line).last == []
  {
    LinesSnoc(c, l, saved, Saved(o, name));
    hide IsJson, SplitLog, Records, Lines, LineFor;
    var line := LineFor(c, l, o, name);
    var body, last := c.dumps(line), SplitLog(text).last;
    DumpsFacts(c, line);
    assert last in Rows(text);
    if last != [] { Glued(c, last, line); }
    SplitExtend(text, body);
    SplitSnoc(text + body, '\n');
    RecordsSnoc(c, SplitLog(text).ended, last + body);
    assert last == [] ==> last + body == body;
    assert text + (body + "\n") == (text + body) + ['\n'];
    forall row | row in Rows(text + (body + "\n")) ensures Opens(row) {
      if row in SplitLog(text).ended { assert row in Rows(text); }
    }
  }

  /** A shorter text has fewer ended rows, and its last row begins the next one. */
  lemma {:induction false} SplitPrefix(text: string, k: nat)
    requires k <= |text|
    ensures var a, b := SplitLog(text[..k]), SplitLog(text);
            && a.ended <= b.ended && |a.ended| < |Rows(text)| && a.last <= Rows(text)[|a.ended|]
  {
    if k == |text| {
      assert text[..k] == text;
    } else {
      var front := text[..|text| - 1];
      assert front[..k] == text[..k];
      SplitPrefix(front, k);
      var a, f := SplitLog(text[..k]), SplitLog(front);
      assert Rows(text)[|a.ended|] == Rows(front)[|a.ended|]
          || Rows(text)[|a.ended|] == Rows(front)[|a.ended|] + [text[|text| - 1]];
    }
  }

  /** Cutting a text off keeps a beginning of its records. */
  lemma TextShorter(c: Codec, l: Limits, text: string, saved: seq<Saved>, k: nat)
    requires TextOk(c, l, text, saved) && k <= |text|
    ensures var m := Found(c, text[..k]); m <= |saved| && TextOk(c, l, text[..k], saved[..m])
  {
    var a, b := SplitLog(text[..k]), SplitLog(text);
    SplitPrefix(text, k);
    hide SplitLog, Records;
    RecordsPrefix(c, b.ended, |a.ended|);
    assert b.ended[..|a.ended|] == a.ended;
    var m := Found(c, text[..k]);
    assert Lines(c, l, saved)[..m] == Lines(c, l, saved[..m]);
    forall row | row in Rows(text[..k]) ensures Opens(row) {
      if row in a.ended {
        var i :| 0 <= i < |a.ended| && a.ended[i] == row;
        assert Rows(text)[i] == row;
      } else {
        var full := Rows(text)[|a.ended|];
        assert full in Rows(text) && Opens(full);
      }
    }
  }

  // ---- One event on the bytes ----

  predicate StartsAnew(b: seq<Byte>) { b == [] || !IsRest(b[0]) }

  /** A log that is torn stays torn, whatever is written behind it. */
  lemma TornStays(st: Store, st': Store, line: seq<Byte>, text: string, ch: char, k: nat)
    requires TornAt(st, text, ch, k) && StartsAnew(line)
    requires st.disk.log <= st'.disk.log && st'.disk.log + st'.pending <= st.disk.log + st.pending + line
    ensures TornAt(st', text, ch, k)
  {
    hide Encode, EncodeChar, Width, IsRest;
    var head := Encode(text) + EncodeChar(ch)[..k];
    var v, v' := st.disk.log + st.pending, st'.disk.log + st'.pending;
    var more, more' := v[|head|..], v'[|head|..];
    if more' != [] {
      assert more'[0] == (v + line)[|head|];
      assert more != [] ==> more'[0] == more[0];
      assert more == [] ==> more'[0] == line[0];
    }
  }

  lemma TornIsUnreadable(st: Store, text: string, ch: char, k: nat)
    requires TornAt(st, text, ch, k)
    ensures Decode(st.disk.log) == None
  {
    hide Encode, EncodeChar, Width, IsRest, Decode;
    var head := Encode(text) + EncodeChar(ch)[..k];
    var more := st.disk.log[|head|..];
    assert st.disk.log == head + more;
    assert more != [] ==> more[0] == (st.disk.log + st.pending)[|head|..][0];
    TornNeverDecodes(text, ch, k, more);
  }

  lemma FlushGrows(log: seq<Byte>, pending: seq<Byte>, line: seq<Byte>, written: nat, kept: bool)
    ensures var f := FlushLine(pending, line, written, kept);
            && log <= log + f.out && log + f.out + f.pending <= log + pending + line
            && (kept || written >= |pending| + |line| ==> log + f.out + f.pending == log + pending + line)
            && (!kept && written < |pending| ==> log + f.out + f.pending == log + pending)
            && (!kept && |pending| <= written < |pending| + |line| ==>
                  f.pending == [] && log + f.out == log + pending + line[..written - |pending|])
  {
    var f := FlushLine(pending, line, written, kept);
    var queue := pending + line;
    if written < |queue| {
      assert queue[..written] + queue[written..] == queue;
      if !kept && written < |pending| {
        assert queue[..written] + pending[written..] == pending;
      } else if !kept {
        assert queue[..written] == pending + line[..written - |pending|];
      }
    }
    assert log + f.out + f.pending == log + (f.out + f.pending);
  }

  lemma LineStarts(c: Codec, l: Limits, files: map<string, string>, p: Put)
    requires IsJson(c)
    ensures var line := LineText(c, l, files, p);
            && StartsAnew(Encode(line)) && |line| >= 3 && line[0] == '{' && '\n' !in line[..|line| - 1]
            && line[|line| - 1] == '\n' && line[..|line| - 1] == c.dumps(LineFor(c, l, p.obj, PutName(c, l, files, p).0))
  {
    DumpsFacts(c, LineFor(c, l, p.obj, PutName(c, l, files, p).0));
    hide IsJson, LineFor, PutName;
    var line := LineText(c, l, files, p);
    LeadOf(line[0]);
    assert Encode(line) == EncodeChar(line[0]) + Encode(line[1..]);
    hide EncodeChar;
  }

  lemma AppendTorn(c: Codec, l: Limits, st: Store, t: Trail, p: Put)
    requires IsJson(c) && Follows(c, l, st, t) && t.torn
    ensures Follows(c, l, AppendPut(c, l, st, p), t)
  {
    var st' := AppendPut(c, l, st, p);
    var text, ch, k :| TornAt(st, text, ch, k);
    if !Dropped(c, l, st.disk.files, p) {
      LineStarts(c, l, st.disk.files, p);
      var line := Encode(LineText(c, l, st.disk.files, p));
      hide Encode, LineText, TornAt, Dropped, StartsAnew, Files;
      FlushGrows(st.disk.log, st.pending, line, p.written, p.kept);
      TornStays(st, st', line, text, ch, k);
    }
  }

  /** The line is in the text as a whole: flushed, or kept for the next flush. */
  lemma AppendWhole(c: Codec, l: Limits, st: Store, t: Trail, p: Put)
    requires IsJson(c) && Follows(c, l, st, t) && !t.torn && !Dropped(c, l, st.disk.files, p)
    requires p.kept || p.written >= |st.pending| + |Encode(LineText(c, l, st.disk.files, p))|
    ensures Follows(c, l, AppendPut(c, l, st, p), FollowAppend(c, l, st, t, p))
  {
    var name := PutName(c, l, st.disk.files, p).0;
    var line := LineText(c, l, st.disk.files, p);
    TextWhole(c, l, t.text, t.saved, p.obj, name);
    FlushGrows(st.disk.log, st.pending, Encode(line), p.written, p.kept);
    EncodeAppend(t.text, line);
    var st', t' := AppendPut(c, l, st, p), FollowAppend(c, l, st, t, p);
    assert t'.text == t.text + line && t'.Tail() == [];
    hide Encode, TextOk, SplitLog, Dropped, Files, IsJson;
    assert Follows(c, l, st', t');
  }

  /** A line that does not fit the buffer and breaks off. */
  lemma AppendBroken(c: Codec, l: Limits, st: Store, t: Trail, p: Put)
    requires IsJson(c) && Follows(c, l, st, t) && !t.torn && !Dropped(c, l, st.disk.files, p)
    requires !p.kept && p.written < |st.pending| + |Encode(LineText(c, l, st.disk.files, p))|
    ensures Follows(c, l, AppendPut(c, l, st, p), FollowAppend(c, l, st, t, p))
  {
    hide Encode, TextOk, SplitLog, Dropped, Files, IsJson, Chars, Inside, EncodeChar, Width, LineText;
    var line := LineText(c, l, st.disk.files, p);
    FlushGrows(st.disk.log, st.pending, Encode(line), p.written, p.kept);
    LineStarts(c, l, st.disk.files, p);
    var st', t' := AppendPut(c, l, st, p), FollowAppend(c, l, st, t, p);
    if p.written >= |st.pending| {
      var k := p.written - |st.pending|;
      var n := Chars(line, k);
      var torn := CutText(line, k);
      var part := line[..n];
      assert st'.pending == [] && st'.disk.log == Encode(t.text) + Encode(line)[..k];
      EncodeAppend(t.text, part);
      if torn > 0 {
        TornHere(st', t.text + part, line[n], torn, Encode(line)[..k], t.text, part);
      } else {
        assert Encode(line)[..k] == Encode(part) + [] == Encode(part);
        assert n < |line| by { WholeIsNotCut(line, k, n); }
        assert '\n' !in part by { assert part == line[..|line| - 1][..n]; }
        assert Opens(part);
        TextCut(c, l, t.text, t.saved, part);
        assert Follows(c, l, st', t');
      }
    }
  }

  lemma WholeIsNotCut(line: string, k: nat, n: nat)
    requires n <= |line| && k < |Encode(line)| && |Encode(line[..n])| == k
    ensures n < |line|
  {
    assert line[..|line|] == line;
  }

  lemma TornHere(st: Store, text: string, ch: char, k: nat, cut: seq<Byte>, before: string, part: string)
    requires 0 < k < Width(ch) && text == before + part && st.pending == []
    requires st.disk.log == Encode(before) + cut && cut == Encode(part) + EncodeChar(ch)[..k]
    ensures exists x, y, z :: TornAt(st, x, y, z)
  {
    EncodeAppend(before, part);
    hide Encode, EncodeChar, Width;
    assert st.disk.log == Encode(text) + EncodeChar(ch)[..k];
    assert st.disk.log + st.pending == st.disk.log;
    assert TornAt(st, text, ch, k);
  }

  lemma ReopenFollows(c: Codec, l: Limits, st: Store, t: Trail, flushed: nat)
    requires Follows(c, l, st, t)
    ensures Follows(c, l, ReopenLog(st, flushed), FollowReopen(c, st, t, flushed))
  {
    assert Encode([]) == [];
    hide Encode, TextOk, SplitLog, Chars, Inside, EncodeChar, Width, IsRest;
    var st', t' := ReopenLog(st, flushed), FollowReopen(c, st, t, flushed);
    var v := st.disk.log + st.pending;
    if t.torn {
      var text, ch, k :| TornAt(st, text, ch, k);
      hide TornAt;
      TornStays(st, st', [], text, ch, k);
    } else if flushed < |st.pending| {
      var k := |st.disk.log| + flushed;
      assert st'.disk.log == v[..k] == Encode(t.text)[..k];
      var n := Chars(t.text, k);
      var torn := CutText(t.text, k);
      if torn > 0 {
        assert [] + t.text[..n] == t.text[..n];
        TornHere(st', t.text[..n], t.text[n], torn, Encode(t.text)[..k], [], t.text[..n]);
      } else {
        assert Encode(t.text)[..k] == Encode(t.text[..n]) + [] == Encode(t.text[..n]);
        TextShorter(c, l, t.text, t.saved, n);
        assert t.saved[..|t.saved|] == t.saved;
        assert st'.disk.log + [] == st'.disk.log;
      }
    } else {
      assert st'.disk.log + [] == v;
    }
  }

  lemma {:induction false} RunFollows(c: Codec, l: Limits, events: seq<Event>)
    requires IsJson(c)
    ensures Follows(c, l, Run(c, l, events), TrailOf(c, l, events))
  {
    if events == [] {
      assert Lines(c, l, []) == [];
      assert Rows([]) == [[]];
    } else {
      var front, e := events[..|events| - 1], events[|events| - 1];
      RunFollows(c, l, front);
      var st, t := Run(c, l, front), TrailOf(c, l, front);
      hide Follows, ReopenLog, FollowReopen, IsJson;
      match e
      case Reopen(flushed) => ReopenFollows(c, l, st, t, flushed);
      case Append(p) =>
        if t.torn { AppendTorn(c, l, st, t, p); }
        else if !Dropped(c, l, st.disk.files, p) {
          if p.kept || p.written >= |st.pending| + |Encode(LineText(c, l, st.disk.files, p))| { AppendWhole(c, l, st, t, p); }
          else { AppendBroken(c, l, st, t, p); }
        }
    }
  }

  // ---- Sidecars ----

  predicate Extends(a: map<string, string>, b: map<string, string>) { forall n <- a :: n in b && b[n] == a[n] }

  lemma EventExtends(c: Codec, l: Limits, st: Store, e: Event)
    ensures Extends(st.disk.files, Next(c, l, st, e).disk.files)
  {}

  /** A published sidecar keeps its content for good, whatever is appended, fails or crashes afterwards. */
  lemma {:induction false} SidecarsAreWriteOnce(c: Codec, l: Limits, events: seq<Event>, k: nat)
    requires k <= |events|
    ensures Extends(Run(c, l, events[..k]).disk.files, Run(c, l, events).disk.files)
  {
    if k == |events| {
      assert events[..k] == events;
    } else {
      var front := events[..|events| - 1];
      assert front[..k] == events[..k];
      SidecarsAreWriteOnce(c, l, front, k);
      EventExtends(c, l, Run(c, l, front), events[|events| - 1]);
      hide Next;
    }
  }

  predicate Reserved(o: Obj) { "sidecar" in o || "result_path" in o }

  /** Nothing goes wrong with the sidecar: it is not lost, and a random name is new. */
  predicate Lucky(c: Codec, l: Limits, files: map<string, string>, p: Put) {
    Spills(c, l, p.obj) && PutName(c, l, files, p).1 ==> p.publication != Lost && PutName(c, l, files, p).0 !in files
  }

  predicate AllLucky(c: Codec, l: Limits, events: seq<Event>) {
    events == []
    || (var front, e := events[..|events| - 1], events[|events| - 1];
        AllLucky(c, l, front) && (e.Append? ==> Lucky(c, l, Run(c, l, front).disk.files, e.put) && !Reserved(e.put.obj)))
  }

  /** The sidecar of a saved line is there, complete, with the payload of its object. */
  predicate Backed(c: Codec, l: Limits, files: map<string, string>, s: Saved) {
    && !Reserved(s.obj)
    && (Spills(c, l, s.obj) ==> s.name in files && files[s.name] == Payload(c, l, s.obj))
  }

  /** A line is backed exactly if its sidecar has been published, or its name already holds the same payload. */
  lemma BackedIff(c: Codec, l: Limits, files: map<string, string>, p: Put)
    requires !Dropped(c, l, files, p) && !Reserved(p.obj)
    ensures var (name, isNew) := PutName(c, l, files, p);
            Backed(c, l, Files(c, l, files, p), Saved(p.obj, name))
            <==> (Spills(c, l, p.obj) && isNew ==>
                    if name in files then files[name] == Payload(c, l, p.obj) else p.publication == Published)
  {}

  lemma AppendBacks(c: Codec, l: Limits, files: map<string, string>, p: Put)
    requires Lucky(c, l, files, p) && !Dropped(c, l, files, p) && !Reserved(p.obj)
    ensures Backed(c, l, Files(c, l, files, p), Saved(p.obj, PutName(c, l, files, p).0))
  {
    BackedIff(c, l, files, p);
  }

  lemma StillBacked(c: Codec, l: Limits, a: map<string, string>, b: map<string, string>, saved: seq<Saved>)
    requires Extends(a, b) && forall s <- saved :: Backed(c, l, a, s)
    ensures forall s <- saved :: Backed(c, l, b, s)
  {
    hide Payload, Spills;
  }

  /** At every moment, crashes in the middle of an append included, each ended line that parses refers only to
      a sidecar that has been published before it, completely. */
  lemma {:induction false} LinesAreBacked(c: Codec, l: Limits, events: seq<Event>)
    requires AllLucky(c, l, events)
    ensures forall s <- TrailOf(c, l, events).saved :: Backed(c, l, Run(c, l, events).disk.files, s)
  {
    if events != [] {
      var front, e := events[..|events| - 1], events[|events| - 1];
      LinesAreBacked(c, l, front);
      var st := Run(c, l, front);
      EventExtends(c, l, st, e);
      if e.Append? && !Dropped(c, l, st.disk.files, e.put) { AppendBacks(c, l, st.disk.files, e.put); }
      hide Payload, Spills, Dropped, PutName, Lucky, Backed, FlushLine, Inside, Chars, LineText, Encode, SplitLog;
      StillBacked(c, l, st.disk.files, Next(c, l, st, e).disk.files, TrailOf(c, l, front).saved);
    }
  }

  /** What a reader gets for an object. */
  function Restored(c: Codec, l: Limits, s: Saved): Obj
  {
    if BigTool(c, l, s.obj)
    then LineFor(c, l, s.obj, s.name)["content" := Text(Universal(ContentText(c, s.obj)))]
    else s.obj
  }

  lemma ResolveRestores(c: Codec, l: Limits, files: map<string, string>, s: Saved)
    requires IsJson(c) && Backed(c, l, files, s)
    ensures Resolve(c, files, LineFor(c, l, s.obj, s.name)) == Restored(c, l, s)
  {
    if BigText(c, l, s.obj) {
      assert '\r' !in c.dumps(s.obj);
      UniversalKeeps(c.dumps(s.obj));
    }
  }

  function RestoredAll(c: Codec, l: Limits, saved: seq<Saved>): seq<Obj> {
    seq(|saved|, i requires 0 <= i < |saved| => Restored(c, l, saved[i]))
  }

  /** What the unended last row adds to a read. */
  function TailRecord(c: Codec, files: map<string, string>, tail: string): seq<Obj> {
    if c.loads(tail).Some? then [Resolve(c, files, c.loads(tail).value)] else []
  }

  lemma ResolveAllSplit(c: Codec, files: map<string, string>, a: seq<Obj>, b: seq<Obj>)
    ensures ResolveAll(c, files, a + b) == ResolveAll(c, files, a) + ResolveAll(c, files, b)
  {}

  lemma RestoreLines(c: Codec, l: Limits, files: map<string, string>, saved: seq<Saved>)
    requires IsJson(c) && forall s <- saved :: Backed(c, l, files, s)
    ensures ResolveAll(c, files, Lines(c, l, saved)) == RestoredAll(c, l, saved)
  {
    forall i | 0 <= i < |saved|
      ensures Resolve(c, files, LineFor(c, l, saved[i].obj, saved[i].name)) == Restored(c, l, saved[i])
    {
      ResolveRestores(c, l, files, saved[i]);
    }
    hide Resolve, Restored, LineFor, IsJson, Backed;
  }

  // ---- Reading after any run ----

  lemma TextReads(c: Codec, l: Limits, d: Disk, text: string, saved: seq<Saved>)
    requires IsJson(c) && TextOk(c, l, text, saved) && d.log == Encode(text)
    requires forall s <- saved :: Backed(c, l, d.files, s)
    ensures Read(c, d) == Some(RestoredAll(c, l, saved) + TailRecord(c, d.files, SplitLog(text).last))
  {
    hide Resolve, Restored, LineFor, SplitLog, Records, Lines, IsJson, Backed, RestoredAll, Encode, Decode;
    DecodeEncode(text);
    RestoreLines(c, l, d.files, saved);
    var ended, last := SplitLog(text).ended, SplitLog(text).last;
    RecordsSnoc(c, ended, last);
    var recs, more := Lines(c, l, saved), if c.loads(last).Some? then [c.loads(last).value] else [];
    assert Records(c, ended + [last]) == recs + more by { assert recs + [] == recs; }
    ResolveAllSplit(c, d.files, recs, more);
    assert ResolveAll(c, d.files, more) == TailRecord(c, d.files, last);
    hide *;
  }

  /** The trail of a run that ends now, with its writer: what the log holds without what is pending. */
  function Now(c: Codec, l: Limits, events: seq<Event>): Trail { TrailOf(c, l, events + [Reopen(0)]) }

  lemma NowFollows(c: Codec, l: Limits, events: seq<Event>)
    requires IsJson(c)
    ensures Follows(c, l, Store(Run(c, l, events).disk, []), Now(c, l, events))
    ensures Run(c, l, events).pending == [] ==> Now(c, l, events) == TrailOf(c, l, events)
    ensures AllLucky(c, l, events) ==> AllLucky(c, l, events + [Reopen(0)])
  {
    assert (events + [Reopen(0)])[..|events|] == events;
    RunFollows(c, l, events + [Reopen(0)]);
    var st := Run(c, l, events);
    assert ReopenLog(st, 0) == Store(st.disk, []) by { assert st.disk.log + [] == st.disk.log && st.pending[..0] == []; }
    assert Run(c, l, events + [Reopen(0)]) == ReopenLog(st, 0);
    hide Follows, Run, TrailOf, FollowReopen, AllLucky, ReopenLog;
  }

  /** Reading succeeds at any moment exactly if no cut has fallen inside a character: neither where an earlier
      writer stopped, nor where the log ends now. */
  lemma ReadableIff(c: Codec, l: Limits, events: seq<Event>)
    requires IsJson(c)
    ensures Read(c, Run(c, l, events).disk).Some? <==> !Now(c, l, events).torn
    ensures !Now(c, l, events).torn <==>
              && !TrailOf(c, l, events).torn
              && (Run(c, l, events).pending != [] ==> !Inside(TrailOf(c, l, events).text, |Run(c, l, events).disk.log|))
  {
    NowFollows(c, l, events);
    var st, n := Store(Run(c, l, events).disk, []), Now(c, l, events);
    assert (events + [Reopen(0)])[..|events|] == events;
    hide Encode, Decode, TextOk, TornAt, Run, Inside, Chars, SplitLog, IsJson;
    if n.torn {
      var text, ch, k :| TornAt(st, text, ch, k);
      TornIsUnreadable(st, text, ch, k);
    } else {
      assert st.disk.log + [] == st.disk.log;
      DecodeEncode(n.text);
    }
  }

  /** Reading after any run, each append of which may break off anywhere, fails exactly on a torn character; else
      it gives the saved records in order, restored, for any thresholds and any digest, followed at most by what
      an unended last line holds. */
  lemma ReadsBack(c: Codec, l: Limits, events: seq<Event>)
    requires IsJson(c) && AllLucky(c, l, events)
    ensures var d, t := Run(c, l, events).disk, Now(c, l, events);
            Read(c, d) == if t.torn then None else Some(RestoredAll(c, l, t.saved) + TailRecord(c, d.files, t.Tail()))
  {
    NowFollows(c, l, events);
    ReadableIff(c, l, events);
    LinesAreBacked(c, l, events + [Reopen(0)]);
    assert (events + [Reopen(0)])[..|events|] == events;
    var st, t := Run(c, l, events), Now(c, l, events);
    assert Run(c, l, events + [Reopen(0)]).disk.files == st.disk.files;
    hide Run, Read, TextOk, AllLucky, IsJson, Backed, Encode, Restored, RestoredAll, Now;
    if !t.torn {
      assert st.disk.log + [] == st.disk.log;
      TextReads(c, l, st.disk, t.text, t.saved);
    }
  }

  lemma {:induction false} StaysTorn(c: Codec, l: Limits, events: seq<Event>, later: seq<Event>)
    requires TrailOf(c, l, events).torn
    ensures TrailOf(c, l, events + later).torn
  {
    if later == [] {
      assert events + later == events;
    } else {
      var front := later[..|later| - 1];
      StaysTorn(c, l, events, front);
      assert (events + later)[..|events + later| - 1] == events + front;
      hide Run, Inside, Chars, Dropped, LineText;
    }
  }

  /** A log that has lost part of a character is never readable again. */
  lemma TornForever(c: Codec, l: Limits, events: seq<Event>, later: seq<Event>)
    requires IsJson(c) && TrailOf(c, l, events).torn
    ensures Read(c, Run(c, l, events + later).disk) == None
  {
    hide Run, Read, Inside, TrailOf;
    StaysTorn(c, l, events, later);
    ReadableIff(c, l, events + later);
  }
}
