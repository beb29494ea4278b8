/** What comes back of the records that are appended to the trace store, told from their contents. */
module TraceContents {
  import opened TraceStore
  import opened TraceCrashes
  import opened Wrappers

  // ---- Text mode ----

  lemma {:induction false} UniversalPrefix(a: string, s: string)
    requires '\r' !in a
    ensures Universal(a + s) == a + Universal(s)
  {
    if a == "" {
      assert a + s == s;
    } else {
      assert a[0] in a && forall c <- a[1..] :: c in a;
      UniversalPrefix(a[1..], s);
      assert (a + s)[1..] == a[1..] + s;
    }
  }

  lemma UniversalBreaks(b: string)
    ensures Universal("\r\n" + b) == "\n" + Universal(b)
    ensures (b == "" || b[0] != '\n') ==> Universal("\r" + b) == "\n" + Universal(b)
  {
    assert ("\r\n" + b)[1..] == "\n" + b && ("\n" + b)[1..] == b && ("\r" + b)[1..] == b;
  }

  /** Each line ending becomes one line feed, and nothing else changes. */
  lemma UniversalMeans(a: string, b: string)
    requires '\r' !in a
    ensures Universal(a) == a
    ensures Universal(a + ("\r\n" + b)) == a + ("\n" + Universal(b))
    ensures (b == "" || b[0] != '\n') ==> Universal(a + ("\r" + b)) == a + ("\n" + Universal(b))
  {
    assert Universal("") == "" && a + "" == a;
    hide Universal;
    UniversalPrefix(a, "");
    UniversalPrefix(a, "\r\n" + b);
    UniversalPrefix(a, "\r" + b);
    UniversalBreaks(b);
  }

  // ---- Records ----

  /** The record of a tool result with this text, spilled and put back: the text is in it, in text mode, with its
      beginning and the name of its file, and nothing else has changed. */
  predicate PutBack(l: Limits, o: Obj, text: string, rec: Obj) {
    && "content" in rec && rec["content"] == Value.Text(Universal(text))
    && "preview" in rec && rec["preview"] == Value.Text(if |text| <= l.preview then text else text[..l.preview])
    && rec.Keys == o.Keys + {"result_path", "preview"}
    && forall key <- o :: key in {"content", "preview", "result_path"} || rec[key] == o[key]
  }

  predicate IsTool(o: Obj) { "type" in o && o["type"] == Value.Text("tool_result") && "content" in o }

  /** A tool result whose content is longer than the threshold comes back as its text, or as its serialised form if
      it is no text; every other record comes back as it was. */
  predicate Returned(c: Codec, l: Limits, o: Obj, rec: Obj) {
    if IsTool(o) && o["content"].Text? && |o["content"].s| > l.tool then PutBack(l, o, o["content"].s, rec)
    else if IsTool(o) && o["content"].Other? && |c.show(o["content"])| > l.tool then PutBack(l, o, c.show(o["content"]), rec)
    else rec == o
  }

  lemma RestoredReturns(c: Codec, l: Limits, s: Saved)
    ensures Returned(c, l, s.obj, Restored(c, l, s))
  {}

  /** Over every run of a living writer that has got everything out: each record comes back, in order, with its own
      content. */
  lemma ContentsComeBack(c: Codec, l: Limits, events: seq<Event>)
    requires IsJson(c) && AllLucky(c, l, events) && AllLive(c, l, events) && Run(c, l, events).pending == []
    ensures var r := Read(c, Run(c, l, events).disk);
            && r.Some? && |r.value| == |events|
            && forall i | 0 <= i < |events| :: events[i].Append? && Returned(c, l, events[i].put.obj, r.value[i])
  {
    hide *;
    LiveRunsSaveAll(c, l, events);
    LiveReads(c, l, events);
    AllReturn(c, l, events, TrailOf(c, l, events).saved);
  }

  lemma AllReturn(c: Codec, l: Limits, events: seq<Event>, saved: seq<Saved>)
    requires SavesAll(events, saved)
    ensures var r := RestoredAll(c, l, saved);
            |r| == |events| && forall i | 0 <= i < |events| :: events[i].Append? && Returned(c, l, events[i].put.obj, r[i])
  {
    hide Restored, Returned;
    forall i | 0 <= i < |events|
      ensures RestoredAll(c, l, saved)[i] == Restored(c, l, saved[i]) && Returned(c, l, saved[i].obj, Restored(c, l, saved[i]))
    {
      RestoredReturns(c, l, saved[i]);
    }
  }

  /** A reader puts back what the file of a record holds: the object in it, or its text if it is none; a record without
      a file, or one that has its content already, is left as it is. */
  lemma ResolveMeans(c: Codec, files: map<string, string>, rec: Obj)
    ensures "sidecar" in rec && rec["sidecar"].Text? && rec["sidecar"].s in files ==>
              var text := Universal(files[rec["sidecar"].s]);
              Resolve(c, files, rec) == match c.loads(text) case Some(o) => o case None => rec["sidecar_content" := Value.Text(text)]
    ensures "sidecar" !in rec && "result_path" in rec && rec["result_path"].Text? && rec["result_path"].s in files ==>
              Resolve(c, files, rec)
              == if "content" in rec then rec else rec["content" := Value.Text(Universal(files[rec["result_path"].s]))]
    ensures (forall key | key in {"sidecar", "result_path"} && key in rec :: !rec[key].Text? || rec[key].s !in files) ==>
              Resolve(c, files, rec) == rec
  {}

  // ---- Files ----

  /** The file for a text: named by its digest; a different text that holds that name already, or one that cannot be
      read, leads to a name with a suffix; the same text is not written again. */
  predicate Filed(c: Codec, text: string, ext: string, files: map<string, string>, p: Put, after: map<string, string>, name: string) {
    var first := c.digest(text) + ext;
    if first in files && p.readable && files[first] == text then name == first && after == files
    else
      && name == (if first in files then c.digest(text) + "_" + p.suffix + ext else first)
      && after == if p.publication.Published? && name !in files then files[name := text] else files
  }

  /** What an append does to the directory, and to which file its line refers. */
  lemma AppendFiles(c: Codec, l: Limits, files: map<string, string>, p: Put)
    requires p.publication != Raised
    ensures var (o, name, after) := (p.obj, PutName(c, l, files, p).0, Files(c, l, files, p));
            var line := LineFor(c, l, o, name);
            if IsTool(o) && o["content"].Text? && |o["content"].s| > l.tool then
              Filed(c, o["content"].s, ".txt", files, p, after, name) && "result_path" in line && line["result_path"] == Value.Text(name)
            else if IsTool(o) && o["content"].Other? && |c.show(o["content"])| > l.tool then
              Filed(c, c.show(o["content"]), ".txt", files, p, after, name) && "result_path" in line && line["result_path"] == Value.Text(name)
            else if |c.dumps(o)| > l.text then
              Filed(c, c.dumps(o), ".json", files, p, after, name) && line == map["sidecar" := Value.Text(name)]
            else after == files && line == o
  {}

  /** When the temporary file cannot be written, nothing is: no file, and no line. */
  lemma RaisedAppendsNothing(c: Codec, l: Limits, st: Store, p: Put)
    requires p.publication == Raised && Spills(c, l, p.obj) && c.digest(Payload(c, l, p.obj)) + Extension(c, l, p.obj) !in st.disk.files
    ensures AppendPut(c, l, st, p) == st
  {}
}
