/** Checkpoints of the agent loop: numbered slots of one thread and, in slot 0, a pointer to the latest.

    A run first reads the pointer and then writes one slot after another, the pointer after each.  Any read or
    write may fail, and the process may stop between the two writes.
 */
module Checkpoints {
  import opened Text

  // ---- Thread ids ----

  predicate Legal(c: char) { '0' <= c <= '9' || 'A' <= c <= 'Z' || 'a' <= c <= 'z' || c == '_' || c == '.' || c == '-' }

  predicate Clean(s: string) { s != [] && forall c <- s :: Legal(c) }

  /** Every run of other characters becomes one underscore. */
  function Squeeze(s: string): string {
    if s == [] then []
    else if Legal(s[|s| - 1]) then Squeeze(s[..|s| - 1]) + [s[|s| - 1]]
    else if |s| > 1 && !Legal(s[|s| - 2]) then Squeeze(s[..|s| - 1])
    else Squeeze(s[..|s| - 1]) + "_"
  }

  function Segment(raw: string, default: string): string {
    var s := Squeeze(Strip(raw));
    if s == [] then default else s
  }

  lemma {:induction false} SqueezeLegal(s: string)
    ensures forall c <- Squeeze(s) :: Legal(c)
  {
    if s != [] { SqueezeLegal(s[..|s| - 1]); }
  }

  lemma SegmentIsClean(raw: string, default: string)
    requires Clean(default)
    ensures Clean(Segment(raw, default))
  {
    SqueezeLegal(Strip(raw));
  }

  datatype Thread = Thread(workflow: string, tenant: string) {
    predicate Valid() { Clean(workflow) && Clean(tenant) }

    /** The key of slot n. */
    function Key(n: nat): string { workflow + ":" + Decimal(n) + ":" + tenant }
  }

  /** A key reads as the workflow, the number of the slot and the tenant, each behind a colon. */
  lemma KeyReads(t: Thread, n: nat) returns (number: string)
    ensures t.Key(n) == t.workflow + ":" + number + ":" + t.tenant && Value(number) == n && forall c <- number :: c in DIGITS
  {
    number := Decimal(n);
    DecimalReads(n);
  }

  lemma SplitAtColon(a: string, x: string, b: string, y: string)
    requires ':' !in a && ':' !in b && a + ":" + x == b + ":" + y
    ensures a == b && x == y
  {
    var s, t := a + ":" + x, b + ":" + y;
    assert s[|a|] == ':' && t[|b|] == ':';
    assert forall i | 0 <= i < |a| :: s[i] == a[i] && a[i] in a;
    assert forall i | 0 <= i < |b| :: t[i] == b[i] && b[i] in b;
    assert |a| == |b|;
    assert a == s[..|a|] && b == t[..|a|];
    assert x == s[|a| + 1..] && y == t[|a| + 1..];
  }

  /** Two slots have the same key only if they are the same slot of the same thread. */
  lemma KeysDiffer(t: Thread, m: nat, u: Thread, n: nat)
    requires t.Valid() && u.Valid() && t.Key(m) == u.Key(n)
    ensures t == u && m == n
  {
    assert ':' !in DIGITS;
    var x, y := Decimal(m) + ":" + t.tenant, Decimal(n) + ":" + u.tenant;
    assert t.workflow + ":" + x == t.Key(m) && u.workflow + ":" + y == u.Key(n);
    SplitAtColon(t.workflow, x, u.workflow, y);
    SplitAtColon(Decimal(m), t.tenant, Decimal(n), u.tenant);
    DecimalInjective(m, n);
  }

  lemma SqueezeSnoc(s: string, c: char)
    ensures Squeeze(s + [c])
         == if Legal(c) then Squeeze(s) + [c]
            else if s != [] && !Legal(s[|s| - 1]) then Squeeze(s) else Squeeze(s) + "_"
  {
    hide Legal, Squeeze;
    var t := s + [c];
    SqueezeStep(t);
    assert t[..|t| - 1] == s && t[|t| - 1] == c && (s != [] ==> t[|t| - 2] == s[|s| - 1]);
  }

  lemma SqueezeStep(s: string)
    requires s != []
    ensures Squeeze(s)
         == if Legal(s[|s| - 1]) then Squeeze(s[..|s| - 1]) + [s[|s| - 1]]
            else if |s| > 1 && !Legal(s[|s| - 2]) then Squeeze(s[..|s| - 1]) else Squeeze(s[..|s| - 1]) + "_"
  {}

  /** Letters, digits, underscores, dots and dashes stay, and every run of other characters becomes one underscore. */
  lemma {:induction false} SqueezeMeans(p: string, x: string)
    requires x != "" && (forall c <- x :: !Legal(c)) && (p == "" || Legal(p[|p| - 1]))
    ensures Squeeze(p + x) == Squeeze(p) + "_"
  {
    hide Legal, Squeeze;
    var y, c := x[..|x| - 1], x[|x| - 1];
    assert c in x && p + x == (p + y) + [c];
    SqueezeSnoc(p + y, c);
    if y == "" {
      assert p + y == p;
    } else {
      assert forall d <- y :: d in x;
      assert (p + y)[|p + y| - 1] == y[|y| - 1] && y[|y| - 1] in y;
      SqueezeMeans(p, y);
    }
  }

  /** A name without ink gives way to the default, any other keeps what squeezing leaves of its ink. */
  lemma SegmentMeans(a: string, t: string, b: string, default: string)
    requires Blank(a) && Blank(b) && (t == "" || (!IsSpace(t[0]) && !IsSpace(t[|t| - 1])))
    ensures Segment(a + t + b, default) == if t == "" then default else Squeeze(t)
  {
    StripMeans(a, t, b);
    hide Strip;
    SqueezeNone(t);
  }

  lemma {:induction false} SqueezeNone(s: string)
    ensures Squeeze(s) == "" <==> s == ""
  {
    if s != "" { SqueezeNone(s[..|s| - 1]); }
  }

  /** Which of the other characters it is makes no difference. */
  lemma {:induction false} SqueezeIgnores(p: string, i: char, j: char, q: string)
    requires !Legal(i) && !Legal(j)
    ensures Squeeze(p + [i] + q) == Squeeze(p + [j] + q)
  {
    hide Legal, Squeeze;
    if q == [] {
      assert p + [i] + q == p + [i] && p + [j] + q == p + [j];
      SqueezeSnoc(p, i);
      SqueezeSnoc(p, j);
    } else {
      var r, c := q[..|q| - 1], q[|q| - 1];
      SqueezeIgnores(p, i, j, r);
      assert p + [i] + q == (p + [i] + r) + [c] && p + [j] + q == (p + [j] + r) + [c];
      SqueezeSnoc(p + [i] + r, c);
      SqueezeSnoc(p + [j] + r, c);
    }
  }

  /** What str.strip leaves of either side of a character that it does not reach. */
  function TrimLeft(s: string): string { if s == [] || !IsSpace(s[0]) then s else TrimLeft(s[1..]) }

  function TrimRight(s: string): string { if s == [] || !IsSpace(s[|s| - 1]) then s else TrimRight(s[..|s| - 1]) }

  /** The character has ink on both sides, or is ink itself. */
  predicate Inner(p: string, i: char, q: string) { (!Blank(p) || !IsSpace(i)) && (!Blank(q) || !IsSpace(i)) }

  lemma {:induction false} StripAround(p: string, i: char, q: string)
    requires Inner(p, i, q)
    ensures Strip(p + [i] + q) == TrimLeft(p) + [i] + TrimRight(q)
    decreases |p| + |q|
  {
    hide IsSpace;
    var s := p + [i] + q;
    if p != [] && IsSpace(p[0]) {
      assert p == [p[0]] + p[1..];
      StripAround(p[1..], i, q);
      assert s[1..] == p[1..] + [i] + q;
    } else if q != [] && IsSpace(q[|q| - 1]) {
      assert q == q[..|q| - 1] + [q[|q| - 1]];
      StripAround(p, i, q[..|q| - 1]);
      assert s[..|s| - 1] == p + [i] + q[..|q| - 1];
      assert !IsSpace(s[0]);
    } else {
      assert !IsSpace(s[0]) && !IsSpace(s[|s| - 1]);
    }
  }

  /** Names that differ only in a character that is not allowed share their slots, wherever it stands. */
  lemma IllegalCharactersCollide(p: string, i: char, j: char, q: string, default: string)
    requires !Legal(i) && !Legal(j) && Inner(p, i, q) && Inner(p, j, q)
    ensures Segment(p + [i] + q, default) == Segment(p + [j] + q, default)
  {
    StripAround(p, i, q);
    StripAround(p, j, q);
    SqueezeIgnores(TrimLeft(p), i, j, TrimRight(q));
    hide Strip, Squeeze;
  }

  lemma {:induction false} SqueezeKeeps(s: string)
    requires forall c <- s :: Legal(c)
    ensures Squeeze(s) == s
  {
    if s != [] {
      assert s[|s| - 1] in s && forall c <- s[..|s| - 1] :: c in s;
      SqueezeKeeps(s[..|s| - 1]);
      assert s == s[..|s| - 1] + [s[|s| - 1]];
    }
  }

  /** A clean name is its own segment. */
  lemma CleanIsKept(s: string, default: string)
    requires Clean(s)
    ensures Segment(s, default) == s
  {
    assert s[0] in s && s[|s| - 1] in s;
    SqueezeKeeps(s);
    hide Squeeze;
  }

  /** The thread that a run with some names writes to. */
  function ThreadOf(workflow: string, tenant: string): Thread { Thread(Segment(workflow, "agentloop"), Segment(tenant, "default")) }

  /** Different clean names never share a slot. */
  lemma CleanNamesDiffer(w: string, t: string, m: nat, w': string, t': string, n: nat)
    requires Clean(w) && Clean(t) && Clean(w') && Clean(t')
    requires ThreadOf(w, t).Key(m) == ThreadOf(w', t').Key(n)
    ensures w == w' && t == t' && m == n
  {
    CleanIsKept(w, "agentloop");
    CleanIsKept(t, "default");
    CleanIsKept(w', "agentloop");
    CleanIsKept(t', "default");
    hide Segment, Clean;
    KeysDiffer(Thread(w, t), m, Thread(w', t'), n);
  }

  // ---- The store ----

  datatype Slot = Data(version: nat, payload: string) | Pointer(latest: nat)

  type Store = map<string, Slot>

  function Version(s: Slot): nat { if s.Data? then s.version else s.latest }

  /** A saver may ignore a write that is older than what it holds. */
  function Write(st: Store, key: string, s: Slot, guarded: bool): Store {
    if guarded && key in st && Version(s) < Version(st[key]) then st else st[key := s]
  }

  /** What a read of the pointer yields; a failed read, or none, means zero. */
  function Resumed(st: Store, t: Thread, ok: bool): nat {
    if ok && t.Key(0) in st && st[t.Key(0)].Pointer? then st[t.Key(0)].latest else 0
  }

  datatype Event =
    | Resume(ok: bool)
    | Put(payload: string, data: bool, pointer: bool)  // which of the two writes succeed
    | Crash(payload: string)                           // the data is written, then the process stops
    | Foreign(thread: Thread, slot: nat, what: Slot)   // another thread in the same store

  datatype State = State(store: Store, num: nat, errors: nat)

  function Next(t: Thread, guarded: bool, s: State, e: Event): State {
    match e
    case Resume(ok) => State(s.store, Resumed(s.store, t, ok), if ok then s.errors else s.errors + 1)
    case Put(payload, data, pointer) =>
      var n := s.num + 1;
      if !data then State(s.store, n, s.errors + 1)
      else
        var st := Write(s.store, t.Key(n), Data(n, payload), guarded);
        if !pointer then State(st, n, s.errors + 1)
        else State(Write(st, t.Key(0), Pointer(n), guarded), n, s.errors)
    case Crash(payload) => s.(store := Write(s.store, t.Key(s.num + 1), Data(s.num + 1, payload), guarded))
    case Foreign(u, n, what) => if u == t || !u.Valid() then s else s.(store := s.store[u.Key(n) := what])
  }

  function Exec(t: Thread, guarded: bool, s: State, events: seq<Event>): State {
    if events == [] then s
    else Next(t, guarded, Exec(t, guarded, s, events[..|events| - 1]), events[|events| - 1])
  }

  /** The saver as the loop uses it. */
  class Checkpointer {
    const thread: Thread
    const guarded: bool
    var store: Store
    var num: nat
    var errors: nat

    ghost function View(): State
      reads this
    {
      State(store, num, errors)
    }

    constructor (t: Thread, g: bool, st: Store)
      ensures thread == t && guarded == g && View() == State(st, 0, 0)
    {
      thread, guarded := t, g;
      store, num, errors := st, 0, 0;
    }

    method Save(key: string, s: Slot, ok: bool)
      modifies `store
      ensures store == if ok then Write(old(store), key, s, guarded) else old(store)
    {
      if ok && !(guarded && key in store && Version(s) < Version(store[key])) { store := store[key := s]; }
    }

    method ResumeSeq(ok: bool)
      modifies this
      ensures View() == Next(thread, guarded, old(View()), Resume(ok))
    {
      num := 0;
      if !ok {
        errors := errors + 1;
        return;
      }
      var key := thread.Key(0);
      if key in store && store[key].Pointer? { num := store[key].latest; }
    }

    method PutNext(payload: string, dataOk: bool, pointerOk: bool)
      modifies this
      ensures View() == Next(thread, guarded, old(View()), Put(payload, dataOk, pointerOk))
    {
      num := num + 1;
      Save(thread.Key(num), Data(num, payload), dataOk);
      if !dataOk {
        errors := errors + 1;
        return;
      }
      Save(thread.Key(0), Pointer(num), pointerOk);
      if !pointerOk { errors := errors + 1; }
    }
  }

  // ---- Nothing is overwritten ----

  /** Reads of the pointer and writes of the pointer succeed, and no crash falls between the two writes. */
  predicate Safe(e: Event) { (e.Resume? ==> e.ok) && (e.Put? && e.data ==> e.pointer) && !e.Crash? }

  predicate AllSafe(events: seq<Event>) { forall e <- events :: Safe(e) }

  /** Slot 0 is the pointer and the others are data; it holds the largest of their numbers, and the run is not
      behind it. */
  ghost predicate Inv(t: Thread, s: State) {
    && (t.Key(0) in s.store ==> s.store[t.Key(0)].Pointer?)
    && (forall n: nat | n > 0 && t.Key(n) in s.store :: s.store[t.Key(n)].Data? && n <= Resumed(s.store, t, true))
    && (Resumed(s.store, t, true) > 0 ==> t.Key(Resumed(s.store, t, true)) in s.store)
    && Resumed(s.store, t, true) <= s.num
  }

  /** Slots that are stored stay as they are, and the pointer does not go back. */
  ghost predicate Kept(t: Thread, s: State, s': State) {
    && (forall n: nat | n > 0 && t.Key(n) in s.store :: t.Key(n) in s'.store && s'.store[t.Key(n)] == s.store[t.Key(n)])
    && Resumed(s.store, t, true) <= Resumed(s'.store, t, true)
  }

  lemma OwnKey(t: Thread, m: nat)
    requires t.Valid()
    ensures forall n: nat :: t.Key(n) == t.Key(m) ==> n == m
  {
    forall n: nat ensures t.Key(n) == t.Key(m) ==> n == m { if t.Key(n) == t.Key(m) { KeysDiffer(t, n, t, m); } }
  }

  lemma StepIsSafe(t: Thread, guarded: bool, s: State, e: Event)
    requires t.Valid() && Inv(t, s) && Safe(e)
    ensures Inv(t, Next(t, guarded, s, e)) && Kept(t, s, Next(t, guarded, s, e))
  {
    hide *;
    match e
    case Put(payload, data, pointer) => PutIsSafe(t, guarded, s, e);
    case Foreign(u, k, what) => ForeignIsSafe(t, guarded, s, e);
    case _ => RestIsSafe(t, guarded, s, e);
  }

  lemma PutIsSafe(t: Thread, guarded: bool, s: State, e: Event)
    requires t.Valid() && Inv(t, s) && Safe(e) && e.Put?
    ensures Inv(t, Next(t, guarded, s, e)) && Kept(t, s, Next(t, guarded, s, e))
  {
    var m := s.num + 1;
    OwnKey(t, m);
    OwnKey(t, 0);
  }

  lemma ForeignIsSafe(t: Thread, guarded: bool, s: State, e: Event)
    requires t.Valid() && Inv(t, s) && Safe(e) && e.Foreign?
    ensures Inv(t, Next(t, guarded, s, e)) && Kept(t, s, Next(t, guarded, s, e))
  {
    var (u, k) := (e.thread, e.slot);
    if u != t && u.Valid() {
      forall n: nat ensures t.Key(n) != u.Key(k) { if t.Key(n) == u.Key(k) { KeysDiffer(t, n, u, k); } }
    }
  }

  lemma RestIsSafe(t: Thread, guarded: bool, s: State, e: Event)
    requires t.Valid() && Inv(t, s) && Safe(e) && !e.Put? && !e.Foreign?
    ensures Inv(t, Next(t, guarded, s, e)) && Kept(t, s, Next(t, guarded, s, e))
  {}

  lemma {:induction false} ExecIsSafe(t: Thread, guarded: bool, s: State, events: seq<Event>)
    requires t.Valid() && Inv(t, s) && AllSafe(events)
    ensures Inv(t, Exec(t, guarded, s, events)) && Kept(t, s, Exec(t, guarded, s, events))
  {
    if events != [] {
      var front := events[..|events| - 1];
      ExecIsSafe(t, guarded, s, front);
      StepIsSafe(t, guarded, Exec(t, guarded, s, front), events[|events| - 1]);
    }
  }

  /** Over any number of runs and restarts, data writes failing as they may, with other threads in the same
      store: no stored slot ever changes, slot 0 holds only the pointer, the pointer never decreases, and it names
      the largest stored slot. */
  lemma HistoryIsKept(t: Thread, guarded: bool, num0: nat, events: seq<Event>, k: nat)
    requires t.Valid() && AllSafe(events) && k <= |events|
    ensures var before, after := Exec(t, guarded, State(map[], num0, 0), events[..k]), Exec(t, guarded, State(map[], num0, 0), events);
            Kept(t, before, after) && Inv(t, after)
  {
    var s := State(map[], num0, 0);
    ExecIsSafe(t, guarded, s, events[..k]);
    ExecSplit(t, guarded, s, events, k);
    ExecIsSafe(t, guarded, Exec(t, guarded, s, events[..k]), events[k..]);
  }

  lemma {:induction false} ExecSplit(t: Thread, guarded: bool, s: State, events: seq<Event>, k: nat)
    requires k <= |events|
    ensures Exec(t, guarded, s, events) == Exec(t, guarded, Exec(t, guarded, s, events[..k]), events[k..])
  {
    if k == |events| {
      assert events[..k] == events;
    } else {
      var front := events[..|events| - 1];
      assert front[..k] == events[..k] && events[k..][..|events| - 1 - k] == front[k..];
      ExecSplit(t, guarded, s, front, k);
    }
  }

  // ---- When history is overwritten ----

  /** Writing the next slot replaces one that is there. */
  predicate Overwrites(t: Thread, s: State) { t.Key(s.num + 1) in s.store }

  /** After one write on a kept history and a restart, the next write replaces a stored slot exactly if the data
      was written and the pointer was not: because writing it failed, or the process stopped in between. */
  lemma RestartOverwritesIff(t: Thread, guarded: bool, s: State, e: Event)
    requires t.Valid() && Inv(t, s) && s.num == Resumed(s.store, t, true) && (e.Put? || e.Crash?)
    ensures Overwrites(t, Next(t, guarded, Next(t, guarded, s, e), Resume(true)))
            <==> e.Crash? || (e.data && !e.pointer)
  {
    var m := s.num + 1;
    OwnKey(t, m);
    OwnKey(t, m + 1);
    assert t.Key(0) != t.Key(m) && t.Key(0) != t.Key(m + 1) && t.Key(m) != t.Key(m + 1);
  }

  function Puts(payloads: seq<string>): seq<Event> { seq(|payloads|, i requires 0 <= i < |payloads| => Put(payloads[i], true, true)) }

  /** Data slots carry their own number as version. */
  ghost predicate Numbered(t: Thread, s: State) {
    forall n: nat | n > 0 && t.Key(n) in s.store :: s.store[t.Key(n)].Data? && s.store[t.Key(n)].version == n
  }

  lemma PutRewrites(t: Thread, guarded: bool, s: State, payload: string)
    requires t.Valid() && Numbered(t, s)
    ensures var m, s' := s.num + 1, Next(t, guarded, s, Put(payload, true, true));
            && s'.num == m && Numbered(t, s') && t.Key(m) in s'.store && s'.store[t.Key(m)] == Data(m, payload)
            && forall n: nat | 0 < n != m && t.Key(n) in s.store :: t.Key(n) in s'.store && s'.store[t.Key(n)] == s.store[t.Key(n)]
  {
    var m := s.num + 1;
    OwnKey(t, m);
    OwnKey(t, 0);
    hide Thread.Key, Thread.Valid;
  }

  predicate Holds(t: Thread, s: State, payloads: seq<string>) {
    && s.num == |payloads|
    && forall k | 0 < k <= |payloads| :: t.Key(k) in s.store && s.store[t.Key(k)] == Data(k, payloads[k - 1])
  }

  /** A run whose read of the pointer fails rewrites the history from slot 1 on, slot by slot, even in a store that
      ignores older versions. */
  lemma {:induction false} FailedReadRewrites(t: Thread, guarded: bool, s: State, payloads: seq<string>)
    requires t.Valid() && Numbered(t, s)
    ensures var s' := Exec(t, guarded, Next(t, guarded, s, Resume(false)), Puts(payloads));
            Numbered(t, s') && Holds(t, s', payloads)
  {
    hide Next, Numbered, Thread.Key, Thread.Valid;
    var s0 := Next(t, guarded, s, Resume(false));
    FailedReadStarts(t, guarded, s);
    if payloads == [] {
      assert Exec(t, guarded, s0, Puts([])) == s0;
    } else {
      var front, m := payloads[..|payloads| - 1], |payloads|;
      FailedReadRewrites(t, guarded, s, front);
      assert Puts(payloads)[..m - 1] == Puts(front);
      var before, after := Exec(t, guarded, s0, Puts(front)), Exec(t, guarded, s0, Puts(payloads));
      assert after == Next(t, guarded, before, Put(payloads[m - 1], true, true));
      PutRewrites(t, guarded, before, payloads[m - 1]);
      hide Exec, Puts;
      assert Numbered(t, after) && Holds(t, after, payloads);
    }
  }

  lemma FailedReadStarts(t: Thread, guarded: bool, s: State)
    requires Numbered(t, s)
    ensures Numbered(t, Next(t, guarded, s, Resume(false))) && Next(t, guarded, s, Resume(false)).num == 0
  {}

  // ---- Over whole runs ----

  /** What a run has written, told from its events alone: where it counts from, the largest slot whose data was
      written, the slot named by the pointer, and what was written to each slot last. */
  datatype Tally = Tally(num: nat, top: nat, pointed: nat, slots: map<nat, string>)

  function Max(a: nat, b: nat): nat { if a < b then b else a }

  function Count(guarded: bool, y: Tally, e: Event): Tally {
    match e
    case Resume(ok) => y.(num := if ok then y.pointed else 0)
    case Put(payload, data, pointer) =>
      var n := y.num + 1;
      Tally(n, if data then Max(y.top, n) else y.top,
            if data && pointer && !(guarded && n < y.pointed) then n else y.pointed,
            if data then y.slots[n := payload] else y.slots)
    case Crash(payload) => y.(top := Max(y.top, y.num + 1), slots := y.slots[y.num + 1 := payload])
    case Foreign(_, _, _) => y
  }

  function TallyOf(guarded: bool, events: seq<Event>): Tally {
    if events == [] then Tally(0, 0, 0, map[])
    else Count(guarded, TallyOf(guarded, events[..|events| - 1]), events[|events| - 1])
  }

  /** The store holds what was written to each slot last, nothing beyond the top, and the pointer where the tally has
      it. */
  ghost predicate Tallied(t: Thread, s: State, y: Tally) {
    && s.num == y.num && Resumed(s.store, t, true) == y.pointed <= y.top
    && (t.Key(0) in s.store ==> s.store[t.Key(0)].Pointer?)
    && (y.top > 0 ==> t.Key(y.top) in s.store)
    && (y.pointed > 0 ==> t.Key(y.pointed) in s.store)
    && (forall n: nat | n > 0 && t.Key(n) in s.store :: n <= y.top)
    && (forall n: nat | n > 0 :: t.Key(n) in s.store <==> n in y.slots)
    && (forall n: nat | n > 0 && t.Key(n) in s.store :: s.store[t.Key(n)] == Data(n, y.slots[n]))
  }

  lemma TallyData(t: Thread, guarded: bool, s: State, y: Tally, payload: string, num: nat, errors: nat)
    requires t.Valid() && Tallied(t, s, y)
    ensures var m := s.num + 1;
            var st := Write(s.store, t.Key(m), Data(m, payload), guarded);
            Tallied(t, State(st, num, errors), Tally(num, Max(y.top, m), y.pointed, y.slots[m := payload])) && t.Key(m) in st
  {
    OwnKey(t, s.num + 1);
    hide Thread.Key, Thread.Valid;
  }

  lemma TallyPointer(t: Thread, guarded: bool, s: State, y: Tally)
    requires t.Valid() && Tallied(t, s, y) && 0 < y.num <= y.top && t.Key(y.num) in s.store
    ensures Tallied(t, s.(store := Write(s.store, t.Key(0), Pointer(y.num), guarded)),
                    y.(pointed := if guarded && y.num < y.pointed then y.pointed else y.num))
  {
    OwnKey(t, 0);
    hide Thread.Key, Thread.Valid;
  }

  lemma TallyPut(t: Thread, guarded: bool, s: State, y: Tally, e: Event)
    requires t.Valid() && Tallied(t, s, y) && (e.Put? || e.Crash?)
    ensures Tallied(t, Next(t, guarded, s, e), Count(guarded, y, e))
  {
    assert s.num == y.num;
    var m, s' := s.num + 1, Next(t, guarded, s, e);
    if e.Crash? {
      hide Tallied, Thread.Key, Write;
      TallyData(t, guarded, s, y, e.payload, s.num, s.errors);
    } else if e.data {
      var st := Write(s.store, t.Key(m), Data(m, e.payload), guarded);
      hide Tallied, Thread.Key, Write;
      TallyData(t, guarded, s, y, e.payload, m, s'.errors);
      if e.pointer { TallyPointer(t, guarded, State(st, m, s'.errors), Tally(m, Max(y.top, m), y.pointed, y.slots[m := e.payload])); }
    } else {
      hide Tallied, Thread.Key, Write;
      TallyNothing(t, s, y, m, s'.errors);
    }
  }

  lemma TallyNothing(t: Thread, s: State, y: Tally, num: nat, errors: nat)
    requires Tallied(t, s, y)
    ensures Tallied(t, State(s.store, num, errors), y.(num := num))
  {
    hide Thread.Key;
  }

  lemma TallyForeign(t: Thread, guarded: bool, s: State, y: Tally, e: Event)
    requires t.Valid() && Tallied(t, s, y) && e.Foreign?
    ensures Tallied(t, Next(t, guarded, s, e), y)
  {
    var (u, k) := (e.thread, e.slot);
    if u != t && u.Valid() {
      forall n: nat ensures t.Key(n) != u.Key(k) { if t.Key(n) == u.Key(k) { KeysDiffer(t, n, u, k); } }
      hide Thread.Key;
    }
  }

  lemma {:induction false} RunIsTallied(t: Thread, guarded: bool, events: seq<Event>)
    requires t.Valid()
    ensures Tallied(t, Exec(t, guarded, State(map[], 0, 0), events), TallyOf(guarded, events))
  {
    if events != [] {
      var front, e := events[..|events| - 1], events[|events| - 1];
      RunIsTallied(t, guarded, front);
      var s, y := Exec(t, guarded, State(map[], 0, 0), front), TallyOf(guarded, front);
      hide Thread.Key, Thread.Valid;
      match e
      case Resume(_) =>
      case Foreign(_, _, _) => TallyForeign(t, guarded, s, y, e);
      case _ => TallyPut(t, guarded, s, y, e);
    }
  }

  /** Some number of complete checkpoints after a restart leads to one that replaces a stored slot. */
  ghost predicate WillOverwrite(t: Thread, guarded: bool, s: State) {
    exists payloads: seq<string> :: Overwrites(t, Exec(t, guarded, Next(t, guarded, s, Resume(true)), Puts(payloads)))
  }

  lemma {:induction false} PutsCount(t: Thread, guarded: bool, s: State, y: Tally, payloads: seq<string>) returns (z: Tally)
    requires t.Valid() && Tallied(t, s, y) && y.num == y.pointed
    ensures Tallied(t, Exec(t, guarded, s, Puts(payloads)), z)
    ensures z.num == z.pointed == y.num + |payloads| && z.top == Max(y.top, y.num + |payloads|)
  {
    hide Tallied, Next, Thread.Valid;
    if payloads == [] {
      assert Exec(t, guarded, s, Puts([])) == s;
      assert y.pointed <= y.top by { TalliedBounds(t, s, y); }
      z := y;
    } else {
      var front, m := payloads[..|payloads| - 1], |payloads|;
      var x := PutsCount(t, guarded, s, y, front);
      assert Puts(payloads)[..m - 1] == Puts(front);
      var before := Exec(t, guarded, s, Puts(front));
      z := Count(guarded, x, Put(payloads[m - 1], true, true));
      TallyPut(t, guarded, before, x, Put(payloads[m - 1], true, true));
    }
  }

  lemma TalliedBounds(t: Thread, s: State, y: Tally)
    requires Tallied(t, s, y)
    ensures s.num == y.num && y.pointed <= y.top
    ensures y.top > 0 ==> t.Key(y.top) in s.store
    ensures forall n: nat | n > 0 && t.Key(n) in s.store :: n <= y.top
  {}

  lemma ResumeTallied(t: Thread, guarded: bool, s: State, y: Tally)
    requires Tallied(t, s, y)
    ensures Tallied(t, Next(t, guarded, s, Resume(true)), y.(num := y.pointed))
  {}

  /** After any run, failed reads, failed writes and crashes included, a restart goes on to replace a stored slot
      exactly if data was written beyond the slot named by the pointer. */
  lemma RunOverwritesIff(t: Thread, guarded: bool, events: seq<Event>)
    requires t.Valid()
    ensures var y := TallyOf(guarded, events);
            WillOverwrite(t, guarded, Exec(t, guarded, State(map[], 0, 0), events)) <==> y.top > y.pointed
  {
    hide Tallied, Next, TallyOf, Thread.Key, Thread.Valid;
    var s, y := Exec(t, guarded, State(map[], 0, 0), events), TallyOf(guarded, events);
    var r := Next(t, guarded, s, Resume(true));
    RunIsTallied(t, guarded, events);
    TalliedBounds(t, s, y);
    ResumeTallied(t, guarded, s, y);
    hide Exec;
    if y.top > y.pointed {
      var payloads := seq(y.top - y.pointed - 1, _ => "");
      var z := PutsCount(t, guarded, r, y.(num := y.pointed), payloads);
      TalliedBounds(t, Exec(t, guarded, r, Puts(payloads)), z);
      assert Overwrites(t, Exec(t, guarded, r, Puts(payloads)));
    } else {
      forall payloads: seq<string> ensures !Overwrites(t, Exec(t, guarded, r, Puts(payloads))) {
        var z := PutsCount(t, guarded, r, y.(num := y.pointed), payloads);
        TalliedBounds(t, Exec(t, guarded, r, Puts(payloads)), z);
      }
    }
  }

  /** Otherwise nothing is lost as long as no further fault happens, whatever writes fail and whoever restarts. */
  lemma EvenTallyIsSafe(t: Thread, guarded: bool, events: seq<Event>, later: seq<Event>)
    requires t.Valid() && TallyOf(guarded, events).top == TallyOf(guarded, events).pointed && AllSafe(later)
    ensures var r := Next(t, guarded, Exec(t, guarded, State(map[], 0, 0), events), Resume(true));
            Inv(t, r) && Kept(t, r, Exec(t, guarded, r, later))
  {
    RunIsTallied(t, guarded, events);
    var s := Exec(t, guarded, State(map[], 0, 0), events);
    assert Inv(t, Next(t, guarded, s, Resume(true))) by { hide Exec, TallyOf, Thread.Key, Thread.Valid; }
    hide *;
    ExecIsSafe(t, guarded, Next(t, guarded, s, Resume(true)), later);
  }

  // ---- Failures are visible ----

  function Faults(e: Event): nat {
    match e
    case Resume(ok) => if ok then 0 else 1
    case Put(_, data, pointer) => if data && pointer then 0 else 1
    case _ => 0
  }

  function TotalFaults(events: seq<Event>): nat {
    if events == [] then 0 else TotalFaults(events[..|events| - 1]) + Faults(events[|events| - 1])
  }

  /** Every failed read and every checkpoint that is not completely written is counted. */
  lemma {:induction false} ErrorsAreCounted(t: Thread, guarded: bool, s: State, events: seq<Event>)
    ensures Exec(t, guarded, s, events).errors == s.errors + TotalFaults(events)
  {
    if events != [] { ErrorsAreCounted(t, guarded, s, events[..|events| - 1]); }
  }
}
