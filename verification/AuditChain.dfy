/** Hash-chained audit log: the hash of an entry, the check of a chain, and what the check proves.

    The digest is a parameter `h`.  Nothing is assumed about collisions: the theorems end in
    "or here are two texts with the same digest".
 */
module AuditChain {
  import opened Wrappers

  const HASH_LENGTH: nat := 64
  const GENESIS: string := Zeros(HASH_LENGTH)
  const MAX_VERIFY_LIMIT: nat := 10_000
  const UNBOUNDED_LIMIT: nat := 2_147_483_647

  function Zeros(n: nat): (z: string)
    ensures |z| == n && forall c <- z :: c == '0'
  {
    if n == 0 then "" else "0" + Zeros(n - 1)
  }

  /** A row of the log.  `fields` are the ten hashed columns in their canonical text form, `None` for a
      null; a row written outside the chain has no `entryHash`. */
  datatype Row = Row(id: nat, userId: string, fields: seq<Option<string>>, prevHash: string, entryHash: Option<string>)

  datatype Head = Head(id: nat, hash: string, entries: nat)

  /** Hexadecimal digests of a fixed width. */
  ghost predicate IsDigest(h: string -> string) { forall s :: |h(s)| == HASH_LENGTH }

  function FieldText(f: Option<string>): string { if f.None? then "" else f.value }

  function JoinFields(fs: seq<Option<string>>): string {
    if fs == [] then "" else "|" + FieldText(fs[0]) + JoinFields(fs[1..])
  }

  /** All that the chain knows of a row: its columns joined with bars. */
  function Canonical(row: Row): string { JoinFields(row.fields) }

  function Preimage(prev: string, row: Row): string { prev + Canonical(row) }

  function EntryHash(h: string -> string, prev: string, row: Row): string { h(Preimage(prev, row)) }

  // ---- Chains ----

  /** The digest a next entry has to point back to. */
  function Tip(rows: seq<Row>): string {
    if rows == [] then GENESIS else FieldText(rows[|rows| - 1].entryHash)
  }

  /** Row `i` continues the chain of the rows before it. */
  predicate Continues(h: string -> string, rows: seq<Row>, i: nat)
    requires i < |rows|
  {
    && rows[i].prevHash == Tip(rows[..i])
    && rows[i].entryHash == Some(EntryHash(h, rows[i].prevHash, rows[i]))
  }

  ghost predicate Linked(h: string -> string, rows: seq<Row>) {
    forall i | 0 <= i < |rows| :: Continues(h, rows, i)
  }

  predicate HeadMatches(head: Head, rows: seq<Row>)
    requires rows != []
  {
    head == Head(rows[|rows| - 1].id, Tip(rows), |rows|)
  }

  // ---- The check ----

  datatype Reason = PrevMismatch | HashMismatch | HeadMismatch
  datatype ReasonCode = ScanTruncated | HeadMissing

  datatype Report = Report(ok: bool, entries: nat, headHash: Option<string>, brokenAt: Option<nat>, reason: Option<Reason>,
                           degraded: bool, reasonCode: Option<ReasonCode>)

  function Cap(limit: Option<int>): nat {
    if limit.None? then UNBOUNDED_LIMIT
    else if limit.value < 1 then 1
    else if limit.value > MAX_VERIFY_LIMIT then MAX_VERIFY_LIMIT
    else limit.value
  }

  function Scanned(covered: seq<Row>, limit: Option<int>): seq<Row> {
    if Cap(limit) < |covered| then covered[..Cap(limit)] else covered
  }

  predicate Truncated(covered: seq<Row>, limit: Option<int>) { limit.Some? && |covered| > |Scanned(covered, limit)| }

  /** The condition for `ok`. */
  ghost predicate Accepts(h: string -> string, covered: seq<Row>, limit: Option<int>, head: Option<Head>) {
    var rows := Scanned(covered, limit);
    && Linked(h, rows)
    && !Truncated(covered, limit)
    && (covered != [] ==> head.Some? && HeadMatches(head.value, rows))
  }

  /** `covered` are the tenant's rows with an entry hash, by id; one snapshot together with `head`. */
  method Verify(h: string -> string, covered: seq<Row>, limit: Option<int>, head: Option<Head>) returns (r: Report)
    requires forall row <- covered :: row.entryHash.Some?
    ensures r.ok <==> Accepts(h, covered, limit, head)
    ensures r.reason.Some? && r.reason.value != HeadMismatch ==>
              var rows, k := Scanned(covered, limit), r.entries - 1;
              && 0 <= k < |rows| && r.brokenAt == Some(rows[k].id)
              && Linked(h, rows[..k])
              && (r.reason.value == PrevMismatch <==> rows[k].prevHash != Tip(rows[..k]))
              && (r.reason.value == HashMismatch ==>
                    rows[k].entryHash != Some(EntryHash(h, rows[k].prevHash, rows[k])))
    ensures r.reason == Some(HeadMismatch) ==>
              && Linked(h, Scanned(covered, limit)) && head.Some? && !Truncated(covered, limit) && r.brokenAt == None
    ensures r.reason == None || r.reason == Some(HeadMismatch) ==> r.entries == |Scanned(covered, limit)|
    ensures r.reason == None ==> Linked(h, Scanned(covered, limit))
    // The hash of the last row that holds.
    ensures var rows := Scanned(covered, limit);
            var n := if r.reason.Some? && r.reason.value != HeadMismatch then r.entries - 1 else r.entries;
            && 0 <= n <= |rows|
            && r.headHash == if Tip(rows[..n]) == GENESIS then None else Some(Tip(rows[..n]))
    ensures r.degraded <==> r.reasonCode.Some?
    ensures r.reasonCode == Some(ScanTruncated) <==> r.reason == None && Truncated(covered, limit)
    ensures r.reasonCode == Some(HeadMissing) <==>
              r.reason == None && !Truncated(covered, limit) && covered != [] && head.None?
  {
    var rows := Scanned(covered, limit);
    var prev, entries := GENESIS, 0;
    var brokenAt: Option<nat>, reason: Option<Reason> := None, None;
    while entries < |rows|
      invariant 0 <= entries <= |rows|
      invariant reason == None && brokenAt == None
      invariant prev == Tip(rows[..entries])
      invariant Linked(h, rows[..entries])
    {
      var row := rows[entries];
      entries := entries + 1;
      if row.prevHash != prev {
        brokenAt, reason := Some(row.id), Some(PrevMismatch);
        break;
      }
      var expected := EntryHash(h, prev, row);
      if Some(expected) != row.entryHash {
        brokenAt, reason := Some(row.id), Some(HashMismatch);
        break;
      }
      prev := expected;
      LinkedSnoc(h, rows, entries - 1);
    }
    if reason.Some? { NotLinkedAt(h, rows, entries - 1); }
    assert rows[..|rows|] == rows;
    var truncated := limit.Some? && |covered| > |rows|;
    var degraded, reasonCode, ok := false, None, reason.None?;
    if ok && truncated {
      ok, degraded, reasonCode := false, true, Some(ScanTruncated);
    } else if ok && |covered| > 0 {
      if head.None? {
        ok, degraded, reasonCode := false, true, Some(HeadMissing);
      } else if head.value.entries != entries || head.value.hash != prev || head.value.id != rows[|rows| - 1].id {
        ok, brokenAt, reason := false, None, Some(HeadMismatch);
      }
    }
    r := Report(ok, entries, if prev == GENESIS then None else Some(prev), brokenAt, reason, degraded, reasonCode);
  }

  /** A limit lets the check see the first rows only, at least one and at most 10000 of them; without one it sees all. */
  lemma ScannedMeans(covered: seq<Row>, limit: Option<int>)
    requires |covered| <= 2147483647
    ensures limit == None ==> Scanned(covered, limit) == covered && !Truncated(covered, limit)
    ensures limit != None ==>
              var n := if limit.value < 1 then 1 else if limit.value > 10000 then 10000 else limit.value;
              && Scanned(covered, limit) == (if n < |covered| then covered[..n] else covered)
              && (Truncated(covered, limit) <==> n < |covered|)
  {}

  /** The text that is hashed for a row: the previous digest, and behind it each column with a bar in front. */
  function Hashed(prev: string, fields: seq<Option<string>>): string {
    if fields == [] then prev
    else Hashed(prev, fields[..|fields| - 1]) + "|" + match fields[|fields| - 1] case None => "" case Some(text) => text
  }

  lemma {:induction false} HashedIs(prev: string, fields: seq<Option<string>>)
    ensures Hashed(prev, fields) == prev + JoinFields(fields)
  {
    if fields == [] {
      assert prev + "" == prev;
    } else {
      HashedIs(prev, fields[..|fields| - 1]);
      LastOf(fields);
      hide JoinFields;
      var x, y := JoinFields(fields[..|fields| - 1]), FieldText(fields[|fields| - 1]);
      assert prev + (x + ("|" + y)) == prev + x + "|" + y;
    }
  }

  /** A row names the digest of the one before, the first one 64 zeros, and carries that of its own text. */
  predicate LinksBack(h: string -> string, rows: seq<Row>, i: nat)
    requires i < |rows| && forall row <- rows :: row.entryHash.Some?
  {
    && (if i == 0 then |rows[0].prevHash| == 64 && forall c <- rows[0].prevHash :: c == '0'
        else rows[i].prevHash == rows[i - 1].entryHash.value)
    && rows[i].entryHash == Some(h(Hashed(rows[i].prevHash, rows[i].fields)))
  }

  lemma OnlyZeros(s: string)
    ensures s == GENESIS <==> |s| == 64 && forall c <- s :: c == '0'
  {
    if |s| == 64 && forall c <- s :: c == '0' {
      assert forall i | 0 <= i < 64 :: s[i] in s && GENESIS[i] in GENESIS;
    }
  }

  lemma ContinuesIff(h: string -> string, rows: seq<Row>, i: nat)
    requires i < |rows| && forall row <- rows :: row.entryHash.Some?
    ensures Continues(h, rows, i) <==> LinksBack(h, rows, i)
  {
    HashedIs(rows[i].prevHash, rows[i].fields);
    OnlyZeros(rows[0].prevHash);
    if i > 0 { assert rows[..i][i - 1] == rows[i - 1] && rows[i - 1] in rows; }
    hide Hashed, JoinFields, Zeros;
  }

  /** What the unlimited check accepts: rows linked back to the start, and a head with the id and the digest of the last
      row and their number. */
  lemma AcceptsIff(h: string -> string, rows: seq<Row>, head: Option<Head>)
    requires 0 < |rows| <= 2147483647 && forall row <- rows :: row.entryHash.Some?
    ensures Accepts(h, rows, None, head) <==>
              && (forall i | 0 <= i < |rows| :: LinksBack(h, rows, i))
              && head == Some(Head(rows[|rows| - 1].id, rows[|rows| - 1].entryHash.value, |rows|))
  {
    forall i | 0 <= i < |rows| ensures Continues(h, rows, i) <==> LinksBack(h, rows, i) { ContinuesIff(h, rows, i); }
    assert rows[|rows| - 1] in rows;
    hide Continues, LinksBack;
  }

  lemma LinkedSnoc(h: string -> string, rows: seq<Row>, k: nat)
    requires k < |rows| && Linked(h, rows[..k]) && Continues(h, rows, k)
    ensures Linked(h, rows[..k + 1]) && Tip(rows[..k + 1]) == EntryHash(h, rows[k].prevHash, rows[k])
  {
    var longer := rows[..k + 1];
    forall i | 0 <= i < |longer|
      ensures Continues(h, longer, i)
    {
      assert longer[..i] == rows[..i] && longer[i] == rows[i];
      if i < k { assert Continues(h, rows[..k], i) && rows[..k][..i] == rows[..i]; }
    }
  }

  lemma LinkedPrefix(h: string -> string, rows: seq<Row>, k: nat)
    requires k <= |rows| && Linked(h, rows)
    ensures Linked(h, rows[..k])
  {
    forall i | 0 <= i < k
      ensures Continues(h, rows[..k], i)
    {
      assert Continues(h, rows, i) && rows[..k][..i] == rows[..i];
    }
  }

  lemma NotLinkedAt(h: string -> string, rows: seq<Row>, k: nat)
    requires k < |rows| && !Continues(h, rows, k)
    ensures !Linked(h, rows)
  {}

  // ---- What an accepted table is worth ----

  /** Two different texts, both hashed for position `i` of the two tables, with one digest. */
  predicate CollisionAt(h: string -> string, a: seq<Row>, b: seq<Row>, i: nat)
    requires i < |a| && i < |b|
  {
    var (x, y) := (Preimage(a[i].prevHash, a[i]), Preimage(b[i].prevHash, b[i]));
    x != y && h(x) == h(y)
  }

  predicate Collides(h: string -> string, a: seq<Row>, b: seq<Row>) {
    exists i | 0 <= i < |a| && i < |b| :: CollisionAt(h, a, b, i)
  }

  ghost predicate SameContent(a: seq<Row>, b: seq<Row>) {
    |a| == |b| && forall i | 0 <= i < |a| :: Canonical(a[i]) == Canonical(b[i])
  }

  /** Equal tips pin down the whole history. */
  lemma {:induction false} TipDeterminesContent(h: string -> string, a: seq<Row>, b: seq<Row>)
    requires IsDigest(h) && Linked(h, a) && Linked(h, b) && |a| == |b| && Tip(a) == Tip(b)
    ensures SameContent(a, b) || Collides(h, a, b)
  {
    if a != [] {
      var k := |a| - 1;
      var a', b' := a[..k], b[..k];
      assert Continues(h, a, k) && Continues(h, b, k);
      LinkedPrefix(h, a, k);
      LinkedPrefix(h, b, k);
      TipLength(h, a');
      TipLength(h, b');
      if CollisionAt(h, a, b, k) { return; }
      PrefixesMatch(Tip(a'), Canonical(a[k]), Tip(b'), Canonical(b[k]));
      TipDeterminesContent(h, a', b');
      if Collides(h, a', b') {
        var i :| 0 <= i < k && CollisionAt(h, a', b', i);
        assert CollisionAt(h, a, b, i);
      } else {
        assert forall i | 0 <= i < k :: a'[i] == a[i] && b'[i] == b[i];
      }
    }
  }

  lemma TipLength(h: string -> string, rows: seq<Row>)
    requires IsDigest(h) && Linked(h, rows)
    ensures |Tip(rows)| == HASH_LENGTH
  {
    if rows != [] { assert Continues(h, rows, |rows| - 1); }
  }

  lemma PrefixesMatch(p: string, x: string, q: string, y: string)
    requires |p| == |q| && p + x == q + y
    ensures p == q && x == y
  {
    assert p == (p + x)[..|p|] == (q + y)[..|q|] == q;
    assert x == (p + x)[|p|..] == (q + y)[|q|..] == y;
  }

  /** Two tables that the unlimited check accepts against the same head row hold the same content. */
  lemma SameHeadSameContent(h: string -> string, a: seq<Row>, b: seq<Row>, head: Option<Head>)
    requires IsDigest(h) && 0 < |a| <= UNBOUNDED_LIMIT && 0 < |b| <= UNBOUNDED_LIMIT
    requires Accepts(h, a, None, head) && Accepts(h, b, None, head)
    ensures SameContent(a, b) || Collides(h, a, b)
  {
    TipDeterminesContent(h, a, b);
  }

  /** No edit, insertion, deletion or truncation of what an accepted table says passes the check, as long
      as a covered row remains and nobody has found a collision. */
  lemma TamperingIsDetected(h: string -> string, before: seq<Row>, after: seq<Row>, head: Option<Head>)
    requires IsDigest(h) && 0 < |before| <= UNBOUNDED_LIMIT && 0 < |after| <= UNBOUNDED_LIMIT
    requires Accepts(h, before, None, head)
    requires !SameContent(before, after) && !Collides(h, before, after)
    ensures !Accepts(h, after, None, head)
  {
    if Accepts(h, after, None, head) { SameHeadSameContent(h, before, after, head); }
  }

  /** Cutting the tail off goes unseen exactly when nothing is left: without covered rows the head is not read. */
  lemma CutTailIsDetectedIff(h: string -> string, rows: seq<Row>, head: Option<Head>, k: nat)
    requires 0 < |rows| <= UNBOUNDED_LIMIT && k <= |rows| && Accepts(h, rows, None, head)
    ensures Accepts(h, rows[..k], None, head) <==> k == |rows| || k == 0
  {
    if k == |rows| { assert rows[..k] == rows; }
  }

  lemma ContinuesAlike(h: string -> string, a: seq<Row>, b: seq<Row>, i: nat)
    requires i < |a| == |b| && Continues(h, a, i) && b[i] == a[i].(userId := b[i].userId)
    requires Tip(a[..i]) == Tip(b[..i])
    ensures Continues(h, b, i)
  {
    hide Tip, JoinFields;
  }

  /** The user of a row is outside the hash: changing it leaves an accepted table accepted. */
  lemma UserIsNotCovered(h: string -> string, rows: seq<Row>, head: Option<Head>, k: nat, user: string)
    requires 0 < |rows| <= UNBOUNDED_LIMIT && k < |rows| && Accepts(h, rows, None, head)
    ensures Accepts(h, rows[k := rows[k].(userId := user)], None, head)
  {
    var edited := rows[k := rows[k].(userId := user)];
    forall i | 0 <= i < |rows|
      ensures Continues(h, edited, i)
    {
      assert Continues(h, rows, i);
      assert Tip(edited[..i]) == Tip(rows[..i]);
      hide Continues;
      ContinuesAlike(h, rows, edited, i);
    }
  }

  // ---- When the columns themselves are determined ----

  /** The ten hashed columns begin with timestamp, tenant and action, and end with the detail. */
  const WIDTH: nat := 10
  const TENANT: nat := 1
  const ACTION: nat := 2
  const DETAIL: nat := 9

  predicate SameTexts(a: seq<Option<string>>, b: seq<Option<string>>) {
    |a| == |b| && forall i | 0 <= i < |a| :: FieldText(a[i]) == FieldText(b[i])
  }

  predicate BarFree(fs: seq<Option<string>>) { forall f <- fs :: '|' !in FieldText(f) }

  /** What the table can hold in the rows of a tenant: a timestamp, an action, and a detail that is one of the texts
      `detail`; the columns between action and detail are free. */
  predicate Storable(tenant: string, detail: string -> bool, fs: seq<Option<string>>) {
    && |fs| == WIDTH
    && '|' !in FieldText(fs[0])
    && FieldText(fs[TENANT]) == tenant
    && FieldText(fs[ACTION]) != ""
    && detail(FieldText(fs[DETAIL]))
  }

  /** No text of the kind is left behind a bar in another one. */
  ghost predicate BarsInside(detail: string -> bool) { forall q, y :: detail(q + "|" + y) ==> !detail(y) }

  // ---- JSON is such a kind of text ----

  datatype Scan = Outside | Inside | Escaped

  /** Reads a text to its end, which has to be outside of strings.  Bars and backslashes stand only inside of
      strings, and a bar is never escaped. */
  predicate Quotes(s: string, at: Scan) {
    if s == [] then at.Outside?
    else
      match at
      case Outside => s[0] != '|' && s[0] != '\\' && Quotes(s[1..], if s[0] == '"' then Inside else Outside)
      case Inside => Quotes(s[1..], if s[0] == '"' then Outside else if s[0] == '\\' then Escaped else Inside)
      case Escaped => s[0] != '|' && Quotes(s[1..], Inside)
  }

  /** What is a rest of a string and what follows it is no text of its own. */
  lemma {:induction false} RestIsNoText(y: string)
    ensures !(Quotes(y, Inside) && Quotes(y, Outside))
  {
    if y != [] { RestIsNoText(y[1..]); }
  }

  lemma {:induction false} BehindBar(q: string, y: string, at: Scan)
    requires Quotes(q + "|" + y, at)
    ensures Quotes(y, Inside)
  {
    var s := q + "|" + y;
    if q == [] {
      assert s[1..] == y;
    } else {
      assert s[1..] == q[1..] + "|" + y;
      BehindBar(q[1..], y, match at
                           case Outside => if s[0] == '"' then Inside else Outside
                           case Inside => if s[0] == '"' then Outside else if s[0] == '\\' then Escaped else Inside
                           case Escaped => Inside);
    }
  }

  /** JSON texts have their bars inside of strings, and so has every kind of text that reads like them. */
  lemma JsonHasBarsInside(detail: string -> bool)
    requires forall s :: detail(s) ==> Quotes(s, Outside)
    ensures BarsInside(detail)
  {
    forall q, y | detail(q + "|" + y) ensures !detail(y) {
      BehindBar(q, y, Outside);
      RestIsNoText(y);
    }
  }

  // ---- Reading columns off a joined text ----

  lemma FirstBar(a: string, x: string, b: string, y: string)
    requires '|' !in a && '|' !in b && a + x == b + y
    requires (x != [] ==> x[0] == '|') && (y != [] ==> y[0] == '|')
    ensures a == b && x == y
  {
    var s, t := a + x, b + y;
    assert forall i | 0 <= i < |a| :: s[i] == a[i] && a[i] in a;
    assert forall i | 0 <= i < |b| :: t[i] == b[i] && b[i] in b;
    assert |a| < |s| ==> s[|a|] == '|';
    assert |b| < |t| ==> t[|b|] == '|';
    assert |a| == |b|;
    PrefixesMatch(a, x, b, y);
  }

  lemma JoinStarts(fs: seq<Option<string>>)
    ensures JoinFields(fs) != [] ==> JoinFields(fs)[0] == '|'
  {}

  lemma JoinCons(fs: seq<Option<string>>)
    requires fs != []
    ensures JoinFields(fs) == "|" + (FieldText(fs[0]) + JoinFields(fs[1..]))
  {
    assert "|" + FieldText(fs[0]) + JoinFields(fs[1..]) == "|" + (FieldText(fs[0]) + JoinFields(fs[1..]));
  }

  lemma SameTextsCons(a: seq<Option<string>>, b: seq<Option<string>>)
    requires a != [] && b != [] && FieldText(a[0]) == FieldText(b[0]) && SameTexts(a[1..], b[1..])
    ensures SameTexts(a, b)
  {
    hide FieldText;
    assert forall i | 0 < i < |a| :: a[i] == a[1..][i - 1] && b[i] == b[1..][i - 1];
  }

  /** When the second of two ways to begin a text has a bar, its first part is the other way. */
  lemma PastBar(a: string, x: string, b: string, y: string) returns (p: string)
    requires '|' !in a && '|' in b && a + x == b + y
    requires x != [] ==> x[0] == '|'
    ensures b == a + "|" + p && x == "|" + p + y
  {
    var s, t := a + x, b + y;
    if |b| <= |a| {
      assert forall i | 0 <= i < |b| :: t[i] == b[i] && s[i] == a[i] && a[i] in a;
      assert false;
    }
    assert forall i | 0 <= i < |a| :: s[i] == a[i] && t[i] == b[i];
    assert b[..|a|] == a;
    assert x != [] && s[|a|] == x[0] && t[|a|] == b[|a|];
    p := b[|a| + 1..];
    assert b == a + "|" + p;
    assert b + y == a + ("|" + p + y);
    PrefixesMatch(a, x, a, "|" + p + y);
  }

  lemma Associate(x: string, y: string, z: string)
    ensures x + (y + z) == (x + y) + z
  {}

  lemma JoinOne(f: Option<string>)
    ensures JoinFields([f]) == "|" + FieldText(f)
  {
    assert [f][1..] == [] && JoinFields([]) == "";
    assert "|" + FieldText(f) + "" == "|" + FieldText(f);
  }

  lemma LastOf(fs: seq<Option<string>>)
    requires fs != []
    ensures JoinFields(fs) == JoinFields(fs[..|fs| - 1]) + ("|" + FieldText(fs[|fs| - 1]))
  {
    hide JoinFields, FieldText;
    JoinOne(fs[|fs| - 1]);
    assert fs == fs[..|fs| - 1] + [fs[|fs| - 1]];
    JoinAppend(fs[..|fs| - 1], [fs[|fs| - 1]]);
  }

  /** If text is left over before no fewer columns, the last column swallows it. */
  lemma {:induction false} LastSwallows(a: seq<Option<string>>, p: string, b: seq<Option<string>>) returns (q: string)
    requires 0 < |a| <= |b| && BarFree(a[..|a| - 1]) && JoinFields(a) == "|" + p + JoinFields(b)
    ensures FieldText(a[|a| - 1]) == q + "|" + FieldText(b[|b| - 1])
    decreases |a|
  {
    hide JoinFields, FieldText;
    var x, text := JoinFields(a[1..]), FieldText(a[0]);
    JoinCons(a);
    assert "|" + p + JoinFields(b) == "|" + (p + JoinFields(b));
    PrefixesMatch("|", text + x, "|", p + JoinFields(b));
    if |a| == 1 {
      assert a[1..] == [] && x == "" by { JoinNone(a[1..]); }
      LastOf(b);
      q := p + JoinFields(b[..|b| - 1]);
      assert text + "" == text;
      Associate(p, JoinFields(b[..|b| - 1]), "|" + FieldText(b[|b| - 1]));
    } else {
      assert a[0] in a[..|a| - 1] && a[1..][..|a| - 2] == a[..|a| - 1][1..];
      JoinStarts(a[1..]);
      if '|' in p {
        var rest := PastBar(text, x, p, JoinFields(b));
        q := LastSwallows(a[1..], rest, b);
      } else {
        JoinStarts(b);
        FirstBar(text, x, p, JoinFields(b));
        JoinCons(b);
        assert "|" + (FieldText(b[0]) + JoinFields(b[1..])) == "|" + FieldText(b[0]) + JoinFields(b[1..]);
        q := LastSwallows(a[1..], FieldText(b[0]), b[1..]);
      }
    }
  }

  lemma JoinNone(fs: seq<Option<string>>)
    requires fs == []
    ensures JoinFields(fs) == ""
  {}

  /** Without bars before the detail the columns are the only ones. */
  lemma {:induction false} FreeColumnsAgree(a: seq<Option<string>>, b: seq<Option<string>>, detail: string -> bool)
    requires BarsInside(detail) && 0 < |a| == |b| && BarFree(a[..|a| - 1]) && JoinFields(a) == JoinFields(b)
    requires detail(FieldText(a[|a| - 1])) && detail(FieldText(b[|b| - 1]))
    ensures SameTexts(a, b)
  {
    hide JoinFields, FieldText, SameTexts;
    var x, y := JoinFields(a[1..]), JoinFields(b[1..]);
    var s, t := FieldText(a[0]), FieldText(b[0]);
    JoinCons(a);
    JoinCons(b);
    PrefixesMatch("|", s + x, "|", t + y);
    if |a| == 1 {
      JoinNone(a[1..]);
      JoinNone(b[1..]);
      assert s + "" == s && t + "" == t;
      SameTextsNone(a[1..], b[1..]);
    } else {
      assert a[0] in a[..|a| - 1] && a[1..][..|a| - 2] == a[..|a| - 1][1..];
      JoinStarts(a[1..]);
      if '|' in t {
        var p := PastBar(s, x, t, y);
        var q := LastSwallows(a[1..], p, b[1..]);
        assert false;
      }
      JoinStarts(b[1..]);
      FirstBar(s, x, t, y);
      FreeColumnsAgree(a[1..], b[1..], detail);
    }
    SameTextsCons(a, b);
  }

  lemma SameTextsNone(a: seq<Option<string>>, b: seq<Option<string>>)
    requires a == [] && b == []
    ensures SameTexts(a, b)
  {}

  lemma {:induction false} JoinAppend(a: seq<Option<string>>, b: seq<Option<string>>)
    ensures JoinFields(a + b) == JoinFields(a) + JoinFields(b)
  {
    assert JoinFields([]) == "";
    hide FieldText, JoinFields;
    if a == [] {
      assert a + b == b;
    } else {
      var text, x, y := FieldText(a[0]), JoinFields(a[1..]), JoinFields(b);
      JoinAppend(a[1..], b);
      assert (a + b)[1..] == a[1..] + b;
      JoinCons(a);
      JoinCons(a + b);
      assert "|" + (text + (x + y)) == "|" + (text + x) + y;
    }
  }

  lemma JoinTwo(x: string, y: string)
    ensures JoinFields([Some(x), Some(y)]) == "|" + x + "|" + y
  {
    assert [Some(x), Some(y)][1..] == [Some(y)] && [Some(y)][1..] == [];
    assert JoinFields([Some(y)]) == "|" + y + "";
  }

  lemma JoinIgnoresNull(a: Option<string>, b: Option<string>)
    ensures JoinFields([a, b]) == JoinFields([Some(FieldText(a)), Some(FieldText(b))])
  {
    assert [a, b][1..] == [b] && [b][1..] == [];
    assert [Some(FieldText(a)), Some(FieldText(b))][1..] == [Some(FieldText(b))] && [Some(FieldText(b))][1..] == [];
  }

  /** Text moves from a column to the next one, or back. */
  lemma MoveText(front: seq<Option<string>>, a: Option<string>, b: Option<string>, back: seq<Option<string>>, x: string, y: string)
    requires x + "|" + y == FieldText(a) + "|" + FieldText(b)
    ensures JoinFields(front + [Some(x), Some(y)] + back) == JoinFields(front + [a, b] + back)
  {
    JoinIgnoresNull(a, b);
    JoinTwo(x, y);
    JoinTwo(FieldText(a), FieldText(b));
    hide JoinFields, FieldText;
    assert "|" + x + "|" + y == "|" + (x + "|" + y);
    assert "|" + FieldText(a) + "|" + FieldText(b) == "|" + (FieldText(a) + "|" + FieldText(b));
    JoinAppend(front + [Some(x), Some(y)], back);
    JoinAppend(front + [a, b], back);
    JoinAppend(front, [Some(x), Some(y)]);
    JoinAppend(front, [a, b]);
  }

  /** Text moves from a column to the next one, across its bar. */
  lemma MoveOn(fs: seq<Option<string>>, k: nat, x: string, y: string) returns (gs: seq<Option<string>>)
    requires k + 1 < |fs| && FieldText(fs[k]) == x + "|" + y
    ensures gs == fs[k := Some(x)][k + 1 := Some(y + "|" + FieldText(fs[k + 1]))] && JoinFields(gs) == JoinFields(fs)
  {
    hide JoinFields;
    var r := FieldText(fs[k + 1]);
    gs := fs[..k] + [Some(x), Some(y + "|" + r)] + fs[k + 2..];
    assert x + "|" + (y + "|" + r) == x + "|" + y + "|" + r;
    assert fs[..k] + [fs[k], fs[k + 1]] + fs[k + 2..] == fs;
    MoveText(fs[..k], fs[k], fs[k + 1], fs[k + 2..], x, y + "|" + r);
  }

  /** Text moves from a column to the one before. */
  lemma MoveBack(fs: seq<Option<string>>, k: nat, x: string, y: string) returns (gs: seq<Option<string>>)
    requires 0 < k < |fs| && FieldText(fs[k]) == x + "|" + y
    ensures gs == fs[k - 1 := Some(FieldText(fs[k - 1]) + "|" + x)][k := Some(y)] && JoinFields(gs) == JoinFields(fs)
  {
    hide JoinFields;
    var l := FieldText(fs[k - 1]);
    gs := fs[..k - 1] + [Some(l + "|" + x), Some(y)] + fs[k + 1..];
    assert (l + "|" + x) + "|" + y == l + "|" + (x + "|" + y);
    assert fs[..k - 1] + [fs[k - 1], fs[k]] + fs[k + 1..] == fs;
    MoveText(fs[..k - 1], fs[k - 1], fs[k], fs[k + 1..], l + "|" + x, y);
  }

  /** Where a bar lets text move: anywhere between action and detail, and in the action unless it comes first,
      because an action is not empty. */
  predicate MovableBar(fs: seq<Option<string>>, k: nat, i: nat)
    requires |fs| == WIDTH
  {
    ACTION <= k < DETAIL && i < |FieldText(fs[k])| && FieldText(fs[k])[i] == '|' && (k == ACTION ==> i > 0)
  }

  /** Every such bar gives another row that the table can hold, with the same canonical string. */
  lemma BarsAreAmbiguous(tenant: string, detail: string -> bool, fs: seq<Option<string>>, k: nat, i: nat)
      returns (gs: seq<Option<string>>)
    requires Storable(tenant, detail, fs) && MovableBar(fs, k, i)
    ensures Storable(tenant, detail, gs) && JoinFields(gs) == JoinFields(fs) && !SameTexts(fs, gs)
  {
    hide JoinFields;
    var t := FieldText(fs[k]);
    var x, y := t[..i], t[i + 1..];
    assert t == x + "|" + y && |x| < |t| && |y| < |t|;
    if k + 1 < DETAIL { gs := MoveOn(fs, k, x, y); } else { gs := MoveBack(fs, k, x, y); }
    assert FieldText(gs[k]) != FieldText(fs[k]);
  }

  /** The canonical string leaves only one row of the tenant that the table can hold; null and empty are the same. */
  ghost predicate Determined(tenant: string, detail: string -> bool, fs: seq<Option<string>>) {
    forall gs :: Storable(tenant, detail, gs) && JoinFields(gs) == JoinFields(fs) ==> SameTexts(fs, gs)
  }

  /** No bar in the action behind its first character, and none between action and detail. */
  predicate Plain(fs: seq<Option<string>>)
    requires |fs| == WIDTH && FieldText(fs[ACTION]) != ""
  {
    '|' !in FieldText(fs[ACTION])[1..] && BarFree(fs[ACTION + 1..DETAIL])
  }

  /** Timestamps without bars and one tenant: the columns from the action on join to the same text. */
  lemma FromAction(tenant: string, detail: string -> bool, fs: seq<Option<string>>, gs: seq<Option<string>>)
    requires Storable(tenant, detail, fs) && Storable(tenant, detail, gs) && JoinFields(fs) == JoinFields(gs)
    ensures FieldText(fs[0]) == FieldText(gs[0]) && JoinFields(fs[ACTION..]) == JoinFields(gs[ACTION..])
  {
    hide JoinFields, FieldText;
    assert fs[1..][1..] == fs[ACTION..] && gs[1..][1..] == gs[ACTION..] && fs[1..][0] == fs[TENANT] && gs[1..][0] == gs[TENANT];
    JoinCons(fs);
    JoinCons(gs);
    PrefixesMatch("|", FieldText(fs[0]) + JoinFields(fs[1..]), "|", FieldText(gs[0]) + JoinFields(gs[1..]));
    JoinStarts(fs[1..]);
    JoinStarts(gs[1..]);
    FirstBar(FieldText(fs[0]), JoinFields(fs[1..]), FieldText(gs[0]), JoinFields(gs[1..]));
    JoinCons(fs[1..]);
    JoinCons(gs[1..]);
    PrefixesMatch("|", tenant + JoinFields(fs[ACTION..]), "|", tenant + JoinFields(gs[ACTION..]));
    PrefixesMatch(tenant, JoinFields(fs[ACTION..]), tenant, JoinFields(gs[ACTION..]));
  }

  /** The columns from the action on, less the first character of the action. */
  function Shorn(fs: seq<Option<string>>): seq<Option<string>>
    requires |fs| == WIDTH && FieldText(fs[ACTION]) != ""
  {
    [Some(FieldText(fs[ACTION])[1..])] + fs[ACTION + 1..]
  }

  lemma FirstCharacter(t: string, x: string, u: string, y: string)
    requires t != "" && u != "" && t + x == u + y
    ensures t[0] == u[0] && t[1..] + x == u[1..] + y
  {
    assert (t + x)[0] == t[0] && (u + y)[0] == u[0];
    assert (t + x)[1..] == t[1..] + x && (u + y)[1..] == u[1..] + y;
  }

  lemma ShornAgree(fs: seq<Option<string>>, gs: seq<Option<string>>)
    requires |fs| == WIDTH && FieldText(fs[ACTION]) != "" && |gs| == WIDTH && FieldText(gs[ACTION]) != ""
    requires JoinFields(fs[ACTION..]) == JoinFields(gs[ACTION..])
    ensures FieldText(fs[ACTION])[0] == FieldText(gs[ACTION])[0] && JoinFields(Shorn(fs)) == JoinFields(Shorn(gs))
  {
    var (t, u) := (FieldText(fs[ACTION]), FieldText(gs[ACTION]));
    assert FieldText(Shorn(fs)[0]) == t[1..] && Shorn(fs)[1..] == fs[ACTION + 1..] && fs[ACTION..][1..] == fs[ACTION + 1..];
    assert FieldText(Shorn(gs)[0]) == u[1..] && Shorn(gs)[1..] == gs[ACTION + 1..] && gs[ACTION..][1..] == gs[ACTION + 1..];
    hide JoinFields, FieldText, Shorn;
    JoinCons(fs[ACTION..]);
    JoinCons(gs[ACTION..]);
    JoinCons(Shorn(fs));
    JoinCons(Shorn(gs));
    var (x, y) := (JoinFields(fs[ACTION + 1..]), JoinFields(gs[ACTION + 1..]));
    PrefixesMatch("|", t + x, "|", u + y);
    FirstCharacter(t, x, u, y);
  }

  lemma PlainIsDetermined(tenant: string, detail: string -> bool, fs: seq<Option<string>>, gs: seq<Option<string>>)
    requires BarsInside(detail) && Storable(tenant, detail, fs) && Storable(tenant, detail, gs)
    requires Plain(fs) && JoinFields(fs) == JoinFields(gs)
    ensures SameTexts(fs, gs)
  {
    FromAction(tenant, detail, fs, gs);
    ShornAgree(fs, gs);
    var a, b := Shorn(fs), Shorn(gs);
    assert a[|a| - 1] == fs[DETAIL] && b[|b| - 1] == gs[DETAIL];
    assert a[..|a| - 1] == [a[0]] + fs[ACTION + 1..DETAIL];
    hide JoinFields, BarsInside;
    FreeColumnsAgree(a, b, detail);
    forall i | 0 <= i < WIDTH ensures FieldText(fs[i]) == FieldText(gs[i]) {
      if i > ACTION {
        assert fs[i] == a[i - ACTION] && gs[i] == b[i - ACTION];
      } else if i == ACTION {
        var t, u := FieldText(fs[i]), FieldText(gs[i]);
        assert t == [t[0]] + t[1..] && u == [u[0]] + u[1..] && FieldText(a[0]) == FieldText(b[0]);
      }
    }
  }

  /** The canonical string determines a row of the table exactly if no bar stands in the action behind its first
      character, nor between action and detail.  Bars in the tenant and inside the detail do no harm. */
  lemma ColumnsDeterminedIff(tenant: string, detail: string -> bool, fs: seq<Option<string>>)
    requires BarsInside(detail) && Storable(tenant, detail, fs)
    ensures Determined(tenant, detail, fs) <==> Plain(fs)
  {
    hide JoinFields;
    if Plain(fs) {
      forall gs | Storable(tenant, detail, gs) && JoinFields(gs) == JoinFields(fs) ensures SameTexts(fs, gs) {
        PlainIsDetermined(tenant, detail, fs, gs);
      }
    } else {
      var k, i := BarNotPlain(fs);
      var gs := BarsAreAmbiguous(tenant, detail, fs, k, i);
      assert !SameTexts(fs, gs);
    }
  }

  lemma BarNotPlain(fs: seq<Option<string>>) returns (k: nat, i: nat)
    requires |fs| == WIDTH && FieldText(fs[ACTION]) != "" && !Plain(fs)
    ensures MovableBar(fs, k, i)
  {
    var t := FieldText(fs[ACTION]);
    if '|' in t[1..] {
      var j :| 0 <= j < |t[1..]| && t[1..][j] == '|';
      k, i := ACTION, j + 1;
    } else {
      var inner := fs[ACTION + 1..DETAIL];
      var j :| 0 <= j < |inner| && '|' in FieldText(inner[j]);
      k := ACTION + 1 + j;
      i :| 0 <= i < |FieldText(fs[k])| && FieldText(fs[k])[i] == '|';
    }
  }

  predicate AllStorable(tenant: string, detail: string -> bool, rows: seq<Row>) {
    forall row <- rows :: Storable(tenant, detail, row.fields)
  }

  predicate AllPlain(rows: seq<Row>)
    requires forall row <- rows :: |row.fields| == WIDTH && FieldText(row.fields[ACTION]) != ""
  {
    forall row <- rows :: Plain(row.fields)
  }

  predicate SameColumns(a: seq<Row>, b: seq<Row>) {
    |a| == |b| && forall i | 0 <= i < |a| :: SameTexts(a[i].fields, b[i].fields)
  }

  /** Two tables of a tenant accepted against the same head row agree in every hashed column, if one of them is
      plain. */
  lemma SameHeadSameColumns(h: string -> string, tenant: string, detail: string -> bool, a: seq<Row>, b: seq<Row>,
                            head: Option<Head>)
    requires IsDigest(h) && 0 < |a| <= UNBOUNDED_LIMIT && 0 < |b| <= UNBOUNDED_LIMIT
    requires Accepts(h, a, None, head) && Accepts(h, b, None, head)
    requires BarsInside(detail) && AllStorable(tenant, detail, a) && AllStorable(tenant, detail, b) && AllPlain(a)
    ensures SameColumns(a, b) || Collides(h, a, b)
  {
    SameHeadSameContent(h, a, b, head);
    hide Accepts, Collides, JoinFields, SameTexts, BarsInside, Plain;
    if SameContent(a, b) {
      forall i | 0 <= i < |a| ensures SameTexts(a[i].fields, b[i].fields) {
        assert a[i] in a && b[i] in b && Canonical(a[i]) == Canonical(b[i]);
        PlainIsDetermined(tenant, detail, a[i].fields, b[i].fields);
      }
    }
  }
}
