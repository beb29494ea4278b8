/** Concurrent appends to the audit chain of one tenant, as interleaved database statements.

    Each append is a transaction: lock the head row, or take the advisory lock when there is none yet
    and look again; insert the row; upsert the head; commit.  Locks last until commit or abort, and a
    statement sees the last committed state.  Rows outside the chain are written by other transactions
    and share the id sequence.
 */
module AuditTransactions {
  import opened Wrappers
  import opened AuditChain

  /** How far an append has come.  `seen` is the head it read under its lock. */
  datatype Phase =
    | Starting
    | NeedsAdvisory
    | HasAdvisory
    | Locked(seen: Option<Head>)
    | Inserted(seen: Option<Head>, row: Row)
    | Upserted(seen: Option<Head>, row: Row, newHead: Head)
  {
    predicate Writing() { Locked? || Inserted? || Upserted? }
  }

  datatype Txn = Txn(userId: string, fields: seq<Option<string>>, phase: Phase)

  datatype Db = Db(
    table: map<nat, Row>,         // committed rows by id
    head: Option<Head>,           // committed head row
    nextId: nat,                  // the id sequence
    plain: set<nat>,              // ids handed to rows outside the chain that are not committed yet
    rowLock: Option<int>,         // holder of the lock on the head row
    advisory: Option<int>,        // holder of the advisory lock
    txns: map<int, Txn>)

  const EMPTY: Db := Db(map[], None, 0, {}, None, None, map[])

  datatype Action =
    | Begin(t: int, userId: string, fields: seq<Option<string>>)
    | Advance(t: int)
    | Abort(t: int)
    | ReservePlain
    | CommitPlain(id: nat, userId: string, fields: seq<Option<string>>)

  function Free(lock: Option<int>, t: int): bool { lock.None? || lock.value == t }

  function Release(lock: Option<int>, t: int): Option<int> { if lock == Some(t) then None else lock }

  function End(s: Db, t: int): Db {
    s.(txns := s.txns - {t}, rowLock := Release(s.rowLock, t), advisory := Release(s.advisory, t))
  }

  function SetPhase(s: Db, t: int, p: Phase): Db
    requires t in s.txns
  {
    s.(txns := s.txns[t := s.txns[t].(phase := p)])
  }

  function HeadHash(head: Option<Head>): string { if head.None? then GENESIS else head.value.hash }

  function HeadEntries(head: Option<Head>): nat { if head.None? then 0 else head.value.entries }

  /** The lock a transaction's next statement needs. */
  datatype Need = Nothing | RowLock | AdvisoryLock

  function Needs(s: Db, t: int): Need
    requires t in s.txns
  {
    match s.txns[t].phase
    case Starting => if s.head.Some? then RowLock else Nothing
    case NeedsAdvisory => AdvisoryLock
    case HasAdvisory => if s.head.Some? then RowLock else Nothing
    case _ => Nothing
  }

  predicate Ready(s: Db, t: int)
    requires t in s.txns
  {
    match Needs(s, t)
    case Nothing => true
    case RowLock => Free(s.rowLock, t)
    case AdvisoryLock => Free(s.advisory, t)
  }

  function NewRow(h: string -> string, id: nat, txn: Txn, seen: Option<Head>): Row {
    var row := Row(id, txn.userId, txn.fields, HeadHash(seen), None);
    row.(entryHash := Some(EntryHash(h, HeadHash(seen), row)))
  }

  /** The next statement of `t`, once its lock is free. */
  function AdvanceTxn(h: string -> string, s: Db, t: int): Db
    requires t in s.txns
  {
    var txn := s.txns[t];
    match txn.phase
    case Starting =>
      if s.head.None? then SetPhase(s, t, NeedsAdvisory)
      else SetPhase(s, t, Locked(s.head)).(rowLock := Some(t))
    case NeedsAdvisory => SetPhase(s, t, HasAdvisory).(advisory := Some(t))
    case HasAdvisory =>
      if s.head.None? then SetPhase(s, t, Locked(None))
      else SetPhase(s, t, Locked(s.head)).(rowLock := Some(t))
    case Locked(seen) =>
      SetPhase(s, t, Inserted(seen, NewRow(h, s.nextId, txn, seen))).(nextId := s.nextId + 1)
    case Inserted(seen, row) =>
      SetPhase(s, t, Upserted(seen, row, Head(row.id, FieldText(row.entryHash), HeadEntries(seen) + 1)))
    case Upserted(_, row, newHead) =>
      End(s, t).(table := s.table[row.id := row], head := Some(newHead))
  }

  /** A step that is not possible now leaves the state alone. */
  function Step(h: string -> string, s: Db, a: Action): Db {
    match a
    case Begin(t, userId, fields) =>
      if t in s.txns then s else s.(txns := s.txns[t := Txn(userId, fields, Starting)])
    case Advance(t) => if t in s.txns && Ready(s, t) then AdvanceTxn(h, s, t) else s
    case Abort(t) => if t in s.txns then End(s, t) else s
    case ReservePlain => s.(nextId := s.nextId + 1, plain := s.plain + {s.nextId})
    case CommitPlain(id, userId, fields) =>
      if id in s.plain
      then s.(table := s.table[id := Row(id, userId, fields, "", None)], plain := s.plain - {id})
      else s
  }

  function Run(h: string -> string, acts: seq<Action>): Db {
    if acts == [] then EMPTY else Step(h, Run(h, acts[..|acts| - 1]), acts[|acts| - 1])
  }

  // ---- The covered rows of a table, by id ----

  function CoveredBelow(table: map<nat, Row>, n: nat): seq<Row> {
    if n == 0 then []
    else
      var below := CoveredBelow(table, n - 1);
      if n - 1 in table && table[n - 1].entryHash.Some? then below + [table[n - 1]] else below
  }

  function Covered(s: Db): seq<Row> { CoveredBelow(s.table, s.nextId) }

  /** A new uncovered row changes nothing. */
  lemma {:induction false} CoveredIgnoresPlain(table: map<nat, Row>, id: nat, row: Row, n: nat)
    requires row.entryHash.None? && id !in table
    ensures CoveredBelow(table[id := row], n) == CoveredBelow(table, n)
  {
    if n > 0 { CoveredIgnoresPlain(table, id, row, n - 1); }
  }

  /** A new covered row above all others comes last. */
  lemma {:induction false} CoveredAppends(table: map<nat, Row>, id: nat, row: Row, n: nat)
    requires row.entryHash.Some?
    requires forall k <- table | table[k].entryHash.Some? :: k < id
    ensures CoveredBelow(table[id := row], n) == if id < n then CoveredBelow(table, n) + [row] else CoveredBelow(table, n)
  {
    if n > 0 { CoveredAppends(table, id, row, n - 1); }
  }

  lemma CoveredOfNext(table: map<nat, Row>, n: nat)
    requires n !in table
    ensures CoveredBelow(table, n + 1) == CoveredBelow(table, n)
  {}

  // ---- What every reachable state satisfies ----

  /** The committed rows are one unforked chain from the start, and the head row describes it. */
  ghost predicate Intact(h: string -> string, rows: seq<Row>, head: Option<Head>) {
    && Linked(h, rows)
    && (if rows == [] then head == None else head.Some? && HeadMatches(head.value, rows))
  }

  predicate PendingOk(h: string -> string, s: Db, txn: Txn, seen: Option<Head>, row: Row) {
    && row == NewRow(h, row.id, txn, seen)
    && row.id < s.nextId && row.id !in s.table && row.id !in s.plain
    && forall k <- s.table | s.table[k].entryHash.Some? :: k < row.id
  }

  /** A writing transaction holds the lock that the head it saw calls for, and that head still stands. */
  predicate TxnOk(h: string -> string, s: Db, t: int)
    requires t in s.txns
  {
    var txn := s.txns[t];
    match txn.phase
    case Starting => true
    case NeedsAdvisory => true
    case HasAdvisory => s.advisory == Some(t)
    case Locked(seen) => Holds(s, t, seen)
    case Inserted(seen, row) => Holds(s, t, seen) && PendingOk(h, s, txn, seen, row)
    case Upserted(seen, row, newHead) =>
      && Holds(s, t, seen) && PendingOk(h, s, txn, seen, row)
      && newHead == Head(row.id, FieldText(row.entryHash), HeadEntries(seen) + 1)
  }

  predicate Holds(s: Db, t: int, seen: Option<Head>) {
    s.head == seen && (if seen.Some? then s.rowLock == Some(t) else s.advisory == Some(t))
  }

  predicate IdsOk(s: Db) {
    && (forall id <- s.table :: id < s.nextId && s.table[id].id == id)
    && (forall id <- s.plain :: id < s.nextId && id !in s.table)
  }

  predicate LocksOk(s: Db) {
    && (s.rowLock.Some? ==> s.rowLock.value in s.txns && s.txns[s.rowLock.value].phase.Writing() && s.head.Some?)
    && (s.advisory.Some? ==>
          s.advisory.value in s.txns && (var p := s.txns[s.advisory.value].phase; p.HasAdvisory? || p.Writing()))
  }

  ghost predicate Inv(h: string -> string, s: Db) {
    && Intact(h, Covered(s), s.head)
    && IdsOk(s) && LocksOk(s)
    && forall t <- s.txns :: TxnOk(h, s, t)
  }

  /** At most one transaction writes at a time. */
  lemma OneWriter(h: string -> string, s: Db, t: int, u: int)
    requires Inv(h, s) && t in s.txns && u in s.txns
    requires s.txns[t].phase.Writing() && s.txns[u].phase.Writing()
    ensures t == u
  {
    assert TxnOk(h, s, t) && TxnOk(h, s, u);
  }

  lemma LockKeeps(h: string -> string, s: Db, t: int)
    requires Inv(h, s) && t in s.txns && Ready(s, t)
    requires var p := s.txns[t].phase; p.Starting? || p.NeedsAdvisory? || p.HasAdvisory?
    ensures Inv(h, AdvanceTxn(h, s, t)) && Covered(AdvanceTxn(h, s, t)) == Covered(s)
  {
    var s' := AdvanceTxn(h, s, t);
    hide Intact;
    hide CoveredBelow;
    hide PendingOk;
    forall u <- s'.txns
      ensures TxnOk(h, s', u)
    {
      assert TxnOk(h, s, t) && TxnOk(h, s, u);
      PendingFrame(h, s, s', u);
    }
  }

  /** A pending row only depends on the table, the sequence and the reserved ids. */
  lemma PendingFrame(h: string -> string, s: Db, s': Db, u: int)
    requires s'.table == s.table && s'.plain == s.plain && s.nextId <= s'.nextId && u in s.txns
    ensures forall txn: Txn, seen: Option<Head>, row: Row {:trigger PendingOk(h, s', txn, seen, row)} ::
              PendingOk(h, s, txn, seen, row) ==> PendingOk(h, s', txn, seen, row)
    ensures forall txn: Txn, seen: Option<Head>, row: Row, p: Phase {:trigger PendingOk(h, s', txn.(phase := p), seen, row)} ::
              PendingOk(h, s, txn, seen, row) ==> PendingOk(h, s', txn.(phase := p), seen, row)
  {}

  lemma WriteKeeps(h: string -> string, s: Db, t: int)
    requires Inv(h, s) && t in s.txns
    requires var p := s.txns[t].phase; p.Locked? || p.Inserted?
    ensures Inv(h, AdvanceTxn(h, s, t)) && Covered(AdvanceTxn(h, s, t)) == Covered(s)
  {
    var s' := AdvanceTxn(h, s, t);
    assert s.nextId !in s.table && s.nextId !in s.plain;
    CoveredOfNext(s.table, s.nextId);
    assert TxnOk(h, s, t);
    assert TxnOk(h, s', t);
    hide Intact;
    hide CoveredBelow;
    hide PendingOk;
    hide NewRow;
    forall u <- s'.txns
      ensures TxnOk(h, s', u)
    {
      assert TxnOk(h, s, u);
      PendingFrame(h, s, s', u);
    }
  }

  lemma CommitKeeps(h: string -> string, s: Db, t: int)
    requires Inv(h, s) && t in s.txns && s.txns[t].phase.Upserted?
    ensures Inv(h, AdvanceTxn(h, s, t))
    ensures Covered(AdvanceTxn(h, s, t)) == Covered(s) + [s.txns[t].phase.row]
  {
    CommitExtends(h, s, t);
    CommitEndsAlone(h, s, t);
    hide AdvanceTxn, Covered, Intact, IdsOk, LocksOk, TxnOk;
  }

  lemma CommitExtends(h: string -> string, s: Db, t: int)
    requires Inv(h, s) && t in s.txns && s.txns[t].phase.Upserted?
    ensures var s' := AdvanceTxn(h, s, t);
            && Covered(s') == Covered(s) + [s.txns[t].phase.row]
            && Intact(h, Covered(s'), s'.head) && IdsOk(s') && LocksOk(s')
  {
    var row := s.txns[t].phase.row;
    assert TxnOk(h, s, t);
    CoveredAppends(s.table, row.id, row, s.nextId);
    var rows := Covered(s) + [row];
    assert rows[..|rows| - 1] == Covered(s);
    LinkedSnoc(h, rows, |rows| - 1);
    assert rows[..|rows|] == rows;
  }

  lemma CommitEndsAlone(h: string -> string, s: Db, t: int)
    requires Inv(h, s) && t in s.txns && s.txns[t].phase.Upserted?
    ensures forall u <- AdvanceTxn(h, s, t).txns :: TxnOk(h, AdvanceTxn(h, s, t), u)
  {
    var s' := AdvanceTxn(h, s, t);
    forall u <- s'.txns
      ensures TxnOk(h, s', u)
    {
      assert TxnOk(h, s, u);
      if s.txns[u].phase.Writing() { OneWriter(h, s, t, u); }
    }
  }

  lemma AbortKeeps(h: string -> string, s: Db, t: int)
    requires Inv(h, s) && t in s.txns
    ensures Inv(h, End(s, t)) && Covered(End(s, t)) == Covered(s)
  {
    forall u <- End(s, t).txns
      ensures TxnOk(h, End(s, t), u)
    {
      assert TxnOk(h, s, u);
    }
  }

  lemma OtherKeeps(h: string -> string, s: Db, a: Action)
    requires Inv(h, s) && !a.Advance? && !a.Abort?
    ensures Inv(h, Step(h, s, a)) && Covered(Step(h, s, a)) == Covered(s)
  {
    var s' := Step(h, s, a);
    hide Intact;
    hide CoveredBelow;
    hide NewRow;
    match a
    case Begin(t, userId, fields) =>
    case ReservePlain =>
      assert s.nextId !in s.table;
      CoveredOfNext(s.table, s.nextId);
    case CommitPlain(id, userId, fields) =>
      if id in s.plain { CoveredIgnoresPlain(s.table, id, Row(id, userId, fields, "", None), s.nextId); }
    forall u <- s'.txns
      ensures TxnOk(h, s', u)
    {
      if u in s.txns { assert TxnOk(h, s, u); }
    }
  }

  /** Every step keeps the invariant, and the chain only grows at its end, one row a commit. */
  lemma StepKeeps(h: string -> string, s: Db, a: Action)
    requires Inv(h, s)
    ensures Inv(h, Step(h, s, a))
    ensures Covered(s) <= Covered(Step(h, s, a)) && |Covered(Step(h, s, a))| <= |Covered(s)| + 1
  {
    match a
    case Advance(t) =>
      if t in s.txns && Ready(s, t) {
        var p := s.txns[t].phase;
        if p.Upserted? {
          CommitKeeps(h, s, t);
        } else if p.Writing() {
          WriteKeeps(h, s, t);
        } else {
          LockKeeps(h, s, t);
        }
      }
    case Abort(t) => if t in s.txns { AbortKeeps(h, s, t); }
    case _ => OtherKeeps(h, s, a);
  }

  // ---- The theorems ----

  lemma {:induction false} RunKeeps(h: string -> string, acts: seq<Action>)
    ensures Inv(h, Run(h, acts))
  {
    if acts != [] {
      RunKeeps(h, acts[..|acts| - 1]);
      StepKeeps(h, Run(h, acts[..|acts| - 1]), acts[|acts| - 1]);
    }
  }

  /** Whatever appends race, abort or start the chain, the check accepts the committed rows. */
  lemma EveryRunVerifies(h: string -> string, acts: seq<Action>)
    ensures var s := Run(h, acts);
            && Intact(h, Covered(s), s.head)
            && (|Covered(s)| <= UNBOUNDED_LIMIT ==> Accepts(h, Covered(s), None, s.head))
  {
    RunKeeps(h, acts);
  }

  // ---- The committed rows are what was appended ----

  /** What an append is given. */
  datatype Content = Content(userId: string, fields: seq<Option<string>>)

  /** The last statement of an open append. */
  predicate IsCommit(s: Db, a: Action) { a.Advance? && a.t in s.txns && s.txns[a.t].phase.Upserted? }

  /** The appends that have begun, and neither committed nor aborted, with what they were begun with. */
  function OpenAfter(s: Db, open: map<int, Content>, a: Action): map<int, Content> {
    match a
    case Begin(t, userId, fields) => if t in open then open else open[t := Content(userId, fields)]
    case Advance(t) => if IsCommit(s, a) then open - {t} else open
    case Abort(t) => open - {t}
    case _ => open
  }

  function Begun(h: string -> string, acts: seq<Action>): map<int, Content> {
    if acts == [] then map[]
    else OpenAfter(Run(h, acts[..|acts| - 1]), Begun(h, acts[..|acts| - 1]), acts[|acts| - 1])
  }

  /** What the committing appends were begun with, in the order of their commits. */
  function Committed(h: string -> string, acts: seq<Action>): seq<Content> {
    if acts == [] then []
    else
      var front, a := acts[..|acts| - 1], acts[|acts| - 1];
      if IsCommit(Run(h, front), a) && a.t in Begun(h, front) then Committed(h, front) + [Begun(h, front)[a.t]]
      else Committed(h, front)
  }

  function Contents(rows: seq<Row>): seq<Content> {
    seq(|rows|, i requires 0 <= i < |rows| => Content(rows[i].userId, rows[i].fields))
  }

  /** An open append still has what it was begun with, in its row as well. */
  predicate Holding(txn: Txn, x: Content) {
    && txn.userId == x.userId && txn.fields == x.fields
    && (txn.phase.Inserted? || txn.phase.Upserted? ==> txn.phase.row.userId == x.userId && txn.phase.row.fields == x.fields)
  }

  predicate Carries(s: Db, open: map<int, Content>) {
    s.txns.Keys == open.Keys && forall t <- open :: Holding(s.txns[t], open[t])
  }

  lemma AdvanceHolds(h: string -> string, s: Db, t: int, x: Content)
    requires t in s.txns && Holding(s.txns[t], x)
    ensures var s' := AdvanceTxn(h, s, t);
            if s.txns[t].phase.Upserted? then s'.txns == s.txns - {t}
            else t in s'.txns && s'.txns == s.txns[t := s'.txns[t]] && Holding(s'.txns[t], x)
  {
    hide EntryHash;
  }

  lemma CarriesStep(h: string -> string, s: Db, open: map<int, Content>, a: Action)
    requires Carries(s, open)
    ensures Carries(Step(h, s, a), OpenAfter(s, open, a))
  {
    if a.Advance? && a.t in s.txns {
      AdvanceHolds(h, s, a.t, open[a.t]);
      hide AdvanceTxn, Holding;
      assert Carries(Step(h, s, a), OpenAfter(s, open, a));
    }
  }

  lemma {:induction false} RunCarries(h: string -> string, acts: seq<Action>)
    ensures Carries(Run(h, acts), Begun(h, acts))
  {
    hide Carries, Step, OpenAfter;
    if acts == [] {
      assert Carries(EMPTY, map[]) by { NothingCarries(); }
    } else {
      RunCarries(h, acts[..|acts| - 1]);
      CarriesStep(h, Run(h, acts[..|acts| - 1]), Begun(h, acts[..|acts| - 1]), acts[|acts| - 1]);
    }
  }

  lemma NothingCarries()
    ensures Carries(EMPTY, map[])
  {}

  /** Only a commit changes the committed chain. */
  lemma OnlyCommitsGrow(h: string -> string, s: Db, a: Action)
    requires Inv(h, s)
    ensures Covered(Step(h, s, a)) == Covered(s) + if IsCommit(s, a) then [s.txns[a.t].phase.row] else []
  {
    hide Inv, Covered, AdvanceTxn;
    match a
    case Advance(t) =>
      if t in s.txns && Ready(s, t) {
        var p := s.txns[t].phase;
        if p.Upserted? {
          CommitKeeps(h, s, t);
        } else if p.Writing() {
          WriteKeeps(h, s, t);
        } else {
          LockKeeps(h, s, t);
        }
      }
    case Abort(t) => if t in s.txns { AbortKeeps(h, s, t); }
    case _ => OtherKeeps(h, s, a);
  }

  lemma ContentsSnoc(rows: seq<Row>, row: Row)
    ensures Contents(rows + [row]) == Contents(rows) + [Content(row.userId, row.fields)]
  {}

  /** Over every run: the committed chain holds, in the order of the commits, exactly the users and columns with
      which the committing appends were begun. */
  lemma {:induction false} CommittedIsAppended(h: string -> string, acts: seq<Action>)
    ensures Contents(Covered(Run(h, acts))) == Committed(h, acts)
  {
    hide Covered, Carries, Contents, Begun;
    if acts == [] {
      assert Contents(Covered(EMPTY)) == [] by { NothingCommitted(); }
    } else {
      var front, a := acts[..|acts| - 1], acts[|acts| - 1];
      var s := Run(h, front);
      CommittedIsAppended(h, front);
      RunKeeps(h, front);
      OnlyCommitsGrow(h, s, a);
      RunCarries(h, front);
      if IsCommit(s, a) {
        CarriedRow(s, Begun(h, front), a.t);
        ContentsSnoc(Covered(s), s.txns[a.t].phase.row);
      } else {
        assert Covered(s) + [] == Covered(s);
      }
      hide Step, Inv;
    }
  }

  lemma NothingCommitted()
    ensures Contents(Covered(EMPTY)) == []
  {}

  lemma CarriedRow(s: Db, open: map<int, Content>, t: int)
    requires Carries(s, open) && t in s.txns && s.txns[t].phase.Upserted?
    ensures t in open && var row := s.txns[t].phase.row; open[t] == Content(row.userId, row.fields)
  {}

  // ---- An append by itself ----

  /** Nobody else holds a lock. */
  predicate Alone(s: Db, t: int) { t in s.txns && Free(s.rowLock, t) && Free(s.advisory, t) }

  /** How many statements an append has to go at most. */
  function StepsLeft(p: Phase): nat {
    match p
    case Starting => 6
    case NeedsAdvisory => 5
    case HasAdvisory => 4
    case Locked(_) => 3
    case Inserted(_, _) => 2
    case Upserted(_, _, _) => 1
  }

  function Advances(h: string -> string, s: Db, t: int, n: nat): Db
    decreases n
  {
    if n == 0 then s else Advances(h, Step(h, s, Advance(t)), t, n - 1)
  }

  lemma AdvanceAlone(h: string -> string, s: Db, t: int, x: Content)
    requires Alone(s, t) && Holding(s.txns[t], x) && !s.txns[t].phase.Upserted?
    ensures var s' := Step(h, s, Advance(t));
            Alone(s', t) && Holding(s'.txns[t], x) && StepsLeft(s'.txns[t].phase) < StepsLeft(s.txns[t].phase)
  {
    hide EntryHash;
    AdvanceHolds(h, s, t, x);
  }

  lemma CommitAlone(h: string -> string, s: Db, t: int)
    requires Alone(s, t) && s.txns[t].phase.Upserted?
    ensures t !in Step(h, s, Advance(t)).txns
  {}

  lemma {:induction false} NothingLeft(h: string -> string, s: Db, t: int, n: nat)
    requires t !in s.txns
    ensures Advances(h, s, t, n) == s
    decreases n
  {
    if n > 0 { NothingLeft(h, Step(h, s, Advance(t)), t, n - 1); }
  }

  lemma {:induction false} FinishAlone(h: string -> string, s: Db, t: int, x: Content, n: nat)
    requires Inv(h, s) && Alone(s, t) && Holding(s.txns[t], x) && n >= StepsLeft(s.txns[t].phase)
    ensures var rows := Covered(Advances(h, s, t, n));
            |rows| == |Covered(s)| + 1 && Covered(s) <= rows && Contents(rows)[|Covered(s)|] == x
    decreases n
  {
    hide Inv, Covered, Step, Alone;
    var s' := Step(h, s, Advance(t));
    StepKeeps(h, s, Advance(t));
    OnlyCommitsGrow(h, s, Advance(t));
    assert t in s.txns by { AloneIsOpen(s, t); }
    if s.txns[t].phase.Upserted? {
      CommitAlone(h, s, t);
      NothingLeft(h, s', t, n - 1);
    } else {
      AdvanceAlone(h, s, t, x);
      assert Covered(s) + [] == Covered(s);
      FinishAlone(h, s', t, x, n - 1);
    }
  }

  lemma AloneIsOpen(s: Db, t: int)
    requires Alone(s, t)
    ensures t in s.txns
  {}

  /** An append that nobody else's lock stands in the way of is committed after six statements at most, with its own
      user and columns. */
  lemma AppendCommits(h: string -> string, acts: seq<Action>, t: int, userId: string, fields: seq<Option<string>>)
    requires var s := Run(h, acts); t !in s.txns && s.rowLock.None? && s.advisory.None?
    ensures var s := Run(h, acts);
            var rows := Covered(Advances(h, Step(h, s, Begin(t, userId, fields)), t, 6));
            && |rows| == |Covered(s)| + 1 && Covered(s) <= rows
            && rows[|Covered(s)|].userId == userId && rows[|Covered(s)|].fields == fields
  {
    hide Covered, Inv, Advances;
    var s := Run(h, acts);
    RunKeeps(h, acts);
    StepKeeps(h, s, Begin(t, userId, fields));
    OtherKeeps(h, s, Begin(t, userId, fields));
    FinishAlone(h, Step(h, s, Begin(t, userId, fields)), t, Content(userId, fields), 6);
  }

  /** `t` waits for a lock that `u` holds. */
  predicate WaitsFor(s: Db, t: int, u: int) {
    && t in s.txns && !Ready(s, t)
    && (if Needs(s, t).RowLock? then s.rowLock else s.advisory) == Some(u)
  }

  /** Transactions in the order in which they may wait for one another. */
  function Rank(s: Db, t: int): nat {
    if t !in s.txns then 0
    else match s.txns[t].phase
      case Starting => 0
      case NeedsAdvisory => 0
      case HasAdvisory => 1
      case _ => 2
  }

  lemma WaitingRaisesRank(h: string -> string, s: Db, t: int, u: int)
    requires Inv(h, s) && WaitsFor(s, t, u)
    ensures u in s.txns && Rank(s, t) < Rank(s, u)
  {
    if s.txns[t].phase.HasAdvisory? { assert TxnOk(h, s, t); }
  }

  predicate WaitChain(s: Db, p: seq<int>) { forall i | 0 < i < |p| :: WaitsFor(s, p[i - 1], p[i]) }

  lemma {:induction false} ChainRaisesRank(h: string -> string, s: Db, p: seq<int>)
    requires Inv(h, s) && WaitChain(s, p) && |p| >= 2
    ensures Rank(s, p[0]) + |p| - 1 <= Rank(s, p[|p| - 1])
  {
    var front := p[..|p| - 1];
    assert WaitsFor(s, p[|p| - 2], p[|p| - 1]);
    WaitingRaisesRank(h, s, p[|p| - 2], p[|p| - 1]);
    if |front| >= 2 {
      assert forall i | 0 < i < |front| :: WaitsFor(s, front[i - 1], front[i]) by {
        forall i | 0 < i < |front| ensures WaitsFor(s, front[i - 1], front[i]) { assert WaitsFor(s, p[i - 1], p[i]); }
      }
      ChainRaisesRank(h, s, front);
    }
  }

  /** No run reaches a cycle of waiting transactions, and no chain of waits is longer than three. */
  lemma NoDeadlock(h: string -> string, acts: seq<Action>, p: seq<int>)
    requires |p| >= 2 && WaitChain(Run(h, acts), p)
    ensures p[0] != p[|p| - 1] && |p| <= 3
  {
    RunKeeps(h, acts);
    ChainRaisesRank(h, Run(h, acts), p);
  }

  /** While an append is unfinished, some append can take its next step. */
  lemma SomeoneCanStep(h: string -> string, acts: seq<Action>, waiting: int) returns (t: int)
    requires waiting in Run(h, acts).txns
    ensures t in Run(h, acts).txns && Ready(Run(h, acts), t)
  {
    var s := Run(h, acts);
    t := waiting;
    RunKeeps(h, acts);
    hide Inv;
    hide Run;
    for i := 0 to 2
      invariant t in s.txns && (Ready(s, t) || Rank(s, t) >= i)
    {
      if !Ready(s, t) {
        var u := (if Needs(s, t).RowLock? then s.rowLock else s.advisory).value;
        WaitingRaisesRank(h, s, t, u);
        t := u;
      }
    }
  }
}
