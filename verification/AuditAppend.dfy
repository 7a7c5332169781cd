/**
 Concurrent appends to the audit log: `append_audit` of packages/db/src/uaagro_db/audit.py as the
 steps its statements take inside the caller's transaction, with any number of transactions
 interleaving. A statement sees committed rows and its own transaction's rows. The advisory lock is
 held from the first append of a transaction to its commit or rollback; a rollback gives back the
 rows but not the sequence numbers.
 */
module AuditAppend {
  import opened Wrappers
  import opened AuditChain

  type TxId = nat

  /** How far the append now running inside a transaction has got. */
  datatype Phase =
    | Elsewhere                                      // between appends
    | Locked                                         // the advisory lock is taken
    | TailRead(tail: Option<Bytes>)
    | Numbered(tail: Option<Bytes>, chainIndex: int)

  datatype Tx<F> = Tx(phase: Phase, own: seq<Row<F>>)

  datatype Db<F> = Db(committed: seq<Row<F>>, sequence: int, lockedBy: Option<TxId>, open: map<TxId, Tx<F>>)

  datatype Step<F> =
    | Begin(t: TxId)
    | TakeLock(t: TxId)
    | ReadTail(t: TxId)
    | DrawIndex(t: TxId)
    | Insert(t: TxId, fields: F, actorIp: string)
    | Commit(t: TxId)
    | Rollback(t: TxId)

  function Fresh<F>(): Db<F> {
    Db([], 1, None, map[])
  }

  function Visible<F>(db: Db<F>, t: TxId): seq<Row<F>>
    requires t in db.open
  {
    db.committed + db.open[t].own
  }

  /** The row with the largest chain index. */
  function Newest<F>(rows: seq<Row<F>>): Row<F>
    requires rows != []
  {
    var last := rows[|rows| - 1];
    if |rows| == 1 then last
    else
      var earlier := Newest(rows[..|rows| - 1]);
      if earlier.chainIndex > last.chainIndex then earlier else last
  }

  /** The tail query: the hash of the row with the largest chain index, if there is a row. */
  function TailHash<F>(rows: seq<Row<F>>): Option<Bytes> {
    if rows == [] then None else Some(Newest(rows).rowHash)
  }

  predicate Enabled<F>(db: Db<F>, step: Step<F>) {
    match step
    case Begin(t) => t !in db.open
    case TakeLock(t) => t in db.open && db.open[t].phase == Elsewhere && (db.lockedBy == None || db.lockedBy == Some(t))
    case ReadTail(t) => t in db.open && db.open[t].phase == Locked
    case DrawIndex(t) => t in db.open && db.open[t].phase.TailRead?
    case Insert(t, _, _) => t in db.open && db.open[t].phase.Numbered?
    case Commit(t) => t in db.open
    case Rollback(t) => t in db.open
  }

  function Sealing<F>(h: Hashing<F>, tail: Option<Bytes>, chainIndex: int, fields: F, actorIp: string): Row<F> {
    var row := Row(chainIndex, fields, actorIp, tail, []);
    row.(rowHash := h.RowHash(tail, row))
  }

  function Apply<F>(h: Hashing<F>, db: Db<F>, step: Step<F>): Db<F>
    requires Enabled(db, step)
  {
    match step
    case Begin(t) => db.(open := db.open[t := Tx(Elsewhere, [])])
    case TakeLock(t) => db.(lockedBy := Some(t), open := db.open[t := db.open[t].(phase := Locked)])
    case ReadTail(t) => db.(open := db.open[t := db.open[t].(phase := TailRead(TailHash(Visible(db, t))))])
    case DrawIndex(t) =>
      db.(sequence := db.sequence + 1,
          open := db.open[t := db.open[t].(phase := Numbered(db.open[t].phase.tail, db.sequence))])
    case Insert(t, fields, ip) =>
      var tx := db.open[t];
      var row := Sealing(h, tx.phase.tail, tx.phase.chainIndex, fields, ip);
      db.(open := db.open[t := Tx(Elsewhere, tx.own + [row])])
    case Commit(t) =>
      db.(committed := Visible(db, t), lockedBy := Released(db, t), open := db.open - {t})
    case Rollback(t) =>
      db.(lockedBy := Released(db, t), open := db.open - {t})
  }

  function Released<F>(db: Db<F>, t: TxId): Option<TxId> {
    if db.lockedBy == Some(t) then None else db.lockedBy
  }

  ghost predicate ValidRun<F(!new)>(h: Hashing<F>, db: Db<F>, steps: seq<Step<F>>)
    decreases |steps|
  {
    steps == [] || (Enabled(db, steps[0]) && ValidRun(h, Apply(h, db, steps[0]), steps[1..]))
  }

  ghost function Run<F(!new)>(h: Hashing<F>, db: Db<F>, steps: seq<Step<F>>): Db<F>
    requires ValidRun(h, db, steps)
    decreases |steps|
  {
    if steps == [] then db else Run(h, Apply(h, db, steps[0]), steps[1..])
  }

  // ----- what every step keeps

  ghost predicate Chain<F(!new)>(h: Hashing<F>, rows: seq<Row<F>>, bound: int) {
    Consistent(h, rows) && Ascending(rows) && (forall k :: 0 <= k < |rows| ==> rows[k].chainIndex < bound)
  }

  ghost predicate TxInv<F(!new)>(h: Hashing<F>, db: Db<F>, t: TxId)
    requires t in db.open
  {
    var tx, seen := db.open[t], Visible(db, t);
    && (tx.phase != Elsewhere || tx.own != [] ==> db.lockedBy == Some(t))
    && Chain(h, seen, db.sequence)
    && (tx.phase.TailRead? || tx.phase.Numbered? ==> tx.phase.tail == Before(seen, |seen|))
    && (tx.phase.Numbered? ==> tx.phase.chainIndex < db.sequence && Chain(h, seen, tx.phase.chainIndex))
  }

  ghost predicate Inv<F(!new)>(h: Hashing<F>, db: Db<F>) {
    && Chain(h, db.committed, db.sequence)
    && (forall t :: t in db.open ==> TxInv(h, db, t))
    && (db.lockedBy.Some? ==> db.lockedBy.value in db.open)
  }

  lemma {:induction false} NewestIsLast<F>(rows: seq<Row<F>>)
    requires rows != [] && Ascending(rows)
    ensures Newest(rows) == rows[|rows| - 1]
  {
    if |rows| > 1 {
      NewestIsLast(rows[..|rows| - 1]);
    }
  }

  lemma TailIsLast<F>(rows: seq<Row<F>>)
    requires Ascending(rows)
    ensures TailHash(rows) == Before(rows, |rows|)
  {
    if rows != [] {
      NewestIsLast(rows);
    }
  }

  lemma InsertExtendsChain<F(!new)>(h: Hashing<F>, rows: seq<Row<F>>, index: int, bound: int, fields: F, ip: string)
    requires Chain(h, rows, index) && index < bound
    ensures Chain(h, rows + [Sealing(h, Before(rows, |rows|), index, fields, ip)], bound)
  {
    var row := Sealing(h, Before(rows, |rows|), index, fields, ip);
    assert h.RowHash(row.prevHash, row) == row.rowHash;
    GoodRowExtends(h, rows, row);
  }

  /** Whoever does not hold the lock has no rows of its own, so a commit only moves its view along. */
  lemma OthersKeepInv<F(!new)>(h: Hashing<F>, db: Db<F>, step: Step<F>, u: TxId)
    requires Inv(h, db) && Enabled(db, step)
    requires u != step.t && u in db.open
    ensures u in Apply(h, db, step).open && TxInv(h, Apply(h, db, step), u)
  {
    var next := Apply(h, db, step);
    assert TxInv(h, db, u);
    if step.Commit? {
      assert TxInv(h, db, step.t);
      if db.lockedBy == Some(u) {
        assert next.committed == db.committed;
      } else {
        assert Visible(next, u) == next.committed;
      }
    }
  }

  /** The transaction that takes a step keeps its own invariant for as long as it is open. */
  lemma ActorKeepsInv<F(!new)>(h: Hashing<F>, db: Db<F>, step: Step<F>)
    requires Inv(h, db) && Enabled(db, step)
    ensures step.t in Apply(h, db, step).open ==> TxInv(h, Apply(h, db, step), step.t)
  {
    var t := step.t;
    var next := Apply(h, db, step);
    if step.Begin? {
      assert Visible(next, t) == db.committed;
    } else {
      assert TxInv(h, db, t);
      match step
      case ReadTail(_) => TailIsLast(Visible(db, t));
      case Insert(_, fields, ip) =>
        var seen, tx := Visible(db, t), db.open[t];
        InsertExtendsChain(h, seen, tx.phase.chainIndex, db.sequence, fields, ip);
        assert Visible(next, t) == seen + [Sealing(h, Before(seen, |seen|), tx.phase.chainIndex, fields, ip)];
      case _ =>
    }
  }

  lemma CommittedKeepsInv<F(!new)>(h: Hashing<F>, db: Db<F>, step: Step<F>)
    requires Inv(h, db) && Enabled(db, step)
    ensures Chain(h, Apply(h, db, step).committed, Apply(h, db, step).sequence)
  {
  }

  lemma StepKeepsInv<F(!new)>(h: Hashing<F>, db: Db<F>, step: Step<F>)
    requires Inv(h, db) && Enabled(db, step)
    ensures Inv(h, Apply(h, db, step))
  {
    var next := Apply(h, db, step);
    ActorKeepsInv(h, db, step);
    CommittedKeepsInv(h, db, step);
    forall u | u in next.open && u != step.t
      ensures TxInv(h, next, u)
    {
      OthersKeepInv(h, db, step, u);
    }
  }

  lemma {:induction false} RunKeepsInv<F(!new)>(h: Hashing<F>, db: Db<F>, steps: seq<Step<F>>)
    requires Inv(h, db) && ValidRun(h, db, steps)
    ensures Inv(h, Run(h, db, steps))
    decreases |steps|
  {
    if steps != [] {
      StepKeepsInv(h, db, steps[0]);
      RunKeepsInv(h, Apply(h, db, steps[0]), steps[1..]);
    }
  }

  // ----- the promises of the design

  /** Rows put in order of their chain index, as the verifying query asks. */
  function InChainOrder<F>(rows: seq<Row<F>>): seq<Row<F>> {
    if rows == [] then [] else Placed(InChainOrder(rows[..|rows| - 1]), rows[|rows| - 1])
  }

  function Placed<F>(sorted: seq<Row<F>>, row: Row<F>): seq<Row<F>> {
    if sorted == [] || sorted[|sorted| - 1].chainIndex <= row.chainIndex then sorted + [row]
    else Placed(sorted[..|sorted| - 1], row) + [sorted[|sorted| - 1]]
  }

  lemma PlacedLast<F>(sorted: seq<Row<F>>, row: Row<F>)
    requires forall k :: 0 <= k < |sorted| ==> sorted[k].chainIndex <= row.chainIndex
    ensures Placed(sorted, row) == sorted + [row]
  {
  }

  lemma {:induction false} AscendingIsInOrder<F>(rows: seq<Row<F>>)
    requires Ascending(rows)
    ensures InChainOrder(rows) == rows
  {
    if rows != [] {
      var front := rows[..|rows| - 1];
      AscendingIsInOrder(front);
      PlacedLast(front, rows[|rows| - 1]);
      assert rows == front + [rows[|rows| - 1]];
    }
  }

  /**
   Under every interleaving of appending transactions, with commits, rollbacks and several rows to a
   transaction, the committed rows in chain order form one consistent chain with strictly rising
   indices.
   */
  lemma CommittedRowsFormAChain<F(!new)>(h: Hashing<F>, steps: seq<Step<F>>)
    requires ValidRun(h, Fresh(), steps)
    ensures var rows := Run(h, Fresh(), steps).committed;
      InChainOrder(rows) == rows && Ascending(rows) && Consistent(h, InChainOrder(rows))
  {
    RunKeepsInv(h, Fresh(), steps);
    AscendingIsInOrder(Run(h, Fresh(), steps).committed);
  }

  /** No later step takes back or moves a committed row. */
  lemma {:induction false} CommittedRowsStay<F(!new)>(h: Hashing<F>, db: Db<F>, steps: seq<Step<F>>)
    requires ValidRun(h, db, steps)
    ensures db.committed <= Run(h, db, steps).committed
    decreases |steps|
  {
    if steps != [] {
      CommittedRowsStay(h, Apply(h, db, steps[0]), steps[1..]);
      assert db.committed <= Apply(h, db, steps[0]).committed;
    }
  }

  /** The walk, started at any moment and running while transactions commit, reports success. */
  lemma VerificationDuringAppends<F(!new)>(h: Hashing<F>, steps: seq<Step<F>>, v: Verification, seen: seq<Row<F>>)
    requires ValidRun(h, Fresh(), steps)
    requires seen <= Run(h, Fresh(), steps).committed && Describes(v, h, seen)
    ensures v.ok && v.rowsChecked == |seen|
  {
    CommittedRowsFormAChain(h, steps);
    var rows := Run(h, Fresh(), steps).committed;
    PrefixConsistent(h, rows, |seen|);
    assert rows[..|seen|] == seen;
    assert Consistent(h, seen);
  }

  lemma {:induction false} RunPrefix<F(!new)>(h: Hashing<F>, db: Db<F>, steps: seq<Step<F>>, i: nat)
    requires ValidRun(h, db, steps) && i <= |steps|
    ensures ValidRun(h, db, steps[..i]) && ValidRun(h, Run(h, db, steps[..i]), steps[i..])
    ensures Run(h, Run(h, db, steps[..i]), steps[i..]) == Run(h, db, steps)
    decreases |steps|
  {
    if i > 0 {
      var next := Apply(h, db, steps[0]);
      RunPrefix(h, next, steps[1..], i - 1);
      var front := steps[..i];
      assert front[1..] == steps[1..][..i - 1] && front[0] == steps[0] && steps[i..] == steps[1..][i - 1..];
      assert ValidRun(h, db, front) && Run(h, db, front) == Run(h, next, front[1..]);
    } else {
      assert steps[..0] == [] && steps[0..] == steps;
    }
  }

  /** The committed rows after the first steps of a run. */
  ghost function CommittedAt<F(!new)>(h: Hashing<F>, steps: seq<Step<F>>, i: nat): seq<Row<F>>
    requires ValidRun(h, Fresh(), steps) && i <= |steps|
  {
    RunPrefix(h, Fresh(), steps, i);
    Run(h, Fresh(), steps[..i]).committed
  }

  lemma CommittedGrows<F(!new)>(h: Hashing<F>, steps: seq<Step<F>>, i: nat, j: nat)
    requires ValidRun(h, Fresh(), steps) && i <= j <= |steps|
    ensures CommittedAt(h, steps, i) <= CommittedAt(h, steps, j)
  {
    RunPrefix(h, Fresh(), steps, j);
    RunPrefix(h, Fresh(), steps[..j], i);
    assert steps[..j][..i] == steps[..i];
    CommittedRowsStay(h, Run(h, Fresh(), steps[..i]), steps[..j][i..]);
  }

  /** Each query of a walk sees what is committed by then, and later queries come no earlier in the run. */
  ghost predicate SeesRun<F(!new)>(h: Hashing<F>, steps: seq<Step<F>>, view: nat -> seq<Row<F>>, cut: nat -> nat) {
    && ValidRun(h, Fresh(), steps)
    && (forall q: nat :: cut(q) <= |steps| && view(q) == CommittedAt(h, steps, cut(q)))
    && (forall p: nat, q: nat :: p <= q ==> cut(p) <= cut(q))
  }

  /** The hourly walk over the log while transactions append to it: it never reports a break. */
  method VerifyWhileAppending<F(!new)>(
    h: Hashing<F>, ghost steps: seq<Step<F>>, view: nat -> seq<Row<F>>, ghost cut: nat -> nat, batchSize: nat)
    returns (v: Verification)
    requires SeesRun(h, steps, view, cut)
    ensures v.ok && v.brokenAt == None && v.reason == None
    ensures batchSize > 0 ==> |view(0)| <= v.rowsChecked
  {
    forall p: nat, q: nat | p <= q
      ensures view(p) <= view(q)
    {
      CommittedGrows(h, steps, cut(p), cut(q));
    }
    var queries;
    ghost var seen;
    v, queries, seen := VerifyChain(h, view, batchSize);
    RunPrefix(h, Fresh(), steps, cut(queries));
    VerificationDuringAppends(h, steps[..cut(queries)], v, seen);
  }
}
