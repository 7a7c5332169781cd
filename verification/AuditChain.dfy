/**
 The hash-chained audit log of packages/db/src/uaagro_db/audit.py: what a row commits to, the batched
 walk of `verify_chain`, and exactly which changes to a log the walk can see.

 SHA-256 and the payload encoding are parameters. What is needed of them is asked, lemma by lemma,
 only for the rows at hand.
 */
module AuditChain {
  import opened Wrappers

  newtype byte = b: int | 0 <= b < 256
  type Bytes = seq<byte>

  const DIGEST_BYTES := 32

  /** One row: `fields` holds every hashed field but the chain index; `actorIp` is not hashed. */
  datatype Row<F> = Row(chainIndex: int, fields: F, actorIp: string, prevHash: Option<Bytes>, rowHash: Bytes)

  datatype Hashing<!F> = Hashing(sha: Bytes -> Bytes, payload: (int, F) -> Bytes) {

    function Payload(row: Row<F>): Bytes {
      payload(row.chainIndex, row.fields)
    }

    /** The bytes fed to the digest: the previous hash, or nothing, then the payload. */
    function Input(prev: Option<Bytes>, row: Row<F>): Bytes {
      (if prev.Some? then prev.value else []) + Payload(row)
    }

    function RowHash(prev: Option<Bytes>, row: Row<F>): Bytes {
      sha(Input(prev, row))
    }
  }

  ghost predicate PayloadIsInjective<F(!new)>(h: Hashing<F>) {
    forall i, f, j, g :: h.payload(i, f) == h.payload(j, g) ==> i == j && f == g
  }

  /** Equal in everything the chain commits to. */
  ghost predicate SameHashedFields<F>(r: Row<F>, s: Row<F>) {
    r == s.(actorIp := r.actorIp)
  }

  function Before<F>(rows: seq<Row<F>>, k: nat): Option<Bytes>
    requires k <= |rows|
  {
    if k == 0 then None else Some(rows[k - 1].rowHash)
  }

  ghost predicate Sealed<F(!new)>(h: Hashing<F>, row: Row<F>) {
    row.rowHash == h.RowHash(row.prevHash, row)
  }

  ghost predicate GoodAt<F(!new)>(h: Hashing<F>, rows: seq<Row<F>>, k: nat)
    requires k < |rows|
  {
    rows[k].prevHash == Before(rows, k) && Sealed(h, rows[k])
  }

  ghost predicate Consistent<F(!new)>(h: Hashing<F>, rows: seq<Row<F>>) {
    forall k :: 0 <= k < |rows| ==> GoodAt(h, rows, k)
  }

  /** Row `k` is the first inconsistent one. */
  ghost predicate FirstBad<F(!new)>(h: Hashing<F>, rows: seq<Row<F>>, k: nat)
    requires k < |rows|
  {
    !GoodAt(h, rows, k) && Consistent(h, rows[..k])
  }

  ghost predicate Ascending<F>(rows: seq<Row<F>>) {
    forall i, j :: 0 <= i < j < |rows| ==> rows[i].chainIndex < rows[j].chainIndex
  }

  datatype Reason = PrevHashMismatch | RowHashMismatch

  datatype Verification = Verification(ok: bool, rowsChecked: nat, brokenAt: Option<int>, reason: Option<Reason>)

  /** What the verdict must say of the rows `seen`, in chain order. */
  ghost predicate Describes<F(!new)>(v: Verification, h: Hashing<F>, seen: seq<Row<F>>) {
    if v.ok then
      v.rowsChecked == |seen| && v.brokenAt == None && v.reason == None && Consistent(h, seen)
    else
      && v.rowsChecked < |seen|
      && FirstBad(h, seen, v.rowsChecked)
      && v.brokenAt == Some(seen[v.rowsChecked].chainIndex)
      && v.reason == Some(if seen[v.rowsChecked].prevHash != Before(seen, v.rowsChecked)
                          then PrevHashMismatch else RowHashMismatch)
  }

  /** One batch of the walk, over rows that follow those walked `before`. */
  method WalkBatch<F(!new)>(
    h: Hashing<F>, rows: seq<Row<F>>, previousHash: Option<Bytes>, checked: nat, ghost before: seq<Row<F>>)
    returns (broken: Option<Verification>, hash: Option<Bytes>, ghost seen: seq<Row<F>>)
    requires checked == |before| && Consistent(h, before) && previousHash == Before(before, |before|)
    ensures broken == None ==> seen == before + rows && Consistent(h, seen) && hash == Before(seen, |seen|)
    ensures broken.Some? ==> seen <= before + rows && !broken.value.ok && Describes(broken.value, h, seen)
  {
    broken, hash, seen := None, previousHash, before;
    for i := 0 to |rows|
      invariant seen == before + rows[..i] && Consistent(h, seen) && hash == Before(seen, |seen|)
    {
      var row := rows[i];
      NextRow(before, rows, i);
      if row.prevHash != hash {
        BadRowFound(h, seen, row);
        return Some(Broken(checked + i, row, PrevHashMismatch)), hash, seen + [row];
      }
      if h.RowHash(row.prevHash, row) != row.rowHash {
        BadRowFound(h, seen, row);
        return Some(Broken(checked + i, row, RowHashMismatch)), hash, seen + [row];
      }
      GoodRowExtends(h, seen, row);
      seen := seen + [row];
      hash := Some(row.rowHash);
    }
    assert rows[..|rows|] == rows;
  }

  /**
   The batched walk. `view(q)` is the table in chain order as query number `q` sees it: the count is
   query 0 and each batch is one more. Rows may be appended between queries, so the views only grow.
   The verdict is that of one unbatched pass over the rows seen; a batch size of zero reads nothing
   and reports success.
   */
  method VerifyChain<F(!new)>(h: Hashing<F>, view: nat -> seq<Row<F>>, batchSize: nat)
    returns (v: Verification, queries: nat, ghost seen: seq<Row<F>>)
    requires forall p: nat, q: nat :: p <= q ==> view(p) <= view(q)
    ensures seen <= view(queries)
    ensures Describes(v, h, seen)
    ensures v.ok && batchSize > 0 ==> |view(0)| <= |seen|
    ensures batchSize == 0 ==> v == Verification(true, 0, None, None)
  {
    queries, seen := 0, [];
    var total := |view(0)|;
    if total == 0 {
      return Verification(true, 0, None, None), 0, [];
    }
    var previousHash: Option<Bytes> := None;
    var checked := 0;
    var offset := 0;
    while offset < total
      invariant checked == offset == |seen| && seen <= view(queries)
      invariant Consistent(h, seen)
      invariant previousHash == Before(seen, |seen|)
      invariant batchSize == 0 ==> offset == 0
      decreases total - offset
    {
      queries := queries + 1;
      var table := view(queries);
      assert view(queries - 1) <= table && view(0) <= table;
      var rows := table[offset..if offset + batchSize <= |table| then offset + batchSize else |table|];
      if rows == [] {
        break;
      }
      BatchFollows(table, seen, rows);
      var broken;
      broken, previousHash, seen := WalkBatch(h, rows, previousHash, checked, seen);
      if broken.Some? {
        return broken.value, queries, seen;
      }
      checked := checked + |rows|;
      offset := offset + |rows|;
    }
    v := Verification(true, checked, None, None);
  }

  lemma BatchFollows<F>(table: seq<Row<F>>, seen: seq<Row<F>>, rows: seq<Row<F>>)
    requires seen <= table && |seen| + |rows| <= |table| && rows == table[|seen|..|seen| + |rows|]
    ensures seen + rows <= table
  {
    assert seen + rows == table[..|seen| + |rows|];
  }

  lemma NextRow<F>(before: seq<Row<F>>, rows: seq<Row<F>>, i: nat)
    requires i < |rows|
    ensures before + rows[..i + 1] == before + rows[..i] + [rows[i]]
    ensures before + rows[..i + 1] <= before + rows
  {
    assert rows == rows[..i + 1] + rows[i + 1..];
    assert before + rows == before + rows[..i + 1] + rows[i + 1..];
  }

  /** The verdict on the first row that does not fit. */
  function Broken<F>(checked: nat, row: Row<F>, reason: Reason): Verification {
    Verification(false, checked, Some(row.chainIndex), Some(reason))
  }

  lemma BadRowFound<F(!new)>(h: Hashing<F>, rows: seq<Row<F>>, row: Row<F>)
    requires Consistent(h, rows) && !(row.prevHash == Before(rows, |rows|) && Sealed(h, row))
    ensures var reason := if row.prevHash != Before(rows, |rows|) then PrevHashMismatch else RowHashMismatch;
      Describes(Broken(|rows|, row, reason), h, rows + [row])
  {
    assert (rows + [row])[..|rows|] == rows;
  }

  lemma GoodRowExtends<F(!new)>(h: Hashing<F>, rows: seq<Row<F>>, row: Row<F>)
    requires Consistent(h, rows) && row.prevHash == Before(rows, |rows|) && Sealed(h, row)
    ensures Consistent(h, rows + [row])
  {
    var all := rows + [row];
    forall k | 0 <= k < |all|
      ensures GoodAt(h, all, k)
    {
      assert k < |rows| ==> GoodAt(h, rows, k);
    }
  }

  /** What a row in place commits to: the digest of the hash before it, if there is one, and of its index and fields. */
  lemma GoodRowIs<F(!new)>(h: Hashing<F>, rows: seq<Row<F>>, k: nat)
    requires k < |rows|
    ensures GoodAt(h, rows, k) <==>
      if k == 0 then
        rows[0].prevHash == None && rows[0].rowHash == h.sha([] + h.payload(rows[0].chainIndex, rows[0].fields))
      else
        && rows[k].prevHash == Some(rows[k - 1].rowHash)
        && rows[k].rowHash == h.sha(rows[k - 1].rowHash + h.payload(rows[k].chainIndex, rows[k].fields))
  {
  }

  /** On a table nobody writes to, the verdict is ok exactly when the whole chain is consistent. */
  lemma QuiescentVerdict<F(!new)>(h: Hashing<F>, table: seq<Row<F>>, v: Verification, seen: seq<Row<F>>)
    requires seen <= table && Describes(v, h, seen) && (v.ok ==> |table| <= |seen|)
    ensures v.ok <==> Consistent(h, table)
    ensures v.ok ==> v.rowsChecked == |table|
    ensures !v.ok ==> v.rowsChecked < |table| && FirstBad(h, table, v.rowsChecked)
  {
    if v.ok {
      assert seen == table;
    } else {
      var k := v.rowsChecked;
      assert table[..k] == seen[..k];
      assert GoodAt(h, seen, k) == GoodAt(h, table, k);
    }
  }

  /** The walk over a table nobody writes to. */
  method VerifyTable<F(!new)>(h: Hashing<F>, table: seq<Row<F>>, batchSize: nat) returns (v: Verification)
    requires batchSize > 0
    ensures v.ok <==> Consistent(h, table)
    ensures v.ok ==> v.rowsChecked == |table|
    ensures !v.ok ==>
      && v.rowsChecked < |table| && FirstBad(h, table, v.rowsChecked)
      && v.brokenAt == Some(table[v.rowsChecked].chainIndex)
  {
    var queries;
    ghost var seen;
    v, queries, seen := VerifyChain(h, _ => table, batchSize);
    QuiescentVerdict(h, table, v, seen);
  }

  // ----- what an accepted log fixes

  /** The digest does not send two different inputs of these rows to one value. */
  ghost predicate NoCollision<F(!new)>(h: Hashing<F>, a: seq<Row<F>>, b: seq<Row<F>>) {
    forall r, s :: r in a && s in b && h.RowHash(r.prevHash, r) == h.RowHash(s.prevHash, s)
      ==> h.Input(r.prevHash, r) == h.Input(s.prevHash, s)
  }

  /** Digests have a fixed length. */
  ghost predicate FixedLength<F(!new)>(h: Hashing<F>, rows: seq<Row<F>>) {
    forall r :: r in rows ==> |r.rowHash| == DIGEST_BYTES
  }

  /** Equal hashes at one position pass back to the position before. */
  lemma RowsAgree<F(!new)>(h: Hashing<F>, a: seq<Row<F>>, b: seq<Row<F>>, k: nat)
    requires PayloadIsInjective(h) && NoCollision(h, a, b) && FixedLength(h, a) && FixedLength(h, b)
    requires k < |a| && k < |b| && Consistent(h, a) && Consistent(h, b)
    requires a[k].rowHash == b[k].rowHash
    ensures SameHashedFields(a[k], b[k])
    ensures k > 0 ==> a[k - 1].rowHash == b[k - 1].rowHash
  {
    var r, s := a[k], b[k];
    assert GoodAt(h, a, k) && GoodAt(h, b, k);
    assert r in a && s in b;
    assert h.Input(r.prevHash, r) == h.Input(s.prevHash, s);
    if k > 0 {
      assert a[k - 1] in a && b[k - 1] in b;
      SplitAfter(a[k - 1].rowHash, h.Payload(r), b[k - 1].rowHash, h.Payload(s));
    } else {
      SplitAfter([], h.Payload(r), [], h.Payload(s));
    }
  }

  lemma {:induction false} RowsAgreeUpTo<F(!new)>(h: Hashing<F>, a: seq<Row<F>>, b: seq<Row<F>>, k: nat)
    requires PayloadIsInjective(h) && NoCollision(h, a, b) && FixedLength(h, a) && FixedLength(h, b)
    requires k < |a| && k < |b| && Consistent(h, a) && Consistent(h, b)
    requires a[k].rowHash == b[k].rowHash
    ensures forall j :: 0 <= j <= k ==> SameHashedFields(a[j], b[j])
  {
    RowsAgree(h, a, b, k);
    if k > 0 {
      RowsAgreeUpTo(h, a, b, k - 1);
    }
  }

  /**
   Two accepted logs with as many rows and the same last hash agree on every hashed field of every
   row. Equal length matters: it pairs each row that has a predecessor with one that has one, and
   only then does the fixed digest length split the hashed bytes the same way on both sides.
   */
  lemma SameTailSameLog<F(!new)>(h: Hashing<F>, a: seq<Row<F>>, b: seq<Row<F>>)
    requires PayloadIsInjective(h) && NoCollision(h, a, b) && FixedLength(h, a) && FixedLength(h, b)
    requires Consistent(h, a) && Consistent(h, b) && |a| == |b| > 0
    requires a[|a| - 1].rowHash == b[|b| - 1].rowHash
    ensures forall k :: 0 <= k < |a| ==> SameHashedFields(a[k], b[k])
  {
    RowsAgreeUpTo(h, a, b, |a| - 1);
  }

  lemma SplitAfter(p: Bytes, x: Bytes, q: Bytes, y: Bytes)
    requires |p| == |q| && p + x == q + y
    ensures p == q && x == y
  {
    assert p == (p + x)[..|p|] && q == (q + y)[..|q|];
    assert x == (p + x)[|p|..] && y == (q + y)[|q|..];
  }

  lemma PrefixConsistent<F(!new)>(h: Hashing<F>, rows: seq<Row<F>>, n: nat)
    requires Consistent(h, rows) && n <= |rows|
    ensures Consistent(h, rows[..n])
  {
    forall k | 0 <= k < n
      ensures GoodAt(h, rows[..n], k)
    {
      assert GoodAt(h, rows, k);
    }
  }

  // ----- which changes the walk sees

  /** The digest tells the (previous hash, payload) pairs of these rows apart. */
  ghost predicate Distinguishes<F(!new)>(h: Hashing<F>, rows: seq<Row<F>>) {
    forall r, s :: r in rows && s in rows && h.RowHash(r.prevHash, r) == h.RowHash(s.prevHash, s)
      ==> r.prevHash == s.prevHash && h.Payload(r) == h.Payload(s)
  }

  /**
   Replacing a row that is not the last is accepted exactly when nothing hashed changed. Replacing
   the last row is accepted exactly when the new row is sealed over the same predecessor.
   */
  lemma AlteredRow<F(!new)>(h: Hashing<F>, rows: seq<Row<F>>, k: nat, row: Row<F>)
    requires k < |rows| && Consistent(h, rows)
    requires PayloadIsInjective(h) && Distinguishes(h, rows + [row])
    ensures k < |rows| - 1 ==> (Consistent(h, rows[k := row]) <==> SameHashedFields(row, rows[k]))
    ensures k == |rows| - 1 ==>
      (Consistent(h, rows[k := row]) <==> row.prevHash == rows[k].prevHash && Sealed(h, row))
  {
    var altered := rows[k := row];
    assert GoodAt(h, rows, k);
    assert rows[k] in rows + [row] && row in rows + [row];
    assert Before(altered, k) == Before(rows, k);
    if Consistent(h, altered) {
      assert GoodAt(h, altered, k);
      if k < |rows| - 1 {
        assert GoodAt(h, altered, k + 1) && GoodAt(h, rows, k + 1);
        assert row.rowHash == rows[k].rowHash;
      }
    }
    if row.prevHash == rows[k].prevHash && Sealed(h, row) && (k < |rows| - 1 ==> row.rowHash == rows[k].rowHash) {
      forall i | 0 <= i < |altered|
        ensures GoodAt(h, altered, i)
      {
        assert GoodAt(h, rows, i);
      }
    }
  }

  /** Deleting rows is accepted exactly when it deletes nothing or deletes the newest rows. */
  lemma DeletedRows<F(!new)>(h: Hashing<F>, rows: seq<Row<F>>, i: nat, j: nat)
    requires i <= j <= |rows| && Consistent(h, rows) && Ascending(rows)
    requires PayloadIsInjective(h) && Distinguishes(h, rows)
    ensures Consistent(h, rows[..i] + rows[j..]) <==> i == j || j == |rows|
  {
    var left := rows[..i] + rows[j..];
    if i == j {
      assert left == rows;
    } else if j == |rows| {
      assert left == rows[..i];
      PrefixConsistent(h, rows, i);
    } else {
      assert left[i] == rows[j] && GoodAt(h, rows, j);
      if i > 0 {
        DistinctHashes(h, rows, i - 1, j - 1);
        assert left[i - 1] == rows[i - 1];
      }
      assert !GoodAt(h, left, i);
    }
  }

  lemma DistinctHashes<F(!new)>(h: Hashing<F>, rows: seq<Row<F>>, i: nat, j: nat)
    requires i < j < |rows| && Consistent(h, rows) && Ascending(rows)
    requires PayloadIsInjective(h) && Distinguishes(h, rows)
    ensures rows[i].rowHash != rows[j].rowHash
  {
    assert GoodAt(h, rows, i) && GoodAt(h, rows, j);
    assert rows[i] in rows && rows[j] in rows;
    assert h.Payload(rows[i]) != h.Payload(rows[j]);
  }
}
