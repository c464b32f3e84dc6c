/**
 * The chunked load both BigQuery extractors share: the rows go to the
 * database `chunk_size` at a time, the first chunk replacing the table and
 * every later one appending to it (scripts/extrair_anatel.py and
 * scripts/extrair_sao_paulo_municipio.py).
 */
module Chunks {
  import opened Wrappers
  import opened Values
  import Sql

  datatype WriteMode = Replace | Append

  /** The number of chunks `range(0, n, c)` yields: n / c rounded up. */
  function TotalChunks(n: nat, c: nat): nat
    requires c > 0
  {
    (n + c - 1) / c
  }

  /** Multiplying by a natural number keeps the order. */
  lemma {:induction false} MulMono(x: nat, y: nat, c: nat)
    requires x <= y
    ensures x * c <= y * c
    decreases y - x
  {
    if x < y {
      MulMono(x, y - 1, c);
      assert (y - 1) * c + c == y * c;
    }
  }

  /** For c > 0, a * c <= m exactly when a <= m / c. */
  lemma MulLeIffLeDiv(a: nat, c: nat, m: nat)
    requires c > 0
    ensures a * c <= m <==> a <= m / c
  {
    var q, r := m / c, m % c;
    assert m == q * c + r && 0 <= r < c;
    if a <= q {
      MulMono(a, q, c);
    } else {
      MulMono(q + 1, a, c);
      assert (q + 1) * c == q * c + c;
    }
  }

  /** Division by c gives q when the dividend is q * c plus a remainder below c. */
  lemma DivUnique(x: nat, c: nat, q: nat, r: nat)
    requires c > 0 && x == q * c + r && r < c
    ensures x / c == q
  {
    MulLeIffLeDiv(q, c, x);
    MulLeIffLeDiv(q + 1, c, x);
    assert (q + 1) * c == q * c + c;
  }

  /** Chunk i starts before the end of the rows exactly when i is below the chunk count. */
  lemma StartBelowEnd(n: nat, c: nat, i: nat)
    requires c > 0
    ensures i * c < n <==> i < TotalChunks(n, c)
  {
    MulLeIffLeDiv(i + 1, c, n + c - 1);
    assert (i + 1) * c == i * c + c;
  }

  /** The chunk count is the least k with k * c >= n. */
  lemma TotalChunksCovers(n: nat, c: nat)
    requires c > 0
    ensures TotalChunks(n, c) * c >= n
    ensures TotalChunks(n, c) > 0 ==> (TotalChunks(n, c) - 1) * c < n
  {
    var t := TotalChunks(n, c);
    StartBelowEnd(n, c, t);
    if t > 0 {
      StartBelowEnd(n, c, t - 1);
    }
  }

  /** All the chunks together reach the end of the rows. */
  lemma AllChunksReachEnd(n: nat, c: nat)
    requires c > 0
    ensures Sql.Min(TotalChunks(n, c) * c, n) == n
  {
    TotalChunksCovers(n, c);
  }

  /** `range(0, n, c)` for a positive step: 0, c, 2c, ... up to but excluding n. */
  function ChunkStarts(n: nat, c: nat): (starts: seq<nat>)
    requires c > 0
    ensures |starts| == TotalChunks(n, c)
    ensures forall i :: 0 <= i < |starts| ==> starts[i] == i * c < n
    ensures forall i :: 0 <= i < |starts| - 1 ==> starts[i + 1] == starts[i] + c
  {
    var t := TotalChunks(n, c);
    assert forall i :: 0 <= i < t ==> i * c < n by {
      forall i | 0 <= i < t ensures i * c < n {
        StartBelowEnd(n, c, i);
      }
    }
    assert forall i :: 0 <= i < t - 1 ==> (i + 1) * c == i * c + c;
    seq(t, i requires 0 <= i < t => i * c)
  }

  /** `df.iloc[start:min(start + c, n)]` for the i-th start. */
  function Chunk<T>(rows: seq<T>, c: nat, i: nat): (chunk: seq<T>)
    requires c > 0 && i * c < |rows|
    ensures 1 <= |chunk| <= c
  {
    rows[i * c .. Sql.Min(i * c + c, |rows|)]
  }

  /** `"replace" if i == 0 else "append"` */
  function ModeOf(i: nat): (m: WriteMode)
    ensures m == Replace <==> i == 0
  {
    if i == 0 then Replace else Append
  }

  /** The modes of the first k writes. */
  function Modes(k: nat): (ms: seq<WriteMode>)
    ensures |ms| == k
    ensures forall i :: 0 <= i < k ==> ms[i] == ModeOf(i)
  {
    seq(k, i requires 0 <= i < k => ModeOf(i))
  }

  /** The first k chunks, concatenated. */
  function Written<T>(rows: seq<T>, c: nat, k: nat): seq<T>
    requires c > 0 && k <= TotalChunks(|rows|, c)
  {
    if k == 0 then []
    else
      StartBelowEnd(|rows|, c, k - 1);
      Written(rows, c, k - 1) + Chunk(rows, c, k - 1)
  }

  /**
   * The first k chunks are the rows before position min(k * c, n), each row
   * exactly once and in order; all the chunks together are all the rows.
   */
  lemma {:induction false} WrittenPrefix<T>(rows: seq<T>, c: nat, k: nat)
    requires c > 0 && k <= TotalChunks(|rows|, c)
    ensures Written(rows, c, k) == rows[..Sql.Min(k * c, |rows|)]
    ensures k == TotalChunks(|rows|, c) ==> Written(rows, c, k) == rows
  {
    if k > 0 {
      WrittenPrefix(rows, c, k - 1);
      StartBelowEnd(|rows|, c, k - 1);
      var lo, hi := (k - 1) * c, k * c;
      assert lo + c == hi;
      PrefixThenSlice(rows, lo, Sql.Min(hi, |rows|));
    }
    if k == TotalChunks(|rows|, c) {
      AllChunksReachEnd(|rows|, c);
      assert rows[..|rows|] == rows;
    }
  }

  /** The rows before lo followed by the rows from lo to hi are the rows before hi. */
  lemma PrefixThenSlice<T>(rows: seq<T>, lo: nat, hi: nat)
    requires lo <= hi <= |rows|
    ensures rows[..lo] + rows[lo..hi] == rows[..hi]
  {
  }

  /** `total_chunks = len(df) // chunk_size + 1`, the count the progress log reports. */
  function LoggedTotalChunks(n: nat, c: nat): nat
    requires c > 0
  {
    n / c + 1
  }

  /** The reported count is one too many exactly when c divides n, and right otherwise. */
  lemma LoggedTotalOvershoots(n: nat, c: nat)
    requires c > 0
    ensures n % c == 0 ==> LoggedTotalChunks(n, c) == TotalChunks(n, c) + 1
    ensures n % c != 0 ==> LoggedTotalChunks(n, c) == TotalChunks(n, c)
  {
    var q, r := n / c, n % c;
    assert n == q * c + r;
    if r == 0 {
      DivUnique(n + c - 1, c, q, c - 1);
    } else {
      assert (q + 1) * c == q * c + c;
      DivUnique(n + c - 1, c, q + 1, r - 1);
    }
  }

  /** 20000 rows in chunks of 10000 are written as 2 chunks and reported as "of 3". */
  lemma LoggedTotalExample()
    ensures TotalChunks(20000, 10000) == 2 && LoggedTotalChunks(20000, 10000) == 3
  {
  }

  /** A database table as the loads see it: its rows and the modes of the writes made to it. */
  class Table {
    var rows: seq<Record>
    var writes: seq<WriteMode>

    constructor (initial: seq<Record>)
      ensures rows == initial && writes == []
    {
      rows := initial;
      writes := [];
    }

    /** `chunk.to_sql(..., if_exists=mode)` that succeeds. */
    method ToSql(chunk: seq<Record>, mode: WriteMode)
      modifies this
      ensures rows == if mode == Replace then chunk else old(rows) + chunk
      ensures writes == old(writes) + [mode]
    {
      rows := if mode == Replace then chunk else rows + chunk;
      writes := writes + [mode];
    }
  }

  /** How many chunk writes succeed when the write of chunk `failAt` (if any) raises. */
  function Succeeded(total: nat, failAt: Option<nat>): nat {
    if failAt.Some? && failAt.value < total then failAt.value else total
  }

  /** One more chunk: where it starts, where the next one starts, and the first i + 1 chunks. */
  lemma WrittenStep<T>(rows: seq<T>, c: nat, i: nat)
    requires c > 0 && i < TotalChunks(|rows|, c)
    ensures i * c < |rows| && i * c + c == (i + 1) * c
    ensures (i + 1) * c < |rows| <==> i + 1 < TotalChunks(|rows|, c)
    ensures Written(rows, c, i + 1) == Written(rows, c, i) + rows[i * c .. Sql.Min(i * c + c, |rows|)]
  {
    StartBelowEnd(|rows|, c, i);
    StartBelowEnd(|rows|, c, i + 1);
  }

  /** The modes of the first i + 1 writes extend those of the first i. */
  lemma ModesStep(i: nat)
    ensures Modes(i + 1) == Modes(i) + [ModeOf(i)]
  {
  }

  /**
   * The chunk loop for a positive chunk size: the table receives chunk 0
   * with Replace and each later chunk with Append.  `failAt` is the chunk
   * whose write raises, if any; a write that raises leaves the table as it
   * was and the loop returns False.
   */
  method WriteChunks(t: Table, rows: seq<Record>, c: nat, failAt: Option<nat>) returns (ok: bool)
    requires c > 0
    modifies t
    ensures var k := Succeeded(TotalChunks(|rows|, c), failAt);
      && (ok <==> k == TotalChunks(|rows|, c))
      && t.writes == old(t.writes) + Modes(k)
      && t.rows == (if k == 0 then old(t.rows) else rows[..Sql.Min(k * c, |rows|)])
  {
    var n := |rows|;
    ghost var total := TotalChunks(n, c);
    var i: nat := 0;
    var start: nat := 0;
    while start < n
      invariant start == i * c
      invariant i <= total
      invariant (start < n) <==> i < total
      invariant failAt.Some? ==> i <= failAt.value
      invariant t.writes == old(t.writes) + Modes(i)
      invariant t.rows == if i == 0 then old(t.rows) else Written(rows, c, i)
      decreases n - start
    {
      WrittenStep(rows, c, i);
      ModesStep(i);
      if failAt.Some? && failAt.value == i {
        WrittenPrefix(rows, c, i);
        return false;
      }
      var stop := Sql.Min(start + c, n);
      var chunk := rows[start..stop];
      var mode := if i == 0 then Replace else Append;
      t.ToSql(chunk, mode);
      i := i + 1;
      start := start + c;
    }
    WrittenPrefix(rows, c, i);
    return true;
  }

  /**
   * `_insert_to_postgres`'s loop over `range(0, len(df), chunk_size)`.  A
   * chunk size of 0 raises (ZeroDivisionError) before anything is written;
   * a negative one gives an empty range, so nothing is written and the
   * result is True.
   */
  method InsertInChunks(t: Table, rows: seq<Record>, chunkSize: int, failAt: Option<nat>) returns (ok: bool)
    modifies t
    ensures chunkSize == 0 ==> !ok && t.rows == old(t.rows) && t.writes == old(t.writes)
    ensures chunkSize < 0 ==> ok && t.rows == old(t.rows) && t.writes == old(t.writes)
    ensures chunkSize > 0 ==>
      var k := Succeeded(TotalChunks(|rows|, chunkSize), failAt);
      && (ok <==> k == TotalChunks(|rows|, chunkSize))
      && t.writes == old(t.writes) + Modes(k)
      && t.rows == (if k == 0 then old(t.rows) else rows[..Sql.Min(k * chunkSize, |rows|)])
  {
    if chunkSize == 0 {
      return false;
    }
    if chunkSize < 0 {
      return true;
    }
    ok := WriteChunks(t, rows, chunkSize, failAt);
  }
}
