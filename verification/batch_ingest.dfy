/**
 * The `/ingest-meta` handler: a JSON body whose `rows` member must be an
 * array of fourteen-column rows, each written with a plain INSERT (no
 * conflict clause) into the fact table, in order.
 */
module BatchIngest {
  import opened FactTable

  /** The `rows` member of the request body. */
  datatype Payload = Absent | NotAnArray | Rows(rows: seq<FactRow>)

  /**
   * The answer: 400 "Invalid payload", 500 "Server error" when an INSERT
   * fails, or the number of rows inserted.
   */
  datatype IngestStatus = InvalidPayload | ServerError | Inserted(count: nat)

  /** No row collides with the table or with another row of the batch. */
  predicate Fresh(t: Table, rows: seq<FactRow>) {
    && (forall i :: 0 <= i < |rows| ==> rows[i].RowKey() !in t)
    && (forall i, j :: 0 <= i < j < |rows| ==> rows[i].RowKey() != rows[j].RowKey())
  }

  /** The table after inserting `rows` one after another. */
  function InsertAll(t: Table, rows: seq<FactRow>): (r: Table)
    ensures r.Keys == t.Keys + KeysOf(rows)
    decreases |rows|
  {
    if |rows| == 0 then t
    else
      KeysOfLast(rows);
      InsertAll(t, rows[..|rows| - 1])[rows[|rows| - 1].RowKey() := rows[|rows| - 1]]
  }

  /** Inserting fresh rows keeps every stored row and stores each new row under its key. */
  lemma {:induction false} InsertAllStores(t: Table, rows: seq<FactRow>)
    requires Fresh(t, rows)
    ensures forall k :: k in t ==> InsertAll(t, rows)[k] == t[k]
    ensures forall i :: 0 <= i < |rows| ==> InsertAll(t, rows)[rows[i].RowKey()] == rows[i]
    decreases |rows|
  {
    if |rows| > 0 {
      var n := |rows| - 1;
      var prefix := rows[..n];
      assert Fresh(t, prefix) by {
        forall i | 0 <= i < n ensures prefix[i] == rows[i] { }
      }
      InsertAllStores(t, prefix);
      forall i | 0 <= i < n ensures InsertAll(t, rows)[rows[i].RowKey()] == rows[i] {
        assert prefix[i] == rows[i];
      }
    }
  }

  /** The first row whose INSERT violates the (date, ad_id) key is row n. */
  predicate FailsAt(t: Table, rows: seq<FactRow>, n: nat) {
    && n < |rows|
    && Fresh(t, rows[..n])
    && rows[n].RowKey() in InsertAll(t, rows[..n])
  }

  lemma FreshExtends(t: Table, rows: seq<FactRow>, i: nat)
    requires i < |rows|
    requires Fresh(t, rows[..i])
    requires rows[i].RowKey() !in InsertAll(t, rows[..i])
    ensures Fresh(t, rows[..i + 1])
  {
    var k := rows[i].RowKey();
    forall j | 0 <= j < i ensures rows[j].RowKey() != k {
      assert rows[..i][j] == rows[j];
      assert rows[j].RowKey() in KeysOf(rows[..i]);
    }
  }

  lemma ConflictIsNotFresh(t: Table, rows: seq<FactRow>, i: nat)
    requires i < |rows|
    requires rows[i].RowKey() in InsertAll(t, rows[..i])
    ensures !Fresh(t, rows)
  {
    var k := rows[i].RowKey();
    if k !in t {
      assert k in KeysOf(rows[..i]);
      var j :| 0 <= j < i && rows[..i][j].RowKey() == k;
      assert rows[j].RowKey() == rows[i].RowKey();
    }
  }

  lemma InsertNext(t: Table, rows: seq<FactRow>, i: nat)
    requires i < |rows|
    ensures InsertAll(t, rows[..i + 1]) == InsertAll(t, rows[..i])[rows[i].RowKey() := rows[i]]
  {
    assert rows[..i + 1][..i] == rows[..i];
  }

  /**
   * A missing or non-array payload is refused before any write. Otherwise
   * the rows are inserted in order; the first one whose key is already
   * stored aborts the request with the earlier inserts kept, and a batch
   * that goes through reports its own length.
   */
  method IngestMeta(t: Table, payload: Payload) returns (t': Table, status: IngestStatus)
    ensures !payload.Rows? ==> t' == t && status == InvalidPayload
    ensures payload.Rows? && Fresh(t, payload.rows) ==>
              status == Inserted(|payload.rows|) && t' == InsertAll(t, payload.rows)
    ensures payload.Rows? && Fresh(t, payload.rows) ==>
              && (forall k :: k in t ==> t'[k] == t[k])
              && (forall i :: 0 <= i < |payload.rows| ==> t'[payload.rows[i].RowKey()] == payload.rows[i])
    ensures payload.Rows? && !Fresh(t, payload.rows) ==>
              && status == ServerError
              && exists n: nat :: FailsAt(t, payload.rows, n) && t' == InsertAll(t, payload.rows[..n])
  {
    if !payload.Rows? {
      return t, InvalidPayload;
    }
    var rows := payload.rows;
    t' := t;
    var i := 0;
    while i < |rows|
      invariant 0 <= i <= |rows|
      invariant Fresh(t, rows[..i])
      invariant t' == InsertAll(t, rows[..i])
    {
      var k := rows[i].RowKey();
      if k in t' {
        assert FailsAt(t, rows, i);
        ConflictIsNotFresh(t, rows, i);
        return t', ServerError;
      }
      FreshExtends(t, rows, i);
      InsertNext(t, rows, i);
      t' := t'[k := rows[i]];
      i := i + 1;
    }
    assert rows[..|rows|] == rows;
    InsertAllStores(t, rows);
    status := Inserted(|rows|);
  }

  /** A payload naming a key twice fails at its second occurrence. */
  lemma DuplicateInBatchFails(t: Table, row: FactRow)
    requires row.RowKey() !in t
    ensures FailsAt(t, [row, row], 1)
  {
    var rows := [row, row];
    assert rows[..1] == [row];
    assert InsertAll(t, rows[..1]) == InsertAll(t, [])[row.RowKey() := row];
  }
}
