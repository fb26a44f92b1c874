/**
 * The `meta_ads_fact` table as a map from its conflict key (date, ad_id) to
 * its rows, and the INSERT ... ON CONFLICT (date, ad_id) DO UPDATE statement
 * of the daily sync as a function on that map.
 */
module FactTable {
  import opened Wrappers

  /** The conflict target of the upsert. */
  datatype Key = Key(date: string, adId: string)

  /** One row of `meta_ads_fact`: its fourteen columns, in insertion order. */
  datatype FactRow = FactRow(
    date: string,
    adId: string,
    adName: Option<string>,
    adCode: Option<string>,
    campaignName: Option<string>,
    spend: real,
    impressions: int,
    clicks: int,
    ctr: real,
    cpc: real,
    cpm: real,
    purchases: int,
    purchaseValue: real,
    roas: real)
  {
    function RowKey(): Key {
      Key(date, adId)
    }
  }

  type Table = map<Key, FactRow>

  /** Every stored row sits under its own key. */
  ghost predicate WellKeyed(t: Table) {
    forall k :: k in t ==> t[k].RowKey() == k
  }

  /** The eleven columns that the DO UPDATE SET clause overwrites agree. */
  predicate SameUpdatedColumns(a: FactRow, b: FactRow) {
    && a.adName == b.adName
    && a.campaignName == b.campaignName
    && a.spend == b.spend
    && a.impressions == b.impressions
    && a.clicks == b.clicks
    && a.ctr == b.ctr
    && a.cpc == b.cpc
    && a.cpm == b.cpm
    && a.purchases == b.purchases
    && a.purchaseValue == b.purchaseValue
    && a.roas == b.roas
  }

  /** The three columns the update leaves alone agree: the key and `ad_code`. */
  predicate SameKeptColumns(a: FactRow, b: FactRow) {
    a.date == b.date && a.adId == b.adId && a.adCode == b.adCode
  }

  lemma RowsAgreeEverywhere(a: FactRow, b: FactRow)
    requires SameKeptColumns(a, b) && SameUpdatedColumns(a, b)
    ensures a == b
  {
  }

  /** The stored row after DO UPDATE SET col = EXCLUDED.col for the eleven columns. */
  function Overwrite(stored: FactRow, incoming: FactRow): (r: FactRow)
    ensures SameKeptColumns(r, stored) && SameUpdatedColumns(r, incoming)
  {
    stored.(
      adName := incoming.adName,
      campaignName := incoming.campaignName,
      spend := incoming.spend,
      impressions := incoming.impressions,
      clicks := incoming.clicks,
      ctr := incoming.ctr,
      cpc := incoming.cpc,
      cpm := incoming.cpm,
      purchases := incoming.purchases,
      purchaseValue := incoming.purchaseValue,
      roas := incoming.roas)
  }

  /**
   * INSERT of `row`; on a conflict on (date, ad_id) the stored row gets the
   * eleven updated columns of `row` and keeps its key and its `ad_code`.
   */
  function Upsert(t: Table, row: FactRow): (r: Table)
    ensures r.Keys == t.Keys + {row.RowKey()}
    ensures forall k :: k in t && k != row.RowKey() ==> r[k] == t[k]
    ensures row.RowKey() !in t ==> r[row.RowKey()] == row
    ensures row.RowKey() in t ==>
              && SameKeptColumns(r[row.RowKey()], t[row.RowKey()])
              && SameUpdatedColumns(r[row.RowKey()], row)
  {
    var k := row.RowKey();
    if k in t then t[k := Overwrite(t[k], row)] else t[k := row]
  }

  lemma UpsertKeepsWellKeyed(t: Table, row: FactRow)
    requires WellKeyed(t)
    ensures WellKeyed(Upsert(t, row))
  {
  }

  /** Upserting the same row twice leaves the table as upserting it once. */
  lemma UpsertIdempotent(t: Table, row: FactRow)
    ensures Upsert(Upsert(t, row), row) == Upsert(t, row)
  {
    var k := row.RowKey();
    var once := Upsert(t, row);
    var twice := Upsert(once, row);
    RowsAgreeEverywhere(twice[k], once[k]);
  }

  /** Rows with different keys may be upserted in either order. */
  lemma UpsertCommutes(t: Table, a: FactRow, b: FactRow)
    requires a.RowKey() != b.RowKey()
    ensures Upsert(Upsert(t, a), b) == Upsert(Upsert(t, b), a)
  {
    var ab := Upsert(Upsert(t, a), b);
    var ba := Upsert(Upsert(t, b), a);
    RowsAgreeEverywhere(ab[a.RowKey()], ba[a.RowKey()]);
    RowsAgreeEverywhere(ab[b.RowKey()], ba[b.RowKey()]);
  }

  /** The keys of a sequence of rows. */
  function KeysOf(rows: seq<FactRow>): set<Key> {
    set i | 0 <= i < |rows| :: rows[i].RowKey()
  }

  /** The keys of a non-empty sequence: those of its prefix and of its last row. */
  lemma KeysOfLast(rows: seq<FactRow>)
    requires |rows| > 0
    ensures KeysOf(rows) == KeysOf(rows[..|rows| - 1]) + {rows[|rows| - 1].RowKey()}
  {
    var prefix := rows[..|rows| - 1];
    forall k | k in KeysOf(rows) ensures k in KeysOf(prefix) + {rows[|rows| - 1].RowKey()} {
      var i :| 0 <= i < |rows| && rows[i].RowKey() == k;
      if i < |rows| - 1 {
        assert prefix[i] == rows[i];
      }
    }
    forall k | k in KeysOf(prefix) ensures k in KeysOf(rows) {
      var i :| 0 <= i < |prefix| && prefix[i].RowKey() == k;
      assert rows[i] == prefix[i];
    }
  }

  /** The rows upserted one after another, in order, as the daily loop does. */
  function UpsertAll(t: Table, rows: seq<FactRow>): (r: Table)
    ensures r.Keys == t.Keys + KeysOf(rows)
    decreases |rows|
  {
    if |rows| == 0 then t
    else
      KeysOfLast(rows);
      Upsert(UpsertAll(t, rows[..|rows| - 1]), rows[|rows| - 1])
  }

  /** One more iteration of the loop upserts the next row. */
  lemma UpsertAllNext(t: Table, rows: seq<FactRow>, i: nat)
    requires i < |rows|
    ensures UpsertAll(t, rows[..i + 1]) == Upsert(UpsertAll(t, rows[..i]), rows[i])
  {
    assert rows[..i + 1][..i] == rows[..i];
  }

  lemma {:induction false} UpsertAllKeepsWellKeyed(t: Table, rows: seq<FactRow>)
    requires WellKeyed(t)
    ensures WellKeyed(UpsertAll(t, rows))
    decreases |rows|
  {
    if |rows| > 0 {
      UpsertAllKeepsWellKeyed(t, rows[..|rows| - 1]);
      UpsertKeepsWellKeyed(UpsertAll(t, rows[..|rows| - 1]), rows[|rows| - 1]);
    }
  }

  /** A key no row carries keeps its stored row, or stays absent. */
  lemma {:induction false} UpsertAllElsewhere(t: Table, rows: seq<FactRow>, k: Key)
    requires forall i :: 0 <= i < |rows| ==> rows[i].RowKey() != k
    ensures k in UpsertAll(t, rows) <==> k in t
    ensures k in t ==> UpsertAll(t, rows)[k] == t[k]
    decreases |rows|
  {
    if |rows| > 0 {
      UpsertAllElsewhere(t, rows[..|rows| - 1], k);
    }
  }

  /** A stored row keeps its key and its `ad_code` whatever is upserted. */
  lemma {:induction false} UpsertAllKeepsStored(t: Table, rows: seq<FactRow>, k: Key)
    requires k in t
    ensures k in UpsertAll(t, rows) && SameKeptColumns(UpsertAll(t, rows)[k], t[k])
    decreases |rows|
  {
    if |rows| > 0 {
      UpsertAllKeepsStored(t, rows[..|rows| - 1], k);
    }
  }

  /**
   * A key first seen in the batch is inserted from its first row: the row's
   * date, ad_id and `ad_code` stay for good.
   */
  lemma {:induction false} UpsertAllFirstInsertKept(t: Table, rows: seq<FactRow>, i: nat)
    requires i < |rows|
    requires rows[i].RowKey() !in t
    requires forall j :: 0 <= j < i ==> rows[j].RowKey() != rows[i].RowKey()
    ensures rows[i].RowKey() in UpsertAll(t, rows)
    ensures SameKeptColumns(UpsertAll(t, rows)[rows[i].RowKey()], rows[i])
    decreases |rows|
  {
    var prefix := rows[..|rows| - 1];
    if i < |rows| - 1 {
      UpsertAllFirstInsertKept(t, prefix, i);
    } else {
      UpsertAllElsewhere(t, prefix, rows[i].RowKey());
    }
  }

  /** Last write wins: the eleven updated columns come from the last row with that key. */
  lemma {:induction false} UpsertAllLastWins(t: Table, rows: seq<FactRow>, i: nat)
    requires i < |rows|
    requires forall j :: i < j < |rows| ==> rows[j].RowKey() != rows[i].RowKey()
    ensures rows[i].RowKey() in UpsertAll(t, rows)
    ensures SameUpdatedColumns(UpsertAll(t, rows)[rows[i].RowKey()], rows[i])
    decreases |rows|
  {
    if i < |rows| - 1 {
      UpsertAllLastWins(t, rows[..|rows| - 1], i);
    }
  }

  /** The index of the last row carrying key k, if any. */
  function LastIndexOf(rows: seq<FactRow>, k: Key): (r: Option<nat>)
    ensures r.Some? ==> r.value < |rows| && rows[r.value].RowKey() == k
    ensures r.Some? ==> forall j :: r.value < j < |rows| ==> rows[j].RowKey() != k
    ensures r.None? ==> forall j :: 0 <= j < |rows| ==> rows[j].RowKey() != k
    decreases |rows|
  {
    if |rows| == 0 then None
    else if rows[|rows| - 1].RowKey() == k then Some(|rows| - 1)
    else LastIndexOf(rows[..|rows| - 1], k)
  }

  /**
   * Re-running the same batch on its own result changes nothing: the second
   * pass rewrites every touched row with the values it already holds.
   */
  lemma RerunIsIdempotent(t: Table, rows: seq<FactRow>)
    ensures UpsertAll(UpsertAll(t, rows), rows) == UpsertAll(t, rows)
  {
    var once := UpsertAll(t, rows);
    var twice := UpsertAll(once, rows);
    forall k | k in once ensures twice[k] == once[k] {
      match LastIndexOf(rows, k)
      case None =>
        UpsertAllElsewhere(once, rows, k);
      case Some(i) =>
        UpsertAllLastWins(t, rows, i);
        UpsertAllLastWins(once, rows, i);
        UpsertAllKeepsStored(once, rows, k);
        RowsAgreeEverywhere(twice[k], once[k]);
    }
  }
}
