/**
 * The `/run-daily` handler: every record of the day's insights feed is
 * reconciled into a fact row (counter defaults, purchase lookup, derived
 * metrics, ad code) and upserted into the fact table, one after another.
 */
module DailySync {
  import opened Wrappers
  import opened Actions
  import Metrics
  import AdCode
  import opened FactTable

  /** One element of the feed's `data` array; absent fields are None. */
  datatype InsightRecord = InsightRecord(
    dateStart: string,
    adId: string,
    adName: Option<string>,
    campaignName: Option<string>,
    impressions: Option<int>,
    clicks: Option<int>,
    spend: Option<real>,
    actions: Option<seq<ActionEntry<int>>>,
    actionValues: Option<seq<ActionEntry<real>>>)

  /** The counters of a record are all absent or non-negative. */
  predicate NonNegativeInputs(rec: InsightRecord) {
    && rec.impressions.GetOr(0) >= 0
    && rec.clicks.GetOr(0) >= 0
    && rec.spend.GetOr(0.0) >= 0.0
    && Purchases(rec.actions) >= 0
    && PurchaseValue(rec.actionValues) >= 0.0
  }

  /** The fourteen insert parameters built from one record. */
  function Reconcile(rec: InsightRecord): (row: FactRow)
    ensures row.RowKey() == Key(rec.dateStart, rec.adId)
    ensures row.adName == rec.adName && row.campaignName == rec.campaignName
    ensures row.impressions == rec.impressions.GetOr(0)
    ensures row.clicks == rec.clicks.GetOr(0)
    ensures row.spend == rec.spend.GetOr(0.0)
    ensures row.purchases == Purchases(rec.actions)
    ensures row.purchaseValue == PurchaseValue(rec.actionValues)
    ensures row.ctr == Metrics.Ctr(row.impressions, row.clicks)
    ensures row.cpc == Metrics.Cpc(row.clicks, row.spend)
    ensures row.cpm == Metrics.Cpm(row.impressions, row.spend)
    ensures row.roas == Metrics.Roas(row.spend, row.purchaseValue)
    ensures row.adCode == AdCode.Derive(rec.adName)
    ensures row.adCode.Some? <==> rec.adName.Some? && AdCode.HasMatch(rec.adName.value)
    ensures row.adCode.Some? ==> AdCode.IsCanonical(row.adCode.value)
    ensures rec.impressions.None? ==> row.impressions == 0 && row.ctr == 0.0 && row.cpm == 0.0
    ensures rec.clicks.None? ==> row.clicks == 0 && row.cpc == 0.0
    ensures rec.spend.None? ==> row.spend == 0.0 && row.roas == 0.0
    ensures rec.actions.None? ==> row.purchases == 0
    ensures rec.actionValues.None? ==> row.purchaseValue == 0.0
    ensures NonNegativeInputs(rec) ==>
              row.ctr >= 0.0 && row.cpc >= 0.0 && row.cpm >= 0.0 && row.roas >= 0.0
  {
    var impressions := rec.impressions.GetOr(0);
    var clicks := rec.clicks.GetOr(0);
    var spend := rec.spend.GetOr(0.0);
    var purchaseValue := PurchaseValue(rec.actionValues);
    FactRow(
      rec.dateStart,
      rec.adId,
      rec.adName,
      AdCode.Derive(rec.adName),
      rec.campaignName,
      spend,
      impressions,
      clicks,
      Metrics.Ctr(impressions, clicks),
      Metrics.Cpc(clicks, spend),
      Metrics.Cpm(impressions, spend),
      Purchases(rec.actions),
      purchaseValue,
      Metrics.Roas(spend, purchaseValue))
  }

  function ReconcileAll(recs: seq<InsightRecord>): (rows: seq<FactRow>)
    ensures |rows| == |recs|
    ensures forall i :: 0 <= i < |recs| ==> rows[i] == Reconcile(recs[i])
  {
    seq(|recs|, i requires 0 <= i < |recs| => Reconcile(recs[i]))
  }

  /** What the handler answers: the feed error, or how many ads it synced for which day. */
  datatype DailyStatus = MetaApiError | Synced(count: nat, date: string)

  /**
   * The handler body after the fetch. `feed` is the response's `data`
   * member, None when the response has none; `date` is the requested day.
   */
  method RunDaily(t: Table, date: string, feed: Option<seq<InsightRecord>>) returns (t': Table, status: DailyStatus)
    ensures feed.None? ==> t' == t && status == MetaApiError
    ensures feed.Some? ==> status == Synced(|feed.value|, date)
    ensures feed.Some? ==> t' == UpsertAll(t, ReconcileAll(feed.value))
  {
    if feed.None? {
      return t, MetaApiError;
    }
    var recs := feed.value;
    ghost var rows := ReconcileAll(recs);
    assert |rows| == |recs|;
    t' := t;
    var i := 0;
    while i < |recs|
      invariant 0 <= i <= |recs|
      invariant t' == UpsertAll(t, rows[..i])
    {
      var row := Reconcile(recs[i]);
      assert rows[i] == row;
      UpsertAllNext(t, rows, i);
      t' := Upsert(t', row);
      i := i + 1;
    }
    assert rows[..|recs|] == rows;
    status := Synced(|recs|, date);
  }

  /** Two records of the feed share a (date_start, ad_id) key. */
  predicate SameKey(a: InsightRecord, b: InsightRecord) {
    a.dateStart == b.dateStart && a.adId == b.adId
  }

  /**
   * After a sync, a key of the feed holds the eleven updated columns of the
   * last record carrying it.
   */
  lemma SyncLastRecordWins(t: Table, recs: seq<InsightRecord>, i: nat)
    requires i < |recs|
    requires forall j :: i < j < |recs| ==> !SameKey(recs[j], recs[i])
    ensures Key(recs[i].dateStart, recs[i].adId) in UpsertAll(t, ReconcileAll(recs))
    ensures SameUpdatedColumns(UpsertAll(t, ReconcileAll(recs))[Key(recs[i].dateStart, recs[i].adId)], Reconcile(recs[i]))
  {
    UpsertAllLastWins(t, ReconcileAll(recs), i);
  }

  /**
   * A stored row keeps the `ad_code` it was first inserted with, however
   * the ad's name changes in later records.
   */
  lemma SyncKeepsStoredAdCode(t: Table, recs: seq<InsightRecord>, k: Key)
    requires k in t
    ensures k in UpsertAll(t, ReconcileAll(recs))
    ensures UpsertAll(t, ReconcileAll(recs))[k].adCode == t[k].adCode
  {
    UpsertAllKeepsStored(t, ReconcileAll(recs), k);
  }

  /** A key new to the table takes its `ad_code` from the first record carrying it. */
  lemma SyncNewKeyTakesFirstAdCode(t: Table, recs: seq<InsightRecord>, i: nat)
    requires i < |recs|
    requires Key(recs[i].dateStart, recs[i].adId) !in t
    requires forall j :: 0 <= j < i ==> !SameKey(recs[j], recs[i])
    ensures Key(recs[i].dateStart, recs[i].adId) in UpsertAll(t, ReconcileAll(recs))
    ensures UpsertAll(t, ReconcileAll(recs))[Key(recs[i].dateStart, recs[i].adId)].adCode == AdCode.Derive(recs[i].adName)
  {
    UpsertAllFirstInsertKept(t, ReconcileAll(recs), i);
  }

  /** Running the same day's feed twice leaves the table as running it once. */
  lemma SyncTwiceIsSyncOnce(t: Table, recs: seq<InsightRecord>)
    ensures UpsertAll(UpsertAll(t, ReconcileAll(recs)), ReconcileAll(recs)) == UpsertAll(t, ReconcileAll(recs))
  {
    RerunIsIdempotent(t, ReconcileAll(recs));
  }

  /** A sync never stores a row under a key other than its own. */
  lemma SyncKeepsWellKeyed(t: Table, recs: seq<InsightRecord>)
    requires WellKeyed(t)
    ensures WellKeyed(UpsertAll(t, ReconcileAll(recs)))
  {
    UpsertAllKeepsWellKeyed(t, ReconcileAll(recs));
  }

  /** A record reconciled end to end: purchase lookup and the four metrics. */
  lemma ReconcileExample()
    ensures
      var row := Reconcile(InsightRecord(
        "2024-01-05", "42", None, Some("Summer"),
        Some(1000), Some(20), Some(50.0),
        Some([ActionEntry("purchase", 3)]), Some([ActionEntry("purchase", 150.0)])));
      && row.ctr == 2.0 && row.cpc == 2.5 && row.cpm == 50.0 && row.roas == 3.0
      && row.purchases == 3 && row.purchaseValue == 150.0
  {
    Metrics.MetricsExample();
    assert IsFirstOfType([ActionEntry("purchase", 3)], PurchaseType, 0);
    assert IsFirstOfType([ActionEntry("purchase", 150.0)], PurchaseType, 0);
  }
}
