/** The key-indicator cards: the record total and the tallies per band and
    per status over the records one list request returns. */
module Kpi {
  import opened Scoring
  import opened Store
  import opened Validation
  import opened ListRoute
  import opened Matrix

  datatype KpiData = KpiData(
    total: nat,
    critical: nat,
    high: nat,
    moderate: nat,
    low: nat,
    open: nat,
    monitoring: nat,
    closed: nat)

  /** What the cards show before any response has arrived. */
  function InitialKpi(): (k: KpiData)
    ensures k.total == 0 && k.critical + k.high + k.moderate + k.low == 0
    ensures k.open + k.monitoring + k.closed == 0
  {
    KpiData(0, 0, 0, 0, 0, 0, 0, 0)
  }

  /** The outcome of the request: a response that is not OK, a transport
      failure, or an OK response carrying its `items`. */
  datatype FetchResult = NotOk | Failed | Ok(items: seq<Risk>)

  /** The indicators computed from one page of records: each band card
      is the number of records stored with that band and each status card
      the number stored with that status; the band tallies add up to at
      most the total, and to exactly the total when every stored band is
      one of the four names; likewise for the statuses. */
  function KpiFrom(items: seq<Risk>): (k: KpiData)
    ensures k.total == |items|
    ensures k.critical == CountBand(items, "Critical") && k.high == CountBand(items, "High")
      && k.moderate == CountBand(items, "Moderate") && k.low == CountBand(items, "Low")
    ensures k.open == CountStatus(items, "Open") && k.monitoring == CountStatus(items, "Monitoring")
      && k.closed == CountStatus(items, "Closed")
    ensures k.critical + k.high + k.moderate + k.low <= k.total
    ensures (forall j :: 0 <= j < |items| ==> ParseBand(items[j].band).Some?) ==>
      k.critical + k.high + k.moderate + k.low == k.total
    ensures k.open + k.monitoring + k.closed <= k.total
    ensures (forall j :: 0 <= j < |items| ==> ParseStatus(items[j].status).Some?) ==>
      k.open + k.monitoring + k.closed == k.total
  {
    BandTalliesSum(items);
    StatusTalliesSum(items);
    KpiData(
      |items|,
      CountBand(items, "Critical"),
      CountBand(items, "High"),
      CountBand(items, "Moderate"),
      CountBand(items, "Low"),
      CountStatus(items, "Open"),
      CountStatus(items, "Monitoring"),
      CountStatus(items, "Closed"))
  }

  /** The state after the request completes: replaced on an OK response,
      kept otherwise. */
  function AfterFetch(current: KpiData, result: FetchResult): (k: KpiData)
    ensures result.Ok? ==> k == KpiFrom(result.items)
    ensures !result.Ok? ==> k == current
  {
    match result
    case Ok(items) => KpiFrom(items)
    case _ => current
  }

  /** The cards request a page size of 1000 and the server caps it at 100,
      so the total shown is at most 100 whatever the database holds, and
      each band card shows what a band-filtered count over that page
      reports. */
  lemma KpiOfDatabase(db: seq<Risk>)
    ensures ListGet(Up(db), FetchAllQuery()).ListOk?
    ensures var items := ListGet(Up(db), FetchAllQuery()).items;
      AfterFetch(InitialKpi(), Ok(items)).total <= 100
      && AfterFetch(InitialKpi(), Ok(items)).critical == Count(items, Where(Some("Critical"), None))
      && AfterFetch(InitialKpi(), Ok(items)).high == Count(items, Where(Some("High"), None))
      && AfterFetch(InitialKpi(), Ok(items)).moderate == Count(items, Where(Some("Moderate"), None))
      && AfterFetch(InitialKpi(), Ok(items)).low == Count(items, Where(Some("Low"), None))
  {
    FetchAllCapped(db);
    var items := ListGet(Up(db), FetchAllQuery()).items;
    TallyIsBandCount(items, "Critical");
    TallyIsBandCount(items, "High");
    TallyIsBandCount(items, "Moderate");
    TallyIsBandCount(items, "Low");
  }

  /** A storage failure answers the request with status 500, so the cards
      keep showing zeros. */
  lemma KpiOfFailure()
    ensures ListStatusCode(ListGet(Down, FetchAllQuery())) == 500
    ensures AfterFetch(InitialKpi(), NotOk) == InitialKpi()
  {
    assert ParseQuery(FetchAllQuery()).Valid?;
    ListGetRespondsToParse(Down, FetchAllQuery());
  }
}
