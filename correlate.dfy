/** The corroboration scorer (backend/analysis/correlate.py): the score and status rules,
    the grid-cell keyword table, and the scoring run over the graph store. The store is a
    class whose fields are the node properties and relationship sets the run reads or
    writes; a Cypher MERGE of a relationship is a set insert. */
module Correlate {
  import opened Text
  import Sorting

  // ---------------------------------------------------------------------------
  // Configuration (correlate.py:72-86)
  // ---------------------------------------------------------------------------

  const SpatialRadiusKm: int := 50
  /** Declared next to the radius, but the flight query never uses it. */
  const TemporalWindowHours: int := 1
  const EventLookbackHours: int := 24

  const ScoreTier1Source: int := 20
  const ScoreTier2Source: int := 10
  const ScoreTier3Source: int := 5
  const ScoreTier3Cap: int := 30
  const ScoreMilitaryFlight: int := 40

  const StatusUnverified: int := 30
  const StatusPlausible: int := 60

  /** The proxy tag the flight collector puts on fast, high aircraft. */
  const MilitaryTag: string := "high_altitude_fast"

  // ---------------------------------------------------------------------------
  // Score and status
  // ---------------------------------------------------------------------------

  datatype Status = Unverified | Plausible | Confirmed

  /** The text the store and the report carry for a status. */
  function StatusName(s: Status): string {
    match s
    case Unverified => "Unverified"
    case Plausible => "Plausible"
    case Confirmed => "Confirmed"
  }

  function StatusRank(s: Status): nat {
    match s
    case Unverified => 0
    case Plausible => 1
    case Confirmed => 2
  }

  /** What the flight query returns: matched flights, and those carrying the proxy tag. */
  datatype FlightCounts = FlightCounts(total: nat, military: nat)

  /** What narrative linking returns: article counts by source tier (posts count as
      tier 3) and the names of the publishing sources. */
  datatype TierCounts = TierCounts(tier1: nat, tier2: nat, tier3: nat, sources: set<string>)

  function Min(a: int, b: int): int {
    if a <= b then a else b
  }

  /** The points before the final cap of 100. */
  function RawScore(flight: FlightCounts, source: TierCounts): nat {
    (if source.tier1 > 0 then ScoreTier1Source else 0)
    + (if source.tier2 > 0 then ScoreTier2Source else 0)
    + Min(source.tier3 * ScoreTier3Source, ScoreTier3Cap)
    + (if flight.military > 0 then ScoreMilitaryFlight else 0)
  }

  /** calculate_score. */
  function CalculateScore(flight: FlightCounts, source: TierCounts): (score: int)
    ensures 0 <= score <= 100
  {
    Min(RawScore(flight, source), 100)
  }

  /** The largest raw sum is 20 + 10 + 30 + 40 = 100, so the cap never changes the score. */
  lemma ScoreCapNeverBinds(flight: FlightCounts, source: TierCounts)
    ensures RawScore(flight, source) <= 100
    ensures CalculateScore(flight, source) == RawScore(flight, source)
  {
  }

  /** Tier-3 evidence is worth min(5 * tier3, 30), on top of whatever else there is. */
  lemma ScoreTier3Capped(flight: FlightCounts, source: TierCounts)
    ensures CalculateScore(flight, source)
         == CalculateScore(flight, source.(tier3 := 0)) + Min(5 * source.tier3, 30)
  {
  }

  /** Any positive tier-1 count is worth exactly 20, however large. */
  lemma ScoreTier1Flat(flight: FlightCounts, source: TierCounts, n: nat)
    requires n > 0
    ensures CalculateScore(flight, source.(tier1 := n)) == CalculateScore(flight, source.(tier1 := 0)) + 20
  {
  }

  /** Any positive tier-2 count is worth exactly 10, however large. */
  lemma ScoreTier2Flat(flight: FlightCounts, source: TierCounts, n: nat)
    requires n > 0
    ensures CalculateScore(flight, source.(tier2 := n)) == CalculateScore(flight, source.(tier2 := 0)) + 10
  {
  }

  /** Any positive count of tagged flights is worth exactly 40, however large. */
  lemma ScoreMilitaryFlat(flight: FlightCounts, source: TierCounts, n: nat)
    requires n > 0
    ensures CalculateScore(flight.(military := n), source) == CalculateScore(flight.(military := 0), source) + 40
  {
  }

  /** More evidence of any kind never lowers the score. */
  lemma ScoreMonotone(f1: FlightCounts, s1: TierCounts, f2: FlightCounts, s2: TierCounts)
    requires f1.military <= f2.military
    requires s1.tier1 <= s2.tier1 && s1.tier2 <= s2.tier2 && s1.tier3 <= s2.tier3
    ensures CalculateScore(f1, s1) <= CalculateScore(f2, s2)
  {
  }

  /** Posts and tier-3 articles alone, however many, never make an event Confirmed. */
  lemma Tier3AloneNeverConfirms(flight: FlightCounts, source: TierCounts)
    requires flight.military == 0 && source.tier1 == 0 && source.tier2 == 0
    ensures CalculateScore(flight, source) <= ScoreTier3Cap
    ensures GetStatus(CalculateScore(flight, source)) != Confirmed
  {
  }

  /** get_status: below 30 Unverified, below 60 Plausible, otherwise Confirmed (so 60 itself
      is Confirmed, although the module docstring says "> 60"). */
  function GetStatus(score: int): (st: Status)
    ensures st == Unverified <==> score < StatusUnverified
    ensures st == Plausible <==> StatusUnverified <= score < StatusPlausible
    ensures st == Confirmed <==> StatusPlausible <= score
  {
    if score < StatusUnverified then Unverified
    else if score < StatusPlausible then Plausible
    else Confirmed
  }

  /** A higher score never gets a lower status. */
  lemma StatusMonotone(a: int, b: int)
    requires a <= b
    ensures StatusRank(GetStatus(a)) <= StatusRank(GetStatus(b))
  {
  }

  // ---------------------------------------------------------------------------
  // Grid cells and their place names (correlate.py:95-114, 238-256)
  // ---------------------------------------------------------------------------

  const GridToLocation: map<string, seq<string>> := map[
    "Grid_32_35" := ["Israel", "Tel Aviv", "Jerusalem", "West Bank"],
    "Grid_31_35" := ["Israel", "Jerusalem", "Gaza"],
    "Grid_32_34" := ["Israel", "Tel Aviv"],
    "Grid_34_36" := ["Lebanon", "Beirut"],
    "Grid_33_36" := ["Lebanon"],
    "Grid_34_35" := ["Lebanon", "Golan Heights"],
    "Grid_35_36" := ["Syria", "Damascus"],
    "Grid_35_37" := ["Syria"],
    "Grid_36_37" := ["Syria", "Aleppo"],
    "Grid_36_36" := ["Syria", "Idlib"],
    "Grid_31_34" := ["Gaza", "Palestine"],
    "Grid_32_36" := ["Jordan"],
    "Grid_31_36" := ["Jordan"]
  ]

  /** get_location_keywords: the table entry for a known cell, nothing otherwise. */
  function GetLocationKeywords(gridLocation: Option<string>): (kws: seq<string>)
    ensures gridLocation.Some? && gridLocation.value in GridToLocation ==> kws == GridToLocation[gridLocation.value]
    ensures gridLocation.None? || gridLocation.value !in GridToLocation ==> kws == []
    ensures gridLocation == Some("") ==> kws == []
  {
    if gridLocation.None? || gridLocation.value == "" then []
    else if gridLocation.value in GridToLocation then GridToLocation[gridLocation.value]
    else []
  }

  /** A cell name with a '.' in it (as a float rendering produces) is in no table entry. */
  lemma DottedCellHasNoKeywords(cell: string)
    requires '.' in cell
    ensures GetLocationKeywords(Some(cell)) == []
  {
    forall k | k in GridToLocation ensures '.' !in k {
    }
  }

  // ---------------------------------------------------------------------------
  // Tier aggregation over the article query's rows (correlate.py:321-341)
  // ---------------------------------------------------------------------------

  /** One row of the article query: a source tier (absent when the Source has none), the
      number of distinct matched articles published by a source of that tier, and those
      sources' names. */
  datatype TierRow = TierRow(tier: Option<int>, articleCount: nat, sources: set<string>)

  /** Where a row's count goes: tier 1, tier 2, and everything else (missing tier included)
      to tier 3. */
  function Bucket(tier: Option<int>): nat {
    if tier == Some(1) then 1 else if tier == Some(2) then 2 else 3
  }

  /** The article count of the rows that go to bucket b. */
  function CountIn(rows: seq<TierRow>, b: nat): nat {
    if rows == [] then 0
    else CountIn(rows[..|rows| - 1], b) + (if Bucket(rows[|rows| - 1].tier) == b then rows[|rows| - 1].articleCount else 0)
  }

  function TotalArticles(rows: seq<TierRow>): nat {
    if rows == [] then 0 else TotalArticles(rows[..|rows| - 1]) + rows[|rows| - 1].articleCount
  }

  function SourcesIn(rows: seq<TierRow>): set<string> {
    if rows == [] then {} else SourcesIn(rows[..|rows| - 1]) + rows[|rows| - 1].sources
  }

  /** The tier-aggregation loop of link_narrative_sources: every row's count lands in
      exactly one of the three tiers, and the post count is added to tier 3. */
  method AggregateTiers(rows: seq<TierRow>, postCount: nat) returns (tc: TierCounts)
    ensures tc.tier1 == CountIn(rows, 1) && tc.tier2 == CountIn(rows, 2)
    ensures tc.tier3 == CountIn(rows, 3) + postCount
    ensures tc.sources == SourcesIn(rows)
    ensures tc.tier1 + tc.tier2 + tc.tier3 == TotalArticles(rows) + postCount
  {
    var tier1, tier2, tier3 := 0, 0, 0;
    var sources: set<string> := {};
    var i := 0;
    while i < |rows|
      invariant 0 <= i <= |rows|
      invariant tier1 == CountIn(rows[..i], 1) && tier2 == CountIn(rows[..i], 2)
      invariant tier3 == CountIn(rows[..i], 3)
      invariant sources == SourcesIn(rows[..i])
    {
      var row := rows[i];
      assert rows[..i + 1][..i] == rows[..i];
      if row.tier == Some(1) {
        tier1 := tier1 + row.articleCount;
      } else if row.tier == Some(2) {
        tier2 := tier2 + row.articleCount;
      } else {
        tier3 := tier3 + row.articleCount;
      }
      sources := sources + row.sources;
      i := i + 1;
    }
    assert rows[..i] == rows;
    tier3 := tier3 + postCount;
    CountInPartition(rows);
    tc := TierCounts(tier1, tier2, tier3, sources);
  }

  /** The three buckets split the article rows' total. */
  lemma {:induction false} CountInPartition(rows: seq<TierRow>)
    ensures CountIn(rows, 1) + CountIn(rows, 2) + CountIn(rows, 3) == TotalArticles(rows)
  {
    if rows != [] {
      CountInPartition(rows[..|rows| - 1]);
    }
  }

  // ---------------------------------------------------------------------------
  // Counting pairs by tier: the closed form the grouped rows add up to
  // ---------------------------------------------------------------------------

  /** The (article, tier) pairs whose tier goes to bucket b. */
  function PairsIn(pairs: set<(string, Option<int>)>, b: nat): set<(string, Option<int>)> {
    set x | x in pairs && Bucket(x.1) == b
  }

  /** The distinct articles paired with tier t: count(DISTINCT a) for that tier's row. */
  function ArticlesWithTier(pairs: set<(string, Option<int>)>, t: Option<int>): set<string> {
    set x | x in pairs && x.1 == t :: x.0
  }

  function PairsWithTier(pairs: set<(string, Option<int>)>, t: Option<int>): set<(string, Option<int>)> {
    set x | x in pairs && x.1 == t
  }

  /** Within one tier an article appears once, so counting distinct articles is counting pairs. */
  lemma {:induction false} ArticlesWithTierCount(pairs: set<(string, Option<int>)>, t: Option<int>)
    ensures |ArticlesWithTier(pairs, t)| == |PairsWithTier(pairs, t)|
    decreases |pairs|
  {
    var ps := PairsWithTier(pairs, t);
    if ps != {} {
      var x :| x in ps;
      var rest := pairs - {x};
      ArticlesWithTierCount(rest, t);
      assert PairsWithTier(rest, t) == ps - {x};
      assert ArticlesWithTier(pairs, t) == ArticlesWithTier(rest, t) + {x.0};
      assert x.0 !in ArticlesWithTier(rest, t);
    } else {
      assert ArticlesWithTier(pairs, t) == {};
    }
  }

  /** The row tiers of a grouping. */
  function RowTiers(rows: seq<TierRow>): set<Option<int>> {
    set r | r in rows :: r.tier
  }

  /** rows is the article query's result over these pairs: one row per tier present, with
      that tier's distinct article count. */
  ghost predicate GroupsPairs(rows: seq<TierRow>, pairs: set<(string, Option<int>)>) {
    && (forall i, j :: 0 <= i < j < |rows| ==> rows[i].tier != rows[j].tier)
    && (forall r :: r in rows ==> r.articleCount == |ArticlesWithTier(pairs, r.tier)|)
  }

  /** The pairs of bucket b whose tier is one of the given tiers. */
  function PairsInTiers(pairs: set<(string, Option<int>)>, b: nat, tiers: set<Option<int>>): set<(string, Option<int>)> {
    set x | x in pairs && Bucket(x.1) == b && x.1 in tiers
  }

  lemma PairsInTiersAdd(pairs: set<(string, Option<int>)>, b: nat, tiers: set<Option<int>>, t: Option<int>)
    requires t !in tiers
    ensures Bucket(t) == b ==> PairsInTiers(pairs, b, tiers + {t}) == PairsInTiers(pairs, b, tiers) + PairsWithTier(pairs, t)
    ensures Bucket(t) == b ==> PairsInTiers(pairs, b, tiers) !! PairsWithTier(pairs, t)
    ensures Bucket(t) != b ==> PairsInTiers(pairs, b, tiers + {t}) == PairsInTiers(pairs, b, tiers)
  {
  }

  /** Dropping the last row of a grouping leaves a grouping, one tier short. */
  lemma GroupsPairsInit(rows: seq<TierRow>, pairs: set<(string, Option<int>)>)
    requires rows != [] && GroupsPairs(rows, pairs)
    ensures GroupsPairs(rows[..|rows| - 1], pairs)
    ensures RowTiers(rows) == RowTiers(rows[..|rows| - 1]) + {rows[|rows| - 1].tier}
    ensures rows[|rows| - 1].tier !in RowTiers(rows[..|rows| - 1])
  {
    var init := rows[..|rows| - 1];
    var last := rows[|rows| - 1];
    assert rows == init + [last];
    forall r | r in init ensures r in rows {
    }
    forall k | 0 <= k < |init| ensures init[k].tier != last.tier {
      assert init[k] == rows[k];
    }
  }

  /** A row for a tier not yet present extends a grouping. */
  lemma GroupsPairsSnoc(rows: seq<TierRow>, pairs: set<(string, Option<int>)>, row: TierRow)
    requires GroupsPairs(rows, pairs) && row.tier !in RowTiers(rows)
    requires row.articleCount == |ArticlesWithTier(pairs, row.tier)|
    ensures GroupsPairs(rows + [row], pairs)
    ensures RowTiers(rows + [row]) == RowTiers(rows) + {row.tier}
  {
    var r := rows + [row];
    forall i, j | 0 <= i < j < |r| ensures r[i].tier != r[j].tier {
      assert r[i] == rows[i];
      if j < |rows| {
        assert r[j] == rows[j];
      } else {
        assert rows[i] in rows;
      }
    }
  }

  /** Summing a grouping's rows of one bucket counts the pairs of that bucket whose tier
      has a row. */
  lemma {:induction false} GroupedCountIn(rows: seq<TierRow>, pairs: set<(string, Option<int>)>, b: nat)
    requires GroupsPairs(rows, pairs)
    ensures CountIn(rows, b) == |PairsInTiers(pairs, b, RowTiers(rows))|
  {
    if rows == [] {
      assert PairsInTiers(pairs, b, RowTiers(rows)) == {};
    } else {
      var init := rows[..|rows| - 1];
      var last := rows[|rows| - 1];
      GroupsPairsInit(rows, pairs);
      GroupedCountIn(init, pairs, b);
      ArticlesWithTierCount(pairs, last.tier);
      PairsInTiersAdd(pairs, b, RowTiers(init), last.tier);
    }
  }

  // ---------------------------------------------------------------------------
  // The graph store
  // ---------------------------------------------------------------------------

  /** The Event properties the loader sets that this core reads. */
  datatype EventNode = EventNode(timestamp: Option<string>, lat: Option<real>, lon: Option<real>,
                                 eventCode: Option<string>)

  /** confidence_score, status and scored_at: the three Event properties this core writes. */
  datatype Scoring = Scoring(confidenceScore: int, status: Status, scoredAt: string)

  datatype FlightNode = FlightNode(latitude: Option<real>, longitude: Option<real>, tag: Option<string>)

  /** One row of the candidate-event query. */
  datatype EventRow = EventRow(id: string, timestamp: Option<string>, lat: Option<real>, lon: Option<real>,
                               eventCode: Option<string>, gridLocation: Option<string>)

  /** One line of the run's result table. */
  datatype ResultRow = ResultRow(id: string, location: Option<string>, score: int, status: Status,
                                 sources: set<string>, flights: nat, military: nat)

  datatype Report = Report(results: seq<ResultRow>, confirmed: nat, plausible: nat, unverified: nat)

  /** The distance test of the flight query: whether the points (lat1, lon1) and (lat2, lon2)
      are at most radiusMeters apart. It is supplied by the caller. */
  type WithinRadius = (real, real, real, real, int) -> bool

  /** Python truthiness of the id, lat and lon the flight guard checks: "" and 0.0 are false. */
  predicate SpatialGuard(row: EventRow) {
    row.id != "" && row.lat.Some? && row.lat.value != 0.0 && row.lon.Some? && row.lon.value != 0.0
  }

  /** The id shown in the result table: at most 20 characters, then "...". */
  function DisplayId(id: string): (r: string)
    ensures |id| <= 20 ==> r == id
    ensures |id| > 20 ==> |r| == 23 && r[..20] == id[..20]
  {
    if |id| > 20 then id[..20] + "..." else id
  }

  /** A post text mentions one of the keywords, ignoring case; a missing text never does. */
  predicate PostMentions(text: Option<string>, kws: seq<string>) {
    text.Some? && exists k :: k in kws && Contains(Lower(text.value), Lower(k))
  }

  /** Stands for Neo4j's ORDER BY e.timestamp DESC: a missing timestamp first, then later
      timestamps before earlier ones. */
  predicate NewestFirst(a: EventRow, b: EventRow) {
    a.timestamp.None? || (b.timestamp.Some? && StrLe(b.timestamp.value, a.timestamp.value))
  }

  /** Orders result rows by non-increasing score. */
  predicate ByScore(a: ResultRow, b: ResultRow) {
    a.score >= b.score
  }

  lemma NewestFirstIsPreorder()
    ensures Sorting.TotalPreorder(NewestFirst)
  {
    forall a, b ensures NewestFirst(a, b) || NewestFirst(b, a) {
      if a.timestamp.Some? && b.timestamp.Some? {
        StrLeTotal(a.timestamp.value, b.timestamp.value);
      }
    }
    forall a, b, c | NewestFirst(a, b) && NewestFirst(b, c) ensures NewestFirst(a, c) {
      if a.timestamp.Some? {
        StrLeTransitive(c.timestamp.value, b.timestamp.value, a.timestamp.value);
      }
    }
  }

  lemma ByScoreIsPreorder()
    ensures Sorting.TotalPreorder(ByScore)
  {
  }

  /** The number of results with status st (the summary counts of main). */
  function CountStatus(results: seq<ResultRow>, st: Status): nat {
    if results == [] then 0
    else CountStatus(results[..|results| - 1], st) + (if results[|results| - 1].status == st then 1 else 0)
  }

  /** Every result has exactly one of the three statuses. */
  lemma {:induction false} StatusCountsSum(results: seq<ResultRow>)
    ensures CountStatus(results, Confirmed) + CountStatus(results, Plausible) + CountStatus(results, Unverified)
         == |results|
  {
    if results != [] {
      StatusCountsSum(results[..|results| - 1]);
    }
  }

  /** Adding edges in two steps adds their union. */
  lemma UnionAssoc(a: set<(string, string)>, b: set<(string, string)>, c: set<(string, string)>)
    ensures a + b + c == a + (b + c)
  {
  }

  /** Taking one tier off the pending set moves it to the done ones. */
  lemma PendingStep(all: set<Option<int>>, pending: set<Option<int>>, t: Option<int>)
    requires pending <= all && t in pending
    ensures pending - {t} <= all && all - (pending - {t}) == (all - pending) + {t}
    ensures |pending - {t}| < |pending|
  {
  }

  /** Setting a key after an override is overriding with the key set. */
  lemma OverrideThenSet<K, V>(before: map<K, V>, w: map<K, V>, k: K, v: V)
    ensures (before + w)[k := v] == before + w[k := v]
  {
  }

  class GraphStore {
    /** Event nodes by id, with the properties the loader sets. */
    const events: map<string, EventNode>
    /** The scoring properties of scored events, by event id. */
    var scoring: map<string, Scoring>
    /** (:Event)-[:OCCURRED_IN]->(:Location) as (event id, location name). */
    const occurredIn: set<(string, string)>
    /** Flight nodes by icao24. */
    const flights: map<string, FlightNode>
    /** Source nodes by name, with their tier property. */
    const sourceTier: map<string, Option<int>>
    /** (:Source)-[:PUBLISHED]->(:Article) as (source name, article id). */
    const published: set<(string, string)>
    /** (:Article)-[:MENTIONS]->(:Location) as (article id, location name). */
    const mentions: set<(string, string)>
    /** Post nodes by id, with their text property. */
    const postText: map<string, Option<string>>
    /** (:Flight)-[:DETECTED_NEAR]->(:Event) as (flight id, event id). */
    var detectedNear: set<(string, string)>
    /** (:Article)-[:CORROBORATES]->(:Event) as (article id, event id). */
    var articleCorroborates: set<(string, string)>
    /** (:Post)-[:CORROBORATES]->(:Event) as (post id, event id). */
    var postCorroborates: set<(string, string)>

    /** A store holding the given nodes and read-only edges, with nothing scored or linked. */
    constructor (events: map<string, EventNode>, occurredIn: set<(string, string)>,
                 flights: map<string, FlightNode>, sourceTier: map<string, Option<int>>,
                 published: set<(string, string)>, mentions: set<(string, string)>,
                 postText: map<string, Option<string>>)
      ensures this.events == events && this.occurredIn == occurredIn && this.flights == flights
      ensures this.sourceTier == sourceTier && this.published == published
      ensures this.mentions == mentions && this.postText == postText
      ensures scoring == map[] && detectedNear == {} && articleCorroborates == {} && postCorroborates == {}
    {
      this.events, this.occurredIn, this.flights := events, occurredIn, flights;
      this.sourceTier, this.published, this.mentions, this.postText := sourceTier, published, mentions, postText;
      scoring, detectedNear, articleCorroborates, postCorroborates := map[], {}, {}, {};
    }

    // ----- Step A: flights near an event (correlate.py:189-235) -----

    /** The flights with a position whose distance to the stored event is within the radius;
        none when the event is not in the store or has no position. No time window applies. */
    function NearbyFlights(eventId: string, within: WithinRadius): set<string>
    {
      if eventId in events && events[eventId].lat.Some? && events[eventId].lon.Some? then
        var e := events[eventId];
        set f | f in flights && flights[f].latitude.Some? && flights[f].longitude.Some?
                && within(e.lat.value, e.lon.value, flights[f].latitude.value, flights[f].longitude.value,
                          SpatialRadiusKm * 1000)
      else {}
    }

    function MilitaryNearby(eventId: string, within: WithinRadius): set<string>
    {
      set f | f in NearbyFlights(eventId, within) && f in flights && flights[f].tag == Some(MilitaryTag)
    }

    /** What link_nearby_flights returns for a row. */
    function FlightEvidence(row: EventRow, within: WithinRadius): (fc: FlightCounts)
      ensures fc.military <= fc.total
      ensures !SpatialGuard(row) ==> fc == FlightCounts(0, 0)
      ensures row.id !in events ==> fc == FlightCounts(0, 0)
    {
      if !SpatialGuard(row) then FlightCounts(0, 0)
      else
        var near := NearbyFlights(row.id, within);
        var military := MilitaryNearby(row.id, within);
        Sorting.SubsetCard(military, near);
        FlightCounts(|near|, |military|)
    }

    /** The DETECTED_NEAR edges the flight query merges for a row. */
    function NearEdges(row: EventRow, within: WithinRadius): set<(string, string)>
    {
      if SpatialGuard(row) then set f | f in NearbyFlights(row.id, within) :: (f, row.id) else {}
    }

    /** link_nearby_flights: merges a DETECTED_NEAR edge from every nearby flight and returns
        the counts. Merging is a set insert, so a second call adds nothing. */
    method LinkNearbyFlights(row: EventRow, within: WithinRadius) returns (fc: FlightCounts)
      modifies this`detectedNear
      ensures fc == FlightEvidence(row, within)
      ensures detectedNear == old(detectedNear) + NearEdges(row, within)
    {
      if !SpatialGuard(row) {
        return FlightCounts(0, 0);
      }
      var near := NearbyFlights(row.id, within);
      detectedNear := detectedNear + (set f | f in near :: (f, row.id));
      fc := FlightCounts(|near|, |MilitaryNearby(row.id, within)|);
    }

    // ----- Step B: articles and posts naming the event's place (correlate.py:259-341) -----

    /** Articles with a MENTIONS edge to a Location named by one of the keywords; none when
        the event is not in the store. */
    function MatchedArticles(eventId: string, kws: seq<string>): set<string>
    {
      if eventId in events then set m | m in mentions && m.1 in kws :: m.0 else {}
    }

    /** Posts whose text contains one of the keywords, ignoring case; none when the event is
        not in the store. */
    function MatchedPosts(eventId: string, kws: seq<string>): set<string>
    {
      if eventId in events then set p | p in postText && PostMentions(postText[p], kws) else {}
    }

    /** (article, tier) for each of the articles and each Source node that published it. */
    function TierPairs(articles: set<string>): set<(string, Option<int>)>
    {
      set e | e in published && e.1 in articles && e.0 in sourceTier :: (e.1, sourceTier[e.0])
    }

    function SourcesWithTier(articles: set<string>, t: Option<int>): set<string>
    {
      set e | e in published && e.1 in articles && e.0 in sourceTier && sourceTier[e.0] == t :: e.0
    }

    function SourcesOf(articles: set<string>): set<string>
    {
      set e | e in published && e.1 in articles && e.0 in sourceTier :: e.0
    }

    /** What link_narrative_sources returns for a row, in closed form: tier 1 and tier 2
        count the distinct matched articles published by a source of that tier; tier 3 counts,
        tier by tier, those published by a source of any other or no tier, plus every matched
        post. */
    function NarrativeEvidence(row: EventRow): (tc: TierCounts)
      ensures row.id == "" || row.id !in events ==> tc == TierCounts(0, 0, 0, {})
      ensures GetLocationKeywords(row.gridLocation) == [] ==> tc.tier1 == 0 && tc.tier2 == 0 && tc.tier3 == 0
    {
      if row.id == "" then TierCounts(0, 0, 0, {})
      else
        var kws := GetLocationKeywords(row.gridLocation);
        var articles := MatchedArticles(row.id, kws);
        var pairs := TierPairs(articles);
        var posts := MatchedPosts(row.id, kws);
        assert kws == [] || row.id !in events ==> articles == {} && pairs == {} && posts == {};
        TierCounts(|PairsIn(pairs, 1)|, |PairsIn(pairs, 2)|, |PairsIn(pairs, 3)| + |posts|, SourcesOf(articles))
    }

    function ArticleEdges(row: EventRow): set<(string, string)>
    {
      if row.id == "" then {}
      else set a | a in MatchedArticles(row.id, GetLocationKeywords(row.gridLocation)) :: (a, row.id)
    }

    function PostEdges(row: EventRow): set<(string, string)>
    {
      if row.id == "" then {}
      else set p | p in MatchedPosts(row.id, GetLocationKeywords(row.gridLocation)) :: (p, row.id)
    }

    /** rows are the article query's rows for these articles so far: a grouping of their
        (article, tier) pairs, each row with the names of the sources of its tier. */
    ghost predicate TierRowsOf(rows: seq<TierRow>, articles: set<string>) {
      && GroupsPairs(rows, TierPairs(articles))
      && forall r :: r in rows ==> r.sources == SourcesWithTier(articles, r.tier)
    }

    lemma TierRowsSnoc(rows: seq<TierRow>, articles: set<string>, t: Option<int>)
      requires TierRowsOf(rows, articles) && t !in RowTiers(rows)
      ensures var row := TierRow(t, |ArticlesWithTier(TierPairs(articles), t)|, SourcesWithTier(articles, t));
        TierRowsOf(rows + [row], articles) && RowTiers(rows + [row]) == RowTiers(rows) + {t}
    {
      var row := TierRow(t, |ArticlesWithTier(TierPairs(articles), t)|, SourcesWithTier(articles, t));
      GroupsPairsSnoc(rows, TierPairs(articles), row);
    }

    /** The article query's rows for the matched articles: one per tier present among
        their publishers, with the distinct article count and source names of that tier.
        The query leaves the row order open; so does this method. */
    method ArticleTierRows(articles: set<string>) returns (rows: seq<TierRow>)
      ensures TierRowsOf(rows, articles)
      ensures RowTiers(rows) == set x | x in TierPairs(articles) :: x.1
    {
      var pairs := TierPairs(articles);
      var all := set x | x in pairs :: x.1;
      var pending := all;
      rows := [];
      while pending != {}
        invariant pending <= all && RowTiers(rows) == all - pending
        invariant TierRowsOf(rows, articles)
        decreases |pending|
      {
        var t :| t in pending;
        var row := TierRow(t, |ArticlesWithTier(pairs, t)|, SourcesWithTier(articles, t));
        TierRowsSnoc(rows, articles, t);
        PendingStep(all, pending, t);
        rows := rows + [row];
        pending := pending - {t};
      }
    }

    /** link_narrative_sources: merges a CORROBORATES edge from every matched article and
        post, and aggregates the tier counts. With no event id nothing happens. */
    method LinkNarrativeSources(row: EventRow) returns (tc: TierCounts)
      modifies this`articleCorroborates, this`postCorroborates
      ensures tc == NarrativeEvidence(row)
      ensures articleCorroborates == old(articleCorroborates) + ArticleEdges(row)
      ensures postCorroborates == old(postCorroborates) + PostEdges(row)
    {
      if row.id == "" {
        return TierCounts(0, 0, 0, {});
      }
      var kws := GetLocationKeywords(row.gridLocation);
      var articles := MatchedArticles(row.id, kws);
      articleCorroborates := articleCorroborates + (set a | a in articles :: (a, row.id));
      var rows := ArticleTierRows(articles);
      var posts := MatchedPosts(row.id, kws);
      postCorroborates := postCorroborates + (set p | p in posts :: (p, row.id));
      tc := AggregateTiers(rows, |posts|);
      NarrativeFromRows(articles, rows);
    }

    /** The aggregated rows give the closed-form counts and the full set of source names. */
    lemma NarrativeFromRows(articles: set<string>, rows: seq<TierRow>)
      requires TierRowsOf(rows, articles)
      requires RowTiers(rows) == set x | x in TierPairs(articles) :: x.1
      ensures forall b: nat :: CountIn(rows, b) == |PairsIn(TierPairs(articles), b)|
      ensures SourcesIn(rows) == SourcesOf(articles)
    {
      var pairs := TierPairs(articles);
      forall b: nat ensures CountIn(rows, b) == |PairsIn(pairs, b)| {
        GroupedCountIn(rows, pairs, b);
        assert PairsInTiers(pairs, b, RowTiers(rows)) == PairsIn(pairs, b);
      }
      SourcesInRows(articles, rows);
    }

    lemma {:induction false} SourcesInRows(articles: set<string>, rows: seq<TierRow>)
      requires forall r :: r in rows ==> r.sources == SourcesWithTier(articles, r.tier)
      requires RowTiers(rows) == set x | x in TierPairs(articles) :: x.1
      ensures SourcesIn(rows) == SourcesOf(articles)
    {
      SourcesInUnion(articles, rows);
      forall s | s in SourcesOf(articles) ensures s in SourcesIn(rows) {
        var e :| e in published && e.1 in articles && e.0 in sourceTier && e.0 == s;
        assert (e.1, sourceTier[e.0]) in TierPairs(articles);
        assert sourceTier[e.0] in RowTiers(rows);
        var r :| r in rows && r.tier == sourceTier[e.0];
        assert s in SourcesWithTier(articles, r.tier);
      }
    }

    /** The sources collected over the rows are the sources of those rows' tiers. */
    lemma {:induction false} SourcesInUnion(articles: set<string>, rows: seq<TierRow>)
      requires forall r :: r in rows ==> r.sources == SourcesWithTier(articles, r.tier)
      ensures SourcesIn(rows) == set e | e in published && e.1 in articles && e.0 in sourceTier
                                         && sourceTier[e.0] in RowTiers(rows) :: e.0
    {
      if rows != [] {
        var init := rows[..|rows| - 1];
        assert rows == init + [rows[|rows| - 1]];
        SourcesInUnion(articles, init);
        assert RowTiers(rows) == RowTiers(init) + {rows[|rows| - 1].tier};
      }
    }

    // ----- Step C write-back (correlate.py:402-424) -----

    /** update_event_score: sets the three scoring properties of the event with this id, if
        there is one, and nothing else. */
    method UpdateEventScore(eventId: string, score: int, status: Status, scoredAt: string)
      modifies this`scoring
      ensures scoring == if eventId in events then old(scoring)[eventId := Scoring(score, status, scoredAt)]
                         else old(scoring)
    {
      if eventId in events {
        scoring := scoring[eventId := Scoring(score, status, scoredAt)];
      }
    }

    // ----- Candidate events (correlate.py:158-186) -----

    /** Events whose timestamp is at or after the cutoff (as strings), or missing. */
    predicate Selected(id: string, cutoff: string)
      requires id in events
    {
      events[id].timestamp.None? || StrLe(cutoff, events[id].timestamp.value)
    }

    function RowFor(id: string, location: Option<string>): EventRow
      requires id in events
    {
      var e := events[id];
      EventRow(id, e.timestamp, e.lat, e.lon, e.eventCode, location)
    }

    /** The rows of the candidate query: one per OCCURRED_IN location of a selected event,
        or one with no location when it has none. */
    function RecentRows(cutoff: string): (rows: set<EventRow>)
      ensures forall r :: r in rows ==> r.id in events && Selected(r.id, cutoff)
    {
      (set p | p in occurredIn && p.0 in events && Selected(p.0, cutoff) :: RowFor(p.0, Some(p.1)))
      + (set id | id in events && Selected(id, cutoff) && (forall p :: p in occurredIn ==> p.0 != id)
                :: RowFor(id, None))
    }

    /** Every selected event, one with no timestamp included, has a row for each place
        it occurred in, or a single row with no location when it has none. */
    lemma RecentRowsComplete(cutoff: string, id: string)
      requires id in events && Selected(id, cutoff)
      ensures exists r :: r in RecentRows(cutoff) && r.id == id
      ensures forall p :: p in occurredIn && p.0 == id ==> RowFor(id, Some(p.1)) in RecentRows(cutoff)
      ensures (forall p :: p in occurredIn ==> p.0 != id) ==> RowFor(id, None) in RecentRows(cutoff)
    {
      if forall p :: p in occurredIn ==> p.0 != id {
        assert RowFor(id, None) in RecentRows(cutoff);
      } else {
        var p :| p in occurredIn && p.0 == id;
        assert RowFor(id, Some(p.1)) in RecentRows(cutoff);
      }
    }

    /** get_recent_events: every candidate row exactly once, newest first. */
    method GetRecentEvents(cutoff: string) returns (rows: seq<EventRow>)
      ensures multiset(rows) == multiset(RecentRows(cutoff))
      ensures Sorting.SortedDesc(rows, NewestFirst)
    {
      var all := RecentRows(cutoff);
      var found := Sorting.Enumerate(all);
      NewestFirstIsPreorder();
      Sorting.SortDescSorted(found, NewestFirst);
      rows := Sorting.SortDesc(found, NewestFirst);
    }

    // ----- The scoring run (correlate.py:431-530) -----

    /** The result line one candidate row yields, from the evidence in the store. */
    function ResultFor(row: EventRow, within: WithinRadius): (r: ResultRow)
      ensures 0 <= r.score <= 100 && r.status == GetStatus(r.score)
      ensures r.military <= r.flights
    {
      var fc := FlightEvidence(row, within);
      var tc := NarrativeEvidence(row);
      var score := CalculateScore(fc, tc);
      ResultRow(DisplayId(row.id), row.gridLocation, score, GetStatus(score), tc.sources, fc.total, fc.military)
    }

    /** The result lines of the rows, in row order. */
    function ResultsFor(rows: seq<EventRow>, within: WithinRadius): (rs: seq<ResultRow>)
      ensures |rs| == |rows|
    {
      if rows == [] then [] else ResultsFor(rows[..|rows| - 1], within) + [ResultFor(rows[|rows| - 1], within)]
    }

    /** The scoring properties after writing back the rows in order (a later row for the
        same event overwrites an earlier one). */
    function ScoredAfter(before: map<string, Scoring>, rows: seq<EventRow>, within: WithinRadius,
                         now: string): map<string, Scoring>
    {
      if rows == [] then before
      else
        var m := ScoredAfter(before, rows[..|rows| - 1], within, now);
        var row := rows[|rows| - 1];
        var r := ResultFor(row, within);
        if row.id in events then m[row.id := Scoring(r.score, r.status, now)] else m
    }

    function AllNearEdges(rows: seq<EventRow>, within: WithinRadius): set<(string, string)>
    {
      if rows == [] then {} else AllNearEdges(rows[..|rows| - 1], within) + NearEdges(rows[|rows| - 1], within)
    }

    function AllArticleEdges(rows: seq<EventRow>): set<(string, string)>
    {
      if rows == [] then {} else AllArticleEdges(rows[..|rows| - 1]) + ArticleEdges(rows[|rows| - 1])
    }

    function AllPostEdges(rows: seq<EventRow>): set<(string, string)>
    {
      if rows == [] then {} else AllPostEdges(rows[..|rows| - 1]) + PostEdges(rows[|rows| - 1])
    }

    /** Writing back scores overrides the earlier map with what the rows write on
        their own. */
    lemma {:induction false} ScoredAfterOverrides(before: map<string, Scoring>, rows: seq<EventRow>,
                                                  within: WithinRadius, now: string)
      ensures ScoredAfter(before, rows, within, now) == before + ScoredAfter(map[], rows, within, now)
    {
      if rows == [] {
        assert before + map[] == before;
      } else {
        var init := rows[..|rows| - 1];
        ScoredAfterOverrides(before, init, within, now);
        var row := rows[|rows| - 1];
        if row.id in events {
          var r := ResultFor(row, within);
          OverrideThenSet(before, ScoredAfter(map[], init, within, now), row.id, Scoring(r.score, r.status, now));
        }
      }
    }

    /** The events a run writes a score to: those of its rows that exist, whatever the
        clock says. */
    lemma {:induction false} ScoredKeys(rows: seq<EventRow>, within: WithinRadius, now: string)
      ensures ScoredAfter(map[], rows, within, now).Keys == set r | r in rows && r.id in events :: r.id
    {
      if rows != [] {
        var init := rows[..|rows| - 1];
        ScoredKeys(init, within, now);
        assert rows == init + [rows[|rows| - 1]];
      }
    }

    /** Scoring the same rows again, at the same or a later time: every score the first
        run wrote is overwritten by the second (so a rerun at the same time changes
        nothing), and the MERGEd edges gain nothing. */
    lemma RescoreOverwrites(before: map<string, Scoring>, rows: seq<EventRow>, within: WithinRadius,
                            now1: string, now2: string)
      ensures ScoredAfter(ScoredAfter(before, rows, within, now1), rows, within, now2)
           == ScoredAfter(before, rows, within, now2)
      ensures forall near: set<(string, string)> ::
        near + AllNearEdges(rows, within) + AllNearEdges(rows, within) == near + AllNearEdges(rows, within)
      ensures forall arts: set<(string, string)> ::
        arts + AllArticleEdges(rows) + AllArticleEdges(rows) == arts + AllArticleEdges(rows)
      ensures forall posts: set<(string, string)> ::
        posts + AllPostEdges(rows) + AllPostEdges(rows) == posts + AllPostEdges(rows)
    {
      var w1 := ScoredAfter(map[], rows, within, now1);
      var w2 := ScoredAfter(map[], rows, within, now2);
      ScoredAfterOverrides(before, rows, within, now1);
      ScoredAfterOverrides(before + w1, rows, within, now2);
      ScoredAfterOverrides(before, rows, within, now2);
      ScoredKeys(rows, within, now1);
      ScoredKeys(rows, within, now2);
      assert before + w1 + w2 == before + w2;
    }

    /** The body of main's loop for one candidate row: link flights, link articles and
        posts, score, write the score back, and make the result line. */
    method ScoreOne(event: EventRow, within: WithinRadius, now: string) returns (result: ResultRow)
      modifies this`scoring, this`detectedNear, this`articleCorroborates, this`postCorroborates
      ensures result == ResultFor(event, within)
      ensures scoring == if event.id in events then old(scoring)[event.id := Scoring(result.score, result.status, now)]
                         else old(scoring)
      ensures detectedNear == old(detectedNear) + NearEdges(event, within)
      ensures articleCorroborates == old(articleCorroborates) + ArticleEdges(event)
      ensures postCorroborates == old(postCorroborates) + PostEdges(event)
    {
      var flightData := LinkNearbyFlights(event, within);
      var sourceData := LinkNarrativeSources(event);
      var score := CalculateScore(flightData, sourceData);
      var status := GetStatus(score);
      UpdateEventScore(event.id, score, status, now);
      result := ResultRow(DisplayId(event.id), event.gridLocation, score, status,
                          sourceData.sources, flightData.total, flightData.military);
    }

    /** What one more row adds to the result lines. */
    lemma ResultsStep(rows: seq<EventRow>, i: nat, within: WithinRadius)
      requires i < |rows|
      ensures ResultsFor(rows[..i + 1], within) == ResultsFor(rows[..i], within) + [ResultFor(rows[i], within)]
    {
      assert rows[..i + 1][..i] == rows[..i];
    }

    /** What one more row does to the written-back scores. */
    lemma ScoredStep(rows: seq<EventRow>, i: nat, within: WithinRadius, now: string, before: map<string, Scoring>)
      requires i < |rows|
      ensures ScoredAfter(before, rows[..i + 1], within, now)
           == var m := ScoredAfter(before, rows[..i], within, now);
              var r := ResultFor(rows[i], within);
              if rows[i].id in events then m[rows[i].id := Scoring(r.score, r.status, now)] else m
    {
      assert rows[..i + 1][..i] == rows[..i];
    }

    /** What one more row adds to each set of merged edges. */
    lemma EdgesStep(rows: seq<EventRow>, i: nat, within: WithinRadius)
      requires i < |rows|
      ensures AllNearEdges(rows[..i + 1], within) == AllNearEdges(rows[..i], within) + NearEdges(rows[i], within)
      ensures AllArticleEdges(rows[..i + 1]) == AllArticleEdges(rows[..i]) + ArticleEdges(rows[i])
      ensures AllPostEdges(rows[..i + 1]) == AllPostEdges(rows[..i]) + PostEdges(rows[i])
    {
      assert rows[..i + 1][..i] == rows[..i];
    }

    /** main's loop: each candidate row in turn is linked, scored and written back, and its
        result line collected. */
    method ScoreAll(candidates: seq<EventRow>, within: WithinRadius, now: string)
      returns (results: seq<ResultRow>)
      modifies this`scoring, this`detectedNear, this`articleCorroborates, this`postCorroborates
      ensures results == ResultsFor(candidates, within)
      ensures scoring == ScoredAfter(old(scoring), candidates, within, now)
      ensures detectedNear == old(detectedNear) + AllNearEdges(candidates, within)
      ensures articleCorroborates == old(articleCorroborates) + AllArticleEdges(candidates)
      ensures postCorroborates == old(postCorroborates) + AllPostEdges(candidates)
    {
      results := [];
      var i := 0;
      while i < |candidates|
        invariant 0 <= i <= |candidates|
        invariant results == ResultsFor(candidates[..i], within)
        invariant scoring == ScoredAfter(old(scoring), candidates[..i], within, now)
        invariant detectedNear == old(detectedNear) + AllNearEdges(candidates[..i], within)
        invariant articleCorroborates == old(articleCorroborates) + AllArticleEdges(candidates[..i])
        invariant postCorroborates == old(postCorroborates) + AllPostEdges(candidates[..i])
      {
        var result := ScoreOne(candidates[i], within, now);
        ResultsStep(candidates, i, within);
        ScoredStep(candidates, i, within, now, old(scoring));
        EdgesStep(candidates, i, within);
        UnionAssoc(old(detectedNear), AllNearEdges(candidates[..i], within), NearEdges(candidates[i], within));
        UnionAssoc(old(articleCorroborates), AllArticleEdges(candidates[..i]), ArticleEdges(candidates[i]));
        UnionAssoc(old(postCorroborates), AllPostEdges(candidates[..i]), PostEdges(candidates[i]));
        results := results + [result];
        i := i + 1;
      }
      assert candidates[..i] == candidates;
    }

    /** main: scores every candidate row in turn, writes the score back, and reports the
        results by non-increasing score with the count of each status. There is no per-event
        error handling. No candidates gives no report. `now` stands for the wall-clock
        scored_at; `cutoff` for now minus the lookback. */
    method ScoreEvents(cutoff: string, now: string, within: WithinRadius)
      returns (report: Option<Report>, ghost rows: seq<EventRow>)
      modifies this`scoring, this`detectedNear, this`articleCorroborates, this`postCorroborates
      ensures multiset(rows) == multiset(RecentRows(cutoff))
      ensures report.None? <==> rows == []
      ensures report.Some? ==>
        && multiset(report.value.results) == multiset(ResultsFor(rows, within))
        && Sorting.SortedDesc(report.value.results, ByScore)
        && report.value.confirmed == CountStatus(report.value.results, Confirmed)
        && report.value.plausible == CountStatus(report.value.results, Plausible)
        && report.value.unverified == CountStatus(report.value.results, Unverified)
        && report.value.confirmed + report.value.plausible + report.value.unverified == |rows|
      ensures scoring == ScoredAfter(old(scoring), rows, within, now)
      ensures detectedNear == old(detectedNear) + AllNearEdges(rows, within)
      ensures articleCorroborates == old(articleCorroborates) + AllArticleEdges(rows)
      ensures postCorroborates == old(postCorroborates) + AllPostEdges(rows)
    {
      var candidates := GetRecentEvents(cutoff);
      rows := candidates;
      if candidates == [] {
        return None, rows;
      }
      var results := ScoreAll(candidates, within, now);
      ByScoreIsPreorder();
      Sorting.SortDescSorted(results, ByScore);
      var sorted := Sorting.SortDesc(results, ByScore);
      var confirmed := CountStatus(sorted, Confirmed);
      var plausible := CountStatus(sorted, Plausible);
      var unverified := CountStatus(sorted, Unverified);
      StatusCountsSum(sorted);
      report := Some(Report(sorted, confirmed, plausible, unverified));
    }
  }
}
