/** The graph loader's record rules (backend/database/load_graph.py): keyword entity
    linking, batching, event id defaulting, the article-to-location links, and the names
    it gives to grid Location nodes and to Post nodes. */
module LoadGraph {
  import opened Text
  import Sorting
  import Correlate

  // ---------------------------------------------------------------------------
  // Keyword entity linking (load_graph.py:79-111, 218-238)
  // ---------------------------------------------------------------------------

  /** LOCATION_KEYWORDS in its declaration order: lower-case keyword, canonical name. */
  const LocationKeywords: seq<(string, string)> := [
    ("israel", "Israel"), ("israeli", "Israel"),
    ("palestine", "Palestine"), ("palestinian", "Palestine"),
    ("gaza", "Gaza"),
    ("lebanon", "Lebanon"), ("lebanese", "Lebanon"), ("hezbollah", "Lebanon"),
    ("syria", "Syria"), ("syrian", "Syria"), ("damascus", "Syria"),
    ("iran", "Iran"), ("iranian", "Iran"), ("tehran", "Iran"),
    ("iraq", "Iraq"), ("iraqi", "Iraq"),
    ("jordan", "Jordan"),
    ("egypt", "Egypt"), ("egyptian", "Egypt"),
    ("saudi", "Saudi Arabia"),
    ("yemen", "Yemen"), ("houthi", "Yemen"),
    ("tel aviv", "Tel Aviv"), ("jerusalem", "Jerusalem"), ("west bank", "West Bank"),
    ("beirut", "Beirut"), ("aleppo", "Aleppo"), ("idlib", "Idlib"), ("golan", "Golan Heights")
  ]

  /** The canonical names: the values of the keyword table. */
  function CanonicalNames(): set<string> {
    set p | p in LocationKeywords :: p.1
  }

  /** The canonical names of the table entries whose keyword occurs in an already
      lower-cased text. */
  function LocationsOf(lowerText: string, table: seq<(string, string)>): set<string> {
    if table == [] then {}
    else
      var (keyword, location) := table[|table| - 1];
      LocationsOf(lowerText, table[..|table| - 1]) + (if Contains(lowerText, keyword) then {location} else {})
  }

  function LocationsIn(lowerText: string): set<string> {
    LocationsOf(lowerText, LocationKeywords)
  }

  /** A name is found exactly when one of the keywords that map to it occurs in the text. */
  lemma {:induction false} LocationsOfIff(lowerText: string, table: seq<(string, string)>, loc: string)
    ensures loc in LocationsOf(lowerText, table)
        <==> exists k :: 0 <= k < |table| && table[k].1 == loc && Contains(lowerText, table[k].0)
  {
    if table != [] {
      var n := |table| - 1;
      var init := table[..n];
      LocationsOfIff(lowerText, init, loc);
      assert LocationsOf(lowerText, table)
          == LocationsOf(lowerText, init) + (if Contains(lowerText, table[n].0) then {table[n].1} else {});
      if loc in LocationsOf(lowerText, init) {
        var k :| 0 <= k < n && init[k].1 == loc && Contains(lowerText, init[k].0);
        assert table[k] == init[k];
      } else if loc !in LocationsOf(lowerText, table) {
        forall k | 0 <= k < |table| ensures !(table[k].1 == loc && Contains(lowerText, table[k].0)) {
          if k < n {
            assert init[k] == table[k];
          }
        }
      }
    }
  }

  /** Every name found is one of the table's canonical names. */
  lemma LocationsAreCanonical(lowerText: string, loc: string)
    requires loc in LocationsIn(lowerText)
    ensures loc in CanonicalNames()
  {
    LocationsOfIff(lowerText, LocationKeywords, loc);
    var k :| 0 <= k < |LocationKeywords| && LocationKeywords[k].1 == loc && Contains(lowerText, LocationKeywords[k].0);
    assert LocationKeywords[k] in LocationKeywords;
  }

  /** extract_locations: nothing for a missing or empty text; otherwise each canonical name
      whose keyword occurs in the lower-cased text, once. The order comes from a Python set
      and is left open. */
  method ExtractLocations(text: Option<string>) returns (found: seq<string>)
    ensures text.None? || text.value == "" ==> found == []
    ensures text.Some? && text.value != "" ==> forall loc :: loc in found <==> loc in LocationsIn(Lower(text.value))
    ensures forall i, j :: 0 <= i < j < |found| ==> found[i] != found[j]
  {
    if text.None? || text.value == "" {
      return [];
    }
    var textLower := Lower(text.value);
    var names: set<string> := {};
    for k := 0 to |LocationKeywords|
      invariant names == LocationsOf(textLower, LocationKeywords[..k])
    {
      var (keyword, location) := LocationKeywords[k];
      assert LocationKeywords[..k + 1][..k] == LocationKeywords[..k];
      if Contains(textLower, keyword) {
        names := names + {location};
      }
    }
    assert LocationKeywords[..|LocationKeywords|] == LocationKeywords;
    found := Sorting.Enumerate(names);
  }

  /** Matching ignores case: a text and its upper-cased form name the same places. */
  lemma {:induction false} LocationsIgnoreCase(text: string)
    ensures LocationsIn(Lower(Upper(text))) == LocationsIn(Lower(text))
  {
    LowerUpper(text);
  }


  // ---------------------------------------------------------------------------
  // Batching (load_graph.py:154-165)
  // ---------------------------------------------------------------------------

  const BatchSize: int := 500

  /** The batches sent, in order, and the processed count returned. */
  datatype BatchRun<T> = BatchRun(batches: seq<seq<T>>, processed: nat)

  function Flatten<T>(bs: seq<seq<T>>): seq<T> {
    if bs == [] then [] else Flatten(bs[..|bs| - 1]) + bs[|bs| - 1]
  }

  /** run_batch: slices the data with range(0, total, batch_size). A zero batch size is
      Python's ValueError from range(); a negative one gives an empty range, so nothing is
      sent and 0 is returned. Otherwise every batch is non-empty, all but the last are
      full, and the batches put back together are the data. */
  method RunBatch<T>(data: seq<T>, batchSize: int) returns (r: Result<BatchRun<T>, string>)
    ensures r.Err? <==> batchSize == 0
    ensures batchSize < 0 ==> r == Ok(BatchRun([], 0))
    ensures batchSize > 0 ==> r.Ok? && Flatten(r.value.batches) == data && r.value.processed == |data|
    ensures batchSize > 0 ==> forall i :: 0 <= i < |r.value.batches| ==> 0 < |r.value.batches[i]| <= batchSize
    ensures batchSize > 0 ==> forall i :: 0 <= i < |r.value.batches| - 1 ==> |r.value.batches[i]| == batchSize
  {
    if batchSize == 0 {
      return Err("range() arg 3 must not be zero");
    }
    if batchSize < 0 {
      return Ok(BatchRun([], 0));
    }
    var total := |data|;
    var processed := 0;
    var batches: seq<seq<T>> := [];
    var i := 0;
    while i < total
      invariant 0 <= i <= total
      invariant Flatten(batches) == data[..i] && processed == i
      invariant forall k :: 0 <= k < |batches| ==> 0 < |batches[k]| <= batchSize
      invariant forall k :: 0 <= k < |batches| ==> |batches[k]| == batchSize || (i == total && k == |batches| - 1)
    {
      var end := if i + batchSize <= total then i + batchSize else total;
      var batch := data[i..end];
      assert data[..end] == data[..i] + batch;
      batches := batches + [batch];
      assert batches[..|batches| - 1] == batches[..|batches| - 1];
      processed := processed + |batch|;
      i := end;
    }
    assert data[..i] == data;
    return Ok(BatchRun(batches, processed));
  }

  // ---------------------------------------------------------------------------
  // Event id defaulting (load_graph.py:286-289)
  // ---------------------------------------------------------------------------

  /** The fields of a GDELT event record this part of the loader reads; a missing key is
      None. */
  datatype RawEvent = RawEvent(id: Option<string>, timestamp: Option<string>, lat: Option<real>, lon: Option<real>)

  /** f"gdelt_{i}_{event.get('timestamp', '')}". */
  function GeneratedId(i: nat, timestamp: Option<string>): string {
    "gdelt_" + NatToString(i) + "_" + (if timestamp.Some? then timestamp.value else "")
  }

  /** The record after defaulting: one without an id gets the generated one, one with an
      id is untouched. */
  function WithId(e: RawEvent, i: nat): (r: RawEvent)
    ensures r.id.Some?
    ensures e.id.Some? ==> r == e
    ensures r.timestamp == e.timestamp && r.lat == e.lat && r.lon == e.lon
  {
    if e.id.Some? then e else e.(id := Some(GeneratedId(i, e.timestamp)))
  }

  /** The defaulting loop of load_gdelt, writing ids into the records in place. */
  method FillEventIds(events: array<RawEvent>)
    modifies events
    ensures forall i :: 0 <= i < events.Length ==> events[i] == WithId(old(events[i]), i)
  {
    for i := 0 to events.Length
      invariant forall k :: 0 <= k < i ==> events[k] == WithId(old(events[k]), k)
      invariant forall k :: i <= k < events.Length ==> events[k] == old(events[k])
    {
      if events[i].id.None? {
        events[i] := events[i].(id := Some(GeneratedId(i, events[i].timestamp)));
      }
    }
  }

  /** Generated ids at different positions differ: the index is closed off by '_', and
      digits never contain '_'. */
  lemma GeneratedIdInjective(i: nat, j: nat, a: Option<string>, b: Option<string>)
    requires GeneratedId(i, a) == GeneratedId(j, b)
    ensures i == j
  {
    var x, y := NatToString(i), NatToString(j);
    var ta := if a.Some? then a.value else "";
    var tb := if b.Some? then b.value else "";
    assert GeneratedId(i, a) == "gdelt_" + (x + ['_'] + ta);
    assert GeneratedId(j, b) == "gdelt_" + (y + ['_'] + tb);
    assert x + ['_'] + ta == GeneratedId(i, a)[6..];
    assert y + ['_'] + tb == GeneratedId(j, b)[6..];
    assert IntToString(i) == x && IntToString(j) == y;
    NoSeparatorInInt(i, '_');
    NoSeparatorInInt(j, '_');
    SplitAtSeparator(x, ta, y, tb, '_');
    NatToStringInjective(i, j);
  }

  /** After defaulting, two records that had no id carry different ids. */
  lemma FilledIdsDistinct(e1: RawEvent, e2: RawEvent, i: nat, j: nat)
    requires i != j && e1.id.None? && e2.id.None?
    ensures WithId(e1, i).id != WithId(e2, j).id
  {
    if WithId(e1, i).id == WithId(e2, j).id {
      GeneratedIdInjective(i, j, e1.timestamp, e2.timestamp);
    }
  }

  // ---------------------------------------------------------------------------
  // Article-to-location links (load_graph.py:346-358)
  // ---------------------------------------------------------------------------

  /** The fields of an article record entity linking reads; a missing key is None. */
  datatype ArticleRecord = ArticleRecord(id: string, title: Option<string>, summary: Option<string>)

  function OrEmpty(s: Option<string>): string {
    if s.Some? then s.value else ""
  }

  /** f"{title} {summary}", with '' for a missing key. */
  function LinkText(a: ArticleRecord): string {
    OrEmpty(a.title) + " " + OrEmpty(a.summary)
  }

  /** The canonical names extract_locations finds for an article. */
  function ArticleLocations(a: ArticleRecord): set<string> {
    LocationsIn(Lower(LinkText(a)))
  }

  predicate Distinct<T(==)>(s: seq<T>) {
    forall i, j :: 0 <= i < j < |s| ==> s[i] != s[j]
  }

  /** The links of one article: its id paired with each of its locations, once each. */
  ghost predicate LinksOf(block: seq<(string, string)>, a: ArticleRecord) {
    PairsOf(block, a.id, ArticleLocations(a))
  }

  /** The block pairs the id with each of the names, once each. */
  ghost predicate PairsOf(block: seq<(string, string)>, id: string, names: set<string>) {
    && Distinct(block)
    && forall l :: l in block <==> l.0 == id && l.1 in names
  }

  /** The links the loop appends for one article. */
  method ArticleLinks(article: ArticleRecord) returns (block: seq<(string, string)>)
    ensures LinksOf(block, article)
  {
    var locations := ExtractLocations(Some(LinkText(article)));
    block := [];
    for n := 0 to |locations|
      invariant block == seq(n, q requires 0 <= q < n => (article.id, locations[q]))
    {
      block := block + [(article.id, locations[n])];
    }
    forall l: (string, string) | l.0 == article.id && l.1 in ArticleLocations(article) ensures l in block {
      var q :| 0 <= q < |locations| && locations[q] == l.1;
      assert block[q] == l;
    }
  }

  /** The location_links loop of load_news: for each article in turn, one link per
      location extracted from its title and summary. */
  method LocationLinks(articles: seq<ArticleRecord>)
    returns (links: seq<(string, string)>, ghost blocks: seq<seq<(string, string)>>)
    ensures |blocks| == |articles| && links == Flatten(blocks)
    ensures forall k :: 0 <= k < |articles| ==> LinksOf(blocks[k], articles[k])
    ensures forall l :: l in links <==>
      exists k :: 0 <= k < |articles| && l.0 == articles[k].id && l.1 in ArticleLocations(articles[k])
  {
    links, blocks := [], [];
    for k := 0 to |articles|
      invariant |blocks| == k && links == Flatten(blocks)
      invariant AllLinks(blocks, articles)
    {
      var article := articles[k];
      var block := ArticleLinks(article);
      FlattenSnoc(blocks, block);
      AllLinksSnoc(blocks, block, articles);
      links := links + block;
      blocks := blocks + [block];
    }
    forall l {
      LinksIff(articles, blocks, l);
    }
  }

  /** Each block holds the links of the article at the same position. */
  ghost predicate AllLinks(blocks: seq<seq<(string, string)>>, articles: seq<ArticleRecord>) {
    |blocks| <= |articles| && forall m :: 0 <= m < |blocks| ==> LinksOf(blocks[m], articles[m])
  }

  lemma AllLinksSnoc(blocks: seq<seq<(string, string)>>, block: seq<(string, string)>, articles: seq<ArticleRecord>)
    requires AllLinks(blocks, articles) && |blocks| < |articles|
    requires LinksOf(block, articles[|blocks|])
    ensures AllLinks(blocks + [block], articles)
  {
    var next := blocks + [block];
    assert forall m :: 0 <= m < |blocks| ==> next[m] == blocks[m];
    assert next[|blocks|] == block;
  }

  lemma FlattenSnoc<T>(bs: seq<seq<T>>, b: seq<T>)
    ensures Flatten(bs + [b]) == Flatten(bs) + b
  {
    assert (bs + [b])[..|bs|] == bs;
  }

  /** There is a link (article id, name) exactly when some article with that id has
      that name among its extracted locations. */
  lemma {:induction false} LinksIff(articles: seq<ArticleRecord>, blocks: seq<seq<(string, string)>>, l: (string, string))
    requires |blocks| == |articles|
    requires forall k :: 0 <= k < |articles| ==> LinksOf(blocks[k], articles[k])
    ensures l in Flatten(blocks)
        <==> exists k :: 0 <= k < |articles| && l.0 == articles[k].id && l.1 in ArticleLocations(articles[k])
  {
    if l in Flatten(blocks) {
      FlattenMember(blocks, l);
    }
    if exists k :: 0 <= k < |articles| && l.0 == articles[k].id && l.1 in ArticleLocations(articles[k]) {
      var k :| 0 <= k < |articles| && l.0 == articles[k].id && l.1 in ArticleLocations(articles[k]);
      assert l in blocks[k];
      FlattenHas(blocks, k, l);
    }
  }

  lemma {:induction false} FlattenHas<T>(bs: seq<seq<T>>, k: nat, x: T)
    requires k < |bs| && x in bs[k]
    ensures x in Flatten(bs)
  {
    var n := |bs| - 1;
    if k < n {
      FlattenHas(bs[..n], k, x);
    }
  }

  /** When the articles have distinct ids, no link occurs twice. */
  lemma {:induction false} LinksDistinct(articles: seq<ArticleRecord>, blocks: seq<seq<(string, string)>>)
    requires |blocks| == |articles|
    requires forall k :: 0 <= k < |articles| ==> LinksOf(blocks[k], articles[k])
    requires forall i, j :: 0 <= i < j < |articles| ==> articles[i].id != articles[j].id
    ensures Distinct(Flatten(blocks))
  {
    if blocks != [] {
      var n := |blocks| - 1;
      LinksDistinct(articles[..n], blocks[..n]);
      var init := Flatten(blocks[..n]);
      var last := blocks[n];
      assert Flatten(blocks) == init + last;
      forall x | x in init ensures x !in last {
        FlattenMember(blocks[..n], x);
        var k :| 0 <= k < n && x in blocks[k];
        assert x.0 == articles[k].id;
      }
      DistinctAppend(init, last);
    }
  }

  lemma {:induction false} FlattenMember<T>(bs: seq<seq<T>>, x: T)
    requires x in Flatten(bs)
    ensures exists k :: 0 <= k < |bs| && x in bs[k]
  {
    var n := |bs| - 1;
    if x in Flatten(bs[..n]) {
      FlattenMember(bs[..n], x);
      var k :| 0 <= k < n && x in bs[..n][k];
      assert x in bs[k];
    } else {
      assert x in bs[n];
    }
  }

  lemma DistinctAppend<T>(a: seq<T>, b: seq<T>)
    requires Distinct(a) && Distinct(b)
    requires forall x :: x in a ==> x !in b
    ensures Distinct(a + b)
  {
    var c := a + b;
    forall i, j | 0 <= i < j < |c| ensures c[i] != c[j] {
      if i < |a| && j >= |a| {
        assert c[i] in a && c[j] == b[j - |a|];
      } else if i >= |a| {
        assert c[i] == b[i - |a|] && c[j] == b[j - |a|];
      }
    }
  }

  // ---------------------------------------------------------------------------
  // Grid Location names (load_graph.py:279, 464)
  // ---------------------------------------------------------------------------

  /** Cypher's round(x, 0): to the nearest integer, halves away from zero. */
  function RoundHalfUp(x: real): (r: int)
    ensures x >= 0.0 ==> r as real - 0.5 <= x < r as real + 0.5
    ensures x < 0.0 ==> r as real - 0.5 < x <= r as real + 0.5
  {
    if x >= 0.0 then (x + 0.5).Floor else -((-x + 0.5).Floor)
  }

  /** The name as the loader writes it. round() gives a float, and toString of a float
      keeps ".0", so the name reads like "Grid_32.0_35.0". A missing coordinate makes the
      name null, and MERGE on a null name fails: None. */
  function GridCellNameAsWritten(lat: Option<real>, lon: Option<real>): (name: Option<string>)
    ensures name.Some? <==> lat.Some? && lon.Some?
    ensures name.Some? ==> '.' in name.value
  {
    if lat.None? || lon.None? then None
    else
      var s := "Grid_" + IntToString(RoundHalfUp(lat.value)) + ".0_" + IntToString(RoundHalfUp(lon.value)) + ".0";
      assert s[|s| - 2] == '.';
      Some(s)
  }

  /** The name the keyword table of the correlator expects, like "Grid_32_35". */
  function GridCellName(lat: Option<real>, lon: Option<real>): (name: Option<string>)
    ensures name.Some? <==> lat.Some? && lon.Some?
  {
    if lat.None? || lon.None? then None
    else Some("Grid_" + IntToString(RoundHalfUp(lat.value)) + "_" + IntToString(RoundHalfUp(lon.value)))
  }

  lemma NoSeparatorInInt(i: int, sep: char)
    requires sep != '-' && !IsDigit(sep)
    ensures sep !in IntToString(i)
  {
    if sep in IntToString(i) {
      IntToStringChars(i, sep);
    }
  }

  /** The pieces of a name built as prefix + a + mid + b + suffix, where mid starts with a
      character found in neither a nor b, come back out of the name. */
  lemma NamePartsUnique(a1: string, b1: string, a2: string, b2: string, mid: string, suffix: string)
    requires mid != [] && mid[0] !in a1 && mid[0] !in a2
    requires "Grid_" + a1 + mid + b1 + suffix == "Grid_" + a2 + mid + b2 + suffix
    ensures a1 == a2 && b1 == b2
  {
    var n1 := "Grid_" + a1 + mid + b1 + suffix;
    var n2 := "Grid_" + a2 + mid + b2 + suffix;
    assert n1[5..] == a1 + [mid[0]] + (mid[1..] + b1 + suffix);
    assert n2[5..] == a2 + [mid[0]] + (mid[1..] + b2 + suffix);
    SplitAtSeparator(a1, mid[1..] + b1 + suffix, a2, mid[1..] + b2 + suffix, mid[0]);
    assert b1 == (mid[1..] + b1 + suffix)[|mid| - 1..|mid| - 1 + |b1|];
    assert b2 == (mid[1..] + b2 + suffix)[|mid| - 1..|mid| - 1 + |b2|];
  }

  /** Two points share a Location node exactly when they round to the same pair. */
  lemma GridNameAsWrittenSameCell(lat1: real, lon1: real, lat2: real, lon2: real)
    ensures GridCellNameAsWritten(Some(lat1), Some(lon1)) == GridCellNameAsWritten(Some(lat2), Some(lon2))
        <==> RoundHalfUp(lat1) == RoundHalfUp(lat2) && RoundHalfUp(lon1) == RoundHalfUp(lon2)
  {
    var a1, b1 := IntToString(RoundHalfUp(lat1)), IntToString(RoundHalfUp(lon1));
    var a2, b2 := IntToString(RoundHalfUp(lat2)), IntToString(RoundHalfUp(lon2));
    if GridCellNameAsWritten(Some(lat1), Some(lon1)) == GridCellNameAsWritten(Some(lat2), Some(lon2)) {
      NoSeparatorInInt(RoundHalfUp(lat1), '.');
      NoSeparatorInInt(RoundHalfUp(lat2), '.');
      NamePartsUnique(a1, b1, a2, b2, ".0_", ".0");
      IntToStringInjective(RoundHalfUp(lat1), RoundHalfUp(lat2));
      IntToStringInjective(RoundHalfUp(lon1), RoundHalfUp(lon2));
    }
  }

  /** The corrected names identify cells the same way. */
  lemma GridNameSameCell(lat1: real, lon1: real, lat2: real, lon2: real)
    ensures GridCellName(Some(lat1), Some(lon1)) == GridCellName(Some(lat2), Some(lon2))
        <==> RoundHalfUp(lat1) == RoundHalfUp(lat2) && RoundHalfUp(lon1) == RoundHalfUp(lon2)
  {
    var a1, b1 := IntToString(RoundHalfUp(lat1)), IntToString(RoundHalfUp(lon1));
    var a2, b2 := IntToString(RoundHalfUp(lat2)), IntToString(RoundHalfUp(lon2));
    if GridCellName(Some(lat1), Some(lon1)) == GridCellName(Some(lat2), Some(lon2)) {
      NoSeparatorInInt(RoundHalfUp(lat1), '_');
      NoSeparatorInInt(RoundHalfUp(lat2), '_');
      assert "Grid_" + a1 + "_" + b1 == "Grid_" + a1 + "_" + b1 + "";
      assert "Grid_" + a2 + "_" + b2 == "Grid_" + a2 + "_" + b2 + "";
      NamePartsUnique(a1, b1, a2, b2, "_", "");
      IntToStringInjective(RoundHalfUp(lat1), RoundHalfUp(lat2));
      IntToStringInjective(RoundHalfUp(lon1), RoundHalfUp(lon2));
    }
  }

  /** As written, no grid name the loader creates is a key of the correlator's table, so
      every event's keyword list is empty. */
  lemma GridNameAsWrittenNeverMatches(lat: real, lon: real)
    ensures Correlate.GetLocationKeywords(GridCellNameAsWritten(Some(lat), Some(lon))) == []
  {
    Correlate.DottedCellHasNoKeywords(GridCellNameAsWritten(Some(lat), Some(lon)).value);
  }

  /** Consequently no article or post can corroborate an event placed in such a cell, and
      its score is 0 or 40, decided by tagged flights alone. */
  lemma AsWrittenScoresFlightsOnly(store: Correlate.GraphStore, row: Correlate.EventRow, lat: real, lon: real,
                                   within: Correlate.WithinRadius)
    requires row.gridLocation == GridCellNameAsWritten(Some(lat), Some(lon))
    ensures var r := store.ResultFor(row, within); r.score == 0 || r.score == 40
  {
    GridNameAsWrittenNeverMatches(lat, lon);
  }

  /** With the corrected names every point that rounds to a table cell lands in that
      cell, and the correlator gets the cell's place names. */
  lemma GridNameHitsTable(lat: real, lon: real, a: int, b: int)
    requires RoundHalfUp(lat) == a && RoundHalfUp(lon) == b
    requires "Grid_" + IntToString(a) + "_" + IntToString(b) in Correlate.GridToLocation
    ensures GridCellName(Some(lat), Some(lon)) == Some("Grid_" + IntToString(a) + "_" + IntToString(b))
    ensures Correlate.GetLocationKeywords(GridCellName(Some(lat), Some(lon)))
         == Correlate.GridToLocation["Grid_" + IntToString(a) + "_" + IntToString(b)]
    ensures Correlate.GetLocationKeywords(GridCellName(Some(lat), Some(lon))) != []
  {
    forall key | key in Correlate.GridToLocation ensures Correlate.GridToLocation[key] != [] {
    }
  }

  /** For instance, a point near Tel Aviv. */
  lemma TelAvivKeywords()
    ensures Correlate.GetLocationKeywords(GridCellName(Some(32.2), Some(34.8)))
         == ["Israel", "Tel Aviv", "Jerusalem", "West Bank"]
  {
    TelAvivCellName();
    assert "Grid_" + IntToString(32) + "_" + IntToString(35) == "Grid_32_35";
    GridNameHitsTable(32.2, 34.8, 32, 35);
  }

  lemma TelAvivCellName()
    ensures IntToString(32) == "32" && IntToString(35) == "35"
    ensures GridCellName(Some(32.2), Some(34.8)) == Some("Grid_32_35")
  {
    assert RoundHalfUp(32.2) == 32 && RoundHalfUp(34.8) == 35;
    assert DigitChar(3) == '3' && DigitChar(2) == '2' && DigitChar(5) == '5';
    assert NatToString(3) == "3";
    assert NatToString(32) == NatToString(3) + [DigitChar(2)] == "32";
    assert NatToString(35) == NatToString(3) + [DigitChar(5)] == "35";
    assert IntToString(32) == "32" && IntToString(35) == "35";
    assert GridCellName(Some(32.2), Some(34.8)) == Some("Grid_" + "32" + "_" + "35");
    assert "Grid_" + "32" + "_" + "35" == "Grid_32_35";
  }

  // ---------------------------------------------------------------------------
  // Post ids (load_graph.py:400-408)
  // ---------------------------------------------------------------------------

  /** replace(source_id, 'telegram_', ''). */
  function ChannelName(sourceId: string): string {
    ReplaceAll(sourceId, "telegram_", "")
  }

  /** toString(message_id) + '_' + channel name. */
  function PostId(messageId: int, sourceId: string): string {
    IntToString(messageId) + "_" + ChannelName(sourceId)
  }

  /** The collector writes "telegram_" + channel; the loader gets the channel back,
      provided the channel name does not itself contain "telegram_". */
  lemma {:induction false} ChannelNameRoundTrip(channel: string)
    requires !Contains(channel, "telegram_")
    ensures ChannelName("telegram_" + channel) == channel
  {
    ReplaceAllPrefix("telegram_", channel, "");
    ReplaceAllAbsent(channel, "telegram_", "");
  }

  /** Different posts (message id, channel) get different ids. */
  lemma PostIdInjective(m1: int, s1: string, m2: int, s2: string)
    requires PostId(m1, s1) == PostId(m2, s2)
    ensures m1 == m2 && ChannelName(s1) == ChannelName(s2)
  {
    NoSeparatorInInt(m1, '_');
    NoSeparatorInInt(m2, '_');
    SplitAtSeparator(IntToString(m1), ChannelName(s1), IntToString(m2), ChannelName(s2), '_');
    IntToStringInjective(m1, m2);
  }
}
