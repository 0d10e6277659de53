/** The record rules of the news agent: article ids from URLs, HTML clean-up, the
    fields kept from a feed entry, id-based de-duplication against the ids already
    stored, the per-source counts written with the articles, and the merge of new
    and stored articles newest first. Fetching feeds, parsing dates, SHA-256 and
    HTML entity decoding are parameters. */
module FetchNews {
  import opened Text
  import Sorting

  // ---------------------------------------------------------------------------
  // Source registry
  // ---------------------------------------------------------------------------

  datatype SourceConfig = SourceConfig(id: string, tier: int, sourceType: string)

  /** The five configured feeds, in registry order (feed URLs and display names omitted). */
  const SourceTable: seq<SourceConfig> := [
    SourceConfig("reuters_world", 1, "Western"),
    SourceConfig("bbc_world", 2, "Western"),
    SourceConfig("aljazeera_english", 2, "Regional"),
    SourceConfig("jerusalem_post", 3, "Regional"),
    SourceConfig("tass_world", 3, "State_Affiliated")
  ]

  const SummaryLimit: nat := 500
  const IdLength: nat := 16
  const DefaultTitle: string := "No Title"

  // ---------------------------------------------------------------------------
  // Article ids
  // ---------------------------------------------------------------------------

  /** A lower-case hexadecimal digit, as `hexdigest` writes them. */
  predicate IsHexDigit(c: char) {
    '0' <= c <= '9' || 'a' <= c <= 'f'
  }

  /** A SHA-256 hex digest: 64 hexadecimal digits. */
  type Digest = s: string | |s| == 64 && forall i :: 0 <= i < |s| ==> IsHexDigit(s[i])
    witness seq(64, i => '0')

  /** The URL as it is hashed: stripped of surrounding whitespace, lower-cased. */
  function NormalizeUrl(url: string): string {
    Lower(Strip(url))
  }

  /** The first 16 hex digits of the digest of the normalised URL. */
  function GenerateArticleId(url: string, sha256: string -> Digest): (id: string)
    ensures |id| == IdLength && id <= sha256(NormalizeUrl(url))
    ensures forall i :: 0 <= i < |id| ==> IsHexDigit(id[i])
  {
    sha256(NormalizeUrl(url))[..IdLength]
  }

  /** Normalising twice is normalising once, so hashing a stored id's URL again
      yields the same id. */
  lemma NormalizeIdempotent(url: string)
    ensures NormalizeUrl(NormalizeUrl(url)) == NormalizeUrl(url)
  {
    var s := Strip(url);
    StripLower(s);
    StripIdempotent(url);
    LowerIdempotent(s);
  }

  /** The id does not see the URL's letter case. */
  lemma ArticleIdIgnoresCase(url: string, sha256: string -> Digest)
    ensures GenerateArticleId(Upper(url), sha256) == GenerateArticleId(url, sha256)
  {
    StripUpper(url);
    LowerUpper(Strip(url));
  }

  /** The id does not see whitespace around the URL. */
  lemma ArticleIdIgnoresPadding(pad: string, url: string, pad2: string, sha256: string -> Digest)
    requires AllSpace(pad) && AllSpace(pad2)
    ensures GenerateArticleId(pad + url + pad2, sha256) == GenerateArticleId(url, sha256)
  {
    StripPadded(pad, url, pad2);
  }

  // ---------------------------------------------------------------------------
  // HTML clean-up
  // ---------------------------------------------------------------------------

  /** The first position at or after `from` holding c. */
  function IndexOf(s: string, c: char, from: nat): (i: nat)
    requires from <= |s| && c in s[from..]
    ensures from <= i < |s| && s[i] == c
    ensures forall k :: from <= k < i ==> s[k] != c
    decreases |s| - from
  {
    if s[from] == c then from
    else
      assert s[from..] == [s[from]] + s[from + 1..];
      IndexOf(s, c, from + 1)
  }

  /** No match of the pattern `<[^>]+>` is left: every '<' is last, is followed by
      '>', or has no '>' anywhere after it. */
  predicate NoTag(s: string) {
    forall i :: 0 <= i < |s| - 1 && s[i] == '<' && s[i + 1] != '>' ==> '>' !in s[i + 1..]
  }

  /** Putting a character in front keeps NoTag unless it opens a tag. */
  lemma NoTagCons(c: char, t: string)
    requires NoTag(t)
    requires c == '<' && t != [] && t[0] != '>' ==> '>' !in t
    ensures NoTag([c] + t)
  {
    var r := [c] + t;
    forall i | 0 <= i < |r| - 1 && r[i] == '<' && r[i + 1] != '>' ensures '>' !in r[i + 1..] {
      if i == 0 {
        assert r[1..] == t;
      } else {
        assert r[i + 1..] == t[i..];
      }
    }
  }

  /** Deleting every match of `<[^>]+>`, scanning left to right: a tag is '<', at
      least one character other than '>', and the first '>' after them. A '<' that
      does not open a tag is kept. */
  function RemoveTags(s: string): (r: string)
    ensures |r| <= |s|
    ensures multiset(r) <= multiset(s)
    ensures '<' !in s ==> r == s
    ensures NoTag(r)
    ensures s != [] && s[0] != '<' ==> r != [] && r[0] == s[0]
    decreases |s|
  {
    if s == [] then []
    else if s[0] == '<' && |s| >= 2 && s[1] != '>' && '>' in s[2..] then
      var e := IndexOf(s, '>', 2);
      var r := RemoveTags(s[e + 1..]);
      assert s == s[..e + 1] + s[e + 1..];
      r
    else
      var t := RemoveTags(s[1..]);
      assert s == [s[0]] + s[1..];
      if s[0] == '<' && |s| >= 2 && s[1] != '>' then
        NoCloseAfterOpen(s, t);
        NoTagCons(s[0], t);
        [s[0]] + t
      else
        assert s[0] == '<' && t != [] ==> |s| >= 2 && t[0] == s[1];
        NoTagCons(s[0], t);
        [s[0]] + t
  }

  /** A '<' with no '>' anywhere after it: what follows it, tags removed, has no '>'. */
  lemma NoCloseAfterOpen(s: string, t: string)
    requires |s| >= 2 && s[1] != '>' && '>' !in s[2..]
    requires multiset(t) <= multiset(s[1..])
    ensures '>' !in t
  {
    assert s[1..] == [s[1]] + s[2..];
    assert '>' !in multiset(s[1..]);
    assert '>' !in multiset(t);
  }

  /** Positions i and i + 1 both hold whitespace. */
  predicate SpacePair(s: string, i: int)
    requires 0 <= i < |s| - 1
  {
    IsSpace(s[i]) && IsSpace(s[i + 1])
  }

  /** Two whitespace characters never stand next to each other. */
  predicate NoDoubleSpace(s: string) {
    forall i :: 0 <= i < |s| - 1 ==> !SpacePair(s, i)
  }

  /** The only whitespace character left is the plain space. */
  predicate OnlyPlainSpaces(s: string) {
    forall i :: 0 <= i < |s| && IsSpace(s[i]) ==> s[i] == ' '
  }

  /** The text with all whitespace removed. */
  function NonSpace(s: string): string
    decreases |s|
  {
    if s == [] then []
    else (if IsSpace(s[0]) then [] else [s[0]]) + NonSpace(s[1..])
  }

  lemma {:induction false} NonSpaceTrimLeft(s: string)
    ensures NonSpace(TrimLeft(s)) == NonSpace(s)
    decreases |s|
  {
    if s != [] && IsSpace(s[0]) {
      NonSpaceTrimLeft(s[1..]);
    }
  }

  /** `re.sub(r'\s+', ' ', s)`: every maximal run of whitespace becomes one space. */
  function CollapseSpaces(s: string): (r: string)
    ensures NoDoubleSpace(r) && OnlyPlainSpaces(r)
    ensures s != [] ==> r != [] && (IsSpace(r[0]) <==> IsSpace(s[0]))
    ensures NonSpace(r) == NonSpace(s)
    decreases |s|
  {
    if s == [] then []
    else if IsSpace(s[0]) then
      var rest := TrimLeft(s);
      NonSpaceTrimLeft(s);
      var t := CollapseSpaces(rest);
      ConsClean(' ', t);
      [' '] + t
    else
      var t := CollapseSpaces(s[1..]);
      ConsClean(s[0], t);
      [s[0]] + t
  }

  /** Putting a character in front of a clean text keeps it clean when the character
      is not whitespace, or is a plain space before a non-space. */
  lemma ConsClean(c: char, t: string)
    requires NoDoubleSpace(t) && OnlyPlainSpaces(t)
    requires IsSpace(c) ==> c == ' ' && (t == [] || !IsSpace(t[0]))
    ensures NoDoubleSpace([c] + t) && OnlyPlainSpaces([c] + t)
    ensures NonSpace([c] + t) == (if IsSpace(c) then [] else [c]) + NonSpace(t)
  {
    var r := [c] + t;
    assert r[1..] == t;
    forall i | 0 <= i < |r| - 1 ensures !SpacePair(r, i) {
      if i > 0 {
        assert r[i] == t[i - 1] && r[i + 1] == t[i];
        assert !SpacePair(t, i - 1);
      }
    }
    forall i | 0 < i < |r| ensures r[i] == t[i - 1] { }
  }

  /** strip_html_tags: "" for an empty text; otherwise the tags removed, entities
      decoded by `unescape`, whitespace runs collapsed to one space and the ends
      stripped. */
  function StripHtmlTags(text: string, unescape: string -> string): (r: string)
    ensures text == [] ==> r == []
    ensures r == [] || (!IsSpace(r[0]) && !IsSpace(r[|r| - 1]))
    ensures NoDoubleSpace(r) && OnlyPlainSpaces(r)
  {
    if text == [] then []
    else
      var c := CollapseSpaces(unescape(RemoveTags(text)));
      StripKeepsClean(c);
      StripEnds(c);
      Strip(c)
  }

  /** Stripping cuts a slice, so it keeps both properties of collapsed text. */
  lemma StripKeepsClean(c: string)
    requires NoDoubleSpace(c) && OnlyPlainSpaces(c)
    ensures NoDoubleSpace(Strip(c)) && OnlyPlainSpaces(Strip(c))
  {
    var l := TrimLeft(c);
    assert c[|c| - |l|..|c|] == l;
    SliceKeepsClean(c, |c| - |l|, |c|);
    SliceKeepsClean(l, 0, |TrimRight(l)|);
  }

  lemma SliceKeepsClean(c: string, lo: nat, hi: nat)
    requires lo <= hi <= |c|
    requires NoDoubleSpace(c) && OnlyPlainSpaces(c)
    ensures NoDoubleSpace(c[lo..hi]) && OnlyPlainSpaces(c[lo..hi])
  {
    var r := c[lo..hi];
    forall a | 0 <= a < |r| - 1 ensures !SpacePair(r, a) {
      assert r[a] == c[lo + a] && r[a + 1] == c[lo + a + 1];
      assert !SpacePair(c, lo + a);
    }
    forall a | 0 <= a < |r| && IsSpace(r[a]) ensures r[a] == ' ' {
      assert r[a] == c[lo + a];
    }
  }

  /** Cleaning keeps every non-whitespace character of the decoded, tag-free text,
      in order. */
  lemma StripHtmlTagsKeepsWords(text: string, unescape: string -> string)
    requires text != []
    ensures NonSpace(StripHtmlTags(text, unescape)) == NonSpace(unescape(RemoveTags(text)))
  {
    var c := CollapseSpaces(unescape(RemoveTags(text)));
    NonSpaceStrip(c);
  }

  lemma NonSpaceStrip(s: string)
    ensures NonSpace(Strip(s)) == NonSpace(s)
  {
    NonSpaceTrimLeft(s);
    NonSpaceTrimRight(TrimLeft(s));
  }

  lemma {:induction false} NonSpaceAppend(a: string, b: string)
    ensures NonSpace(a + b) == NonSpace(a) + NonSpace(b)
    decreases |a|
  {
    if a != [] {
      assert (a + b)[1..] == a[1..] + b;
      NonSpaceAppend(a[1..], b);
    } else {
      assert a + b == b;
    }
  }

  lemma {:induction false} NonSpaceTrimRight(s: string)
    ensures NonSpace(TrimRight(s)) == NonSpace(s)
    decreases |s|
  {
    if s != [] && IsSpace(s[|s| - 1]) {
      var n := |s| - 1;
      NonSpaceTrimRight(s[..n]);
      assert s == s[..n] + [s[n]];
      NonSpaceAppend(s[..n], [s[n]]);
      assert NonSpace([s[n]]) == [];
    }
  }

  // ---------------------------------------------------------------------------
  // Feed entries to articles
  // ---------------------------------------------------------------------------

  /** A parsed feed entry; None is a missing key. `link` is `entry.get('link', '')`,
      so a missing link is the empty string. `published` is the date string already
      normalised (it falls back to the current time, so it is always set). */
  datatype FeedEntry = FeedEntry(
    link: string, title: Option<string>, summary: Option<string>,
    description: Option<string>, published: string)

  datatype Article = Article(
    id: string, sourceId: string, sourceTier: int, sourceType: string,
    title: string, summary: string, link: string, publishedUtc: string)

  /** `entry.get('summary') or entry.get('description') or ''`: an empty string falls
      through like a missing key. */
  function RawSummary(e: FeedEntry): (r: string)
    ensures r != [] ==> (e.summary == Some(r) || e.description == Some(r))
    ensures r == [] ==> e.summary in {None, Some([])} && e.description in {None, Some([])}
  {
    if e.summary.Some? && e.summary.value != [] then e.summary.value
    else if e.description.Some? && e.description.value != [] then e.description.value
    else []
  }

  /** `s[:n]` */
  function Take(s: string, n: nat): (r: string)
    ensures |r| <= n && r <= s
    ensures |s| <= n ==> r == s
  {
    if |s| <= n then s else s[..n]
  }

  function ToArticle(src: SourceConfig, e: FeedEntry, sha256: string -> Digest,
                     unescape: string -> string): Article
  {
    var link := e.link;
    // Cleaning the default title gives it back unchanged: it has no tag, no entity
    // and no surplus whitespace.
    var title := if e.title.Some? then StripHtmlTags(e.title.value, unescape) else DefaultTitle;
    var summary := StripHtmlTags(RawSummary(e), unescape);
    Article(GenerateArticleId(link, sha256), src.id, src.tier, src.sourceType,
            title, Take(summary, SummaryLimit), link, e.published)
  }

  /** The articles a feed yields: one per entry with a non-empty link, in feed order. */
  function FeedArticles(src: SourceConfig, entries: seq<FeedEntry>, sha256: string -> Digest,
                        unescape: string -> string): (r: seq<Article>)
    ensures |r| <= |entries|
    decreases |entries|
  {
    if entries == [] then []
    else
      var n := |entries| - 1;
      var e := entries[n];
      FeedArticles(src, entries[..n], sha256, unescape)
        + (if e.link == [] then [] else [ToArticle(src, e, sha256, unescape)])
  }

  /** Every article a feed yields has a link, the id of that link, a summary of at
      most 500 characters and its source's id and tier. */
  lemma {:induction false} FeedArticlesWellFormed(src: SourceConfig, entries: seq<FeedEntry>,
                                                  sha256: string -> Digest, unescape: string -> string)
    ensures forall a :: a in FeedArticles(src, entries, sha256, unescape) ==>
      && a.link != [] && a.id == GenerateArticleId(a.link, sha256)
      && |a.summary| <= SummaryLimit
      && a.sourceId == src.id && a.sourceTier == src.tier
    decreases |entries|
  {
    if entries != [] {
      FeedArticlesWellFormed(src, entries[..|entries| - 1], sha256, unescape);
    }
  }

  predicate EntryWithLink(entries: seq<FeedEntry>, link: string) {
    exists k :: 0 <= k < |entries| && entries[k].link == link
  }

  predicate ArticleWithLink(articles: seq<Article>, link: string) {
    exists a :: a in articles && a.link == link
  }

  /** An entry with a given link comes out as an article with that link, and no
      article has a link that no entry had. */
  lemma {:induction false} FeedArticlesLinks(src: SourceConfig, entries: seq<FeedEntry>, link: string,
                                             sha256: string -> Digest, unescape: string -> string)
    requires link != []
    ensures EntryWithLink(entries, link) <==> ArticleWithLink(FeedArticles(src, entries, sha256, unescape), link)
    decreases |entries|
  {
    if entries != [] {
      var n := |entries| - 1;
      var init := entries[..n];
      FeedArticlesLinks(src, init, link, sha256, unescape);
      FeedArticlesStep(src, entries, link, sha256, unescape);
      EntryWithLinkStep(entries, link);
    }
  }

  lemma EntryWithLinkStep(entries: seq<FeedEntry>, link: string)
    requires entries != []
    ensures var n := |entries| - 1;
      EntryWithLink(entries, link) <==> (EntryWithLink(entries[..n], link) || entries[n].link == link)
  {
    var n := |entries| - 1;
    if EntryWithLink(entries, link) {
      var k :| 0 <= k < |entries| && entries[k].link == link;
      if k < n {
        assert entries[..n][k].link == link;
      }
    }
    if EntryWithLink(entries[..n], link) {
      var k :| 0 <= k < n && entries[..n][k].link == link;
      assert entries[k].link == link;
    }
  }

  /** One more entry adds an article with its link exactly when the link is set. */
  lemma FeedArticlesStep(src: SourceConfig, entries: seq<FeedEntry>, link: string,
                         sha256: string -> Digest, unescape: string -> string)
    requires entries != [] && link != []
    ensures var n := |entries| - 1;
      ArticleWithLink(FeedArticles(src, entries, sha256, unescape), link) <==>
        (ArticleWithLink(FeedArticles(src, entries[..n], sha256, unescape), link) || entries[n].link == link)
  {
    var n := |entries| - 1;
    var r0 := FeedArticles(src, entries[..n], sha256, unescape);
    var e := entries[n];
    if e.link != [] {
      var art := ToArticle(src, e, sha256, unescape);
      assert FeedArticles(src, entries, sha256, unescape) == r0 + [art];
      assert art.link == e.link;
    } else {
      assert FeedArticles(src, entries, sha256, unescape) == r0;
    }
  }

  /** The entry loop of fetch_feed. */
  method FetchFeedEntries(src: SourceConfig, entries: seq<FeedEntry>, sha256: string -> Digest,
                          unescape: string -> string) returns (articles: seq<Article>)
    ensures articles == FeedArticles(src, entries, sha256, unescape)
  {
    articles := [];
    var i := 0;
    while i < |entries|
      invariant 0 <= i <= |entries|
      invariant articles == FeedArticles(src, entries[..i], sha256, unescape)
    {
      var e := entries[i];
      var link := e.link;
      assert entries[..i + 1][..i] == entries[..i];
      if link != [] {
        articles := articles + [ToArticle(src, e, sha256, unescape)];
      }
      i := i + 1;
    }
    assert entries[..i] == entries;
  }

  // ---------------------------------------------------------------------------
  // De-duplication
  // ---------------------------------------------------------------------------

  /** The ids of a list of articles. */
  function IdsOf(articles: seq<Article>): set<string>
    decreases |articles|
  {
    if articles == [] then {}
    else IdsOf(articles[..|articles| - 1]) + {articles[|articles| - 1].id}
  }

  /** An id is among IdsOf exactly when some article carries it. */
  lemma {:induction false} IdsOfMember(articles: seq<Article>, id: string)
    ensures id in IdsOf(articles) <==> exists j :: 0 <= j < |articles| && articles[j].id == id
    decreases |articles|
  {
    if articles != [] {
      var n := |articles| - 1;
      IdsOfMember(articles[..n], id);
      if j :| 0 <= j < n && articles[..n][j].id == id {
        assert articles[j].id == id;
      }
      if j :| 0 <= j < |articles| && articles[j].id == id {
        if j < n {
          assert articles[..n][j].id == id;
        }
      }
    }
  }

  lemma IdsSnoc(articles: seq<Article>, a: Article)
    ensures IdsOf(articles + [a]) == IdsOf(articles) + {a.id}
  {
    assert (articles + [a])[..|articles|] == articles;
  }

  lemma IdsStep(articles: seq<Article>, i: nat)
    requires i < |articles|
    ensures IdsOf(articles[..i + 1]) == IdsOf(articles[..i]) + {articles[i].id}
  {
    assert articles[..i + 1][..i] == articles[..i];
  }

  /** What deduplicate_articles keeps: an article whose id is neither already seen nor
      carried by an earlier article of the input. */
  function Kept(articles: seq<Article>, seen: set<string>): seq<Article>
    decreases |articles|
  {
    if articles == [] then []
    else
      var n := |articles| - 1;
      Kept(articles[..n], seen)
        + (if articles[n].id in seen + IdsOf(articles[..n]) then [] else [articles[n]])
  }

  lemma KeptStep(articles: seq<Article>, seen: set<string>, i: nat)
    requires i < |articles|
    ensures Kept(articles[..i + 1], seen) == Kept(articles[..i], seen)
      + (if articles[i].id in seen + IdsOf(articles[..i]) then [] else [articles[i]])
  {
    assert articles[..i + 1][..i] == articles[..i];
  }

  /** The positions Kept takes its articles from. */
  function KeptIndices(articles: seq<Article>, seen: set<string>): seq<nat>
    decreases |articles|
  {
    if articles == [] then []
    else
      var n := |articles| - 1;
      KeptIndices(articles[..n], seen)
        + (if articles[n].id in seen + IdsOf(articles[..n]) then [] else [n])
  }

  /** Position k holds the first article with its id, and that id was not seen. */
  predicate FirstFresh(articles: seq<Article>, seen: set<string>, k: nat)
    requires k < |articles|
  {
    articles[k].id !in seen && forall j :: 0 <= j < k ==> articles[j].id != articles[k].id
  }

  /** Kept takes, in increasing order, the articles at the positions KeptIndices lists. */
  lemma {:induction false} KeptAtIndices(articles: seq<Article>, seen: set<string>)
    ensures var idx := KeptIndices(articles, seen); var kept := Kept(articles, seen);
      && |idx| == |kept|
      && (forall i :: 0 <= i < |idx| ==> idx[i] < |articles| && kept[i] == articles[idx[i]])
      && (forall i, j :: 0 <= i < j < |idx| ==> idx[i] < idx[j])
    decreases |articles|
  {
    if articles != [] {
      var n := |articles| - 1;
      var init := articles[..n];
      KeptAtIndices(init, seen);
      var idx0 := KeptIndices(init, seen);
      var kept0 := Kept(init, seen);
      assert forall i :: 0 <= i < |idx0| ==> kept0[i] == articles[idx0[i]] by {
        forall i | 0 <= i < |idx0| ensures kept0[i] == articles[idx0[i]] {
          assert init[idx0[i]] == articles[idx0[i]];
        }
      }
    }
  }

  /** KeptIndices lists exactly the first-fresh positions. */
  lemma {:induction false} KeptIndicesFirstFresh(articles: seq<Article>, seen: set<string>)
    ensures forall k :: 0 <= k < |articles| ==>
      (k in KeptIndices(articles, seen) <==> FirstFresh(articles, seen, k))
    ensures forall k :: k in KeptIndices(articles, seen) ==> k < |articles|
    decreases |articles|
  {
    if articles != [] {
      var n := |articles| - 1;
      var init := articles[..n];
      KeptIndicesFirstFresh(init, seen);
      forall k | 0 <= k < n ensures FirstFresh(init, seen, k) == FirstFresh(articles, seen, k) {
        assert init[k] == articles[k];
        assert forall j :: 0 <= j < k ==> init[j] == articles[j];
      }
      IdsOfMember(init, articles[n].id);
      if j :| 0 <= j < n && init[j].id == articles[n].id {
        assert articles[j].id == articles[n].id;
      }
      assert FirstFresh(articles, seen, n) <==> articles[n].id !in seen + IdsOf(init);
    }
  }

  /** deduplicate_articles keeps, in input order, exactly the articles at first-fresh
      positions: ones whose id is neither already seen nor taken earlier in the input. */
  lemma KeptAreFirstFresh(articles: seq<Article>, seen: set<string>)
    ensures exists idx: seq<nat> ::
      && |idx| == |Kept(articles, seen)|
      && (forall i :: 0 <= i < |idx| ==> idx[i] < |articles| && Kept(articles, seen)[i] == articles[idx[i]])
      && (forall i, j :: 0 <= i < j < |idx| ==> idx[i] < idx[j])
      && (forall k :: 0 <= k < |articles| ==> (k in idx <==> FirstFresh(articles, seen, k)))
  {
    KeptAtIndices(articles, seen);
    KeptIndicesFirstFresh(articles, seen);
    var idx := KeptIndices(articles, seen);
    assert forall k :: 0 <= k < |articles| ==> (k in idx <==> FirstFresh(articles, seen, k));
  }

  /** The kept articles carry pairwise distinct ids, none of them seen before. */
  lemma KeptFresh(articles: seq<Article>, seen: set<string>)
    ensures var kept := Kept(articles, seen);
      && (forall i :: 0 <= i < |kept| ==> kept[i].id !in seen)
      && (forall i, j :: 0 <= i < j < |kept| ==> kept[i].id != kept[j].id)
  {
    KeptAtIndices(articles, seen);
    KeptIndicesFirstFresh(articles, seen);
    var idx := KeptIndices(articles, seen);
    var kept := Kept(articles, seen);
    forall i | 0 <= i < |kept| ensures kept[i].id !in seen {
      assert idx[i] in idx;
    }
    forall i, j | 0 <= i < j < |kept| ensures kept[i].id != kept[j].id {
      assert idx[j] in idx;
      assert FirstFresh(articles, seen, idx[j]);
    }
  }

  /** Each new id is represented exactly once: the kept ids are the input ids not seen. */
  lemma {:induction false} KeptIds(articles: seq<Article>, seen: set<string>)
    ensures IdsOf(Kept(articles, seen)) == IdsOf(articles) - seen
    decreases |articles|
  {
    if articles != [] {
      var n := |articles| - 1;
      var init := articles[..n];
      KeptIds(init, seen);
      var k0 := Kept(init, seen);
      var id := articles[n].id;
      var before := IdsOf(init);
      assert IdsOf(articles) == before + {id};
      if id !in seen + before {
        assert IdsOf(Kept(articles, seen)) == IdsOf(k0) + {id} by {
          assert Kept(articles, seen) == k0 + [articles[n]];
          IdsSnoc(k0, articles[n]);
        }
        assert (before + {id}) - seen == (before - seen) + {id};
      } else {
        assert Kept(articles, seen) == k0;
        assert (before + {id}) - seen == before - seen;
      }
    }
  }

  /** The set of ids the agent has seen, updated in place by de-duplication. */
  class SeenIds {
    var ids: set<string>

    constructor (ids: set<string>)
      ensures this.ids == ids
    {
      this.ids := ids;
    }
  }

  /** The articles of the cache file: none when the file is missing or unreadable
      (`None`), otherwise its article list. */
  function Cached(cache: Option<seq<Article>>): seq<Article> {
    if cache.Some? then cache.value else []
  }

  /** load_existing_articles: the cached articles, and a seen set holding exactly
      their ids. */
  method LoadExistingArticles(cache: Option<seq<Article>>) returns (existing: seq<Article>, seen: SeenIds)
    ensures fresh(seen)
    ensures existing == Cached(cache) && seen.ids == IdsOf(existing)
    ensures cache.None? ==> existing == [] && seen.ids == {}
  {
    existing := Cached(cache);
    seen := new SeenIds(IdsOf(existing));
  }

  /** No two articles share an id. */
  predicate IdsDistinct(articles: seq<Article>) {
    forall i, j :: 0 <= i < j < |articles| ==> articles[i].id != articles[j].id
  }

  /** Appending articles whose ids are new keeps ids distinct. */
  lemma IdsDistinctAppend(a: seq<Article>, b: seq<Article>)
    requires IdsDistinct(a) && IdsDistinct(b)
    requires forall k :: 0 <= k < |b| ==> b[k].id !in IdsOf(a)
    ensures IdsDistinct(a + b)
  {
    forall i, j | 0 <= i < j < |a + b|
      ensures (a + b)[i].id != (a + b)[j].id
    {
      if i < |a| && j >= |a| {
        IdsOfMember(a, (a + b)[i].id);
        assert (a + b)[j] == b[j - |a|];
      }
    }
  }

  /** An element occurring twice in a sequence counts at least twice in its multiset. */
  lemma CountsTwice(s: seq<Article>, i: nat, j: nat)
    requires i < j < |s| && s[i] == s[j]
    ensures multiset(s)[s[i]] >= 2
  {
    assert s == s[..j] + s[j..];
    assert s[i] in s[..j];
    assert s[j..][0] == s[j];
  }

  /** An element counting twice occurs at two positions. */
  lemma TwoPositions(t: seq<Article>, x: Article)
    requires multiset(t)[x] >= 2
    ensures exists p, q :: 0 <= p < q < |t| && t[p] == x && t[q] == x
  {
    assert x in multiset(t);
    var p :| 0 <= p < |t| && t[p] == x;
    var rest := t[..p] + t[p + 1..];
    assert t == t[..p] + [t[p]] + t[p + 1..];
    assert multiset(t) == multiset(rest) + multiset{x};
    assert x in multiset(rest);
    if x in t[..p] {
      var q :| 0 <= q < p && t[..p][q] == x;
      assert t[q] == x;
    } else {
      assert x in t[p + 1..];
      var q :| 0 <= q < |t| - p - 1 && t[p + 1..][q] == x;
      assert t[p + 1 + q] == x;
    }
  }

  /** Reordering a list keeps its ids distinct. */
  lemma {:induction false} PermutationKeepsIdsDistinct(s: seq<Article>, t: seq<Article>)
    requires multiset(s) == multiset(t) && IdsDistinct(t)
    ensures IdsDistinct(s)
  {
    forall i, j | 0 <= i < j < |s|
      ensures s[i].id != s[j].id
    {
      if s[i] == s[j] {
        CountsTwice(s, i, j);
        TwoPositions(t, s[i]);
      } else {
        assert s[i] in multiset(t) && s[j] in multiset(t);
        var p :| 0 <= p < |t| && t[p] == s[i];
        var q :| 0 <= q < |t| && t[q] == s[j];
        assert p != q;
      }
    }
  }

  /** Reordering a list keeps its set of ids. */
  lemma IdsOfPermutation(s: seq<Article>, t: seq<Article>)
    requires multiset(s) == multiset(t)
    ensures IdsOf(s) == IdsOf(t)
  {
    forall id ensures id in IdsOf(s) <==> id in IdsOf(t) {
      IdsOfMember(s, id);
      IdsOfMember(t, id);
      if j :| 0 <= j < |s| && s[j].id == id {
        assert s[j] in multiset(t);
      }
      if j :| 0 <= j < |t| && t[j].id == id {
        assert t[j] in multiset(s);
      }
    }
  }

  /** deduplicate_articles: keeps the first article for each id not seen yet, counts
      the others, and records every input id as seen. */
  method DeduplicateArticles(newArticles: seq<Article>, existing: SeenIds)
    returns (unique: seq<Article>, duplicates: nat)
    modifies existing
    ensures unique == Kept(newArticles, old(existing.ids))
    ensures |unique| + duplicates == |newArticles|
    ensures existing.ids == old(existing.ids) + IdsOf(newArticles)
  {
    ghost var seen := existing.ids;
    unique := [];
    duplicates := 0;
    var i := 0;
    while i < |newArticles|
      invariant 0 <= i <= |newArticles|
      invariant unique == Kept(newArticles[..i], seen)
      invariant |unique| + duplicates == i
      invariant existing.ids == seen + IdsOf(newArticles[..i])
    {
      var article := newArticles[i];
      KeptStep(newArticles, seen, i);
      IdsStep(newArticles, i);
      if article.id in existing.ids {
        duplicates := duplicates + 1;
      } else {
        unique := unique + [article];
        existing.ids := existing.ids + {article.id};
      }
      i := i + 1;
    }
    assert newArticles[..i] == newArticles;
  }

  // ---------------------------------------------------------------------------
  // Per-source counts
  // ---------------------------------------------------------------------------

  /** How many articles come from the source. */
  function CountOf(articles: seq<Article>, source: string): (r: nat)
    ensures r <= |articles|
    decreases |articles|
  {
    if articles == [] then 0
    else
      var n := |articles| - 1;
      CountOf(articles[..n], source) + (if articles[n].sourceId == source then 1 else 0)
  }

  /** The sum of the counts of a by-source table. */
  function Total(counts: seq<(string, nat)>): nat
    decreases |counts|
  {
    if counts == [] then 0 else Total(counts[..|counts| - 1]) + counts[|counts| - 1].1
  }

  /** Where a source sits in a by-source table, or -1. */
  function KeyIndex(counts: seq<(string, nat)>, key: string): (r: int)
    ensures -1 <= r < |counts|
    ensures r >= 0 ==> counts[r].0 == key
    ensures r < 0 ==> forall k :: 0 <= k < |counts| ==> counts[k].0 != key
    decreases |counts|
  {
    if counts == [] then -1
    else if counts[|counts| - 1].0 == key then |counts| - 1
    else KeyIndex(counts[..|counts| - 1], key)
  }

  lemma {:induction false} TotalBump(counts: seq<(string, nat)>, j: nat)
    requires j < |counts|
    ensures Total(counts[j := (counts[j].0, counts[j].1 + 1)]) == Total(counts) + 1
    decreases |counts|
  {
    var n := |counts| - 1;
    var c := counts[j := (counts[j].0, counts[j].1 + 1)];
    assert c[..n] == if j < n then counts[..n][j := (counts[j].0, counts[j].1 + 1)] else counts[..n];
    if j < n {
      TotalBump(counts[..n], j);
    }
  }

  /** The table after counting one more article of the source: its row goes up by one,
      or a new row with count 1 is added at the end. */
  function Bump(counts: seq<(string, nat)>, key: string): (r: seq<(string, nat)>)
    ensures |r| == |counts| || r == counts + [(key, 1)]
  {
    var k := KeyIndex(counts, key);
    if k >= 0 then counts[k := (key, counts[k].1 + 1)] else counts + [(key, 1)]
  }

  /** The table has a row for the key. */
  predicate HasKey(counts: seq<(string, nat)>, key: string) {
    exists k :: 0 <= k < |counts| && counts[k].0 == key
  }

  /** A by-source table that counts the articles exactly: distinct keys, every count the
      number of articles of that source (never zero), and every article's source listed. */
  predicate Tally(counts: seq<(string, nat)>, articles: seq<Article>) {
    KeysDistinct(counts) && CountsExact(counts, articles) && Covers(counts, articles)
  }

  predicate KeysDistinct(counts: seq<(string, nat)>) {
    forall i, j :: 0 <= i < j < |counts| ==> counts[i].0 != counts[j].0
  }

  predicate CountsExact(counts: seq<(string, nat)>, articles: seq<Article>) {
    forall k :: 0 <= k < |counts| ==> counts[k].1 == CountOf(articles, counts[k].0) && counts[k].1 > 0
  }

  predicate Covers(counts: seq<(string, nat)>, articles: seq<Article>) {
    forall j :: 0 <= j < |articles| ==> HasKey(counts, articles[j].sourceId)
  }

  lemma CountStep(articles: seq<Article>, i: nat)
    requires i < |articles|
    ensures forall source :: (CountOf(articles[..i + 1], source) ==
      CountOf(articles[..i], source) + (if articles[i].sourceId == source then 1 else 0))
  {
    assert articles[..i + 1][..i] == articles[..i];
  }

  /** A source that no article names has no articles. */
  lemma {:induction false} CountOfAbsent(articles: seq<Article>, source: string, counts: seq<(string, nat)>)
    requires forall j :: 0 <= j < |articles| ==> HasKey(counts, articles[j].sourceId)
    requires !HasKey(counts, source)
    ensures CountOf(articles, source) == 0
    decreases |articles|
  {
    if articles != [] {
      var n := |articles| - 1;
      assert forall j :: 0 <= j < n ==> articles[..n][j] == articles[j];
      CountOfAbsent(articles[..n], source, counts);
    }
  }

  /** Bumping keeps every key already present. */
  lemma BumpKeepsKeys(counts: seq<(string, nat)>, key: string)
    ensures forall other :: HasKey(counts, other) ==> HasKey(Bump(counts, key), other)
    ensures HasKey(Bump(counts, key), key)
  {
    var r := Bump(counts, key);
    forall other | HasKey(counts, other) ensures HasKey(r, other) {
      var m :| 0 <= m < |counts| && counts[m].0 == other;
      assert r[m].0 == other;
    }
    var k := KeyIndex(counts, key);
    if k >= 0 {
      assert r[k].0 == key;
    } else {
      assert r[|counts|].0 == key;
    }
  }

  /** Counting one more article keeps the table exact, and its total goes up by one. */
  lemma TallyStep(counts: seq<(string, nat)>, articles: seq<Article>, i: nat)
    requires i < |articles| && Tally(counts, articles[..i])
    ensures Tally(Bump(counts, articles[i].sourceId), articles[..i + 1])
    ensures Total(Bump(counts, articles[i].sourceId)) == Total(counts) + 1
  {
    var prefix, next := articles[..i], articles[..i + 1];
    assert next[..i] == prefix && next[i] == articles[i];
    BumpRows(counts, prefix, next);
    BumpCovers(counts, prefix, next);
  }

  /** After the bump the keys stay distinct and every row holds its source's count. */
  lemma BumpRows(counts: seq<(string, nat)>, prefix: seq<Article>, next: seq<Article>)
    requires next != [] && next[..|next| - 1] == prefix
    requires Tally(counts, prefix)
    ensures var r := Bump(counts, next[|next| - 1].sourceId);
      KeysDistinct(r) && CountsExact(r, next) && Total(r) == Total(counts) + 1
  {
    var n := |next| - 1;
    var source := next[n].sourceId;
    var r := Bump(counts, source);
    CountStep(next, n);
    assert next[..n + 1] == next;
    var k := KeyIndex(counts, source);
    if k >= 0 {
      TotalBump(counts, k);
      assert forall m :: 0 <= m < |r| ==> r[m].0 == counts[m].0;
    } else {
      assert !HasKey(counts, source);
      CountOfAbsent(prefix, source, counts);
      assert r[..|counts|] == counts;
      assert forall m :: 0 <= m < |counts| ==> r[m] == counts[m];
    }
    forall m | 0 <= m < |r| ensures r[m].1 == CountOf(next, r[m].0) && r[m].1 > 0 {
      if m < |counts| && m != k {
        assert r[m] == counts[m];
      }
    }
  }

  /** After the bump every article counted so far, the new one included, has a row. */
  lemma BumpCovers(counts: seq<(string, nat)>, prefix: seq<Article>, next: seq<Article>)
    requires next != [] && next[..|next| - 1] == prefix
    requires Covers(counts, prefix)
    ensures Covers(Bump(counts, next[|next| - 1].sourceId), next)
  {
    var n := |next| - 1;
    BumpKeepsKeys(counts, next[n].sourceId);
    forall j | 0 <= j < |next| ensures HasKey(Bump(counts, next[n].sourceId), next[j].sourceId) {
      if j < n {
        assert next[j] == prefix[j];
      }
    }
  }

  /** The sources of the articles, each once, in order of first appearance. */
  function FirstSeen(articles: seq<Article>): (r: seq<string>)
    ensures forall x :: x in r <==> exists j :: 0 <= j < |articles| && articles[j].sourceId == x
    ensures forall p, q :: 0 <= p < q < |r| ==> r[p] != r[q]
    decreases |articles|
  {
    if articles == [] then []
    else
      var n := |articles| - 1;
      var front := FirstSeen(articles[..n]);
      assert forall j :: 0 <= j < n ==> articles[..n][j] == articles[j];
      if articles[n].sourceId in front then front else front + [articles[n].sourceId]
  }

  /** A source listed before another occurs before every occurrence of the other. */
  lemma {:induction false} FirstSeenOrder(articles: seq<Article>, p: nat, q: nat, j: nat)
    requires p < q < |FirstSeen(articles)| && j < |articles|
    requires articles[j].sourceId == FirstSeen(articles)[q]
    ensures exists i :: 0 <= i < j && articles[i].sourceId == FirstSeen(articles)[p]
    decreases |articles|
  {
    var n := |articles| - 1;
    var init := articles[..n];
    var front := FirstSeen(init);
    var r := FirstSeen(articles);
    assert forall k :: 0 <= k < n ==> init[k] == articles[k];
    if q < |front| {
      assert r[p] == front[p] && r[q] == front[q];
      if j < n {
        FirstSeenOrder(init, p, q, j);
      } else {
        var j' :| 0 <= j' < n && init[j'].sourceId == front[q];
        FirstSeenOrder(init, p, q, j');
      }
    } else {
      assert r[p] == front[p] && r[q] == articles[n].sourceId && articles[n].sourceId !in front;
      assert j == n;
      assert front[p] in front;
      var i :| 0 <= i < n && init[i].sourceId == front[p];
      assert articles[i].sourceId == r[p];
    }
  }

  /** The sources of a by-source table, in table order. */
  function KeysOf(counts: seq<(string, nat)>): seq<string> {
    seq(|counts|, k requires 0 <= k < |counts| => counts[k].0)
  }

  /** Bumping a source already listed keeps the keys; a new one goes to the end. */
  lemma BumpKeys(counts: seq<(string, nat)>, key: string)
    ensures KeysOf(Bump(counts, key)) == if key in KeysOf(counts) then KeysOf(counts) else KeysOf(counts) + [key]
  {
    var k := KeyIndex(counts, key);
    if k >= 0 {
      assert KeysOf(counts)[k] == key;
    } else {
      assert key !in KeysOf(counts);
    }
  }

  /** Counting one more article keeps the table's sources in order of first appearance. */
  lemma KeysStep(counts: seq<(string, nat)>, articles: seq<Article>, i: nat)
    requires i < |articles| && KeysOf(counts) == FirstSeen(articles[..i])
    ensures KeysOf(Bump(counts, articles[i].sourceId)) == FirstSeen(articles[..i + 1])
  {
    BumpKeys(counts, articles[i].sourceId);
    assert articles[..i + 1][..i] == articles[..i];
  }

  /** The by_source table of save_articles: sources in order of first appearance, each
      with its number of articles. Its counts add up to the number of articles. */
  method CountBySource(articles: seq<Article>) returns (bySource: seq<(string, nat)>)
    ensures Tally(bySource, articles)
    ensures KeysOf(bySource) == FirstSeen(articles)
    ensures Total(bySource) == |articles|
  {
    bySource := [];
    var i := 0;
    while i < |articles|
      invariant 0 <= i <= |articles|
      invariant Tally(bySource, articles[..i])
      invariant KeysOf(bySource) == FirstSeen(articles[..i])
      invariant Total(bySource) == i
    {
      TallyStep(bySource, articles, i);
      KeysStep(bySource, articles, i);
      bySource := Bump(bySource, articles[i].sourceId);
      i := i + 1;
    }
    assert articles[..i] == articles;
  }

  /** The metadata save_articles writes beside the articles. */
  datatype Metadata = Metadata(totalArticles: nat, sources: seq<string>, articlesBySource: seq<(string, nat)>)

  method ArticlesMetadata(articles: seq<Article>) returns (m: Metadata)
    ensures m.totalArticles == |articles| == Total(m.articlesBySource)
    ensures |m.sources| == |SourceTable|
    ensures forall i :: 0 <= i < |SourceTable| ==> m.sources[i] == SourceTable[i].id
    ensures Tally(m.articlesBySource, articles)
  {
    var bySource := CountBySource(articles);
    m := Metadata(|articles|, seq(|SourceTable|, i requires 0 <= i < |SourceTable| => SourceTable[i].id), bySource);
  }

  // ---------------------------------------------------------------------------
  // Merge, newest first
  // ---------------------------------------------------------------------------

  /** a sorts before b under `sort(key=published_utc, reverse=True)`. */
  predicate NewerFirst(a: Article, b: Article) {
    StrLe(b.publishedUtc, a.publishedUtc)
  }

  lemma NewerFirstIsPreorder()
    ensures Sorting.TotalPreorder(NewerFirst)
  {
    forall a: Article, b: Article ensures NewerFirst(a, b) || NewerFirst(b, a) {
      StrLeTotal(a.publishedUtc, b.publishedUtc);
    }
    forall a: Article, b: Article, c: Article | NewerFirst(a, b) && NewerFirst(b, c)
      ensures NewerFirst(a, c)
    {
      StrLeTransitive(c.publishedUtc, b.publishedUtc, a.publishedUtc);
    }
  }

  /** The stored articles followed by the new unique ones, sorted by publication
      date, newest first. */
  method MergeArticles(existing: seq<Article>, unique: seq<Article>) returns (merged: seq<Article>)
    ensures multiset(merged) == multiset(existing) + multiset(unique)
    ensures Sorting.SortedDesc(merged, NewerFirst)
  {
    merged := Sorting.SortDesc(existing + unique, NewerFirst);
    NewerFirstIsPreorder();
    Sorting.SortDescSorted(existing + unique, NewerFirst);
  }

  /** The articles fetched from each configured source in turn, and the sources that
      yielded none. */
  function Concat(fetched: seq<seq<Article>>): seq<Article>
    decreases |fetched|
  {
    if fetched == [] then [] else Concat(fetched[..|fetched| - 1]) + fetched[|fetched| - 1]
  }

  /** One run of the agent after the feeds are fetched: the cache is loaded, the
      per-source results are gathered (an empty one marks its source as failed),
      de-duplicated against the cached ids and merged with the cached articles. A run
      never stores an id twice when the cache did not, and every fetched id ends up
      stored. */
  method Ingest(cache: Option<seq<Article>>, fetched: seq<seq<Article>>)
    returns (merged: seq<Article>, duplicates: nat, failed: seq<string>)
    requires |fetched| == |SourceTable|
    ensures var existing := Cached(cache);
      && multiset(merged) == multiset(existing) + multiset(Kept(Concat(fetched), IdsOf(existing)))
      && |merged| + duplicates == |existing| + |Concat(fetched)|
      && (IdsDistinct(existing) ==> IdsDistinct(merged))
      && IdsOf(merged) == IdsOf(existing) + IdsOf(Concat(fetched))
    ensures Sorting.SortedDesc(merged, NewerFirst)
    ensures forall s :: s in failed <==> exists i :: 0 <= i < |fetched| && fetched[i] == [] && SourceTable[i].id == s
  {
    var existing, seen := LoadExistingArticles(cache);
    var allNew: seq<Article> := [];
    failed := [];
    var i := 0;
    while i < |fetched|
      invariant 0 <= i <= |fetched|
      invariant allNew == Concat(fetched[..i])
      invariant forall s :: s in failed <==> exists j :: 0 <= j < i && fetched[j] == [] && SourceTable[j].id == s
    {
      assert fetched[..i + 1][..i] == fetched[..i];
      if fetched[i] != [] {
        allNew := allNew + fetched[i];
      } else {
        failed := failed + [SourceTable[i].id];
      }
      i := i + 1;
    }
    assert fetched[..i] == fetched;
    var unique;
    unique, duplicates := DeduplicateArticles(allNew, seen);
    merged := MergeArticles(existing, unique);
    assert |merged| == |multiset(merged)| == |existing| + |unique|;
    StoredIds(existing, allNew, merged);
  }

  /** What the merge stores: distinct ids stay distinct, and the stored ids are the
      cached ones plus every fetched one. */
  lemma StoredIds(existing: seq<Article>, allNew: seq<Article>, merged: seq<Article>)
    requires multiset(merged) == multiset(existing) + multiset(Kept(allNew, IdsOf(existing)))
    ensures IdsDistinct(existing) ==> IdsDistinct(merged)
    ensures IdsOf(merged) == IdsOf(existing) + IdsOf(allNew)
  {
    var unique := Kept(allNew, IdsOf(existing));
    assert multiset(merged) == multiset(existing + unique);
    KeptFresh(allNew, IdsOf(existing));
    KeptIds(allNew, IdsOf(existing));
    if IdsDistinct(existing) {
      IdsDistinctAppend(existing, unique);
      PermutationKeepsIdsDistinct(merged, existing + unique);
    }
    IdsOfPermutation(merged, existing + unique);
    IdsOfAppend(existing, unique);
  }

  lemma {:induction false} IdsOfAppend(a: seq<Article>, b: seq<Article>)
    ensures IdsOf(a + b) == IdsOf(a) + IdsOf(b)
    decreases |b|
  {
    if b != [] {
      var n := |b| - 1;
      IdsOfAppend(a, b[..n]);
      assert (a + b)[..|a + b| - 1] == a + b[..n];
    } else {
      assert a + b == a;
    }
  }
}
