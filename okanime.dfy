/** The ok.okanime.xyz adapter (OkAnime.js): what each of its four
    operations does with what its pattern scans and API calls deliver.
    Fetching is not modelled; every operation takes the outcome of its
    fetches (a `Result`) and the captures of its scans as inputs. */
module OkAnime {
  import opened JsText
  import opened Catalog
  import opened EntityDecoder

  const Origin: Text := Lit("https://ok.okanime.xyz")
  const StorageBase: Text := Lit("https://api.okanime.xyz/storage/")
  const EscapedSlash: Text := Lit("\\u002F")
  const Slash: Text := Lit("/")
  const NotAvailable: Text := Lit("N/A")

  // ---------------------------------------------------------------------
  // Search

  /** One result container of the search page: the capture of its `<h2>`
      title and of its first `href` attribute, each absent when the pattern
      does not match. */
  datatype Container = Container(title: Option<Text>, href: Option<Text>)

  /** One record of the inline script: its `anime_name` and `poster_path`
      captures. */
  datatype ScriptEntry = ScriptEntry(animeName: Text, posterPath: Text)

  datatype SearchPage = SearchPage(containers: seq<Container>, scripts: seq<ScriptEntry>)

  /** A search hit; `error` is present only on the placeholder of a failed
      search. */
  datatype SearchResult = SearchResult(title: Text, href: Text, image: Text, error: Option<Text>)

  const NoResults: SearchResult := SearchResult(Lit("No results found"), [], [], None)

  function ErrorResult(message: Text): SearchResult
  {
    SearchResult(Lit("Error"), [], [], Some(message))
  }

  predicate HasTitleAndHref(c: Container)
  {
    c.title.Some? && c.href.Some?
  }

  /** A site-relative link made absolute against the site's origin: a link
      starting with `/` gets the origin in front of it, so that dropping
      the origin gives the link back; any other link is kept as it is. */
  function Absolute(href: Text): (r: Text)
    ensures StartsWith(href, Slash) ==> StartsWith(r, Origin) && r[|Origin|..] == href
    ensures !StartsWith(href, Slash) ==> r == href
  {
    if StartsWith(href, Slash) then Origin + href else href
  }

  /** The result a container with both captures yields, before any thumbnail. */
  function ToResult(c: Container): SearchResult
  {
    SearchResult(Decoded(Trim(c.title.GetOr([]))), Absolute(Trim(c.href.GetOr([]))), [], None)
  }

  /** The results of the container loop, in page order. */
  function Assembled(cs: seq<Container>): seq<SearchResult>
  {
    Map(ToResult, Filter(HasTitleAndHref, cs))
  }

  /** How titles are compared: `t.toLowerCase().trim()`, with the case
      mapping left to the caller. */
  function Normalized(t: Text, lower: Text -> Text): Text
  {
    Trim(lower(t))
  }

  function ScriptTitle(e: ScriptEntry): Text
  {
    Decoded(Trim(e.animeName))
  }

  /** The thumbnail URL of a script record: its poster path trimmed, with the
      escaped slashes `\u002F` restored, under the storage base. The URL
      always starts with the storage base, never exceeds it by more than the
      path's length, and carries a path without backslashes unchanged. */
  function PosterUrl(e: ScriptEntry): (r: Text)
    ensures StartsWith(r, StorageBase)
    ensures |r| <= |StorageBase| + |e.posterPath|
    ensures 0x5C !in Trim(e.posterPath) ==> r == StorageBase + Trim(e.posterPath)
  {
    StorageBase + ReplaceAll(Trim(e.posterPath), EscapedSlash, Slash)
  }

  /** An escaped slash in the poster path is restored to `/`. */
  lemma PosterUrlRestores(e: ScriptEntry, x: Text, y: Text)
    requires Trim(e.posterPath) == x + EscapedSlash + y
    requires 0x5C !in x && 0x5C !in y
    ensures PosterUrl(e) == StorageBase + x + Slash + y
  {
    assert EscapedSlash[0] == 0x5C;
    ReplaceAllAfter(x, EscapedSlash, Slash, y);
  }

  /** `results.findIndex(...)`: the first result whose normalised title is
      `key`, or -1 when there is none. */
  function FindIndex(results: seq<SearchResult>, key: Text, lower: Text -> Text): (k: int)
    ensures -1 <= k < |results|
    ensures k >= 0 ==> Normalized(results[k].title, lower) == key
    ensures k >= 0 ==> forall j :: 0 <= j < k ==> Normalized(results[j].title, lower) != key
    ensures k == -1 <==> forall j :: 0 <= j < |results| ==> Normalized(results[j].title, lower) != key
  {
    FindFrom(results, key, lower, 0)
  }

  /** The scan of `findIndex` from position `from` on. */
  function FindFrom(results: seq<SearchResult>, key: Text, lower: Text -> Text, from: nat): (k: int)
    requires from <= |results|
    ensures k == -1 || from <= k < |results|
    ensures k >= 0 ==> Normalized(results[k].title, lower) == key
    ensures k >= 0 ==> forall j :: from <= j < k ==> Normalized(results[j].title, lower) != key
    ensures k == -1 ==> forall j :: from <= j < |results| ==> Normalized(results[j].title, lower) != key
    decreases |results| - from
  {
    if from == |results| then -1
    else if Normalized(results[from].title, lower) == key then from
    else FindFrom(results, key, lower, from + 1)
  }

  /** The result a script record gives its poster to, or -1. */
  function Target(results: seq<SearchResult>, e: ScriptEntry, lower: Text -> Text): int
  {
    FindIndex(results, Normalized(ScriptTitle(e), lower), lower)
  }

  /** One script record applied: the targeted result gets the poster. */
  function WithPoster(results: seq<SearchResult>, e: ScriptEntry, lower: Text -> Text): seq<SearchResult>
  {
    var k := Target(results, e, lower);
    if k < 0 then results else results[k := results[k].(image := PosterUrl(e))]
  }

  /** The script records applied one after another, in page order. */
  function Backfilled(results: seq<SearchResult>, scripts: seq<ScriptEntry>, lower: Text -> Text): seq<SearchResult>
    decreases |scripts|
  {
    if scripts == [] then results
    else WithPoster(Backfilled(results, scripts[..|scripts| - 1], lower), scripts[|scripts| - 1], lower)
  }

  /** The container loop of `searchResults`: one result per container with
      both captures, pushed in page order. */
  method CollectResults(containers: seq<Container>) returns (results: seq<SearchResult>)
    ensures results == Assembled(containers)
  {
    results := [];
    var i := 0;
    while i < |containers|
      invariant 0 <= i <= |containers|
      invariant results == Assembled(containers[..i])
    {
      var c := containers[i];
      FilterSnoc(HasTitleAndHref, containers, i);
      ghost var kept := Filter(HasTitleAndHref, containers[..i]);
      if c.title.Some? && c.href.Some? {
        var title := DecodeHtmlEntities(Trim(c.title.value), NamedEntities);
        var href := Trim(c.href.value);
        var fullHref := if StartsWith(href, Slash) then Origin + href else href;
        MapSnoc(ToResult, kept, c);
        results := results + [SearchResult(title, fullHref, [], None)];
      }
      i := i + 1;
    }
    assert containers[..i] == containers;
  }

  /** One pass of the script loop: the record's decoded title is looked up
      among the results, and a match gets the record's poster. */
  method GivePoster(results: seq<SearchResult>, e: ScriptEntry, lower: Text -> Text) returns (r: seq<SearchResult>)
    ensures r == WithPoster(results, e, lower)
  {
    var scriptTitle := DecodeHtmlEntities(Trim(e.animeName), NamedEntities);
    var poster := ReplaceAll(Trim(e.posterPath), EscapedSlash, Slash);
    var foundIndex := FindIndex(results, Normalized(scriptTitle, lower), lower);
    r := results;
    if foundIndex != -1 {
      r := results[foundIndex := results[foundIndex].(image := StorageBase + poster)];
    }
  }

  /** The script loop of `searchResults`: each record, in page order, gives
      its poster to the first result whose normalised title matches. */
  method FillThumbnails(assembled: seq<SearchResult>, scripts: seq<ScriptEntry>, lower: Text -> Text)
    returns (results: seq<SearchResult>)
    ensures results == Backfilled(assembled, scripts, lower)
  {
    results := assembled;
    var j := 0;
    while j < |scripts|
      invariant 0 <= j <= |scripts|
      invariant results == Backfilled(assembled, scripts[..j], lower)
    {
      results := GivePoster(results, scripts[j], lower);
      assert scripts[..j + 1][..j] == scripts[..j];
      j := j + 1;
    }
    assert scripts[..j] == scripts;
  }

  /** `searchResults`: the container loop, then the thumbnail loop; an empty
      outcome becomes the single "No results found" placeholder, and a failed
      fetch the single "Error" placeholder carrying its message. */
  method SearchResults(fetched: Result<SearchPage>, lower: Text -> Text) returns (out: seq<SearchResult>)
    ensures fetched.Failed? ==> out == [ErrorResult(fetched.message)]
    ensures fetched.Ok? && Assembled(fetched.value.containers) == [] ==> out == [NoResults]
    ensures fetched.Ok? && Assembled(fetched.value.containers) != [] ==>
              out == Backfilled(Assembled(fetched.value.containers), fetched.value.scripts, lower)
  {
    if fetched.Failed? {
      return [ErrorResult(fetched.message)];
    }
    var assembled := CollectResults(fetched.value.containers);
    var results := FillThumbnails(assembled, fetched.value.scripts, lower);
    BackfilledShape(assembled, fetched.value.scripts, lower);
    if |results| == 0 {
      out := [NoResults];
    } else {
      out := results;
    }
  }

  /** The container loop yields exactly one result per container that has
      both a title and a link, in page order; every result starts without a
      thumbnail or error, and its link is made absolute exactly when it
      begins with `/`. */
  lemma AssembledResults(cs: seq<Container>)
    ensures |Assembled(cs)| == |Filter(HasTitleAndHref, cs)|
    ensures Assembled(cs) == [] <==> forall i :: 0 <= i < |cs| ==> !HasTitleAndHref(cs[i])
    ensures forall k :: 0 <= k < |Assembled(cs)| ==>
              var c, r := Filter(HasTitleAndHref, cs)[k], Assembled(cs)[k];
              && r.image == [] && r.error == None
              && r.title == Decoded(Trim(c.title.value))
              && r.href == (if StartsWith(Trim(c.href.value), Slash) then Origin + Trim(c.href.value)
                            else Trim(c.href.value))
  {
  }

  /** Whether a result is targeted depends on the titles alone. */
  lemma FindIndexByTitles(rs: seq<SearchResult>, rs': seq<SearchResult>, key: Text, lower: Text -> Text)
    requires |rs| == |rs'|
    requires forall k :: 0 <= k < |rs| ==> rs[k].title == rs'[k].title
    ensures FindIndex(rs, key, lower) == FindIndex(rs', key, lower)
  {
    FindFromByTitles(rs, rs', key, lower, 0);
  }

  lemma {:induction false} FindFromByTitles(rs: seq<SearchResult>, rs': seq<SearchResult>, key: Text, lower: Text -> Text, from: nat)
    requires |rs| == |rs'| && from <= |rs|
    requires forall k :: 0 <= k < |rs| ==> rs[k].title == rs'[k].title
    ensures FindFrom(rs, key, lower, from) == FindFrom(rs', key, lower, from)
    decreases |rs| - from
  {
    if from < |rs| {
      FindFromByTitles(rs, rs', key, lower, from + 1);
    }
  }

  /** Back-filling changes images only: the number of results, their order,
      titles, links and error fields are kept. */
  lemma {:induction false} BackfilledShape(rs: seq<SearchResult>, es: seq<ScriptEntry>, lower: Text -> Text)
    ensures |Backfilled(rs, es, lower)| == |rs|
    ensures forall k :: 0 <= k < |rs| ==>
              var b := Backfilled(rs, es, lower)[k];
              b.title == rs[k].title && b.href == rs[k].href && b.error == rs[k].error
    decreases |es|
  {
    if es != [] {
      BackfilledShape(rs, es[..|es| - 1], lower);
    }
  }

  /** A result that no script record targets keeps its image (and
      everything else). */
  lemma {:induction false} BackfilledUntargeted(rs: seq<SearchResult>, es: seq<ScriptEntry>, lower: Text -> Text, k: nat)
    requires k < |rs|
    requires forall j :: 0 <= j < |es| ==> Target(rs, es[j], lower) != k
    ensures |Backfilled(rs, es, lower)| == |rs| && Backfilled(rs, es, lower)[k] == rs[k]
    decreases |es|
  {
    BackfilledShape(rs, es, lower);
    if es != [] {
      var init := es[..|es| - 1];
      BackfilledUntargeted(rs, init, lower, k);
      BackfilledShape(rs, init, lower);
      FindIndexByTitles(Backfilled(rs, init, lower), rs, Normalized(ScriptTitle(es[|es| - 1]), lower), lower);
    }
  }

  /** A script record sets the image of the first result whose normalised
      title equals its own; when several records target the same result,
      the last of them decides its thumbnail. */
  lemma {:induction false} BackfilledTargeted(rs: seq<SearchResult>, es: seq<ScriptEntry>, lower: Text -> Text, j: nat)
    requires j < |es|
    requires Target(rs, es[j], lower) >= 0
    requires forall j' :: j < j' < |es| ==> Target(rs, es[j'], lower) != Target(rs, es[j], lower)
    ensures |Backfilled(rs, es, lower)| == |rs|
    ensures Backfilled(rs, es, lower)[Target(rs, es[j], lower)].image == PosterUrl(es[j])
    decreases |es|
  {
    BackfilledShape(rs, es, lower);
    var init := es[..|es| - 1];
    var last := es[|es| - 1];
    BackfilledShape(rs, init, lower);
    FindIndexByTitles(Backfilled(rs, init, lower), rs, Normalized(ScriptTitle(last), lower), lower);
    if j < |es| - 1 {
      BackfilledTargeted(rs, init, lower, j);
    }
  }

  // ---------------------------------------------------------------------
  // Details

  /** The captures of a series page: the `text-justify` paragraph, the
      four-digit year, and the chip texts of the alias container (absent
      when the container is missing or empty). */
  datatype DetailPage = DetailPage(description: Option<Text>, airdate: Option<Text>, aliasSpans: Option<seq<Text>>)

  function AliasText(span: Text): Text
  {
    Decoded(Trim(span))
  }

  /** The aliases field: the decoded chip texts joined with ", ", or the
      "N/A" sentinel when there are none. */
  function AliasList(aliases: seq<Text>): Text
  {
    if aliases == [] then NotAvailable else Join(aliases, Lit(", "))
  }

  /** The one record `extractDetails` builds from a fetched page. */
  function DetailOf(p: DetailPage): Detail
  {
    Detail(if p.description.Some? then Decoded(Trim(p.description.value)) else NotAvailable,
           AliasList(Map(AliasText, p.aliasSpans.GetOr([]))),
           p.airdate.GetOr(NotAvailable))
  }

  /** The chip loop of `extractDetails`: each chip text trimmed and decoded,
      in order. */
  method CollectAliases(spans: seq<Text>) returns (aliases: seq<Text>)
    ensures aliases == Map(AliasText, spans)
  {
    aliases := [];
    for i := 0 to |spans|
      invariant aliases == Map(AliasText, spans[..i])
    {
      var alias := DecodeHtmlEntities(Trim(spans[i]), NamedEntities);
      assert spans[..i + 1] == spans[..i] + [spans[i]];
      MapSnoc(AliasText, spans[..i], spans[i]);
      aliases := aliases + [alias];
    }
    assert spans[..|spans|] == spans;
  }

  const NoDetail: Detail := Detail(NotAvailable, NotAvailable, NotAvailable)

  /** `extractDetails`: always exactly one record; a failed fetch gives the
      all-"N/A" record. */
  method ExtractDetails(fetched: Result<DetailPage>) returns (out: seq<Detail>)
    ensures |out| == 1
    ensures fetched.Failed? ==> out[0] == NoDetail
    ensures fetched.Ok? ==> out[0] == DetailOf(fetched.value)
  {
    if fetched.Failed? {
      return [NoDetail];
    }
    var page := fetched.value;
    var description := NotAvailable;
    if page.description.Some? {
      description := DecodeHtmlEntities(Trim(page.description.value), NamedEntities);
    }
    var airdate := if page.airdate.Some? then page.airdate.value else NotAvailable;
    var aliases: seq<Text> := [];
    if page.aliasSpans.Some? {
      aliases := CollectAliases(page.aliasSpans.value);
    }
    out := [Detail(description, if |aliases| > 0 then Join(aliases, Lit(", ")) else NotAvailable, airdate)];
  }

  /** The sentinels of a fetched page: a missing description or year is
      "N/A", the aliases are "N/A" when the container holds no chip and are
      otherwise the decoded chips joined by ", ", which is empty only for a
      single chip of white space. */
  lemma DetailSentinels(p: DetailPage)
    ensures p.description.None? ==> DetailOf(p).description == NotAvailable
    ensures p.description.Some? ==> DetailOf(p).description == Decoded(Trim(p.description.value))
    ensures p.airdate.None? ==> DetailOf(p).airdate == NotAvailable
    ensures p.airdate.Some? ==> DetailOf(p).airdate == p.airdate.value
    ensures p.aliasSpans.GetOr([]) == [] ==> DetailOf(p).aliases == NotAvailable
    ensures p.aliasSpans.GetOr([]) != [] ==>
              DetailOf(p).aliases == Join(Map(AliasText, p.aliasSpans.value), Lit(", "))
    ensures DetailOf(p).aliases == [] <==>
              (p.aliasSpans.GetOr([]) != [] && |p.aliasSpans.value| == 1
               && forall i :: 0 <= i < |p.aliasSpans.value[0]| ==> IsTrimmable(p.aliasSpans.value[0][i]))
  {
    var spans := p.aliasSpans.GetOr([]);
    if |spans| == 1 {
      TrimFacts(spans[0]);
    }
  }

  // ---------------------------------------------------------------------
  // Episodes

  /** The captures of a series page that the enumerator reads: the slug of
      the NUXT state, a bare `slug:` field, and the ordinals of the
      `-episode-N` watch links and the episode labels. */
  datatype EpisodePage = EpisodePage(nuxtSlug: Option<Text>, bareSlug: Option<Text>,
                                     watchOrdinals: seq<nat>, labelOrdinals: seq<nat>)

  /** The ordinals found on the series' last listing page, when the API
      named a last page and both that call and the page fetch succeeded. */
  datatype LastPageScan = LastPageScan(labelOrdinals: seq<nat>, linkOrdinals: seq<nat>)

  datatype Episode = Episode(href: Text, number: nat)

  const WatchBase: Text := Lit("https://ok.okanime.xyz/watch/")
  const EpisodeInfix: Text := Lit("-episode-")

  /** A candidate counts when it is present and non-empty, as `||` tests it. */
  predicate Usable(o: Option<Text>)
  {
    o.Some? && o.value != []
  }

  /** `a || b || ...` over candidate captures: the first usable one. */
  function FirstUsable(cands: seq<Option<Text>>): (r: Option<Text>)
    ensures r.None? <==> forall i :: 0 <= i < |cands| ==> !Usable(cands[i])
    ensures r.Some? ==> Usable(r) && exists i :: (0 <= i < |cands| && cands[i] == r
                                                  && forall j :: 0 <= j < i ==> !Usable(cands[j]))
  {
    if cands == [] then None
    else if Usable(cands[0]) then cands[0]
    else
      var r := FirstUsable(cands[1..]);
      assert r.Some? ==> exists i :: 1 <= i < |cands| && cands[i] == r
                          && forall j :: 0 <= j < i ==> !Usable(cands[j]) by {
        if r.Some? {
          var i :| 0 <= i < |cands[1..]| && cands[1..][i] == r && forall j :: 0 <= j < i ==> !Usable(cands[1..][j]);
          assert cands[i + 1] == r;
        }
      }
      r
  }

  /** The slug, searched for in the NUXT state, then the bare field, then the
      `/anime/<slug>` segment of the URL. */
  function Slug(p: EpisodePage, urlSlug: Option<Text>): Option<Text>
  {
    FirstUsable([p.nuxtSlug, p.bareSlug, urlSlug])
  }

  /** The slug sources are tried strictly in order: the NUXT state when it
      has one, else the bare field, else the URL segment, else there is no
      slug. */
  lemma SlugPriority(p: EpisodePage, urlSlug: Option<Text>)
    ensures Usable(p.nuxtSlug) ==> Slug(p, urlSlug) == p.nuxtSlug
    ensures !Usable(p.nuxtSlug) && Usable(p.bareSlug) ==> Slug(p, urlSlug) == p.bareSlug
    ensures !Usable(p.nuxtSlug) && !Usable(p.bareSlug) && Usable(urlSlug) ==> Slug(p, urlSlug) == urlSlug
    ensures !Usable(p.nuxtSlug) && !Usable(p.bareSlug) && !Usable(urlSlug) ==> Slug(p, urlSlug).None?
  {
    var cands := [p.nuxtSlug, p.bareSlug, urlSlug];
    assert cands[1..] == [p.bareSlug, urlSlug];
    assert cands[1..][1..] == [urlSlug];
    assert [urlSlug][1..] == [];
    assert FirstUsable(cands) == FirstUsable(cands[1..]) || Usable(p.nuxtSlug);
    assert FirstUsable(cands[1..]) == FirstUsable([urlSlug]) || Usable(p.bareSlug);
  }

  /** `Math.max(...xs, 0)`. */
  function MaxOrZero(xs: seq<nat>): (m: nat)
    ensures forall i :: 0 <= i < |xs| ==> xs[i] <= m
    ensures m == 0 || m in xs
  {
    if xs == [] then 0
    else
      var rest := MaxOrZero(xs[1..]);
      assert forall i :: 1 <= i < |xs| ==> xs[i] == xs[1..][i - 1];
      if xs[0] >= rest then xs[0] else rest
  }

  /** The three tiers: the highest ordinal of the last listing page, else
      the API's `meta.total`, else the highest ordinal on the series page. */
  function EpisodeCount(lastPage: Option<LastPageScan>, total: Option<nat>, p: EpisodePage): (n: nat)
    ensures n > 0 ==> (lastPage.Some? && n in lastPage.value.labelOrdinals + lastPage.value.linkOrdinals)
                      || total == Some(n) || n in p.watchOrdinals + p.labelOrdinals
    ensures n == 0 ==> total.None? || total.value == 0
  {
    var highest := if lastPage.Some? then MaxOrZero(lastPage.value.labelOrdinals + lastPage.value.linkOrdinals) else 0;
    if highest > 0 then highest
    else if total.Some? && total.value > 0 then total.value
    else MaxOrZero(p.watchOrdinals + p.labelOrdinals)
  }

  function WatchUrl(slug: Text, i: nat): Text
  {
    WatchBase + slug + EpisodeInfix + DecimalText(i)
  }

  /** `extractEpisodes`: a failed page fetch or a missing slug gives no
      episodes; otherwise the count N of the tiers gives exactly N entries,
      numbered 1 to N in order, each linking to its watch page. The API's
      answers reach the model as `lastPage` and `total`. */
  method ExtractEpisodes(fetched: Result<EpisodePage>, urlSlug: Option<Text>,
                         lastPage: Option<LastPageScan>, total: Option<nat>)
    returns (episodes: seq<Episode>)
    ensures fetched.Failed? || Slug(fetched.value, urlSlug).None? ==> episodes == []
    ensures fetched.Ok? && Slug(fetched.value, urlSlug).Some? ==>
              var slug, n := Slug(fetched.value, urlSlug).value, EpisodeCount(lastPage, total, fetched.value);
              && |episodes| == n
              && forall k :: 0 <= k < n ==> episodes[k] == Episode(WatchUrl(slug, k + 1), k + 1)
  {
    if fetched.Failed? {
      return [];
    }
    var page := fetched.value;
    var found := FirstUsable([page.nuxtSlug, page.bareSlug, urlSlug]);
    if found.None? {
      return [];
    }
    var slug := found.value;

    var episodeCount := 0;
    if lastPage.Some? {
      var highestFromMatches := MaxOrZero(lastPage.value.labelOrdinals + lastPage.value.linkOrdinals);
      if highestFromMatches > 0 {
        episodeCount := highestFromMatches;
      }
    }
    if episodeCount == 0 && total.Some? && total.value > 0 {
      episodeCount := total.value;
    }
    if episodeCount == 0 {
      episodeCount := MaxOrZero(page.watchOrdinals + page.labelOrdinals);
    }

    episodes := [];
    for i := 1 to episodeCount + 1
      invariant |episodes| == i - 1
      invariant forall k :: 0 <= k < i - 1 ==> episodes[k] == Episode(WatchUrl(slug, k + 1), k + 1)
    {
      episodes := episodes + [Episode(WatchBase + slug + EpisodeInfix + DecimalText(i), i)];
    }
  }

  /** Tier one decides whenever it finds a positive ordinal, whatever the API
      total and the series page say, and it is at least every ordinal on the
      last listing page. */
  lemma LastPageTierFirst(scan: LastPageScan, total: Option<nat>, p: EpisodePage, total': Option<nat>, p': EpisodePage)
    requires MaxOrZero(scan.labelOrdinals + scan.linkOrdinals) > 0
    ensures EpisodeCount(Some(scan), total, p) == EpisodeCount(Some(scan), total', p')
    ensures forall i :: 0 <= i < |scan.labelOrdinals| ==> scan.labelOrdinals[i] <= EpisodeCount(Some(scan), total, p)
    ensures forall i :: 0 <= i < |scan.linkOrdinals| ==> scan.linkOrdinals[i] <= EpisodeCount(Some(scan), total, p)
  {
    var all := scan.labelOrdinals + scan.linkOrdinals;
    assert forall i :: 0 <= i < |scan.labelOrdinals| ==> scan.labelOrdinals[i] == all[i];
    assert forall i :: 0 <= i < |scan.linkOrdinals| ==> scan.linkOrdinals[i] == all[|scan.labelOrdinals| + i];
  }

  /** `meta.total` is consulted only when tier one found nothing, and then a
      positive total decides, whatever the series page says. */
  lemma TotalTierSecond(lastPage: Option<LastPageScan>, t: nat, p: EpisodePage, p': EpisodePage)
    requires lastPage.None? || MaxOrZero(lastPage.value.labelOrdinals + lastPage.value.linkOrdinals) == 0
    requires t > 0
    ensures EpisodeCount(lastPage, Some(t), p) == t == EpisodeCount(lastPage, Some(t), p')
  {
  }

  /** The series page is scanned only when both earlier tiers gave nothing;
      its count is then the highest ordinal found there, or 0. */
  lemma PageScanTierLast(lastPage: Option<LastPageScan>, total: Option<nat>, p: EpisodePage)
    requires lastPage.None? || MaxOrZero(lastPage.value.labelOrdinals + lastPage.value.linkOrdinals) == 0
    requires total.None? || total.value == 0
    ensures var n := EpisodeCount(lastPage, total, p);
            && (forall i :: 0 <= i < |p.watchOrdinals| ==> p.watchOrdinals[i] <= n)
            && (forall i :: 0 <= i < |p.labelOrdinals| ==> p.labelOrdinals[i] <= n)
            && (n == 0 || n in p.watchOrdinals || n in p.labelOrdinals)
  {
    var all := p.watchOrdinals + p.labelOrdinals;
    assert forall i :: 0 <= i < |p.watchOrdinals| ==> p.watchOrdinals[i] == all[i];
    assert forall i :: 0 <= i < |p.labelOrdinals| ==> p.labelOrdinals[i] == all[|p.watchOrdinals| + i];
  }

  /** The episode number can be read back from the end of its watch URL. */
  lemma WatchUrlNumber(slug: Text, i: nat)
    ensures var prefix := WatchBase + slug + EpisodeInfix;
            && StartsWith(WatchUrl(slug, i), prefix)
            && IsDigits(WatchUrl(slug, i)[|prefix|..])
            && DecimalValue(WatchUrl(slug, i)[|prefix|..]) == i
  {
    var prefix := WatchBase + slug + EpisodeInfix;
    assert WatchUrl(slug, i) == prefix + DecimalText(i);
    assert WatchUrl(slug, i)[|prefix|..] == DecimalText(i);
    DecimalRoundTrip(i);
  }

  /** Distinct episodes of a series link to distinct watch pages. */
  lemma WatchUrlsDistinct(slug: Text, i: nat, j: nat)
    requires i != j
    ensures WatchUrl(slug, i) != WatchUrl(slug, j)
  {
    WatchUrlNumber(slug, i);
    WatchUrlNumber(slug, j);
  }

  // ---------------------------------------------------------------------
  // Streams

  /** One record of the download API's `data` array, when it is an object. */
  datatype ApiEntry = ApiEntry(file: Option<Text>, qualityLabel: Option<Text>)

  /** The parsed download response: its `data` field when that is an array.
      An element is `None` when it is `null` (or `undefined`), on which
      reading `.file` throws. */
  datatype DownloadBody = DownloadBody(data: Option<seq<Option<ApiEntry>>>)

  /** A stream descriptor; `subtitles` is always null here. */
  datatype Stream = Stream(title: Text, streamUrl: Text, headers: map<Text, Text>, subtitles: Option<Text>)

  datatype StreamResult = StreamResult(streams: seq<Stream>)

  const RefererKey: Text := Lit("referer")

  /** An element that is an object with a truthy `file` and `label`. */
  predicate Playable(o: Option<ApiEntry>)
  {
    o.Some? && Usable(o.value.file) && Usable(o.value.qualityLabel)
  }

  function Descriptor(o: Option<ApiEntry>): Stream
  {
    var e := o.GetOr(ApiEntry(None, None));
    var file := e.file.GetOr([]);
    Stream([0x5B] + e.qualityLabel.GetOr([]) + [0x5D], file, map[RefererKey := file], None)
  }

  /** One descriptor per playable entry, in API order. */
  function Descriptors(entries: seq<Option<ApiEntry>>): seq<Stream>
  {
    Map(Descriptor, Filter(Playable, entries))
  }

  /** Whether some element of `data` is `null`. */
  predicate HasNull(entries: seq<Option<ApiEntry>>)
  {
    exists i :: 0 <= i < |entries| && entries[i].None?
  }

  /** The `for...of` loop of `extractStreamUrl`: the descriptors of the
      playable entries, or `None` when it reaches a `null` element and
      throws. */
  method CollectStreams(entries: seq<Option<ApiEntry>>) returns (streams: Option<seq<Stream>>)
    ensures streams.None? <==> HasNull(entries)
    ensures streams.Some? ==> streams.value == Descriptors(entries)
  {
    var pushed: seq<Stream> := [];
    for i := 0 to |entries|
      invariant forall j :: 0 <= j < i ==> entries[j].Some?
      invariant pushed == Descriptors(entries[..i])
    {
      if entries[i].None? {
        return None;
      }
      var stream := entries[i].value;
      MapFilterSnoc(Descriptor, Playable, entries, i);
      if Usable(stream.file) && Usable(stream.qualityLabel) {
        var title := [0x5B] + stream.qualityLabel.value + [0x5D];
        pushed := pushed + [Stream(title, stream.file.value, map[RefererKey := stream.file.value], None)];
      }
    }
    assert entries[..|entries|] == entries;
    return Some(pushed);
  }

  /** `extractStreamUrl`: the watch page yields the video slug, the download
      API the entries; a failed fetch, a missing slug, a missing `data`
      array or a `null` element give no streams, and so does an answer with
      no playable entry (the thrown "No stream URLs" error ends in the same
      empty result); otherwise the streams are the descriptors. */
  method ExtractStreamUrl(page: Result<Option<Text>>, download: Result<DownloadBody>) returns (r: StreamResult)
    ensures page.Failed? || !Usable(page.value) || download.Failed? || download.value.data.None? ==> r.streams == []
    ensures page.Ok? && Usable(page.value) && download.Ok? && download.value.data.Some? ==>
              r.streams == if HasNull(download.value.data.value) then [] else Descriptors(download.value.data.value)
  {
    if page.Failed? || !Usable(page.value) {
      return StreamResult([]);
    }
    if download.Failed? {
      return StreamResult([]);
    }
    var streams: seq<Stream> := [];
    if download.value.data.Some? {
      var collected := CollectStreams(download.value.data.value);
      if collected.None? {
        return StreamResult([]);
      }
      streams := collected.value;
    }
    if |streams| == 0 {
      return StreamResult([]);
    }
    r := StreamResult(streams);
  }

  /** Each playable entry, and only those, gives a descriptor titled
      `[label]` whose URL is the file, whose referer is that same URL, and
      which has no subtitles. */
  lemma DescriptorsOfEntries(entries: seq<Option<ApiEntry>>)
    ensures |Descriptors(entries)| == |Filter(Playable, entries)|
    ensures Descriptors(entries) == [] <==> forall i :: 0 <= i < |entries| ==> !Playable(entries[i])
    ensures forall k :: 0 <= k < |Descriptors(entries)| ==>
              var e, d := Filter(Playable, entries)[k].value, Descriptors(entries)[k];
              && d.title == [0x5B] + e.qualityLabel.value + [0x5D]
              && d.streamUrl == e.file.value && d.streamUrl != []
              && RefererKey in d.headers && d.headers[RefererKey] == d.streamUrl
              && d.subtitles.None?
  {
  }
}
