/** The animeblkom adapter (animeblkom.js): it is handed page HTML rather
    than fetching it, and each operation works on the captures its pattern
    scans pull out of that HTML. Its entity decoder is `DecodedWithNbsp`,
    whose table has the `&nbsp;` entry besides the five of OkAnime.js. */
module AnimeBlkom {
  import opened JsText
  import opened Catalog
  import opened EntityDecoder

  /** "غير متوفر" ("not available"), the adapter's sentinel. */
  const Unavailable: Text := Lit("غير متوفر")

  /** `x || "غير متوفر"` for a text `x`. */
  function OrUnavailable(t: Text): (r: Text)
    ensures r != []
    ensures t != [] ==> r == t
  {
    if t == [] then Unavailable else t
  }

  // ---------------------------------------------------------------------
  // Search

  /** The captures of one `card-anime` block: title, link and image, each
      absent when its pattern does not match. */
  datatype Card = Card(title: Option<Text>, href: Option<Text>, image: Option<Text>)

  /** What `searchResults` is given: something that is not a string, or a
      page whose cards have been scanned. */
  datatype SearchInput = NotAString | Html(cards: seq<Card>)

  datatype Item = Item(title: Text, image: Text, href: Text)

  /** `m?.[1]?.trim() ?? ''`. */
  function Captured(o: Option<Text>): Text
  {
    Trim(o.GetOr([]))
  }

  /** A card is listed when its trimmed title and trimmed link are both
      non-empty. */
  predicate Listed(c: Card)
  {
    Captured(c.title) != [] && Captured(c.href) != []
  }

  function ItemOf(c: Card): Item
  {
    Item(DecodedWithNbsp(Captured(c.title)), OrUnavailable(Captured(c.image)), Captured(c.href))
  }

  /** The items of the cards, pushed one card at a time. */
  function Items(cards: seq<Card>): seq<Item>
  {
    if cards == [] then []
    else Items(cards[..|cards| - 1]) + (if Listed(cards[|cards| - 1]) then [ItemOf(cards[|cards| - 1])] else [])
  }

  /** The `forEach` callback of `searchResults`: the item a card yields, if
      it is listed. */
  method VisitCard(card: Card) returns (item: Option<Item>)
    ensures item.Some? <==> Listed(card)
    ensures item.Some? ==> item.value == ItemOf(card)
  {
    var title := Captured(card.title);
    var href := Captured(card.href);
    var imageUrl := Captured(card.image);
    if title != [] && href != [] {
      var decoded := DecodeHtmlEntities(title, NamedEntitiesWithNbsp);
      return Some(Item(decoded, OrUnavailable(imageUrl), href));
    }
    return None;
  }

  /** `searchResults`: no items for anything but a string; otherwise one item
      per listed card, in page order. */
  method SearchResults(input: SearchInput) returns (items: seq<Item>)
    ensures input.NotAString? ==> items == []
    ensures input.Html? ==> items == Items(input.cards)
  {
    if input.NotAString? {
      return [];
    }
    var cards := input.cards;
    items := [];
    for index := 0 to |cards|
      invariant items == Items(cards[..index])
    {
      assert cards[..index + 1][..index] == cards[..index];
      var item := VisitCard(cards[index]);
      if item.Some? {
        items := items + [item.value];
      }
    }
    assert cards[..|cards|] == cards;
  }

  /** The loop's items are the listed cards, in page order, each turned
      into its item. */
  lemma {:induction false} ItemsOfListed(cards: seq<Card>)
    ensures Items(cards) == Map(ItemOf, Filter(Listed, cards))
    decreases |cards|
  {
    if cards != [] {
      var n := |cards| - 1;
      ItemsOfListed(cards[..n]);
      MapFilterSnoc(ItemOf, Listed, cards, n);
      assert cards[..n + 1] == cards;
    }
  }

  /** Every item comes from a listed card and is well formed: a non-empty
      decoded title, the trimmed link exactly as captured (not made
      absolute), and the trimmed image or, when that is empty, the
      sentinel; there are no items exactly when no card is listed. */
  lemma SearchItems(cards: seq<Card>)
    ensures var kept, items := Filter(Listed, cards), Items(cards);
            && |items| == |kept|
            && (items == [] <==> forall i :: 0 <= i < |cards| ==> !Listed(cards[i]))
            && forall k :: 0 <= k < |items| ==>
                 && items[k].title != [] && items[k].title == DecodedWithNbsp(Captured(kept[k].title))
                 && items[k].href != [] && items[k].href == Captured(kept[k].href)
                 && items[k].image != []
                 && (Captured(kept[k].image) != [] ==> items[k].image == Captured(kept[k].image))
                 && (Captured(kept[k].image) == [] ==> items[k].image == Unavailable)
  {
    ItemsOfListed(cards);
    var kept := Filter(Listed, cards);
    forall k | 0 <= k < |kept|
      ensures DecodedWithNbsp(Captured(kept[k].title)) != []
    {
      assert Listed(kept[k]);
    }
  }

  // ---------------------------------------------------------------------
  // Details

  /** The captures of a series page: the paragraphs of the story container
      (absent when there is no container), the release-date field, and the
      anchor texts of the genres block (none when the block is absent). */
  datatype DetailPage = DetailPage(storyParagraphs: Option<seq<Text>>, airdate: Option<Text>, genreAnchors: seq<Text>)

  const ParagraphBreak: Text := [0x0A, 0x0A]
  const GenreSeparator: Text := Lit(", ")

  predicate NonEmpty(t: Text)
  {
    t != []
  }

  /** The description: the trimmed, non-empty paragraphs joined by a blank
      line and then decoded; empty without a story container, and a single
      paragraph is just that paragraph trimmed and decoded. */
  function Description(paragraphs: Option<seq<Text>>): (r: Text)
    ensures paragraphs.None? ==> r == []
    ensures paragraphs.Some? && |paragraphs.value| == 1 ==> r == DecodedWithNbsp(Trim(paragraphs.value[0]))
  {
    if paragraphs.None? then []
    else DecodedWithNbsp(Join(Filter(NonEmpty, Map(Trim, paragraphs.value)), ParagraphBreak))
  }

  function Airdate(p: DetailPage): Text
  {
    Captured(p.airdate)
  }

  /** `extractDetails`: no record when the description, the release date and
      the genres are all empty; otherwise exactly one, with the sentinel in
      place of each empty field and the genres joined by ", ". */
  method ExtractDetails(p: DetailPage) returns (details: seq<Detail>)
    ensures details == [] <==> Description(p.storyParagraphs) == [] && Airdate(p) == [] && p.genreAnchors == []
    ensures details != [] ==>
              && |details| == 1
              && details[0].description == OrUnavailable(Description(p.storyParagraphs))
              && details[0].aliases == OrUnavailable(Join(Map(Trim, p.genreAnchors), GenreSeparator))
              && details[0].airdate == OrUnavailable(Airdate(p))
  {
    var description: Text := [];
    if p.storyParagraphs.Some? {
      var matches := Filter(NonEmpty, Map(Trim, p.storyParagraphs.value));
      description := DecodeHtmlEntities(Join(matches, ParagraphBreak), NamedEntitiesWithNbsp);
    }
    var airdate := if p.airdate.Some? then Trim(p.airdate.value) else [];

    var genres: seq<Text> := [];
    var anchors := p.genreAnchors;
    var i := 0;
    while i < |anchors|
      invariant 0 <= i <= |anchors|
      invariant genres == Map(Trim, anchors[..i])
    {
      assert anchors[..i + 1] == anchors[..i] + [anchors[i]];
      MapSnoc(Trim, anchors[..i], anchors[i]);
      genres := genres + [Trim(anchors[i])];
      i := i + 1;
    }
    assert anchors[..i] == anchors;

    details := [];
    if description != [] || airdate != [] || |genres| > 0 {
      var aliases := Join(genres, GenreSeparator);
      details := [Detail(if description != [] then description else Unavailable,
                         if aliases != [] then aliases else Unavailable,
                         if airdate != [] then airdate else Unavailable)];
    }
  }

  /** The description is empty exactly when there is no story container or
      every one of its paragraphs is white space. */
  lemma DescriptionEmpty(paragraphs: Option<seq<Text>>)
    ensures Description(paragraphs) == [] <==>
              paragraphs.None? || forall i :: 0 <= i < |paragraphs.value| ==> Trim(paragraphs.value[i]) == []
  {
    if paragraphs.Some? {
      var ps := paragraphs.value;
      var trimmed := Map(Trim, ps);
      var kept := Filter(NonEmpty, trimmed);
      var joined := Join(kept, ParagraphBreak);
      if kept != [] {
        assert NonEmpty(kept[0]);
      }
      assert (forall i :: 0 <= i < |ps| ==> Trim(ps[i]) == []) <==>
             (forall i :: 0 <= i < |trimmed| ==> !NonEmpty(trimmed[i]));
    }
  }

  // ---------------------------------------------------------------------
  // Episodes

  /** One matched episode anchor: its link and the digits after "الحلقة". */
  datatype EpisodeAnchor = EpisodeAnchor(href: Option<Text>, number: Option<Text>)

  /** An episode; its number is the anchor's own digit string. */
  datatype Episode = Episode(href: Text, number: Text)

  predicate Complete(a: EpisodeAnchor)
  {
    a.href.Some? && a.number.Some?
  }

  /** `extractEpisodes`: no episodes when no anchor matches; otherwise one
      per anchor with both captures, in document order, carrying that
      anchor's link and label number (not its position). */
  method ExtractEpisodes(anchors: Option<seq<EpisodeAnchor>>) returns (episodes: seq<Episode>)
    ensures anchors.None? ==> episodes == []
    ensures anchors.Some? ==>
              var kept := Filter(Complete, anchors.value);
              && |episodes| == |kept|
              && forall k :: 0 <= k < |kept| ==>
                   episodes[k].href == kept[k].href.value && episodes[k].number == kept[k].number.value
  {
    episodes := [];
    if anchors.Some? {
      var links := anchors.value;
      for i := 0 to |links|
        invariant |episodes| == |Filter(Complete, links[..i])|
        invariant forall k :: 0 <= k < |episodes| ==>
                    var a := Filter(Complete, links[..i])[k];
                    episodes[k].href == a.href.value && episodes[k].number == a.number.value
      {
        FilterSnoc(Complete, links, i);
        var link := links[i];
        if link.href.Some? && link.number.Some? {
          episodes := episodes + [Episode(link.href.value, link.number.value)];
        }
      }
      assert links[..|links|] == links;
    }
  }

  // ---------------------------------------------------------------------
  // Qualities

  /** One `{ src: '...', label: '...' }` object of the embed page's
      `sources` array. */
  datatype SourceEntry = SourceEntry(src: Text, qualityLabel: Text)

  /** The flattened list: each source contributes its label, then its URL. */
  function QualityList(sources: seq<SourceEntry>): seq<Text>
  {
    if sources == [] then []
    else QualityList(sources[..|sources| - 1]) + [sources[|sources| - 1].qualityLabel, sources[|sources| - 1].src]
  }

  /** `extractQualities`: no entries without a `sources` array; otherwise the
      pairs pushed one source at a time. */
  method ExtractQualities(sources: Option<seq<SourceEntry>>) returns (list: seq<Text>)
    ensures sources.None? ==> list == []
    ensures sources.Some? ==> list == QualityList(sources.value)
  {
    if sources.None? {
      return [];
    }
    var raw := sources.value;
    list := [];
    var i := 0;
    while i < |raw|
      invariant 0 <= i <= |raw|
      invariant list == QualityList(raw[..i])
    {
      assert raw[..i + 1][..i] == raw[..i];
      list := list + [raw[i].qualityLabel, raw[i].src];
      i := i + 1;
    }
    assert raw[..i] == raw;
  }

  /** The list has even length, two entries per source in order, the label
      at each even position and the URL right after it. */
  lemma {:induction false} QualityListShape(sources: seq<SourceEntry>)
    ensures |QualityList(sources)| == 2 * |sources|
    ensures forall i :: 0 <= i < |sources| ==>
              QualityList(sources)[2 * i] == sources[i].qualityLabel && QualityList(sources)[2 * i + 1] == sources[i].src
  {
    if sources != [] {
      var init := sources[..|sources| - 1];
      QualityListShape(init);
      assert forall i :: 0 <= i < |init| ==> sources[i] == init[i];
    }
  }

  /** Reading the flattened list back in pairs gives the sources again. */
  function Pairs(list: seq<Text>): seq<SourceEntry>
    requires |list| % 2 == 0
  {
    seq(|list| / 2, i requires 0 <= i < |list| / 2 => SourceEntry(list[2 * i + 1], list[2 * i]))
  }

  lemma QualityListRoundTrip(sources: seq<SourceEntry>)
    ensures |QualityList(sources)| % 2 == 0 && Pairs(QualityList(sources)) == sources
  {
    QualityListShape(sources);
  }

  // ---------------------------------------------------------------------
  // Next episode

  /** One later-episode anchor of the watch page: its number, and the
      `ep-title` and `ep-subtitle` texts. */
  datatype NextAnchor = NextAnchor(number: nat, duration: Text, subtitle: Text)

  /** What the loop records about the chosen anchor. */
  datatype NextHint = NextHint(number: nat, duration: Text, subtitle: Text)

  /** The first anchor, in document order, numbered above `current`, or -1. */
  function NextIndex(current: nat, anchors: seq<NextAnchor>): (k: int)
    ensures -1 <= k < |anchors|
    ensures k >= 0 ==> anchors[k].number > current
    ensures k >= 0 ==> forall j :: 0 <= j < k ==> anchors[j].number <= current
    ensures k == -1 <==> forall j :: 0 <= j < |anchors| ==> anchors[j].number <= current
  {
    NextFrom(current, anchors, 0)
  }

  function NextFrom(current: nat, anchors: seq<NextAnchor>, from: nat): (k: int)
    requires from <= |anchors|
    ensures k == -1 || from <= k < |anchors|
    ensures k >= 0 ==> anchors[k].number > current
    ensures k >= 0 ==> forall j :: from <= j < k ==> anchors[j].number <= current
    ensures k == -1 ==> forall j :: from <= j < |anchors| ==> anchors[j].number <= current
    decreases |anchors| - from
  {
    if from == |anchors| then -1
    else if anchors[from].number > current then from
    else NextFrom(current, anchors, from + 1)
  }

  /** The scan for the next episode: it stops at the first anchor numbered
      above the current episode, and finds nothing without a current
      episode. */
  method FindNextEpisode(current: Option<nat>, anchors: seq<NextAnchor>) returns (next: Option<NextHint>)
    ensures current.None? ==> next.None?
    ensures current.Some? ==> (next.None? <==> NextIndex(current.value, anchors) == -1)
    ensures next.Some? ==>
              var k := NextIndex(current.value, anchors);
              k >= 0 && next.value == NextHint(anchors[k].number, Trim(anchors[k].duration), Trim(anchors[k].subtitle))
  {
    next := None;
    if current.Some? {
      var currentEp := current.value;
      var i := 0;
      while i < |anchors|
        invariant 0 <= i <= |anchors|
        invariant forall j :: 0 <= j < i ==> anchors[j].number <= currentEp
        invariant next.None?
      {
        var m := anchors[i];
        if m.number > currentEp {
          next := Some(NextHint(m.number, Trim(m.duration), Trim(m.subtitle)));
          NextIndexIs(currentEp, anchors, i);
          break;
        }
        i := i + 1;
      }
    }
  }

  lemma NextIndexIs(current: nat, anchors: seq<NextAnchor>, i: nat)
    requires i < |anchors| && anchors[i].number > current
    requires forall j :: 0 <= j < i ==> anchors[j].number <= current
    ensures NextIndex(current, anchors) == i
  {
  }

  /** When the anchors are listed in increasing order the first greater
      number is also the smallest greater one. */
  lemma SortedPicksSmallest(current: nat, anchors: seq<NextAnchor>)
    requires forall i, j :: 0 <= i < j < |anchors| ==> anchors[i].number <= anchors[j].number
    requires NextIndex(current, anchors) >= 0
    ensures forall j :: 0 <= j < |anchors| && anchors[j].number > current ==>
              anchors[NextIndex(current, anchors)].number <= anchors[j].number
  {
  }

  /** Out of order, the choice is not the smallest greater number: after
      episode 2, anchors for 5 then 3 select 5. */
  lemma FirstNotSmallest(anchors: seq<NextAnchor>)
    requires anchors == [NextAnchor(5, [], []), NextAnchor(3, [], [])]
    ensures NextIndex(2, anchors) == 0 && anchors[1].number > 2 && anchors[1].number < anchors[0].number
  {
  }

  /** The embed URL with the next episode's hints appended; `encode` is
      `encodeURIComponent`, applied only to well-formed text. */
  function WithNextHints(embedUrl: Text, next: Option<NextHint>, encode: Text -> Text): (r: Text)
    requires next.Some? ==> WellFormed(next.value.duration) && WellFormed(next.value.subtitle)
    ensures next.None? ==> r == embedUrl
    ensures StartsWith(r, embedUrl)
  {
    if next.None? then embedUrl
    else embedUrl + Lit("&next-title=") + encode(next.value.duration)
         + Lit("&next-sub-title=") + encode(next.value.subtitle)
  }

  // ---------------------------------------------------------------------
  // Stream

  /** The captures of a watch page: the `data-source` attribute, the
      episode number in the `<title>`, and the later-episode anchors. */
  datatype WatchPage = WatchPage(dataSource: Option<Text>, currentEpisode: Option<nat>, nextAnchors: seq<NextAnchor>)

  datatype StreamResult = StreamResult(streams: seq<Text>)

  /** The embed URL: the `data-source` value with each `&amp;` turned back
      into `&`, or empty without one. */
  function EmbedUrl(p: WatchPage): (r: Text)
    ensures p.dataSource.Some? && p.dataSource.value != [] ==> r != []
  {
    if p.dataSource.Some? then ReplaceAll(p.dataSource.value, AmpRef, [Ampersand]) else []
  }

  /** Whether encoding the chosen anchor's hints throws. */
  predicate HintsThrow(next: Option<NextHint>)
  {
    next.Some? && !(WellFormed(next.value.duration) && WellFormed(next.value.subtitle))
  }

  /** Hint texts without surrogates never make `encodeURIComponent` throw. */
  lemma PlainHintsNeverThrow(next: Option<NextHint>)
    requires next.Some? ==> forall i :: 0 <= i < |next.value.duration| ==>
                              !IsHighSurrogate(next.value.duration[i]) && !IsLowSurrogate(next.value.duration[i])
    requires next.Some? ==> forall i :: 0 <= i < |next.value.subtitle| ==>
                              !IsHighSurrogate(next.value.subtitle[i]) && !IsLowSurrogate(next.value.subtitle[i])
    ensures !HintsThrow(next)
  {
    if next.Some? {
      NoSurrogatesWellFormed(next.value.duration);
      NoSurrogatesWellFormed(next.value.subtitle);
    }
  }

  /** `extractStreamUrl`: null without an embed URL, when the embed fetch
      fails, or when encoding the next-episode hints throws; otherwise the
      streams are exactly the qualities of the embed page. The hinted URL
      is built after the fetch and never used, so the hints never reach the
      result. */
  method ExtractStreamUrl(page: WatchPage, embed: Result<Option<seq<SourceEntry>>>, encode: Text -> Text)
    returns (r: Option<StreamResult>)
    ensures EmbedUrl(page) == [] || embed.Failed? ==> r.None?
    ensures EmbedUrl(page) != [] && embed.Ok? ==>
              var next := if page.currentEpisode.Some? && NextIndex(page.currentEpisode.value, page.nextAnchors) >= 0
                          then var a := page.nextAnchors[NextIndex(page.currentEpisode.value, page.nextAnchors)];
                               Some(NextHint(a.number, Trim(a.duration), Trim(a.subtitle)))
                          else None;
              r == if HintsThrow(next) then None
                   else Some(StreamResult(if embed.value.Some? then QualityList(embed.value.value) else []))
  {
    var embedUrl := EmbedUrl(page);
    if embedUrl == [] {
      return None;
    }
    if embed.Failed? {
      return None;
    }
    var qualities := ExtractQualities(embed.value);
    var next := FindNextEpisode(page.currentEpisode, page.nextAnchors);
    if HintsThrow(next) {
      return None;
    }
    embedUrl := WithNextHints(embedUrl, next, encode);
    r := Some(StreamResult(qualities));
  }
}
