/**
 * The aggregation loop of the `GET /api/news` handler: walk the source
 * registry in order, keep at most three normalized entries of every feed
 * that was fetched and parsed, skip every source whose fetch or parse
 * failed, and answer with at most fifteen items.
 */
module Aggregator {
  import opened Wrappers
  import opened Normalizer

  const MaxPerSource: nat := 3
  const MaxItems: nat := 15

  /** The fixed registry of feeds, in the order the handler visits them. */
  const Sources: seq<SourceDescriptor> := [
    SourceDescriptor("UN", "https://news.un.org/feed/rss", "#009688"),
    SourceDescriptor("NATO", "https://www.nato.int/cps/en/natohq/news_151603.xml", "#3b82f6"),
    SourceDescriptor("EU", "https://www.eeas.europa.eu/rss-feed/press_en", "#ef4444"),
    SourceDescriptor("USA", "https://www.state.gov/rss-feed/press-releases-feed/", "#8b5cf6"),
    SourceDescriptor("UK", "https://www.gov.uk/government/organisations/foreign-commonwealth-development-office.atom", "#f59e0b")
  ]

  /** The registry's five descriptors, in the order the handler visits them. */
  lemma RegisteredSources()
    ensures |Sources| == 5
    ensures Sources[0] == SourceDescriptor("UN", "https://news.un.org/feed/rss", "#009688")
    ensures Sources[1] == SourceDescriptor("NATO", "https://www.nato.int/cps/en/natohq/news_151603.xml", "#3b82f6")
    ensures Sources[2] == SourceDescriptor("EU", "https://www.eeas.europa.eu/rss-feed/press_en", "#ef4444")
    ensures Sources[3] == SourceDescriptor("USA", "https://www.state.gov/rss-feed/press-releases-feed/", "#8b5cf6")
    ensures Sources[4] == SourceDescriptor("UK", "https://www.gov.uk/government/organisations/foreign-commonwealth-development-office.atom", "#f59e0b")
  {
  }

  /**
   * What `parser.parseURL(source.url)` gave for one source: the feed's
   * entries, or None when the fetch or the parse threw.
   */
  type FetchOutcome = Option<seq<RawEntry>>

  /** Full when the fetch succeeded with at least three entries. */
  predicate Full(outcome: FetchOutcome) {
    outcome.Some? && |outcome.value| >= MaxPerSource
  }

  /** `entries.map(item => ...)`: every entry normalized, in order. */
  function NormalizeAll(entries: seq<RawEntry>, src: SourceDescriptor, formatDate: string -> string): (items: seq<NewsItem>)
    ensures |items| == |entries|
    ensures forall it :: it in items ==> it.source == src.name && it.color == src.color
  {
    if entries == [] then []
    else [Normalize(entries[0], src, formatDate)] + NormalizeAll(entries[1..], src, formatDate)
  }

  /**
   * What one source adds to the result: `feed.items.slice(0, 3).map(...)`
   * on success, nothing when the empty `catch` swallowed a failure.
   */
  function SourceItems(src: SourceDescriptor, outcome: FetchOutcome, formatDate: string -> string): (items: seq<NewsItem>)
    ensures outcome.None? ==> items == []
    ensures outcome.Some? ==> |items| == Min(|outcome.value|, MaxPerSource)
    ensures |items| <= MaxPerSource
    ensures forall it :: it in items ==> it.source == src.name && it.color == src.color
  {
    match outcome
    case None => []
    case Some(entries) =>
      var firsts := entries[..Min(|entries|, MaxPerSource)];
      NormalizeAll(firsts, src, formatDate)
  }

  /** Item `i` of the map is the normalization of entry `i`. */
  lemma {:induction false} NormalizeAllAt(entries: seq<RawEntry>, src: SourceDescriptor, formatDate: string -> string, i: nat)
    requires i < |entries|
    ensures NormalizeAll(entries, src, formatDate)[i] == Normalize(entries[i], src, formatDate)
  {
    if i > 0 {
      NormalizeAllAt(entries[1..], src, formatDate, i - 1);
    }
  }

  /** Item `i` of a source's contribution is the normalization of the feed's entry `i`, for `i < 3`. */
  lemma SourceItemsAt(src: SourceDescriptor, entries: seq<RawEntry>, formatDate: string -> string, i: nat)
    requires i < |entries| && i < MaxPerSource
    ensures i < |SourceItems(src, Some(entries), formatDate)|
    ensures SourceItems(src, Some(entries), formatDate)[i] == Normalize(entries[i], src, formatDate)
  {
    NormalizeAllAt(entries[..Min(|entries|, MaxPerSource)], src, formatDate, i);
  }

  /** `allNews` once the loop has visited every source of `registry`. */
  function Collect(registry: seq<SourceDescriptor>, outcomes: seq<FetchOutcome>, formatDate: string -> string): (all: seq<NewsItem>)
    requires |outcomes| == |registry|
    ensures |all| <= MaxPerSource * |registry|
  {
    if registry == [] then []
    else SourceItems(registry[0], outcomes[0], formatDate) + Collect(registry[1..], outcomes[1..], formatDate)
  }

  /** The response body: `allNews.slice(0, 15)`. */
  function NewsResponse(registry: seq<SourceDescriptor>, outcomes: seq<FetchOutcome>, formatDate: string -> string): (body: seq<NewsItem>)
    requires |outcomes| == |registry|
    ensures |body| == Min(|Collect(registry, outcomes, formatDate)|, MaxItems)
    ensures body <= Collect(registry, outcomes, formatDate)
  {
    var all := Collect(registry, outcomes, formatDate);
    all[..Min(|all|, MaxItems)]
  }

  /**
   * The handler's loop: `allNews` grows by each successful source's items,
   * a failing source is skipped, and the first fifteen items are returned.
   */
  method HandleNews(registry: seq<SourceDescriptor>, outcomes: seq<FetchOutcome>, formatDate: string -> string)
    returns (body: seq<NewsItem>)
    requires |outcomes| == |registry|
    ensures body == NewsResponse(registry, outcomes, formatDate)
  {
    var allNews: seq<NewsItem> := [];
    var i := 0;
    while i < |registry|
      invariant 0 <= i <= |registry|
      invariant allNews == Collect(registry[..i], outcomes[..i], formatDate)
    {
      CollectStep(registry, outcomes, i, formatDate);
      match outcomes[i] {
        case None =>
        case Some(_) =>
          var items := SourceItems(registry[i], outcomes[i], formatDate);
          allNews := allNews + items;
      }
      i := i + 1;
    }
    assert registry[..i] == registry && outcomes[..i] == outcomes;
    body := allNews[..Min(|allNews|, MaxItems)];
  }

  // ---------------------------------------------------------------------------
  // Properties of the aggregation
  // ---------------------------------------------------------------------------

  /** Aggregating two registries one after the other concatenates their results. */
  lemma {:induction false} CollectAppend(r1: seq<SourceDescriptor>, o1: seq<FetchOutcome>,
                                         r2: seq<SourceDescriptor>, o2: seq<FetchOutcome>, formatDate: string -> string)
    requires |o1| == |r1| && |o2| == |r2|
    ensures Collect(r1 + r2, o1 + o2, formatDate) == Collect(r1, o1, formatDate) + Collect(r2, o2, formatDate)
  {
    if r1 == [] {
      assert r1 + r2 == r2 && o1 + o2 == o2;
    } else {
      AppendTail(r1, r2);
      AppendTail(o1, o2);
      CollectAppend(r1[1..], o1[1..], r2, o2, formatDate);
    }
  }

  /** One source's registry entry and outcome on their own. */
  lemma CollectSingle(src: SourceDescriptor, outcome: FetchOutcome, formatDate: string -> string)
    ensures Collect([src], [outcome], formatDate) == SourceItems(src, outcome, formatDate)
  {
  }

  /** One more turn of the loop appends the items of source `i`. */
  lemma CollectStep(registry: seq<SourceDescriptor>, outcomes: seq<FetchOutcome>, i: nat, formatDate: string -> string)
    requires |outcomes| == |registry| && i < |registry|
    ensures Collect(registry[..i + 1], outcomes[..i + 1], formatDate)
         == Collect(registry[..i], outcomes[..i], formatDate) + SourceItems(registry[i], outcomes[i], formatDate)
  {
    assert registry[..i + 1] == registry[..i] + [registry[i]];
    assert outcomes[..i + 1] == outcomes[..i] + [outcomes[i]];
    CollectAppend(registry[..i], outcomes[..i], [registry[i]], [outcomes[i]], formatDate);
    CollectSingle(registry[i], outcomes[i], formatDate);
  }

  /** Cutting the registry at `k` cuts the result between the two parts. */
  lemma CollectSplit(registry: seq<SourceDescriptor>, outcomes: seq<FetchOutcome>, k: nat, formatDate: string -> string)
    requires |outcomes| == |registry| && k <= |registry|
    ensures Collect(registry, outcomes, formatDate)
         == Collect(registry[..k], outcomes[..k], formatDate) + Collect(registry[k..], outcomes[k..], formatDate)
  {
    SplitAt(registry, k);
    SplitAt(outcomes, k);
    CollectAppend(registry[..k], outcomes[..k], registry[k..], outcomes[k..], formatDate);
  }

  /** The first source's items come first. */
  lemma CollectUnfold(registry: seq<SourceDescriptor>, outcomes: seq<FetchOutcome>, formatDate: string -> string)
    requires |outcomes| == |registry| && registry != []
    ensures Collect(registry, outcomes, formatDate)
         == SourceItems(registry[0], outcomes[0], formatDate) + Collect(registry[1..], outcomes[1..], formatDate)
  {
  }

  /** The suffix of the registry from `k` yields source `k`'s items, then those after it. */
  lemma CollectFrom(registry: seq<SourceDescriptor>, outcomes: seq<FetchOutcome>, k: nat, formatDate: string -> string)
    requires |outcomes| == |registry| && k < |registry|
    ensures Collect(registry[k..], outcomes[k..], formatDate)
         == SourceItems(registry[k], outcomes[k], formatDate) + Collect(registry[k + 1..], outcomes[k + 1..], formatDate)
  {
    DropOne(registry, k);
    DropOne(outcomes, k);
    CollectUnfold(registry[k..], outcomes[k..], formatDate);
  }

  /**
   * The result is grouped by source in registry order: what comes from the
   * sources before `k`, then source `k`'s own items, then the rest.
   */
  lemma CollectGrouped(registry: seq<SourceDescriptor>, outcomes: seq<FetchOutcome>, k: nat, formatDate: string -> string)
    requires |outcomes| == |registry| && k < |registry|
    ensures Collect(registry, outcomes, formatDate)
         == Collect(registry[..k], outcomes[..k], formatDate)
          + SourceItems(registry[k], outcomes[k], formatDate)
          + Collect(registry[k + 1..], outcomes[k + 1..], formatDate)
  {
    CollectSplit(registry, outcomes, k, formatDate);
    CollectFrom(registry, outcomes, k, formatDate);
  }

  /** A failed source leaves a gap of nothing between its neighbours' items. */
  lemma CollectAroundFailed(registry: seq<SourceDescriptor>, outcomes: seq<FetchOutcome>, k: nat, formatDate: string -> string)
    requires |outcomes| == |registry| && k < |registry| && outcomes[k].None?
    ensures Collect(registry, outcomes, formatDate)
         == Collect(registry[..k], outcomes[..k], formatDate) + Collect(registry[k + 1..], outcomes[k + 1..], formatDate)
  {
    CollectGrouped(registry, outcomes, k, formatDate);
  }

  /** A source whose fetch failed adds nothing: the result is that of the registry without it. */
  lemma FailedSourceIgnored(registry: seq<SourceDescriptor>, outcomes: seq<FetchOutcome>, k: nat, formatDate: string -> string)
    requires |outcomes| == |registry| && k < |registry| && outcomes[k].None?
    ensures Collect(registry, outcomes, formatDate)
         == Collect(registry[..k] + registry[k + 1..], outcomes[..k] + outcomes[k + 1..], formatDate)
  {
    CollectAroundFailed(registry, outcomes, k, formatDate);
    CollectAppend(registry[..k], outcomes[..k], registry[k + 1..], outcomes[k + 1..], formatDate);
  }

  /** The answer with a failed source is the answer for the registry without it. */
  lemma FailedSourceIgnoredInResponse(registry: seq<SourceDescriptor>, outcomes: seq<FetchOutcome>, k: nat, formatDate: string -> string)
    requires |outcomes| == |registry| && k < |registry| && outcomes[k].None?
    ensures NewsResponse(registry, outcomes, formatDate)
         == NewsResponse(registry[..k] + registry[k + 1..], outcomes[..k] + outcomes[k + 1..], formatDate)
  {
    FailedSourceIgnored(registry, outcomes, k, formatDate);
  }

  /** When every source fails the answer is the empty list, not an error. */
  lemma {:induction false} AllFailedIsEmpty(registry: seq<SourceDescriptor>, outcomes: seq<FetchOutcome>, formatDate: string -> string)
    requires |outcomes| == |registry|
    requires forall k :: 0 <= k < |outcomes| ==> outcomes[k].None?
    ensures Collect(registry, outcomes, formatDate) == []
    ensures NewsResponse(registry, outcomes, formatDate) == []
    decreases |registry|
  {
    if registry != [] {
      AllFailedIsEmpty(registry[1..], outcomes[1..], formatDate);
    }
  }

  /** When every source yields at least three entries, each contributes exactly three. */
  lemma {:induction false} AllFullCount(registry: seq<SourceDescriptor>, outcomes: seq<FetchOutcome>, formatDate: string -> string)
    requires |outcomes| == |registry|
    requires forall k :: 0 <= k < |outcomes| ==> Full(outcomes[k])
    ensures |Collect(registry, outcomes, formatDate)| == MaxPerSource * |registry|
    ensures |NewsResponse(registry, outcomes, formatDate)| == Min(MaxItems, MaxPerSource * |registry|)
    decreases |registry|
  {
    if registry != [] {
      AllFullCount(registry[1..], outcomes[1..], formatDate);
    }
  }

  /** Every item carries the name and color of a registry entry. */
  lemma {:induction false} ItemsFromRegistry(registry: seq<SourceDescriptor>, outcomes: seq<FetchOutcome>, formatDate: string -> string)
    requires |outcomes| == |registry|
    ensures forall it :: it in Collect(registry, outcomes, formatDate) ==>
      exists k :: 0 <= k < |registry| && registry[k].name == it.source && registry[k].color == it.color
    ensures forall it :: it in NewsResponse(registry, outcomes, formatDate) ==>
      exists k :: 0 <= k < |registry| && registry[k].name == it.source && registry[k].color == it.color
    decreases |registry|
  {
    if registry != [] {
      ItemsFromRegistry(registry[1..], outcomes[1..], formatDate);
      forall it | it in Collect(registry, outcomes, formatDate)
        ensures exists k :: 0 <= k < |registry| && registry[k].name == it.source && registry[k].color == it.color
      {
        if it in Collect(registry[1..], outcomes[1..], formatDate) {
          var k :| 0 <= k < |registry| - 1 && registry[1..][k].name == it.source && registry[1..][k].color == it.color;
          assert registry[k + 1] == registry[1..][k];
        } else {
          assert registry[0].name == it.source && registry[0].color == it.color;
        }
      }
    }
    var all := Collect(registry, outcomes, formatDate);
    assert forall it :: it in NewsResponse(registry, outcomes, formatDate) ==> it in all;
  }

  /**
   * With the five registered sources the fifteen-item cap never cuts
   * anything: three per source already bounds the result by fifteen.
   */
  lemma RegisteredSourcesFitCap(outcomes: seq<FetchOutcome>, formatDate: string -> string)
    requires |outcomes| == |Sources|
    ensures NewsResponse(Sources, outcomes, formatDate) == Collect(Sources, outcomes, formatDate)
  {
  }

  /** With the five registered sources all healthy the answer holds exactly fifteen items. */
  lemma RegisteredSourcesAllFull(outcomes: seq<FetchOutcome>, formatDate: string -> string)
    requires |outcomes| == |Sources|
    requires forall k :: 0 <= k < |outcomes| ==> Full(outcomes[k])
    ensures |NewsResponse(Sources, outcomes, formatDate)| == MaxItems
  {
    AllFullCount(Sources, outcomes, formatDate);
  }

  /** With a single source the answer is exactly that source's items. */
  lemma SingleSourceResponse(src: SourceDescriptor, outcome: FetchOutcome, formatDate: string -> string)
    ensures NewsResponse([src], [outcome], formatDate) == SourceItems(src, outcome, formatDate)
  {
  }

  /** Entry with only a title, as used in the example below. */
  function TitledEntry(t: string): RawEntry {
    RawEntry(Some(t), None, None, None)
  }

  /**
   * A one-source registry whose feed has five entries: the answer is the
   * first three, in feed order, each tagged with the source.
   */
  lemma SingleSourceExample(formatDate: string -> string)
    ensures var un := SourceDescriptor("UN", "https://news.un.org/feed/rss", "#009688");
      var feed := [TitledEntry("T1"), TitledEntry("T2"), TitledEntry("T3"), TitledEntry("T4"), TitledEntry("T5")];
      var body := NewsResponse([un], [Some(feed)], formatDate);
      |body| == 3
      && body[0].title == "T1" && body[1].title == "T2" && body[2].title == "T3"
      && (forall it :: it in body ==> it.source == "UN" && it.color == "#009688")
  {
    var un := SourceDescriptor("UN", "https://news.un.org/feed/rss", "#009688");
    var feed := [TitledEntry("T1"), TitledEntry("T2"), TitledEntry("T3"), TitledEntry("T4"), TitledEntry("T5")];
    SingleSourceResponse(un, Some(feed), formatDate);
    SourceItemsAt(un, feed, formatDate, 0);
    SourceItemsAt(un, feed, formatDate, 1);
    SourceItemsAt(un, feed, formatDate, 2);
  }
}
