/**
 * The per-entry normalizer of the `GET /api/news` handler: it turns one raw
 * feed entry and the descriptor of the source it came from into a `NewsItem`
 * of fixed shape, with a fallback for every missing field.
 */
module Normalizer {
  import opened Wrappers

  /** One entry as the feed parser yields it; any field may be missing. */
  datatype RawEntry = RawEntry(
    title: Option<string>,
    contentSnippet: Option<string>,
    link: Option<string>,
    pubDate: Option<string>)

  /** One entry of the source registry. */
  datatype SourceDescriptor = SourceDescriptor(name: string, url: string, color: string)

  /** The item the API returns. */
  datatype NewsItem = NewsItem(
    title: string,
    description: string,
    link: string,
    pubDate: string,
    source: string,
    color: string)

  const UntitledTitle: string := "Без наслов"
  const PlaceholderLink: string := "#"
  const TodayLabel: string := "Денес"
  const Ellipsis: string := "..."
  const DescriptionLength: nat := 120

  /** JavaScript truthiness of an optional string: missing and "" are both falsy. */
  predicate Truthy(v: Option<string>) {
    v.Some? && v.value != ""
  }

  /** `v || fallback` on an optional string. */
  function OrElse(v: Option<string>, fallback: string): string {
    if Truthy(v) then v.value else fallback
  }

  // ---------------------------------------------------------------------------
  // Tag stripping: `replace(/<[^>]*>?/gm, '')`
  // ---------------------------------------------------------------------------

  /**
   * What is left after the `[^>]*>?` part of one match: every character up to
   * the first `>` is consumed, then that `>` if there is one.
   */
  function SkipTag(t: string): (rest: string)
    ensures |rest| <= |t|
    ensures rest == t[|t| - |rest|..]
    ensures '>' !in t ==> rest == []
  {
    if t == [] then []
    else if t[0] == '>' then t[1..]
    else SkipTag(t[1..])
  }

  /**
   * The global replace, scanning left to right: every `<` starts a match,
   * which is dropped together with the tail `SkipTag` consumes; every other
   * character is kept.
   */
  function StripTags(s: string): (r: string)
    ensures '<' !in r
    ensures |r| <= |s|
    decreases |s|
  {
    if s == [] then []
    else if s[0] == '<' then StripTags(SkipTag(s[1..]))
    else [s[0]] + StripTags(s[1..])
  }

  /**
   * An independent reference for the stripper: a two-state scanner that is
   * either outside a tag (keeping characters) or inside one (dropping them
   * until a `>`).
   */
  function ScanTags(s: string, inTag: bool): string
  {
    if s == [] then []
    else if inTag then ScanTags(s[1..], s[0] != '>')
    else if s[0] == '<' then ScanTags(s[1..], true)
    else [s[0]] + ScanTags(s[1..], false)
  }

  lemma {:induction false} ScanInsideTag(t: string)
    ensures ScanTags(t, true) == ScanTags(SkipTag(t), false)
  {
    if t != [] && t[0] != '>' {
      ScanInsideTag(t[1..]);
    }
  }

  /** The regex-driven stripper and the two-state scanner agree on every input. */
  lemma {:induction false} StripTagsIsScanner(s: string)
    ensures StripTags(s) == ScanTags(s, false)
    decreases |s|
  {
    if s == [] {
    } else if s[0] == '<' {
      ScanInsideTag(s[1..]);
      StripTagsIsScanner(SkipTag(s[1..]));
    } else {
      StripTagsIsScanner(s[1..]);
    }
  }

  /** Text without `<` is left untouched; in particular a `>` that no `<` opened survives. */
  lemma {:induction false} StripTagsPlain(s: string)
    requires '<' !in s
    ensures StripTags(s) == s
  {
    if s != [] {
      assert s[0] in s;
      assert forall c :: c in s[1..] ==> c in s;
      StripTagsPlain(s[1..]);
    }
  }

  /** Stripping twice is the same as stripping once. */
  lemma StripTagsIdempotent(s: string)
    ensures StripTags(StripTags(s)) == StripTags(s)
  {
  }

  /** A prefix without `<` passes through unchanged, and the rest is stripped on its own. */
  lemma {:induction false} StripTagsPlainPrefix(p: string, x: string)
    requires '<' !in p
    ensures StripTags(p + x) == p + StripTags(x)
  {
    if p != [] {
      assert p[0] in p;
      assert forall c :: c in p[1..] ==> c in p;
      assert (p + x)[1..] == p[1..] + x;
      StripTagsPlainPrefix(p[1..], x);
    } else {
      assert p + x == x;
    }
  }

  /** A match that starts in `x` ends inside `x` if `x` holds a `>`, and otherwise runs on into `y`. */
  lemma {:induction false} SkipTagAppend(x: string, y: string)
    ensures SkipTag(x + y) == if '>' in x then SkipTag(x) + y else SkipTag(y)
  {
    if x == [] {
      assert x + y == y;
    } else {
      assert (x + y)[0] == x[0];
      assert (x + y)[1..] == x[1..] + y;
      if x[0] != '>' {
        assert forall c :: c in x[1..] ==> c in x;
        assert forall c :: c in x && c != x[0] ==> c in x[1..];
        SkipTagAppend(x[1..], y);
      }
    }
  }

  /** A closed tag `<...>` is removed with its brackets and nothing after it is affected. */
  lemma ClosedTagRemoved(t: string, q: string)
    requires '>' !in t
    ensures StripTags(['<'] + t + ['>'] + q) == StripTags(q)
  {
    var s := ['<'] + t + ['>'] + q;
    assert s[1..] == t + (['>'] + q);
    SkipTagAppend(t, ['>'] + q);
  }

  /** An unclosed `<` removes everything from it to the end of the string. */
  lemma {:induction false} UnclosedTagRemovesRest(p: string, t: string)
    requires '>' !in t
    ensures StripTags(p + ['<'] + t) == StripTags(p)
    decreases |p|
  {
    var s := p + ['<'] + t;
    if p == [] {
      assert s == ['<'] + t;
      AppendTail(['<'], t);
    } else {
      assert s == p + (['<'] + t);
      AppendTail(p, ['<'] + t);
      if p[0] == '<' {
        UnclosedInsideTag(p, t);
      } else {
        assert s[1..] == p[1..] + ['<'] + t;
        UnclosedTagRemovesRest(p[1..], t);
      }
    }
  }

  /** The case of `UnclosedTagRemovesRest` where `p` itself opens a tag. */
  lemma {:induction false} UnclosedInsideTag(p: string, t: string)
    requires '>' !in t && p != [] && p[0] == '<'
    ensures StripTags(p + ['<'] + t) == StripTags(p)
    decreases |p|, 0
  {
    var s := p + ['<'] + t;
    assert s == p + (['<'] + t);
    AppendTail(p, ['<'] + t);
    SkipTagAppend(p[1..], ['<'] + t);
    if '>' in p[1..] {
      var r := SkipTag(p[1..]);
      assert SkipTag(s[1..]) == r + (['<'] + t);
      assert r + (['<'] + t) == r + ['<'] + t;
      UnclosedTagRemovesRest(r, t);
    } else {
      SkipTagAppend(['<'], t);
      assert SkipTag(s[1..]) == SkipTag(p[1..]) == [];
    }
  }

  // ---------------------------------------------------------------------------
  // Description and the whole item
  // ---------------------------------------------------------------------------

  /** `substring(0, n)`: the first `n` characters, or the whole string when it is shorter. */
  function Substring(s: string, n: nat): (r: string)
    ensures |r| == Min(|s|, n)
    ensures r <= s
  {
    s[..Min(|s|, n)]
  }

  /** The snippet text the description is built from: `contentSnippet || ''`. */
  function SnippetText(snippet: Option<string>): string {
    OrElse(snippet, "")
  }

  /**
   * `(contentSnippet || '').replace(/<[^>]*>?/gm, '').substring(0, 120) + '...'`:
   * at most 120 characters of the stripped text, always followed by "...".
   */
  function Description(snippet: Option<string>): (d: string)
    ensures |d| == Min(|StripTags(SnippetText(snippet))|, DescriptionLength) + |Ellipsis|
    ensures |d| <= DescriptionLength + |Ellipsis|
    ensures d[|d| - |Ellipsis|..] == Ellipsis
    ensures d[..|d| - |Ellipsis|] <= StripTags(SnippetText(snippet))
    ensures '<' !in d
  {
    var cut := Substring(StripTags(SnippetText(snippet)), DescriptionLength);
    assert forall c :: c in cut ==> c in StripTags(SnippetText(snippet));
    var d := cut + Ellipsis;
    assert d[..|cut|] == cut && d[|cut|..] == Ellipsis;
    d
  }

  /** Text of at most 120 characters without `<` is kept whole, and "..." is still appended. */
  lemma ShortDescriptionKeepsText(text: string)
    requires text != [] && '<' !in text && |text| <= DescriptionLength
    ensures Description(Some(text)) == text + Ellipsis
  {
    StripTagsPlain(text);
  }

  /** An entry without a snippet still gets the description "...". */
  lemma EmptyDescription()
    ensures Description(None) == Ellipsis
    ensures Description(Some("")) == Ellipsis
  {
  }

  /**
   * The object literal built for each entry. `formatDate` stands for
   * `new Date(d).toLocaleDateString('mk-MK', ...)`, which depends on the
   * platform's locale data and is not modelled.
   */
  function Normalize(e: RawEntry, src: SourceDescriptor, formatDate: string -> string): (item: NewsItem)
    ensures Truthy(e.title) ==> item.title == e.title.value
    ensures !Truthy(e.title) ==> item.title == UntitledTitle
    ensures item.title != ""
    ensures item.description == Description(e.contentSnippet)
    ensures |item.description| <= DescriptionLength + |Ellipsis| && '<' !in item.description
    ensures Truthy(e.link) ==> item.link == e.link.value
    ensures !Truthy(e.link) ==> item.link == PlaceholderLink
    ensures item.link != ""
    ensures Truthy(e.pubDate) ==> item.pubDate == formatDate(e.pubDate.value)
    ensures !Truthy(e.pubDate) ==> item.pubDate == TodayLabel
    ensures item.source == src.name && item.color == src.color
  {
    NewsItem(
      OrElse(e.title, UntitledTitle),
      Description(e.contentSnippet),
      OrElse(e.link, PlaceholderLink),
      if Truthy(e.pubDate) then formatDate(e.pubDate.value) else TodayLabel,
      src.name,
      src.color)
  }
}
