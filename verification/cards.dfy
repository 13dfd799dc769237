/** `display_results` (app.py lines 62-112): one card per search result, with
    placeholder fallbacks for missing metadata, the rewritten excerpt, the
    full-text link and the reformatted filing date. Cards are emitted one by
    one, so an exception raised by a later result leaves the earlier cards on
    the page; the rendering records both. */
module Cards {
  import opened Base
  import opened Text
  import opened Calendar
  import opened Links

  const UnknownCase: string := "Unknown Case"
  const UnknownCourt: string := "Unknown Court"
  const UnknownAuthor: string := "Unknown Author"
  const NoSummary: string := "AI summary unavailable"
  const MaxCaseName: int := 200
  const Ellipsis: string := "..."
  const CourtListenerSource: string := "courtlistener"

  /** The optional keys of `entity.metadata`; `None` is an absent key. */
  datatype Metadata = Metadata(
    caseName: Option<string>,
    courtName: Option<string>,
    authorName: Option<string>,
    authorStr: Option<string>,
    aiSummary: Option<string>,
    dateFiled: Option<string>,
    absoluteUrl: Option<string>)

  /** `text` is the excerpt as sent; `anchors` is its parse as HTML, the only
      part of the parse the renderer touches. */
  datatype Entity = Entity(text: string, anchors: seq<Anchor>, metadata: Metadata)

  datatype SearchResult = SearchResult(source: string, entity: Entity)

  datatype FullText = Link(url: string) | Unavailable

  /** The matched excerpt: the rewritten parse for courtlistener results, a
      paragraph around the raw text for every other source. */
  datatype Excerpt = Markup(anchors: seq<Anchor>) | Paragraph(html: string)

  datatype Card = Card(
    index: int,
    caseName: string,
    court: string,
    author: string,
    summary: string,
    fullText: FullText,
    dateFiled: string,
    excerpt: Excerpt)

  /** The cards emitted, the exception that stopped the loop if any, and the
      value the local `href` holds at the end. */
  datatype Rendering = Rendering(cards: seq<Card>, crash: Option<Crash>, href: Option<string>)

  predicate IsCourtListener(r: SearchResult) {
    r.source == CourtListenerSource
  }

  predicate HasHref(anchors: seq<Anchor>) {
    exists i :: 0 <= i < |anchors| && anchors[i].href.Some?
  }

  /** Some `href` has been assigned: it was already bound, or one of the
      courtlistener excerpts in `results` has an anchor carrying one. */
  predicate HrefSeen(href: Option<string>, results: seq<SearchResult>) {
    href.Some? || exists j :: 0 <= j < |results| && IsCourtListener(results[j]) && HasHref(results[j].entity.anchors)
  }

  /** A metadata field, or its placeholder when the key is absent. */
  function OrElse(field: Option<string>, placeholder: string): (r: string)
    ensures field.Some? ==> r == field.value
    ensures field.None? ==> r == placeholder
  {
    match field
    case Some(v) => v
    case None => placeholder
  }

  /** The card title: the case name or its placeholder, cut to 200
      characters plus an ellipsis when longer. */
  function CaseName(m: Metadata): (r: string)
    ensures |r| <= MaxCaseName + |Ellipsis|
    ensures m.caseName.None? ==> r == UnknownCase
    ensures m.caseName.Some? && |m.caseName.value| <= MaxCaseName ==> r == m.caseName.value
    ensures m.caseName.Some? && |m.caseName.value| > MaxCaseName ==>
      |r| == MaxCaseName + |Ellipsis| && r == m.caseName.value[..MaxCaseName] + Ellipsis
  {
    var name := OrElse(m.caseName, UnknownCase);
    if |name| > MaxCaseName then name[..MaxCaseName] + Ellipsis else name
  }

  /** `author_name` wins over `author_str`; with neither, the placeholder. */
  function Author(m: Metadata): (r: string)
    ensures m.authorName.Some? ==> r == m.authorName.value
    ensures m.authorName.None? && m.authorStr.Some? ==> r == m.authorStr.value
    ensures m.authorName.None? && m.authorStr.None? ==> r == UnknownAuthor
  {
    match m.authorName
    case Some(a) => a
    case None => OrElse(m.authorStr, UnknownAuthor)
  }

  /** What a correctly rendered card says about its result: the reference
      description the loop is checked against. */
  predicate Shows(card: Card, index: int, r: SearchResult) {
    var m := r.entity.metadata;
    && card.index == index
    && card.caseName == CaseName(m)
    && card.court == OrElse(m.courtName, UnknownCourt)
    && card.author == Author(m)
    && card.summary == OrElse(m.aiSummary, NoSummary)
    && (IsCourtListener(r) ==>
          && m.absoluteUrl.Some?
          && card.fullText == Link(CourtListener + m.absoluteUrl.value)
          && card.excerpt == Markup(RewriteAll(r.entity.anchors)))
    && (!IsCourtListener(r) ==>
          && card.fullText == Unavailable
          && card.excerpt == Paragraph("<p>" + r.entity.text + "</p>"))
    && m.dateFiled.Some?
    && DisplayDate(m.dateFiled.value) == Some(card.dateFiled)
  }

  /** The rewrite loop raises on this result: it is a courtlistener excerpt
      whose first anchor has no `href` while `href` is still unbound. */
  predicate UnboundAt(href: Option<string>, r: SearchResult) {
    && IsCourtListener(r)
    && href.None?
    && |r.entity.anchors| > 0
    && r.entity.anchors[0].href.None?
  }

  /** One iteration of the loop in `display_results` for the result at
      1-based position `index`, entered with `href` holding `carried`. */
  function RenderOne(index: int, r: SearchResult, carried: Option<string>): (out: Result<(Card, Option<string>)>)
  {
    var m := r.entity.metadata;
    var caseName := CaseName(m);
    var court := OrElse(m.courtName, UnknownCourt);
    var author := Author(m);
    var summary := OrElse(m.aiSummary, NoSummary);
    var body: Result<(Excerpt, FullText, Option<string>)> :=
      if IsCourtListener(r) then
        match Process(carried, r.entity.anchors)
        case Err(e) => Err(e)
        case Ok(w) =>
          match m.absoluteUrl
          case None => Err(MissingKey("absolute_url"))
          case Some(url) => Ok((Markup(w.anchors), Link(CourtListener + url), w.href))
      else Ok((Paragraph("<p>" + r.entity.text + "</p>"), Unavailable, carried));
    match body
    case Err(e) => Err(e)
    case Ok((excerpt, fullText, href)) =>
      match m.dateFiled
      case None => Err(MissingKey("date_filed"))
      case Some(raw) =>
        match DisplayDate(raw)
        case None => Err(InvalidDate(raw))
        case Some(shown) => Ok((Card(index, caseName, court, author, summary, fullText, shown, excerpt), href))
  }

  /** Which exception, if any, one result raises, in the order the source
      meets them: the rewrite loop, then `absolute_url`, then `date_filed`,
      then `strptime`; and what `href` holds afterwards. */
  lemma RenderOneOutcome(index: int, r: SearchResult, carried: Option<string>)
    ensures RenderOne(index, r, carried) == Err(UnboundLocalHref) <==> UnboundAt(carried, r)
    ensures RenderOne(index, r, carried) == Err(MissingKey("absolute_url")) <==>
      !UnboundAt(carried, r) && IsCourtListener(r) && r.entity.metadata.absoluteUrl.None?
    ensures RenderOne(index, r, carried).Err? && RenderOne(index, r, carried).crash.MissingKey? && RenderOne(index, r, carried).crash.key == "date_filed" <==>
      && !UnboundAt(carried, r)
      && !(IsCourtListener(r) && r.entity.metadata.absoluteUrl.None?)
      && r.entity.metadata.dateFiled.None?
    ensures RenderOne(index, r, carried).Err? && RenderOne(index, r, carried).crash.InvalidDate? <==>
      && !UnboundAt(carried, r)
      && !(IsCourtListener(r) && r.entity.metadata.absoluteUrl.None?)
      && r.entity.metadata.dateFiled.Some?
      && ParseIso(r.entity.metadata.dateFiled.value).None?
    ensures RenderOne(index, r, carried).Err? && RenderOne(index, r, carried).crash.InvalidDate? ==>
      r.entity.metadata.dateFiled == Some(RenderOne(index, r, carried).crash.raw)
    ensures RenderOne(index, r, carried).Err? && RenderOne(index, r, carried).crash.MissingKey? ==>
      RenderOne(index, r, carried).crash.key in {"absolute_url", "date_filed"}
    ensures RenderOne(index, r, carried).Ok? <==>
      && !UnboundAt(carried, r)
      && !(IsCourtListener(r) && r.entity.metadata.absoluteUrl.None?)
      && r.entity.metadata.dateFiled.Some?
      && ParseIso(r.entity.metadata.dateFiled.value).Some?
  {
  }

  /** What `href` holds after one result that rendered: still unbound only if
      it was unbound and the result had no courtlistener `href`, and never a
      value starting with "/" when it entered without one. */
  lemma RenderOneHref(index: int, r: SearchResult, carried: Option<string>)
    requires RenderOne(index, r, carried).Ok?
    ensures Settled(carried) ==> Settled(RenderOne(index, r, carried).value.1)
    ensures RenderOne(index, r, carried).value.1.Some? <==> carried.Some? || (IsCourtListener(r) && HasHref(r.entity.anchors))
  {
  }

  /** A card that renders is the card its result calls for. */
  lemma RenderOneShows(index: int, r: SearchResult, carried: Option<string>)
    requires Settled(carried)
    requires RenderOne(index, r, carried).Ok?
    ensures Shows(RenderOne(index, r, carried).value.0, index, r)
  {
  }

  /** The body of the loop over results, as a value, so that the loop's
      bookkeeping can be reasoned about apart from what one iteration does. */
  type CardStep = (int, SearchResult, Option<string>) -> Result<(Card, Option<string>)>

  /** The loop from the result at 1-based position `first` onwards: each
      iteration emits one card or stops the loop with its exception. */
  function Render(step: CardStep, results: seq<SearchResult>, first: int, carried: Option<string>): (out: Rendering)
    decreases |results|
    ensures |out.cards| <= |results|
    ensures out.crash.None? <==> |out.cards| == |results|
  {
    if |results| == 0 then Rendering([], None, carried)
    else
      match step(first, results[0], carried)
      case Err(e) => Rendering([], Some(e), carried)
      case Ok((card, href)) =>
        var rest := Render(step, results[1..], first + 1, href);
        Rendering([card] + rest.cards, rest.crash, rest.href)
  }

  /** `display_results(response_json)` over the `results` list. */
  function DisplayResults(results: seq<SearchResult>): (out: Rendering)
    ensures |out.cards| <= |results|
    ensures out.crash.None? <==> |out.cards| == |results|
    ensures forall j :: 0 <= j < |out.cards| ==> Shows(out.cards[j], j + 1, results[j])
  {
    var out := Render(RenderOne, results, 1, None);
    assert forall j :: 0 <= j < |out.cards| ==> Shows(out.cards[j], j + 1, results[j]) by {
      forall j | 0 <= j < |out.cards|
        ensures Shows(out.cards[j], j + 1, results[j])
      {
        RenderShows(results, 1, None, j);
      }
    }
    out
  }

  /** Every card the loop emits is the card its result calls for, numbered
      by its 1-based position. */
  lemma RenderShows(results: seq<SearchResult>, first: int, carried: Option<string>, j: int)
    requires Settled(carried)
    requires 0 <= j < |results|
    ensures j < |Render(RenderOne, results, first, carried).cards| ==>
      Shows(Render(RenderOne, results, first, carried).cards[j], first + j, results[j])
  {
    var cards := Render(RenderOne, results, first, carried).cards;
    if j < |cards| {
      var pre := Render(RenderOne, results[..j], first, carried);
      var one := RenderOne(first + j, results[j], pre.href);
      assert pre.crash.None? && one.Ok? && cards[j] == one.value.0 by {
        CardAt(RenderOne, results, first, carried, j);
      }
      assert Settled(pre.href) by {
        RenderHref(results[..j], first, carried);
      }
      assert Shows(one.value.0, first + j, results[j]) by {
        RenderOneShows(first + j, results[j], pre.href);
      }
    }
  }

  /** The carried-`href` invariant over a whole rendering: when nothing was
      raised, `href` ends unbound exactly when no courtlistener excerpt had an
      `href`, and a bound value never starts with "/". */
  lemma {:induction false} RenderHref(results: seq<SearchResult>, first: int, carried: Option<string>)
    requires Render(RenderOne, results, first, carried).crash.None?
    ensures Settled(carried) ==> Settled(Render(RenderOne, results, first, carried).href)
    ensures Render(RenderOne, results, first, carried).href.Some? <==> HrefSeen(carried, results)
  {
    if |results| > 0 {
      var href := RenderOne(first, results[0], carried).value.1;
      RenderOneHref(first, results[0], carried);
      RenderHref(results[1..], first + 1, href);
      HrefSeenStep(carried, href, results);
    }
  }

  /** How the "some `href` seen" condition moves past one rendered result. */
  lemma HrefSeenStep(carried: Option<string>, href: Option<string>, results: seq<SearchResult>)
    requires |results| > 0
    requires href.Some? <==> carried.Some? || (IsCourtListener(results[0]) && HasHref(results[0].entity.anchors))
    ensures HrefSeen(carried, results) <==> HrefSeen(href, results[1..])
  {
    if HrefSeen(href, results[1..]) && href.None? {
      var j :| 0 <= j < |results[1..]| && IsCourtListener(results[1..][j])
        && HasHref(results[1..][j].entity.anchors);
      assert results[j + 1] == results[1..][j];
    }
    if HrefSeen(carried, results) && carried.None?
       && !(IsCourtListener(results[0]) && HasHref(results[0].entity.anchors)) {
      var j :| 0 <= j < |results| && IsCourtListener(results[j]) && HasHref(results[j].entity.anchors);
      assert results[1..][j - 1] == results[j];
    }
  }

  /** Rendering two lists one after the other, when the first raised nothing,
      is rendering their concatenation. */
  lemma {:induction false} RenderAppend(step: CardStep, a: seq<SearchResult>, b: seq<SearchResult>, first: int, carried: Option<string>)
    requires Render(step, a, first, carried).crash.None?
    ensures Render(step, a + b, first, carried).cards
         == Render(step, a, first, carried).cards
          + Render(step, b, first + |a|, Render(step, a, first, carried).href).cards
    ensures Render(step, a + b, first, carried).crash
         == Render(step, b, first + |a|, Render(step, a, first, carried).href).crash
  {
    if |a| == 0 {
      assert a + b == b;
    } else {
      var one := step(first, a[0], carried);
      assert one.Ok?;
      var card, href := one.value.0, one.value.1;
      var tail := Render(step, a[1..] + b, first + 1, href);
      assert Render(step, a + b, first, carried) == Rendering([card] + tail.cards, tail.crash, tail.href) by {
        assert (a + b)[0] == a[0];
        assert (a + b)[1..] == a[1..] + b;
      }
      RenderAppend(step, a[1..], b, first + 1, href);
      var front := Render(step, a[1..], first + 1, href);
      var back := Render(step, b, first + |a|, front.href);
      assert Render(step, a, first, carried) == Rendering([card] + front.cards, None, front.href);
      assert [card] + (front.cards + back.cards) == ([card] + front.cards) + back.cards;
    }
  }

  /** Rendering a list is rendering a prefix that raised nothing, then the
      rest from where the prefix left `href`. */
  lemma RenderSplit(step: CardStep, results: seq<SearchResult>, k: int, first: int, carried: Option<string>)
    requires 0 <= k <= |results|
    requires Render(step, results[..k], first, carried).crash.None?
    ensures Render(step, results, first, carried).cards
         == Render(step, results[..k], first, carried).cards
          + Render(step, results[k..], first + k, Render(step, results[..k], first, carried).href).cards
    ensures Render(step, results, first, carried).crash
         == Render(step, results[k..], first + k, Render(step, results[..k], first, carried).href).crash
  {
    assert results == results[..k] + results[k..];
    RenderAppend(step, results[..k], results[k..], first, carried);
  }

  /** The results before the first exception render without one, to the
      same cards. */
  lemma {:induction false} PrefixOfRender(step: CardStep, results: seq<SearchResult>, k: int, first: int, carried: Option<string>)
    requires 0 <= k <= |Render(step, results, first, carried).cards|
    ensures Render(step, results[..k], first, carried).crash.None?
    ensures Render(step, results[..k], first, carried).cards == Render(step, results, first, carried).cards[..k]
  {
    if k > 0 {
      var prefix := results[..k];
      assert prefix[0] == results[0];
      var href := step(first, results[0], carried).value.1;
      assert prefix[1..] == results[1..][..k - 1];
      PrefixOfRender(step, results[1..], k - 1, first + 1, href);
    }
  }

  /** The card at position `j` is what the loop body made of the `j`-th
      result, entered with the `href` the results before it left. */
  lemma CardAt(step: CardStep, results: seq<SearchResult>, first: int, carried: Option<string>, j: int)
    requires 0 <= j < |Render(step, results, first, carried).cards|
    ensures Render(step, results[..j], first, carried).crash.None?
    ensures step(first + j, results[j], Render(step, results[..j], first, carried).href).Ok?
    ensures Render(step, results, first, carried).cards[j]
         == step(first + j, results[j], Render(step, results[..j], first, carried).href).value.0
  {
    PrefixOfRender(step, results, j, first, carried);
    RenderSplit(step, results, j, first, carried);
    assert results[j..][0] == results[j];
  }

  /** The rewrite loop raises `UnboundLocalError` on the result at position
      `k` exactly when the results before it render without an exception,
      and that result is a courtlistener excerpt whose first anchor has no
      `href` while no earlier result supplied one. */
  lemma UnboundHrefExactly(results: seq<SearchResult>, k: int)
    requires 0 <= k < |results|
    ensures (DisplayResults(results).crash == Some(UnboundLocalHref) && |DisplayResults(results).cards| == k)
        <==> (&& Render(RenderOne, results[..k], 1, None).crash.None?
              && IsCourtListener(results[k])
              && |results[k].entity.anchors| > 0
              && results[k].entity.anchors[0].href.None?
              && !HrefSeen(None, results[..k]))
  {
    var pre := Render(RenderOne, results[..k], 1, None);
    if |DisplayResults(results).cards| >= k {
      PrefixOfRender(RenderOne, results, k, 1, None);
    }
    if pre.crash.None? {
      RenderSplit(RenderOne, results, k, 1, None);
      RenderHref(results[..k], 1, None);
      assert results[k..][0] == results[k];
      RenderOneOutcome(1 + k, results[k], pre.href);
    }
  }

  /** What is on the page when an exception stops the loop: the cards of the
      results before it, exactly as a list of those results alone renders,
      and the exception is the one the next result raises on its own. */
  lemma CardsBeforeCrash(results: seq<SearchResult>)
    requires DisplayResults(results).crash.Some?
    ensures |DisplayResults(results).cards| < |results|
    ensures Render(RenderOne, results[..|DisplayResults(results).cards|], 1, None)
         == Rendering(DisplayResults(results).cards, None, Render(RenderOne, results[..|DisplayResults(results).cards|], 1, None).href)
    ensures RenderOne(|DisplayResults(results).cards| + 1, results[|DisplayResults(results).cards|],
                      Render(RenderOne, results[..|DisplayResults(results).cards|], 1, None).href)
         == Err(DisplayResults(results).crash.value)
  {
    var k := |DisplayResults(results).cards|;
    PrefixOfRender(RenderOne, results, k, 1, None);
    RenderSplit(RenderOne, results, k, 1, None);
    assert results[k..][0] == results[k];
  }

  /** A result that draws wherever it stands in the list: a courtlistener
      excerpt has `absolute_url` and, if it has anchors, an `href` on the
      first; and the filing date is present and accepted by `strptime`. */
  predicate Drawable(r: SearchResult) {
    var m := r.entity.metadata;
    && (IsCourtListener(r) ==>
          && m.absoluteUrl.Some?
          && (|r.entity.anchors| > 0 ==> r.entity.anchors[0].href.Some?))
    && m.dateFiled.Some?
    && ParseIso(m.dateFiled.value).Some?
  }

  lemma {:induction false} DrawableRender(results: seq<SearchResult>, first: int, carried: Option<string>)
    requires forall k :: 0 <= k < |results| ==> Drawable(results[k])
    ensures Render(RenderOne, results, first, carried).crash.None?
    decreases |results|
  {
    if |results| > 0 {
      RenderOneOutcome(first, results[0], carried);
      var href := RenderOne(first, results[0], carried).value.1;
      DrawableRender(results[1..], first + 1, href);
    }
  }

  /** A list of drawable results is drawn in full, one card per result. */
  lemma AllDrawn(results: seq<SearchResult>)
    requires forall k :: 0 <= k < |results| ==> Drawable(results[k])
    ensures DisplayResults(results).crash.None?
    ensures |DisplayResults(results).cards| == |results|
  {
    DrawableRender(results, 1, None);
  }

  /** An empty successful response renders no cards and raises nothing. */
  lemma EmptyResults()
    ensures DisplayResults([]) == Rendering([], None, None)
  {
  }
}
