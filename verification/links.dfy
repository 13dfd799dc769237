/** The `href` rewrite applied to courtlistener excerpts (app.py lines 88-93).
    The parsed excerpt is abstracted to its sequence of anchors, each with an
    optional `href` attribute; the loop variable `href` is function-local, so
    it survives from one anchor to the next and from one result to the next
    within one call of `display_results`. */
module Links {
  import opened Base
  import opened Text

  const CourtListener: string := "https://www.courtlistener.com"

  /** An `<a>` element of the excerpt, reduced to its `href` attribute. */
  datatype Anchor = Anchor(href: Option<string>)

  /** The anchors after a successful pass, and the value `href` is left holding
      (`None` while it is still unbound). */
  datatype Rewritten = Rewritten(anchors: seq<Anchor>, href: Option<string>)

  /** The carried-`href` invariant: the variable is unbound or holds a value
      that does not start with "/". */
  predicate Settled(href: Option<string>) {
    href.None? || !StartsWith(href.value, "/")
  }

  /** Anything prefixed with the host starts with its "h", not "/". */
  lemma HostPrefixedNotRelative(path: string)
    ensures !StartsWith(CourtListener + path, "/")
  {
    assert (CourtListener + path)[0] == 'h';
  }

  /** A site-relative link made absolute against the courtlistener host. */
  function Absolutize(href: string): (r: string)
    ensures !StartsWith(r, "/")
    ensures StartsWith(href, "/") ==> r == CourtListener + href
    ensures !StartsWith(href, "/") ==> r == href
  {
    if StartsWith(href, "/") then
      HostPrefixedNotRelative(href);
      CourtListener + href
    else href
  }

  /** The per-anchor reading of the rewrite rule, independent of the loop
      variable: relative links gain the host, everything else stays. */
  function RewriteAnchor(a: Anchor): (r: Anchor)
    ensures a.href.None? ==> r == a
    ensures a.href.Some? && StartsWith(a.href.value, "/") ==> r.href == Some(CourtListener + a.href.value)
    ensures a.href.Some? && !StartsWith(a.href.value, "/") ==> r == a
  {
    match a.href
    case None => a
    case Some(h) => Anchor(Some(Absolutize(h)))
  }

  function RewriteAll(anchors: seq<Anchor>): (r: seq<Anchor>)
    ensures |r| == |anchors|
    ensures forall i :: 0 <= i < |r| ==> r[i] == RewriteAnchor(anchors[i])
  {
    seq(|anchors|, i requires 0 <= i < |anchors| => RewriteAnchor(anchors[i]))
  }

  /** One iteration of the loop, exactly as written: take the anchor's `href`
      if it has one, otherwise keep the carried value (raising
      `UnboundLocalError` when there is none), then prefix and write back a
      value that starts with "/". */
  function Step(carried: Option<string>, a: Anchor): (r: Result<(Option<string>, Anchor)>)
    ensures r.Err? <==> carried.None? && a.href.None?
    ensures r.Err? ==> r.crash == UnboundLocalHref
    ensures r.Ok? ==> Settled(r.value.0) && r.value.0.Some?
    ensures r.Ok? && Settled(carried) ==> r.value.1 == RewriteAnchor(a)
  {
    var href := if a.href.Some? then a.href else carried;
    match href
    case None => Err(UnboundLocalHref)
    case Some(h) =>
      if StartsWith(h, "/") then
        var absolute := CourtListener + h;
        HostPrefixedNotRelative(h);
        Ok((Some(absolute), Anchor(Some(absolute))))
      else Ok((href, a))
  }

  /** The whole loop over one excerpt's anchors, starting from the value
      `href` holds when the loop is entered. */
  function Process(carried: Option<string>, anchors: seq<Anchor>): (r: Result<Rewritten>)
    decreases |anchors|
    ensures r.Err? ==> r.crash == UnboundLocalHref
    ensures r.Ok? <==> carried.Some? || |anchors| == 0 || anchors[0].href.Some?
    ensures r.Ok? ==> |r.value.anchors| == |anchors|
    ensures r.Ok? && Settled(carried) ==> r.value.anchors == RewriteAll(anchors)
    ensures r.Ok? && Settled(carried) ==> Settled(r.value.href)
    ensures r.Ok? ==> (r.value.href.Some? <==> carried.Some? || |anchors| > 0)
  {
    if |anchors| == 0 then Ok(Rewritten([], carried))
    else
      match Step(carried, anchors[0])
      case Err(e) => Err(e)
      case Ok((href, a)) =>
        match Process(href, anchors[1..])
        case Err(e) => Err(e)
        case Ok(rest) => Ok(Rewritten([a] + rest.anchors, rest.href))
  }

  /** Once `href` holds a value, an anchor without one is never modified: the
      carried value never starts with "/", so the write-back never fires. */
  lemma HreflessAnchorUntouched(carried: Option<string>, anchors: seq<Anchor>, i: int)
    requires Settled(carried)
    requires Process(carried, anchors).Ok?
    requires 0 <= i < |anchors| && anchors[i].href.None?
    ensures Process(carried, anchors).value.anchors[i] == anchors[i]
  {
  }

  /** Making a link absolute twice is the same as doing it once. */
  lemma AbsolutizeIdempotent(href: string)
    ensures Absolutize(Absolutize(href)) == Absolutize(href)
  {
  }

  /** Rewriting an already rewritten excerpt succeeds and changes nothing. */
  lemma {:induction false} ProcessIdempotent(carried: Option<string>, anchors: seq<Anchor>)
    requires Settled(carried)
    requires Process(carried, anchors).Ok?
    ensures Process(carried, Process(carried, anchors).value.anchors).Ok?
    ensures Process(carried, Process(carried, anchors).value.anchors).value.anchors
         == Process(carried, anchors).value.anchors
  {
    var once := Process(carried, anchors).value.anchors;
    forall i | 0 <= i < |once|
      ensures RewriteAnchor(once[i]) == once[i]
    {
      match anchors[i].href
      case None =>
      case Some(h) => AbsolutizeIdempotent(h);
    }
    assert RewriteAll(once) == once;
  }

  /** The crash example: an excerpt whose first anchor has no `href`, met
      before any `href` was seen, raises `UnboundLocalError`. */
  lemma NamedAnchorFirstCrashes(rest: seq<Anchor>)
    ensures Process(None, [Anchor(None)] + rest) == Err(UnboundLocalHref)
  {
  }

  /** A single relative link, such as "/opinion/123", becomes the absolute
      courtlistener URL, and `href` is left holding that URL. */
  lemma RelativeLinkExample(path: string)
    requires StartsWith(path, "/")
    ensures Process(None, [Anchor(Some(path))])
         == Ok(Rewritten([Anchor(Some(CourtListener + path))], Some(CourtListener + path)))
  {
    var absolute := CourtListener + path;
    var anchors := [Anchor(Some(path))];
    assert Step(None, anchors[0]) == Ok((Some(absolute), Anchor(Some(absolute))));
    assert anchors[1..] == [];
    assert [Anchor(Some(absolute))] + [] == [Anchor(Some(absolute))];
  }
}
