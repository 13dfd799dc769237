# Opinion search client: a Dafny model

`app.py` is a small Streamlit front end to a court-opinion search service. The
user fills in a form with a query, a jurisdiction, two optional dates and a
result count. The script sends these as query parameters to the search
endpoint and stores a successful response in the session. It then draws one
card per result: case name, court, author, AI summary, a full-text link,
the filing date in long form, and the matched excerpt. Relative links inside
courtlistener excerpts are made absolute.

This project models that behaviour as pure functions over immutable data:

- `base.dfy` (`Base`): `Option`, `Result`, and the exceptions the script can
  raise: `UnboundLocalError` on `href`, `KeyError` on a metadata key, and
  `ValueError` from `strptime`.
- `text.dfy` (`Text`): ASCII `str.lower`, decimal numerals, and `str(k)`.
- `calendar.dfy` (`Calendar`): Gregorian dates, `strftime("%Y-%m-%d")`,
  `strptime(_, "%Y-%m-%d")` and `strftime("%B %d, %Y")`.
- `query.dfy` (`Query`): the `params` dict of `search`, and how `requests`
  drops `None` values from it.
- `links.dfy` (`Links`): the anchor-rewriting loop (lines 88-93). The loop
  variable `href` is modelled as it really behaves: it is function-local, so
  it carries over from one anchor to the next and from one result to the next.
- `cards.dfy` (`Cards`): `display_results`. Cards are drawn one at a time, so
  an exception on result `k` leaves cards `1..k-1` on the page. The model
  records the drawn cards, the exception (if any), and the final value of
  `href`.
- `session.dfy` (`Session`): `st.session_state` and one run of the script.
  A run covers the `on_click` handler, the initial flag setup, drawing the
  stored response, the error banner, and the effect of a submission's outcome.

### Behaviour of the code that one might not expect

The model follows the code in each of these cases:

- **Anchor without `href`.** One might expect such an anchor to be skipped.
  The code instead reads `href` on line 91 even when line 89 did not assign
  it. If no earlier anchor in the same call set it, line 91 raises
  `UnboundLocalError` and the remaining cards are not drawn
  (`Cards.UnboundHrefExactly`). An anchor without `href` that comes after one
  with `href` is left untouched: the carried value never starts with "/", so
  lines 92-93 do not fire.
- **Failed submission.** One might expect a failure to replace the results
  with the error banner. The code instead leaves `response_json` as it was
  (lines 135-141), so lines 123-127 draw the old cards again with the banner
  below them (`Session.FailureKeepsOldCards`).
- **Missing keys and bad dates.** One might expect missing metadata to fall
  back to a placeholder, as lines 66-85 do for four fields. The code instead
  indexes `absolute_url` (line 95, courtlistener results only) and
  `date_filed` (line 100) directly, and `strptime` rejects malformed dates.
  Each of these raises and stops the loop (`Cards.RenderOneOutcome`,
  `Cards.CardsBeforeCrash`).
- **Result counts.** The result-count choices on line 120 are exactly 4 and 8.

One consequence of the code as written: suppose the stored response raises
while it is drawn. A click first runs `disable()`. The run then aborts at
line 124, before line 143 re-enables the button, so the form stays disabled
for the rest of the session (`Session.CrashingStoredResponseLocksForm`).

## Model

| member | source | states |
|---|---|---|
| Text.Lower | app.py:51 | the result keeps the length; each capital ASCII letter becomes its small letter and every other character is kept |
| Text.NatToString | app.py:54 | the `k` value is sent as a non-empty all-digit numeral, with no leading zero, whose value is the chosen count |
| Query.DropNone | app.py:48-57 | a key is sent exactly when the dict has it with a non-`None` value, and it is sent with that value |
| Query.SearchParams | app.py:47-55 | `query` and `api_key` are always sent; `jurisdiction` is sent exactly when it is not "All", lower-cased; each date is sent exactly when picked; `k` is the digits of the count; no other key is sent |
| Query.DateParamsRoundTrip | app.py:52-53 | a date sent as a parameter parses back to the picked date |
| Query.LowerInjective | app.py:51 | two different capital-letter codes are never sent as the same parameter |
| Query.StateCodeParam | app.py:15-51 | a two-letter state code is sent as two small letters |
| Query.CountParam | app.py:54-120 | the two selectable counts are sent as "4" and "8" |
| Query.JurisdictionExamples | app.py:51 | "CA" is sent as "ca"; "All" sends no jurisdiction |
| Calendar.DaysInMonth | app.py:100 | February has 29 days in leap years and 28 otherwise; April, June, September and November have 30; every other month has 31 |
| Calendar.ParseFormatIso | app.py:52-53 | `strptime` accepts every `%Y-%m-%d` string `strftime` produces and returns the same date |
| Calendar.FormatParseIso | app.py:100 | every string `strptime` accepts is the canonical `%Y-%m-%d` form of the date it returns |
| Calendar.ParseFormatLong | app.py:101 | the `%B %d, %Y` form can be read back to the date it came from |
| Calendar.FormatLongInjective | app.py:101 | two different dates never display alike |
| Calendar.DisplayDateMeaning | app.py:100-101 | a card shows a date exactly when `strptime` accepts the stored one, and the shown text denotes that same date |
| Calendar.DisplayEchoedDate | app.py:100-101 | a date in `%Y-%m-%d` form is displayed as the long form of the same date |
| Calendar.DisplayDateExample | app.py:100-101 | "2023-05-10" is displayed as "May 10, 2023" |
| Calendar.LeapDayExample | app.py:100-101 | "2024-02-29" is displayed as "February 29, 2024" |
| Calendar.NonLeapDayRejected | app.py:100 | `strptime` rejects February 29th of a common year |
| Calendar.MonthThirteenRejected | app.py:100 | `strptime` rejects a thirteenth month |
| Links.Absolutize | app.py:91-92 | a link starting with "/" is prefixed with the courtlistener host, and any other link is returned unchanged; the result never starts with "/" |
| Links.RewriteAnchor | app.py:89-93 | a relative `href` gains the host, and every other anchor stays as it is |
| Links.Step | app.py:89-93 | one iteration raises `UnboundLocalError` exactly when neither the anchor nor the carried variable has an `href`; otherwise `href` ends bound and not starting with "/", and once the carried value is in that state the anchor is rewritten by the per-anchor rule |
| Links.Process | app.py:88-93 | the loop raises only `UnboundLocalError`, and does so exactly when `href` is unbound and the first anchor lacks one; otherwise it keeps the anchor count, equals the per-anchor rewrite, keeps `href` from starting with "/", and leaves it bound when there was any anchor |
| Links.HreflessAnchorUntouched | app.py:89-93 | once `href` is bound, an anchor without `href` is not modified |
| Links.AbsolutizeIdempotent | app.py:91-92 | making a link absolute twice is the same as doing it once |
| Links.ProcessIdempotent | app.py:88-93 | rewriting an already rewritten excerpt succeeds and changes nothing |
| Links.NamedAnchorFirstCrashes | app.py:88-91 | an excerpt whose first anchor has no `href`, met while `href` is unbound, raises `UnboundLocalError` |
| Links.RelativeLinkExample | app.py:88-93 | a single relative link becomes the absolute courtlistener URL, and `href` holds that URL afterwards |
| Cards.OrElse | app.py:72-85 | a present metadata field is shown as is; a missing one is shown as its placeholder |
| Cards.CaseName | app.py:66-71 | the title is the case name or "Unknown Case"; names up to 200 characters are kept, longer ones become their first 200 characters plus "..."; never more than 203 characters |
| Cards.Author | app.py:76-81 | `author_name` wins over `author_str`; with neither, "Unknown Author" |
| Cards.RenderOneOutcome | app.py:86-101 | which exception one result raises, each as an if-and-only-if, in the order the code meets them: the unbound `href`, then `absolute_url` (courtlistener only), then `date_filed`, then a date `strptime` rejects; no other key is reported missing; and the result draws exactly when none of these applies |
| Cards.RenderOneHref | app.py:88-93 | after one drawn result, `href` is bound exactly when it was already bound or the result is a courtlistener excerpt with an `href`, and it never starts with "/" |
| Cards.RenderOneShows | app.py:65-101 | a drawn card has the right number, title, court, author, summary, full-text link, excerpt and long-form date for its result |
| Cards.DisplayResults | app.py:62-112 | cards are drawn for a prefix of the results; the prefix is the whole list exactly when nothing was raised; the `j`-th card is the reference card of the `j`-th result, numbered from 1 |
| Cards.RenderShows | app.py:65-101 | every card the loop emits matches its result and its 1-based position |
| Cards.RenderHref | app.py:88-93 | over a whole list that raised nothing, `href` ends bound exactly when some courtlistener excerpt had an anchor with `href`, and it never starts with "/" |
| Cards.UnboundHrefExactly | app.py:88-93 | drawing stops with `UnboundLocalError` at result `k` exactly when the earlier results draw without an exception, none of them supplied an `href`, and result `k` is a courtlistener excerpt whose first anchor has no `href` |
| Cards.CardsBeforeCrash | app.py:65-112 | when an exception stops the loop, the cards already on the page are exactly those of the results before it, drawn without error, and the exception is the one the next result raises given the `href` those results left |
| Cards.AllDrawn | app.py:65-112 | a list whose results each have their filing date in a form `strptime` accepts, and, for courtlistener ones, an `absolute_url` and an `href` on the first anchor, is drawn in full, one card per result |
| Cards.EmptyResults | app.py:62-65 | an empty result list draws nothing and raises nothing |
| Session.Init | app.py:42-45 | a missing `disabled` or `error` flag starts false; a present one is kept; the stored response is untouched |
| Session.InitKeepsStoredState | app.py:42-45 | the flag setup changes nothing on later runs |
| Session.FreshSession | app.py:42-45 | a new session starts enabled, without the banner, and with no stored response |
| Session.Disable | app.py:39-40 | the click handler disables the button and changes nothing else |
| Session.Complete | app.py:129-143 | after any outcome the button is enabled; the banner flag is set exactly when the request failed, got a non-200 status, or got a message other than "Success"; only a success replaces the stored response |
| Session.View | app.py:123-127 | the stored response, if any, is drawn; the banner appears exactly when the flag is set and drawing raised nothing |
| Session.Step | app.py:121-144 | with no click, or with the button disabled, nothing changes; a click disables, draws, and then applies the outcome, unless drawing raised, in which case the button stays disabled |
| Session.DisabledStaysDisabled | app.py:121 | a disabled session is unchanged by any sequence of runs |
| Session.CrashingStoredResponseLocksForm | app.py:121-144 | if the stored response raises when drawn, the first click leaves the form disabled for good |
| Session.FailureKeepsOldCards | app.py:123-141 | after a failed submission, the old cards are drawn unchanged and the banner appears below them |
| Session.SuccessShowsNewResults | app.py:123-139 | after a successful submission, the new response's cards are drawn, the banner is gone and the button is enabled |
| Session.EmptySuccess | app.py:123-139 | a successful response with no results draws no cards and no banner |

## Left out

- Streamlit layout is not modelled: the title, the notices, the background image (lines 22-37) and the widgets themselves. The form's values become a `SearchForm` value.
- Reading `OPB_TEST_API_KEY` from the environment is not modelled; the key is a parameter.
- The HTTP request is not modelled, nor is swallowing its exceptions (lines 56-60). The request is abstracted as an `Outcome`: no response, or a status and a decoded body.
- `response.json()` raising on a malformed body is not modelled, nor is a body without a `message` or `results` key.
- Non-string metadata values are not modelled.
- BeautifulSoup parsing and `prettify` are not modelled. A courtlistener excerpt is abstracted to its sequence of anchors and their `href` attributes.
- The HTML assembly of the card (lines 102-112) is not modelled; a card is a record of its fields. HTML escaping is absent in the source and is not modelled either.
- The match score (line 104) is a floating-point computation on `distance` and is not modelled.
- Results are assumed to carry every key the loop reads directly apart from `absolute_url` and `date_filed`: `entity` and `metadata` (line 66), `source` (line 86), `entity.text` (lines 87 and 98), and a numeric `distance` (line 104). Without them the code raises `KeyError` or `TypeError` and stops the loop. For `distance` this happens after the date is formatted, so that result's card is not drawn. The model's `SearchResult` always has these fields, and the model does not represent those exceptions.
- The ordering of query parameters in the URL is not modelled; parameters are a map.
- The date pickers' bounds (1700-01-01 to today) are not modelled; a picked date is any date of years 1 to 9999.
- Calendar.ParseIso: only the canonical form of four, two and two ASCII digits is accepted. `strptime` also accepts one-digit months and days, a space-padded day such as " 1", and other Unicode digits. The round-trip lemmas (`Calendar.FormatParseIso`, `Calendar.DisplayDateMeaning`) therefore speak about this canonical form only.
- Calendar.FormatIso: `%Y` is written as four zero-padded digits, in `Calendar.FormatIso` and in `Calendar.FormatLong` alike. For years below 1000, platforms disagree on this. The form never offers such years for the request dates. A `date_filed` from the server is not bounded, so a filing date before the year 1000 may be displayed differently from the model.
- Text.Lower: only ASCII capitals are lower-cased. The jurisdiction codes are ASCII.
- Query.StateCodeParam: stated for any code of two capital letters, not proved separately for each entry of the jurisdiction list on line 15.
- Calling `st.rerun()` (line 144) is not modelled as a separate step; `Session.Step` returns the state the next run starts from, and that run is an `Idle` step.
