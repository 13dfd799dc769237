/** The per-browser-session state and what one run of the script does with it
    (app.py lines 39-45 and 121-144): the submit button disables itself on
    click, the results of the stored response are drawn, the error banner is
    shown, and a submission's outcome decides the new state. */
module Session {
  import opened Base
  import opened Cards

  const OkStatus: int := 200
  const SuccessMessage: string := "Success"

  /** The decoded body of a search response. */
  datatype Response = Response(message: string, results: seq<SearchResult>)

  /** What `search` hands back: `None` when the request raised, otherwise the
      status code and the decoded body. */
  datatype Outcome = NoResponse | Reply(status: int, body: Response)

  /** `st.session_state` as the script sees it once lines 42-45 have run;
      `stored` is the `response_json` key. */
  datatype State = State(disabled: bool, error: bool, stored: Option<Response>)

  /** `st.session_state` before lines 42-45: any key may be missing. */
  datatype RawState = RawState(disabled: Option<bool>, error: Option<bool>, stored: Option<Response>)

  /** Lines 42-45: a missing flag is set to false, a present one is kept. */
  function Init(raw: RawState): (s: State)
    ensures raw.disabled.None? ==> !s.disabled
    ensures raw.disabled.Some? ==> s.disabled == raw.disabled.value
    ensures raw.error.None? ==> !s.error
    ensures raw.error.Some? ==> s.error == raw.error.value
    ensures s.stored == raw.stored
  {
    State(
      if raw.disabled.Some? then raw.disabled.value else false,
      if raw.error.Some? then raw.error.value else false,
      raw.stored)
  }

  /** The state as stored back into `st.session_state`. */
  function Store(s: State): (raw: RawState) {
    RawState(Some(s.disabled), Some(s.error), s.stored)
  }

  /** Lines 42-45 change nothing on later runs of the script. */
  lemma InitKeepsStoredState(s: State)
    ensures Init(Store(s)) == s
  {
  }

  /** A fresh session starts enabled, without the banner and without results. */
  lemma FreshSession()
    ensures Init(RawState(None, None, None)) == State(false, false, None)
  {
  }

  /** The button's `on_click` handler (lines 39-40). */
  function Disable(s: State): (t: State)
    ensures t.disabled
    ensures t.error == s.error && t.stored == s.stored
  {
    s.(disabled := true)
  }

  /** The condition under which line 139 stores the response. */
  predicate Succeeded(o: Outcome) {
    o.Reply? && o.status == OkStatus && o.body.message == SuccessMessage
  }

  /** Lines 129-143: the outcome of a submission. Every outcome re-enables
      the button; only a successful one replaces the stored response, and the
      banner flag records whether it failed. */
  function Complete(s: State, o: Outcome): (t: State)
    ensures !t.disabled
    ensures t.error <==> !Succeeded(o)
    ensures Succeeded(o) ==> t.stored == Some(o.body)
    ensures !Succeeded(o) ==> t.stored == s.stored
  {
    var t := match o
      case NoResponse => s.(error := true)
      case Reply(status, body) =>
        if status == OkStatus then
          if body.message != SuccessMessage then s.(error := true)
          else s.(error := false, stored := Some(body))
        else s.(error := true);
    t.(disabled := false)
  }

  /** What one run of the script draws below the form: the cards of the
      stored response, when there is one, and whether the error banner
      appeared. */
  datatype Page = Page(rendering: Option<Rendering>, banner: bool)

  predicate Aborted(p: Page) {
    p.rendering.Some? && p.rendering.value.crash.Some?
  }

  /** Lines 123-127: the stored response is drawn first; an exception while
      drawing it ends the run before the banner. */
  function View(s: State): (p: Page)
    ensures p.rendering.Some? <==> s.stored.Some?
    ensures s.stored.Some? ==> p.rendering.value == DisplayResults(s.stored.value.results)
    ensures p.banner <==> s.error && !Aborted(p)
  {
    var rendering := if s.stored.Some? then Some(DisplayResults(s.stored.value.results)) else None;
    var aborted := rendering.Some? && rendering.value.crash.Some?;
    Page(rendering, s.error && !aborted)
  }

  /** What happens between two runs: nothing, or a click on the submit
      button that `search` answers with the given outcome. */
  datatype Event = Idle | Click(outcome: Outcome)

  datatype Run = Run(page: Page, next: State)

  /** One run of the script. A click is possible only while the button is
      enabled; its handler disables the button before the script starts, so
      a run that aborts while drawing the stored response leaves it
      disabled. */
  function Step(s: State, e: Event): (r: Run)
    ensures e.Idle? || s.disabled ==> r == Run(View(s), s)
    ensures e.Click? && !s.disabled ==> r.page == View(Disable(s))
    ensures e.Click? && !s.disabled && !Aborted(r.page) ==> r.next == Complete(s, e.outcome)
    ensures e.Click? && !s.disabled && Aborted(r.page) ==> r.next == Disable(s)
  {
    match e
    case Idle => Run(View(s), s)
    case Click(o) =>
      if s.disabled then Run(View(s), s)
      else
        var armed := Disable(s);
        var page := View(armed);
        if Aborted(page) then Run(page, armed)
        else Run(page, Complete(armed, o))
  }

  /** A sequence of runs of the script. */
  function Replay(s: State, events: seq<Event>): (t: State)
    decreases |events|
  {
    if |events| == 0 then s else Replay(Step(s, events[0]).next, events[1..])
  }

  /** Once the button is disabled outside a submission, no later run can
      enable it again, and nothing in the state changes. */
  lemma {:induction false} DisabledStaysDisabled(s: State, events: seq<Event>)
    requires s.disabled
    ensures Replay(s, events) == s
    decreases |events|
  {
    if |events| > 0 {
      assert Step(s, events[0]).next == s;
      DisabledStaysDisabled(s, events[1..]);
    }
  }

  /** A stored response whose drawing raises (an unbound `href`, a missing
      key, a malformed date) locks the form: the first click disables the
      button, the run aborts before line 143 re-enables it, and every later
      run leaves the session exactly so. */
  lemma CrashingStoredResponseLocksForm(s: State, o: Outcome, later: seq<Event>)
    requires !s.disabled && s.stored.Some?
    requires DisplayResults(s.stored.value.results).crash.Some?
    ensures Replay(s, [Click(o)] + later) == Disable(s)
  {
    assert Aborted(View(Disable(s)));
    var events := [Click(o)] + later;
    assert events[0] == Click(o) && events[1..] == later;
    DisabledStaysDisabled(Disable(s), later);
  }

  /** After a failed submission the previously stored results are drawn again,
      unchanged, and the error banner appears below them. */
  lemma FailureKeepsOldCards(s: State, o: Outcome)
    requires !s.disabled && s.stored.Some?
    requires DisplayResults(s.stored.value.results).crash.None?
    requires !Succeeded(o)
    ensures Step(s, Click(o)).next.stored == s.stored
    ensures View(Step(s, Click(o)).next) == Page(View(s).rendering, true)
  {
  }

  /** A successful submission replaces what is drawn with the new response's
      cards and removes the banner, unless drawing the new cards raises. */
  lemma SuccessShowsNewResults(s: State, o: Outcome)
    requires !s.disabled
    requires !Aborted(View(s))
    requires Succeeded(o)
    ensures View(Step(s, Click(o)).next).rendering == Some(DisplayResults(o.body.results))
    ensures View(Step(s, Click(o)).next).banner == false
    ensures !Step(s, Click(o)).next.disabled
  {
  }

  /** A successful response with no results: no cards, no banner. */
  lemma EmptySuccess(s: State, message: string)
    requires !s.disabled && !Aborted(View(s))
    requires message == SuccessMessage
    ensures View(Step(s, Click(Reply(OkStatus, Response(message, [])))).next)
         == Page(Some(Rendering([], None, None)), false)
  {
    EmptyResults();
  }
}
