/** The paginated feed renderer of script.js: the loaded week list, the
    pagination cursor, the sentinel observer and the loading indicator, with
    one pure step function per operation that changes them.

    The page's DOM is abstracted to the sequence of children of the changelog
    container; a rendered week is represented by its index in the week list. */
module Feed {
  import opened Wrappers

  /** Number of weeks one batch renders (WEEKS_PER_PAGE). */
  const PageSize: nat := 8

  /** One changelog line: a summary, with an optional repository label and link. */
  datatype Entry = Entry(summary: string, repo: Option<string>, url: Option<string>)

  /** The entries of one week, with the week's ISO date. */
  datatype Week = Week(weekOf: string, entries: seq<Entry>)

  /** What fetching and decoding the feed document produced: a failure
      (network error, bad payload), or a document whose `weeks` field is
      absent (None) or present. */
  datatype Outcome = Failed | Loaded(weeks: Option<seq<Week>>)

  /** One child of the changelog container. */
  datatype Item = WeekSection(index: nat) | EmptyNotice | ErrorNotice

  /** The `observer` handle: never created, observing the sentinel, or
      created and then disconnected (the handle stays non-null). */
  datatype ObserverHandle = Absent | Observing | Disconnected

  /** One intersection notification delivered to the observer callback;
      only the first entry's `isIntersecting` is read. */
  datatype Signal = Signal(isIntersecting: bool)

  /** The renderer's whole state for one page load.
      `disconnects` counts the calls made to `observer.disconnect()`. */
  datatype Page = Page(
    weeks: seq<Week>,
    cursor: nat,
    container: seq<Item>,
    observer: ObserverHandle,
    indicatorHidden: bool,
    disconnects: nat)

  function Min(a: int, b: int): int {
    if a < b then a else b
  }

  /** Ceiling of n / PageSize: the number of batches that render n weeks. */
  function Batches(n: nat): nat {
    (n + PageSize - 1) / PageSize
  }

  /** The sections of weeks lo, lo + 1, ..., hi - 1, in that order. */
  function Sections(lo: nat, hi: nat): (r: seq<Item>)
    ensures |r| == if lo <= hi then hi - lo else 0
    ensures forall k :: 0 <= k < |r| ==> r[k] == WeekSection(lo + k)
  {
    if lo <= hi then seq(hi - lo, k requires 0 <= k < hi - lo => WeekSection(lo + k)) else []
  }

  /** The page before init runs: nothing loaded, nothing rendered, no
      observer. Whether the loading indicator starts hidden depends on the
      page's markup and is a parameter. */
  function Start(indicatorHidden: bool): Page {
    Page([], 0, [], Absent, indicatorHidden, 0)
  }

  /** renderNextBatch: append the weeks from the cursor up to the end of the
      page (or of the list), advance the cursor there, and on completion hide
      the indicator and disconnect the observer if one was ever created. */
  function Batch(p: Page): (r: Page)
    ensures r.weeks == p.weeks
    ensures r.container == p.container + Sections(p.cursor, r.cursor)
  {
    var end := Min(p.cursor + PageSize, |p.weeks|);
    var appended := p.container + Sections(p.cursor, end);
    if end >= |p.weeks| then
      p.(cursor := end, container := appended, indicatorHidden := true,
         observer := if p.observer == Absent then Absent else Disconnected,
         disconnects := if p.observer == Absent then p.disconnects else p.disconnects + 1)
    else
      p.(cursor := end, container := appended)
  }

  /** The observer callback's guard: the sentinel is visible and weeks remain. */
  predicate Guard(p: Page, s: Signal) {
    s.isIntersecting && p.cursor < |p.weeks|
  }

  /** Whether a signal makes the callback render a batch: it is only
      delivered while the observer is observing, and then the guard decides. */
  predicate Fires(p: Page, s: Signal) {
    p.observer == Observing && Guard(p, s)
  }

  /** One intersection signal. */
  function Step(p: Page, s: Signal): (r: Page)
    ensures r == p || r == Batch(p)
  {
    if Fires(p, s) then Batch(p) else p
  }

  /** A sequence of intersection signals, delivered one at a time. */
  function Run(p: Page, signals: seq<Signal>): (r: Page)
    ensures r.weeks == p.weeks
    ensures p.cursor <= r.cursor
    ensures p.cursor <= |p.weeks| ==> r.cursor <= |p.weeks|
    ensures |p.container| <= |r.container| && r.container[..|p.container|] == p.container
    decreases |signals|
  {
    if |signals| == 0 then p else Run(Step(p, signals[0]), signals[1..])
  }

  /** The number of signals in `signals` that render a batch. */
  function Fired(p: Page, signals: seq<Signal>): nat
    decreases |signals|
  {
    if |signals| == 0 then 0
    else (if Fires(p, signals[0]) then 1 else 0) + Fired(Step(p, signals[0]), signals[1..])
  }

  /** setupIntersectionObserver: show the indicator and start observing it
      with a fresh observer. */
  function SetupObserver(p: Page): (r: Page)
    ensures r.observer == Observing && !r.indicatorHidden
    ensures r.weeks == p.weeks && r.cursor == p.cursor && r.container == p.container
    ensures r.disconnects == p.disconnects
  {
    p.(indicatorHidden := false, observer := Observing)
  }

  /** init, once the fetch has produced `outcome`: show the error message on
      failure; otherwise take the weeks (absent means none), show the empty
      message when there are none, or render the first batch and then set up
      the observer, in that order. */
  function Init(p: Page, outcome: Outcome): (r: Page)
    ensures outcome.Failed? ==> r.weeks == p.weeks && r.observer == p.observer
    ensures outcome.Loaded? ==> r.weeks == outcome.weeks.GetOr([])
    ensures |r.weeks| == 0 || outcome.Failed? ==>
      r.cursor == p.cursor && r.observer == p.observer && r.indicatorHidden == p.indicatorHidden
      && r.disconnects == p.disconnects
    ensures outcome.Loaded? && |r.weeks| > 0 ==>
      && r.observer == Observing && !r.indicatorHidden
      && r.cursor == Min(p.cursor + PageSize, |r.weeks|)
      && r.container == p.container + Sections(p.cursor, r.cursor)
  {
    match outcome
    case Failed => p.(container := [ErrorNotice])
    case Loaded(w) =>
      var q := p.(weeks := w.GetOr([]));
      if |q.weeks| == 0 then q.(container := [EmptyNotice])
      else SetupObserver(Batch(q))
  }

  /** init with the observer set up before the first batch, so that a first
      batch that renders every week also hides the indicator for good and
      disconnects the observer it no longer needs. */
  function InitSetupFirst(p: Page, outcome: Outcome): (r: Page)
    ensures outcome.Loaded? ==> r.weeks == outcome.weeks.GetOr([])
    ensures outcome.Loaded? && 0 < |r.weeks| <= PageSize + p.cursor && p.cursor <= |r.weeks| ==>
      r.indicatorHidden && r.observer == Disconnected && r.cursor == |r.weeks|
  {
    match outcome
    case Failed => p.(container := [ErrorNotice])
    case Loaded(w) =>
      var q := p.(weeks := w.GetOr([]));
      if |q.weeks| == 0 then q.(container := [EmptyNotice])
      else Batch(SetupObserver(q))
  }

  /** The state invariant: the cursor stays within the list, the container
      holds exactly the first `cursor` weeks in order (or one of the two
      notices, with nothing loaded and no observer), and the observer has
      been disconnected at most once, only at completion. */
  predicate Valid(p: Page) {
    && p.cursor <= |p.weeks|
    && p.disconnects <= 1
    && (p.observer == Disconnected <==> p.disconnects == 1)
    && (p.observer == Disconnected ==> p.cursor == |p.weeks| && p.indicatorHidden)
    && (p.container == Sections(0, p.cursor) || ShowsNotice(p))
  }

  /** The container holds only the empty or the error message. */
  predicate ShowsNotice(p: Page) {
    && (p.container == [EmptyNotice] || p.container == [ErrorNotice])
    && |p.weeks| == 0
    && p.observer == Absent
  }
}
