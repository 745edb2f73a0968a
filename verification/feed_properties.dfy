/** Properties of the feed renderer: what one batch does, what the observer
    callback does, what init leaves behind, and how a whole run of
    intersection signals ends. */
module FeedProperties {
  import opened Wrappers
  import opened Feed

  // ---------------------------------------------------------------- batch

  /** A batch ends at min(cursor + 8, total) and the cursor moves there; from
      an empty container at cursor 0 it renders exactly the first min(N, 8)
      weeks, in order. */
  lemma BatchWindow(p: Page)
    ensures Batch(p).cursor == Min(p.cursor + PageSize, |p.weeks|)
    ensures p.cursor == 0 && p.container == [] ==>
      && Batch(p).container == Sections(0, Min(|p.weeks|, PageSize))
      && |Batch(p).container| == Min(|p.weeks|, PageSize)
  {
  }

  /** A batch never moves the cursor back or past the end, and moves it
      forward whenever weeks remain. */
  lemma BatchAdvances(p: Page)
    requires p.cursor <= |p.weeks|
    ensures p.cursor <= Batch(p).cursor <= |p.weeks|
    ensures p.cursor < |p.weeks| ==> p.cursor < Batch(p).cursor
    ensures Batch(p).cursor - p.cursor <= PageSize
  {
  }

  /** A batch that leaves the cursor at the end hides the indicator and calls
      disconnect exactly when an observer handle exists; any other batch
      leaves indicator and observer alone. */
  lemma BatchCompletion(p: Page)
    ensures var r := Batch(p);
      r.cursor >= |p.weeks| ==>
        && r.indicatorHidden
        && (r.disconnects == p.disconnects + 1 <==> p.observer != Absent)
        && (r.disconnects == p.disconnects <==> p.observer == Absent)
        && (r.observer == Absent <==> p.observer == Absent)
    ensures var r := Batch(p);
      r.cursor < |p.weeks| ==>
        && r.indicatorHidden == p.indicatorHidden
        && r.observer == p.observer
        && r.disconnects == p.disconnects
  {
  }

  /** A batch from a valid state that the callback could reach (observer not
      yet disconnected) keeps the state valid: the container is still exactly
      the first `cursor` weeks, each once, in order. */
  lemma BatchPreservesValid(p: Page)
    requires Valid(p) && p.observer != Disconnected
    ensures Valid(Batch(p))
  {
  }

  // ------------------------------------------------------------- signals

  /** Sections a..b followed by sections b..c are sections a..c. */
  lemma SectionsShiftSplit(a: nat, b: nat, c: nat)
    requires a <= b <= c
    ensures Sections(a, b) + Sections(b, c) == Sections(a, c)
  {
  }

  /** The callback renders only for an intersecting signal while weeks
      remain, and then it renders exactly one batch. */
  lemma StepGuard(p: Page, s: Signal)
    ensures Step(p, s) != p ==> s.isIntersecting && p.cursor < |p.weeks| && p.observer == Observing
    ensures Fires(p, s) ==> Step(p, s) == Batch(p)
    ensures !s.isIntersecting ==> Step(p, s) == p
  {
  }

  /** Every signal keeps the state invariant. */
  lemma StepPreservesValid(p: Page, s: Signal)
    requires Valid(p)
    ensures Valid(Step(p, s))
  {
  }

  /** Any sequence of signals keeps the state valid, never moves the cursor
      back, and only ever appends the weeks between the old and new cursor. */
  lemma {:induction false} RunPreservesValid(p: Page, signals: seq<Signal>)
    requires Valid(p)
    ensures var r := Run(p, signals);
      && Valid(r)
      && r.weeks == p.weeks
      && p.cursor <= r.cursor
      && r.container == p.container + Sections(p.cursor, r.cursor)
    decreases |signals|
  {
    if |signals| > 0 {
      var q := Step(p, signals[0]);
      StepPreservesValid(p, signals[0]);
      if Fires(p, signals[0]) {
        BatchAdvances(p);
      }
      assert q.container == p.container + Sections(p.cursor, q.cursor);
      RunPreservesValid(q, signals[1..]);
      var r := Run(q, signals[1..]);
      assert r == Run(p, signals);
      assert Sections(p.cursor, q.cursor) + Sections(q.cursor, r.cursor) == Sections(p.cursor, r.cursor) by {
        SectionsShiftSplit(p.cursor, q.cursor, r.cursor);
      }
    }
  }

  /** An observer that is observing while weeks remain is disconnected by
      the batch that renders the last week, and not before. */
  lemma {:induction false} RunDisconnects(p: Page, signals: seq<Signal>)
    requires Valid(p) && p.observer == Observing && p.cursor < |p.weeks|
    ensures var r := Run(p, signals);
      && (r.observer == Observing || r.observer == Disconnected)
      && (r.observer == Disconnected <==> r.cursor == |p.weeks|)
    decreases |signals|
  {
    if |signals| > 0 {
      var q := Step(p, signals[0]);
      assert Run(p, signals) == Run(q, signals[1..]);
      if Fires(p, signals[0]) {
        BatchCompletion(p);
        BatchPreservesValid(p);
        if q.cursor >= |p.weeks| {
          CompletedIgnoresSignals(q, signals[1..]);
        } else {
          RunDisconnects(q, signals[1..]);
        }
      } else {
        RunDisconnects(q, signals[1..]);
      }
    }
  }

  /** Once every week is rendered, no number of further signals changes
      anything: the container, the cursor and the observer stay as they are. */
  lemma {:induction false} CompletedIgnoresSignals(p: Page, signals: seq<Signal>)
    requires p.cursor >= |p.weeks|
    ensures Run(p, signals) == p
    ensures Fired(p, signals) == 0
    decreases |signals|
  {
    if |signals| > 0 {
      assert Step(p, signals[0]) == p;
      CompletedIgnoresSignals(p, signals[1..]);
    }
  }

  /** Each signal that fires is one batch: after `b` of them the cursor is
      min(cursor + 8b, N), `b` never exceeds the batches the remaining weeks
      need, and the end is reached exactly when `b` equals that number. */
  lemma {:induction false} RunBatches(p: Page, signals: seq<Signal>)
    requires Valid(p)
    ensures var r, b := Run(p, signals), Fired(p, signals);
      && r.cursor == Min(p.cursor + PageSize * b, |p.weeks|)
      && b <= Batches(|p.weeks| - p.cursor)
      && (r.cursor == |p.weeks| <==> b == Batches(|p.weeks| - p.cursor))
    decreases |signals|
  {
    if |signals| > 0 {
      var s := signals[0];
      var q := Step(p, s);
      StepPreservesValid(p, s);
      RunBatches(q, signals[1..]);
      var bq := Fired(q, signals[1..]);
      assert Run(p, signals) == Run(q, signals[1..]);
      if Fires(p, s) {
        assert Fired(p, signals) == 1 + bq;
        var n := |p.weeks|;
        if p.cursor + PageSize <= n {
          assert q.cursor == p.cursor + PageSize;
          assert Batches(n - q.cursor) + 1 == Batches(n - p.cursor);
        } else {
          assert q.cursor == n;
          assert Batches(n - q.cursor) == 0;
          assert Batches(n - p.cursor) == 1;
        }
      } else {
        assert q == p;
      }
    }
  }

  /** Signals that are all intersecting, as many as the remaining batches,
      delivered while the observer is observing, finish the feed. */
  lemma {:induction false} EnoughSignalsComplete(p: Page, signals: seq<Signal>)
    requires Valid(p) && p.observer == Observing
    requires forall i :: 0 <= i < |signals| ==> signals[i].isIntersecting
    requires |signals| >= Batches(|p.weeks| - p.cursor)
    ensures Run(p, signals).cursor == |p.weeks|
    decreases |signals|
  {
    var n := |p.weeks|;
    if p.cursor == n {
      CompletedIgnoresSignals(p, signals);
    } else {
      var q := Step(p, signals[0]);
      assert Fires(p, signals[0]);
      BatchAdvances(p);
      BatchPreservesValid(p);
      assert Run(p, signals) == Run(q, signals[1..]);
      if q.cursor == n {
        CompletedIgnoresSignals(q, signals[1..]);
      } else {
        BatchCompletion(p);
        assert q.cursor == p.cursor + PageSize;
        assert Batches(n - q.cursor) + 1 == Batches(n - p.cursor);
        EnoughSignalsComplete(q, signals[1..]);
      }
    }
  }

  // ---------------------------------------------------------------- init

  /** A failed fetch or decode leaves only the error message: no weeks, no
      batch, no observer. */
  lemma InitFailure(hidden: bool)
    ensures var r := Init(Start(hidden), Failed);
      && r.container == [ErrorNotice]
      && r.cursor == 0 && |r.weeks| == 0
      && r.observer == Absent && r.indicatorHidden == hidden
      && Valid(r)
  {
  }

  /** A missing or empty `weeks` field shows the empty message and sets up
      nothing: no batch, no observer, indicator untouched. */
  lemma InitEmpty(hidden: bool, weeks: Option<seq<Week>>)
    requires weeks == None || weeks == Some([])
    ensures var r := Init(Start(hidden), Loaded(weeks));
      && r.container == [EmptyNotice]
      && r.cursor == 0 && |r.weeks| == 0
      && r.observer == Absent && r.indicatorHidden == hidden
      && Valid(r)
  {
  }

  /** With one to eight weeks, init renders them all, yet, because the batch
      runs before the observer exists, ends with the indicator shown again
      and a connected observer that was never disconnected; no later signal
      changes anything. */
  lemma InitSmall(hidden: bool, weeks: seq<Week>, signals: seq<Signal>)
    requires 1 <= |weeks| <= PageSize
    ensures var r := Init(Start(hidden), Loaded(Some(weeks)));
      && r.weeks == weeks
      && r.cursor == |weeks|
      && r.container == Sections(0, |weeks|)
      && !r.indicatorHidden
      && r.observer == Observing
      && r.disconnects == 0
      && Valid(r)
      && Run(r, signals) == r
  {
  }

  /** With more than eight weeks, init renders the first eight and leaves the
      indicator shown and the observer observing. */
  lemma InitLarge(hidden: bool, weeks: seq<Week>)
    requires |weeks| > PageSize
    ensures var r := Init(Start(hidden), Loaded(Some(weeks)));
      && r.weeks == weeks
      && r.cursor == PageSize
      && r.container == Sections(0, PageSize)
      && !r.indicatorHidden
      && r.observer == Observing
      && r.disconnects == 0
      && Valid(r)
  {
  }

  /** A whole page load with weeks: after init and any signals, the container
      is the first `cursor` weeks in order; counting init's batch, `b` batches
      have rendered min(8b, N) weeks, never more than ceil(N / 8) batches run,
      the feed is complete exactly when ceil(N / 8) have, and disconnect has
      been called once if the feed completed after init and never otherwise. */
  lemma PageLoad(hidden: bool, weeks: seq<Week>, signals: seq<Signal>)
    requires |weeks| >= 1
    ensures var p := Init(Start(hidden), Loaded(Some(weeks)));
      var r, b := Run(p, signals), 1 + Fired(p, signals);
      && r.container == Sections(0, r.cursor)
      && r.cursor == Min(PageSize * b, |weeks|)
      && b <= Batches(|weeks|)
      && (r.cursor == |weeks| <==> b == Batches(|weeks|))
      && r.disconnects == (if r.cursor == |weeks| && |weeks| > PageSize then 1 else 0)
  {
    var p := Init(Start(hidden), Loaded(Some(weeks)));
    var n := |weeks|;
    if n <= PageSize {
      InitSmall(hidden, weeks, signals);
      CompletedIgnoresSignals(p, signals);
      assert Batches(n) == 1;
    } else {
      InitLarge(hidden, weeks);
      RunBatches(p, signals);
      RunPreservesValid(p, signals);
      assert Batches(n - PageSize) + 1 == Batches(n);
      RunDisconnects(p, signals);
    }
  }

  /** Every state a page load reaches satisfies the invariant. */
  lemma PageLoadValid(hidden: bool, outcome: Outcome, signals: seq<Signal>)
    ensures Valid(Run(Init(Start(hidden), outcome), signals))
  {
    var p := Init(Start(hidden), outcome);
    match outcome
    case Failed =>
      InitFailure(hidden);
    case Loaded(w) =>
      var ws := w.GetOr([]);
      if |ws| == 0 {
        assert Valid(p);
      } else if |ws| <= PageSize {
        InitSmall(hidden, ws, signals);
      } else {
        InitLarge(hidden, ws);
      }
    RunPreservesValid(p, signals);
  }

  // ---------------------------------------------------------- indicator

  /** As written, a feed of one to eight weeks is complete after init, yet
      the loading indicator stays visible after any number of signals:
      the batch hides it, and setting up the observer shows it again. */
  lemma IndicatorStaysVisible(hidden: bool, weeks: seq<Week>, signals: seq<Signal>)
    requires 1 <= |weeks| <= PageSize
    ensures var r := Run(Init(Start(hidden), Loaded(Some(weeks))), signals);
      r.cursor == |weeks| && !r.indicatorHidden
  {
    InitSmall(hidden, weeks, signals);
  }

  /** With the observer set up first, every page load with weeks hides the
      indicator and disconnects the observer exactly when all weeks are
      displayed, and keeps the container the first `cursor` weeks in order. */
  lemma SetupFirstHidesIndicator(hidden: bool, weeks: seq<Week>, signals: seq<Signal>)
    requires |weeks| >= 1
    ensures var r := Run(InitSetupFirst(Start(hidden), Loaded(Some(weeks))), signals);
      && Valid(r)
      && r.container == Sections(0, r.cursor)
      && (r.cursor == |weeks| <==> r.indicatorHidden)
      && (r.cursor == |weeks| <==> r.observer == Disconnected)
  {
    var p := InitSetupFirst(Start(hidden), Loaded(Some(weeks)));
    if |weeks| <= PageSize {
      assert Valid(p);
      CompletedIgnoresSignals(p, signals);
    } else {
      assert p == Init(Start(hidden), Loaded(Some(weeks)));
      InitLarge(hidden, weeks);
      RunPreservesValid(p, signals);
      RunDisconnects(p, signals);
      RunIndicator(p, signals);
    }
  }

  /** While weeks remain, signals leave the indicator shown. */
  lemma {:induction false} RunIndicator(p: Page, signals: seq<Signal>)
    requires Valid(p) && !p.indicatorHidden
    ensures var r := Run(p, signals); r.cursor < |p.weeks| ==> !r.indicatorHidden
    decreases |signals|
  {
    if |signals| > 0 {
      var q := Step(p, signals[0]);
      assert Run(p, signals) == Run(q, signals[1..]);
      StepPreservesValid(p, signals[0]);
      BatchCompletion(p);
      if q.indicatorHidden {
        BatchAdvances(p);
        CompletedIgnoresSignals(q, signals[1..]);
      } else {
        RunIndicator(q, signals[1..]);
      }
    }
  }
}
