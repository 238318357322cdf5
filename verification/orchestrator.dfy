/** ResultsOrchestrator.render: chooses the result renderer for a filter
    code, renders the rows that should be shown, orders the lines by
    position and assembles the result table. */
module Orchestrator {
  import opened Prelude
  import opened Schemas
  import opened Loader
  import Strategies = ResultStrategies
  import StableSort
  import Constants

  /** Python's `{s.type for s in sessions}` followed by a membership test. */
  predicate HasSessionType(sessions: seq<BasicSession>, sessionType: string) {
    exists s :: s in sessions && s.sessionType == sessionType
  }

  predicate IsQualifyingFilter(filter: string) {
    filter == "Q" || filter == "SQ"
  }

  predicate IsPracticeFilter(filter: string) {
    filter == "FP" || filter == "FP1" || filter == "FP2" || filter == "FP3"
  }

  /** The renderer chosen for a filter, or the error its constructor raises. */
  function SelectStrategy(filter: string, sessions: seq<BasicSession>): Result<Strategies.Strategy> {
    if IsQualifyingFilter(filter) then
      if HasSessionType(sessions, "QA") then Ok(Strategies.NewAggregate(sessions))
      else if HasSessionType(sessions, "QB") then Ok(Strategies.NewBestLap(sessions))
      else Strategies.NewKnockout(sessions, filter)
    else if IsPracticeFilter(filter) then Ok(Strategies.NewPractice(sessions, filter))
    else Strategies.NewRace(filter)
  }

  /** Which renderer each filter gets, and exactly when choosing one fails:
      a qualifying filter with no aggregate or best-lap session and no session
      of its prefix, or a filter that is neither qualifying, practice, nor a
      race code. Every such failure is a ValueError. */
  lemma SelectStrategyDispatch(filter: string, sessions: seq<BasicSession>)
    ensures var r := SelectStrategy(filter, sessions);
      && (r.Ok? && r.value.AggregateQualifying? <==>
            IsQualifyingFilter(filter) && HasSessionType(sessions, "QA"))
      && (r.Ok? && r.value.BestLapQualifying? <==>
            IsQualifyingFilter(filter) && !HasSessionType(sessions, "QA") && HasSessionType(sessions, "QB"))
      && (r.Ok? && r.value.KnockoutQualifying? ==> r.value.sessionTypeStartswith == filter)
      && (r.Ok? && r.value.PracticeResult? <==> IsPracticeFilter(filter))
      && (r.Ok? && r.value.RaceResult? <==> filter == "R" || filter == "SR")
      && (r.Ok? && r.value.RaceResult? ==> r.value.sessionTypeStartswith == filter)
      && (r.Err? <==>
            || (IsQualifyingFilter(filter) && !HasSessionType(sessions, "QA") && !HasSessionType(sessions, "QB")
                && forall s :: s in sessions ==> !StartsWith(s.sessionType, filter))
            || (!IsQualifyingFilter(filter) && !IsPracticeFilter(filter) && filter != "R" && filter != "SR"))
      && (r.Err? ==> r.error.ValueError?)
  {
  }

  /** What the row loop does with one row: the exception `should_render` or
      `render` raises, no line when `should_render` is false, else the line. */
  function RowOutcome(s: Strategies.Strategy, row: ResultRow): Result<Option<ResultItem>> {
    var show :- Strategies.ShouldRenderSpec(s, row);
    if !show then Ok(None)
    else
      var item :- Strategies.RenderSpec(s, row);
      Ok(Some(item))
  }

  lemma RowOutcomeMeaning(s: Strategies.Strategy, row: ResultRow)
    ensures RowOutcome(s, row).Ok? <==>
      Strategies.ShouldRenderSpec(s, row).Ok? &&
      (Strategies.ShouldRenderSpec(s, row) == Ok(true) ==> Strategies.RenderSpec(s, row).Ok?)
    ensures RowOutcome(s, row).Ok? && RowOutcome(s, row).value.Some? <==>
      Strategies.ShouldRenderSpec(s, row) == Ok(true) && Strategies.RenderSpec(s, row).Ok?
    ensures RowOutcome(s, row).Ok? && RowOutcome(s, row).value.Some? ==>
      Strategies.RenderSpec(s, row) == Ok(RowOutcome(s, row).value.value)
  {
  }

  /** The row loop for any per-row outcome: the lines of the rows in order,
      or the exception of the first row that raises. */
  function Collect(outcome: ResultRow -> Result<Option<ResultItem>>, rows: seq<ResultRow>): Result<seq<ResultItem>>
    decreases |rows|
  {
    if rows == [] then Ok([])
    else
      var items :- Collect(outcome, rows[..|rows| - 1]);
      var o :- outcome(rows[|rows| - 1]);
      if o.None? then Ok(items) else Ok(items + [o.value])
  }

  /** The lines of the strategy's rows. */
  function RenderRowsSpec(s: Strategies.Strategy, rows: seq<ResultRow>): Result<seq<ResultItem>> {
    Collect(row => RowOutcome(s, row), rows)
  }

  /** The rows that give a line, in row order. */
  function Shown(outcome: ResultRow -> Result<Option<ResultItem>>, rows: seq<ResultRow>): (r: seq<ResultRow>)
    ensures |r| <= |rows|
    ensures forall row :: row in r <==> row in rows && outcome(row).Ok? && outcome(row).value.Some?
    decreases |rows|
  {
    if rows == [] then []
    else
      var row := rows[|rows| - 1];
      Shown(outcome, rows[..|rows| - 1]) + (if outcome(row).Ok? && outcome(row).value.Some? then [row] else [])
  }

  /** The shown rows keep row order and multiplicity: the rows of a
      concatenation are the shown rows of each part, in turn. */
  lemma {:induction false} ShownAppend(outcome: ResultRow -> Result<Option<ResultItem>>, a: seq<ResultRow>, b: seq<ResultRow>)
    ensures Shown(outcome, a + b) == Shown(outcome, a) + Shown(outcome, b)
    decreases |b|
  {
    if b == [] {
      assert a + b == a;
    } else {
      var n := |b| - 1;
      var last := b[n];
      var tail := if outcome(last).Ok? && outcome(last).value.Some? then [last] else [];
      ShownAppend(outcome, a, b[..n]);
      Loader.AppendDropLast(a, b);
      assert Shown(outcome, a + b) == Shown(outcome, a + b[..n]) + tail;
      assert Shown(outcome, b) == Shown(outcome, b[..n]) + tail;
    }
  }

  /** The loop completes exactly when no row raises. */
  lemma {:induction false} CollectSucceeds(outcome: ResultRow -> Result<Option<ResultItem>>, rows: seq<ResultRow>)
    ensures Collect(outcome, rows).Ok? <==> forall i :: 0 <= i < |rows| ==> outcome(rows[i]).Ok?
    decreases |rows|
  {
    if rows != [] {
      var n := |rows| - 1;
      var init := rows[..n];
      CollectSucceeds(outcome, init);
      assert forall i :: 0 <= i < n ==> init[i] == rows[i];
      if Collect(outcome, init).Err? {
        var i :| 0 <= i < n && outcome(init[i]).Err?;
        assert rows[i] == init[i];
      }
    }
  }

  /** When the loop raises, the exception is the one raised by the first
      row that raises; every earlier row completed. */
  lemma {:induction false} CollectFirstError(outcome: ResultRow -> Result<Option<ResultItem>>, rows: seq<ResultRow>)
    ensures Collect(outcome, rows).Err? ==> exists i ::
      && 0 <= i < |rows|
      && outcome(rows[i]).Err?
      && Collect(outcome, rows).error == outcome(rows[i]).error
      && forall j :: 0 <= j < i ==> outcome(rows[j]).Ok?
    decreases |rows|
  {
    if rows != [] && Collect(outcome, rows).Err? {
      var n := |rows| - 1;
      var init := rows[..n];
      assert forall j :: 0 <= j < n ==> init[j] == rows[j];
      if Collect(outcome, init).Err? {
        CollectFirstError(outcome, init);
        var i :| 0 <= i < n && outcome(init[i]).Err? && Collect(outcome, init).error == outcome(init[i]).error
          && forall j :: 0 <= j < i ==> outcome(init[j]).Ok?;
        assert rows[i] == init[i];
      } else {
        CollectSucceeds(outcome, init);
        assert outcome(rows[n]).Err?;
      }
    }
  }

  /** When the loop completes there is one line per row that gives one, in
      row order. */
  lemma {:induction false} CollectLines(outcome: ResultRow -> Result<Option<ResultItem>>, rows: seq<ResultRow>)
    requires Collect(outcome, rows).Ok?
    ensures var items := Collect(outcome, rows).value;
      var shown := Shown(outcome, rows);
      |items| == |shown| && forall i :: 0 <= i < |items| ==> outcome(shown[i]) == Ok(Some(items[i]))
    decreases |rows|
  {
    if rows != [] {
      var n := |rows| - 1;
      var init := rows[..n];
      var o := outcome(rows[n]);
      assert Collect(outcome, init).Ok? && o.Ok?;
      CollectLines(outcome, init);
      var items := Collect(outcome, init).value;
      assert Collect(outcome, rows).value == if o.value.None? then items else items + [o.value.value];
      assert Shown(outcome, rows) == Shown(outcome, init) + (if o.value.Some? then [rows[n]] else []);
    }
  }

  /** The strategy's rows are rendered without error exactly when no
      `should_render` raises and no `render` of a shown row raises; then the
      lines are the renderings of the shown rows, one each, in row order. */
  lemma RowsContribute(s: Strategies.Strategy, rows: seq<ResultRow>)
    ensures RenderRowsSpec(s, rows).Ok? <==>
      forall i :: 0 <= i < |rows| ==>
        Strategies.ShouldRenderSpec(s, rows[i]).Ok? &&
        (Strategies.ShouldRenderSpec(s, rows[i]) == Ok(true) ==> Strategies.RenderSpec(s, rows[i]).Ok?)
    ensures RenderRowsSpec(s, rows).Ok? ==>
      var items := RenderRowsSpec(s, rows).value;
      var shown := Shown(row => RowOutcome(s, row), rows);
      && |items| == |shown|
      && (forall row :: row in shown ==> row in rows && Strategies.ShouldRenderSpec(s, row) == Ok(true))
      && (forall i :: 0 <= i < |rows| && Strategies.ShouldRenderSpec(s, rows[i]) == Ok(true) ==> rows[i] in shown)
      && (forall i :: 0 <= i < |items| ==> Strategies.RenderSpec(s, shown[i]) == Ok(items[i]))
  {
    var f := row => RowOutcome(s, row);
    CollectSucceeds(f, rows);
    forall i | 0 <= i < |rows| {
      RowOutcomeMeaning(s, rows[i]);
    }
    if RenderRowsSpec(s, rows).Ok? {
      CollectLines(f, rows);
      var shown := Shown(f, rows);
      forall row | row in shown {
        RowOutcomeMeaning(s, row);
      }
    }
  }

  /** The exception of a row is its `should_render`'s, or its `render`'s
      once `should_render` held. */
  predicate RaisedBy(s: Strategies.Strategy, row: ResultRow, e: Error) {
    || (Strategies.ShouldRenderSpec(s, row).Err? && e == Strategies.ShouldRenderSpec(s, row).error)
    || (Strategies.ShouldRenderSpec(s, row) == Ok(true) && Strategies.RenderSpec(s, row).Err? &&
        e == Strategies.RenderSpec(s, row).error)
  }

  /** A row that raises raises its `should_render`'s exception, or its
      `render`'s once `should_render` returned true. */
  lemma RowErrorRaisedBy(s: Strategies.Strategy, row: ResultRow)
    ensures RowOutcome(s, row).Err? ==> RaisedBy(s, row, RowOutcome(s, row).error)
  {
  }

  /** When the strategy's rows raise, the exception is the one the first
      raising row's `should_render`, or its `render` once `should_render`
      held, raised; the rows before it all completed. */
  lemma RowsRaise(s: Strategies.Strategy, rows: seq<ResultRow>)
    ensures RenderRowsSpec(s, rows).Err? ==> exists i ::
      && 0 <= i < |rows|
      && (forall j :: 0 <= j < i ==> RowOutcome(s, rows[j]).Ok?)
      && RaisedBy(s, rows[i], RenderRowsSpec(s, rows).error)
  {
    var f := row => RowOutcome(s, row);
    CollectFirstError(f, rows);
    if RenderRowsSpec(s, rows).Err? {
      var i :| 0 <= i < |rows| && f(rows[i]).Err? && Collect(f, rows).error == f(rows[i]).error
        && forall j :: 0 <= j < i ==> f(rows[j]).Ok?;
      RowErrorRaisedBy(s, rows[i]);
    }
  }

  /** The sort key: the position, a missing position sorting last. */
  function PositionKey(item: ResultItem): StableSort.Ext {
    if item.position.Some? then StableSort.Fin(item.position.value) else StableSort.PosInf
  }

  /** The title of a filter code: the table entry, else the code itself. */
  function TitleFor(filter: string): (t: string)
    ensures filter in Constants.ResultTypeTitles ==> t == Constants.ResultTypeTitles[filter]
    ensures filter !in Constants.ResultTypeTitles ==> t == filter
  {
    if filter in Constants.ResultTypeTitles then Constants.ResultTypeTitles[filter] else filter
  }

  /** What ResultsOrchestrator(filter, data).render() returns or raises. */
  function RenderResults(filter: string, data: ResultData): (r: Result<Results>)
    ensures r.Err? <==> SelectStrategy(filter, data.sessions).Err? || RenderRowsSpec(SelectStrategy(filter, data.sessions).value, data.rows).Err?
    ensures r.Err? && SelectStrategy(filter, data.sessions).Err? ==>
      r.error == SelectStrategy(filter, data.sessions).error
    ensures r.Err? && SelectStrategy(filter, data.sessions).Ok? ==>
      r.error == RenderRowsSpec(SelectStrategy(filter, data.sessions).value, data.rows).error
    ensures r.Ok? ==>
      && r.value.code == filter
      && r.value.title == TitleFor(filter)
      && r.value.season == data.season && r.value.round == data.round
      && r.value.circuit == data.circuit && r.value.sessions == data.sessions
      && r.value.componentKeys == Strategies.ComponentKeys(SelectStrategy(filter, data.sessions).value)
  {
    var strategy :- SelectStrategy(filter, data.sessions);
    var items :- RenderRowsSpec(strategy, data.rows);
    Ok(Results(
      season := data.season,
      round := data.round,
      circuit := data.circuit,
      sessions := data.sessions,
      title := TitleFor(filter),
      code := filter,
      componentKeys := Strategies.ComponentKeys(strategy),
      results := StableSort.Sort(items, PositionKey)))
  }

  /** The lines are the rendered items reordered: ascending by position,
      lines without a position last, and lines with the same position (or
      both without one) in row order. */
  lemma ResultsOrdered(filter: string, data: ResultData)
    requires RenderResults(filter, data).Ok?
    ensures var items := RenderRowsSpec(SelectStrategy(filter, data.sessions).value, data.rows).value;
      var lines := RenderResults(filter, data).value.results;
      && multiset(lines) == multiset(items)
      && StableSort.Sorted(lines, PositionKey)
      && (forall i, j :: 0 <= i < j < |lines| && lines[i].position.None? ==> lines[j].position.None?)
      && (forall k :: StableSort.WithKey(lines, PositionKey, k) == StableSort.WithKey(items, PositionKey, k))
  {
    var items := RenderRowsSpec(SelectStrategy(filter, data.sessions).value, data.rows).value;
    var lines := RenderResults(filter, data).value.results;
    StableSort.SortIsSorted(items, PositionKey);
    forall i, j | 0 <= i < j < |lines| && lines[i].position.None?
      ensures lines[j].position.None?
    {
      assert StableSort.ExtLe(PositionKey(lines[i]), PositionKey(lines[j]));
    }
    forall k {
      StableSort.SortIsStable(items, PositionKey, k);
    }
  }

  /** Every component key of every line is listed in the table's component
      keys. */
  lemma ComponentKeysCover(filter: string, data: ResultData)
    requires RenderResults(filter, data).Ok?
    ensures var res := RenderResults(filter, data).value;
      forall item, key :: item in res.results && key in item.components ==> key in res.componentKeys
  {
    var s := SelectStrategy(filter, data.sessions).value;
    var items := RenderRowsSpec(s, data.rows).value;
    var res := RenderResults(filter, data).value;
    RowsContribute(s, data.rows);
    var shown := Shown(row => RowOutcome(s, row), data.rows);
    forall item | item in res.results
      ensures forall key :: key in item.components ==> key in res.componentKeys
    {
      assert item in multiset(res.results);
      assert item in items;
      var i :| 0 <= i < |items| && items[i] == item;
      Strategies.LineKeysListed(s, shown[i]);
    }
  }

  /** The strategy dispatch of `render`. */
  method ChooseStrategy(filter: string, sessions: seq<BasicSession>) returns (r: Result<Strategies.Strategy>)
    ensures r == SelectStrategy(filter, sessions)
  {
    if filter == "Q" || filter == "SQ" {
      if HasSessionType(sessions, "QA") {
        r := Ok(Strategies.NewAggregate(sessions));
      } else if HasSessionType(sessions, "QB") {
        r := Ok(Strategies.NewBestLap(sessions));
      } else {
        r := Strategies.NewKnockout(sessions, filter);
      }
    } else if filter == "FP" || filter == "FP1" || filter == "FP2" || filter == "FP3" {
      r := Ok(Strategies.NewPractice(sessions, filter));
    } else {
      r := Strategies.NewRace(filter);
    }
  }

  /** The row loop of ResultsOrchestrator.render: the line of each row that
      should render is appended; strategy exceptions propagate. */
  method RenderRows(s: Strategies.Strategy, rows: seq<ResultRow>) returns (r: Result<seq<ResultItem>>)
    ensures r == RenderRowsSpec(s, rows)
  {
    var items: seq<ResultItem> := [];
    var i := 0;
    while i < |rows|
      invariant 0 <= i <= |rows|
      invariant RenderRowsSpec(s, rows[..i]) == Ok(items)
    {
      RowsStep(s, rows, i);
      var show := Strategies.ShouldRender(s, rows[i]);
      if show.Err? {
        ErrorPersists(row => RowOutcome(s, row), rows, i + 1);
        return Err(show.error);
      }
      if show.value {
        var item := Strategies.Render(s, rows[i]);
        if item.Err? {
          ErrorPersists(row => RowOutcome(s, row), rows, i + 1);
          return Err(item.error);
        }
        items := items + [item.value];
      }
      i := i + 1;
    }
    assert rows[..i] == rows;
    r := Ok(items);
  }

  /** One more row of the loop, once the earlier rows completed. */
  lemma RowsStep(s: Strategies.Strategy, rows: seq<ResultRow>, i: nat)
    requires i < |rows| && RenderRowsSpec(s, rows[..i]).Ok?
    ensures RenderRowsSpec(s, rows[..i + 1]) ==
      if Strategies.ShouldRenderSpec(s, rows[i]).Err? then Err(Strategies.ShouldRenderSpec(s, rows[i]).error)
      else if !Strategies.ShouldRenderSpec(s, rows[i]).value then RenderRowsSpec(s, rows[..i])
      else if Strategies.RenderSpec(s, rows[i]).Err? then Err(Strategies.RenderSpec(s, rows[i]).error)
      else Ok(RenderRowsSpec(s, rows[..i]).value + [Strategies.RenderSpec(s, rows[i]).value])
  {
    assert rows[..i + 1][..i] == rows[..i];
  }

  /** ResultsOrchestrator.render: the strategy, the row loop, then the table
      sorted by position. */
  method Render(filter: string, data: ResultData) returns (r: Result<Results>)
    ensures r == RenderResults(filter, data)
  {
    var strategy := ChooseStrategy(filter, data.sessions);
    if strategy.Err? {
      return Err(strategy.error);
    }
    var s := strategy.value;
    var items := RenderRows(s, data.rows);
    if items.Err? {
      return Err(items.error);
    }
    r := Ok(Results(
      season := data.season,
      round := data.round,
      circuit := data.circuit,
      sessions := data.sessions,
      title := TitleFor(filter),
      code := filter,
      componentKeys := Strategies.ComponentKeys(s),
      results := StableSort.Sort(items.value, PositionKey)));
  }

  /** An exception raised at some row is the exception of the whole loop:
      later rows are never visited. */
  lemma {:induction false} ErrorPersists(outcome: ResultRow -> Result<Option<ResultItem>>, rows: seq<ResultRow>, n: nat)
    requires n <= |rows| && Collect(outcome, rows[..n]).Err?
    ensures Collect(outcome, rows) == Collect(outcome, rows[..n])
    decreases |rows| - n
  {
    if n < |rows| {
      assert rows[..n + 1][..n] == rows[..n];
      ErrorPersists(outcome, rows, n + 1);
    } else {
      assert rows[..n] == rows;
    }
  }
}
