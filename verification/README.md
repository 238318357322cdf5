# Results rendering of the jolpica F1 API, modelled in Dafny

This project models the part of the jolpica F1 API that turns one round's
denormalised result rows into a single result table. The modelled code is
the results marshalling package and the result-type gate of the results
endpoint.

- **Input rows.** Each row (`Loader.ResultRow`) is one entrant with its list of
  per-session entries (`Loader.SessionEntry`). Every field the database may leave
  empty is an `Option`.
- **Component renderers** (`ComponentStrategies`). A single-session component
  shows one session, such as "Q2" or "FP1". The grid component ("GRID" or
  "SGRID") shows the starting grid. Each decides whether it applies to a row and
  renders a position and a time.
- **Result renderers** (`ResultStrategies`). Each picks the entry that governs
  the line:
  - race: the unique entry of the race prefix;
  - knockout qualifying: the furthest segment reached;
  - best-lap qualifying: the single "QB" entry;
  - aggregate qualifying: lap times summed over the "QA" entries;
  - practice: one session, or a breakdown by session.

  The line is then built with fixed rules. The position text is "NC" for an
  unclassified entry. Points are given only when the entry is eligible.
- **The orchestrator** (`Orchestrator`):
  1. chooses the result renderer from the filter code and the session types;
  2. renders the rows that should be shown;
  3. sorts the lines by position with a stable sort, missing positions last;
  4. lists the component keys and picks the title.
- **The endpoint** (`ResultsView`):
  - lists the result-type codes a round offers;
  - refuses any other code with 404;
  - turns a `ValueError` raised while rendering into a 500 response;
  - lets every other exception escape.

Representation choices:

- Python's `None` is `Option`.
- A raised exception is the `Err` case of `Prelude.Result`. Python's
  propagation is Dafny's `:-`.
- A `timedelta` is an integer number of microseconds (`Schemas.Duration`), so
  aggregate sums are exact.
- Points are a `real` that is only passed through.
- `str(int)` is `Decimal.IntToString`, with a parser that reads it back.
- Python's `sorted` is the stable insertion sort `StableSort.Sort`. Its keys
  are integers or one of the two infinities. `reverse=True` is an ascending
  sort on the negated key. Python reverses equal elements twice, so the two
  agree.
- Every loop of the source is a method. Each method is proved equal to a
  specification function, and the lemmas characterise those functions.

Two places where the model follows the source's exact test, not a prefix
test:

- The orchestrator picks aggregate or best-lap qualifying when "QA" or "QB"
  is *exactly* one of the session types (orchestrator.py:33-37). The
  renderers themselves match entries by prefix.
- A single-session component shows the finishing time only for a session
  whose type is exactly "R" (component_strategies.py:66). Every other session
  shows its fastest lap.

The endpoint always offers "Q", even for a round without qualifying
sessions, so such a request reaches the loader. The loader loads only the
sessions whose type starts with the code (loader.py:65) and raises
`ValueError("No round entries found for sessions")` when they have no
entries (loader.py:89-90). The loader is called before the `try` that turns
a renderer's `ValueError` into a 500 response (views/results.py:99-107), so
that exception escapes the endpoint. `ResultsView.QualifyingWithoutSessionsEscapes`
states this. For the same reason the knockout constructor's "no sessions"
error is not reachable through the endpoint.

## Model

| member | source | states |
|---|---|---|
| Constants.TitleCodes | jolpica_api/f1_api/marshalling/results/constants.py:6-15 | The title table defines exactly the eight codes Q, SQ, R, SR, FP, FP1, FP2 and FP3. |
| ComponentStrategies.Key | jolpica_api/f1_api/marshalling/results/component_strategies.py:50-51 | A single-session component's key is its configured key. A grid component's key is "SGRID" exactly for the "SR" prefix, and "GRID" otherwise. |
| ComponentStrategies.DisplayName | jolpica_api/f1_api/marshalling/results/component_strategies.py:33-40 | The display name is the table entry for the key when there is one, and the key itself otherwise; the lookup never fails. |
| ComponentStrategies.ShouldRenderMeaning | jolpica_api/f1_api/marshalling/results/component_strategies.py:53-54 | A single-session component applies exactly when its session has an entry in the row (the search finds one). A grid component applies exactly when some entry of its prefix has a grid position (lines 94-99). |
| Constants.DisplayNameKeys | jolpica_api/f1_api/marshalling/results/constants.py:19-31 | GRID, SGRID, Q1–Q3, SQ1–SQ3 and FP1–FP3 all have display names. |
| ComponentStrategies.NewGrid | jolpica_api/f1_api/marshalling/results/component_strategies.py:82-92 | The grid constructor succeeds iff the prefix is "R" or "SR" and otherwise raises ValueError. The key is "SGRID" exactly for "SR", else "GRID", and the key has a display name. |
| ComponentStrategies.DisplayedTime | jolpica_api/f1_api/marshalling/results/component_strategies.py:75 | A time is shown iff it is present and non-zero, and it is then shown unchanged. |
| ComponentStrategies.FirstWithId | jolpica_api/f1_api/marshalling/results/component_strategies.py:57-61 | Gives the index of the first entry of the session. It is None iff no entry belongs to the session. |
| ComponentStrategies.SingleSessionContents | jolpica_api/f1_api/marshalling/results/component_strategies.py:56-76 | Rendering raises ValueError iff no entry has the session id. Otherwise it uses the first such entry: the configured key and its display name, that entry's position, and the finishing time when the type is exactly "R" (fastest lap otherwise), shown only when present and non-zero. |
| ComponentStrategies.BestGridIndex | jolpica_api/f1_api/marshalling/results/component_strategies.py:101-120 | The chosen entry has a grid position and the greatest session order number among entries that have one (a missing number is lowest). On a tie the earliest wins. It is None iff no entry has a grid position. |
| ComponentStrategies.GridPosition | jolpica_api/f1_api/marshalling/results/component_strategies.py:101-125 | The grid position shown is that of such a chosen entry. It is missing iff no matching entry has one. |
| ComponentStrategies.FirstGridEntry | jolpica_api/f1_api/marshalling/results/component_strategies.py:117-120 | The entry returned has a grid position and every earlier entry has none, so it is the first in list order. It is None iff there is none. |
| ComponentStrategies.SortedFirstGridIsBest | jolpica_api/f1_api/marshalling/results/component_strategies.py:106-120 | Sorting descending by order number (stable, missing as minus infinity) and then taking the first grid position picks exactly the entry `BestGridIndex` characterises. |
| ComponentStrategies.RenderAgreesWithShouldRender | jolpica_api/f1_api/marshalling/results/component_strategies.py:53-126 | When `should_render` holds, rendering succeeds under the renderer's own key. A single-session component fails iff `should_render` is false. A grid component shows a position iff `should_render` holds. |
| ComponentStrategies.RenderSingleSession | jolpica_api/f1_api/marshalling/results/component_strategies.py:56-76 | The search loop returns what the component specification gives. |
| ComponentStrategies.RenderGrid | jolpica_api/f1_api/marshalling/results/component_strategies.py:101-126 | Sorting when more than one entry matches, then scanning for the first grid position, returns the specification's component. |
| ComponentStrategies.Render | jolpica_api/f1_api/marshalling/results/component_strategies.py:29-31 | Rendering either component kind agrees with the specification. |
| StableSort.Sort | jolpica_api/f1_api/marshalling/results/orchestrator.py:56 | The sorted list is a permutation of the input (same multiset, same length). |
| StableSort.SortIsSorted | jolpica_api/f1_api/marshalling/results/orchestrator.py:56 | The sorted list is in ascending key order. |
| StableSort.SortIsStable | jolpica_api/f1_api/marshalling/results/orchestrator.py:56 | Elements with equal keys keep their input order. |
| StableSort.NegateReverses | jolpica_api/f1_api/marshalling/results/component_strategies.py:112-116 | Negating the key reverses the order, so an ascending sort on the negated key is the `reverse=True` sort. |
| Decimal.IntToString | jolpica_api/f1_api/marshalling/results/result_strategies.py:62 | `str(n)` is the canonical decimal numeral: non-empty, starting with '-' iff n is negative, otherwise made of digits, and with no leading zero (after the sign) unless it is "0" itself. |
| Decimal.IntRoundTrip | jolpica_api/f1_api/marshalling/results/result_strategies.py:62 | Parsing `str(n)` gives back n. |
| Decimal.IntToStringInjective | jolpica_api/f1_api/marshalling/results/result_strategies.py:62 | Distinct positions have distinct position texts. |
| Decimal.NumeralIsNotNC | jolpica_api/f1_api/marshalling/results/result_strategies.py:58-62 | No numeral is the text "NC". |
| Loader.EntriesWithPrefix | jolpica_api/f1_api/marshalling/results/component_strategies.py:103-105 | The entries kept are exactly those whose session type starts with the prefix. |
| Loader.EntriesWithPrefixAppend | jolpica_api/f1_api/marshalling/results/component_strategies.py:103-105 | The filter keeps row order and multiplicity: filtering a concatenation concatenates the filtered parts. |
| ResultStrategies.ComponentKeys | jolpica_api/f1_api/marshalling/results/orchestrator.py:58 | There is one component key per configured renderer. |
| ResultStrategies.SessionsWithPrefix | jolpica_api/f1_api/marshalling/results/result_strategies.py:118 | The sessions kept are exactly those whose type starts with the prefix. |
| ResultStrategies.SessionsOfType | jolpica_api/f1_api/marshalling/results/result_strategies.py:169 | The sessions kept are exactly those whose type equals the given type. |
| ResultStrategies.SessionsWithPrefixAppend | jolpica_api/f1_api/marshalling/results/result_strategies.py:118 | The prefix filter keeps session order and multiplicity: filtering a concatenation concatenates the filtered parts. |
| ResultStrategies.SessionsOfTypeAppend | jolpica_api/f1_api/marshalling/results/result_strategies.py:169 | The exact-type filter keeps session order and multiplicity in the same way. |
| ResultStrategies.NewRace | jolpica_api/f1_api/marshalling/results/result_strategies.py:82-84 | The race renderer is built iff the prefix is "R" or "SR", and otherwise raises ValueError. Its only component key is "SGRID" for "SR" and "GRID" otherwise. |
| ResultStrategies.NewKnockout | jolpica_api/f1_api/marshalling/results/result_strategies.py:115-128 | The knockout renderer is built iff the prefix is "Q" or "SQ" and some session type starts with it. Otherwise the constructor raises ValueError. |
| ResultStrategies.KnockoutComponentKeys | jolpica_api/f1_api/marshalling/results/result_strategies.py:118-126 | The keys are prefix+"1" up to prefix+"n" over the n matching sessions. Component i is the single-session component keyed prefix+str(i+1) for the i-th matching session, in the order the filter keeps. |
| ResultStrategies.KnockoutKeysNamed | jolpica_api/f1_api/marshalling/results/result_strategies.py:123-126 | With at most three matching sessions, every knockout component key has a display name. |
| ResultStrategies.NewBestLap | jolpica_api/f1_api/marshalling/results/result_strategies.py:167-171 | There is one component per session of type exactly "QB", keyed "Q1", "Q2" and so on, each tied to that session's id. |
| ResultStrategies.NewAggregate | jolpica_api/f1_api/marshalling/results/result_strategies.py:193-197 | There is one component per session of type exactly "QA", keyed "Q1", "Q2" and so on, each tied to that session's id. |
| ResultStrategies.NewPractice | jolpica_api/f1_api/marshalling/results/result_strategies.py:229-236 | There is one component per session, keyed by the session type and showing that session's id, and none at all when there is a single session. |
| ResultStrategies.ComponentsSpec | jolpica_api/f1_api/marshalling/results/result_strategies.py:41-48 | Rendering the components of a line never raises: every renderer that should render renders. |
| ResultStrategies.ComponentsKeys | jolpica_api/f1_api/marshalling/results/result_strategies.py:41-48 | The component map's keys are exactly the keys of the renderers whose `should_render` holds. |
| ResultStrategies.ComponentsValues | jolpica_api/f1_api/marshalling/results/result_strategies.py:41-48 | Each key holds the component of the last renderer with that key that should render, so later duplicates overwrite earlier ones. |
| ResultStrategies.RenderComponents | jolpica_api/f1_api/marshalling/results/result_strategies.py:41-48 | The dictionary-filling loop returns the specified component map. |
| ResultStrategies.PositionText | jolpica_api/f1_api/marshalling/results/result_strategies.py:58-62 | The text is "NC" iff the entry is explicitly not classified. Otherwise it is the canonical decimal numeral `str(position)`, which reads back as the position, or "" when there is no position. |
| ResultStrategies.AwardedPoints | jolpica_api/f1_api/marshalling/results/result_strategies.py:70 | The entry's points are shown exactly when it is eligible for points. |
| ResultStrategies.ItemForSession | jolpica_api/f1_api/marshalling/results/result_strategies.py:50-76 | Position, classification, status and laps come from the entry. Car number, driver and team come from the row. The text and points follow the rules above, and the time is shown exactly when it is present and non-zero, unchanged. |
| ResultStrategies.RaceEntryCharacterized | jolpica_api/f1_api/marshalling/results/result_strategies.py:86-94 | There is no race entry iff no entry has the prefix. It is a ValueError iff two entries have it. Otherwise it is the unique entry with the prefix. |
| ResultStrategies.RaceEntry | jolpica_api/f1_api/marshalling/results/result_strategies.py:86-94 | The scan that raises on the second match returns the race-entry specification. |
| ResultStrategies.KnockoutBestIndex | jolpica_api/f1_api/marshalling/results/result_strategies.py:130-146 | Among entries of the prefix that have an order number, the chosen entry has the greatest number, and the first one wins a tie. It is None iff there is no such entry. |
| ResultStrategies.BestKnockoutEntry | jolpica_api/f1_api/marshalling/results/result_strategies.py:130-146 | The running-best loop returns the entry `KnockoutBestIndex` characterises. |
| ResultStrategies.SumOfLaps | jolpica_api/f1_api/marshalling/results/result_strategies.py:206-212 | The aggregate time is missing iff no entry has a fastest lap. Otherwise it is the sum of the recorded laps. |
| ResultStrategies.LapTotalAppend | jolpica_api/f1_api/marshalling/results/result_strategies.py:206-212 | The recorded laps of consecutive groups of sessions add up. |
| ResultStrategies.SumOfLapsAppend | jolpica_api/f1_api/marshalling/results/result_strategies.py:206-212 | The aggregate time of two consecutive groups of sessions is the sum of their aggregates, and a group without any recorded lap contributes nothing. So the aggregate does not depend on how the sessions are grouped. |
| ResultStrategies.AggregateLapTime | jolpica_api/f1_api/marshalling/results/result_strategies.py:206-212 | The lap-summing loop returns `SumOfLaps`. |
| ResultStrategies.PositionsAgree | jolpica_api/f1_api/marshalling/results/result_strategies.py:214-218 | The check passes iff every aggregate entry has the first entry's position. |
| ResultStrategies.RenderRace | jolpica_api/f1_api/marshalling/results/result_strategies.py:100-110 | Race rendering raises what the unique-entry search raises, ValueError without an entry, and otherwise returns the race entry's line with its finishing time. |
| ResultStrategies.RenderKnockout | jolpica_api/f1_api/marshalling/results/result_strategies.py:152-161 | Knockout rendering raises ValueError without a candidate, and otherwise returns the line of the furthest segment reached, with its fastest lap. |
| ResultStrategies.RenderBestLap | jolpica_api/f1_api/marshalling/results/result_strategies.py:177-187 | Best-lap rendering raises NotImplementedError on several "QB" entries and IndexError on none. Otherwise it returns that entry's line with its fastest lap. |
| ResultStrategies.RenderPractice | jolpica_api/f1_api/marshalling/results/result_strategies.py:241-262 | Practice rendering with one session returns the first entry's line when there is one. Otherwise it returns the components alone. |
| ResultStrategies.RenderAggregate | jolpica_api/f1_api/marshalling/results/result_strategies.py:203-223 | Aggregate rendering raises IndexError without entries and NotImplementedError on disagreeing positions. Otherwise it returns the summed line. |
| ResultStrategies.RenderAfterShouldRender | jolpica_api/f1_api/marshalling/results/result_strategies.py:96-262 | Once `should_render` holds, `render` fails only for best-lap rows with several "QB" entries or aggregate rows whose positions disagree. The error is then NotImplementedError. |
| ResultStrategies.RenderSpec | jolpica_api/f1_api/marshalling/results/result_strategies.py:50-76 | Every rendered line carries exactly the component map that the strategy's renderers produce for its row. |
| ResultStrategies.LineKeysListed | jolpica_api/f1_api/marshalling/results/result_strategies.py:41-48 | Every component key of a line is one of the strategy's component keys. |
| ResultStrategies.ShouldRender | jolpica_api/f1_api/marshalling/results/result_strategies.py:96-239 | Each strategy's `should_render` returns or raises what its specification says. Race renders iff there is exactly one race entry (and raises on two). Knockout renders iff there is a candidate. Best-lap and aggregate render iff there is a "QB" or "QA" entry. Practice always renders. |
| ResultStrategies.Render | jolpica_api/f1_api/marshalling/results/result_strategies.py:100-262 | Each strategy's `render` returns or raises what its specification says. |
| Orchestrator.SelectStrategyDispatch | jolpica_api/f1_api/marshalling/results/orchestrator.py:32-48 | Q/SQ with a "QA" session gives aggregate, with a "QB" session best-lap, and otherwise knockout on the filter. FP, FP1, FP2 and FP3 give practice. R/SR give race. Choosing fails (always with a ValueError) exactly for a Q/SQ filter with no matching session or for any other code. |
| Orchestrator.ChooseStrategy | jolpica_api/f1_api/marshalling/results/orchestrator.py:31-48 | The if/elif dispatch returns the selected renderer or the constructor's exception. |
| Orchestrator.RowOutcomeMeaning | jolpica_api/f1_api/marshalling/results/orchestrator.py:52-54 | A row passes iff `should_render` returns and, when true, `render` returns. It adds a line iff both hold, and the line is that row's rendering. |
| Orchestrator.Shown | jolpica_api/f1_api/marshalling/results/orchestrator.py:51-53 | A row is shown iff it is a row of the input for which a line is produced. There are never more shown rows than input rows. |
| Orchestrator.ShownAppend | jolpica_api/f1_api/marshalling/results/orchestrator.py:50-53 | The shown rows of a concatenation are those of each part, in turn. With `Shown`'s length bound, a single row is shown once or not at all, so the shown rows keep row order and multiplicity. |
| Orchestrator.CollectSucceeds | jolpica_api/f1_api/marshalling/results/orchestrator.py:50-54 | The row loop completes iff no row raises. |
| Orchestrator.CollectLines | jolpica_api/f1_api/marshalling/results/orchestrator.py:50-54 | When the loop completes, there is one line per shown row, in row order. |
| Orchestrator.RowsContribute | jolpica_api/f1_api/marshalling/results/orchestrator.py:50-54 | The loop completes iff no `should_render` raises and no `render` of a row that should render raises. Then every shown row should render, every row that should render is shown, and the lines are the renderings of the shown rows, in order. |
| Orchestrator.ErrorPersists | jolpica_api/f1_api/marshalling/results/orchestrator.py:50-54 | Once the rows up to some point raise, later rows do not change the loop's result. |
| Orchestrator.RowErrorRaisedBy | jolpica_api/f1_api/marshalling/results/orchestrator.py:51-53 | A row that raises raises its `should_render`'s exception, or its `render`'s once `should_render` returned true. |
| Orchestrator.CollectFirstError | jolpica_api/f1_api/marshalling/results/orchestrator.py:50-54 | When the loop raises, its exception is the exception raised by the first row that raises. Every earlier row completed. |
| Orchestrator.RowsRaise | jolpica_api/f1_api/marshalling/results/orchestrator.py:50-54 | When the strategy's rows raise, the exception is the one raised by the first raising row. It comes from that row's `should_render`, or from its `render` once `should_render` held. The exception is not caught or replaced. |
| Orchestrator.TitleFor | jolpica_api/f1_api/marshalling/results/orchestrator.py:60-63 | The title is the table entry for the filter, or the filter itself when the table has none. |
| Orchestrator.RenderResults | jolpica_api/f1_api/marshalling/results/orchestrator.py:29-73 | Rendering fails iff choosing the renderer or the row loop raises. The exception is then the renderer choice's own, or else the row loop's, unchanged. On success, code, title, component keys, season, round, circuit and sessions are as specified and passed through unchanged. |
| Orchestrator.ResultsOrdered | jolpica_api/f1_api/marshalling/results/orchestrator.py:56 | The lines are a permutation of the rendered items, in ascending position, with missing positions last. Lines with equal positions keep row order. |
| Orchestrator.ComponentKeysCover | jolpica_api/f1_api/marshalling/results/orchestrator.py:58 | Every component key of every line appears in the table's component keys. |
| Orchestrator.RenderRows | jolpica_api/f1_api/marshalling/results/orchestrator.py:50-54 | The row loop returns the specified lines or the first exception raised, proved equal to `RenderRowsSpec`. |
| Orchestrator.Render | jolpica_api/f1_api/marshalling/results/orchestrator.py:29-73 | The dispatch, the row loop and the sort return the specified table or exception (`RenderResults`). |
| ResultsView.Offered | jolpica_api/f1_api/views/results.py:36-38 | A candidate code is offered iff some session type starts with it. |
| ResultsView.AvailableContents | jolpica_api/f1_api/views/results.py:30-39 | The list starts with "R", "Q" whatever the sessions are. Each of SQ, SR, FP, FP1, FP2 and FP3 is included iff some session type starts with it. It holds no other code, and its length is between 2 and 8. |
| ResultsView.AvailableInOrder | jolpica_api/f1_api/views/results.py:30-39 | The codes appear in the fixed order R, Q, SQ, SR, FP, FP1, FP2, FP3, so none appears twice. |
| ResultsView.AvailableDependsOnTypeSet | jolpica_api/f1_api/views/results.py:30 | The list depends only on the set of session types. |
| ResultsView.EveryOfferedCodeHasTitle | jolpica_api/f1_api/views/results.py:28-39 | Every offered code has an entry in the title table. |
| ResultsView.GetAvailableResultTypes | jolpica_api/f1_api/views/results.py:28-39 | The append loop returns the specified list. |
| ResultsView.UnavailableFilterRefused | jolpica_api/f1_api/views/results.py:96-97 | A code the round does not offer gets 404 whatever the loader would have produced. |
| ResultsView.RenderErrorsMapped | jolpica_api/f1_api/views/results.py:99-107 | For an offered code, a ValueError while rendering gives 500. Any other rendering exception, and any loader exception, escapes unchanged. Otherwise the table is returned. |
| ResultsView.ServedTableTitled | jolpica_api/f1_api/views/results.py:96-113 | A served table carries the requested code and that code's own title, never the fallback. |
| ResultsView.QualifyingWithoutSessionsEscapes | jolpica_api/f1_api/views/results.py:96-107 | "Q" is offered even for a round without qualifying sessions, so the loader runs. The loader's ValueError (in the source, "No round entries found for sessions") escapes the endpoint unchanged. It is not turned into a 500 response. |
| ResultsView.HandleResults | jolpica_api/f1_api/views/results.py:86-114 | The check chain returns 400, 404 ("Round not found"), 404 ("Invalid session filter"), 500 or the table as specified. The loader is consulted iff every check has passed. |

## Left out

- `ResultDataLoader.load` (loader.py:55-180) is Django ORM querying. The loaded `ResultData`, or the exception the loader raises, is a parameter. The round lookup of the endpoint is a parameter too: the session types of the round, or `None` when no round has the id.
- `format_timedelta` is not part of this model. Times stay `Duration` values (microseconds), and `None` when Python's `if time` is false (missing or zero).
- The order of the components of a line is not modelled. Python's `dict` keeps insertion order, and a duplicate key keeps its earlier slot, so that order appears in the JSON output; the model's `map` has no order. Keys and values are modelled (`ComponentsKeys`, `ComponentsValues`).
- `logger.error` calls have no effect on the output and are omitted.
- HTTP response objects, metadata timestamps, the URL-pattern restriction of the filter code, and the `retrieve` endpoint body are omitted. A response is a status and a message, or the table.
- The pydantic schema validation of `Results` and `ResultItem` is omitted; the records are plain datatypes.
- ResultStrategies.NewKnockout: the contract states when construction succeeds and the prefix; its component keys are stated separately by `KnockoutComponentKeys`.
- ResultStrategies.ComponentKeys: the contract states only the length; the key of each renderer is stated where each strategy is constructed.
