/** Component renderers: each decides whether one sub-column of a result line
    (a qualifying segment, a practice session, the starting grid) applies to a
    row, and renders its position and time. */
module ComponentStrategies {
  import opened Prelude
  import opened Schemas
  import opened Loader
  import opened StableSort
  import Constants

  /** The two component renderers. `SingleSession` shows one session's entry
      under `componentKey`; `Grid` shows the starting grid position of the
      race-type session whose type starts with `sessionTypeStartswith`. */
  datatype ComponentRenderer =
    | SingleSession(componentKey: string, sessionApiId: string)
    | Grid(sessionTypeStartswith: string)

  /** The key of the component a renderer produces. */
  function Key(c: ComponentRenderer): (k: string)
    ensures c.SingleSession? ==> k == c.componentKey
    ensures c.Grid? ==> (k == "SGRID" <==> c.sessionTypeStartswith == "SR")
    ensures c.Grid? ==> k == "SGRID" || k == "GRID"
  {
    match c
    case SingleSession(k, _) => k
    case Grid(p) => if p == "SR" then "SGRID" else "GRID"
  }

  /** GridComponent's constructor, which accepts only the race prefixes. */
  function NewGrid(prefix: string): (r: Result<ComponentRenderer>)
    ensures r.Ok? <==> prefix == "R" || prefix == "SR"
    ensures r.Err? ==> r.error.ValueError?
    ensures r.Ok? ==> r.value.Grid? && r.value.sessionTypeStartswith == prefix
    ensures r.Ok? ==> (Key(r.value) == "SGRID" <==> prefix == "SR")
    ensures r.Ok? ==> Key(r.value) in Constants.ComponentDisplayNames
  {
    if prefix == "R" || prefix == "SR" then Ok(Grid(prefix))
    else Err(ValueError("GridComponent must be initialized with a race session type"))
  }

  /** The display name of a component key; an unknown key is its own name. */
  function DisplayName(key: string): (name: string)
    ensures key in Constants.ComponentDisplayNames ==> name == Constants.ComponentDisplayNames[key]
    ensures key !in Constants.ComponentDisplayNames ==> name == key
  {
    if key in Constants.ComponentDisplayNames then Constants.ComponentDisplayNames[key] else key
  }

  /** Python's `format_timedelta(time) if time else None`: a missing or zero
      duration is not shown. */
  function DisplayedTime(t: Option<Duration>): (r: Option<Duration>)
    ensures r.Some? <==> t.Some? && t.value != 0
    ensures r.Some? ==> r == t
  {
    if t.Some? && t.value != 0 then t else None
  }

  /** Whether the component applies to a row. */
  predicate ShouldRender(c: ComponentRenderer, row: ResultRow) {
    match c
    case SingleSession(_, id) =>
      exists i :: 0 <= i < |row.sessionEntries| && row.sessionEntries[i].sessionApiId == id
    case Grid(p) =>
      exists i :: 0 <= i < |row.sessionEntries| &&
        StartsWith(row.sessionEntries[i].sessionType, p) && row.sessionEntries[i].gridPosition.Some?
  }

  /** A single-session component applies exactly when its session has an
      entry in the row; a grid component exactly when some entry of its
      prefix has a grid position. */
  lemma ShouldRenderMeaning(c: ComponentRenderer, row: ResultRow)
    ensures c.SingleSession? ==>
      (ShouldRender(c, row) <==> FirstWithId(row.sessionEntries, c.sessionApiId).Some?)
    ensures c.Grid? ==>
      (ShouldRender(c, row) <==>
        exists e :: e in EntriesWithPrefix(row.sessionEntries, c.sessionTypeStartswith) && e.gridPosition.Some?)
  {
    if c.Grid? && ShouldRender(c, row) {
      var i :| 0 <= i < |row.sessionEntries| &&
        StartsWith(row.sessionEntries[i].sessionType, c.sessionTypeStartswith) &&
        row.sessionEntries[i].gridPosition.Some?;
      assert row.sessionEntries[i] in EntriesWithPrefix(row.sessionEntries, c.sessionTypeStartswith);
    }
  }

  /** The index of the first entry of session `id`. */
  function FirstWithId(entries: seq<SessionEntry>, id: string): (r: Option<nat>)
    ensures r.Some? ==> r.value < |entries| && entries[r.value].sessionApiId == id
    ensures r.Some? ==> forall j :: 0 <= j < r.value ==> entries[j].sessionApiId != id
    ensures r.None? <==> forall j :: 0 <= j < |entries| ==> entries[j].sessionApiId != id
    decreases |entries|
  {
    if entries == [] then None
    else if entries[0].sessionApiId == id then Some(0)
    else
      match FirstWithId(entries[1..], id)
      case None => None
      case Some(k) => Some(k + 1)
  }

  /** The time a single-session component shows: the finishing time of a
      session of type exactly "R", the fastest lap of any other session. */
  function SessionTime(e: SessionEntry): Option<Duration> {
    if e.sessionType == "R" then e.time else e.fastestLapTime
  }

  /** The rank of an entry's session order number, a missing number lowest. */
  function OrderRank(e: SessionEntry): Ext {
    if e.sessionOrderNumber.Some? then Fin(e.sessionOrderNumber.value) else NegInf
  }

  /** The key of the grid fallback sort: the order number, missing as minus
      infinity, in descending order. */
  function GridSortKey(e: SessionEntry): Ext {
    Negate(OrderRank(e))
  }

  /** Entry `i` supplies the grid position: it has one, its session order
      number is the highest among the entries that have one, and every
      earlier such entry has a strictly lower number. */
  ghost predicate IsGridChoice(m: seq<SessionEntry>, i: int) {
    && 0 <= i < |m|
    && m[i].gridPosition.Some?
    && forall j :: 0 <= j < |m| && m[j].gridPosition.Some? ==>
         ExtLe(OrderRank(m[j]), OrderRank(m[i])) && (j < i ==> !ExtLe(OrderRank(m[i]), OrderRank(m[j])))
  }

  /** The entry whose grid position the grid component shows. */
  function BestGridIndex(m: seq<SessionEntry>): (r: Option<nat>)
    ensures r.Some? ==> IsGridChoice(m, r.value)
    ensures r.None? <==> forall j :: 0 <= j < |m| ==> m[j].gridPosition.None?
    decreases |m|
  {
    if m == [] then None
    else
      var rest := BestGridIndex(m[1..]);
      if m[0].gridPosition.None? then
        (match rest
         case None => None
         case Some(k) => Some(k + 1))
      else if rest.None? then Some(0)
      else if ExtLe(OrderRank(m[rest.value + 1]), OrderRank(m[0])) then Some(0)
      else
        ExtLeTotal(OrderRank(m[rest.value + 1]), OrderRank(m[0]));
        Some(rest.value + 1)
  }

  /** The grid position shown for the entries matching the grid prefix. */
  function GridPosition(m: seq<SessionEntry>): (r: Option<int>)
    ensures r.Some? ==> exists i :: IsGridChoice(m, i) && m[i].gridPosition == r
    ensures r.None? <==> forall j :: 0 <= j < |m| ==> m[j].gridPosition.None?
  {
    match BestGridIndex(m)
    case None => None
    case Some(i) => m[i].gridPosition
  }

  /** What rendering a component yields for a row. */
  function RenderSpec(c: ComponentRenderer, row: ResultRow): Result<ResultComponent> {
    match c
    case SingleSession(key, id) =>
      (match FirstWithId(row.sessionEntries, id)
       case None => Err(ValueError("No session entry found for component session api_id"))
       case Some(i) =>
         var e := row.sessionEntries[i];
         Ok(ResultComponent(key, DisplayName(key), e.position, DisplayedTime(SessionTime(e)))))
    case Grid(p) =>
      Ok(ResultComponent(Key(c), DisplayName(Key(c)), GridPosition(EntriesWithPrefix(row.sessionEntries, p)), None))
  }

  /** A renderer whose `should_render` holds renders without error, under its
      own key; a single-session renderer fails exactly when its session is
      missing, and a grid component shows a position exactly when it should
      render. */
  lemma RenderAgreesWithShouldRender(c: ComponentRenderer, row: ResultRow)
    ensures ShouldRender(c, row) ==> RenderSpec(c, row).Ok?
    ensures c.SingleSession? ==> (RenderSpec(c, row).Ok? <==> ShouldRender(c, row))
    ensures RenderSpec(c, row).Ok? ==> RenderSpec(c, row).value.key == Key(c)
    ensures c.Grid? ==> (ShouldRender(c, row) <==> RenderSpec(c, row).value.position.Some?)
  {
    if c.Grid? {
      var m := EntriesWithPrefix(row.sessionEntries, c.sessionTypeStartswith);
      if ShouldRender(c, row) {
        var i :| 0 <= i < |row.sessionEntries| &&
          StartsWith(row.sessionEntries[i].sessionType, c.sessionTypeStartswith) &&
          row.sessionEntries[i].gridPosition.Some?;
        assert row.sessionEntries[i] in m;
      }
      if GridPosition(m).Some? {
        var j :| 0 <= j < |m| && m[j].gridPosition.Some?;
        assert m[j] in row.sessionEntries;
      }
    }
  }

  /** The part of the agreement that `_render_components` relies on. */
  lemma ShouldRenderRenders(c: ComponentRenderer, row: ResultRow)
    requires ShouldRender(c, row)
    ensures RenderSpec(c, row).Ok? && RenderSpec(c, row).value.key == Key(c)
  {
    RenderAgreesWithShouldRender(c, row);
  }

  /** A single-session component is built from the first entry of its
      session: its key is the configured key, its position that entry's
      position, its time the entry's session time when present and non-zero;
      with no entry of the session, rendering raises a ValueError. */
  lemma SingleSessionContents(key: string, id: string, row: ResultRow)
    ensures var r := RenderSpec(SingleSession(key, id), row);
      var entries := row.sessionEntries;
      && (r.Err? <==> forall j :: 0 <= j < |entries| ==> entries[j].sessionApiId != id)
      && (r.Err? ==> r.error.ValueError?)
      && (r.Ok? ==> exists i ::
            && 0 <= i < |entries| && entries[i].sessionApiId == id
            && (forall j :: 0 <= j < i ==> entries[j].sessionApiId != id)
            && r.value.key == key && r.value.name == DisplayName(key)
            && r.value.position == entries[i].position
            && r.value.time == DisplayedTime(if entries[i].sessionType == "R" then entries[i].time else entries[i].fastestLapTime))
  {
    var entries := row.sessionEntries;
    var f := FirstWithId(entries, id);
    if f.Some? {
      var i := f.value;
      assert entries[i].sessionApiId == id;
    }
  }

  /** The first entry, in list order, that has a grid position. */
  function FirstGridEntry(t: seq<SessionEntry>): (r: Option<SessionEntry>)
    ensures r.Some? ==> exists i ::
      && 0 <= i < |t| && t[i] == r.value && r.value.gridPosition.Some?
      && forall j :: 0 <= j < i ==> t[j].gridPosition.None?
    ensures r.None? <==> forall j :: 0 <= j < |t| ==> t[j].gridPosition.None?
    decreases |t|
  {
    if t == [] then None
    else if t[0].gridPosition.Some? then Some(t[0])
    else FirstGridEntry(t[1..])
  }

  lemma {:induction false} InsertWithoutGrid(x: SessionEntry, t: seq<SessionEntry>)
    requires x.gridPosition.None?
    ensures FirstGridEntry(Insert(x, t, GridSortKey)) == FirstGridEntry(t)
    decreases |t|
  {
    if t == [] || ExtLe(GridSortKey(x), GridSortKey(t[0])) {
      assert ([x] + t)[1..] == t;
    } else {
      InsertWithoutGrid(x, t[1..]);
      assert ([t[0]] + Insert(x, t[1..], GridSortKey))[1..] == Insert(x, t[1..], GridSortKey);
    }
  }

  lemma {:induction false} InsertWithGrid(x: SessionEntry, t: seq<SessionEntry>)
    requires x.gridPosition.Some?
    requires Sorted(t, GridSortKey)
    ensures FirstGridEntry(Insert(x, t, GridSortKey)) ==
      if FirstGridEntry(t).None? || ExtLe(GridSortKey(x), GridSortKey(FirstGridEntry(t).value))
      then Some(x) else FirstGridEntry(t)
    decreases |t|
  {
    var f := FirstGridEntry(t);
    if t == [] {
    } else if ExtLe(GridSortKey(x), GridSortKey(t[0])) {
      if f.Some? {
        var k :| 0 <= k < |t| && t[k] == f.value;
        if k > 0 {
          ExtLeTransitive(GridSortKey(x), GridSortKey(t[0]), GridSortKey(t[k]));
        }
      }
    } else {
      var rest := Insert(x, t[1..], GridSortKey);
      assert ([t[0]] + rest)[1..] == rest;
      if t[0].gridPosition.None? {
        assert Sorted(t[1..], GridSortKey);
        InsertWithGrid(x, t[1..]);
      }
    }
  }

  /** Python's fallback, `sorted(..., key=order number or -inf, reverse=True)`
      followed by taking the first entry with a grid position, picks exactly
      the entry `BestGridIndex` names. */
  lemma {:induction false} SortedFirstGridIsBest(m: seq<SessionEntry>)
    ensures FirstGridEntry(Sort(m, GridSortKey)) ==
      match BestGridIndex(m)
      case None => None
      case Some(i) => Some(m[i])
    decreases |m|
  {
    if m != [] {
      var t := Sort(m[1..], GridSortKey);
      SortedFirstGridIsBest(m[1..]);
      SortIsSorted(m[1..], GridSortKey);
      if m[0].gridPosition.None? {
        InsertWithoutGrid(m[0], t);
      } else {
        SortedFirstGridStep(m);
      }
    }
  }

  /** The inductive step of `SortedFirstGridIsBest` when the first entry has
      a grid position. */
  lemma SortedFirstGridStep(m: seq<SessionEntry>)
    requires m != [] && m[0].gridPosition.Some?
    requires FirstGridEntry(Sort(m[1..], GridSortKey)) ==
      match BestGridIndex(m[1..])
      case None => None
      case Some(i) => Some(m[1..][i])
    ensures FirstGridEntry(Sort(m, GridSortKey)) ==
      match BestGridIndex(m)
      case None => None
      case Some(i) => Some(m[i])
  {
    var t := Sort(m[1..], GridSortKey);
    SortIsSorted(m[1..], GridSortKey);
    InsertWithGrid(m[0], t);
    var rest := BestGridIndex(m[1..]);
    if rest.Some? {
      NegateReverses(OrderRank(m[0]), OrderRank(m[rest.value + 1]));
    }
  }

  /** SingleSessionComponent.render: the first entry of the configured
      session supplies the position and the time. */
  method RenderSingleSession(key: string, id: string, row: ResultRow) returns (r: Result<ResultComponent>)
    ensures r == RenderSpec(SingleSession(key, id), row)
  {
    var entries := row.sessionEntries;
    var i := 0;
    while i < |entries| && entries[i].sessionApiId != id
      invariant 0 <= i <= |entries|
      invariant forall j :: 0 <= j < i ==> entries[j].sessionApiId != id
    {
      i := i + 1;
    }
    if i == |entries| {
      return Err(ValueError("No session entry found for component session api_id"));
    }
    var e := entries[i];
    var time := if e.sessionType == "R" then e.time else e.fastestLapTime;
    r := Ok(ResultComponent(key, DisplayName(key), e.position, if time.Some? && time.value != 0 then time else None));
  }

  /** GridComponent.render: with more than one matching entry, the entries
      are put in descending order of session order number (stable, missing
      numbers last) and the first grid position found is shown. */
  method RenderGrid(prefix: string, row: ResultRow) returns (component: ResultComponent)
    ensures Ok(component) == RenderSpec(Grid(prefix), row)
  {
    var entries := EntriesWithPrefix(row.sessionEntries, prefix);
    ghost var matching := entries;
    if |entries| > 1 {
      entries := Sort(entries, GridSortKey);
      SortedFirstGridIsBest(matching);
    }
    var i := 0;
    while i < |entries| && entries[i].gridPosition.None?
      invariant 0 <= i <= |entries|
      invariant FirstGridEntry(entries) == FirstGridEntry(entries[i..])
    {
      assert entries[i..][1..] == entries[i + 1..];
      i := i + 1;
    }
    var gridPosition := if i < |entries| then entries[i].gridPosition else None;
    var key := if prefix == "SR" then "SGRID" else "GRID";
    component := ResultComponent(key, DisplayName(key), gridPosition, None);
  }

  /** Renders one component (`render` of either renderer). */
  method Render(c: ComponentRenderer, row: ResultRow) returns (r: Result<ResultComponent>)
    ensures r == RenderSpec(c, row)
  {
    match c
    case SingleSession(key, id) =>
      r := RenderSingleSession(key, id, row);
    case Grid(p) =>
      var component := RenderGrid(p, row);
      r := Ok(component);
  }
}
