/** Result renderers: each picks, per row, the session entry that governs the
    entrant's line (or, for practice over several sessions, none) and builds
    the line and its components. */
module ResultStrategies {
  import opened Prelude
  import opened Schemas
  import opened Loader
  import Component = ComponentStrategies
  import Decimal
  import Constants

  /** The five result renderers with the component renderers they were built
      with. None of them changes after construction. */
  datatype Strategy =
    | RaceResult(sessionTypeStartswith: string, renderers: seq<Component.ComponentRenderer>)
    | KnockoutQualifying(sessionTypeStartswith: string, renderers: seq<Component.ComponentRenderer>)
    | BestLapQualifying(renderers: seq<Component.ComponentRenderer>)
    | AggregateQualifying(renderers: seq<Component.ComponentRenderer>)
    | PracticeResult(numberOfSessions: nat, renderers: seq<Component.ComponentRenderer>)

  /** The keys of a strategy's component renderers, in configured order. */
  function ComponentKeys(s: Strategy): (keys: seq<string>)
    ensures |keys| == |s.renderers|
  {
    seq(|s.renderers|, i requires 0 <= i < |s.renderers| => Component.Key(s.renderers[i]))
  }

  // ---------------------------------------------------------------------
  // Construction
  // ---------------------------------------------------------------------

  /** The sessions whose type starts with `prefix`, in their order. */
  function SessionsWithPrefix(sessions: seq<BasicSession>, prefix: string): (r: seq<BasicSession>)
    ensures |r| <= |sessions|
    ensures forall s :: s in r <==> s in sessions && StartsWith(s.sessionType, prefix)
    decreases |sessions|
  {
    if sessions == [] then []
    else
      assert sessions == [sessions[0]] + sessions[1..];
      (if StartsWith(sessions[0].sessionType, prefix) then [sessions[0]] else []) + SessionsWithPrefix(sessions[1..], prefix)
  }

  /** The sessions whose type is exactly `sessionType`, in their order. */
  function SessionsOfType(sessions: seq<BasicSession>, sessionType: string): (r: seq<BasicSession>)
    ensures |r| <= |sessions|
    ensures forall s :: s in r <==> s in sessions && s.sessionType == sessionType
    decreases |sessions|
  {
    if sessions == [] then []
    else
      assert sessions == [sessions[0]] + sessions[1..];
      (if sessions[0].sessionType == sessionType then [sessions[0]] else []) + SessionsOfType(sessions[1..], sessionType)
  }

  /** The prefix filter keeps session order and multiplicity: filtering a
      concatenation concatenates the filtered parts. */
  lemma {:induction false} SessionsWithPrefixAppend(a: seq<BasicSession>, b: seq<BasicSession>, prefix: string)
    ensures SessionsWithPrefix(a + b, prefix) == SessionsWithPrefix(a, prefix) + SessionsWithPrefix(b, prefix)
    decreases |a|
  {
    if a == [] {
      assert a + b == b;
    } else {
      SessionsWithPrefixAppend(a[1..], b, prefix);
      Loader.AppendDropFirst(a, b);
      var head := if StartsWith(a[0].sessionType, prefix) then [a[0]] else [];
      assert SessionsWithPrefix(a + b, prefix) == head + SessionsWithPrefix(a[1..] + b, prefix);
      assert SessionsWithPrefix(a, prefix) == head + SessionsWithPrefix(a[1..], prefix);
    }
  }

  /** The same for the exact-type filter. */
  lemma {:induction false} SessionsOfTypeAppend(a: seq<BasicSession>, b: seq<BasicSession>, sessionType: string)
    ensures SessionsOfType(a + b, sessionType) == SessionsOfType(a, sessionType) + SessionsOfType(b, sessionType)
    decreases |a|
  {
    if a == [] {
      assert a + b == b;
    } else {
      SessionsOfTypeAppend(a[1..], b, sessionType);
      Loader.AppendDropFirst(a, b);
      var head := if a[0].sessionType == sessionType then [a[0]] else [];
      assert SessionsOfType(a + b, sessionType) == head + SessionsOfType(a[1..] + b, sessionType);
      assert SessionsOfType(a, sessionType) == head + SessionsOfType(a[1..], sessionType);
    }
  }

  /** One single-session component per session, keyed `stem` followed by
      the session's 1-based position in the list. */
  function NumberedComponents(stem: string, sessions: seq<BasicSession>): seq<Component.ComponentRenderer> {
    seq(|sessions|, i requires 0 <= i < |sessions| =>
      Component.SingleSession(stem + Decimal.IntToString(i + 1), sessions[i].id))
  }

  /** RaceResultStrategy's constructor: one grid component, so the prefix
      must be "R" or "SR". */
  function NewRace(prefix: string): (r: Result<Strategy>)
    ensures r.Ok? <==> prefix == "R" || prefix == "SR"
    ensures r.Err? ==> r.error.ValueError?
    ensures r.Ok? ==> r.value.RaceResult? && r.value.sessionTypeStartswith == prefix
    ensures r.Ok? ==> ComponentKeys(r.value) == [if prefix == "SR" then "SGRID" else "GRID"]
  {
    var grid :- Component.NewGrid(prefix);
    Ok(RaceResult(prefix, [grid]))
  }

  /** KnockoutQualifyingStrategy's constructor. */
  function NewKnockout(sessions: seq<BasicSession>, prefix: string): (r: Result<Strategy>)
    ensures r.Ok? <==>
      (prefix == "Q" || prefix == "SQ") && exists s :: s in sessions && StartsWith(s.sessionType, prefix)
    ensures r.Err? ==> r.error.ValueError?
    ensures r.Ok? ==> r.value.KnockoutQualifying? && r.value.sessionTypeStartswith == prefix
  {
    if prefix != "Q" && prefix != "SQ" then
      Err(ValueError("Invalid session type for KnockoutQualifyingStrategy, must start with Q or SQ"))
    else
      var filtered := SessionsWithPrefix(sessions, prefix);
      if |filtered| == 0 then
        Err(ValueError("No sessions found matching session type for KnockoutQualifyingStrategy"))
      else
        assert filtered[0] in sessions;
        Ok(KnockoutQualifying(prefix, NumberedComponents(prefix, filtered)))
  }

  /** BestLapQualifyingStrategy's constructor: sessions of type exactly "QB",
      keyed Q1, Q2, .... */
  function NewBestLap(sessions: seq<BasicSession>): (s: Strategy)
    ensures s.BestLapQualifying?
    ensures var qb := SessionsOfType(sessions, "QB");
      && |s.renderers| == |qb|
      && forall i :: 0 <= i < |qb| ==>
           s.renderers[i].SingleSession? && s.renderers[i].sessionApiId == qb[i].id &&
           Component.Key(s.renderers[i]) == "Q" + Decimal.IntToString(i + 1)
  {
    var sessionsOfType := SessionsOfType(sessions, "QB");
    var renderers := NumberedComponents("Q", sessionsOfType);
    assert forall i :: 0 <= i < |sessionsOfType| ==>
      renderers[i] == Component.SingleSession("Q" + Decimal.IntToString(i + 1), sessionsOfType[i].id);
    BestLapQualifying(renderers)
  }

  /** AggregateQualifyingStrategy's constructor: sessions of type exactly
      "QA", keyed Q1, Q2, .... */
  function NewAggregate(sessions: seq<BasicSession>): (s: Strategy)
    ensures s.AggregateQualifying?
    ensures var qa := SessionsOfType(sessions, "QA");
      && |s.renderers| == |qa|
      && forall i :: 0 <= i < |qa| ==>
           s.renderers[i].SingleSession? && s.renderers[i].sessionApiId == qa[i].id &&
           Component.Key(s.renderers[i]) == "Q" + Decimal.IntToString(i + 1)
  {
    var sessionsOfType := SessionsOfType(sessions, "QA");
    var renderers := NumberedComponents("Q", sessionsOfType);
    assert forall i :: 0 <= i < |sessionsOfType| ==>
      renderers[i] == Component.SingleSession("Q" + Decimal.IntToString(i + 1), sessionsOfType[i].id);
    AggregateQualifying(renderers)
  }

  /** PracticeResultStrategy's constructor: one component per session keyed
      by its type, and none at all when there is only one session. */
  function NewPractice(sessions: seq<BasicSession>, prefix: string): (s: Strategy)
    ensures s.PracticeResult? && s.numberOfSessions == |sessions|
    ensures |sessions| == 1 ==> s.renderers == []
    ensures |sessions| != 1 ==> ComponentKeys(s) == seq(|sessions|, i requires 0 <= i < |sessions| => sessions[i].sessionType)
    ensures |sessions| != 1 ==> |s.renderers| == |sessions| && forall i :: 0 <= i < |sessions| ==>
      s.renderers[i] == Component.SingleSession(sessions[i].sessionType, sessions[i].id)
  {
    var renderers := seq(|sessions|, i requires 0 <= i < |sessions| =>
      Component.SingleSession(sessions[i].sessionType, sessions[i].id));
    PracticeResult(|sessions|, if |sessions| == 1 then [] else renderers)
  }

  lemma NumberedKeyHasDisplayName(prefix: string, n: int)
    requires prefix == "Q" || prefix == "SQ"
    requires 1 <= n <= 3
    ensures prefix + Decimal.IntToString(n) in Constants.ComponentDisplayNames
  {
    Constants.DisplayNameKeys();
    var key := prefix + Decimal.IntToString(n);
    var digit := Decimal.IntToString(n)[0];
    assert Decimal.IntToString(n) == [digit];
    var names := if prefix == "Q" then ["Q1", "Q2", "Q3"] else ["SQ1", "SQ2", "SQ3"];
    assert key == names[n - 1];
  }

  /** The knockout components are numbered prefix+"1" to prefix+"n" over the
      n sessions of the prefix, in session order. */
  lemma KnockoutComponentKeys(sessions: seq<BasicSession>, prefix: string)
    requires NewKnockout(sessions, prefix).Ok?
    ensures var keys := ComponentKeys(NewKnockout(sessions, prefix).value);
      && |keys| == |SessionsWithPrefix(sessions, prefix)| >= 1
      && forall i :: 0 <= i < |keys| ==> keys[i] == prefix + Decimal.IntToString(i + 1)
    ensures var f := SessionsWithPrefix(sessions, prefix);
      var rs := NewKnockout(sessions, prefix).value.renderers;
      forall i :: 0 <= i < |f| ==> rs[i] == Component.SingleSession(prefix + Decimal.IntToString(i + 1), f[i].id)
  {
    var filtered := SessionsWithPrefix(sessions, prefix);
    var s := NewKnockout(sessions, prefix).value;
    assert s.renderers == NumberedComponents(prefix, filtered);
    forall i | 0 <= i < |filtered|
      ensures s.renderers[i] == Component.SingleSession(prefix + Decimal.IntToString(i + 1), filtered[i].id)
    {
    }
    var keys := ComponentKeys(s);
    forall i | 0 <= i < |keys| ensures keys[i] == prefix + Decimal.IntToString(i + 1) {
      assert keys[i] == Component.Key(s.renderers[i]);
    }
  }

  /** With at most three knockout sessions every component key has its own
      display name. */
  lemma KnockoutKeysNamed(sessions: seq<BasicSession>, prefix: string)
    requires NewKnockout(sessions, prefix).Ok?
    requires |SessionsWithPrefix(sessions, prefix)| <= 3
    ensures var keys := ComponentKeys(NewKnockout(sessions, prefix).value);
      forall i :: 0 <= i < |keys| ==> keys[i] in Constants.ComponentDisplayNames
  {
    KnockoutComponentKeys(sessions, prefix);
    var keys := ComponentKeys(NewKnockout(sessions, prefix).value);
    forall i | 0 <= i < |keys| ensures keys[i] in Constants.ComponentDisplayNames {
      NumberedKeyHasDisplayName(prefix, i + 1);
    }
  }

  // ---------------------------------------------------------------------
  // Components of a line
  // ---------------------------------------------------------------------

  /** What `_render_components` returns: the renderers are visited in order,
      those that should render are rendered, and each component is stored
      under its key, a later one replacing an earlier one with the same key. */
  function ComponentsSpec(rs: seq<Component.ComponentRenderer>, row: ResultRow): (r: Result<map<string, ResultComponent>>)
    ensures r.Ok?
    decreases |rs|
  {
    if rs == [] then Ok(map[])
    else
      var m := ComponentsSpec(rs[..|rs| - 1], row).value;
      var c := rs[|rs| - 1];
      if !Component.ShouldRender(c, row) then Ok(m)
      else
        Component.ShouldRenderRenders(c, row);
        var component := Component.RenderSpec(c, row).value;
        Ok(m[component.key := component])
  }

  /** Renderer `j` is the last renderer that should render and has key `k`. */
  ghost predicate IsLastWithKey(rs: seq<Component.ComponentRenderer>, row: ResultRow, k: string, j: int) {
    && 0 <= j < |rs|
    && Component.ShouldRender(rs[j], row)
    && Component.Key(rs[j]) == k
    && forall j' :: j < j' < |rs| && Component.ShouldRender(rs[j'], row) ==> Component.Key(rs[j']) != k
  }

  /** One step of `_render_components`: the map after the last renderer is
      the map before it, plus that renderer's component when it should
      render, stored under the renderer's key. */
  lemma ComponentsStep(rs: seq<Component.ComponentRenderer>, row: ResultRow)
    requires rs != []
    ensures var m := ComponentsSpec(rs[..|rs| - 1], row).value;
      var c := rs[|rs| - 1];
      ComponentsSpec(rs, row).value ==
        if Component.ShouldRender(c, row) then m[Component.Key(c) := Component.RenderSpec(c, row).value] else m
  {
    Component.RenderAgreesWithShouldRender(rs[|rs| - 1], row);
  }

  /** The keys of the components are exactly the keys of the renderers that
      should render. */
  lemma ComponentsKeys(rs: seq<Component.ComponentRenderer>, row: ResultRow)
    ensures forall k :: k in ComponentsSpec(rs, row).value <==>
      exists i :: 0 <= i < |rs| && Component.ShouldRender(rs[i], row) && Component.Key(rs[i]) == k
  {
    forall k {
      ComponentKey(rs, row, k);
    }
  }

  lemma {:induction false} ComponentKey(rs: seq<Component.ComponentRenderer>, row: ResultRow, k: string)
    ensures k in ComponentsSpec(rs, row).value <==>
      exists i :: 0 <= i < |rs| && Component.ShouldRender(rs[i], row) && Component.Key(rs[i]) == k
    decreases |rs|
  {
    if rs != [] {
      var n := |rs| - 1;
      var init := rs[..n];
      ComponentKey(init, row, k);
      ComponentsStep(rs, row);
      if k in ComponentsSpec(rs, row).value && !(Component.ShouldRender(rs[n], row) && Component.Key(rs[n]) == k) {
        var i :| 0 <= i < n && Component.ShouldRender(init[i], row) && Component.Key(init[i]) == k;
        assert rs[i] == init[i];
      }
      if exists i :: 0 <= i < |rs| && Component.ShouldRender(rs[i], row) && Component.Key(rs[i]) == k {
        var i :| 0 <= i < |rs| && Component.ShouldRender(rs[i], row) && Component.Key(rs[i]) == k;
        if i < n {
          assert init[i] == rs[i];
        }
      }
    }
  }

  lemma LastWithKeyExtends(rs: seq<Component.ComponentRenderer>, row: ResultRow, k: string, j: int)
    requires rs != [] && IsLastWithKey(rs[..|rs| - 1], row, k, j)
    requires !(Component.ShouldRender(rs[|rs| - 1], row) && Component.Key(rs[|rs| - 1]) == k)
    ensures IsLastWithKey(rs, row, k, j) && rs[j] == rs[..|rs| - 1][j]
  {
    var init := rs[..|rs| - 1];
    forall j' | j < j' < |rs| && Component.ShouldRender(rs[j'], row)
      ensures Component.Key(rs[j']) != k
    {
      if j' < |rs| - 1 {
        assert rs[j'] == init[j'];
      }
    }
  }

  /** Each key holds what the last renderer with that key that should render
      produced: a later component replaces an earlier one. */
  lemma {:induction false} ComponentsValues(rs: seq<Component.ComponentRenderer>, row: ResultRow)
    ensures forall k :: k in ComponentsSpec(rs, row).value ==>
      exists j :: IsLastWithKey(rs, row, k, j) && Component.RenderSpec(rs[j], row) == Ok(ComponentsSpec(rs, row).value[k])
    decreases |rs|
  {
    if rs != [] {
      var n := |rs| - 1;
      var init := rs[..n];
      ComponentsValues(init, row);
      ComponentsStep(rs, row);
      Component.RenderAgreesWithShouldRender(rs[n], row);
      var m := ComponentsSpec(init, row).value;
      var r := ComponentsSpec(rs, row).value;
      forall k | k in r
        ensures exists j :: IsLastWithKey(rs, row, k, j) && Component.RenderSpec(rs[j], row) == Ok(r[k])
      {
        if Component.ShouldRender(rs[n], row) && k == Component.Key(rs[n]) {
          assert IsLastWithKey(rs, row, k, n);
        } else {
          assert k in m && r[k] == m[k];
          var j :| IsLastWithKey(init, row, k, j) && Component.RenderSpec(init[j], row) == Ok(m[k]);
          LastWithKeyExtends(rs, row, k, j);
        }
      }
    }
  }

  /** `_render_components`. */
  method RenderComponents(rs: seq<Component.ComponentRenderer>, row: ResultRow) returns (components: map<string, ResultComponent>)
    ensures Ok(components) == ComponentsSpec(rs, row)
  {
    components := map[];
    var i := 0;
    while i < |rs|
      invariant 0 <= i <= |rs|
      invariant ComponentsSpec(rs[..i], row) == Ok(components)
    {
      assert rs[..i + 1][..i] == rs[..i];
      if Component.ShouldRender(rs[i], row) {
        var component := Component.Render(rs[i], row);
        Component.RenderAgreesWithShouldRender(rs[i], row);
        components := components[component.value.key := component.value];
      }
      i := i + 1;
    }
    assert rs[..i] == rs;
  }

  // ---------------------------------------------------------------------
  // Building a line from the governing entry
  // ---------------------------------------------------------------------

  /** The position text: "NC" for an entry explicitly not classified,
      otherwise the decimal numeral of its position, otherwise empty. */
  function PositionText(e: SessionEntry): (t: string)
    ensures t == "NC" <==> e.isClassified == Some(false)
    ensures e.isClassified != Some(false) && e.position.Some? ==>
      && |t| >= 1
      && (forall i :: 1 <= i < |t| ==> Decimal.IsDigit(t[i]))
      && (t[0] != '-' ==> Decimal.IsDigit(t[0]))
      && Decimal.ParseInt(t) == e.position.value
    ensures e.isClassified != Some(false) && e.position.Some? ==> t == Decimal.IntToString(e.position.value)
    ensures e.isClassified != Some(false) && e.position.None? ==> t == ""
  {
    if e.isClassified == Some(false) then "NC"
    else if e.position.Some? then
      Decimal.NumeralIsNotNC(e.position.value);
      Decimal.IntRoundTrip(e.position.value);
      Decimal.IntToString(e.position.value)
    else ""
  }

  /** The points shown: the entry's points when it is eligible for points. */
  function AwardedPoints(e: SessionEntry): (p: Option<Points>)
    ensures p.Some? ==> e.isEligibleForPoints == Some(true) && p == e.points
    ensures e.isEligibleForPoints == Some(true) ==> p == e.points
  {
    if e.isEligibleForPoints == Some(true) then e.points else None
  }

  /** `_get_result_item_for_session` once the components are rendered: the
      line shows the given time; position, classification, status and laps
      come from the entry; car number, driver and team from the row. */
  function ItemForSession(time: Option<Duration>, row: ResultRow, e: SessionEntry,
                          components: map<string, ResultComponent>): (item: ResultItem)
    ensures item.positionText == Some(PositionText(e))
    ensures item.points == AwardedPoints(e)
    ensures item.time.Some? <==> time.Some? && time.value != 0
    ensures item.time.Some? ==> item.time == time
    ensures item.position == e.position && item.isClassified == e.isClassified
    ensures item.status == e.status && item.laps == e.lapsCompleted
    ensures item.carNumber == row.carNumber && item.driver == row.driver && item.team == row.team
    ensures item.components == components
  {
    ResultItem(
      driver := row.driver,
      team := row.team,
      position := e.position,
      positionText := Some(PositionText(e)),
      time := Component.DisplayedTime(time),
      isClassified := e.isClassified,
      status := e.status,
      points := AwardedPoints(e),
      laps := e.lapsCompleted,
      carNumber := row.carNumber,
      components := components)
  }

  // ---------------------------------------------------------------------
  // Race
  // ---------------------------------------------------------------------

  /** The race entry of a row: none, the only one, or a ValueError when more
      than one entry matches the race prefix. */
  function RaceEntrySpec(prefix: string, entries: seq<SessionEntry>): Result<Option<SessionEntry>> {
    var m := EntriesWithPrefix(entries, prefix);
    if |m| == 0 then Ok(None)
    else if |m| == 1 then Ok(Some(m[0]))
    else Err(ValueError("Multiple session entries matching race session type found"))
  }

  /** No entry of the prefix exactly when the filtered list is empty. */
  lemma NoPrefixMatch(entries: seq<SessionEntry>, prefix: string)
    ensures |EntriesWithPrefix(entries, prefix)| == 0 <==>
      forall i :: 0 <= i < |entries| ==> !StartsWith(entries[i].sessionType, prefix)
  {
    var m := EntriesWithPrefix(entries, prefix);
    if |m| > 0 {
      assert m[0] in m;
    }
    if exists i :: 0 <= i < |entries| && StartsWith(entries[i].sessionType, prefix) {
      var i :| 0 <= i < |entries| && StartsWith(entries[i].sessionType, prefix);
      assert entries[i] in m;
    }
  }

  /** A filtered list of one element names the only entry of the prefix. */
  lemma {:induction false} OnePrefixMatch(entries: seq<SessionEntry>, prefix: string)
    requires |EntriesWithPrefix(entries, prefix)| == 1
    ensures exists i ::
      && 0 <= i < |entries|
      && entries[i] == EntriesWithPrefix(entries, prefix)[0]
      && StartsWith(entries[i].sessionType, prefix)
      && forall j :: 0 <= j < |entries| && j != i ==> !StartsWith(entries[j].sessionType, prefix)
    decreases |entries|
  {
    var n := |entries| - 1;
    var init := entries[..n];
    var m := EntriesWithPrefix(entries, prefix);
    assert forall i :: 0 <= i < n ==> init[i] == entries[i];
    if StartsWith(entries[n].sessionType, prefix) {
      assert |EntriesWithPrefix(init, prefix)| == 0;
      NoPrefixMatch(init, prefix);
      assert m[0] == entries[n];
    } else {
      assert m == EntriesWithPrefix(init, prefix);
      OnePrefixMatch(init, prefix);
    }
  }

  /** A filtered list of two or more elements comes from two entries of the
      prefix. */
  lemma {:induction false} TwoPrefixMatches(entries: seq<SessionEntry>, prefix: string)
    requires |EntriesWithPrefix(entries, prefix)| >= 2
    ensures exists i, j ::
      && 0 <= i < j < |entries|
      && StartsWith(entries[i].sessionType, prefix)
      && StartsWith(entries[j].sessionType, prefix)
    decreases |entries|
  {
    var n := |entries| - 1;
    var init := entries[..n];
    var mi := EntriesWithPrefix(init, prefix);
    assert forall i :: 0 <= i < n ==> init[i] == entries[i];
    if StartsWith(entries[n].sessionType, prefix) {
      assert mi[0] in mi;
      var i :| 0 <= i < n && init[i] == mi[0];
      assert StartsWith(entries[i].sessionType, prefix);
    } else {
      assert EntriesWithPrefix(entries, prefix) == mi;
      TwoPrefixMatches(init, prefix);
    }
  }

  /** A race line exists for a row with exactly one entry of the race
      prefix, is skipped for a row with none, and two or more are an error. */
  lemma RaceEntryCharacterized(prefix: string, entries: seq<SessionEntry>)
    ensures RaceEntrySpec(prefix, entries) == Ok(None) <==>
      forall i :: 0 <= i < |entries| ==> !StartsWith(entries[i].sessionType, prefix)
    ensures RaceEntrySpec(prefix, entries).Err? <==>
      exists i, j :: 0 <= i < j < |entries| &&
        StartsWith(entries[i].sessionType, prefix) && StartsWith(entries[j].sessionType, prefix)
    ensures RaceEntrySpec(prefix, entries).Err? ==> RaceEntrySpec(prefix, entries).error.ValueError?
    ensures RaceEntrySpec(prefix, entries).Ok? && RaceEntrySpec(prefix, entries).value.Some? ==>
      exists i :: 0 <= i < |entries| && entries[i] == RaceEntrySpec(prefix, entries).value.value &&
        StartsWith(entries[i].sessionType, prefix) &&
        forall j :: 0 <= j < |entries| && j != i ==> !StartsWith(entries[j].sessionType, prefix)
  {
    var m := EntriesWithPrefix(entries, prefix);
    NoPrefixMatch(entries, prefix);
    if |m| == 1 {
      OnePrefixMatch(entries, prefix);
    } else if |m| >= 2 {
      TwoPrefixMatches(entries, prefix);
    }
  }

  /** Scanning further never loses a match. */
  lemma {:induction false} MatchesGrow(entries: seq<SessionEntry>, n: nat, prefix: string)
    requires n <= |entries|
    ensures |EntriesWithPrefix(entries[..n], prefix)| <= |EntriesWithPrefix(entries, prefix)|
    decreases |entries| - n
  {
    if n < |entries| {
      var init := entries[..|entries| - 1];
      assert init[..n] == entries[..n];
      MatchesGrow(init, n, prefix);
    } else {
      assert entries[..n] == entries;
    }
  }

  /** `_get_race_session_entry`: scans the entries and raises on the second
      match. */
  method RaceEntry(prefix: string, entries: seq<SessionEntry>) returns (r: Result<Option<SessionEntry>>)
    ensures r == RaceEntrySpec(prefix, entries)
  {
    var raceEntry: Option<SessionEntry> := None;
    var i := 0;
    while i < |entries|
      invariant 0 <= i <= |entries|
      invariant |EntriesWithPrefix(entries[..i], prefix)| <= 1
      invariant raceEntry == RaceEntrySpec(prefix, entries[..i]).value
    {
      assert entries[..i + 1][..i] == entries[..i];
      var se := entries[i];
      if StartsWith(se.sessionType, prefix) {
        if raceEntry.None? {
          raceEntry := Some(se);
        } else {
          assert |EntriesWithPrefix(entries[..i + 1], prefix)| == 2;
          MatchesGrow(entries, i + 1, prefix);
          return Err(ValueError("Multiple session entries matching race session type found"));
        }
      }
      i := i + 1;
    }
    assert entries[..i] == entries;
    r := Ok(raceEntry);
  }

  // ---------------------------------------------------------------------
  // Knockout qualifying
  // ---------------------------------------------------------------------

  /** An entry of a knockout segment that took place: its type starts with the
      prefix and it has a session order number. */
  predicate KnockoutCandidate(prefix: string, e: SessionEntry) {
    StartsWith(e.sessionType, prefix) && e.sessionOrderNumber.Some?
  }

  /** Entry `i` governs the knockout line: the furthest segment reached (the
      greatest order number), the first such entry on a tie. */
  ghost predicate IsKnockoutBest(prefix: string, s: seq<SessionEntry>, i: int) {
    && 0 <= i < |s|
    && KnockoutCandidate(prefix, s[i])
    && forall j :: 0 <= j < |s| && KnockoutCandidate(prefix, s[j]) ==>
         s[j].sessionOrderNumber.value <= s[i].sessionOrderNumber.value &&
         (j < i ==> s[j].sessionOrderNumber.value < s[i].sessionOrderNumber.value)
  }

  /** The index of the entry that governs the knockout line. */
  function KnockoutBestIndex(prefix: string, s: seq<SessionEntry>): (r: Option<nat>)
    ensures r.Some? ==> IsKnockoutBest(prefix, s, r.value)
    ensures r.None? <==> forall j :: 0 <= j < |s| ==> !KnockoutCandidate(prefix, s[j])
    decreases |s|
  {
    if s == [] then None
    else
      var n := |s| - 1;
      var init := s[..n];
      var best := KnockoutBestIndex(prefix, init);
      assert forall j :: 0 <= j < n ==> init[j] == s[j];
      if !KnockoutCandidate(prefix, s[n]) then best
      else if best.None? then Some(n)
      else if s[n].sessionOrderNumber.value > s[best.value].sessionOrderNumber.value then Some(n)
      else best
  }

  /** `_get_best_knockout_session_entry`. */
  method BestKnockoutEntry(prefix: string, entries: seq<SessionEntry>) returns (best: Option<SessionEntry>)
    ensures best == match KnockoutBestIndex(prefix, entries)
                    case None => None
                    case Some(i) => Some(entries[i])
  {
    best := None;
    var i := 0;
    while i < |entries|
      invariant 0 <= i <= |entries|
      invariant best == match KnockoutBestIndex(prefix, entries[..i])
                         case None => None
                         case Some(k) => Some(entries[k])
    {
      assert entries[..i + 1][..i] == entries[..i];
      var se := entries[i];
      if StartsWith(se.sessionType, prefix) && se.sessionOrderNumber.Some? {
        if best.None? {
          best := Some(se);
        } else {
          // Python's `best.session_order_number or 0`
          var bestNumber := if best.value.sessionOrderNumber.Some? && best.value.sessionOrderNumber.value != 0
                            then best.value.sessionOrderNumber.value else 0;
          if se.sessionOrderNumber.value > bestNumber {
            best := Some(se);
          }
        }
      }
      i := i + 1;
    }
    assert entries[..i] == entries;
  }

  // ---------------------------------------------------------------------
  // Aggregate qualifying
  // ---------------------------------------------------------------------

  /** The sum of the recorded fastest laps, missing laps counting nothing. */
  function LapTotal(m: seq<SessionEntry>): int
    decreases |m|
  {
    if m == [] then 0
    else
      var last := m[|m| - 1];
      LapTotal(m[..|m| - 1]) + (if last.fastestLapTime.Some? then last.fastestLapTime.value else 0)
  }

  lemma {:induction false} NoLapsTotalZero(m: seq<SessionEntry>)
    requires forall i :: 0 <= i < |m| ==> m[i].fastestLapTime.None?
    ensures LapTotal(m) == 0
    decreases |m|
  {
    if m != [] {
      NoLapsTotalZero(m[..|m| - 1]);
    }
  }

  /** The aggregate lap time: none when no fastest lap is recorded, otherwise
      the sum of the recorded ones. */
  function SumOfLaps(m: seq<SessionEntry>): (r: Option<Duration>)
    ensures r.None? <==> forall i :: 0 <= i < |m| ==> m[i].fastestLapTime.None?
    ensures r.Some? ==> r.value == LapTotal(m)
    decreases |m|
  {
    if m == [] then None
    else
      var init := m[..|m| - 1];
      var last := m[|m| - 1];
      var sum := SumOfLaps(init);
      assert forall i :: 0 <= i < |init| ==> init[i] == m[i];
      if last.fastestLapTime.None? then sum
      else if sum.None? then
        NoLapsTotalZero(init);
        last.fastestLapTime
      else Some(sum.value + last.fastestLapTime.value)
  }

  /** Every aggregate entry reports the first entry's position. */
  predicate SamePositions(m: seq<SessionEntry>) {
    forall i :: 0 <= i < |m| ==> m[i].position == m[0].position
  }

  /** The recorded laps of consecutive groups of sessions add up. */
  lemma {:induction false} LapTotalAppend(a: seq<SessionEntry>, b: seq<SessionEntry>)
    ensures LapTotal(a + b) == LapTotal(a) + LapTotal(b)
    decreases |b|
  {
    if b == [] {
      assert a + b == a;
    } else {
      var n := |b| - 1;
      LapTotalAppend(a, b[..n]);
      Loader.AppendDropLast(a, b);
    }
  }

  /** The aggregate time does not depend on how the sessions are grouped:
      the aggregate of two consecutive groups is the sum of their
      aggregates, a group without any recorded lap contributing nothing. */
  lemma SumOfLapsAppend(a: seq<SessionEntry>, b: seq<SessionEntry>)
    ensures SumOfLaps(a + b) ==
      if SumOfLaps(a).None? then SumOfLaps(b)
      else if SumOfLaps(b).None? then SumOfLaps(a)
      else Some(SumOfLaps(a).value + SumOfLaps(b).value)
  {
    SumOfLapsAppendNone(a, b);
    LapTotalAppend(a, b);
    LapTotalOfSum(a);
    LapTotalOfSum(b);
  }

  /** The total counts the aggregate, or nothing when there is none. */
  lemma LapTotalOfSum(m: seq<SessionEntry>)
    ensures LapTotal(m) == if SumOfLaps(m).Some? then SumOfLaps(m).value else 0
  {
    if SumOfLaps(m).None? {
      NoLapsTotalZero(m);
    }
  }

  lemma SumOfLapsAppendNone(a: seq<SessionEntry>, b: seq<SessionEntry>)
    ensures SumOfLaps(a + b).None? <==> SumOfLaps(a).None? && SumOfLaps(b).None?
  {
    NoLapsAppend(a, b);
    assert SumOfLaps(a).None? == NoLaps(a);
    assert SumOfLaps(b).None? == NoLaps(b);
    assert SumOfLaps(a + b).None? == NoLaps(a + b);
  }

  /** No entry has a recorded fastest lap. */
  predicate NoLaps(m: seq<SessionEntry>) {
    forall k :: 0 <= k < |m| ==> m[k].fastestLapTime.None?
  }

  /** A concatenation has no recorded lap exactly when neither part has. */
  lemma NoLapsAppend(a: seq<SessionEntry>, b: seq<SessionEntry>)
    ensures NoLaps(a + b) <==> NoLaps(a) && NoLaps(b)
  {
    var ab := a + b;
    if NoLaps(ab) {
      forall k | 0 <= k < |a|
        ensures a[k].fastestLapTime.None?
      {
        assert ab[k] == a[k];
      }
      forall k | 0 <= k < |b|
        ensures b[k].fastestLapTime.None?
      {
        assert ab[|a| + k] == b[k];
      }
    }
    if NoLaps(a) && NoLaps(b) {
      forall k | 0 <= k < |ab|
        ensures ab[k].fastestLapTime.None?
      {
        if k < |a| {
          assert ab[k] == a[k];
        } else {
          assert ab[k] == b[k - |a|];
        }
      }
    }
  }

  // ---------------------------------------------------------------------
  // The strategies
  // ---------------------------------------------------------------------

  /** What a strategy's `should_render` returns or raises for a row. */
  function ShouldRenderSpec(s: Strategy, row: ResultRow): Result<bool> {
    var entries := row.sessionEntries;
    match s
    case RaceResult(p, _) =>
      var e :- RaceEntrySpec(p, entries);
      Ok(e.Some?)
    case KnockoutQualifying(p, _) => Ok(KnockoutBestIndex(p, entries).Some?)
    case BestLapQualifying(_) => Ok(|EntriesWithPrefix(entries, "QB")| > 0)
    case AggregateQualifying(_) => Ok(|EntriesWithPrefix(entries, "QA")| > 0)
    case PracticeResult(_, _) => Ok(true)
  }

  /** The line of a practice row that has no single governing entry: only the
      components, everything else `None`. */
  function ComponentsOnlyItem(row: ResultRow, components: map<string, ResultComponent>): ResultItem {
    ResultItem(row.driver, row.team, None, None, None, None, None, None, None, row.carNumber, components)
  }

  /** What a strategy's `render` returns or raises for a row; a line carries
      exactly the components its strategy's renderers produce for the row. */
  function RenderSpec(s: Strategy, row: ResultRow): (r: Result<ResultItem>)
    ensures r.Ok? ==> r.value.components == ComponentsSpec(s.renderers, row).value
  {
    var entries := row.sessionEntries;
    match s
    case RaceResult(p, rs) =>
      var e :- RaceEntrySpec(p, entries);
      if e.None? then Err(ValueError("No valid session entry found for rendering result"))
      else
        var components := ComponentsSpec(rs, row).value;
        Ok(ItemForSession(e.value.time, row, e.value, components))
    case KnockoutQualifying(p, rs) =>
      (match KnockoutBestIndex(p, entries)
       case None => Err(ValueError("No valid session entry found for rendering result"))
       case Some(i) =>
         var components := ComponentsSpec(rs, row).value;
         Ok(ItemForSession(entries[i].fastestLapTime, row, entries[i], components)))
    case BestLapQualifying(rs) =>
      var m := EntriesWithPrefix(entries, "QB");
      if |m| > 1 then Err(NotImplementedError("Multiple session entries matching best lap qualifying session type found"))
      else if |m| == 0 then Err(IndexError)
      else
        var components := ComponentsSpec(rs, row).value;
        Ok(ItemForSession(m[0].fastestLapTime, row, m[0], components))
    case AggregateQualifying(rs) =>
      var m := EntriesWithPrefix(entries, "QA");
      if |m| == 0 then Err(IndexError)
      else if !SamePositions(m) then
        Err(NotImplementedError("data error: multiple entries with different positions for aggregate qualifying"))
      else
        var components := ComponentsSpec(rs, row).value;
        Ok(ItemForSession(SumOfLaps(m), row, m[0], components))
    case PracticeResult(n, rs) =>
      var components := ComponentsSpec(rs, row).value;
      if n == 1 && |entries| > 0 then Ok(ItemForSession(entries[0].time, row, entries[0], components))
      else Ok(ComponentsOnlyItem(row, components))
  }

  /** Once `should_render` holds, `render` fails only on the two data errors
      the source does not support: several best-lap entries, or aggregate
      entries that disagree on the position. */
  lemma RenderAfterShouldRender(s: Strategy, row: ResultRow)
    requires ShouldRenderSpec(s, row) == Ok(true)
    ensures RenderSpec(s, row).Err? <==>
      || (s.BestLapQualifying? && |EntriesWithPrefix(row.sessionEntries, "QB")| > 1)
      || (s.AggregateQualifying? && !SamePositions(EntriesWithPrefix(row.sessionEntries, "QA")))
    ensures RenderSpec(s, row).Err? ==> RenderSpec(s, row).error.NotImplementedError?
  {
  }

  /** Every component of a line is keyed by one of the strategy's component
      keys. */
  lemma LineKeysListed(s: Strategy, row: ResultRow)
    requires RenderSpec(s, row).Ok?
    ensures forall key :: key in RenderSpec(s, row).value.components ==> key in ComponentKeys(s)
  {
    ComponentsKeys(s.renderers, row);
    var keys := ComponentKeys(s);
    forall key | key in RenderSpec(s, row).value.components
      ensures key in keys
    {
      var j :| 0 <= j < |s.renderers| && Component.ShouldRender(s.renderers[j], row) && Component.Key(s.renderers[j]) == key;
      assert keys[j] == key;
    }
  }

  /** `should_render` of each strategy. */
  method ShouldRender(s: Strategy, row: ResultRow) returns (r: Result<bool>)
    ensures r == ShouldRenderSpec(s, row)
  {
    var entries := row.sessionEntries;
    match s
    case RaceResult(p, _) =>
      var e := RaceEntry(p, entries);
      if e.Err? {
        r := Err(e.error);
      } else {
        r := Ok(e.value.Some?);
      }
    case KnockoutQualifying(p, _) =>
      var best := BestKnockoutEntry(p, entries);
      r := Ok(best.Some?);
    case BestLapQualifying(_) =>
      r := Ok(|EntriesWithPrefix(entries, "QB")| > 0);
    case AggregateQualifying(_) =>
      r := Ok(|EntriesWithPrefix(entries, "QA")| > 0);
    case PracticeResult(_, _) =>
      r := Ok(true);
  }

  /** The lap-time loop of AggregateQualifyingStrategy.render: starts from
      the first entry's lap and adds every later recorded lap. */
  method AggregateLapTime(entries: seq<SessionEntry>) returns (lapTime: Option<Duration>)
    requires |entries| > 0
    ensures lapTime == SumOfLaps(entries)
  {
    lapTime := entries[0].fastestLapTime;
    var i := 1;
    assert entries[..1][..0] == [];
    while i < |entries|
      invariant 1 <= i <= |entries|
      invariant lapTime == SumOfLaps(entries[..i])
    {
      assert entries[..i + 1][..i] == entries[..i];
      var lap := entries[i].fastestLapTime;
      if lap.Some? {
        if lapTime.None? {
          lapTime := lap;
        } else {
          lapTime := Some(lapTime.value + lap.value);
        }
      }
      i := i + 1;
    }
    assert entries[..i] == entries;
  }

  /** The position check of AggregateQualifyingStrategy.render: whether every
      later entry reports the first entry's position. */
  method PositionsAgree(entries: seq<SessionEntry>) returns (agree: bool)
    requires |entries| > 0
    ensures agree == SamePositions(entries)
  {
    var i := 1;
    while i < |entries|
      invariant 1 <= i <= |entries|
      invariant forall j :: 0 <= j < i ==> entries[j].position == entries[0].position
    {
      if entries[i].position != entries[0].position {
        return false;
      }
      i := i + 1;
    }
    return true;
  }

  /** AggregateQualifyingStrategy.render: sums the fastest laps, then checks
      that all entries agree on the position. */
  method RenderAggregate(rs: seq<Component.ComponentRenderer>, row: ResultRow) returns (r: Result<ResultItem>)
    ensures r == RenderSpec(AggregateQualifying(rs), row)
  {
    var entries := EntriesWithPrefix(row.sessionEntries, "QA");
    if |entries| == 0 {
      return Err(IndexError);
    }
    var lapTime := AggregateLapTime(entries);
    var agree := PositionsAgree(entries);
    if !agree {
      return Err(NotImplementedError("data error: multiple entries with different positions for aggregate qualifying"));
    }
    var components := RenderComponents(rs, row);
    r := Ok(ItemForSession(lapTime, row, entries[0], components));
  }

  /** RaceResultStrategy.render: the unique race entry's line. */
  method RenderRace(p: string, rs: seq<Component.ComponentRenderer>, row: ResultRow) returns (r: Result<ResultItem>)
    ensures r == RenderSpec(RaceResult(p, rs), row)
  {
    var e := RaceEntry(p, row.sessionEntries);
    if e.Err? {
      return Err(e.error);
    }
    if e.value.None? {
      return Err(ValueError("No valid session entry found for rendering result"));
    }
    var components := RenderComponents(rs, row);
    r := Ok(ItemForSession(e.value.value.time, row, e.value.value, components));
  }

  /** KnockoutQualifyingStrategy.render: the line of the furthest segment
      reached, with its fastest lap. */
  method RenderKnockout(p: string, rs: seq<Component.ComponentRenderer>, row: ResultRow) returns (r: Result<ResultItem>)
    ensures r == RenderSpec(KnockoutQualifying(p, rs), row)
  {
    var best := BestKnockoutEntry(p, row.sessionEntries);
    if best.None? {
      return Err(ValueError("No valid session entry found for rendering result"));
    }
    var components := RenderComponents(rs, row);
    r := Ok(ItemForSession(best.value.fastestLapTime, row, best.value, components));
  }

  /** BestLapQualifyingStrategy.render: the line of the single "QB" entry. */
  method RenderBestLap(rs: seq<Component.ComponentRenderer>, row: ResultRow) returns (r: Result<ResultItem>)
    ensures r == RenderSpec(BestLapQualifying(rs), row)
  {
    var m := EntriesWithPrefix(row.sessionEntries, "QB");
    if |m| > 1 {
      return Err(NotImplementedError("Multiple session entries matching best lap qualifying session type found"));
    }
    if |m| == 0 {
      return Err(IndexError);
    }
    var components := RenderComponents(rs, row);
    r := Ok(ItemForSession(m[0].fastestLapTime, row, m[0], components));
  }

  /** PracticeResultStrategy.render: the only session's line, or the
      components alone. */
  method RenderPractice(n: nat, rs: seq<Component.ComponentRenderer>, row: ResultRow) returns (r: Result<ResultItem>)
    ensures r == RenderSpec(PracticeResult(n, rs), row)
  {
    var entries := row.sessionEntries;
    if n == 1 && |entries| > 0 {
      var components := RenderComponents(rs, row);
      r := Ok(ItemForSession(entries[0].time, row, entries[0], components));
    } else {
      var components := RenderComponents(rs, row);
      r := Ok(ComponentsOnlyItem(row, components));
    }
  }

  /** `render` of each strategy. */
  method Render(s: Strategy, row: ResultRow) returns (r: Result<ResultItem>)
    ensures r == RenderSpec(s, row)
  {
    match s {
      case RaceResult(p, rs) => r := RenderRace(p, rs, row);
      case KnockoutQualifying(p, rs) => r := RenderKnockout(p, rs, row);
      case BestLapQualifying(rs) => r := RenderBestLap(rs, row);
      case AggregateQualifying(rs) => r := RenderAggregate(rs, row);
      case PracticeResult(n, rs) => r := RenderPractice(n, rs, row);
    }
  }
}
