/** The results endpoint: which result-type codes a round offers, and how
    a request for one of them becomes a response. */
module ResultsView {
  import opened Prelude
  import opened Schemas
  import opened Loader
  import Orchestrator
  import Constants

  /** The codes every round offers. */
  const AlwaysOffered: seq<string> := ["R", "Q"]

  /** The codes a round offers when one of its session types starts with
      them, in the order they are appended. */
  const Candidates: seq<string> := ["SQ", "SR", "FP", "FP1", "FP2", "FP3"]

  /** Every code the endpoint can offer, in the order it lists them. */
  const AllCodes: seq<string> := AlwaysOffered + Candidates

  /** The place of a code in `AllCodes`; 8 for any other text. */
  function Rank(code: string): (n: nat)
    ensures n <= 8
    ensures n < 8 ==> AllCodes[n] == code
    ensures code in AllCodes ==> n < 8
  {
    if code == "R" then 0
    else if code == "Q" then 1
    else if code == "SQ" then 2
    else if code == "SR" then 3
    else if code == "FP" then 4
    else if code == "FP1" then 5
    else if code == "FP2" then 6
    else if code == "FP3" then 7
    else 8
  }

  /** The set of the round's session types. */
  function TypeSet(sessionTypes: seq<string>): set<string> {
    set t | t in sessionTypes
  }

  /** Python's `any(t.startswith(code) for t in types)`. */
  predicate AnyStartsWith(types: set<string>, code: string) {
    exists t :: t in types && StartsWith(t, code)
  }

  /** The candidates some session type starts with, in candidate order. */
  function Offered(types: set<string>, candidates: seq<string>): (r: seq<string>)
    ensures |r| <= |candidates|
    ensures forall code :: code in r <==> code in candidates && AnyStartsWith(types, code)
    decreases |candidates|
  {
    if candidates == [] then []
    else
      var n := |candidates| - 1;
      Offered(types, candidates[..n]) + (if AnyStartsWith(types, candidates[n]) then [candidates[n]] else [])
  }

  /** What `get_available_result_types` returns for a round whose sessions
      have the given types. */
  function AvailableResultTypes(sessionTypes: seq<string>): seq<string> {
    AlwaysOffered + Offered(TypeSet(sessionTypes), Candidates)
  }

  /** The list starts with "R" and "Q" whatever the sessions are, holds a
      candidate code exactly when some session type starts with it, holds no
      other code, and has between two and eight entries. */
  lemma AvailableContents(sessionTypes: seq<string>)
    ensures var r := AvailableResultTypes(sessionTypes);
      && r[..2] == ["R", "Q"]
      && 2 <= |r| <= 8
      && (forall code :: code in Candidates ==>
            (code in r <==> exists t :: t in sessionTypes && StartsWith(t, code)))
      && (forall code :: code in r ==> code in AllCodes)
  {
    var r := AvailableResultTypes(sessionTypes);
    var offered := Offered(TypeSet(sessionTypes), Candidates);
    forall code | code in Candidates
      ensures code in r <==> exists t :: t in sessionTypes && StartsWith(t, code)
    {
      assert code != "R" && code != "Q";
      if code in r {
        assert code in offered;
      }
    }
  }

  /** The codes come in strictly increasing rank. */
  predicate InRankOrder(codes: seq<string>) {
    forall i, j :: 0 <= i < j < |codes| ==> Rank(codes[i]) < Rank(codes[j])
  }

  /** Each list of candidates in strictly increasing rank keeps that order
      when filtered. */
  lemma {:induction false} OfferedInOrder(types: set<string>, candidates: seq<string>)
    requires InRankOrder(candidates)
    ensures InRankOrder(Offered(types, candidates))
    decreases |candidates|
  {
    if candidates != [] {
      var n := |candidates| - 1;
      var init := candidates[..n];
      OfferedInOrder(types, init);
      var r := Offered(types, candidates);
      var head := Offered(types, init);
      assert r == head + (if AnyStartsWith(types, candidates[n]) then [candidates[n]] else []);
      forall i, j | 0 <= i < j < |r| ensures Rank(r[i]) < Rank(r[j]) {
        if j >= |head| {
          assert r[i] == head[i] && r[i] in head;
          var k :| 0 <= k < n && init[k] == r[i];
          assert init[k] == candidates[k];
          assert r[j] == candidates[n];
          assert Rank(candidates[k]) < Rank(candidates[n]);
          assert Rank(r[i]) < Rank(r[j]);
        } else {
          assert r[i] == head[i] && r[j] == head[j];
          assert Rank(r[i]) < Rank(r[j]);
        }
      }
    }
  }

  /** The candidates are in rank order, all ranked after "R" and "Q". */
  lemma CandidatesRanked()
    ensures InRankOrder(Candidates)
    ensures forall code :: code in Candidates ==> Rank(code) >= 2
  {
    assert forall i :: 0 <= i < |Candidates| ==> Rank(Candidates[i]) == i + 2;
  }

  /** "R" and "Q" in front of codes ranked after them keep the order. */
  lemma AlwaysOfferedFirst(offered: seq<string>)
    requires InRankOrder(offered)
    requires forall i :: 0 <= i < |offered| ==> Rank(offered[i]) >= 2
    ensures InRankOrder(AlwaysOffered + offered)
  {
    var r := AlwaysOffered + offered;
    forall i, j | 0 <= i < j < |r| ensures Rank(r[i]) < Rank(r[j]) {
      if j >= 2 {
        assert r[j] == offered[j - 2];
        if i >= 2 {
          assert r[i] == offered[i - 2];
        } else {
          assert r[i] == AlwaysOffered[i];
        }
      }
    }
  }

  /** The codes appear in the fixed order "R", "Q", "SQ", "SR", "FP", "FP1",
      "FP2", "FP3", so none appears twice. */
  lemma AvailableInOrder(sessionTypes: seq<string>)
    ensures InRankOrder(AvailableResultTypes(sessionTypes))
    ensures var r := AvailableResultTypes(sessionTypes);
      forall i, j :: 0 <= i < j < |r| ==> r[i] != r[j]
  {
    var offered := Offered(TypeSet(sessionTypes), Candidates);
    CandidatesRanked();
    OfferedInOrder(TypeSet(sessionTypes), Candidates);
    forall i | 0 <= i < |offered| ensures Rank(offered[i]) >= 2 {
      assert offered[i] in offered;
    }
    AlwaysOfferedFirst(offered);
  }

  /** The list depends only on the set of session types, not on how many
      sessions share a type or their order. */
  lemma AvailableDependsOnTypeSet(a: seq<string>, b: seq<string>)
    requires TypeSet(a) == TypeSet(b)
    ensures AvailableResultTypes(a) == AvailableResultTypes(b)
  {
  }

  /** Every code the endpoint offers has a title of its own. */
  lemma EveryOfferedCodeHasTitle(sessionTypes: seq<string>)
    ensures forall code :: code in AvailableResultTypes(sessionTypes) ==> code in Constants.ResultTypeTitles
  {
    AvailableContents(sessionTypes);
    Constants.TitleCodes();
  }

  /** `get_available_result_types`: starts from "R", "Q" and appends each
      candidate some session type starts with. */
  method GetAvailableResultTypes(sessionTypes: seq<string>) returns (r: seq<string>)
    ensures r == AvailableResultTypes(sessionTypes)
  {
    var types := set t | t in sessionTypes;
    r := ["R", "Q"];
    var i := 0;
    while i < |Candidates|
      invariant 0 <= i <= |Candidates|
      invariant r == AlwaysOffered + Offered(types, Candidates[..i])
    {
      assert Candidates[..i + 1][..i] == Candidates[..i];
      var code := Candidates[i];
      if exists t :: t in types && StartsWith(t, code) {
        r := r + [code];
      }
      i := i + 1;
    }
    assert Candidates[..i] == Candidates;
  }

  /** A response of the results endpoint: the result table, or an error
      status with its message. */
  datatype Response =
    | Success(results: Results)
    | Failure(status: int, message: string)

  /** What `ResultsView.results` answers, or the exception that escapes it.
      `round` holds the session types of the round with the requested id, or
      `None` when there is no such round; `loaded` is what the data loader
      returns or raises for the round and filter. */
  function ResultsResponse(roundId: Option<string>, filter: Option<string>,
                           round: Option<seq<string>>, loaded: Result<ResultData>): Result<Response>
  {
    if roundId.None? || filter.None? then Ok(Failure(400, "Round and session filter required"))
    else if round.None? then Ok(Failure(404, "Round not found"))
    else if filter.value !in AvailableResultTypes(round.value) then
      Ok(Failure(404, "Invalid session filter for this round"))
    else
      var data :- loaded;
      match Orchestrator.RenderResults(filter.value, data)
      case Ok(results) => Ok(Success(results))
      case Err(ValueError(_)) => Ok(Failure(500, "Failed to render results"))
      case Err(e) => Err(e)
  }

  /** A code the round does not offer is refused with 404 whatever the
      loader would have produced. */
  lemma UnavailableFilterRefused(roundId: string, filter: string, round: seq<string>,
                                 loaded: Result<ResultData>)
    requires filter !in AvailableResultTypes(round)
    ensures ResultsResponse(Some(roundId), Some(filter), Some(round), loaded) == Ok(Failure(404, "Invalid session filter for this round"))
  {
  }

  /** For an offered code: a ValueError while rendering becomes a 500
      response; any other exception, and any exception of the loader,
      escapes; otherwise the table is returned. */
  lemma RenderErrorsMapped(roundId: string, filter: string, round: seq<string>, loaded: Result<ResultData>)
    requires filter in AvailableResultTypes(round)
    ensures var r := ResultsResponse(Some(roundId), Some(filter), Some(round), loaded);
      && (loaded.Err? ==> r == Err(loaded.error))
      && (loaded.Ok? ==>
            var rendered := Orchestrator.RenderResults(filter, loaded.value);
            && (r.Ok? && r.value.Failure? <==> rendered.Err? && rendered.error.ValueError?)
            && (r.Ok? && r.value.Failure? ==> r.value.status == 500)
            && (r.Err? <==> rendered.Err? && !rendered.error.ValueError?)
            && (r.Err? ==> r.error == rendered.error)
            && (r.Ok? && r.value.Success? <==> rendered.Ok?)
            && (rendered.Ok? ==> r == Ok(Success(rendered.value))))
  {
  }

  /** A table the endpoint serves carries the requested code and that code's
      own title, never the fallback. */
  lemma ServedTableTitled(roundId: Option<string>, filter: Option<string>,
                          round: Option<seq<string>>, loaded: Result<ResultData>)
    requires ResultsResponse(roundId, filter, round, loaded).Ok?
    requires ResultsResponse(roundId, filter, round, loaded).value.Success?
    ensures filter.Some? && round.Some? && filter.value in AvailableResultTypes(round.value)
    ensures var table := ResultsResponse(roundId, filter, round, loaded).value.results;
      && table.code == filter.value
      && filter.value in Constants.ResultTypeTitles
      && table.title == Constants.ResultTypeTitles[filter.value]
  {
    EveryOfferedCodeHasTitle(round.value);
  }

  /** "Q" is offered even for a round without qualifying sessions, so the
      loader is reached. The loader loads only the sessions whose type starts
      with the code and raises a ValueError when they have no entries; that
      exception is raised before the renderer's ValueError handling and
      escapes unchanged, where the same kind of exception from rendering
      would have become a 500 response. */
  lemma QualifyingWithoutSessionsEscapes(roundId: string, round: seq<string>, loaded: Result<ResultData>, msg: string)
    requires forall t :: t in round ==> !StartsWith(t, "Q")
    requires loaded == Err(ValueError(msg))
    ensures "Q" in AvailableResultTypes(round)
    ensures ResultsResponse(Some(roundId), Some("Q"), Some(round), loaded) == Err(ValueError(msg))
  {
    assert AvailableResultTypes(round)[1] == "Q";
  }

  /** `ResultsView.results`: the checks in order, then loading and rendering,
      with a ValueError of the renderer turned into a 500 response. The
      loader is consulted only once every check has passed. */
  method HandleResults(roundId: Option<string>, filter: Option<string>,
                       round: Option<seq<string>>, loaded: Result<ResultData>)
    returns (r: Result<Response>, loaderCalled: bool)
    ensures r == ResultsResponse(roundId, filter, round, loaded)
    ensures loaderCalled <==>
      roundId.Some? && filter.Some? && round.Some? && filter.value in AvailableResultTypes(round.value)
  {
    loaderCalled := false;
    if roundId.None? || filter.None? {
      return Ok(Failure(400, "Round and session filter required")), loaderCalled;
    }
    if round.None? {
      return Ok(Failure(404, "Round not found")), loaderCalled;
    }
    var available := GetAvailableResultTypes(round.value);
    if filter.value !in available {
      return Ok(Failure(404, "Invalid session filter for this round")), loaderCalled;
    }
    loaderCalled := true;
    if loaded.Err? {
      return Err(loaded.error), loaderCalled;
    }
    var rendered := Orchestrator.Render(filter.value, loaded.value);
    match rendered {
      case Ok(results) => r := Ok(Success(results));
      case Err(ValueError(_)) => r := Ok(Failure(500, "Failed to render results"));
      case Err(e) => r := Err(e);
    }
  }
}
