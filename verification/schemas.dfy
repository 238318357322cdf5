/** The output records of the results endpoint (the pydantic models of the
    jolpica-schemas package), as values. URLs are kept as strings and Python
    floats that are only carried through as reals. */
module Schemas {
  import opened Prelude

  /** Championship points: a Python float the rendering code only copies. */
  datatype Points = Points(value: real)

  /** A duration in whole microseconds, the resolution of Python's timedelta. */
  type Duration = int

  datatype BasicDriver = BasicDriver(
    id: string,
    url: string,
    abbreviation: Option<string>,
    givenName: string,
    familyName: string)

  datatype BasicTeam = BasicTeam(
    id: string,
    url: string,
    name: string,
    primaryColor: Option<string>)

  datatype Season = Season(
    id: string,
    url: string,
    year: int,
    wikipedia: Option<string>)

  datatype Round = Round(
    id: string,
    url: string,
    number: Option<int>,
    name: Option<string>,
    raceNumber: Option<int>,
    wikipedia: Option<string>,
    isCancelled: bool)

  datatype Circuit = Circuit(
    id: string,
    url: string,
    name: string,
    locality: Option<string>,
    countryCode: Option<string>,
    latitude: Option<real>,
    longitude: Option<real>,
    altitude: Option<real>,
    wikipedia: Option<string>)

  /** One session of the round; `sessionType` is a code such as "R", "Q2",
      "FP1", "QA" or "QB". */
  datatype BasicSession = BasicSession(
    id: string,
    url: string,
    number: Option<int>,
    sessionType: string,
    typeDisplay: string)

  /** A named sub-measurement of a result line, such as the "Q2" time or the
      "GRID" position. `time` is the duration the line displays. */
  datatype ResultComponent = ResultComponent(
    key: string,
    name: string,
    position: Option<int>,
    time: Option<Duration>)

  /** The rendered line of one entrant. */
  datatype ResultItem = ResultItem(
    driver: BasicDriver,
    team: BasicTeam,
    position: Option<int>,
    positionText: Option<string>,
    time: Option<Duration>,
    isClassified: Option<bool>,
    status: Option<string>,
    points: Option<Points>,
    laps: Option<int>,
    carNumber: Option<int>,
    components: map<string, ResultComponent>)

  /** The whole result table of one round and one result type. */
  datatype Results = Results(
    season: Season,
    round: Round,
    circuit: Circuit,
    sessions: seq<BasicSession>,
    title: string,
    code: string,
    componentKeys: seq<string>,
    results: seq<ResultItem>)
}
