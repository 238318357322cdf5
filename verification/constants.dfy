/** The two fixed lookup tables of the results subsystem. */
module Constants {

  /** The title of each result-type code. */
  const ResultTypeTitles: map<string, string> := map[
    "Q" := "Qualifying",
    "SQ" := "Sprint Qualifying",
    "R" := "Race",
    "SR" := "Sprint Race",
    "FP" := "Free Practice",
    "FP1" := "Practice 1",
    "FP2" := "Practice 2",
    "FP3" := "Practice 3"
  ]

  /** The display name of each component key. */
  const ComponentDisplayNames: map<string, string> := map[
    "FP1" := "Practice 1",
    "FP2" := "Practice 2",
    "FP3" := "Practice 3",
    "Q1" := "Qualifying 1",
    "Q2" := "Qualifying 2",
    "Q3" := "Qualifying 3",
    "SQ1" := "Sprint Qualifying 1",
    "SQ2" := "Sprint Qualifying 2",
    "SQ3" := "Sprint Qualifying 3",
    "GRID" := "Grid Position",
    "SGRID" := "Sprint Grid Position"
  ]

  /** The title table covers exactly the eight result-type codes. */
  lemma TitleCodes()
    ensures ResultTypeTitles.Keys == {"Q", "SQ", "R", "SR", "FP", "FP1", "FP2", "FP3"}
  {
  }

  /** Both grid keys, the qualifying segment keys up to the third, and the
      three practice keys have display names. */
  lemma DisplayNameKeys()
    ensures "GRID" in ComponentDisplayNames && "SGRID" in ComponentDisplayNames
    ensures forall k :: k in ["Q1", "Q2", "Q3", "SQ1", "SQ2", "SQ3"] ==> k in ComponentDisplayNames
    ensures forall k :: k in ["FP1", "FP2", "FP3"] ==> k in ComponentDisplayNames
  {
  }
}
