/** The denormalised row model the loader hands to the renderers: one row per
    entrant, each with that entrant's entry in every session of the round that
    matches the result type. Fields the database may leave empty are `Option`s. */
module Loader {
  import opened Prelude
  import opened Schemas

  /** One entrant's record in one session. */
  datatype SessionEntry = SessionEntry(
    sessionOrderNumber: Option<int>,
    sessionType: string,
    sessionApiId: string,
    position: Option<int>,
    gridPosition: Option<int>,
    isClassified: Option<bool>,
    isEligibleForPoints: Option<bool>,
    status: Option<string>,
    points: Option<Points>,
    lapsCompleted: Option<int>,
    time: Option<Duration>,
    fastestLapTime: Option<Duration>)

  /** The tuple (car number, driver forename, round-entry id) that keys a row. */
  datatype RowKey = RowKey(carNumber: Option<int>, forename: string, entryApiId: string)

  /** One entrant's row of the result table. */
  datatype ResultRow = ResultRow(
    rowKey: RowKey,
    sessionEntries: seq<SessionEntry>,
    carNumber: Option<int>,
    driver: BasicDriver,
    team: BasicTeam)

  /** Everything one round and one result type need for rendering; `sessions`
      is in chronological order. */
  datatype ResultData = ResultData(
    rows: seq<ResultRow>,
    round: Round,
    season: Season,
    circuit: Circuit,
    sessions: seq<BasicSession>)

  /** The entries whose session type starts with `prefix`, in row order (the
      list comprehensions over `session_entries`). */
  function EntriesWithPrefix(entries: seq<SessionEntry>, prefix: string): (m: seq<SessionEntry>)
    ensures |m| <= |entries|
    ensures forall e :: e in m <==> e in entries && StartsWith(e.sessionType, prefix)
    decreases |entries|
  {
    if entries == [] then []
    else
      var init := entries[..|entries| - 1];
      var last := entries[|entries| - 1];
      assert entries == init + [last];
      EntriesWithPrefix(init, prefix) + (if StartsWith(last.sessionType, prefix) then [last] else [])
  }

  /** The filter keeps row order and multiplicity: filtering a concatenation
      concatenates the filtered parts (and a single entry is kept exactly
      when its type starts with the prefix). */
  lemma {:induction false} EntriesWithPrefixAppend(a: seq<SessionEntry>, b: seq<SessionEntry>, prefix: string)
    ensures EntriesWithPrefix(a + b, prefix) == EntriesWithPrefix(a, prefix) + EntriesWithPrefix(b, prefix)
    decreases |b|
  {
    if b == [] {
      assert a + b == a;
    } else {
      var n := |b| - 1;
      var init := b[..n];
      var last := b[n];
      var tail := if StartsWith(last.sessionType, prefix) then [last] else [];
      EntriesWithPrefixAppend(a, init, prefix);
      AppendDropLast(a, b);
      calc {
        EntriesWithPrefix(a + b, prefix);
        EntriesWithPrefix(a + init, prefix) + tail;
        (EntriesWithPrefix(a, prefix) + EntriesWithPrefix(init, prefix)) + tail;
        EntriesWithPrefix(a, prefix) + (EntriesWithPrefix(init, prefix) + tail);
        EntriesWithPrefix(a, prefix) + EntriesWithPrefix(b, prefix);
      }
    }
  }

  /** Dropping the last element of a concatenation with a non-empty right
      part drops it from the right part. */
  lemma AppendDropLast<T>(a: seq<T>, b: seq<T>)
    requires b != []
    ensures (a + b)[..|a + b| - 1] == a + b[..|b| - 1]
    ensures (a + b)[|a + b| - 1] == b[|b| - 1]
  {
  }

  /** A concatenation with a non-empty left part starts with that part's
      first element and continues with the rest of it. */
  lemma AppendDropFirst<T>(a: seq<T>, b: seq<T>)
    requires a != []
    ensures (a + b)[0] == a[0] && (a + b)[1..] == a[1..] + b
  {
  }
}
