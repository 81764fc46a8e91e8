/** The three-argument `getContainerExecutionDuration`: the time between a
    container's start and finish timestamps as reported by the engine. */
module ExecutionDuration {
  import opened Wrappers

  /** The engine's zero-value date, reported for an event that has not
      happened. */
  const DefaultTime: string := "0001-01-01T00:00:00Z"

  /** A timestamp as the engine reports it: the raw text, compared with the
      sentinel, and the instant it parses to, in nanoseconds. */
  datatype Timestamp = Timestamp(raw: string, nanos: int)

  predicate IsUnset(t: Timestamp)
  {
    t.raw == DefaultTime
  }

  /** Absent when either raw timestamp is exactly the sentinel text;
      otherwise `finish - start`, with a negative difference (the engine's
      precision on very short runs) replaced by zero. */
  function Duration(startedAt: Timestamp, finishedAt: Timestamp): (d: Option<int>)
    ensures d.None? <==> IsUnset(startedAt) || IsUnset(finishedAt)
    ensures d.Some? ==> d.value >= 0
    ensures d.Some? ==> d.value >= finishedAt.nanos - startedAt.nanos
    ensures d.Some? ==> d.value == 0 || d.value == finishedAt.nanos - startedAt.nanos
  {
    if startedAt.raw == DefaultTime then None
    else if finishedAt.raw == DefaultTime then None
    else
      var between := finishedAt.nanos - startedAt.nanos;
      if between < 0 then Some(0) else Some(between)
  }

  /** A present duration is the least non-negative value not below the
      measured difference: it equals the difference whenever that is not
      negative, and is zero otherwise. */
  lemma DurationIsClampedDifference(startedAt: Timestamp, finishedAt: Timestamp)
    requires !IsUnset(startedAt) && !IsUnset(finishedAt)
    ensures finishedAt.nanos >= startedAt.nanos ==>
              Duration(startedAt, finishedAt) == Some(finishedAt.nanos - startedAt.nanos)
    ensures finishedAt.nanos < startedAt.nanos ==> Duration(startedAt, finishedAt) == Some(0)
  {
  }

  /** Only the sentinel TEXT counts as unset: another spelling of the same
      instant yields a duration. */
  lemma SentinelIsTextual(startedAt: Timestamp, finishedAt: Timestamp)
    requires startedAt.raw == "0001-01-01T00:00:00.000Z" && !IsUnset(finishedAt)
    ensures Duration(startedAt, finishedAt).Some?
  {
  }

  /** Test reference: a finish seen 0.2 ms before the start gives a zero
      duration. */
  lemma FinishBeforeStartIsZero()
    ensures Duration(Timestamp("2023-10-26T12:24:40.163261033Z", 1698323080163261033),
                     Timestamp("2023-10-26T12:24:40.16305078Z", 1698323080163050780)) == Some(0)
  {
  }
}
