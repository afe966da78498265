/**
  The engine chosen when a source is neither a `.vmx` nor a `.vbox` file: it
  never finds a machine and answers every request with an error.
 */
module Unknown {
  import opened Core

  /** Clone: a source was given but is of no known format, or there is nothing to clone at all. */
  function Clone(rec: Record, source: string): (s: Step)
    ensures s.record == rec && s.calls == []
    ensures s.outcome == Failed(if source != "" then UnrecognizedFormat else NoConfiguration)
  {
    if source != "" then Step(rec, Failed(UnrecognizedFormat), [])
    else Step(rec, Failed(NoConfiguration), [])
  }

  /** Start, Stop, Restart, Delete and Mount all report that there is no configuration. */
  function Refuse(rec: Record): (s: Step)
    ensures s.record == rec && s.calls == [] && s.outcome == Failed(NoConfiguration)
  {
    Step(rec, Failed(NoConfiguration), [])
  }

  function IP(rec: Record): (r: Result<string>)
    ensures r == Failure(NoConfiguration)
  {
    Failure(NoConfiguration)
  }

  predicate Found(rec: Record) {
    false
  }
}
