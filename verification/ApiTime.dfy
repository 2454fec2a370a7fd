// What becomes of a point in time that goes through the API server.

module ApiTime {
  /** `local`: the value is in the process's own time zone, which the comparison of two statuses looks at. */
  datatype Instant = Instant(seconds: int, nanos: nat, local: bool)

  /** The API server stores whole seconds, and they are read back in the local zone. */
  function Stored(t: Instant): (r: Instant)
    ensures r == t <==> Survives(t)
    ensures Survives(r)
  {
    t.(nanos := 0, local := true)
  }

  predicate Survives(t: Instant) {
    t.nanos == 0 && t.local
  }
}
