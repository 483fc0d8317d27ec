/**
 * How the client writes instants on the wire. `Date.prototype.toISOString` renders the UTC
 * date-time with milliseconds and a `Z` designator; the backend reads start and end times
 * with the pattern of `StudySession.ParseLocal`.
 */
module ClientClock {
  import opened Text
  import SS = StudySession

  /** `toISOString()`: `YYYY-MM-DDTHH:mm:ss.sssZ`. */
  function IsoString(t: SS.DateTime, millis: nat): string {
    SS.Format(t) + "." + PadLeft(Decimal(millis), 3) + "Z"
  }

  /** The backend pattern has no room for the milliseconds and the zone designator: every
      `toISOString()` value is 24 characters long and is refused. */
  lemma IsoStringRejected(t: SS.DateTime, millis: nat)
    requires SS.ValidDateTime(t) && millis < 1000
    ensures |IsoString(t, millis)| == 24
    ensures SS.ParseLocal(IsoString(t, millis)).None?
  {
    SS.FormatParseRoundTrip(t);
    PadLeftRoundTrip(millis, 3);
  }
}
