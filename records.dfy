/**
 * The analytics records that the peak-concurrency engine reads
 * (backend/src/routes/insights.js, lines 29-38, 40-42 and 100-105).
 */
module Records {
  import opened Wrappers

  /**
   * A raw timestamp field as the analytics service delivers it, reduced to what
   * `new Date(value)` makes of it: `Missing` is a null, undefined or empty field (falsy);
   * `Unparseable` is a non-empty text that is not a date; `At(t)` is a text that denotes
   * the instant `t` (milliseconds since the epoch).
   *
   * safeDate itself only tests `== null` (line 30): a falsy but non-null value such as 0,
   * false or "" is passed to `new Date`, which gives the epoch for 0 and false and an invalid
   * date for "". Lumping them into `Missing` differs from the code only for the epoch, and
   * every instant the portal reads is a text timestamp after it.
   */
  datatype Stamp = Missing | Unparseable | At(t: int)

  /** JavaScript truthiness of the raw field. */
  predicate Truthy(s: Stamp)
  {
    !s.Missing?
  }

  /** safeDate: the parsed instant, or nothing when the field is absent or not a date. */
  function SafeDate(s: Stamp): (r: Option<int>)
    ensures r.Some? <==> s.At?
    ensures s.At? ==> r.value == s.t
  {
    match s
    case At(t) => Some(t)
    case _ => None
  }

  /** One phase of a session (interaction, hold, wrap-up, ...). */
  datatype Segment = Segment(segmentStart: Stamp, segmentEnd: Stamp, segmentType: string)

  /** One leg of a call; only sessions whose media type is "voice" are counted. */
  datatype Session = Session(mediaType: string, segments: seq<Segment>)

  datatype Participant = Participant(sessions: seq<Session>)

  /** A conversation record; its own boundary fields act as fallbacks for the segments. */
  datatype Conversation = Conversation(
    conversationStart: Stamp,
    startTime: Stamp,
    conversationEnd: Stamp,
    endTime: Stamp,
    participants: seq<Participant>)

  /** The half-open interval [start, end) during which a session counts as an active call. */
  datatype Interval = Interval(start: int, end: int)
}
