/**
 * computePeakMetrics (backend/src/routes/insights.js, lines 94-151): a difference-array sweep
 * at one-minute resolution over the windows of all voice sessions.
 */
module PeakMetrics {
  import opened Wrappers
  import opened Minutes
  import opened Records
  import opened WindowExtractor

  /** Only sessions of this media type are counted (line 105). */
  const VoiceMedia: string := "voice"

  /** The bucket size reported with every result (line 146). */
  const BucketLabel: string := "1m"

  function Max(a: int, b: int): int { if a >= b then a else b }

  function Min(a: int, b: int): int { if a <= b then a else b }

  /**
   * totalMinutes (line 95): the number of whole minutes needed to cover the report window,
   * and at least one.
   */
  function TotalMinutes(startUtc: int, endUtc: int): (r: int)
    ensures r >= 1
    ensures endUtc <= startUtc ==> r == 1
    ensures endUtc > startUtc ==> (r - 1) * MinuteMs < endUtc - startUtc <= r * MinuteMs
  {
    Max(1, MinutesCeil(endUtc - startUtc))
  }

  /** bucketMinutes (line 98): whole minutes from the start of the report to `d`, rounded down. */
  function BucketMinutes(d: int, startUtc: int): int
  {
    MinutesFloor(d - startUtc)
  }

  /** The buckets [lo, hi) one window occupies, after clamping (lines 114-118). */
  datatype Span = Span(lo: int, hi: int)

  /**
   * The occupied buckets of a window: from the bucket of its start rounded down to the minute,
   * clamped below at 0, to the bucket of its end rounded up, clamped above at totalMinutes;
   * nothing when that range is empty.
   */
  function BucketSpan(w: Interval, startUtc: int, totalMinutes: int): (r: Option<Span>)
    ensures r.Some? ==> 0 <= r.value.lo < r.value.hi <= totalMinutes
    ensures r.None? <==>
      Min(totalMinutes, BucketMinutes(CeilToMinute(w.end), startUtc)) <= Max(0, BucketMinutes(FloorToMinute(w.start), startUtc))
  {
    var startBucket := Max(0, BucketMinutes(FloorToMinute(w.start), startUtc));
    var endBucketEx := Min(totalMinutes, BucketMinutes(CeilToMinute(w.end), startUtc));
    if endBucketEx <= startBucket then None else Some(Span(startBucket, endBucketEx))
  }

  /** Spans within the bucket range [0, totalMinutes]. */
  predicate InRange(spans: seq<Span>, totalMinutes: int)
  {
    forall sp :: sp in spans ==> 0 <= sp.lo < sp.hi <= totalMinutes
  }

  /** What one session adds: its span if it is a voice session with a window that occupies any bucket. */
  function SessionSpans(session: Session, conv: Conversation, startUtc: int, totalMinutes: int, excludeWrapup: bool): (r: seq<Span>)
    ensures InRange(r, totalMinutes)
  {
    if session.mediaType != VoiceMedia then []
    else
      match Window(session, Some(conv), excludeWrapup)
      case None => []
      case Some(w) => OptionToSeq(BucketSpan(w, startUtc, totalMinutes))
  }

  function SessionsSpans(sessions: seq<Session>, conv: Conversation, startUtc: int, totalMinutes: int, excludeWrapup: bool): (r: seq<Span>)
    ensures InRange(r, totalMinutes)
  {
    if |sessions| == 0 then []
    else
      SessionsSpans(sessions[..|sessions| - 1], conv, startUtc, totalMinutes, excludeWrapup)
      + SessionSpans(sessions[|sessions| - 1], conv, startUtc, totalMinutes, excludeWrapup)
  }

  function ParticipantsSpans(participants: seq<Participant>, conv: Conversation, startUtc: int, totalMinutes: int, excludeWrapup: bool): (r: seq<Span>)
    ensures InRange(r, totalMinutes)
  {
    if |participants| == 0 then []
    else
      ParticipantsSpans(participants[..|participants| - 1], conv, startUtc, totalMinutes, excludeWrapup)
      + SessionsSpans(participants[|participants| - 1].sessions, conv, startUtc, totalMinutes, excludeWrapup)
  }

  /** The spans of every voice session of every participant of every conversation, in visiting order. */
  function ConversationsSpans(conversations: seq<Conversation>, startUtc: int, totalMinutes: int, excludeWrapup: bool): (r: seq<Span>)
    ensures InRange(r, totalMinutes)
  {
    if |conversations| == 0 then []
    else
      var conv := conversations[|conversations| - 1];
      ConversationsSpans(conversations[..|conversations| - 1], startUtc, totalMinutes, excludeWrapup)
      + ParticipantsSpans(conv.participants, conv, startUtc, totalMinutes, excludeWrapup)
  }

  /** What one span writes into bucket `b` of the difference array. */
  function Weight(sp: Span, b: int): int
  {
    (if sp.lo == b then 1 else 0) - (if sp.hi == b then 1 else 0)
  }

  /** The value bucket `b` of the difference array holds after all `spans` are written. */
  function Delta(spans: seq<Span>, b: int): int
  {
    if |spans| == 0 then 0
    else Delta(spans[..|spans| - 1], b) + Weight(spans[|spans| - 1], b)
  }

  /** The number of spans that occupy bucket `i`: the concurrency of minute `i`. */
  function Count(spans: seq<Span>, i: int): nat
  {
    if |spans| == 0 then 0
    else
      var sp := spans[|spans| - 1];
      Count(spans[..|spans| - 1], i) + (if sp.lo <= i < sp.hi then 1 else 0)
  }

  lemma {:induction false} DeltaAppend(a: seq<Span>, c: seq<Span>)
    ensures forall b :: Delta(a + c, b) == Delta(a, b) + Delta(c, b)
  {
    if |c| == 0 {
      assert a + c == a;
    } else {
      var c' := c[..|c| - 1];
      assert (a + c)[..|a + c| - 1] == a + c';
      DeltaAppend(a, c');
    }
  }

  lemma DeltaOfOne(sp: Span)
    ensures forall b :: Delta([sp], b) == Weight(sp, b)
  {
    assert [sp][..0] == [];
  }

  /** The running sum of the difference array up to bucket `i` is the concurrency of minute `i`. */
  lemma {:induction false} CountStep(spans: seq<Span>, i: int)
    requires i >= 0
    requires forall sp :: sp in spans ==> 0 <= sp.lo < sp.hi
    ensures Count(spans, i) == (if i == 0 then 0 else Count(spans, i - 1)) + Delta(spans, i)
  {
    if |spans| > 0 {
      var init := spans[..|spans| - 1];
      assert forall sp :: sp in init ==> sp in spans;
      assert spans[|spans| - 1] in spans;
      CountStep(init, i);
    }
  }

  /**
   * The result of the sweep for `spans` over buckets 0..totalMinutes: the peak is the
   * greatest concurrency of any bucket; the peak minutes are, in strictly increasing order,
   * the labels of exactly the buckets that reach a positive peak; the first peak minute is
   * the earliest of them, and there is none when the peak is 0.
   */
  predicate IsPeakSummary(spans: seq<Span>, startUtc: int, totalMinutes: int,
                          peak: int, firstPeakMinuteUtc: Option<int>, peakMinutesUtc: seq<int>)
  {
    && peak >= 0
    && (forall i :: 0 <= i <= totalMinutes ==> Count(spans, i) <= peak)
    && (exists i :: 0 <= i <= totalMinutes && Count(spans, i) == peak)
    && (forall k, l :: 0 <= k < l < |peakMinutesUtc| ==> peakMinutesUtc[k] < peakMinutesUtc[l])
    && (forall k :: 0 <= k < |peakMinutesUtc| ==>
          exists i :: 0 <= i <= totalMinutes && peakMinutesUtc[k] == MinuteAt(startUtc, i) && Count(spans, i) == peak && peak > 0)
    && (forall i :: 0 <= i <= totalMinutes && peak > 0 && Count(spans, i) == peak ==> MinuteAt(startUtc, i) in peakMinutesUtc)
    && (peak > 0 ==> |peakMinutesUtc| > 0 && firstPeakMinuteUtc == Some(peakMinutesUtc[0]))
    && (peak == 0 ==> firstPeakMinuteUtc == None)
  }

  /**
   * The body of the innermost forEach (lines 104-122): writes the span of one session, when it
   * is a voice session whose window occupies any bucket.
   */
  method AddSession(diff: array<int>, session: Session, conv: Conversation,
                    startUtc: int, totalMinutes: int, excludeWrapup: bool)
    requires diff.Length == totalMinutes + 2
    modifies diff
    ensures forall b :: 0 <= b < diff.Length ==>
      diff[b] == old(diff[b]) + Delta(SessionSpans(session, conv, startUtc, totalMinutes, excludeWrapup), b)
  {
    assert Delta([], 0) == 0;
    if session.mediaType != VoiceMedia {
      return;
    }
    var window := SessionWindow(session, Some(conv), excludeWrapup);
    if window.None? {
      return;
    }
    var startBucket := Max(0, BucketMinutes(FloorToMinute(window.value.start), startUtc));
    var endBucketEx := Min(totalMinutes, BucketMinutes(CeilToMinute(window.value.end), startUtc));
    if endBucketEx <= startBucket {
      return;
    }
    assert SessionSpans(session, conv, startUtc, totalMinutes, excludeWrapup) == [Span(startBucket, endBucketEx)];
    DeltaOfOne(Span(startBucket, endBucketEx));
    diff[startBucket] := diff[startBucket] + 1;
    diff[endBucketEx] := diff[endBucketEx] - 1;
  }

  /** The innermost forEach (lines 104-122): the sessions of one participant. */
  method AddSessions(diff: array<int>, sessions: seq<Session>, conv: Conversation,
                     startUtc: int, totalMinutes: int, excludeWrapup: bool)
    requires diff.Length == totalMinutes + 2
    modifies diff
    ensures forall b :: 0 <= b < diff.Length ==>
      diff[b] == old(diff[b]) + Delta(SessionsSpans(sessions, conv, startUtc, totalMinutes, excludeWrapup), b)
  {
    var k := 0;
    while k < |sessions|
      invariant 0 <= k <= |sessions|
      invariant forall b :: 0 <= b < diff.Length ==>
        diff[b] == old(diff[b]) + Delta(SessionsSpans(sessions[..k], conv, startUtc, totalMinutes, excludeWrapup), b)
    {
      AddSession(diff, sessions[k], conv, startUtc, totalMinutes, excludeWrapup);
      assert sessions[..k + 1][..k] == sessions[..k];
      DeltaAppend(SessionsSpans(sessions[..k], conv, startUtc, totalMinutes, excludeWrapup),
                  SessionSpans(sessions[k], conv, startUtc, totalMinutes, excludeWrapup));
      k := k + 1;
    }
    assert sessions[..k] == sessions;
  }

  /** The middle forEach (lines 102-123): the sessions of every participant of one conversation. */
  method AddParticipants(diff: array<int>, participants: seq<Participant>, conv: Conversation,
                         startUtc: int, totalMinutes: int, excludeWrapup: bool)
    requires diff.Length == totalMinutes + 2
    modifies diff
    ensures forall b :: 0 <= b < diff.Length ==>
      diff[b] == old(diff[b]) + Delta(ParticipantsSpans(participants, conv, startUtc, totalMinutes, excludeWrapup), b)
  {
    var j := 0;
    while j < |participants|
      invariant 0 <= j <= |participants|
      invariant forall b :: 0 <= b < diff.Length ==>
        diff[b] == old(diff[b]) + Delta(ParticipantsSpans(participants[..j], conv, startUtc, totalMinutes, excludeWrapup), b)
    {
      AddSessions(diff, participants[j].sessions, conv, startUtc, totalMinutes, excludeWrapup);
      assert participants[..j + 1][..j] == participants[..j];
      DeltaAppend(ParticipantsSpans(participants[..j], conv, startUtc, totalMinutes, excludeWrapup),
                  SessionsSpans(participants[j].sessions, conv, startUtc, totalMinutes, excludeWrapup));
      j := j + 1;
    }
    assert participants[..j] == participants;
  }

  /**
   * The sweep (lines 126-141): a running sum over buckets 0..totalMinutes that keeps the peak,
   * the first minute the peak was reached and every minute that ties it.
   */
  method SweepPeaks(diff: array<int>, startUtc: int, totalMinutes: int, ghost spans: seq<Span>)
    returns (peak: int, firstPeakMinuteUtc: Option<int>, peakMinutesUtc: seq<int>)
    requires totalMinutes >= 0 && diff.Length == totalMinutes + 2
    requires forall sp :: sp in spans ==> 0 <= sp.lo < sp.hi
    requires forall b :: 0 <= b < diff.Length ==> diff[b] == Delta(spans, b)
    ensures IsPeakSummary(spans, startUtc, totalMinutes, peak, firstPeakMinuteUtc, peakMinutesUtc)
  {
    var running := 0;
    peak := 0;
    firstPeakMinuteUtc := None;
    peakMinutesUtc := [];
    ghost var peakIdx: seq<int> := [];
    var i := 0;
    while i <= totalMinutes
      invariant 0 <= i <= totalMinutes + 1
      invariant running == if i == 0 then 0 else Count(spans, i - 1)
      invariant peak >= 0
      invariant forall j :: 0 <= j < i ==> Count(spans, j) <= peak
      invariant |peakIdx| == |peakMinutesUtc|
      invariant forall k :: 0 <= k < |peakIdx| ==>
        0 <= peakIdx[k] < i && peakMinutesUtc[k] == MinuteAt(startUtc, peakIdx[k]) && Count(spans, peakIdx[k]) == peak
      invariant forall k, l :: 0 <= k < l < |peakIdx| ==> peakIdx[k] < peakIdx[l]
      invariant forall j :: 0 <= j < i && peak > 0 && Count(spans, j) == peak ==> j in peakIdx
      invariant peak == 0 <==> peakIdx == []
      invariant peak > 0 ==> firstPeakMinuteUtc == Some(peakMinutesUtc[0])
      invariant peak == 0 ==> firstPeakMinuteUtc == None
    {
      CountStep(spans, i);
      running := running + diff[i];
      if running > peak {
        peak := running;
        firstPeakMinuteUtc := Some(MinuteAt(startUtc, i));
        peakMinutesUtc := [MinuteAt(startUtc, i)];
        peakIdx := [i];
      } else if running == peak && peak > 0 {
        peakMinutesUtc := peakMinutesUtc + [MinuteAt(startUtc, i)];
        peakIdx := peakIdx + [i];
      }
      i := i + 1;
    }
    SummaryFromIndices(spans, startUtc, totalMinutes, peak, firstPeakMinuteUtc, peakMinutesUtc, peakIdx);
  }

  /** The sweep's loop invariants, once every bucket has been visited, give the summary. */
  lemma SummaryFromIndices(spans: seq<Span>, startUtc: int, totalMinutes: int,
                           peak: int, firstPeakMinuteUtc: Option<int>, peakMinutesUtc: seq<int>, peakIdx: seq<int>)
    requires totalMinutes >= 0 && peak >= 0
    requires forall j :: 0 <= j <= totalMinutes ==> Count(spans, j) <= peak
    requires |peakIdx| == |peakMinutesUtc|
    requires forall k :: 0 <= k < |peakIdx| ==>
      0 <= peakIdx[k] <= totalMinutes && peakMinutesUtc[k] == MinuteAt(startUtc, peakIdx[k]) && Count(spans, peakIdx[k]) == peak
    requires forall k, l :: 0 <= k < l < |peakIdx| ==> peakIdx[k] < peakIdx[l]
    requires forall j :: 0 <= j <= totalMinutes && peak > 0 && Count(spans, j) == peak ==> j in peakIdx
    requires peak == 0 <==> peakIdx == []
    requires peak > 0 ==> firstPeakMinuteUtc == Some(peakMinutesUtc[0])
    requires peak == 0 ==> firstPeakMinuteUtc == None
    ensures IsPeakSummary(spans, startUtc, totalMinutes, peak, firstPeakMinuteUtc, peakMinutesUtc)
  {
    if peak > 0 {
      assert Count(spans, peakIdx[0]) == peak;
    } else {
      assert Count(spans, 0) == peak;
    }
    forall j | 0 <= j <= totalMinutes && peak > 0 && Count(spans, j) == peak
      ensures MinuteAt(startUtc, j) in peakMinutesUtc
    {
      var k :| 0 <= k < |peakIdx| && peakIdx[k] == j;
      assert peakMinutesUtc[k] == MinuteAt(startUtc, j);
    }
    forall k | 0 <= k < |peakMinutesUtc|
      ensures exists i :: 0 <= i <= totalMinutes && peakMinutesUtc[k] == MinuteAt(startUtc, i) && Count(spans, i) == peak && peak > 0
    {
      var j := peakIdx[k];
      assert peakMinutesUtc[k] == MinuteAt(startUtc, j) && Count(spans, j) == peak;
    }
  }

  /** The report computePeakMetrics returns; instants stand for their ISO-8601 renderings. */
  datatype PeakReport = PeakReport(
    startDateUtc: int,
    endDateUtc: int,
    bucket: string,
    peakConcurrent: int,
    firstPeakMinuteUtc: Option<int>,
    peakMinutesUtc: seq<int>)

  /**
   * computePeakMetrics: the peak concurrency of the voice sessions of `conversations` over
   * the report window, minute by minute.
   */
  method ComputePeakMetrics(conversations: seq<Conversation>, startUtc: int, endUtc: int, excludeWrapup: bool)
    returns (report: PeakReport)
    ensures report.startDateUtc == startUtc && report.endDateUtc == endUtc && report.bucket == BucketLabel
    ensures IsPeakSummary(ConversationsSpans(conversations, startUtc, TotalMinutes(startUtc, endUtc), excludeWrapup),
                          startUtc, TotalMinutes(startUtc, endUtc),
                          report.peakConcurrent, report.firstPeakMinuteUtc, report.peakMinutesUtc)
  {
    var totalMinutes := Max(1, MinutesCeil(endUtc - startUtc));
    var diff := new int[totalMinutes + 2](_ => 0);
    var c := 0;
    while c < |conversations|
      invariant 0 <= c <= |conversations|
      invariant forall b :: 0 <= b < diff.Length ==>
        diff[b] == Delta(ConversationsSpans(conversations[..c], startUtc, totalMinutes, excludeWrapup), b)
    {
      var conv := conversations[c];
      AddParticipants(diff, conv.participants, conv, startUtc, totalMinutes, excludeWrapup);
      assert conversations[..c + 1][..c] == conversations[..c];
      DeltaAppend(ConversationsSpans(conversations[..c], startUtc, totalMinutes, excludeWrapup),
                  ParticipantsSpans(conv.participants, conv, startUtc, totalMinutes, excludeWrapup));
      c := c + 1;
    }
    assert conversations[..c] == conversations;
    ghost var spans := ConversationsSpans(conversations, startUtc, totalMinutes, excludeWrapup);
    var peak, firstPeakMinuteUtc, peakMinutesUtc := SweepPeaks(diff, startUtc, totalMinutes, spans);
    report := PeakReport(startUtc, endUtc, BucketLabel, peak, firstPeakMinuteUtc, peakMinutesUtc);
  }
}
