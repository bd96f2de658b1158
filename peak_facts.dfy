/** Properties of the peak-concurrency sweep (backend/src/routes/insights.js, lines 94-151). */
module PeakFacts {
  import opened Wrappers
  import opened Minutes
  import opened Records
  import opened PeakMetrics
  import opened WindowExtractor
  import opened Seqs

  predicate Increasing(s: seq<int>)
  {
    forall k, l :: 0 <= k < l < |s| ==> s[k] < s[l]
  }

  lemma HeadIsElement(s: seq<int>)
    ensures |s| > 0 ==> s[0] in s
  {
  }

  lemma {:induction false} IncreasingSameElements(a: seq<int>, b: seq<int>)
    requires Increasing(a) && Increasing(b)
    requires forall x :: x in a <==> x in b
    ensures a == b
  {
    if |a| > 0 && |b| > 0 {
      assert a[0] in a && b[0] in b;
      assert a[0] in b;
      assert b[0] in a;
      var i :| 0 <= i < |a| && a[i] == b[0];
      var j :| 0 <= j < |b| && b[j] == a[0];
      assert a[0] <= a[i] && b[0] <= b[j];
      assert a[0] == b[0];
      forall x ensures x in a[1..] <==> x in b[1..] {
        if x in a[1..] {
          var k :| 1 <= k < |a| && a[k] == x;
          assert x != a[0];
        }
        if x in b[1..] {
          var k :| 1 <= k < |b| && b[k] == x;
          assert x != b[0];
        }
        assert x in a <==> x == a[0] || x in a[1..];
        assert x in b <==> x == b[0] || x in b[1..];
      }
      IncreasingSameElements(a[1..], b[1..]);
      assert a == [a[0]] + a[1..] && b == [b[0]] + b[1..];
    } else {
      HeadIsElement(a);
      HeadIsElement(b);
    }
  }

  /**
   * The summary determines the report: any two results that satisfy IsPeakSummary for the
   * same spans are equal, so the sweep's result is the one answer the specification allows.
   */
  lemma PeakSummaryIsUnique(spans: seq<Span>, startUtc: int, totalMinutes: int,
                            p1: int, f1: Option<int>, m1: seq<int>,
                            p2: int, f2: Option<int>, m2: seq<int>)
    requires IsPeakSummary(spans, startUtc, totalMinutes, p1, f1, m1)
    requires IsPeakSummary(spans, startUtc, totalMinutes, p2, f2, m2)
    ensures p1 == p2 && f1 == f2 && m1 == m2
  {
    var i1 :| 0 <= i1 <= totalMinutes && Count(spans, i1) == p1;
    var i2 :| 0 <= i2 <= totalMinutes && Count(spans, i2) == p2;
    assert p1 <= p2 && p2 <= p1;
    forall x ensures x in m1 <==> x in m2 {
      if x in m1 {
        var k :| 0 <= k < |m1| && m1[k] == x;
        var i :| 0 <= i <= totalMinutes && m1[k] == MinuteAt(startUtc, i) && Count(spans, i) == p1 && p1 > 0;
      }
      if x in m2 {
        var k :| 0 <= k < |m2| && m2[k] == x;
        var i :| 0 <= i <= totalMinutes && m2[k] == MinuteAt(startUtc, i) && Count(spans, i) == p2 && p2 > 0;
      }
    }
    IncreasingSameElements(m1, m2);
  }

  /** With no qualifying interval the peak is 0, there is no first peak minute and no peak minute. */
  lemma NoIntervalsNoPeak(startUtc: int, totalMinutes: int, peak: int, first: Option<int>, minutes: seq<int>)
    requires IsPeakSummary([], startUtc, totalMinutes, peak, first, minutes)
    ensures peak == 0 && first == None && minutes == []
  {
    var i :| 0 <= i <= totalMinutes && Count([], i) == peak;
    assert peak == 0;
    HeadIsElement(minutes);
  }

  /**
   * Half-open buckets, with the report window starting on a minute boundary: a window
   * occupies bucket `i` (for `i` below totalMinutes) exactly when it overlaps the minute
   * [MinuteAt(startUtc, i), MinuteAt(startUtc, i) + one minute). In particular a window that
   * ends exactly on a minute boundary does not occupy the minute that starts there.
   */
  lemma BucketMeansOverlap(w: Interval, startUtc: int, totalMinutes: int, i: int)
    requires startUtc % MinuteMs == 0
    requires 0 <= i < totalMinutes
    ensures var r := BucketSpan(w, startUtc, totalMinutes);
      (r.Some? && r.value.lo <= i < r.value.hi) <==>
      (w.start < MinuteAt(startUtc, i) + MinuteMs && MinuteAt(startUtc, i) < w.end)
  {
    var f, c := FloorToMinute(w.start), CeilToMinute(w.end);
    var m := MinuteAt(startUtc, i);
    var q, r := BucketMinutes(f, startUtc), BucketMinutes(c, startUtc);
    assert (f - startUtc) % MinuteMs == 0;
    assert (c - startUtc) % MinuteMs == 0;
    assert f - startUtc == q * MinuteMs;
    assert c - startUtc == r * MinuteMs;
    assert q <= i <==> w.start < m + MinuteMs;
    assert i < r <==> m < w.end;
  }

  /**
   * When the report window does not start on a minute boundary, the absolute rounding of
   * line 114-115 and the relative bucket index of line 98 disagree: a ten-second call that lies
   * wholly inside the report window starting at 00:00:30 occupies no bucket.
   */
  lemma UnalignedStartDropsShortCall()
    ensures BucketSpan(Interval(40000, 50000), 30000, 2).None?
  {
  }

  /** The instant 2023-11-14T22:14:00Z, a minute boundary. */
  const T0: int := 1700000040000

  /**
   * Two overlapping voice calls, A over minutes [0, 2) and B over minutes [1, 3) of a
   * four-minute report: the peak is 2, reached only at minute 1 (A does not occupy minute 2,
   * because it ends exactly where minute 2 begins).
   */
  lemma TwoOverlappingCalls(peak: int, first: Option<int>, minutes: seq<int>)
    requires IsPeakSummary([BucketSpan(Interval(T0, T0 + 2 * MinuteMs), T0, 4).value,
                            BucketSpan(Interval(T0 + MinuteMs, T0 + 3 * MinuteMs), T0, 4).value],
                           T0, 4, peak, first, minutes)
    ensures peak == 2 && first == Some(T0 + MinuteMs) && minutes == [T0 + MinuteMs]
  {
    var a, b := Span(0, 2), Span(1, 3);
    assert BucketSpan(Interval(T0, T0 + 2 * MinuteMs), T0, 4).value == a;
    assert BucketSpan(Interval(T0 + MinuteMs, T0 + 3 * MinuteMs), T0, 4).value == b;
    var spans := [a, b];
    forall i ensures Count(spans, i) == (if 0 <= i < 2 then 1 else 0) + (if 1 <= i < 3 then 1 else 0) {
      CountOfTwo(a, b, i);
    }
    var i :| 0 <= i <= 4 && Count(spans, i) == peak;
    assert Count(spans, 1) == 2;
    assert peak == 2;
    assert MinuteAt(T0, 1) in minutes;
    forall k | 0 <= k < |minutes| ensures minutes[k] == T0 + MinuteMs {
      var j :| 0 <= j <= 4 && minutes[k] == MinuteAt(T0, j) && Count(spans, j) == peak && peak > 0;
      assert j == 1;
    }
    assert forall x :: x in minutes <==> x in [T0 + MinuteMs];
    IncreasingSameElements(minutes, [T0 + MinuteMs]);
  }

  lemma CountOfTwo(a: Span, b: Span, i: int)
    ensures Count([a, b], i) == (if a.lo <= i < a.hi then 1 else 0) + (if b.lo <= i < b.hi then 1 else 0)
  {
    assert [a, b][..1] == [a];
    assert [a][..0] == [];
    assert Count([a], i) == (if a.lo <= i < a.hi then 1 else 0);
  }

  /** The number of voice sessions among `sessions`. */
  function VoiceSessions(sessions: seq<Session>): nat
  {
    if |sessions| == 0 then 0
    else VoiceSessions(sessions[..|sessions| - 1]) + (if sessions[|sessions| - 1].mediaType == VoiceMedia then 1 else 0)
  }

  function VoiceSessionsOfParticipants(participants: seq<Participant>): nat
  {
    if |participants| == 0 then 0
    else VoiceSessionsOfParticipants(participants[..|participants| - 1]) + VoiceSessions(participants[|participants| - 1].sessions)
  }

  function VoiceSessionsOfConversations(conversations: seq<Conversation>): nat
  {
    if |conversations| == 0 then 0
    else VoiceSessionsOfConversations(conversations[..|conversations| - 1])
         + VoiceSessionsOfParticipants(conversations[|conversations| - 1].participants)
  }

  lemma {:induction false} SessionsSpansBound(sessions: seq<Session>, conv: Conversation, startUtc: int, totalMinutes: int, excludeWrapup: bool)
    ensures |SessionsSpans(sessions, conv, startUtc, totalMinutes, excludeWrapup)| <= VoiceSessions(sessions)
  {
    if |sessions| > 0 {
      SessionsSpansBound(sessions[..|sessions| - 1], conv, startUtc, totalMinutes, excludeWrapup);
    }
  }

  lemma {:induction false} ParticipantsSpansBound(participants: seq<Participant>, conv: Conversation, startUtc: int, totalMinutes: int, excludeWrapup: bool)
    ensures |ParticipantsSpans(participants, conv, startUtc, totalMinutes, excludeWrapup)| <= VoiceSessionsOfParticipants(participants)
  {
    if |participants| > 0 {
      ParticipantsSpansBound(participants[..|participants| - 1], conv, startUtc, totalMinutes, excludeWrapup);
      SessionsSpansBound(participants[|participants| - 1].sessions, conv, startUtc, totalMinutes, excludeWrapup);
    }
  }

  /** A session of the counted media type. */
  predicate IsVoice(session: Session)
  {
    session.mediaType == VoiceMedia
  }

  /** The participants with their non-voice sessions removed. */
  function VoiceLegs(participants: seq<Participant>): (r: seq<Participant>)
    ensures |r| == |participants|
    ensures forall i :: 0 <= i < |r| ==> r[i] == Participant(Filter(participants[i].sessions, IsVoice))
  {
    seq(|participants|, i requires 0 <= i < |participants| => Participant(Filter(participants[i].sessions, IsVoice)))
  }

  /** The conversations with every participant's non-voice sessions removed. */
  function VoiceOnly(conversations: seq<Conversation>): (r: seq<Conversation>)
    ensures |r| == |conversations|
    ensures forall i :: 0 <= i < |r| ==> r[i] == conversations[i].(participants := VoiceLegs(conversations[i].participants))
  {
    seq(|conversations|, i requires 0 <= i < |conversations| =>
      conversations[i].(participants := VoiceLegs(conversations[i].participants)))
  }

  /** A session's span reads the conversation's boundary fields, never its participants. */
  lemma SessionSpansIgnoreParticipants(session: Session, conv: Conversation, participants: seq<Participant>,
                                       startUtc: int, totalMinutes: int, excludeWrapup: bool)
    ensures SessionSpans(session, conv.(participants := participants), startUtc, totalMinutes, excludeWrapup)
         == SessionSpans(session, conv, startUtc, totalMinutes, excludeWrapup)
  {
    var conv' := conv.(participants := participants);
    assert ConversationStart(Some(conv')) == ConversationStart(Some(conv));
    assert ConversationEnd(Some(conv')) == ConversationEnd(Some(conv));
  }

  lemma SessionsSpansSnoc(sessions: seq<Session>, last: Session, conv: Conversation, startUtc: int, totalMinutes: int, excludeWrapup: bool)
    ensures SessionsSpans(sessions + [last], conv, startUtc, totalMinutes, excludeWrapup)
         == SessionsSpans(sessions, conv, startUtc, totalMinutes, excludeWrapup)
            + SessionSpans(last, conv, startUtc, totalMinutes, excludeWrapup)
  {
    assert (sessions + [last])[..|sessions|] == sessions;
  }

  lemma {:induction false} VoiceSessionsSpans(sessions: seq<Session>, conv: Conversation, participants: seq<Participant>,
                                              startUtc: int, totalMinutes: int, excludeWrapup: bool)
    ensures SessionsSpans(Filter(sessions, IsVoice), conv.(participants := participants), startUtc, totalMinutes, excludeWrapup)
         == SessionsSpans(sessions, conv, startUtc, totalMinutes, excludeWrapup)
    decreases |sessions|
  {
    if |sessions| > 0 {
      var init, last := sessions[..|sessions| - 1], sessions[|sessions| - 1];
      var conv' := conv.(participants := participants);
      var whole := SessionsSpans(sessions, conv, startUtc, totalMinutes, excludeWrapup);
      var before := SessionsSpans(init, conv, startUtc, totalMinutes, excludeWrapup);
      var added := SessionSpans(last, conv, startUtc, totalMinutes, excludeWrapup);
      assert whole == before + added;
      VoiceSessionsSpans(init, conv, participants, startUtc, totalMinutes, excludeWrapup);
      if IsVoice(last) {
        assert Filter(sessions, IsVoice) == Filter(init, IsVoice) + [last];
        SessionsSpansSnoc(Filter(init, IsVoice), last, conv', startUtc, totalMinutes, excludeWrapup);
        SessionSpansIgnoreParticipants(last, conv, participants, startUtc, totalMinutes, excludeWrapup);
      } else {
        assert Filter(sessions, IsVoice) == Filter(init, IsVoice);
        assert added == [];
      }
    }
  }

  lemma {:induction false} VoiceParticipantsSpans(participants: seq<Participant>, conv: Conversation, others: seq<Participant>,
                                                  startUtc: int, totalMinutes: int, excludeWrapup: bool)
    ensures ParticipantsSpans(VoiceLegs(participants), conv.(participants := others), startUtc, totalMinutes, excludeWrapup)
         == ParticipantsSpans(participants, conv, startUtc, totalMinutes, excludeWrapup)
    decreases |participants|
  {
    if |participants| > 0 {
      var init := participants[..|participants| - 1];
      assert VoiceLegs(participants)[..|participants| - 1] == VoiceLegs(init);
      VoiceParticipantsSpans(init, conv, others, startUtc, totalMinutes, excludeWrapup);
      VoiceSessionsSpans(participants[|participants| - 1].sessions, conv, others, startUtc, totalMinutes, excludeWrapup);
    }
  }

  /**
   * Only voice sessions contribute (line 105): removing every non-voice session from every
   * participant leaves the spans, and so the whole report, unchanged.
   */
  lemma {:induction false} NonVoiceSessionsIgnored(conversations: seq<Conversation>, startUtc: int, totalMinutes: int, excludeWrapup: bool)
    ensures ConversationsSpans(VoiceOnly(conversations), startUtc, totalMinutes, excludeWrapup)
         == ConversationsSpans(conversations, startUtc, totalMinutes, excludeWrapup)
    decreases |conversations|
  {
    if |conversations| > 0 {
      var init, conv := conversations[..|conversations| - 1], conversations[|conversations| - 1];
      assert VoiceOnly(conversations)[..|conversations| - 1] == VoiceOnly(init);
      NonVoiceSessionsIgnored(init, startUtc, totalMinutes, excludeWrapup);
      VoiceParticipantsSpans(conv.participants, conv, VoiceLegs(conv.participants), startUtc, totalMinutes, excludeWrapup);
    }
  }

  /** Each voice session contributes at most one interval: there are never more spans than voice sessions. */
  lemma {:induction false} OneSpanPerVoiceSession(conversations: seq<Conversation>, startUtc: int, totalMinutes: int, excludeWrapup: bool)
    ensures |ConversationsSpans(conversations, startUtc, totalMinutes, excludeWrapup)| <= VoiceSessionsOfConversations(conversations)
  {
    if |conversations| > 0 {
      var conv := conversations[|conversations| - 1];
      OneSpanPerVoiceSession(conversations[..|conversations| - 1], startUtc, totalMinutes, excludeWrapup);
      ParticipantsSpansBound(conv.participants, conv, startUtc, totalMinutes, excludeWrapup);
    }
  }
}
