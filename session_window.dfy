/**
 * sessionWindow (backend/src/routes/insights.js, lines 40-92): the interval during which one
 * voice session counts as an active call, derived from its segments and from the boundary
 * fields of its conversation.
 */
module WindowExtractor {
  import opened Wrappers
  import opened Records

  /** The segment type that `excludeWrapup` treats specially. */
  const Wrapup: string := "wrapup"

  /** A segment takes part only when its raw `segmentStart` is truthy (line 42). */
  predicate IsUsable(seg: Segment)
  {
    Truthy(seg.segmentStart)
  }

  /** validSegments: the usable segments, in their original order. */
  function UsableSegments(segs: seq<Segment>): (r: seq<Segment>)
    ensures forall seg :: seg in r <==> seg in segs && IsUsable(seg)
    ensures |r| <= |segs|
  {
    if |segs| == 0 then []
    else
      var last := segs[|segs| - 1];
      assert segs == segs[..|segs| - 1] + [last];
      UsableSegments(segs[..|segs| - 1]) + (if IsUsable(last) then [last] else [])
  }

  /** The start candidate one usable segment contributes (lines 53-55). */
  function SegmentStarts(seg: Segment): seq<int>
  {
    OptionToSeq(SafeDate(seg.segmentStart))
  }

  /**
   * The end candidates one usable segment contributes (lines 56-69), unparseable values
   * left out: its end when its start parses and it is not an excluded wrap-up (line 59);
   * the start of a wrap-up segment when wrap-up is excluded (line 65); and, again, its end
   * when wrap-up is included, whether or not its start parses (line 68).
   */
  function SegmentEnds(seg: Segment, excludeWrapup: bool): seq<int>
  {
    var isWrapup := seg.segmentType == Wrapup;
    (if SafeDate(seg.segmentStart).Some? && (!excludeWrapup || !isWrapup)
     then OptionToSeq(SafeDate(seg.segmentEnd)) else [])
    + (if excludeWrapup && isWrapup then OptionToSeq(SafeDate(seg.segmentStart)) else [])
    + (if !excludeWrapup then OptionToSeq(SafeDate(seg.segmentEnd)) else [])
  }

  /** The start candidates of a list of usable segments, in push order. */
  function StartCandidates(segs: seq<Segment>): seq<int>
  {
    if |segs| == 0 then []
    else StartCandidates(segs[..|segs| - 1]) + SegmentStarts(segs[|segs| - 1])
  }

  /** The end candidates of a list of usable segments, in push order. */
  function EndCandidates(segs: seq<Segment>, excludeWrapup: bool): seq<int>
  {
    if |segs| == 0 then []
    else EndCandidates(segs[..|segs| - 1], excludeWrapup) + SegmentEnds(segs[|segs| - 1], excludeWrapup)
  }

  /** conversationStart, falling back to startTime (line 72). */
  function ConversationStart(conv: Option<Conversation>): Option<int>
  {
    if conv.None? then None
    else if SafeDate(conv.value.conversationStart).Some? then SafeDate(conv.value.conversationStart)
    else SafeDate(conv.value.startTime)
  }

  /** conversationEnd, falling back to endTime (line 73). */
  function ConversationEnd(conv: Option<Conversation>): Option<int>
  {
    if conv.None? then None
    else if SafeDate(conv.value.conversationEnd).Some? then SafeDate(conv.value.conversationEnd)
    else SafeDate(conv.value.endTime)
  }

  /** Every start candidate of a session: its usable segments', then its conversation's (lines 52-76). */
  function AllStarts(session: Session, conv: Option<Conversation>): seq<int>
  {
    StartCandidates(UsableSegments(session.segments)) + OptionToSeq(ConversationStart(conv))
  }

  /** Every end candidate of a session: its usable segments', then its conversation's (lines 52-79). */
  function AllEnds(session: Session, conv: Option<Conversation>, excludeWrapup: bool): seq<int>
  {
    EndCandidates(UsableSegments(session.segments), excludeWrapup) + OptionToSeq(ConversationEnd(conv))
  }

  /** startCandidates.reduce((a, b) => (a < b ? a : b)): the least candidate. */
  function MinOf(s: seq<int>): (m: int)
    requires |s| > 0
    ensures m in s
    ensures forall x :: x in s ==> m <= x
  {
    if |s| == 1 then s[0]
    else
      assert s == s[..|s| - 1] + [s[|s| - 1]];
      var a, b := MinOf(s[..|s| - 1]), s[|s| - 1];
      if a < b then a else b
  }

  /** endCandidates.reduce((a, b) => (a > b ? a : b)): the greatest candidate. */
  function MaxOf(s: seq<int>): (m: int)
    requires |s| > 0
    ensures m in s
    ensures forall x :: x in s ==> x <= m
  {
    if |s| == 1 then s[0]
    else
      assert s == s[..|s| - 1] + [s[|s| - 1]];
      var a, b := MaxOf(s[..|s| - 1]), s[|s| - 1];
      if a > b then a else b
  }

  /**
   * The window of a session: from the least start candidate to the greatest end candidate,
   * or nothing when a candidate list is empty or the window would be empty (lines 81-91).
   */
  function Window(session: Session, conv: Option<Conversation>, excludeWrapup: bool): (r: Option<Interval>)
    ensures r.Some? ==> r.value.start < r.value.end
  {
    if |UsableSegments(session.segments)| == 0 && conv.None? then None
    else
      var starts, ends := AllStarts(session, conv), AllEnds(session, conv, excludeWrapup);
      if |starts| == 0 || |ends| == 0 then None
      else
        var start, end := MinOf(starts), MaxOf(ends);
        if end <= start then None else Some(Interval(start, end))
  }

  /** The body of the forEach over the usable segments (lines 52-70): pushes one segment's candidates. */
  method VisitSegment(segment: Segment, excludeWrapup: bool, starts: seq<int>, ends: seq<int>)
    returns (starts': seq<int>, ends': seq<int>)
    ensures starts' == starts + SegmentStarts(segment)
    ensures ends' == ends + SegmentEnds(segment, excludeWrapup)
  {
    starts', ends' := starts, ends;
    var segStart := SafeDate(segment.segmentStart);
    if segStart.Some? {
      starts' := starts' + [segStart.value];
      if !excludeWrapup || segment.segmentType != Wrapup {
        var segEnd := if Truthy(segment.segmentEnd) then SafeDate(segment.segmentEnd) else None;
        if segEnd.Some? {
          ends' := ends' + [segEnd.value];
        }
      }
    }
    // Lines 65 and 68 may push an unparseable (null) value; the model drops it
    // (lemma NullCandidates.NullEndsAreHarmless shows that this changes nothing).
    if excludeWrapup && segment.segmentType == Wrapup && Truthy(segment.segmentStart) {
      var parsed := SafeDate(segment.segmentStart);
      if parsed.Some? {
        ends' := ends' + [parsed.value];
      }
    }
    if !excludeWrapup && Truthy(segment.segmentEnd) {
      var parsed := SafeDate(segment.segmentEnd);
      if parsed.Some? {
        ends' := ends' + [parsed.value];
      }
    }
  }

  /** The forEach over the usable segments (lines 52-70). */
  method CollectCandidates(validSegments: seq<Segment>, excludeWrapup: bool)
    returns (startCandidates: seq<int>, endCandidates: seq<int>)
    ensures startCandidates == StartCandidates(validSegments)
    ensures endCandidates == EndCandidates(validSegments, excludeWrapup)
  {
    startCandidates, endCandidates := [], [];
    var i := 0;
    while i < |validSegments|
      invariant 0 <= i <= |validSegments|
      invariant startCandidates == StartCandidates(validSegments[..i])
      invariant endCandidates == EndCandidates(validSegments[..i], excludeWrapup)
    {
      startCandidates, endCandidates := VisitSegment(validSegments[i], excludeWrapup, startCandidates, endCandidates);
      assert validSegments[..i + 1][..i] == validSegments[..i];
      i := i + 1;
    }
    assert validSegments[..i] == validSegments;
  }

  /** sessionWindow itself: collects the candidates segment by segment, then reduces them. */
  method SessionWindow(session: Session, conv: Option<Conversation>, excludeWrapup: bool)
    returns (w: Option<Interval>)
    ensures w == Window(session, conv, excludeWrapup)
    ensures w.Some? ==> w.value.start < w.value.end
  {
    var validSegments := UsableSegments(session.segments);
    if |validSegments| == 0 && conv.None? {
      return None;
    }
    var startCandidates, endCandidates := CollectCandidates(validSegments, excludeWrapup);
    var conversationStart := ConversationStart(conv);
    var conversationEnd := ConversationEnd(conv);
    if conversationStart.Some? {
      startCandidates := startCandidates + [conversationStart.value];
    }
    if conversationEnd.Some? {
      endCandidates := endCandidates + [conversationEnd.value];
    }
    assert startCandidates == AllStarts(session, conv);
    assert endCandidates == AllEnds(session, conv, excludeWrapup);
    if |startCandidates| == 0 || |endCandidates| == 0 {
      return None;
    }
    var start := MinOf(startCandidates);
    var end := MaxOf(endCandidates);
    if end <= start {
      return None;
    }
    return Some(Interval(start, end));
  }
}

/** What the window of a session means, stated without the candidate lists' construction. */
module WindowExtractorFacts {
  import opened Wrappers
  import opened Records
  import opened WindowExtractor

  /**
   * Whether a usable segment offers `t` as an end candidate: with wrap-up excluded, a
   * wrap-up segment offers its start and never its end, and another segment offers its end
   * when its start parses; with wrap-up included, every segment offers its end.
   */
  predicate OffersEnd(seg: Segment, excludeWrapup: bool, t: int)
  {
    if excludeWrapup && seg.segmentType == Wrapup then seg.segmentStart == At(t)
    else if excludeWrapup then seg.segmentStart.At? && seg.segmentEnd == At(t)
    else seg.segmentEnd == At(t)
  }

  lemma {:induction false} StartCandidatesAre(segs: seq<Segment>, t: int)
    ensures t in StartCandidates(segs) <==> exists seg :: seg in segs && seg.segmentStart == At(t)
  {
    if |segs| > 0 {
      var init, last := segs[..|segs| - 1], segs[|segs| - 1];
      assert segs == init + [last];
      StartCandidatesAre(init, t);
    }
  }

  lemma {:induction false} EndCandidatesAre(segs: seq<Segment>, excludeWrapup: bool, t: int)
    ensures t in EndCandidates(segs, excludeWrapup) <==> exists seg :: seg in segs && OffersEnd(seg, excludeWrapup, t)
  {
    if |segs| > 0 {
      var init, last := segs[..|segs| - 1], segs[|segs| - 1];
      assert segs == init + [last];
      EndCandidatesAre(init, excludeWrapup, t);
      assert t in SegmentEnds(last, excludeWrapup) <==> OffersEnd(last, excludeWrapup, t);
    }
  }

  /**
   * The start candidates are the parseable starts of the usable segments and the
   * conversation's start, which is `conversationStart` or, when that does not parse, `startTime`.
   */
  lemma StartCandidatesOfSession(session: Session, conv: Conversation, t: int)
    ensures t in AllStarts(session, Some(conv)) <==>
      (exists seg :: seg in session.segments && seg.segmentStart == At(t))
      || conv.conversationStart == At(t)
      || (!conv.conversationStart.At? && conv.startTime == At(t))
  {
    var usable := UsableSegments(session.segments);
    StartCandidatesAre(usable, t);
    if exists seg :: seg in session.segments && seg.segmentStart == At(t) {
      var seg :| seg in session.segments && seg.segmentStart == At(t);
      assert seg in usable;
    }
  }

  /**
   * The end candidates are what the usable segments offer (OffersEnd) and the conversation's
   * end, which is `conversationEnd` or, when that does not parse, `endTime`.
   */
  lemma EndCandidatesOfSession(session: Session, conv: Conversation, excludeWrapup: bool, t: int)
    ensures t in AllEnds(session, Some(conv), excludeWrapup) <==>
      (exists seg :: seg in session.segments && IsUsable(seg) && OffersEnd(seg, excludeWrapup, t))
      || conv.conversationEnd == At(t)
      || (!conv.conversationEnd.At? && conv.endTime == At(t))
  {
    var usable := UsableSegments(session.segments);
    EndCandidatesAre(usable, excludeWrapup, t);
  }

  /**
   * Whenever a window exists it runs from the least start candidate to the greatest end
   * candidate; there is none exactly when a candidate list is empty or every end candidate
   * is at or before every start candidate.
   */
  lemma WindowIsMinToMax(session: Session, conv: Option<Conversation>, excludeWrapup: bool)
    ensures var w, starts, ends := Window(session, conv, excludeWrapup), AllStarts(session, conv), AllEnds(session, conv, excludeWrapup);
      && (w.Some? ==>
            && w.value.start < w.value.end
            && w.value.start in starts && (forall s :: s in starts ==> w.value.start <= s)
            && w.value.end in ends && (forall e :: e in ends ==> e <= w.value.end))
      && (w.None? <==> |starts| == 0 || |ends| == 0 || forall s, e :: s in starts && e in ends ==> e <= s)
  {
    var w := Window(session, conv, excludeWrapup);
    var starts, ends := AllStarts(session, conv), AllEnds(session, conv, excludeWrapup);
    if |UsableSegments(session.segments)| == 0 && conv.None? {
      assert StartCandidates([]) == [];
      assert starts == [] && w == None;
    } else if |starts| == 0 || |ends| == 0 {
      assert w == None;
    } else {
      var start, end := MinOf(starts), MaxOf(ends);
      if end <= start {
        assert w == None;
        forall s, e | s in starts && e in ends ensures e <= s { }
      } else {
        assert w == Some(Interval(start, end));
        assert start in starts && end in ends && start < end;
      }
    }
  }

  /**
   * With wrap-up excluded, a usable wrap-up segment offers only its own start as an end
   * candidate, even when it carries an end; that start is an end candidate of the session.
   */
  lemma WrapupEndsAtItsStart(session: Session, conv: Option<Conversation>, seg: Segment)
    requires seg in session.segments && IsUsable(seg) && seg.segmentType == Wrapup
    ensures SegmentEnds(seg, true) == OptionToSeq(SafeDate(seg.segmentStart))
    ensures seg.segmentStart.At? ==> seg.segmentStart.t in AllEnds(session, conv, true)
  {
    if seg.segmentStart.At? {
      EndCandidatesAre(UsableSegments(session.segments), true, seg.segmentStart.t);
      assert OffersEnd(seg, true, seg.segmentStart.t);
    }
  }

  /** With wrap-up included, the parseable end of every usable segment is an end candidate. */
  lemma EveryEndCountsWithWrapup(session: Session, conv: Option<Conversation>, seg: Segment)
    requires seg in session.segments && IsUsable(seg) && seg.segmentEnd.At?
    ensures seg.segmentEnd.t in AllEnds(session, conv, false)
  {
    EndCandidatesAre(UsableSegments(session.segments), false, seg.segmentEnd.t);
    assert OffersEnd(seg, false, seg.segmentEnd.t);
  }

  /**
   * A session whose only segment has a start but no parseable end, with wrap-up included and
   * no conversation-level end, has no window (it is dropped, not an error).
   */
  lemma OpenSegmentHasNoWindow(start: int, segEnd: Stamp, kind: string, conv: Conversation, media: string)
    requires !segEnd.At?
    requires !conv.conversationEnd.At? && !conv.endTime.At?
    ensures Window(Session(media, [Segment(At(start), segEnd, kind)]), Some(conv), false).None?
  {
    var session := Session(media, [Segment(At(start), segEnd, kind)]);
    var ends := AllEnds(session, Some(conv), false);
    if |ends| > 0 {
      var e := ends[0];
      EndCandidatesOfSession(session, conv, false, e);
    }
  }
}
