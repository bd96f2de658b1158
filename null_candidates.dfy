/**
 * Lines 65 and 68 of backend/src/routes/insights.js push the result of safeDate into
 * endCandidates without checking it, so an unparseable timestamp becomes a null candidate;
 * the reduce on line 86 and the test on line 87 then compare Dates with null, which
 * JavaScript does numerically, reading null as 0. This module models that list as written
 * and proves that, for instants after the epoch, it yields the same window as the model in
 * SessionWindow, which leaves unparseable values out.
 */
module NullCandidates {
  import opened Wrappers
  import opened Records
  import opened WindowExtractor
  import WindowExtractorFacts

  /** One usable segment's pushes onto endCandidates as written, nulls included (lines 56-69). */
  function RawSegmentEnds(seg: Segment, excludeWrapup: bool): seq<Option<int>>
  {
    var isWrapup := seg.segmentType == Wrapup;
    (if SafeDate(seg.segmentStart).Some? && (!excludeWrapup || !isWrapup) && SafeDate(seg.segmentEnd).Some?
     then [SafeDate(seg.segmentEnd)] else [])
    + (if excludeWrapup && isWrapup && Truthy(seg.segmentStart) then [SafeDate(seg.segmentStart)] else [])
    + (if !excludeWrapup && Truthy(seg.segmentEnd) then [SafeDate(seg.segmentEnd)] else [])
  }

  function RawEndCandidates(segs: seq<Segment>, excludeWrapup: bool): seq<Option<int>>
  {
    if |segs| == 0 then []
    else RawEndCandidates(segs[..|segs| - 1], excludeWrapup) + RawSegmentEnds(segs[|segs| - 1], excludeWrapup)
  }

  function RawAllEnds(session: Session, conv: Option<Conversation>, excludeWrapup: bool): seq<Option<int>>
  {
    RawEndCandidates(UsableSegments(session.segments), excludeWrapup)
    + (if ConversationEnd(conv).Some? then [ConversationEnd(conv)] else [])
  }

  /** The number a Date or null stands for in a JavaScript comparison. */
  function JsNumber(o: Option<int>): int
  {
    if o.Some? then o.value else 0
  }

  /** endCandidates.reduce((a, b) => (a > b ? a : b)) on a list that may hold nulls. */
  function RawMax(xs: seq<Option<int>>): Option<int>
    requires |xs| > 0
  {
    if |xs| == 1 then xs[0]
    else
      var a, b := RawMax(xs[..|xs| - 1]), xs[|xs| - 1];
      if JsNumber(a) > JsNumber(b) then a else b
  }

  /** sessionWindow as written: nulls stay in endCandidates and compare as 0. */
  function RawWindow(session: Session, conv: Option<Conversation>, excludeWrapup: bool): Option<Interval>
  {
    if |UsableSegments(session.segments)| == 0 && conv.None? then None
    else
      var starts, ends := AllStarts(session, conv), RawAllEnds(session, conv, excludeWrapup);
      if |starts| == 0 || |ends| == 0 then None
      else
        var start, end := MinOf(starts), RawMax(ends);
        if JsNumber(end) <= start then None else Some(Interval(start, JsNumber(end)))
  }

  /** The non-null elements of a list, in order. */
  function Present(xs: seq<Option<int>>): seq<int>
  {
    if |xs| == 0 then []
    else Present(xs[..|xs| - 1]) + OptionToSeq(xs[|xs| - 1])
  }

  lemma {:induction false} PresentHas(xs: seq<Option<int>>, t: int)
    requires Some(t) in xs
    ensures t in Present(xs)
  {
    var init, last := xs[..|xs| - 1], xs[|xs| - 1];
    assert xs == init + [last];
    if last != Some(t) {
      PresentHas(init, t);
    }
  }

  predicate PositiveStamp(s: Stamp)
  {
    s.At? ==> s.t > 0
  }

  /** Every timestamp of the session and of its conversation is after the epoch. */
  predicate AfterEpoch(session: Session, conv: Option<Conversation>)
  {
    && (forall seg :: seg in session.segments ==> PositiveStamp(seg.segmentStart) && PositiveStamp(seg.segmentEnd))
    && (conv.Some? ==>
          && PositiveStamp(conv.value.conversationStart) && PositiveStamp(conv.value.startTime)
          && PositiveStamp(conv.value.conversationEnd) && PositiveStamp(conv.value.endTime))
  }

  lemma PresentSegmentEnds(seg: Segment, excludeWrapup: bool)
    requires IsUsable(seg)
    ensures Present(RawSegmentEnds(seg, excludeWrapup)) == SegmentEnds(seg, excludeWrapup)
  {
    var isWrapup := seg.segmentType == Wrapup;
    var p1 := if SafeDate(seg.segmentStart).Some? && (!excludeWrapup || !isWrapup) && SafeDate(seg.segmentEnd).Some?
              then [SafeDate(seg.segmentEnd)] else [];
    var p2 := if excludeWrapup && isWrapup && Truthy(seg.segmentStart) then [SafeDate(seg.segmentStart)] else [];
    var p3 := if !excludeWrapup && Truthy(seg.segmentEnd) then [SafeDate(seg.segmentEnd)] else [];
    PresentAppend(p1 + p2, p3);
    PresentAppend(p1, p2);
    PresentSingle(SafeDate(seg.segmentEnd));
    PresentSingle(SafeDate(seg.segmentStart));
    assert Present([]) == [];
  }

  lemma PresentSingle(o: Option<int>)
    ensures Present([o]) == OptionToSeq(o)
  {
    assert [o][..0] == [];
  }

  lemma {:induction false} PresentEnds(segs: seq<Segment>, excludeWrapup: bool)
    requires forall seg :: seg in segs ==> IsUsable(seg)
    ensures Present(RawEndCandidates(segs, excludeWrapup)) == EndCandidates(segs, excludeWrapup)
  {
    if |segs| > 0 {
      var init, last := segs[..|segs| - 1], segs[|segs| - 1];
      assert last in segs;
      assert forall seg :: seg in init ==> seg in segs;
      PresentEnds(init, excludeWrapup);
      PresentAppend(RawEndCandidates(init, excludeWrapup), RawSegmentEnds(last, excludeWrapup));
      PresentSegmentEnds(last, excludeWrapup);
    }
  }

  lemma {:induction false} PresentAppend(a: seq<Option<int>>, b: seq<Option<int>>)
    ensures Present(a + b) == Present(a) + Present(b)
  {
    if |b| > 0 {
      var b', x := b[..|b| - 1], b[|b| - 1];
      assert (a + b)[..|a + b| - 1] == a + b';
      PresentAppend(a, b');
    } else {
      assert a + b == a;
    }
  }

  /** With no non-positive instants, the reduce over a list with nulls finds the greatest instant, or a null (0) when there is none. */
  lemma {:induction false} RawMaxIsMax(xs: seq<Option<int>>)
    requires |xs| > 0
    requires forall o :: o in xs && o.Some? ==> o.value > 0
    ensures Present(xs) == [] ==> RawMax(xs) == None
    ensures Present(xs) != [] ==> RawMax(xs) == Some(MaxOf(Present(xs)))
  {
    if |xs| == 1 {
      PresentSingle(xs[0]);
      assert xs == [xs[0]];
    } else {
      var init, b := xs[..|xs| - 1], xs[|xs| - 1];
      assert xs == init + [b];
      assert forall o :: o in init ==> o in xs;
      RawMaxIsMax(init);
      PresentAppend(init, [b]);
      PresentSingle(b);
      var m := Present(xs);
      assert m == Present(init) + OptionToSeq(b);
      if m != [] {
        var top := MaxOf(m);
        if Present(init) != [] {
          var a := MaxOf(Present(init));
          assert a in m;
          if b.Some? {
            assert b.value in m;
            if b.value >= a {
              assert top == b.value;
            } else {
              assert top == a;
            }
          } else {
            assert m == Present(init);
          }
        } else {
          assert m == [b.value];
        }
      }
    }
  }

  /** After the epoch, every start and end candidate is positive. */
  lemma CandidatesAfterEpoch(session: Session, conv: Option<Conversation>, excludeWrapup: bool)
    requires AfterEpoch(session, conv)
    ensures forall t :: t in AllStarts(session, conv) ==> t > 0
    ensures forall t :: t in AllEnds(session, conv, excludeWrapup) ==> t > 0
  {
    var usable := UsableSegments(session.segments);
    forall t | t in StartCandidates(usable) ensures t > 0 {
      WindowExtractorFacts.StartCandidatesAre(usable, t);
    }
    forall t | t in EndCandidates(usable, excludeWrapup) ensures t > 0 {
      WindowExtractorFacts.EndCandidatesAre(usable, excludeWrapup, t);
    }
  }

  /** The non-null raw end candidates are the modelled ones. */
  lemma PresentAllEnds(session: Session, conv: Option<Conversation>, excludeWrapup: bool)
    ensures Present(RawAllEnds(session, conv, excludeWrapup)) == AllEnds(session, conv, excludeWrapup)
  {
    var usable := UsableSegments(session.segments);
    var tail := if ConversationEnd(conv).Some? then [ConversationEnd(conv)] else [];
    PresentEnds(usable, excludeWrapup);
    PresentAppend(RawEndCandidates(usable, excludeWrapup), tail);
    if ConversationEnd(conv).Some? {
      PresentSingle(ConversationEnd(conv));
    } else {
      assert Present(tail) == [];
    }
  }

  /** After the epoch, every non-null raw end candidate is positive. */
  lemma RawEndsPositive(session: Session, conv: Option<Conversation>, excludeWrapup: bool)
    requires AfterEpoch(session, conv)
    ensures forall o :: o in RawAllEnds(session, conv, excludeWrapup) && o.Some? ==> o.value > 0
  {
    var raw := RawAllEnds(session, conv, excludeWrapup);
    PresentAllEnds(session, conv, excludeWrapup);
    CandidatesAfterEpoch(session, conv, excludeWrapup);
    forall o | o in raw && o.Some? ensures o.value > 0 {
      PresentHas(raw, o.value);
    }
  }

  /** Null end candidates are harmless: for instants after the epoch, the window as written is the modelled one. */
  lemma NullEndsAreHarmless(session: Session, conv: Option<Conversation>, excludeWrapup: bool)
    requires AfterEpoch(session, conv)
    ensures RawWindow(session, conv, excludeWrapup) == Window(session, conv, excludeWrapup)
  {
    var raw := RawAllEnds(session, conv, excludeWrapup);
    var ends := AllEnds(session, conv, excludeWrapup);
    var starts := AllStarts(session, conv);
    PresentAllEnds(session, conv, excludeWrapup);
    if |UsableSegments(session.segments)| > 0 || conv.Some? {
      if |starts| > 0 && |raw| > 0 {
        assert MinOf(starts) > 0 by {
          CandidatesAfterEpoch(session, conv, excludeWrapup);
        }
        RawEndsPositive(session, conv, excludeWrapup);
        RawMaxIsMax(raw);
        var start := MinOf(starts);
        if |ends| == 0 {
          assert JsNumber(RawMax(raw)) == 0;
          assert RawWindow(session, conv, excludeWrapup) == None;
        } else {
          var end := MaxOf(ends);
          assert RawMax(raw) == Some(end);
          if end <= start {
            assert RawWindow(session, conv, excludeWrapup) == None;
            assert Window(session, conv, excludeWrapup) == None;
          } else {
            assert RawWindow(session, conv, excludeWrapup) == Some(Interval(start, end));
            assert Window(session, conv, excludeWrapup) == Some(Interval(start, end));
          }
        }
      } else if |starts| > 0 {
        assert Present(raw) == [];
      }
    }
  }
}
