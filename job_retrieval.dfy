/**
 * Waiting for the analytics job and collecting its results (backend/src/routes/insights.js,
 * lines 153-191). The network is a script: the k-th status request gets `fetch(k)`, and the
 * k-th results request gets `pages[k]`.
 */
module JobRetrieval {
  import opened Wrappers
  import opened Text
  import opened Records

  /** The number of status requests before giving up (line 9). */
  const MaxPollAttempts: nat := 60

  const JobsPath: string := "/api/v2/analytics/conversations/details/jobs/"

  /** The status URL of a job (line 154). */
  function JobUri(baseUrl: string, jobId: string): string
  {
    baseUrl + JobsPath + jobId
  }

  /** The first results URL of a job (line 170). */
  function ResultsUri(baseUrl: string, jobId: string): (r: string)
    ensures |r| > 0
  {
    JobUri(baseUrl, jobId) + "/results"
  }

  /** What one status reply means for the loop. */
  datatype JobState = Completed | Ended(state: string) | Pending

  /** The states that end the job without results (line 160). */
  predicate IsTerminalFailure(lowered: string)
  {
    lowered == "failed" || lowered == "canceled" || lowered == "cancelled"
  }

  /**
   * The reported state, lower-cased, decides: "completed" succeeds, "failed", "canceled" and
   * "cancelled" fail naming the lower-cased state, and anything else, a missing state
   * included, keeps the loop going.
   */
  function Classify(state: Option<string>): (r: JobState)
    ensures r.Completed? <==> state.Some? && Lower(state.value) == "completed"
    ensures r.Ended? <==> state.Some? && IsTerminalFailure(Lower(state.value))
    ensures r.Ended? ==> r.state == Lower(state.value)
  {
    match state
    case None => Pending
    case Some(s) =>
      var lowered := Lower(s);
      if lowered == "completed" then Completed
      else if IsTerminalFailure(lowered) then Ended(lowered)
      else Pending
  }

  /** Case does not matter to the classification. */
  lemma ClassifyIgnoresCase(a: string, b: string)
    requires EqualsIgnoreCase(a, b)
    ensures Classify(Some(a)) == Classify(Some(b))
  {
    EqualsIgnoreCaseIffLower(a, b);
  }

  /**
   * A reply to a status request: the job's `state` field (a string, or missing), or a request
   * that threw. A `state` that is neither a string nor nullish makes `toLowerCase` throw a
   * TypeError at line 157; that reply is an `Unreachable` carrying the TypeError's message,
   * since both end the poll with the thrown message.
   */
  datatype StatusReply = Status(state: Option<string>) | Unreachable(message: string)

  datatype PollError = JobEnded(state: string) | TimedOut | Transport(message: string)

  /** The message the error carries (lines 161, 166). */
  function PollErrorMessage(e: PollError): string
  {
    match e
    case JobEnded(state) => "Analytics job ended with state: " + state
    case TimedOut => "Analytics job did not complete in time"
    case Transport(message) => message
  }

  /** The timeout is told apart from a job that ended, whatever its state. */
  lemma TimeoutMessageIsDistinct(state: string)
    ensures PollErrorMessage(JobEnded(state)) != PollErrorMessage(TimedOut)
  {
    assert PollErrorMessage(JobEnded(state))[14] == 'e';
    assert PollErrorMessage(TimedOut)[14] == 'd';
  }

  predicate IsPendingReply(reply: StatusReply)
  {
    reply.Status? && Classify(reply.state).Pending?
  }

  /**
   * The attempt, from `k` on, whose reply ends the loop: the first one that is not pending,
   * or the last allowed attempt when every reply up to it is pending.
   */
  function DecidingAttempt(fetch: nat -> StatusReply, k: nat): (d: nat)
    requires k < MaxPollAttempts
    ensures k <= d < MaxPollAttempts
    ensures forall j :: k <= j < d ==> IsPendingReply(fetch(j))
    ensures d < MaxPollAttempts - 1 ==> !IsPendingReply(fetch(d))
    decreases MaxPollAttempts - k
  {
    if !IsPendingReply(fetch(k)) || k == MaxPollAttempts - 1 then k else DecidingAttempt(fetch, k + 1)
  }

  /** The number of status requests the loop makes against `fetch`. */
  function PollCalls(fetch: nat -> StatusReply): (n: nat)
    ensures 1 <= n <= MaxPollAttempts
  {
    DecidingAttempt(fetch, 0) + 1
  }

  /**
   * What a reply ends the poll with: a thrown request is a transport error, "completed" a
   * success, a terminal state an error naming it, and a pending reply (on the last attempt)
   * a timeout.
   */
  function Outcome(reply: StatusReply): Result<(), PollError>
  {
    match reply
    case Unreachable(message) => Err(Transport(message))
    case Status(state) =>
      match Classify(state)
      case Completed => Ok(())
      case Ended(lowered) => Err(JobEnded(lowered))
      case Pending => Err(TimedOut)
  }

  /** What the poll ends with: the outcome of the deciding reply. */
  function PollOutcome(fetch: nat -> StatusReply): Result<(), PollError>
  {
    Outcome(fetch(PollCalls(fetch) - 1))
  }

  /**
   * pollJobStatus: `calls` status requests are made, at least one and at most 60; every reply
   * before the last was pending, and the last one decides the outcome.
   */
  method PollJobStatus(fetch: nat -> StatusReply) returns (r: Result<(), PollError>, calls: nat)
    ensures calls == PollCalls(fetch) && r == PollOutcome(fetch)
  {
    var attempt: nat := 0;
    while attempt < MaxPollAttempts
      invariant attempt <= MaxPollAttempts
      invariant forall k :: 0 <= k < attempt ==> IsPendingReply(fetch(k))
    {
      var reply := fetch(attempt);
      calls := attempt + 1;
      if reply.Unreachable? {
        DecidedAt(fetch, attempt);
        return Err(Transport(reply.message)), calls;
      }
      var state := Classify(reply.state);
      if state.Completed? {
        DecidedAt(fetch, attempt);
        return Ok(()), calls;
      }
      if state.Ended? {
        DecidedAt(fetch, attempt);
        return Err(JobEnded(state.state)), calls;
      }
      attempt := attempt + 1;
    }
    calls := MaxPollAttempts;
    DecidedAt(fetch, MaxPollAttempts - 1);
    r := Err(TimedOut);
  }

  /**
   * What the poll promises: 1 to 60 status requests, every reply before the last one
   * pending, and the last one deciding: success on "completed", the lower-cased terminal
   * state, the thrown message, or a timeout exactly after 60 pending replies.
   */
  lemma PollOutcomeMeans(fetch: nat -> StatusReply)
    ensures var calls, r := PollCalls(fetch), PollOutcome(fetch);
      && 1 <= calls <= MaxPollAttempts
      && (forall k :: 0 <= k < calls - 1 ==> IsPendingReply(fetch(k)))
      && (r.Ok? <==> fetch(calls - 1).Status? && Classify(fetch(calls - 1).state).Completed?)
      && ((r.Err? && r.error.JobEnded?) <==> fetch(calls - 1).Status? && Classify(fetch(calls - 1).state).Ended?)
      && (r.Err? && r.error.JobEnded? ==> r.error.state == Classify(fetch(calls - 1).state).state)
      && ((r.Err? && r.error.Transport?) <==> fetch(calls - 1).Unreachable?)
      && (r.Err? && r.error.Transport? ==> r.error.message == fetch(calls - 1).message)
      && ((r.Err? && r.error.TimedOut?) <==> calls == MaxPollAttempts && IsPendingReply(fetch(calls - 1)))
  {
  }

  /**
   * The loop stops at `attempt` when every earlier reply was pending and this one is not,
   * or it is the last allowed: that is the deciding attempt and its reply gives the outcome.
   */
  lemma DecidedAt(fetch: nat -> StatusReply, attempt: nat)
    requires attempt < MaxPollAttempts
    requires forall k :: 0 <= k < attempt ==> IsPendingReply(fetch(k))
    requires !IsPendingReply(fetch(attempt)) || attempt == MaxPollAttempts - 1
    ensures PollCalls(fetch) == attempt + 1
    ensures PollOutcome(fetch) == Outcome(fetch(attempt))
  {
    var d := DecidingAttempt(fetch, 0);
  }

  /** One page of results: its `conversations` array, if it is one, and its `nextUri`. */
  datatype Page = Page(conversations: Option<seq<Conversation>>, nextUri: Option<string>)

  /** A reply to a results request: a page, or a request that threw. */
  datatype PageReply = Served(page: Page) | PageUnreachable(message: string)

  /**
   * The page script ran out while the loop still had a link to follow: a server that keeps
   * sending links lies outside any finite script.
   */
  datatype FetchError = PageFailed(message: string) | ScriptExhausted

  /** The conversations one page contributes: its array, or nothing when it has none. */
  function PageConversations(reply: PageReply): seq<Conversation>
  {
    if reply.Served? && reply.page.conversations.Some? then reply.page.conversations.value else []
  }

  /** The conversations of `replies`, in order. */
  function Collected(replies: seq<PageReply>): seq<Conversation>
  {
    if |replies| == 0 then []
    else Collected(replies[..|replies| - 1]) + PageConversations(replies[|replies| - 1])
  }

  /**
   * The next URL after page `p` (lines 178-186): a non-empty `nextUri` resolved against the
   * base URL; nothing when there is none or when `resolve` rejects it.
   */
  function NextLink(p: Page, resolve: string -> Option<string>): Option<string>
  {
    if p.nextUri.Some? && p.nextUri.value != "" then resolve(p.nextUri.value) else None
  }

  /** Whether the loop goes on after page `p`: its next link is a non-empty string. */
  predicate Continues(p: Page, resolve: string -> Option<string>)
  {
    NextLink(p, resolve).Some? && NextLink(p, resolve).value != ""
  }

  /**
   * The number of results requests the loop makes when request `i` goes to `pages[i]` (or
   * past the end of the script): it stops after a page that fails or has no next link.
   */
  function RequestCount(pages: seq<PageReply>, resolve: string -> Option<string>, i: nat): (n: nat)
    requires i <= |pages|
    ensures i < n <= |pages| + 1
    ensures forall k :: i <= k < n - 1 ==> pages[k].Served? && Continues(pages[k].page, resolve)
    ensures n <= |pages| ==> pages[n - 1].PageUnreachable? || !Continues(pages[n - 1].page, resolve)
    decreases |pages| - i
  {
    if i == |pages| then i + 1
    else if pages[i].PageUnreachable? || !Continues(pages[i].page, resolve) then i + 1
    else RequestCount(pages, resolve, i + 1)
  }

  /**
   * What fetchConversations ends with: the script running out while a link is pending, the
   * failure of the last page requested, or the conversations of every page requested.
   */
  function FetchOutcome(pages: seq<PageReply>, resolve: string -> Option<string>): Result<seq<Conversation>, FetchError>
  {
    var n := RequestCount(pages, resolve, 0);
    if n == |pages| + 1 then Err(ScriptExhausted)
    else if pages[n - 1].PageUnreachable? then Err(PageFailed(pages[n - 1].message))
    else Ok(Collected(pages[..n]))
  }

  /**
   * What the page loop promises: at least one request and at most one past the script;
   * every page but the last served with a link to follow. It succeeds exactly when the
   * last page is served without one, with the conversations of every page requested, and
   * fails exactly when the last page failed or the script ran out.
   */
  lemma FetchOutcomeMeans(pages: seq<PageReply>, resolve: string -> Option<string>)
    ensures var n, r := RequestCount(pages, resolve, 0), FetchOutcome(pages, resolve);
      && 1 <= n <= |pages| + 1
      && (forall k :: 0 <= k < n - 1 ==> pages[k].Served? && Continues(pages[k].page, resolve))
      && (r.Ok? <==> n <= |pages| && pages[n - 1].Served? && !Continues(pages[n - 1].page, resolve))
      && (r.Ok? ==> r.value == Collected(pages[..n]))
      && ((r.Err? && r.error.ScriptExhausted?) <==> n == |pages| + 1)
      && ((r.Err? && r.error.PageFailed?) <==> n <= |pages| && pages[n - 1].PageUnreachable?)
      && (r.Err? && r.error.PageFailed? ==> r.error.message == pages[n - 1].message)
  {
  }

  /** The loop stops where RequestCount does. */
  lemma FetchStopsAtRequestCount(pages: seq<PageReply>, resolve: string -> Option<string>, n: nat)
    requires 1 <= n <= |pages| + 1
    requires forall k :: 0 <= k < n - 1 ==> pages[k].Served? && Continues(pages[k].page, resolve)
    requires n <= |pages| ==> pages[n - 1].PageUnreachable? || !Continues(pages[n - 1].page, resolve)
    ensures n == RequestCount(pages, resolve, 0)
  {
    var m := RequestCount(pages, resolve, 0);
  }

  /**
   * fetchConversations: the requests go to the results URL and then to each page's resolved
   * link, as long as there is one; the result is every fetched page's conversations, in order.
   * A page with no link, or a link that does not resolve, ends the loop without error.
   */
  method FetchConversations(baseUrl: string, jobId: string, pages: seq<PageReply>, resolve: string -> Option<string>)
    returns (r: Result<seq<Conversation>, FetchError>, requested: seq<string>)
    ensures |requested| == RequestCount(pages, resolve, 0) && r == FetchOutcome(pages, resolve)
    ensures requested[0] == ResultsUri(baseUrl, jobId)
    ensures forall k :: 0 <= k < |requested| - 1 ==> requested[k + 1] == NextLink(pages[k].page, resolve).value
  {
    var nextUri: Option<string> := Some(ResultsUri(baseUrl, jobId));
    var conversations: seq<Conversation> := [];
    requested := [];
    var i := 0;
    while nextUri.Some? && nextUri.value != ""
      invariant 0 <= i <= |pages| && |requested| == i
      invariant i == 0 ==> nextUri == Some(ResultsUri(baseUrl, jobId))
      invariant i > 0 ==> requested[0] == ResultsUri(baseUrl, jobId)
      invariant i > 0 ==> pages[i - 1].Served? && nextUri == NextLink(pages[i - 1].page, resolve)
      invariant forall k :: 0 <= k < i - 1 ==> pages[k].Served? && Continues(pages[k].page, resolve)
      invariant forall k :: 0 <= k < i - 1 ==> requested[k + 1] == NextLink(pages[k].page, resolve).value
      invariant conversations == Collected(pages[..i])
      decreases |pages| - i
    {
      requested := requested + [nextUri.value];
      if i == |pages| {
        FetchStopsAtRequestCount(pages, resolve, |requested|);
        return Err(ScriptExhausted), requested;
      }
      var reply := pages[i];
      if reply.PageUnreachable? {
        FetchStopsAtRequestCount(pages, resolve, |requested|);
        return Err(PageFailed(reply.message)), requested;
      }
      assert pages[..i + 1][..i] == pages[..i];
      conversations, nextUri := ReadPage(reply, conversations, resolve);
      i := i + 1;
    }
    assert i > 0;
    FetchStopsAtRequestCount(pages, resolve, |requested|);
    r := Ok(conversations);
  }

  /** One pass of the loop body after a page arrives (lines 174-186). */
  method ReadPage(reply: PageReply, conversations: seq<Conversation>, resolve: string -> Option<string>)
    returns (conversations': seq<Conversation>, nextUri: Option<string>)
    requires reply.Served?
    ensures conversations' == conversations + PageConversations(reply)
    ensures nextUri == NextLink(reply.page, resolve)
  {
    var data := reply.page;
    conversations' := conversations;
    if data.conversations.Some? {
      conversations' := conversations' + data.conversations.value;
    }
    if data.nextUri.Some? && data.nextUri.value != "" {
      nextUri := resolve(data.nextUri.value);
    } else {
      nextUri := None;
    }
  }

  /** Every page's conversations are kept, in page order. */
  lemma {:induction false} CollectedAppend(a: seq<PageReply>, b: seq<PageReply>)
    ensures Collected(a + b) == Collected(a) + Collected(b)
  {
    if |b| > 0 {
      assert (a + b)[..|a + b| - 1] == a + b[..|b| - 1];
      CollectedAppend(a, b[..|b| - 1]);
    } else {
      assert a + b == a;
    }
  }
}
