/**
 * The POST /peakConcurrency handler (backend/src/routes/insights.js, lines 193-253): request
 * validation, then job creation, polling, result collection and the sweep, each failure
 * turned into an error response.
 */
module PeakRequest {
  import opened Wrappers
  import opened Text
  import opened Json
  import opened Records
  import opened PeakMetrics
  import opened JobRetrieval

  /** The default report window reaches back one day from now (line 202). */
  const DayMs: int := 24 * 60 * 60 * 1000

  const TokenRequired: string := "Genesys access token required"
  const InvalidDates: string := "Invalid startDate/endDate"
  const JobNotCreated: string := "Failed to create analytics job"

  /**
   * The parts of a request the handler reads: the body's dates, `excludeWrapup` and
   * `genesysToken`, and the `x-genesys-token` and `Authorization` headers.
   */
  datatype Request = Request(
    startDate: Stamp,
    endDate: Stamp,
    excludeWrapup: Option<Json>,
    bodyToken: Option<string>,
    tokenHeader: Option<string>,
    authorization: Option<string>)

  predicate Filled(s: Option<string>)
  {
    s.Some? && s.value != ""
  }

  predicate HasBearerPrefix(h: string)
  {
    |h| >= 7 && EqualsIgnoreCase(h[..6], "bearer") && IsWhitespace(h[6])
  }

  /**
   * The Authorization header with a leading "Bearer", in any case, and the whitespace after
   * it removed (the replace of line 197); other headers unchanged.
   */
  function StripBearer(h: string): (r: string)
    ensures |r| <= |h| && r == h[|h| - |r|..]
    ensures HasBearerPrefix(h) <==> |r| < |h|
    ensures |r| < |h| ==> |h| - |r| >= 7 && Blank(h[6..|h| - |r|]) && (|r| > 0 ==> !IsWhitespace(r[0]))
  {
    if HasBearerPrefix(h) then TrimStart(h[6..]) else h
  }

  /**
   * The Genesys token (lines 195-196): the body's token, else the token header, else the
   * Authorization header without its Bearer prefix; none when the chosen value is empty.
   */
  function Token(req: Request): (r: Option<string>)
    ensures r.Some? ==> r.value != ""
    ensures Filled(req.bodyToken) ==> r == req.bodyToken
    ensures !Filled(req.bodyToken) && Filled(req.tokenHeader) ==> r == req.tokenHeader
    ensures !Filled(req.bodyToken) && !Filled(req.tokenHeader) ==>
      (r.Some? <==> req.authorization.Some? && StripBearer(req.authorization.value) != "")
    ensures !Filled(req.bodyToken) && !Filled(req.tokenHeader) && r.Some? ==>
      r.value == StripBearer(req.authorization.value)
  {
    if Filled(req.bodyToken) then req.bodyToken
    else if Filled(req.tokenHeader) then req.tokenHeader
    else if req.authorization.Some? && StripBearer(req.authorization.value) != "" then
      Some(StripBearer(req.authorization.value))
    else None
  }

  datatype Validated = Validated(token: string, startUtc: int, endUtc: int, excludeWrapup: bool)

  /** The report window's start: the parsed start date, else one day before now (line 202). */
  function StartUtc(req: Request, now: int): int
  {
    match SafeDate(req.startDate)
    case Some(t) => t
    case None => now - DayMs
  }

  /** The report window's end: the parsed end date, else now (line 203). */
  function EndUtc(req: Request, now: int): int
  {
    match SafeDate(req.endDate)
    case Some(t) => t
    case None => now
  }

  /** `excludeWrapup` defaults to true only when it is absent, and is otherwise read as truthy. */
  function ExcludeWrapup(req: Request): bool
  {
    match req.excludeWrapup
    case None => true
    case Some(v) => IsTruthy(v)
  }

  /**
   * Validation (lines 194-206): a token is required first, then the window must be
   * non-empty; a passing request carries the token, the window and the wrap-up flag.
   */
  function Validate(req: Request, now: int): (r: Result<Validated, string>)
    ensures r.Err? <==> Token(req).None? || EndUtc(req, now) <= StartUtc(req, now)
    ensures r.Err? && Token(req).None? ==> r.error == TokenRequired
    ensures r.Err? && Token(req).Some? ==> r.error == InvalidDates
    ensures r.Ok? ==> r.value.startUtc < r.value.endUtc
    ensures r.Ok? ==> r.value == Validated(Token(req).value, StartUtc(req, now), EndUtc(req, now), ExcludeWrapup(req))
  {
    match Token(req)
    case None => Err(TokenRequired)
    case Some(token) =>
      var startUtc := StartUtc(req, now);
      var endUtc := EndUtc(req, now);
      if endUtc <= startUtc then Err(InvalidDates)
      else Ok(Validated(token, startUtc, endUtc, ExcludeWrapup(req)))
  }

  /** Without dates, a request with a token reports on the day up to now. */
  lemma DefaultWindowIsLastDay(req: Request, now: int)
    requires Token(req).Some?
    requires !req.startDate.At? && !req.endDate.At?
    ensures Validate(req, now).Ok?
    ensures Validate(req, now).value.endUtc == now
    ensures Validate(req, now).value.endUtc - Validate(req, now).value.startUtc == DayMs
  {
  }

  /** A missing token is reported before anything about the dates. */
  lemma TokenCheckedFirst(req: Request, now: int)
    requires Token(req).None?
    ensures Validate(req, now) == Err(TokenRequired)
  {
  }

  /** The reply to the job-creation request: the job's `id`, or a request that threw. */
  datatype CreateReply = Created(id: Option<string>) | CreateFailed(message: string)

  /**
   * The handler's answer: 400 with an error, 502 with an error, or the job id, the number of
   * conversations and the peak report. ScriptEnded is the page script running out.
   */
  datatype Response =
    | BadRequest(error: string)
    | BadGateway(error: string)
    | ScriptEnded
    | Success(jobId: string, totalConversations: nat, report: PeakReport)

  /** The peak report for `conversations` over the validated window. */
  predicate ReportsOn(report: PeakReport, v: Validated, conversations: seq<Conversation>)
  {
    && report.startDateUtc == v.startUtc
    && report.endDateUtc == v.endUtc
    && report.bucket == BucketLabel
    && IsPeakSummary(ConversationsSpans(conversations, v.startUtc, TotalMinutes(v.startUtc, v.endUtc), v.excludeWrapup),
                     v.startUtc, TotalMinutes(v.startUtc, v.endUtc),
                     report.peakConcurrent, report.firstPeakMinuteUtc, report.peakMinutesUtc)
  }

  /** The largest length of a JavaScript array, 2^32 - 1 (ArrayCreate, section 10.4.2.2 of ECMA-262). */
  const MaxArrayLength: int := 0xFFFF_FFFF

  /** The message of the RangeError `new Array(n)` throws for a length past MaxArrayLength. */
  const InvalidArrayLength: string := "Invalid array length"

  /**
   * The difference array of line 96 has totalMinutes + 2 cells: a window so long that this
   * exceeds the largest array length makes the sweep throw before it starts.
   */
  predicate WindowTooLong(v: Validated)
  {
    TotalMinutes(v.startUtc, v.endUtc) + 2 > MaxArrayLength
  }

  /** The job was created: validation passed and the reply carries a non-empty id. */
  predicate JobCreated(req: Request, now: int, created: CreateReply)
  {
    Validate(req, now).Ok? && created.Created? && Filled(created.id)
  }

  /**
   * The handler: an invalid request is a 400 with the validation message. A job that was
   * not created, failed, timed out, or whose results could not be fetched is a 502 with the
   * thrown message, and so is a window too long for the difference array. Otherwise the answer reports on the conversations of every results page
   * requested.
   */
  method PeakConcurrency(req: Request, now: int, baseUrl: string, created: CreateReply,
                         fetch: nat -> StatusReply, pages: seq<PageReply>, resolve: string -> Option<string>)
    returns (resp: Response)
    ensures resp.BadRequest? <==> Validate(req, now).Err?
    ensures resp.BadRequest? ==> resp.error == Validate(req, now).error
    ensures Validate(req, now).Ok? && created.Created? && !Filled(created.id) ==> resp == BadGateway(JobNotCreated)
    ensures Validate(req, now).Ok? && created.CreateFailed? ==> resp == BadGateway(created.message)
    ensures JobCreated(req, now, created) && PollOutcome(fetch).Err? ==>
      resp == BadGateway(PollErrorMessage(PollOutcome(fetch).error))
    ensures JobCreated(req, now, created) && PollOutcome(fetch).Ok? && FetchOutcome(pages, resolve).Err? ==>
      resp == (match FetchOutcome(pages, resolve).error
               case PageFailed(message) => BadGateway(message)
               case ScriptExhausted => ScriptEnded)
    ensures JobCreated(req, now, created) && PollOutcome(fetch).Ok? && FetchOutcome(pages, resolve).Ok? ==>
      (WindowTooLong(Validate(req, now).value) ==> resp == BadGateway(InvalidArrayLength))
    ensures resp.Success? <==>
      && JobCreated(req, now, created) && PollOutcome(fetch).Ok? && FetchOutcome(pages, resolve).Ok?
      && !WindowTooLong(Validate(req, now).value)
    ensures resp.Success? ==>
      && resp.jobId == created.id.value
      && resp.totalConversations == |FetchOutcome(pages, resolve).value|
      && FetchOutcome(pages, resolve).value == Collected(pages[..RequestCount(pages, resolve, 0)])
      && ReportsOn(resp.report, Validate(req, now).value, FetchOutcome(pages, resolve).value)
  {
    var v := Validate(req, now);
    if v.Err? {
      return BadRequest(v.error);
    }
    var valid := v.value;
    if created.CreateFailed? {
      return BadGateway(created.message);
    }
    if !Filled(created.id) {
      return BadGateway(JobNotCreated);
    }
    var jobId := created.id.value;
    var polled, calls := PollJobStatus(fetch);
    if polled.Err? {
      return BadGateway(PollErrorMessage(polled.error));
    }
    var fetched, requested := FetchConversations(baseUrl, jobId, pages, resolve);
    if fetched.Err? {
      if fetched.error.PageFailed? {
        return BadGateway(fetched.error.message);
      }
      return ScriptEnded;
    }
    var conversations := fetched.value;
    if WindowTooLong(valid) {
      return BadGateway(InvalidArrayLength);
    }
    var report := ComputePeakMetrics(conversations, valid.startUtc, valid.endUtc, valid.excludeWrapup);
    resp := Success(jobId, |conversations|, report);
  }
}
