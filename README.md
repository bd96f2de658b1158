# Genesys API Portal: peak concurrency and endpoint utilities, in Dafny

This project models the computational core of the Genesys API Portal and proves properties of it.

- **Backend: the peak-concurrency report** (`backend/src/routes/insights.js`):
  - the minute rounding helpers;
  - `safeDate`;
  - `sessionWindow`, the interval during which one voice session counts as an active call;
  - `computePeakMetrics`, a difference-array sweep at one-minute resolution;
  - `pollJobStatus`, the bounded poll of the analytics job;
  - `fetchConversations`, which follows `nextUri` links;
  - the validation and error mapping of the `POST /peakConcurrency` handler.
- **Frontend: the endpoint utilities** (`frontend/src/utils/endpoint.js`):
  - the method preference order;
  - `buildPathWithParams`;
  - `buildSampleFromSchema`;
  - `pickFirstEndpoint`.
- **Frontend: the ordering of the endpoint tree** (`frontend/src/components/EndpointTree.jsx`).
- **Frontend: the request rules of the query editor** (`frontend/src/components/QueryEditor.jsx`):
  - `sanitizeParams`;
  - `parseBody`;
  - the de-duplication and split of parameter definitions;
  - the precedence of initial parameter values;
  - the missing required path parameter check.

The model follows the form of the source.

- **Stepwise code becomes methods.** The forEach loops of `sessionWindow`, the in-place difference array of `computePeakMetrics`, the poll and page loops, the substitution loop of `buildPathWithParams`, the nested loops of `pickFirstEndpoint`, the `reduce` of `sanitizeParams` and the `forEach` of `parameterDefinitions` are Dafny methods with loops. Each is proved against a specification function or predicate.
- **Expressions and recursion become functions.** The minute helpers, `safeDate`, `buildSampleFromSchema`, the EndpointTree comparator, `parseBody` and the `??` chains are functions.

Representation:

- Instants are whole milliseconds since the Unix epoch.
- A raw timestamp field is a `Stamp`: a missing (falsy) field, an unparseable text, or a parsed instant.
- JSON values are a `Json` datatype. Objects list their members in enumeration order.
- JavaScript `undefined` is `None`.

Library behaviour the core relies on is passed in as a parameter, or reduced to the cases the code depends on:

- `encodeURIComponent`, `JSON.parse`, `new URL(...)` resolution and `localeCompare` are parameters.
- `toLowerCase`, `trim` and the default sort order are modelled only for the characters where their behaviour matters here.

The network is a script:

- the k-th status request gets `fetch(k)`;
- the k-th results request gets `pages[k]`.

Three behaviours of the code are easy to overlook; the model follows the code:

- **Peak minutes of overlapping calls.** Take two overlapping calls over minutes [0, 2) and [1, 3). The peak of 2 is reached only at minute 1: the first call ends exactly where minute 2 begins, and buckets are half-open, so minute 2 counts one call (`PeakFacts.TwoOverlappingCalls`).
- **Report windows that start mid-minute.** If the report window does not start on a minute boundary, the absolute minute rounding and the relative bucket index disagree. A short call lying wholly inside the report window can then occupy no bucket (`PeakFacts.UnalignedStartDropsShortCall`). The overlap reading of buckets holds only for aligned windows (`PeakFacts.BucketMeansOverlap`).
- **Unparseable timestamps in the end candidates.** Lines 65 and 68 of `sessionWindow` push the result of `safeDate` unchecked, so an unparseable timestamp becomes a `null` end candidate. JavaScript compares it as 0. The model of `sessionWindow` leaves such values out. `NullCandidates.NullEndsAreHarmless` proves that, for instants after the epoch, the code as written gives the same window.

## Model

| member | source | states |
|---|---|---|
| Records.SafeDate | backend/src/routes/insights.js:29-38 | An instant exactly for a field that parses, and that instant; nothing for a missing or unparseable field |
| Minutes.FloorToMinute | backend/src/routes/insights.js:15-19 | A minute boundary no later than `d`, less than a minute before it |
| Minutes.CeilToMinute | backend/src/routes/insights.js:21-27 | A minute boundary no earlier than `d`, less than a minute after it |
| Minutes.FloorToMinuteUnique | backend/src/routes/insights.js:15-19 | Those two properties determine the floor: any such boundary is it |
| Minutes.FloorCeilGap | backend/src/routes/insights.js:15-27 | floor(d) <= d <= ceil(d); they differ by 0 when `d` is on a minute boundary, by 60000 ms otherwise |
| Minutes.RoundingFixesBoundaries | backend/src/routes/insights.js:15-27 | Each rounding leaves `d` unchanged exactly when `d` is on a minute boundary |
| Minutes.MinutesFloor | backend/src/routes/insights.js:98 | Math.floor of a millisecond count divided by 60000, as bounds |
| Minutes.MinutesCeil | backend/src/routes/insights.js:95 | Math.ceil of a millisecond count divided by 60000, as bounds |
| Minutes.MinuteAt | backend/src/routes/insights.js:135-139 | The label of bucket `i` lies `i` minutes after the report start |
| WindowExtractor.UsableSegments | backend/src/routes/insights.js:41-42 | Exactly the segments with a truthy `segmentStart` |
| WindowExtractor.SegmentEnds | backend/src/routes/insights.js:56-69 | One segment's end candidates, nulls left out (EndCandidatesAre and NullCandidates.PresentSegmentEnds state them) |
| WindowExtractor.ConversationStart | backend/src/routes/insights.js:72 | The parsed `conversationStart`, else the parsed `startTime` |
| WindowExtractor.ConversationEnd | backend/src/routes/insights.js:73 | The parsed `conversationEnd`, else the parsed `endTime` |
| WindowExtractor.MinOf | backend/src/routes/insights.js:85 | The reduce returns an element no greater than any element |
| WindowExtractor.MaxOf | backend/src/routes/insights.js:86 | The reduce returns an element no smaller than any element |
| WindowExtractor.Window | backend/src/routes/insights.js:81-91 | A returned window has start < end |
| WindowExtractor.VisitSegment | backend/src/routes/insights.js:52-70 | One pass of the forEach appends that segment's start and end candidates |
| WindowExtractor.CollectCandidates | backend/src/routes/insights.js:49-70 | The loop collects every usable segment's candidates, in order |
| WindowExtractor.SessionWindow | backend/src/routes/insights.js:40-92 | sessionWindow returns the window of the session's candidates, and start < end whenever it returns one |
| WindowExtractorFacts.StartCandidatesAre | backend/src/routes/insights.js:52-55 | `t` is a segment start candidate exactly when some segment's start parses to `t` |
| WindowExtractorFacts.EndCandidatesAre | backend/src/routes/insights.js:52-70 | `t` is a segment end candidate exactly when some segment offers it (OffersEnd: wrap-up rules included) |
| WindowExtractorFacts.StartCandidatesOfSession | backend/src/routes/insights.js:72-76 | The start candidates are the segment starts plus `conversationStart`, falling back to `startTime` |
| WindowExtractorFacts.EndCandidatesOfSession | backend/src/routes/insights.js:73-79 | The end candidates are what usable segments offer plus `conversationEnd`, falling back to `endTime` |
| WindowExtractorFacts.WindowIsMinToMax | backend/src/routes/insights.js:81-91 | A window runs from the least start candidate to the greatest end candidate. There is none exactly when a list is empty or no end is after every start |
| WindowExtractorFacts.WrapupEndsAtItsStart | backend/src/routes/insights.js:56-66 | With wrap-up excluded, a wrap-up segment offers only its start as an end candidate, never its end; that start is an end candidate |
| WindowExtractorFacts.EveryEndCountsWithWrapup | backend/src/routes/insights.js:67-69 | With wrap-up included, every parseable segment end of a usable segment is an end candidate |
| WindowExtractorFacts.OpenSegmentHasNoWindow | backend/src/routes/insights.js:81-83 | A session whose only end candidate is missing yields no window, not an error |
| NullCandidates.PresentSegmentEnds | backend/src/routes/insights.js:56-69 | The non-null pushes of one segment, as written, are the modelled end candidates |
| NullCandidates.PresentEnds | backend/src/routes/insights.js:52-70 | The same for all usable segments |
| NullCandidates.PresentAllEnds | backend/src/routes/insights.js:52-79 | The same with the conversation's end |
| NullCandidates.RawMaxIsMax | backend/src/routes/insights.js:86 | For positive instants, the reduce over a list with nulls gives the greatest instant, or null when there is none |
| NullCandidates.NullEndsAreHarmless | backend/src/routes/insights.js:64-89 | After the epoch, the window computed with the null candidates equals the modelled window |
| PeakMetrics.TotalMinutes | backend/src/routes/insights.js:95 | At least 1; the least number of whole minutes covering a non-empty report window |
| PeakMetrics.BucketMinutes | backend/src/routes/insights.js:98 | Whole minutes from the report start to `d`, rounded down (MinutesFloor states it) |
| PeakMetrics.BucketSpan | backend/src/routes/insights.js:114-118 | The clamped buckets lie in [0, totalMinutes); there are none exactly when the clamped end is at or before the clamped start |
| PeakMetrics.SessionSpans | backend/src/routes/insights.js:105-118 | What one session adds stays within the bucket range |
| PeakMetrics.SessionsSpans | backend/src/routes/insights.js:103-122 | The same for the sessions of a participant |
| PeakMetrics.ParticipantsSpans | backend/src/routes/insights.js:101-123 | The same for the participants of a conversation |
| PeakMetrics.ConversationsSpans | backend/src/routes/insights.js:100-124 | The same for all conversations |
| PeakMetrics.DeltaAppend | backend/src/routes/insights.js:120-121 | The difference array of two span lists is the sum of theirs |
| PeakMetrics.CountStep | backend/src/routes/insights.js:131-132 | The running sum up to bucket `i` is the number of spans occupying bucket `i` |
| PeakMetrics.AddSession | backend/src/routes/insights.js:104-122 | Writes exactly the session's span into the difference array (+1 at its start, -1 at its end) |
| PeakMetrics.AddSessions | backend/src/routes/insights.js:104-122 | The same for a participant's sessions |
| PeakMetrics.AddParticipants | backend/src/routes/insights.js:102-123 | The same for a conversation's participants |
| PeakMetrics.SweepPeaks | backend/src/routes/insights.js:126-141 | The peak is the greatest concurrency of any bucket. The peak minutes are the labels of exactly the buckets reaching a positive peak, increasing. The first peak minute is the first of them; with peak 0 there is none |
| PeakMetrics.SummaryFromIndices | backend/src/routes/insights.js:126-141 | The sweep's loop invariants at the end establish that summary |
| PeakMetrics.ComputePeakMetrics | backend/src/routes/insights.js:94-151 | The report carries the report window and "1m", and its peak fields are the summary of all voice sessions' spans |
| PeakFacts.PeakSummaryIsUnique | backend/src/routes/insights.js:126-141 | The summary determines peak, first peak minute and peak minutes uniquely |
| PeakFacts.NoIntervalsNoPeak | backend/src/routes/insights.js:126-150 | With no qualifying interval the peak is 0, with no first peak minute and no peak minutes |
| PeakFacts.BucketMeansOverlap | backend/src/routes/insights.js:114-118 | For an aligned report start, a window occupies bucket `i` exactly when it overlaps minute `i`. A window ending on a boundary does not occupy the minute starting there |
| PeakFacts.UnalignedStartDropsShortCall | backend/src/routes/insights.js:98-115 | A report starting at 00:00:30 drops a 10-second call lying inside it |
| PeakFacts.TwoOverlappingCalls | backend/src/routes/insights.js:114-141 | Calls over minutes [0,2) and [1,3) give peak 2, first peak minute 1 and peak minutes [minute 1] |
| PeakFacts.SessionsSpansBound | backend/src/routes/insights.js:103-112 | A participant yields at most one span per voice session |
| PeakFacts.ParticipantsSpansBound | backend/src/routes/insights.js:101-112 | A conversation yields at most one span per voice session |
| PeakFacts.OneSpanPerVoiceSession | backend/src/routes/insights.js:100-118 | At most one span per voice session |
| PeakFacts.SessionSpansIgnoreParticipants | backend/src/routes/insights.js:72-73 | A session's span depends on its conversation's boundary fields only |
| PeakFacts.VoiceSessionsSpans | backend/src/routes/insights.js:103-105 | A participant's spans are unchanged when its non-voice sessions are removed |
| PeakFacts.VoiceParticipantsSpans | backend/src/routes/insights.js:101-105 | The same for all participants of a conversation |
| PeakFacts.NonVoiceSessionsIgnored | backend/src/routes/insights.js:100-105 | Only voice sessions contribute: removing every non-voice session leaves all spans, and so the report, unchanged |
| PeakRequest.StripBearer | backend/src/routes/insights.js:196 | Removes a leading "Bearer" in any case and the whitespace after it; leaves other headers unchanged |
| PeakRequest.Token | backend/src/routes/insights.js:195-196 | The body token, else the token header, else the stripped Authorization header; none when the result is empty |
| PeakRequest.Validate | backend/src/routes/insights.js:194-206 | An error exactly when the token is missing or the window is empty. The token error comes before the date error. A valid request carries token, start < end and the wrap-up flag |
| PeakRequest.HasBearerPrefix | backend/src/routes/insights.js:196 | The header starts with "Bearer" in any case followed by a whitespace character |
| PeakRequest.StartUtc | backend/src/routes/insights.js:202 | The parsed start date, else one day before now |
| PeakRequest.EndUtc | backend/src/routes/insights.js:203 | The parsed end date, else now |
| PeakRequest.ExcludeWrapup | backend/src/routes/insights.js:194 | True when the field is absent, otherwise its truthiness |
| PeakRequest.WindowTooLong | backend/src/routes/insights.js:95-96 | The difference array's totalMinutes + 2 cells exceed the largest array length |
| PeakRequest.JobCreated | backend/src/routes/insights.js:237-240 | Validation passed and the job reply carries a non-empty id |
| PeakRequest.DefaultWindowIsLastDay | backend/src/routes/insights.js:201-204 | Without dates, the window is the day ending now |
| PeakRequest.TokenCheckedFirst | backend/src/routes/insights.js:197-199 | A missing token is reported whatever the dates |
| PeakRequest.PeakConcurrency | backend/src/routes/insights.js:193-253 | 400 exactly for invalid requests, with their message. 502 with the thrown message for a failed creation, a job without id, a poll that ends in error (terminal state, timeout, transport), a results page that fails, and a window too long for the difference array ("Invalid array length"). A success exactly when none of these happens; it reports the job id, the number of conversations on every page requested, and the sweep over them |
| JobRetrieval.ResultsUri | backend/src/routes/insights.js:170 | The first results link is non-empty, so the loop starts |
| JobRetrieval.Classify | backend/src/routes/insights.js:157-161 | Lower-cased "completed" succeeds. "failed", "canceled" and "cancelled" end the job, naming the lower-cased state. Anything else, a missing state included, keeps polling |
| JobRetrieval.ClassifyIgnoresCase | backend/src/routes/insights.js:157 | States equal up to case classify alike |
| JobRetrieval.TimeoutMessageIsDistinct | backend/src/routes/insights.js:162-166 | The timeout message differs from every job-ended message |
| JobRetrieval.PollJobStatus | backend/src/routes/insights.js:153-167 | The loop makes PollCalls(fetch) status requests and ends with PollOutcome(fetch) |
| JobRetrieval.DecidingAttempt | backend/src/routes/insights.js:155-164 | The first attempt from `k` whose reply is not pending, or the last allowed one; every reply before it is pending |
| JobRetrieval.PollCalls | backend/src/routes/insights.js:9 | Between 1 and 60 status requests |
| JobRetrieval.PollOutcome | backend/src/routes/insights.js:155-166 | The outcome of the deciding reply (PollOutcomeMeans states it) |
| JobRetrieval.Outcome | backend/src/routes/insights.js:156-166 | A thrown request, "completed", a terminal state or, on the last attempt, a pending reply, mapped to the loop's result |
| JobRetrieval.PollOutcomeMeans | backend/src/routes/insights.js:153-167 | 1 to 60 status requests, all but the last pending. The last decides: success, terminal state, transport error, or timeout exactly after 60 pending replies |
| JobRetrieval.DecidedAt | backend/src/routes/insights.js:155-164 | An attempt after only pending replies that is decisive or the last is the deciding attempt, and its reply gives the outcome |
| JobRetrieval.JobUri | backend/src/routes/insights.js:154 | The job's status URL: base URL, jobs path, job id |
| JobRetrieval.PollErrorMessage | backend/src/routes/insights.js:161-166 | The message of each poll error: the job-ended text with the state, the timeout text, or the thrown message |
| JobRetrieval.FetchConversations | backend/src/routes/insights.js:169-191 | Requests the results URL, then each page's resolved link; RequestCount requests in all, ending with FetchOutcome |
| JobRetrieval.RequestCount | backend/src/routes/insights.js:173-187 | The number of results requests: every page before the last served with a link to follow, the last one failing or without a link, or one past the script |
| JobRetrieval.FetchOutcome | backend/src/routes/insights.js:169-191 | The result of the page loop (FetchOutcomeMeans states it) |
| JobRetrieval.FetchOutcomeMeans | backend/src/routes/insights.js:169-191 | Returns every requested page's conversations in order exactly when the last page is served without a link to follow. A page failure is an error with its message; a script that runs out is ScriptExhausted |
| JobRetrieval.FetchStopsAtRequestCount | backend/src/routes/insights.js:173-187 | Any count meeting the loop's stopping conditions is RequestCount |
| JobRetrieval.NextLink | backend/src/routes/insights.js:179-187 | The resolved non-empty `nextUri`, or nothing when it is missing, empty or does not resolve |
| JobRetrieval.ReadPage | backend/src/routes/insights.js:174-187 | One loop pass appends the page's conversations and computes the next link |
| JobRetrieval.CollectedAppend | backend/src/routes/insights.js:176-177 | Pages' conversations are concatenated in page order |
| Endpoint.PriorityIndex | frontend/src/utils/endpoint.js:1 | The position of a method in the preference list, -1 exactly for unlisted methods |
| Endpoint.PriorityOrder | frontend/src/utils/endpoint.js:1 | The order is get, post, put, patch, delete |
| Endpoint.SafeValue | frontend/src/utils/endpoint.js:6 | "" for null or undefined, else the encoded value |
| Endpoint.Substituted | frontend/src/utils/endpoint.js:4-8 | The template after replacing each entry's placeholders in entry order (BuildPathWithParams computes it) |
| Endpoint.Placeholder | frontend/src/utils/endpoint.js:7 | The pattern text `{key}` |
| Endpoint.ReplaceSkipsBraceFree | frontend/src/utils/endpoint.js:7 | The global case-insensitive replace passes text without a brace through unchanged |
| Endpoint.ReplaceAtPlaceholder | frontend/src/utils/endpoint.js:7 | A placeholder in any letter case is replaced by the value and the scan resumes after it |
| Endpoint.ReplaceBraceFree | frontend/src/utils/endpoint.js:7 | Brace-free text is left as it is |
| Endpoint.ReplaceAfterBraceFree | frontend/src/utils/endpoint.js:7 | The first placeholder after brace-free text is replaced |
| Endpoint.BuildPathWithParams | frontend/src/utils/endpoint.js:3-10 | The loop substitutes each parameter in entry order with its encoded value, or "" for null or undefined. With no parameters the template comes back unchanged |
| Endpoint.OtherPlaceholderKept | frontend/src/utils/endpoint.js:7 | The pattern for `userId` does not touch `{section}` |
| Endpoint.FirstParameterReplaced | frontend/src/utils/endpoint.js:5-8 | Substituting the first of two placeholders leaves the other |
| Endpoint.SecondParameterReplaced | frontend/src/utils/endpoint.js:5-8 | The second placeholder is then replaced |
| Endpoint.BuildPathExample | frontend/src/utils/endpoint.test.js:5-8 | The unit test: both placeholders are replaced and the space is encoded |
| Endpoint.SampleProperties | frontend/src/utils/endpoint.js:34-37 | One sampled entry per property |
| Endpoint.Sample | frontend/src/utils/endpoint.js:12-54 | buildSampleFromSchema (SampleOfMissing, SamplePrecedence, TypeFallback, ObjectSample, ArraySample and ScalarSamples state it case by case) |
| Endpoint.KindOf | frontend/src/utils/endpoint.js:29-31 | The switch branch: the truthy declared type, unknown names as string; without one, object when properties exist, else string |
| Endpoint.StringSample | frontend/src/utils/endpoint.js:47-52 | The nil UUID for format uuid, "string" otherwise |
| Endpoint.SampleOfMissing | frontend/src/utils/endpoint.js:13-15 | A missing schema samples to `{}` |
| Endpoint.ItemsSampleOfMissing | frontend/src/utils/endpoint.js:41 | The `{}` used for missing items samples to "string" |
| Endpoint.SamplePrecedence | frontend/src/utils/endpoint.js:17-27 | `example`, then `default`, then the first `enum` value, before any generation |
| Endpoint.TypeFallback | frontend/src/utils/endpoint.js:29 | An undeclared type is object when properties are present, string otherwise |
| Endpoint.ObjectSample | frontend/src/utils/endpoint.js:32-39 | An object sample has exactly the schema's property keys, in order, each sampled recursively |
| Endpoint.SamplePropertiesPointwise | frontend/src/utils/endpoint.js:35-37 | Each property's key with its own sample |
| Endpoint.ArraySample | frontend/src/utils/endpoint.js:40-41 | A one-element list holding the sample of the items, or of `{}` |
| Endpoint.ScalarSamples | frontend/src/utils/endpoint.js:42-53 | false for boolean, 0 for integer and number; the nil UUID for a uuid string, "string" for any other string |
| Endpoint.SampleExample | frontend/src/utils/endpoint.test.js:13-29 | The unit test: uuid, default and array-of-integer properties sample as expected |
| Endpoint.FirstOffered | frontend/src/utils/endpoint.js:60-61 | The most preferred method the path item offers, or none exactly when it offers none |
| Endpoint.FirstOfferedFrom | frontend/src/utils/endpoint.js:60-67 | The same from position `k` of the preference list |
| Endpoint.Offers | frontend/src/utils/endpoint.js:61 | The path item's property for the method is truthy |
| Endpoint.Keys | frontend/src/utils/endpoint.js:57 | Object.keys, in entry order |
| Endpoint.PickFirstEndpoint | frontend/src/utils/endpoint.js:56-71 | None exactly when no path offers a preferred method. Otherwise a path that offers one, no later in sort order than any other such path, with its most preferred method and that method's operation |
| Endpoint.EndpointOf | frontend/src/utils/endpoint.js:59-68 | One path's choice: present exactly when the path offers a preferred method, and then the most preferred one |
| Endpoint.FirstPreferred | frontend/src/utils/endpoint.js:60-68 | The inner loop finds the first offered method in priority order |
| Endpoint.NoneIsFirst | frontend/src/utils/endpoint.js:70 | When no sorted key has an endpoint, null is the answer |
| Endpoint.SortedFirstIsLeast | frontend/src/utils/endpoint.js:57-67 | The first sorted path with an endpoint is the answer |
| Endpoint.BarBeforeFoo | frontend/src/utils/endpoint.test.js:35-44 | "/bar" sorts before "/foo" |
| Endpoint.ExamplePathItems | frontend/src/utils/endpoint.test.js:35-42 | In the unit test's paths both have an endpoint, and "/bar" offers get |
| Endpoint.PickFirstExample | frontend/src/utils/endpoint.test.js:33-46 | The unit test: the answer is "/bar" with get |
| Text.CodeUnitOrder | frontend/src/utils/endpoint.js:57 | The default sort order (UTF-16 code units) is a consistent comparator |
| Sorting.SortBy | frontend/src/components/EndpointTree.jsx:10 | Array.prototype.sort as an insertion sort; a permutation of its input (SortBySorted states the order) |
| Sorting.SortBySorted | frontend/src/components/EndpointTree.jsx:10-19 | Sorting with a consistent comparator gives a permutation in which each element precedes the later ones |
| EndpointTree.Normalized | frontend/src/components/EndpointTree.jsx:5-9 | Each entry with its method name lower-cased and its operation, in order |
| EndpointTree.Rank | frontend/src/components/EndpointTree.jsx:11-12 | The priority index, with every unlisted method after all listed ones |
| EndpointTree.Compare | frontend/src/components/EndpointTree.jsx:10-19 | The comparator (CompareByRank states it) |
| EndpointTree.NormalizeOperations | frontend/src/components/EndpointTree.jsx:4-20 | The lower-cased entries sorted by the comparator (NormalizeOperationsOrder states it) |
| EndpointTree.CompareByRank | frontend/src/components/EndpointTree.jsx:10-19 | The comparator orders by rank, then by localeCompare within a rank |
| EndpointTree.ComparatorIsConsistent | frontend/src/components/EndpointTree.jsx:10-19 | With a consistent localeCompare the comparator is a consistent order |
| EndpointTree.NormalizeOperationsOrder | frontend/src/components/EndpointTree.jsx:4-20 | A permutation of the lower-cased entries. Listed methods come before unlisted ones, listed ones in priority order, equal-priority ones in localeCompare order |
| EndpointTree.SortedPaths | frontend/src/components/EndpointTree.jsx:23-27 | The path entries sorted by localeCompare (SortedPathsOrder states it) |
| EndpointTree.SortedPathsOrder | frontend/src/components/EndpointTree.jsx:23-27 | No entries while the document or its paths is missing. Otherwise a permutation of the path entries sorted by path with localeCompare |
| Seqs.Filter | frontend/src/components/QueryEditor.jsx:49 | Keeps exactly the elements that pass, and no more of them than the input has |
| Seqs.FilterFirst | frontend/src/components/QueryEditor.jsx:136-140 | The filtered list is non-empty exactly when some element passes, and its first element is the first that passes |
| Seqs.FilterKeepsOrder | frontend/src/components/QueryEditor.jsx:61-66 | Filtering keeps the input order |
| Seqs.FilterIdempotent | frontend/src/components/QueryEditor.jsx:7-12 | Filtering twice is filtering once |
| Text.TrimEmptyIffBlank | frontend/src/components/QueryEditor.jsx:16 | trim() leaves nothing exactly when every character is whitespace |
| QueryEditor.OrEmpty | frontend/src/components/QueryEditor.jsx:6 | `params \|\| {}`: a missing object has no entries |
| QueryEditor.Keep | frontend/src/components/QueryEditor.jsx:8 | Defined, non-null and non-blank once printed and trimmed (KeptEntries and DroppedValues state it) |
| QueryEditor.SanitizeParams | frontend/src/components/QueryEditor.jsx:5-13 | The reduce keeps, in order, exactly the entries whose value is kept |
| QueryEditor.KeptEntries | frontend/src/components/QueryEditor.jsx:5-13 | An entry is kept exactly when its value is defined, non-null and non-blank when printed; kept values are unchanged |
| QueryEditor.SanitizeIdempotent | frontend/src/components/QueryEditor.jsx:5-13 | Sanitizing twice is sanitizing once |
| QueryEditor.DroppedValues | frontend/src/components/QueryEditor.jsx:8 | undefined, null, blank strings, [] and [null] are dropped. 0 and false are kept |
| QueryEditor.ParseBody | frontend/src/components/QueryEditor.jsx:15-25 | No body exactly for blank text. Otherwise the parsed value, or the error "Request body must be valid JSON" exactly when parsing fails |
| QueryEditor.Unwrap | frontend/src/components/QueryEditor.jsx:49 | The present parameters, unwrapped in order |
| QueryEditor.Combined | frontend/src/components/QueryEditor.jsx:46-49 | The path item's parameters, then the operation's, falsy entries removed (CombinedSplits states it) |
| QueryEditor.Firsts | frontend/src/components/QueryEditor.jsx:53-59 | The parameters whose name is not yet seen, in order (FirstsFacts states it) |
| QueryEditor.ParameterDefinitions | frontend/src/components/QueryEditor.jsx:43-70 | Nothing without an operation. Otherwise, from the first parameter of each name (path item first), the path list and the query list by location |
| QueryEditor.FirstsStep | frontend/src/components/QueryEditor.jsx:55-59 | A parameter is a definition exactly when its name is not yet seen |
| QueryEditor.FirstsCover | frontend/src/components/QueryEditor.jsx:55-59 | Every name gets a definition |
| QueryEditor.FirstsIndexed | frontend/src/components/QueryEditor.jsx:55-59 | Each definition is the first parameter with its name |
| QueryEditor.FirstsOrdered | frontend/src/components/QueryEditor.jsx:55-67 | Definitions come in the order of their names' first occurrences |
| QueryEditor.FirstsFacts | frontend/src/components/QueryEditor.jsx:53-67 | Each name once, exactly the input's names, each the first occurrence, in first-occurrence order |
| QueryEditor.CombinedSplits | frontend/src/components/QueryEditor.jsx:46-49 | The path item's present parameters, then the operation's |
| QueryEditor.PathItemParametersWin | frontend/src/components/QueryEditor.jsx:46-59 | A name the path item declares is defined by the path item's first parameter of that name |
| QueryEditor.ListsHoldTheirLocation | frontend/src/components/QueryEditor.jsx:61-66 | The path list holds only `in: path` parameters and the query list only `in: query` ones |
| QueryEditor.ListsAreComplete | frontend/src/components/QueryEditor.jsx:55-66 | Each first occurrence located in the path or the query is in its list |
| QueryEditor.ListsKeepOrder | frontend/src/components/QueryEditor.jsx:55-69 | Each list is in input order |
| QueryEditor.ListsAreDisjoint | frontend/src/components/QueryEditor.jsx:55-69 | No name is in both lists |
| QueryEditor.Get | frontend/src/components/QueryEditor.jsx:87 | `obj?.[key]`: undefined for a missing object or key, else the stored value |
| QueryEditor.CoalesceFirst | frontend/src/components/QueryEditor.jsx:88-89 | `??` yields the first candidate that is neither undefined nor null |
| QueryEditor.CoalesceFallback | frontend/src/components/QueryEditor.jsx:88-89 | With every candidate nullish, the fallback |
| QueryEditor.MatchesSavedQuery | frontend/src/components/QueryEditor.jsx:80-83 | The saved query applies to this endpoint (MethodMatchIgnoresCase states it) |
| QueryEditor.SavedValue | frontend/src/components/QueryEditor.jsx:87 | The saved value under the parameter's name when the saved query matches, else undefined |
| QueryEditor.InitialValue | frontend/src/components/QueryEditor.jsx:88-89 | The `??` chain (InitialValuePrecedence states it) |
| QueryEditor.InitialValuePrecedence | frontend/src/components/QueryEditor.jsx:86-97 | The saved value, then example, then default, then "" |
| QueryEditor.UnmatchedSavedQueryIgnored | frontend/src/components/QueryEditor.jsx:80-89 | A saved query for another endpoint contributes nothing |
| QueryEditor.MethodMatchIgnoresCase | frontend/src/components/QueryEditor.jsx:80-83 | A saved query matches exactly when its path template is equal and its method is equal up to case |
| QueryEditor.InitialParams | frontend/src/components/QueryEditor.jsx:85-97 | One entry per definition, in order: its key and its initial value |
| QueryEditor.MissingPathReportsFirst | frontend/src/components/QueryEditor.jsx:136-142 | An error exactly when a required path parameter has a falsy value, naming the first such parameter in definition order |
| QueryEditor.MissingPathMessage | frontend/src/components/QueryEditor.jsx:136-142 | The message naming the first required path parameter without a truthy value (MissingPathReportsFirst states it) |

## Left out

- Date parsing and ISO-8601 formatting are not modelled. A timestamp is a `Stamp`, and a reported instant stands for its ISO rendering.
- `encodeURIComponent`, `JSON.parse`, `new URL(...)` resolution and `localeCompare` are parameters. Consistency of `localeCompare` is assumed (`EndpointTree.Collation`).
- `toLowerCase` is modelled for ASCII letters only; other characters are left unchanged.
- `trim` and `\s` cover the ECMAScript whitespace characters.
- Endpoint.BuildPathWithParams: `replace` reads `$&`, `$1` and similar patterns in the replacement text. The model inserts it literally, which matches the code because `encodeURIComponent` never emits `$`; `encode` is otherwise unconstrained.
- Endpoint.BuildPathWithParams: requires parameter keys made of letters, digits, `_` and `-`, not digits alone. Other keys build regular expressions with metacharacters, and the regex engine is not modelled.
- Numbers are modelled as `real`. NaN, floating-point rounding and non-finite instants are not modelled.
- HTTP, Express and axios are not modelled. `delay` between polls is left out.
- Timing and concurrency are not modelled.
- PeakMetrics.ComputePeakMetrics: does not model the length limit of the difference array (`new Array(totalMinutes + 2)` throws a RangeError past 2^32 - 1 cells) or running out of memory on very long windows. PeakRequest.PeakConcurrency models the limit: such a window is answered 502 with "Invalid array length". Running out of memory is not modelled there either.
- Minutes.FloorToMinute, Minutes.CeilToMinute, WindowExtractor.SessionWindow: instants before the Unix epoch are not modelled faithfully. `Date.UTC` at lines 16-18 reads years 0-99 as 1900-1999, so the code moves such instants by centuries where the model rounds arithmetically. When every real end candidate is negative, a `null` candidate (compared as 0) wins the maximum at line 86, and `ceilToMinute(null)` then throws; the model returns the window of the real candidates. Analytics timestamps lie after the epoch.
- Response bodies are reduced to the fields the core reads.
- JobRetrieval.FetchConversations: a server that sends links forever is outside any finite page script. The model reports the script running out (`ScriptExhausted`) instead of looping. PeakRequest.PeakConcurrency reports that case as `ScriptEnded`.
- JobRetrieval.PollJobStatus: a `state` is modelled as a string or missing. A number or an object there makes `toLowerCase` throw a TypeError, which ends the poll, and the handler answers 502 with its message. The model expects the script to give such a reply as `Unreachable` with that message; the message text is not modelled.
- The job query body (lines 209-225 of insights.js) and the request headers are not modelled.
- Sorting.SortBySorted: does not state that the sort is stable. The comparators here tie only on equal keys or equal-priority names.
- QueryEditor.Keep: the string form of a value is modelled for strings, arrays, null and scalars. An object always prints non-blank.
- QueryEditor.ParameterDefinitions: parameter entries are objects or falsy. A truthy non-object entry and `$ref` parameters are not modelled.
- QueryEditor.InitialParams: writes into a state object; the model returns its entries in definition order. An undefined name and the name "undefined" both map to the key "undefined" (`PropertyKey`). The later write wins; the model lists both entries.
- Endpoint.PickFirstEndpoint: a `null` path item makes `methods[method]` throw; path items are modelled as objects.
- QueryEditor.Get: `obj?.[key]` also reads inherited keys such as `constructor`; the model reads own entries only.
- The React parts of `QueryEditor.jsx` and `EndpointTree.jsx` are not modelled: state hooks, effects, rendering, saving, `JSON.stringify` of the body, and requests.
- Object.entries of a path item also lists non-method keys such as `parameters`. EndpointTree sorts them as unlisted methods, as the code does. No further treatment is modelled.
