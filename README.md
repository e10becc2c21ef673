# KYF heartbeat agent, modelled in Dafny

This project models the core of the "Know Your Facts" (KYF) agent. KYF is a bot on the Moltbook forum that fact-checks posts. The model covers these parts:

- **The heartbeat.** `KYFAgent` fetches the forum's heartbeat file, then reads the HOT and the NEW feed.
  - It marks every new post as seen before anything is analysed.
  - It asks the language model which posts make a checkable claim, and answers those posts within a per-heartbeat comment budget.
  - It votes according to the verdict.
  - It publishes at most one original post, under a daily cap.
  - It logs `HEARTBEAT` when no exception escaped.
- **The state store.** `FileStateRepository` keeps the seen-post and replied-comment sets and the saved agent state. It also keeps the append-only JSONL action log, with its per-day counter and target-id lookup.
- **The prompt-injection sanitiser.** `InputSanitizer` truncates, normalises to NFKC, replaces every match of 23 injection patterns in list order, and strips whitespace. It also offers the suspicion test.
- **The three services.** The content analyser, the fact checker and the post creator: what they send to the model, their defaults, and which errors they swallow or re-raise.
- **The sliding-window rate limiter** in front of every forum request.
- **The pydantic request and response models**, with their length, charset and range bounds.
- **The non-network parts of the forum client.** These are base-URL trimming, the credential host guard, request paths and the `success` envelope check.

## How the model is built

- **Collaborators.** The forum client, the language model and the clock are classes with no logic of their own.
  - Each call returns any possible outcome (`:|`) and records itself in a ghost trace: `ForumClient.calls` and `LlmClient.exchanges`.
  - The clock only moves forward.
- **Ghost records.** The agent's methods return, as ghost values, the part of each record they added. Their contracts relate those records, for example: "the comments made are exactly the successful `create_comment` calls and exactly the logged `COMMENT_CREATED` targets".
- **Files.** The repository's files are fields. `None` stands for a missing file, and a file's text is modelled by what decoding it gives: the id and state files hold the JSON document `json.loads` returns (or the fact that it raised), and the action log holds its lines one by one.
- **Exceptions** are `Result` failures:
  - one `Failure` per exception that escapes;
  - a swallowed exception is a branch that returns normally.
- **Text engine.** NFKC normalisation and the regular-expression engine come in as a `TextEngine` of functions. One pattern, `eval\s*\(`, is modelled concretely: case-insensitive, with Python's `\s`. Its substitution is proved to leave no match behind.
- **Loops.** The loops of the agent (over the feed's posts, the checkable posts and the sort orders), of the repository (over the action log's lines), of `filter_checkable` and of `sanitize` (over the patterns) are `while` loops with invariants. The two longest ones, over the checkable posts and over the sort orders, delegate one turn each to a step method (`EngageStep`, `BrowseTurn`). The list comprehensions of the rate limiter and the response parsers are functions.

### Where the model follows the code rather than its description

- The fact checker inserts the analysis's `claim_summary` into the prompt without sanitising it (`FactChecker.ClaimSummaryIsNotSanitised`).
- There is no phase that replies to comments on the agent's own posts, and no abort when the rate limit is hit.
- `analyze` turns every error into the default analysis.
- `HEARTBEAT` is logged only when no exception reached `run_heartbeat`'s handler, not regardless of failures.
- `is_suspicious` tests the whole normalised text; it does not truncate first.
- `_request` is decorated with tenacity's `@retry` without `reraise`, so an exhausted retry raises `RetryError`, never `MoltbookClientError` (see Findings). The agent's feed errors follow the corrected retry (`Forum.ForumErrorOf`): they keep both kinds (`ClientError`, `OtherError`), so the skip-this-sort branch of src/kyf/core/agent.py:92 and the escape branch are both covered. A response body that is not an object (`data.get` raises `AttributeError`) and the rate limiter's `IndexError` are not `MoltbookClientError`s, and the model keeps them apart (`RequestError`).
- `initialize` loads an id file with `set(json.loads(raw))`, which accepts any JSON string, object or list of strings, not only the list the repository writes (`StateRepository.OddIdFiles`).
- `save_state` writes a file that `load_state` cannot read back (see Findings).
- src/kyf/main.py builds `KYFAgent` with keyword arguments its constructor does not take, and reads a `gemini_api_key` setting that src/kyf/config.py does not define. The model follows the constructor in src/kyf/core/agent.py.
- src/kyf/core/agent.py:12 imports `StateRepository` from src/kyf/core/state_repository.py, which defines only `FileStateRepository` (line 20), so the import fails as written. The model takes the agent's repository to be a `FileStateRepository`.

## Model

| member | source | states |
|---|---|---|
| Agent.VoteFor | src/kyf/core/agent.py:147-152 | an upvote exactly for "true"/"mostly_true", a downvote exactly for "false"/"misleading", no vote otherwise |
| Agent.OnlyTheMiddleVerdictIsNotVoted | src/kyf/core/agent.py:147-152 | "partially_true", "unverifiable" and every other string outside the four voted verdicts earn no vote; "true", "mostly_true", "false" and "misleading" each earn one |
| Agent.Unseen | src/kyf/core/agent.py:97-101 | the unseen list is no longer than the feed |
| Agent.UnseenIsFresh | src/kyf/core/agent.py:97-101 | every post taken is a post of the feed whose id was not seen before |
| Agent.UnseenTakesEveryNewId | src/kyf/core/agent.py:97-101 | the ids taken are exactly the feed's ids minus the seen ones: no new post is lost |
| Agent.UnseenIsDistinct | src/kyf/core/agent.py:98-101 | no id is taken twice, even when the feed repeats a post |
| Agent.CheckableIsFresh | src/kyf/core/agent.py:97-107 | whatever the analyser keeps of the new posts has distinct ids, each new to the seen set and an id of the feed |
| Agent.AnalysedAppend | src/kyf/core/agent.py:86-107 | the posts analysed under one sort order, appended to those of the earlier one, still match the analysis requests one for one and keep distinct ids new to the heartbeat |
| Agent.FeedEngagedOf | src/kyf/core/agent.py:103-140 | the screening exchanges followed by the loop's exchanges are one feed's engagement: analysis prompts of the unsuspicious new posts, then fact-check prompts of the checkable ones tried |
| Agent.NothingUnseenEngaged | src/kyf/core/agent.py:103-104 | a feed with no new post is engaged with no exchange at all |
| Agent.ShapeAfterTurn | src/kyf/core/agent.py:86-94 | after one sort order the HOT and NEW records are placed by its position; an escaping error gives the final shape; the seen set grows by the feed the turn fetched |
| Agent.BrowseDone | src/kyf/core/agent.py:86-88 | the loop over sort orders ends after NEW or once the budget is spent, with the shape `BrowseAndEngage` promises and no escaped error |
| Agent.EscapesUnlessClientError | src/kyf/core/agent.py:90-94 | a failed feed fetch is skipped exactly when the request raised `MoltbookClientError` itself; a `RetryError` always escapes |
| Agent.NoRunsYet | src/kyf/core/agent.py:82-85 | before any sort order is read, no feed has an outcome and nothing is logged or asked |
| Agent.RunsAfterTurn | src/kyf/core/agent.py:86-94 | the outcome of one more sort order is recorded as the HOT or the NEW feed's by its position, its entries and exchanges appended to those of the feeds before it |
| Agent.CommentedThenVoted | src/kyf/core/agent.py:118-137 | a created and logged comment followed by the vote on its post make the records of a comment that counts |
| Agent.EngageAccumulated | src/kyf/core/agent.py:109-140 | one more checkable post tried extends the loop's records: the next fact-check prompt, the comment and vote calls, and a fresh distinct comment target |
| Agent.TurnOfEngaged | src/kyf/core/agent.py:112-137 | what one tried post leads to is its turn: nothing after a reply that does not validate; after one that does, the comment request with the post id and reply text, and the logged comment and the vote exactly when the forum created it |
| Agent.EngagedTurnsStep | src/kyf/core/agent.py:109-140 | the turn of the next post tried, appended to the turns so far, keeps the loop's calls and entries the turns one after the other, each following from its own reply |
| Agent.ScreenedFresh | src/kyf/core/agent.py:96-107 | the posts analysed and those found checkable have distinct ids, none seen before the feed was read, all seen now |
| Agent.ScreenedOrder | src/kyf/core/agent.py:107 | the checkable posts are analysed posts, in the order they were analysed |
| Agent.ScreenedRequests | src/kyf/core/agent.py:107 | screening adds exactly the analysis prompts of the unsuspicious new posts to the analysis requests |
| Agent.ScreenedThenEngaged | src/kyf/core/agent.py:107-140 | screening then the loop leave the exchanges as the screening ones followed by the loop's, and add no analysis request after screening |
| Agent.SortAccumulated | src/kyf/core/agent.py:86-140 | one more sort order extends the loop's records: calls, log, comments, analysed posts and seen set |
| Agent.KyfAgent.constructor | src/kyf/core/agent.py:34-49 | the collaborators and the two limits are stored; the analyser's confidence threshold is 0.6; the services share the agent's model |
| Agent.KyfAgent.Log | src/kyf/core/agent.py:125-132 | `log_action(ActionLog(...))` appends exactly one line, the encoding of an entry with the given type, target and details |
| Agent.KyfAgent.VoteOnPost | src/kyf/core/agent.py:144-163 | a vote call exactly when the verdict maps to a direction and the id is non-empty, and it is `VoteRequest(post id, that direction)`; `VOTE_CAST` with that post and that direction is logged exactly when the vote succeeded; nothing else is called or logged |
| Agent.KyfAgent.CommentAndVote | src/kyf/core/agent.py:117-137 | the comment request is built from the post id and the reply's `response_text`; when it is valid it is the first call; the comment counts exactly when `create_comment` succeeded, and then `COMMENT_CREATED` for the post with details `verdict=<verdict>` is logged first, followed by exactly the vote `VoteOnPost` makes for that verdict; a failed comment logs nothing and casts no vote |
| Agent.KyfAgent.EngageOne | src/kyf/core/agent.py:113-140 | exactly one model call, with the fact-check prompt for this post and analysis; a reply that does not validate ends the turn with nothing called or logged; a valid reply is commented and voted on as `CommentAndVote` states; the post counts as commented exactly when one successful comment call and one `COMMENT_CREATED` entry name it; no analysis is requested |
| Agent.KyfAgent.MarkUnseen | src/kyf/core/agent.py:96-101 | the unseen list is `Unseen(seen, feed)` and every id of the feed is now seen |
| Agent.KyfAgent.EngageStep | src/kyf/core/agent.py:109-140 | one turn of the checkable-post loop: the turn's fact-check request is the next of the loop's prompts, and the comment, if made, goes to a post new to the seen set and unlike the posts still to come |
| Agent.KyfAgent.EngageAll | src/kyf/core/agent.py:109-140 | the posts tried are a prefix of the checkable list, and the loop stops early only when the budget is spent; the model is asked exactly the fact-check prompts of the posts tried, in order; the forum calls and log entries are the turns of the posts tried, one after the other: every fact-check reply that validates is followed by its comment request on the tried post, and by the `COMMENT_CREATED` entry and the vote exactly when the forum created the comment; a reply that does not validate is followed by nothing; the count rises by one per successful comment and never exceeds the budget; the commented posts are distinct, new and seen, and match both the forum calls and the logged targets; only comments and votes are called; no analysis is requested |
| Agent.KyfAgent.ScreenUnseen | src/kyf/core/agent.py:103-107 | the posts sent for analysis are exactly the unsuspicious posts among those not seen before the feed was read, each once and already marked seen; the model exchanges are those of `filter_checkable` on them; the checkable posts are among the analysed ones, in the order they were analysed, with distinct ids |
| Agent.KyfAgent.EngageFeed | src/kyf/core/agent.py:96-140 | all ids of a fetched feed are marked seen before anything is analysed; a feed with no new post asks the model nothing; otherwise the analysis prompts of the new unsuspicious posts, then the fact-check prompts of a prefix of the checkable ones, cut short only when the budget is spent; the feed's calls and entries are the turns of the posts tried: every fact-check reply that validates is followed by its comment request on the tried post, and by the `COMMENT_CREATED` entry and the vote exactly when the forum created the comment; a reply that does not validate is followed by nothing |
| Agent.KyfAgent.ScreenAndEngage | src/kyf/core/agent.py:103-140 | `filter_checkable` on the new posts, then the loop over the checkable ones: the model exchanges are the screening ones followed by the loop's, the calls and entries are the turns of the posts tried, in which every fact-check reply that validates is followed by its comment request on the tried post, and by the `COMMENT_CREATED` entry and the vote exactly when the forum created the comment; a reply that does not validate is followed by nothing; the comments are distinct, new and within the budget |
| Agent.KyfAgent.BrowseSort | src/kyf/core/agent.py:86-140 | one sort order: the feed fetch is the first call, then only comments and votes; a client error does not escape; any other error escapes with nothing else called or logged; the ids of a fetched feed join the seen set; for a fetched feed the model is asked the analysis prompts of its new unsuspicious posts, then the fact-check prompts of a prefix of its checkable posts, cut short only when the budget is spent, and the calls after the fetch are the turns of the posts tried, in which every fact-check reply that validates is followed by its comment request on the tried post, and by the `COMMENT_CREATED` entry and the vote exactly when the forum created the comment; a reply that does not validate is followed by nothing; the budget holds; new comments go to distinct posts unseen before |
| Agent.KyfAgent.BrowseStep | src/kyf/core/agent.py:86-140 | one turn of the sort-order loop: it appends the sort's own calls, which begin with its feed fetch; the seen set grows by the ids that fetch returned; the turn fails exactly when that fetch escaped; what the sort did is the outcome `SortOutcome` describes (nothing after a failed fetch; otherwise the feed engaged turn by turn, every validated reply commented on), its entries and exchanges appended to the loop's; the loop's records, bound and freshness are kept |
| Agent.KyfAgent.BrowseTurn | src/kyf/core/agent.py:86-140 | one turn of the sort-order loop, as `BrowseStep`, also placing the turn's calls and its feed's outcome as the HOT or the NEW feed's: after HOT the loop goes on to NEW only below the budget, and an escaping error ends the loop with the feeds read so far |
| Agent.KyfAgent.BrowseAndEngage | src/kyf/core/agent.py:82-142 | with a budget of zero or less no feed is read; otherwise HOT is read first, and NEW is read exactly when HOT's error did not escape and fewer than the budget's comments were made; the seen set grows by exactly the ids of the feeds fetched; an error escapes exactly when one of these fetches raised a non-client error; each feed read is engaged turn by turn (`RunsRecord`), every fact-check reply that validates being commented on; the entries and exchanges are HOT's followed by NEW's; the comments made are exactly the successful comment calls and the logged `COMMENT_CREATED` targets, distinct, never seen before the call, at most the budget; the model is asked to analyse distinct posts only, none seen before the call |
| Agent.KyfAgent.MaybeCreatePost | src/kyf/core/agent.py:165-192 | an unreadable log escapes with the read error; at or above today's `POST_CREATED` cap nothing is asked, called or logged; below it exactly one request for an original post on a listed topic, followed by what `PublishPost` states (`PostAttempt`); no analysis is requested |
| Agent.KyfAgent.PublishPost | src/kyf/core/agent.py:172-192 | one model request for an original post on a listed topic; the `CreatePostRequest` is built from the content's title, body and target submolt, and is the only call when it is valid; `POST_CREATED` with the forum's post id and the content's topic category as details is logged exactly when publishing succeeded |
| Agent.KyfAgent.PostPhase | src/kyf/core/agent.py:62-63 | the post phase is `_maybe_create_post` on the log as browsing left it: it fails, with the read error, exactly when counting today's `POST_CREATED` entries fails; at the cap nothing is asked, called or logged; below it one original-post request and the post `PostPublished` describes, appended to the browse phase's calls and entries; it adds no comment, no heartbeat entry and no analysis request |
| Agent.KyfAgent.FinishHeartbeat | src/kyf/core/agent.py:61-71 | the post phase as `PostPhase` states, then: it fails exactly when counting today's posts fails, with nothing logged after the post phase; otherwise `HEARTBEAT` (no target, no details) is logged right after the post phase's entries; the step succeeds exactly when `HEARTBEAT` is the last entry, and no earlier entry is a `HEARTBEAT`; no analysis is requested |
| Agent.KyfAgent.RunHeartbeat | src/kyf/core/agent.py:51-80 | the heartbeat fetch comes first, then the feed reads `BrowseAndEngage` states, with their outcomes, then the post call if any; the seen set grows by exactly the ids those feeds returned; a feed error escapes exactly when one of them raised a non-client error, and then nothing is posted or logged after browsing; otherwise the post attempt runs on the log as browsing left it (`HeartbeatEnd`): the heartbeat fails with the read error exactly when counting today's posts fails, and otherwise logs `HEARTBEAT` right after the post's entry; `HEARTBEAT` is the last entry exactly when no exception escaped and appears nowhere else; comments go to distinct posts, within the budget, each logged as `COMMENT_CREATED`; every post the model is asked to analyse is analysed once and was not seen before the heartbeat |
| Agent.EscapedEnd | src/kyf/core/agent.py:54-71 | a heartbeat whose browsing escaped posts and logs nothing more |
| Agent.FinishedEnd | src/kyf/core/agent.py:61-71 | a heartbeat that went on to post ends as the post attempt and the `HEARTBEAT` entry leave it, the log failure becoming the heartbeat's failure |
| Agent.KyfAgent.BrowsePhase | src/kyf/core/agent.py:55-60 | the heartbeat fetch, then exactly the calls of `BrowseAndEngage`, with its feeds' outcomes; the records form a heartbeat trace with no `HEARTBEAT` yet |
| AgentStates.ParseActionType | src/kyf/models/agent_state.py:9-18 | `ActionType(s)` yields a member whose value is `s` |
| AgentStates.ActionTypeRoundTrip | src/kyf/models/agent_state.py:9-18 | every value parses back to its member, and no two members share a value |
| AgentStates.NineActionTypes | src/kyf/models/agent_state.py:9-18 | there are exactly nine members with pairwise distinct values |
| AgentStates.NewActionLog | src/kyf/models/agent_state.py:21-26 | a new entry has no id, the given type, target and details, and the construction time as `created_at` |
| AgentStates.AgentState.constructor | src/kyf/models/agent_state.py:29-36 | the state holds the given fields and seen set |
| AgentStates.AgentState.Snapshot | src/kyf/models/agent_state.py:29-36 | the dumped fields carry the state's counters |
| AgentStates.AgentState.MarkPostSeen | src/kyf/models/agent_state.py:44-48 | the id becomes seen, a second call changes nothing, no other id's membership changes and no other field changes |
| AgentStates.FreshStateAllowsWork | src/kyf/models/agent_state.py:29-42 | a fresh state may post and comment exactly under positive limits and has seen nothing |
| StateRepository.LoadIds | src/kyf/core/state_repository.py:36-44 | a missing file keeps the set and a blank one gives the empty set; otherwise loading fails exactly when the text is not JSON or `set()` rejects the decoded document |
| StateRepository.IdsOf | src/kyf/core/state_repository.py:39 | `set(json.loads(raw))` raises exactly for null, a boolean, a number, or a list holding a list or an object; an object gives its keys, a string its characters, a list its string items |
| StateRepository.IdListLoadsBack | src/kyf/core/state_repository.py:78-84 | the list `mark_post_seen` writes loads back as exactly the ids it was written from |
| StateRepository.OddIdFiles | src/kyf/core/state_repository.py:39 | valid JSON that is no list of ids still loads: "ab" as {"a", "b"}, {"k": 1} as {"k"}, ["p", 2] as {"p"}; null, 5 and [[]] raise |
| StateRepository.LoadSnapshot | src/kyf/core/state_repository.py:63 | `AgentState.model_validate_json` fails on anything but an object, and an empty object gives every default; a loaded snapshot's three optional `datetime` fields were absent, null or date-time text |
| StateRepository.OptionalDateTime | src/kyf/models/agent_state.py:30-34 | an optional `datetime` field (default None) validates exactly when it is absent, null or a date-time text; absent gives None; a value read is the field's text |
| StateRepository.LoadRejectsNonDateTime | src/kyf/models/agent_state.py:30-34 | a timestamp field holding a string that is not a date-time text makes loading fail |
| StateRepository.DateTimeLoadsBack | src/kyf/models/agent_state.py:30-34 | a timestamp written as its text, or as null, reads back as itself |
| StateRepository.IsoTextValidates | src/kyf/models/agent_state.py:30 | an ISO 8601 UTC timestamp on a leap day validates |
| StateRepository.WrittenTextValidates | src/kyf/models/agent_state.py:30 | the `str(datetime)` text with a space and microseconds validates |
| StateRepository.UnixTextValidates | src/kyf/models/agent_state.py:30 | a Unix time written as text validates |
| StateRepository.MissingDayRejected | src/kyf/models/agent_state.py:30 | the 29th of February of a common year does not validate |
| StateRepository.FreeTextRejected | src/kyf/models/agent_state.py:30 | free text does not validate |
| StateRepository.DumpAsWritten | src/kyf/core/state_repository.py:70-72 | the written object has exactly the six saved keys, and the subscribed set is written as a string |
| StateRepository.SavedStateNeverLoads | src/kyf/core/state_repository.py:63-72 | whatever the state and however its set is rendered as text, loading the file `save_state` wrote fails |
| StateRepository.Dump | src/kyf/core/state_repository.py:70-72 | the corrected rendering has the same six keys, with the subscribed set as a list of its members |
| StateRepository.DumpRoundTrip | src/kyf/core/state_repository.py:63-72 | with the set written as a list, loading gives back exactly the state that was saved, for every enumeration order of the set |
| StateRepository.LoadIdsOnFreshRepository | src/kyf/core/state_repository.py:37-44 | a missing or blank id file gives the empty set; a written list gives its ids |
| StateRepository.Encode | src/kyf/core/state_repository.py:104-111 | a log line is an object with exactly the four keys, and its `action_type` is the type's value |
| StateRepository.Written | src/kyf/core/state_repository.py:104-113 | each `log_action` writes one line |
| StateRepository.WrittenConcat | src/kyf/core/state_repository.py:104-113 | two runs of `log_action` write what one run over both would |
| StateRepository.CountStep | src/kyf/core/state_repository.py:123-131 | a line adds 0 or 1; a blank line adds 0; a line that is not an object, or a matching line whose `created_at` is not a string, raises |
| StateRepository.CountToday | src/kyf/core/state_repository.py:115-133 | the count never exceeds the number of lines; a failure is an unreadable line |
| StateRepository.CountFailureSticks | src/kyf/core/state_repository.py:123-126 | the first unreadable line makes the whole count fail |
| StateRepository.Matching | src/kyf/core/state_repository.py:127-131 | the entries of the type whose timestamp starts with today's date number at most the entries |
| StateRepository.CountStepOfWritten | src/kyf/core/state_repository.py:127-131 | a line written by `log_action` counts exactly when its type and day match |
| StateRepository.CountAfterLogAction | src/kyf/core/state_repository.py:104-133 | appending an entry raises a readable count by one exactly when the entry matches |
| StateRepository.CountOfWrittenLog | src/kyf/core/state_repository.py:115-133 | on a log written by `log_action`, the count is the number of entries of that type dated today |
| StateRepository.TargetStep | src/kyf/core/state_repository.py:141-146 | a line yields at most one id, always truthy; a line that is not an object raises |
| StateRepository.TargetIds | src/kyf/core/state_repository.py:135-147 | the ids read are truthy, at most one per line; a failure is an unreadable line |
| StateRepository.TargetFailureSticks | src/kyf/core/state_repository.py:141-144 | the first unreadable line makes the whole lookup fail |
| StateRepository.TargetsOf | src/kyf/core/state_repository.py:145-146 | the non-empty target ids of the entries of a type are at most the entries |
| StateRepository.TargetStepOfWritten | src/kyf/core/state_repository.py:145-146 | a line written by `log_action` yields its target id exactly when the type matches and the id is non-empty |
| StateRepository.TargetIdsOfWrittenLog | src/kyf/core/state_repository.py:135-147 | on a log written by `log_action`, the ids read back are, in log order, the non-empty target ids of the entries of that type |
| StateRepository.FileStateRepository.constructor | src/kyf/core/state_repository.py:23-31 | both in-memory sets start empty over the given files |
| StateRepository.FileStateRepository.Initialize | src/kyf/core/state_repository.py:33-50 | the seen set, then the replied set, are loaded; a malformed file stops the remaining steps; a missing action log is created empty |
| StateRepository.FileStateRepository.LoadState | src/kyf/core/state_repository.py:54-65 | a missing or blank file gives the defaults; otherwise loading fails exactly when the text is not JSON or does not validate, timestamps included; a loaded state carries the decoded fields and the in-memory seen set |
| StateRepository.FileStateRepository.SaveState | src/kyf/core/state_repository.py:67-74 | the file holds every field but the seen set, with the subscribed set written as text, so that it no longer loads |
| StateRepository.FileStateRepository.MarkPostSeen | src/kyf/core/state_repository.py:78-87 | the id becomes seen, no other id changes, and the file equals the in-memory set |
| StateRepository.FileStateRepository.MarkCommentReplied | src/kyf/core/state_repository.py:91-100 | the id becomes replied, no other id changes, and the file equals the in-memory set |
| StateRepository.FileStateRepository.LogAction | src/kyf/core/state_repository.py:104-113 | exactly one line is appended at the end; earlier lines are unchanged; a missing file is created |
| StateRepository.FileStateRepository.GetTodayActionCount | src/kyf/core/state_repository.py:115-133 | the loop computes `CountToday` over the file, and 0 for a missing file |
| StateRepository.FileStateRepository.GetActionTargetIds | src/kyf/core/state_repository.py:135-147 | the loop computes `TargetIds` over the file, and no ids for a missing file |
| RateLimiting.Prune | src/kyf/utils/rate_limiter.py:19-21 | every survivor is later than the cutoff |
| RateLimiting.PruneIsFilter | src/kyf/utils/rate_limiter.py:19-21 | the survivors are exactly the entries later than the cutoff |
| RateLimiting.PruneAppend | src/kyf/utils/rate_limiter.py:21-29 | pruning distributes over appending a stamp, so the order is kept |
| RateLimiting.PruneSortedIsSuffix | src/kyf/utils/rate_limiter.py:21-24 | on a sorted list the survivors are a suffix, so index 0 is the oldest survivor |
| RateLimiting.WaitAt | src/kyf/utils/rate_limiter.py:23-27 | the sleep is never negative and is positive only when the window is full |
| RateLimiting.RemainingMeansNoWait | src/kyf/utils/rate_limiter.py:23-27 | with fewer than `max_requests` active entries, `acquire` does not wait |
| RateLimiting.WaitWhenFull | src/kyf/utils/rate_limiter.py:23-27 | a full window makes the wait `oldest + window - now`, positive and at most one window |
| RateLimiting.RemainingAt | src/kyf/utils/rate_limiter.py:31-37 | the free slots are never negative, at most `max_requests` when that is not negative, and positive exactly when fewer than `max_requests` entries are active, then filling the gap |
| RateLimiting.QuotaKept | src/kyf/utils/rate_limiter.py:16-29 | after an `acquire`, at most `max_requests` stamps lie in the window ending at the newest stamp |
| RateLimiting.PruneThenStampSorted | src/kyf/utils/rate_limiter.py:21-29 | pruning and appending a stamp no earlier than the last keeps the list sorted |
| RateLimiting.AcquireKeepsValid | src/kyf/utils/rate_limiter.py:16-29 | one `acquire` keeps the stamps sorted, none later than the clock, the quota kept |
| RateLimiting.RateLimiter.constructor | src/kyf/utils/rate_limiter.py:10-14 | the limits are stored and there are no stamps |
| RateLimiting.RateLimiter.Acquire | src/kyf/utils/rate_limiter.py:16-29 | the stamps become the pruned list plus one stamp at the end, taken after any sleep; the sleep is `WaitAt`; the stamps stay sorted and within quota; with `max_requests <= 0` and nothing active, indexing raises and nothing is appended |
| RateLimiting.RateLimiter.Remaining | src/kyf/utils/rate_limiter.py:31-37 | the free slots are never negative, at most `max_requests` when that is not negative, and positive exactly when fewer than `max_requests` entries are active |
| Sanitizer.EvalMatchLen | src/kyf/utils/sanitizer.py:46 | a match of `eval\s*\(` is at least five characters long and fits in the text |
| Sanitizer.EvalMatchShape | src/kyf/utils/sanitizer.py:46 | a match is "eval" in any case, then whitespace, then "(" |
| Sanitizer.SubEvalRemovesAll | src/kyf/utils/sanitizer.py:77-78 | after substitution no match of `eval\s*\(` is left |
| Sanitizer.SubEvalIdentity | src/kyf/utils/sanitizer.py:77-78 | a text without a match is left unchanged |
| Sanitizer.ApplyPatternsInOrder | src/kyf/utils/sanitizer.py:77-78 | the patterns are applied in list order: a split list is two passes in a row |
| Sanitizer.ApplyPatternsNoMatch | src/kyf/utils/sanitizer.py:77-78 | when no pattern matches, the passes change nothing |
| Sanitizer.AnyMatchIffSome | src/kyf/utils/sanitizer.py:88 | `any(...)` holds exactly when some pattern of the list matches |
| Sanitizer.Truncate | src/kyf/utils/sanitizer.py:74 | the result is the first `min(len, 10000)` characters |
| Sanitizer.Strip | src/kyf/utils/sanitizer.py:80 | the result has no leading or trailing whitespace and is a slice of the input |
| Sanitizer.StripFixesStripped | src/kyf/utils/sanitizer.py:80 | stripping an already stripped text changes nothing |
| Sanitizer.Sanitize | src/kyf/utils/sanitizer.py:64-80 | the empty text is returned as is; every result has no leading or trailing whitespace |
| Sanitizer.SanitizeText | src/kyf/utils/sanitizer.py:64-80 | the loop over the patterns computes `Sanitize`: truncation, NFKC, each pattern's matches replaced in list order, then stripping |
| Sanitizer.IsSuspicious | src/kyf/utils/sanitizer.py:82-88 | the empty text is never suspicious |
| Sanitizer.SuspiciousIffSomePatternMatches | src/kyf/utils/sanitizer.py:82-88 | suspicious exactly when some pattern matches the normalised, untruncated text |
| Sanitizer.EvalCallAfterNormalisingIsSuspicious | src/kyf/utils/sanitizer.py:85-88 | a text whose normal form contains an `eval(` call is suspicious, whatever characters it was written in |
| Sanitizer.LookalikesTreatedAlike | src/kyf/utils/sanitizer.py:74-88 | normalisation comes first: texts with the same normal form are sanitised and classified alike |
| Sanitizer.SanitizeWithoutMatch | src/kyf/utils/sanitizer.py:74-80 | without any match, sanitising is `strip(normalize(truncate(t)))` |
| Sanitizer.SanitizeReadsOnlyTheCap | src/kyf/utils/sanitizer.py:52-74 | only the first 10,000 raw characters influence the result |
| ContentAnalyzer.AnalyzePrompt | src/kyf/services/content_analyzer.py:27-34 | the model sees the sanitised title and body, with a missing body as ""; submolt "general" when it is missing or empty |
| ContentAnalyzer.AnalysisOf | src/kyf/services/content_analyzer.py:36-52 | the validated result, or for any model or validation error the default result with the error in `reasoning`; always within the confidence bounds |
| ContentAnalyzer.FailedAnalysisIsNeverCheckable | src/kyf/services/content_analyzer.py:50-52 | an error never yields a checkable claim |
| ContentAnalyzer.Unsuspicious | src/kyf/services/content_analyzer.py:57-62 | no post sent to the model has a suspicious title or body |
| ContentAnalyzer.UnsuspiciousIsSubsequence | src/kyf/services/content_analyzer.py:57-64 | the posts sent to the model keep the feed's order |
| ContentAnalyzer.Screen | src/kyf/services/content_analyzer.py:54-69 | each kept post is unsuspicious and paired with an analysis that has a claim with at least the threshold's confidence |
| ContentAnalyzer.ScreenKeepsFeedOrder | src/kyf/services/content_analyzer.py:56-69 | the kept posts are an order-preserving subsequence of the input |
| ContentAnalyzer.ScreenedKeepsFeedOrder | src/kyf/services/content_analyzer.py:54-69 | what `filter_checkable` returns is an order-preserving subsequence of its input |
| ContentAnalyzer.ScreenKeepsAnalysedOrder | src/kyf/services/content_analyzer.py:56-69 | the kept posts are an order-preserving subsequence of the unsuspicious ones |
| ContentAnalyzer.ScreenedKeepsAnalysedOrder | src/kyf/services/content_analyzer.py:54-69 | what `filter_checkable` returns is an order-preserving subsequence of the posts it asked the model about |
| ContentAnalyzer.ScreenAppend | src/kyf/services/content_analyzer.py:57-66 | a suspicious post adds nothing; any other post is kept exactly when its own analysis passes |
| ContentAnalyzer.ScreenedSkip | src/kyf/services/content_analyzer.py:58-62 | a suspicious post causes no model call and no result |
| ContentAnalyzer.ScreenedAnalyse | src/kyf/services/content_analyzer.py:64-66 | any other post causes one model call with its prompt and, when kept, one result |
| ContentAnalyzer.AnalysisRequests | src/kyf/services/content_analyzer.py:25-34 | the `analyze` requests among the model calls are no more than the calls and each is an analysis prompt |
| ContentAnalyzer.AnalysisRequestsSnocOther | src/kyf/services/content_analyzer.py:25-34 | a model call that is not an analysis adds no analysis request |
| ContentAnalyzer.AnalysisRequestsConcat | src/kyf/services/content_analyzer.py:25-34 | the analysis requests of two runs of calls are those of the first followed by those of the second |
| ContentAnalyzer.AnalysisRequestsOfAnalyses | src/kyf/services/content_analyzer.py:25-34 | when every call was an analysis, the analysis requests are all the prompts |
| ContentAnalyzer.AnalysedRequests | src/kyf/services/content_analyzer.py:54-69 | calls that asked for the analyses of some posts add exactly those posts' prompts to the analysis requests |
| ContentAnalyzer.ContentAnalyzerService.constructor | src/kyf/services/content_analyzer.py:21-23 | the model and the threshold (default 0.6) are stored |
| ContentAnalyzer.ContentAnalyzerService.Analyze | src/kyf/services/content_analyzer.py:25-52 | exactly one model call, with the post's prompt; the result is `AnalysisOf` its reply |
| ContentAnalyzer.ContentAnalyzerService.FilterCheckable | src/kyf/services/content_analyzer.py:54-69 | the model calls are one per unsuspicious post, in order, and the result is the screen of their replies |
| ContentAnalyzer.ContentAnalyzerService.ScreenOne | src/kyf/services/content_analyzer.py:57-66 | one turn of the screening loop |
| FactChecker.FactCheckPrompt | src/kyf/services/fact_checker.py:25-32 | the model sees the sanitised title and body, with a missing body as ""; the claim summary as given, or "unspecified claim" when missing or empty |
| FactChecker.FactCheckPrompts | src/kyf/services/fact_checker.py:25-32 | one fact-check prompt per checkable post, in order |
| FactChecker.FactCheckPromptsStep | src/kyf/services/fact_checker.py:25-32 | the prompts of one more post are the earlier prompts followed by that post's prompt |
| FactChecker.ClaimSummaryIsNotSanitised | src/kyf/services/fact_checker.py:31 | even a suspicious claim summary reaches the prompt unfiltered |
| FactChecker.ReplyOf | src/kyf/services/fact_checker.py:34-49 | a returned reply satisfies the response bounds; a model error is re-raised |
| FactChecker.ReplyIsACommentBody | src/kyf/services/fact_checker.py:39 | a returned reply makes a valid comment exactly when the post id is non-empty |
| FactChecker.FactCheckerService.constructor | src/kyf/services/fact_checker.py:20-21 | the model is stored |
| FactChecker.FactCheckerService.GenerateReply | src/kyf/services/fact_checker.py:23-49 | exactly one model call with the fact-check prompt; the result is `ReplyOf` its reply, errors included |
| PostCreator.SubmoltOf | src/kyf/services/post_creator.py:50 | the table's submolt, "science" for an unknown topic; never empty |
| PostCreator.TargetSubmolt | src/kyf/services/post_creator.py:50 | a non-empty explicit submolt wins; otherwise the topic's submolt |
| PostCreator.TopicTable | src/kyf/services/post_creator.py:16-36 | seven topics, each mapped, with exactly the listed submolts |
| PostCreator.ContentOf | src/kyf/services/post_creator.py:57-72 | returned content satisfies its bounds; a model error is re-raised |
| PostCreator.PostCreatorService.constructor | src/kyf/services/post_creator.py:42-43 | the model is stored |
| PostCreator.PostCreatorService.CreatePost | src/kyf/services/post_creator.py:45-72 | a missing or empty category is replaced by a listed topic, a given one is kept; one model call with that topic and its target submolt; the result is `ContentOf` the reply |
| LlmModels.DefaultLlmConfig | src/kyf/models/llm.py:6-9 | the defaults satisfy the constraints: 1024 output tokens and temperature 0.8 |
| LlmModels.NewAnalysisResult | src/kyf/models/llm.py:12-18 | an analysis built from its required field has no summary and confidence 0.0 |
| LlmModels.ValidateAnalysisResult | src/kyf/models/llm.py:12-18 | accepted exactly when the reply is an object with a boolean `has_checkable_claim`, a `confidence`, if present, between 0 and 1, and `claim_summary` and `reasoning` each absent, null or a string; an accepted analysis has the reply's claim flag and confidence, and defaults for absent fields |
| LlmModels.ValidateFactCheckResponse | src/kyf/models/llm.py:21-26 | accepted exactly when the reply is an object with a 1 to 5000 character `response_text`, a string `verdict` and, if present, a list of strings as `sources_used`; an accepted reply has that text and verdict, and no sources when the field is absent |
| LlmModels.FactCheckReplyIsCommentBody | src/kyf/models/llm.py:24 | a valid reply text is a valid comment body: the comment fails only for an empty post id |
| LlmModels.ValidateCommentReplyResponse | src/kyf/models/llm.py:29-32 | accepted exactly when the reply is an object with a 1 to 2000 character `response_text`; an accepted reply has that text |
| LlmModels.CommentReplyIsCommentBody | src/kyf/models/llm.py:32 | a conversational reply always fits a comment body under a non-empty post id |
| LlmModels.ValidateOriginalPostContent | src/kyf/models/llm.py:35-41 | accepted exactly when the reply is an object with a 1 to 300 character `title`, a 1 to 10000 character `body`, a string `target_submolt` if present, and a `topic_category` that is absent, null or a string; accepted content has that title and body, the given submolt or "science", and no default category |
| LlmModels.OriginalPostFitsCreatePost | src/kyf/models/llm.py:38-40 | generated content makes a valid post request exactly when its submolt is non-empty |
| LlmModels.EmptyTargetSubmoltPassesValidation | src/kyf/models/llm.py:40 | a reply with an empty submolt validates but can never be published |
| LlmClients.Validated | src/kyf/services/fact_checker.py:34-49 | a service that re-raises returns the validated value, the model's error, or the validation error |
| LlmClients.LlmClient.GenerateJson | src/kyf/clients/llm_client.py:29-32 | each call is recorded with its prompt and whatever reply it got |
| MoltbookModels.ParseVoteDirection | src/kyf/models/moltbook.py:10-12 | a parsed direction has the given value |
| MoltbookModels.ParsePostSortOrder | src/kyf/models/moltbook.py:15-19 | a parsed sort order has the given value |
| MoltbookModels.ParseCommentSortOrder | src/kyf/models/moltbook.py:22-25 | a parsed sort order has the given value |
| MoltbookModels.EnumValuesRoundTrip | src/kyf/models/moltbook.py:10-25 | every enum value parses back to its member |
| MoltbookModels.NewPost | src/kyf/models/moltbook.py:49-58 | the optional fields are absent and the counters 0 |
| MoltbookModels.NewComment | src/kyf/models/moltbook.py:61-68 | the optional fields are absent and the score 0 |
| MoltbookModels.CreatePostRequestOf | src/kyf/models/moltbook.py:80-84 | valid exactly for a 1 to 300 character title, a body absent or at most 10,000 characters, and a non-empty submolt |
| MoltbookModels.CreateCommentRequestOf | src/kyf/models/moltbook.py:87-90 | valid exactly for a non-empty post id and a 1 to 5000 character body, any parent |
| MoltbookModels.VoteRequestOf | src/kyf/models/moltbook.py:93-95 | valid exactly for a non-empty target and "upvote" or "downvote" |
| MoltbookModels.CreateSubmoltRequestOf | src/kyf/models/moltbook.py:98-101 | valid exactly when the name, display name and description bounds and the name's charset hold |
| MoltbookModels.SubmoltNameIsQuerySafe | src/kyf/models/moltbook.py:99 | a valid name holds no character that delimits a URL path or query |
| MoltbookModels.UpdateProfileRequestOf | src/kyf/models/moltbook.py:104-106 | valid exactly when the description is absent or at most 500 characters |
| MoltbookClient.TrimBaseUrl | src/kyf/clients/moltbook_client.py:48 | the result is the URL minus exactly its trailing slashes |
| MoltbookClient.TrimBaseUrlIdempotent | src/kyf/clients/moltbook_client.py:48 | trimming twice is trimming once |
| MoltbookClient.FullUrl | src/kyf/clients/moltbook_client.py:78 | the base URL followed by the path |
| MoltbookClient.GuardOnFullUrl | src/kyf/clients/moltbook_client.py:65-79 | a base URL naming the host passes every path, and so does a path containing the host text |
| MoltbookClient.DefaultBaseUrlIsTrusted | src/kyf/config.py:16 | the default base URL passes the guard for every path |
| MoltbookClient.CheckEnvelope | src/kyf/clients/moltbook_client.py:83-89 | accepted exactly when the body is an object whose `success` is absent or truthy; a refusal is a `MoltbookClientError` carrying `error` (default "Unknown error") and `hint`; a body that is not an object raises a different error |
| MoltbookClient.EnvelopeCases | src/kyf/clients/moltbook_client.py:85-89 | `success: false` is refused with a `MoltbookClientError`, and a body without `success` is accepted |
| MoltbookClient.PostsPathRoundTrip | src/kyf/clients/moltbook_client.py:99-102 | the sort read back from a `get_posts` path is the one asked for, whatever the submolt |
| MoltbookClient.PostsPathFilter | src/kyf/clients/moltbook_client.py:99-101 | the submolt filter is appended exactly for a non-empty submolt |
| MoltbookClient.CommentsPathInjective | src/kyf/clients/moltbook_client.py:122 | distinct (post, sort) pairs ask for distinct comment paths |
| MoltbookClient.MoltbookClient.constructor | src/kyf/clients/moltbook_client.py:47-50 | the base URL is stored trimmed, with a fresh limiter of 90 requests per 60 seconds |
| MoltbookClient.MoltbookClient.Request | src/kyf/clients/moltbook_client.py:72-92 | every attempt first takes a limiter slot; an untrusted host is refused with a `MoltbookClientError`; otherwise the body is judged by its envelope |
| MoltbookClient.RequestAsWritten | src/kyf/clients/moltbook_client.py:72-90 | as decorated, a request that fails all three attempts raises `RetryError` around the third attempt's exception |
| MoltbookClient.ClientErrorNeverCaughtAsWritten | src/kyf/clients/moltbook_client.py:72 | as decorated, no failed request reaches the caller as a `MoltbookClientError` |
| MoltbookClient.RefusedThriceEscapes | src/kyf/clients/moltbook_client.py:72-90 | an API refusing three times in a row raises `RetryError`, which `except MoltbookClientError` does not catch |
| MoltbookClient.RequestRetried | src/kyf/clients/moltbook_client.py:72 | with `reraise`, a request succeeds exactly when one of its three attempts does, and otherwise raises the third attempt's own exception |
| MoltbookClient.ClientErrorCaughtWhenReraised | src/kyf/clients/moltbook_client.py:72 | with `reraise`, a failed request is a `MoltbookClientError` exactly when its last attempt raised one |
| Forum.ForumErrorOf | src/kyf/core/agent.py:90-94 | a request given up on is a client error for the agent exactly when it raised `MoltbookClientError` itself |
| Forum.ForumClient.GetPosts | src/kyf/clients/base.py:29-32 | each call is recorded with its sort order and outcome |
| Forum.ForumClient.CreateComment | src/kyf/clients/base.py:50-51 | each call is recorded with its request and outcome |
| Forum.ForumClient.Vote | src/kyf/clients/base.py:55-56 | each call is recorded with its request and whether it succeeded |
| Forum.ForumClient.CreatePost | src/kyf/clients/base.py:37-38 | each call is recorded with its request and outcome |
| Forum.ForumClient.FetchHeartbeat | src/kyf/clients/base.py:85-86 | each call is recorded with whether it succeeded |
| Clocks.Clock.Now | src/kyf/utils/rate_limiter.py:19 | a reading is no earlier than the last |
| Clocks.Clock.Sleep | src/kyf/utils/rate_limiter.py:27 | sleeping `d` returns no earlier than `d` later |

## Left out

- HTTP transport: `_get_client`, the httpx request, `raise_for_status`, JSON decoding of responses and `fetch_heartbeat`'s download. A forum call has any outcome, and `Request` takes the decoded body as an argument.
- MoltbookClient.MoltbookClient.Request: models one attempt. The three attempts around it are modelled over their outcomes (`MoltbookClient.RequestAsWritten`, `MoltbookClient.RequestRetried`); the exponential wait between them is not.
- The forum operations the agent never calls (`get_post`, `delete_post`, `get_comments`, `get_submolts`, `get_submolt`, `create_submolt`, `subscribe`, `unsubscribe`, `get_profile`, `update_profile`, `close`). Their paths and request models are modelled where they are pure.
- `KYFAgent.shutdown` and `FileStateRepository.close`: these only close connections and log.
- The prompt templates: a prompt is modelled by the arguments filled into its template.
- The concrete model client (`GeminiClient`): it is a wrapper over a vendor library. `generate` is not used by the core.
- The scheduler, `main.py` and configuration loading from the environment.
- Concurrency: the `asyncio.Lock`s, which only serialise the same sequential steps.
- Disk I/O errors, `mkdir`, and file encodings. Writes always succeed; a file's text is what decoding it gives.
- The text `str()` gives a Python set (`setText` in `StateRepository.DumpAsWritten`): any string stands for it, since no string validates as a set.
- StateRepository.OptionalDateTime: a timestamp string must have one of the forms pydantic documents for `datetime` (a date; a date, `T`/`t`/space/`_`, `HH:MM` with optional seconds, a fraction of up to six digits and a `Z` or `±HH[:]MM` offset; or a Unix time written as digits). A JSON number holding a Unix time is refused although pydantic accepts it, and a validated timestamp is kept as its text rather than parsed. StateRepository.LoadSnapshot inherits both limits.
- StateRepository.FileStateRepository.LoadState: the loaded state holds a copy of the seen set. src/kyf/core/state_repository.py:57-64 hands out the repository's own set, so a later `mark_post_seen` also shows in that state; the aliasing is not modelled.
- StateRepository.IdsOf: non-string scalars in an id list (numbers, booleans, null) are dropped. The source keeps them in the set and writes them back on the next `mark_post_seen`; they never equal a post id, so no lookup changes.
- The text of `isoformat()` timestamps: the UTC stamp and the local date are arbitrary strings, unrelated to each other.
- Logging and every log message.
- Floating point: confidences and temperatures are reals, and only their ordering is used.
- Unicode normalisation and the regular-expression engine for 22 of the 23 patterns: these are functions supplied by the caller.
- Pydantic's lax coercions (for example a numeric string accepted as a float), and pydantic's error text: replies are validated on JSON-native types only.
- Clocks.Clock.UtcIso: the timestamp text is not modelled. Likewise Clocks.Clock.TodayIso.

## Findings

| source | as written | input that shows it | evidently intended | confidence | as-written member | corrected member |
|---|---|---|---|---|---|---|
| src/kyf/core/state_repository.py:67-74 | `json.dumps(state.model_dump(...), default=str)` cannot encode the `subscribed_submolts` set, so `default=str` writes its text, e.g. `"subscribed_submolts": "set()"` | any state, the default one included: save it, then call `load_state`; `AgentState.model_validate_json` at line 63 rejects a string where a set is expected and raises | the set written as a JSON list (as `model_dump_json` would), so that `load_state` reads back what `save_state` wrote | high, not executed | StateRepository.SavedStateNeverLoads | StateRepository.DumpRoundTrip |
| src/kyf/clients/moltbook_client.py:72 | `@retry(stop=stop_after_attempt(3), ...)` without `reraise=True`: once the third attempt fails, tenacity raises `RetryError` wrapping that attempt's exception, so `except MoltbookClientError` at src/kyf/core/agent.py:92 never fires for a failed `get_posts` | an API answering `{"success": false}` three times in a row to `get_posts`: the `MoltbookClientError` becomes a `RetryError`, which escapes `_browse_and_engage` instead of skipping that sort order | `reraise=True`, so that the last attempt's `MoltbookClientError` reaches the handler and the sort order is skipped | medium, not executed | MoltbookClient.RefusedThriceEscapes | MoltbookClient.ClientErrorCaughtWhenReraised |
