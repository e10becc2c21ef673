/** The agent's bookkeeping models (src/kyf/models/agent_state.py). */
module AgentStates {
  import opened Wrappers

  datatype ActionType =
    | PostCreated
    | CommentCreated
    | CommentReplied
    | VoteCast
    | CommentVoteCast
    | SubmoltJoined
    | Heartbeat
    | FeedBrowsed
    | ProfileUpdated
  {
    /** The StrEnum value written to the action log. */
    function Value(): string {
      match this
      case PostCreated => "post_created"
      case CommentCreated => "comment_created"
      case CommentReplied => "comment_replied"
      case VoteCast => "vote_cast"
      case CommentVoteCast => "comment_vote_cast"
      case SubmoltJoined => "submolt_joined"
      case Heartbeat => "heartbeat"
      case FeedBrowsed => "feed_browsed"
      case ProfileUpdated => "profile_updated"
    }
  }

  const AllActionTypes: seq<ActionType> := [
    PostCreated, CommentCreated, CommentReplied, VoteCast, CommentVoteCast,
    SubmoltJoined, Heartbeat, FeedBrowsed, ProfileUpdated
  ]

  /** `ActionType(s)`: the member whose value is `s`, if any. */
  function ParseActionType(s: string): (r: Option<ActionType>)
    ensures r.Some? ==> r.value.Value() == s
  {
    if s == "post_created" then Some(PostCreated)
    else if s == "comment_created" then Some(CommentCreated)
    else if s == "comment_replied" then Some(CommentReplied)
    else if s == "vote_cast" then Some(VoteCast)
    else if s == "comment_vote_cast" then Some(CommentVoteCast)
    else if s == "submolt_joined" then Some(SubmoltJoined)
    else if s == "heartbeat" then Some(Heartbeat)
    else if s == "feed_browsed" then Some(FeedBrowsed)
    else if s == "profile_updated" then Some(ProfileUpdated)
    else None
  }

  /** Each value parses back to its member, so no two members share a value. */
  lemma ActionTypeRoundTrip(a: ActionType, b: ActionType)
    ensures ParseActionType(a.Value()) == Some(a)
    ensures a.Value() == b.Value() ==> a == b
  {
  }

  /** The enum has exactly nine members. */
  lemma NineActionTypes(a: ActionType)
    ensures a in AllActionTypes
    ensures |AllActionTypes| == 9
    ensures forall i, j :: 0 <= i < j < |AllActionTypes| ==> AllActionTypes[i].Value() != AllActionTypes[j].Value()
  {
  }

  /**
   * One entry of the action log. `createdAt` is the text of the UTC timestamp
   * taken when the entry was built (its `isoformat()`).
   */
  datatype ActionLog = ActionLog(
    id: Option<int>,
    actionType: ActionType,
    targetId: Option<string>,
    details: Option<string>,
    createdAt: string)

  /** `ActionLog(action_type=t, target_id=..., details=...)` built at time `now`. */
  function NewActionLog(t: ActionType, targetId: Option<string>, details: Option<string>, now: string): (a: ActionLog)
    ensures a.id.None? && a.actionType == t && a.createdAt == now
    ensures a.targetId == targetId && a.details == details
  {
    ActionLog(None, t, targetId, details, now)
  }

  predicate IsDigit(c: char) {
    '0' <= c <= '9'
  }

  predicate AllDigits(s: string) {
    forall i :: 0 <= i < |s| ==> IsDigit(s[i])
  }

  /** The value of a run of decimal digits. */
  function DigitsValue(s: string): (n: nat)
    requires AllDigits(s)
    ensures |s| == 1 ==> n == (s[0] as int) - ('0' as int)
    ensures n < Pow10(|s|)
  {
    if s == [] then 0
    else
      var d := (s[|s| - 1] as int) - ('0' as int);
      DigitsValue(s[..|s| - 1]) * 10 + d
  }

  function Pow10(k: nat): (p: nat)
    ensures p >= 1
  {
    if k == 0 then 1 else 10 * Pow10(k - 1)
  }

  /** A field of `k` digits whose value lies in `lo..hi`. */
  predicate NumberIn(s: string, k: nat, lo: int, hi: int) {
    |s| == k && AllDigits(s) && lo <= DigitsValue(s) <= hi
  }

  predicate IsLeapYear(y: int) {
    y % 4 == 0 && (y % 100 != 0 || y % 400 == 0)
  }

  function DaysInMonth(y: int, m: int): (d: int)
    ensures 28 <= d <= 31
  {
    if m == 2 then (if IsLeapYear(y) then 29 else 28)
    else if m == 4 || m == 6 || m == 9 || m == 11 then 30
    else 31
  }

  /** `YYYY-MM-DD` naming a day of the Gregorian calendar. */
  predicate IsDateText(s: string) {
    && |s| == 10 && s[4] == '-' && s[7] == '-'
    && NumberIn(s[..4], 4, 0, 9999) && NumberIn(s[5..7], 2, 1, 12)
    && NumberIn(s[8..], 2, 1, DaysInMonth(DigitsValue(s[..4]), DigitsValue(s[5..7])))
  }

  /** `HH:MM`, optionally `:SS` and a fraction of one to six digits after `.` or `,`. */
  predicate IsClockText(s: string) {
    && |s| >= 5 && NumberIn(s[..2], 2, 0, 23) && s[2] == ':' && NumberIn(s[3..5], 2, 0, 59)
    && (|s| == 5
        || (&& |s| >= 8 && s[5] == ':' && NumberIn(s[6..8], 2, 0, 59)
            && (|s| == 8 || (s[8] in {'.', ','} && 10 <= |s| <= 15 && AllDigits(s[9..])))))
  }

  /** No offset, `Z`, or `+HH:MM`, `-HH:MM`, `+HHMM`, `-HHMM`. */
  predicate IsZoneText(s: string) {
    || s == [] || s == "Z" || s == "z"
    || (&& |s| in {5, 6} && s[0] in {'+', '-'} && NumberIn(s[1..3], 2, 0, 23)
        && (if |s| == 6 then s[3] == ':' && NumberIn(s[4..], 2, 0, 59) else NumberIn(s[3..], 2, 0, 59)))
  }

  /** A time of day followed by its offset, split where the clock ends. */
  predicate IsTimeText(s: string) {
    exists k :: 5 <= k <= |s| && IsClockText(s[..k]) && IsZoneText(s[k..])
  }

  /** A number of seconds since the epoch written as text: `-`, digits, then `.` and digits. */
  predicate IsUnixTimeText(s: string) {
    var body := if s != [] && s[0] == '-' then s[1..] else s;
    exists k :: 1 <= k <= |body| && AllDigits(body[..k])
                && (k == |body| || (body[k] == '.' && AllDigits(body[k + 1..])))
  }

  /**
   * The strings a `datetime` field of a pydantic model validates: a date,
   * a date and a time separated by `T`, `t`, a space or `_`, or a Unix time.
   */
  predicate IsDateTimeText(s: string) {
    || IsDateText(s)
    || (|s| > 11 && IsDateText(s[..10]) && s[10] in {'T', 't', ' ', '_'} && IsTimeText(s[11..]))
    || IsUnixTimeText(s)
  }

  /** The text of a `datetime` field, as the state file holds it. */
  type DateTimeText = s: string | IsDateTimeText(s) witness "1970-01-01"

  /** The fields of `AgentState` other than the seen set. */
  datatype StateSnapshot = StateSnapshot(
    lastHeartbeat: Option<DateTimeText>,
    postsToday: int,
    commentsToday: int,
    lastPostAt: Option<DateTimeText>,
    lastCommentAt: Option<DateTimeText>,
    subscribedSubmolts: set<string>)

  const DefaultSnapshot: StateSnapshot := StateSnapshot(None, 0, 0, None, None, {})

  class AgentState {
    var lastHeartbeat: Option<DateTimeText>
    var postsToday: int
    var commentsToday: int
    var lastPostAt: Option<DateTimeText>
    var lastCommentAt: Option<DateTimeText>
    var seenPostIds: set<string>
    var subscribedSubmolts: set<string>

    /** `AgentState(...)` with the given fields and seen set. */
    constructor (snap: StateSnapshot, seen: set<string>)
      ensures Snapshot() == snap && seenPostIds == seen
    {
      lastHeartbeat := snap.lastHeartbeat;
      postsToday := snap.postsToday;
      commentsToday := snap.commentsToday;
      lastPostAt := snap.lastPostAt;
      lastCommentAt := snap.lastCommentAt;
      seenPostIds := seen;
      subscribedSubmolts := snap.subscribedSubmolts;
    }

    /** Everything `model_dump(exclude={"seen_post_ids"})` keeps. */
    function Snapshot(): (s: StateSnapshot)
      reads this
      ensures s.postsToday == postsToday && s.commentsToday == commentsToday
    {
      StateSnapshot(lastHeartbeat, postsToday, commentsToday, lastPostAt, lastCommentAt, subscribedSubmolts)
    }

    predicate CanPost(maxPostsPerDay: int)
      reads this
    {
      postsToday < maxPostsPerDay
    }

    predicate CanComment(maxCommentsPerDay: int)
      reads this
    {
      commentsToday < maxCommentsPerDay
    }

    predicate IsPostSeen(postId: string)
      reads this
    {
      postId in seenPostIds
    }

    /** `mark_post_seen`: adds the id and touches nothing else. */
    method MarkPostSeen(postId: string)
      modifies this`seenPostIds
      ensures seenPostIds == old(seenPostIds) + {postId}
      ensures IsPostSeen(postId)
      ensures old(IsPostSeen(postId)) ==> seenPostIds == old(seenPostIds)
      ensures forall q :: q != postId ==> (IsPostSeen(q) <==> old(IsPostSeen(q)))
      ensures Snapshot() == old(Snapshot())
    {
      seenPostIds := seenPostIds + {postId};
    }
  }

  /** A fresh state has zero counters and empty sets, so it may post and comment under any positive limit. */
  lemma FreshStateAllowsWork(s: AgentState, maxPosts: int, maxComments: int)
    requires s.Snapshot() == DefaultSnapshot && s.seenPostIds == {}
    ensures s.CanPost(maxPosts) <==> maxPosts > 0
    ensures s.CanComment(maxComments) <==> maxComments > 0
    ensures forall id :: !s.IsPostSeen(id)
  {
  }
}
