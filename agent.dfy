/**
 * `KYFAgent` (src/kyf/core/agent.py): one heartbeat fetches the forum's
 * heartbeat file, browses the HOT and NEW feeds and answers checkable claims
 * within a comment budget, publishes at most one original post under a daily
 * cap, and logs the heartbeat when nothing escaped.
 *
 * The forum, the language model and the state store are the collaborators
 * whose calls are recorded: `forum.calls`, `llm.exchanges` and the lines of
 * the action log. The agent's methods return, as ghost values, the part of
 * each record they added.
 */
module Agent {
  import opened Wrappers
  import opened MoltbookModels
  import opened LlmModels
  import opened Sanitizer
  import opened LlmClients
  import opened AgentStates
  import opened StateRepository
  import opened Clocks
  import opened Forum
  import opened ContentAnalyzer
  import opened FactChecker
  import opened PostCreator

  /** `_vote_on_post`'s choice: which verdicts earn a vote, and which way. */
  function VoteFor(verdict: string): (d: Option<VoteDirection>)
    ensures d == Some(Upvote) <==> verdict == "true" || verdict == "mostly_true"
    ensures d == Some(Downvote) <==> verdict == "false" || verdict == "misleading"
  {
    if verdict == "true" || verdict == "mostly_true" then Some(Upvote)
    else if verdict == "false" || verdict == "misleading" then Some(Downvote)
    else None
  }

  /** Of the five verdicts the reply template offers, only `partially_true` earns no vote. */
  lemma OnlyTheMiddleVerdictIsNotVoted()
    ensures VoteFor("partially_true").None?
    ensures VoteFor("true").Some? && VoteFor("mostly_true").Some?
    ensures VoteFor("misleading").Some? && VoteFor("false").Some?
    ensures VoteFor("unverifiable").None?
    ensures forall v :: v != "true" && v != "mostly_true" && v != "false" && v != "misleading" ==> VoteFor(v).None?
  {
  }

  // ---- Which posts are new ----

  /** The ids of a feed. */
  function IdSet(posts: seq<Post>): (ids: set<string>)
    ensures forall k :: 0 <= k < |posts| ==> posts[k].id in ids
    decreases |posts|
  {
    if posts == [] then {} else IdSet(posts[..|posts| - 1]) + {posts[|posts| - 1].id}
  }

  predicate DistinctIds(posts: seq<Post>) {
    forall i, j :: 0 <= i < j < |posts| ==> posts[i].id != posts[j].id
  }

  predicate Distinct(ids: seq<string>) {
    forall i, j :: 0 <= i < j < |ids| ==> ids[i] != ids[j]
  }

  /**
   * `unseen` for one feed: a post is taken when its id is neither in `seen`
   * nor the id of an earlier post of the feed, since each post is marked
   * seen as soon as it is taken.
   */
  function Unseen(seen: set<string>, posts: seq<Post>): (us: seq<Post>)
    ensures |us| <= |posts|
    decreases |posts|
  {
    if posts == [] then []
    else
      var init := posts[..|posts| - 1];
      var p := posts[|posts| - 1];
      Unseen(seen, init) + (if p.id in seen || p.id in IdSet(init) then [] else [p])
  }

  /** The posts taken are posts of the feed whose ids were not seen before. */
  lemma {:induction false} UnseenIsFresh(seen: set<string>, posts: seq<Post>)
    ensures forall k :: 0 <= k < |Unseen(seen, posts)| ==>
              Unseen(seen, posts)[k].id !in seen && Unseen(seen, posts)[k] in posts
    decreases |posts|
  {
    if posts != [] {
      var init := posts[..|posts| - 1];
      var p := posts[|posts| - 1];
      UnseenIsFresh(seen, init);
      var before := Unseen(seen, init);
      var us := Unseen(seen, posts);
      assert us == before + (if p.id in seen || p.id in IdSet(init) then [] else [p]);
      forall k | 0 <= k < |us|
        ensures us[k].id !in seen && us[k] in posts
      {
        if k < |before| {
          assert us[k] == before[k] && before[k] in init;
          var m :| 0 <= m < |init| && init[m] == before[k];
          assert posts[m] == init[m];
        } else {
          assert us[k] == p;
        }
      }
    }
  }

  lemma IdSetSnoc(posts: seq<Post>, p: Post)
    ensures IdSet(posts + [p]) == IdSet(posts) + {p.id}
  {
    assert (posts + [p])[..|posts|] == posts;
  }

  /** Every id of the feed not seen before is the id of a post taken: none is lost. */
  lemma {:induction false} UnseenTakesEveryNewId(seen: set<string>, posts: seq<Post>)
    ensures IdSet(Unseen(seen, posts)) == IdSet(posts) - seen
    decreases |posts|
  {
    if posts != [] {
      var init := posts[..|posts| - 1];
      var p := posts[|posts| - 1];
      UnseenTakesEveryNewId(seen, init);
      var before := Unseen(seen, init);
      if p.id in seen || p.id in IdSet(init) {
        assert Unseen(seen, posts) == before + [] == before;
      } else {
        IdSetSnoc(before, p);
      }
    }
  }

  /** No id is taken twice, even when the feed repeats a post. */
  lemma {:induction false} UnseenIsDistinct(seen: set<string>, posts: seq<Post>)
    ensures DistinctIds(Unseen(seen, posts))
    decreases |posts|
  {
    if posts != [] {
      var init := posts[..|posts| - 1];
      var p := posts[|posts| - 1];
      UnseenIsDistinct(seen, init);
      UnseenTakesEveryNewId(seen, init);
      var before := Unseen(seen, init);
      if !(p.id in seen || p.id in IdSet(init)) {
        forall k | 0 <= k < |before|
          ensures before[k].id != p.id
        {
          assert before[k].id in IdSet(before);
        }
      }
    }
  }

  /** A subsequence of a feed with distinct ids has distinct ids, and holds only posts of the feed. */
  lemma {:induction false} SubsequenceKeepsIds(xs: seq<Post>, ys: seq<Post>)
    requires IsSubsequence(xs, ys) && DistinctIds(ys)
    ensures DistinctIds(xs) && forall k :: 0 <= k < |xs| ==> xs[k] in ys
    decreases |ys|
  {
    if xs != [] {
      var ys' := ys[..|ys| - 1];
      var xs' := xs[..|xs| - 1];
      assert DistinctIds(ys');
      if xs[|xs| - 1] == ys[|ys| - 1] && IsSubsequence(xs', ys') {
        SubsequenceKeepsIds(xs', ys');
        forall k | 0 <= k < |xs'|
          ensures xs'[k].id != ys[|ys| - 1].id
        {
          var m :| 0 <= m < |ys'| && ys'[m] == xs'[k];
          assert ys[m] == xs'[k];
        }
        assert xs == xs' + [xs[|xs| - 1]];
      } else {
        SubsequenceKeepsIds(xs, ys');
      }
    }
  }
  /**
   * What `filter_checkable` keeps of the posts taken from a feed: posts with
   * distinct ids, none seen before the feed was read, each from the feed.
   */
  lemma CheckableIsFresh(seen: set<string>, posts: seq<Post>, kept: seq<Post>, seenIds: set<string>)
    requires IsSubsequence(kept, Unseen(seen, posts)) && seenIds == seen + IdSet(posts)
    ensures DistinctIds(kept)
    ensures forall k :: 0 <= k < |kept| ==> kept[k].id !in seen && kept[k].id in IdSet(posts)
    ensures forall k :: 0 <= k < |kept| ==> kept[k].id !in seen && kept[k].id in seenIds
  {
    var us := Unseen(seen, posts);
    UnseenIsFresh(seen, posts);
    UnseenIsDistinct(seen, posts);
    SubsequenceKeepsIds(kept, us);
    forall k | 0 <= k < |kept|
      ensures kept[k].id !in seen && kept[k].id in IdSet(posts)
    {
      var m :| 0 <= m < |us| && us[m] == kept[k];
      var n :| 0 <= n < |posts| && posts[n] == us[m];
    }
  }



  // ---- What the forum record shows ----

  /** The posts of the `create_comment` calls that succeeded, in order. */
  function CommentTargets(calls: seq<ForumCall>): (ids: seq<string>)
    ensures |ids| <= |calls|
    decreases |calls|
  {
    if calls == [] then []
    else
      var c := calls[|calls| - 1];
      CommentTargets(calls[..|calls| - 1])
        + (if c.CreateCommentCall? && c.created.Success? then [c.comment.postId] else [])
  }

  lemma CommentTargetsOfOne(c: ForumCall)
    ensures CommentTargets([c]) == if c.CreateCommentCall? && c.created.Success? then [c.comment.postId] else []
  {
    assert [c][..0] == [];
  }

  lemma {:induction false} CommentTargetsConcat(xs: seq<ForumCall>, ys: seq<ForumCall>)
    ensures CommentTargets(xs + ys) == CommentTargets(xs) + CommentTargets(ys)
    decreases |ys|
  {
    if ys != [] {
      var init := ys[..|ys| - 1];
      CommentTargetsConcat(xs, init);
      assert (xs + ys)[..|xs + ys| - 1] == xs + init;
      assert (xs + ys)[|xs + ys| - 1] == ys[|ys| - 1];
    } else {
      assert xs + ys == xs;
    }
  }

  /** Ids new to `s1` and already in `s2`, appended to ids new to `s0` and in `s1`, are new to `s0` and in `s2`. */
  lemma FreshAppend(xs: seq<string>, ys: seq<string>, s0: set<string>, s1: set<string>, s2: set<string>)
    requires s0 <= s1 <= s2
    requires forall k :: 0 <= k < |xs| ==> xs[k] !in s0 && xs[k] in s1
    requires forall k :: 0 <= k < |ys| ==> ys[k] !in s1 && ys[k] in s2
    ensures forall k :: 0 <= k < |xs + ys| ==> (xs + ys)[k] !in s0 && (xs + ys)[k] in s2
  {
  }

  lemma DistinctAppend(xs: seq<string>, ys: seq<string>, s: set<string>)
    requires Distinct(xs) && Distinct(ys)
    requires forall k :: 0 <= k < |xs| ==> xs[k] in s
    requires forall k :: 0 <= k < |ys| ==> ys[k] !in s
    ensures Distinct(xs + ys)
  {
    forall i, j | 0 <= i < j < |xs + ys|
      ensures (xs + ys)[i] != (xs + ys)[j]
    {
      if j >= |xs| && i < |xs| {
        assert (xs + ys)[i] == xs[i] && (xs + ys)[j] == ys[j - |xs|];
      }
    }
  }

  lemma DistinctSnoc(xs: seq<string>, x: string)
    requires Distinct(xs) && forall k :: 0 <= k < |xs| ==> xs[k] != x
    ensures Distinct(xs + [x])
  {
  }

  /**
   * The posts analysed by one sort order, appended to those analysed before
   * it: the analysis requests still match them one for one, and their ids
   * stay distinct and new to `s0`.
   */
  lemma AnalysedAppend(e: TextEngine, start: seq<Exchange>, mid: seq<Exchange>, end: seq<Exchange>,
                       xs: seq<Post>, ys: seq<Post>, s0: set<string>, s1: set<string>, s2: set<string>)
    requires AnalysisRequests(mid) == AnalysisRequests(start) + AnalyzePrompts(e, xs)
    requires AnalysisRequests(end) == AnalysisRequests(mid) + AnalyzePrompts(e, ys)
    requires s0 <= s1 <= s2
    requires DistinctIds(xs) && forall k :: 0 <= k < |xs| ==> xs[k].id !in s0 && xs[k].id in s1
    requires DistinctIds(ys) && forall k :: 0 <= k < |ys| ==> ys[k].id !in s1 && ys[k].id in s2
    ensures AnalysisRequests(end) == AnalysisRequests(start) + AnalyzePrompts(e, xs + ys)
    ensures DistinctIds(xs + ys)
    ensures forall k :: 0 <= k < |xs + ys| ==> (xs + ys)[k].id !in s0 && (xs + ys)[k].id in s2
  {
    AnalyzePromptsConcat(e, xs, ys);
    AppendAssoc(AnalysisRequests(start), AnalyzePrompts(e, xs), AnalyzePrompts(e, ys));
    forall i, j | 0 <= i < j < |xs + ys|
      ensures (xs + ys)[i].id != (xs + ys)[j].id
    {
      if j >= |xs| && i < |xs| {
        assert (xs + ys)[i] == xs[i] && (xs + ys)[j] == ys[j - |xs|];
      }
    }
  }

  /**
   * The record of one sort order appended to the record of the sort orders
   * before it: the calls, log lines, comments and analyses add up, the ids
   * stay distinct, and all of them stay new to `seenStart`.
   */
  lemma SortAccumulated(e: TextEngine, callsStart: seq<ForumCall>, linesStart: seq<LogLine>, seenStart: set<string>,
                        asked: seq<Exchange>, calls: seq<ForumCall>, entries: seq<ActionLog>, commented: seq<string>,
                        analysed: seq<Post>, calls0: seq<ForumCall>, lines0: seq<LogLine>, seen0: set<string>,
                        exchanges0: seq<Exchange>, moreCalls: seq<ForumCall>, moreEntries: seq<ActionLog>,
                        added: seq<string>, more: seq<Post>, calls1: seq<ForumCall>, lines1: seq<LogLine>,
                        seen1: set<string>, exchanges1: seq<Exchange>)
    requires calls0 == callsStart + calls && lines0 == linesStart + Written(entries) && seenStart <= seen0
    requires CommentTargets(calls) == commented && TargetsOf(entries, CommentCreated) == commented
    requires BrowseEntries(entries) && Distinct(commented)
    requires forall k :: 0 <= k < |commented| ==> commented[k] !in seenStart && commented[k] in seen0
    requires AnalysisRequests(exchanges0) == AnalysisRequests(asked) + AnalyzePrompts(e, analysed)
    requires DistinctIds(analysed)
    requires forall k :: 0 <= k < |analysed| ==> analysed[k].id !in seenStart && analysed[k].id in seen0
    requires calls1 == calls0 + moreCalls && lines1 == lines0 + Written(moreEntries) && seen0 <= seen1
    requires CommentTargets(moreCalls) == added && TargetsOf(moreEntries, CommentCreated) == added
    requires BrowseEntries(moreEntries) && Distinct(added)
    requires forall k :: 0 <= k < |added| ==> added[k] !in seen0 && added[k] in seen1
    requires AnalysisRequests(exchanges1) == AnalysisRequests(exchanges0) + AnalyzePrompts(e, more)
    requires DistinctIds(more)
    requires forall k :: 0 <= k < |more| ==> more[k].id !in seen0 && more[k].id in seen1
    ensures calls1 == callsStart + (calls + moreCalls) && lines1 == linesStart + Written(entries + moreEntries)
    ensures CommentTargets(calls + moreCalls) == commented + added
    ensures TargetsOf(entries + moreEntries, CommentCreated) == commented + added
    ensures BrowseEntries(entries + moreEntries) && Distinct(commented + added)
    ensures forall k :: 0 <= k < |commented + added| ==> (commented + added)[k] !in seenStart && (commented + added)[k] in seen1
    ensures AnalysisRequests(exchanges1) == AnalysisRequests(asked) + AnalyzePrompts(e, analysed + more)
    ensures DistinctIds(analysed + more)
    ensures forall k :: 0 <= k < |analysed + more| ==> (analysed + more)[k].id !in seenStart && (analysed + more)[k].id in seen1
  {
    AnalysedAppend(e, asked, exchanges0, exchanges1, analysed, more, seenStart, seen0, seen1);
    CommentTargetsConcat(calls, moreCalls);
    WrittenConcat(entries, moreEntries);
    TargetsOfConcat(entries, moreEntries, CommentCreated);
    AppendAssoc(callsStart, calls, moreCalls);
    AppendAssoc(linesStart, Written(entries), Written(moreEntries));
    DistinctAppend(commented, added, seen0);
    FreshAppend(commented, added, seenStart, seen0, seen1);
    BrowseEntriesConcat(entries, moreEntries);
  }

  /**
   * What the loop over the checkable posts of one feed has recorded after
   * `j` of them, starting from `callsStart`, `linesStart` and `asked`: one
   * fact-check request per post tried, the turn of each post tried as its
   * reply decides it (`turns`), the comments made on distinct posts new to
   * `seen` and unlike the posts still to come, and no analysis request.
   */
  ghost predicate EngagedOf(e: TextEngine, checkable: seq<(Post, AnalysisResult)>, j: nat, seen: set<string>,
                            seenIds: set<string>, callsStart: seq<ForumCall>, linesStart: seq<LogLine>,
                            asked: seq<Exchange>, calls: seq<ForumCall>, entries: seq<ActionLog>, added: seq<string>,
                            sent: seq<Exchange>, turns: seq<Turn>, forumCalls: seq<ForumCall>, lines: seq<LogLine>,
                            exchanges: seq<Exchange>) {
    && EngagedLog(callsStart, linesStart, calls, entries, added, forumCalls, lines)
    && EngagedAsked(e, checkable, j, asked, sent, exchanges)
    && EngagedFresh(checkable, j, seen, seenIds, added)
    && EngagedTurns(checkable, j, sent, turns, calls, entries)
  }

  /** The forum calls and log entries of one tried post. */
  datatype Turn = Turn(calls: seq<ForumCall>, entries: seq<ActionLog>)

  /**
   * The turn of one tried post, given the model exchange that asked for its
   * reply: nothing is called or logged after a reply that does not validate;
   * after one that does, the comment and the vote `CommentPosted` describes,
   * the comment counting exactly when it was logged.
   */
  ghost predicate TurnOf(post: Post, ex: Exchange, t: Turn) {
    if ReplyOf(ex.reply).Failure? then t.calls == [] && t.entries == []
    else CommentPosted(post, ReplyOf(ex.reply).value, t.entries != [], t.calls, t.entries)
  }

  /** The forum calls of the turns, one turn after the other. */
  function TurnCalls(ts: seq<Turn>): (calls: seq<ForumCall>)
    ensures ts == [] ==> calls == []
    decreases |ts|
  {
    if ts == [] then [] else TurnCalls(ts[..|ts| - 1]) + ts[|ts| - 1].calls
  }

  /** The log entries of the turns, one turn after the other. */
  function TurnEntries(ts: seq<Turn>): (entries: seq<ActionLog>)
    ensures ts == [] ==> entries == []
    decreases |ts|
  {
    if ts == [] then [] else TurnEntries(ts[..|ts| - 1]) + ts[|ts| - 1].entries
  }

  /**
   * The loop's calls and entries are the turns of the `j` posts tried, one
   * after the other, and the turn of the `k`-th post follows from the `k`-th
   * reply: every reply that validates is commented on.
   */
  ghost predicate EngagedTurns(checkable: seq<(Post, AnalysisResult)>, j: nat, sent: seq<Exchange>, turns: seq<Turn>,
                               calls: seq<ForumCall>, entries: seq<ActionLog>) {
    && j <= |checkable| && |turns| == j && |sent| == j
    && calls == TurnCalls(turns) && entries == TurnEntries(turns)
    && forall k :: 0 <= k < j ==> TurnOf(checkable[k].0, sent[k], turns[k])
  }

  lemma EngagedTurnsStep(checkable: seq<(Post, AnalysisResult)>, j: nat, sent: seq<Exchange>, turns: seq<Turn>,
                         calls: seq<ForumCall>, entries: seq<ActionLog>, ex: Exchange, t: Turn)
    requires j < |checkable| && EngagedTurns(checkable, j, sent, turns, calls, entries)
    requires TurnOf(checkable[j].0, ex, t)
    ensures EngagedTurns(checkable, j + 1, sent + [ex], turns + [t], calls + t.calls, entries + t.entries)
  {
    assert (turns + [t])[..|turns|] == turns;
  }

  /** What `EngageOne` promises about one post is its turn. */
  lemma TurnOfEngaged(post: Post, ex: Exchange, ok: bool, calls: seq<ForumCall>, entries: seq<ActionLog>)
    requires ReplyOf(ex.reply).Failure? ==> !ok && calls == [] && entries == []
    requires ReplyOf(ex.reply).Success? ==> CommentPosted(post, ReplyOf(ex.reply).value, ok, calls, entries)
    ensures TurnOf(post, ex, Turn(calls, entries))
  {
    if ReplyOf(ex.reply).Success? {
      assert ok == (entries != []);
    }
  }

  /** The forum calls and log lines of the loop: comments and votes, one comment per id in `added`. */
  ghost predicate EngagedLog(callsStart: seq<ForumCall>, linesStart: seq<LogLine>, calls: seq<ForumCall>,
                             entries: seq<ActionLog>, added: seq<string>, forumCalls: seq<ForumCall>,
                             lines: seq<LogLine>) {
    && forumCalls == callsStart + calls && lines == linesStart + Written(entries)
    && CommentTargets(calls) == added && TargetsOf(entries, CommentCreated) == added
    && BrowseEntries(entries) && EngageCalls(calls)
  }

  /** The model requests of the loop: one fact-check request per post tried, no analysis request. */
  ghost predicate EngagedAsked(e: TextEngine, checkable: seq<(Post, AnalysisResult)>, j: nat, asked: seq<Exchange>,
                               sent: seq<Exchange>, exchanges: seq<Exchange>) {
    && j <= |checkable|
    && exchanges == asked + sent && Prompts(sent) == FactCheckPrompts(e, checkable[..j])
    && AnalysisRequests(exchanges) == AnalysisRequests(asked)
  }

  /** The posts commented on by the loop are distinct, new to `seen` and unlike the posts still to come. */
  ghost predicate EngagedFresh(checkable: seq<(Post, AnalysisResult)>, j: nat, seen: set<string>,
                               seenIds: set<string>, added: seq<string>) {
    && Distinct(added)
    && (forall k :: 0 <= k < |added| ==> added[k] !in seen && added[k] in seenIds)
    && (forall k, m :: 0 <= k < |added| && j <= m < |checkable| ==> added[k] != checkable[m].0.id)
  }

  lemma EngagedLogStep(callsStart: seq<ForumCall>, linesStart: seq<LogLine>, calls: seq<ForumCall>,
                       entries: seq<ActionLog>, added: seq<string>, calls0: seq<ForumCall>, lines0: seq<LogLine>,
                       more: seq<string>, moreCalls: seq<ForumCall>, moreEntries: seq<ActionLog>,
                       calls1: seq<ForumCall>, lines1: seq<LogLine>)
    requires EngagedLog(callsStart, linesStart, calls, entries, added, calls0, lines0)
    requires calls1 == calls0 + moreCalls && lines1 == lines0 + Written(moreEntries)
    requires CommentTargets(moreCalls) == more && TargetsOf(moreEntries, CommentCreated) == more
    requires BrowseEntries(moreEntries) && EngageCalls(moreCalls)
    ensures EngagedLog(callsStart, linesStart, calls + moreCalls, entries + moreEntries, added + more, calls1, lines1)
  {
    EngageCallsConcat(calls, moreCalls);
    CommentTargetsConcat(calls, moreCalls);
    WrittenConcat(entries, moreEntries);
    TargetsOfConcat(entries, moreEntries, CommentCreated);
    AppendAssoc(callsStart, calls, moreCalls);
    AppendAssoc(linesStart, Written(entries), Written(moreEntries));
    BrowseEntriesConcat(entries, moreEntries);
  }

  lemma EngagedAskedStep(e: TextEngine, checkable: seq<(Post, AnalysisResult)>, j: nat, asked: seq<Exchange>,
                         sent: seq<Exchange>, exchanges0: seq<Exchange>, ex: Exchange, exchanges1: seq<Exchange>)
    requires j < |checkable| && EngagedAsked(e, checkable, j, asked, sent, exchanges0)
    requires exchanges1 == exchanges0 + [ex] && ex.prompt == FactCheckPrompt(e, checkable[j].0, checkable[j].1)
    requires AnalysisRequests(exchanges1) == AnalysisRequests(exchanges0)
    ensures EngagedAsked(e, checkable, j + 1, asked, sent + [ex], exchanges1)
  {
    AppendAssoc(asked, sent, [ex]);
    PromptsAppend(sent, ex);
    FactCheckPromptsStep(e, checkable, j);
  }

  lemma EngagedFreshStep(checkable: seq<(Post, AnalysisResult)>, j: nat, seen: set<string>, seenIds: set<string>,
                         added: seq<string>, ok: bool)
    requires j < |checkable|
    requires forall i, j :: 0 <= i < j < |checkable| ==> checkable[i].0.id != checkable[j].0.id
    requires checkable[j].0.id !in seen && checkable[j].0.id in seenIds
    requires EngagedFresh(checkable, j, seen, seenIds, added)
    ensures EngagedFresh(checkable, j + 1, seen, seenIds, added + if ok then [checkable[j].0.id] else [])
  {
    var added' := added + if ok then [checkable[j].0.id] else [];
    if ok {
      DistinctSnoc(added, checkable[j].0.id);
    } else {
      assert added' == added;
    }
    AddedStaysFresh(checkable, j, seen, seenIds, added, added');
  }

  /** One more checkable post tried, with the calls, entries and model exchange of its turn. */
  lemma EngageAccumulated(e: TextEngine, checkable: seq<(Post, AnalysisResult)>, j: nat, seen: set<string>,
                          seenIds: set<string>, callsStart: seq<ForumCall>, linesStart: seq<LogLine>,
                          asked: seq<Exchange>, calls: seq<ForumCall>, entries: seq<ActionLog>, added: seq<string>,
                          sent: seq<Exchange>, turns: seq<Turn>, calls0: seq<ForumCall>, lines0: seq<LogLine>,
                          exchanges0: seq<Exchange>, ok: bool, moreCalls: seq<ForumCall>, moreEntries: seq<ActionLog>,
                          ex: Exchange, calls1: seq<ForumCall>, lines1: seq<LogLine>, exchanges1: seq<Exchange>)
    requires j < |checkable|
    requires forall i, j :: 0 <= i < j < |checkable| ==> checkable[i].0.id != checkable[j].0.id
    requires checkable[j].0.id !in seen && checkable[j].0.id in seenIds
    requires EngagedOf(e, checkable, j, seen, seenIds, callsStart, linesStart, asked, calls, entries, added, sent,
                       turns, calls0, lines0, exchanges0)
    requires calls1 == calls0 + moreCalls && lines1 == lines0 + Written(moreEntries)
    requires exchanges1 == exchanges0 + [ex] && ex.prompt == FactCheckPrompt(e, checkable[j].0, checkable[j].1)
    requires CommentTargets(moreCalls) == (if ok then [checkable[j].0.id] else [])
    requires TargetsOf(moreEntries, CommentCreated) == (if ok then [checkable[j].0.id] else [])
    requires BrowseEntries(moreEntries) && EngageCalls(moreCalls)
    requires AnalysisRequests(exchanges1) == AnalysisRequests(exchanges0)
    requires TurnOf(checkable[j].0, ex, Turn(moreCalls, moreEntries))
    ensures EngagedOf(e, checkable, j + 1, seen, seenIds, callsStart, linesStart, asked, calls + moreCalls,
                      entries + moreEntries, added + (if ok then [checkable[j].0.id] else []), sent + [ex],
                      turns + [Turn(moreCalls, moreEntries)], calls1, lines1, exchanges1)
  {
    EngagedLogStep(callsStart, linesStart, calls, entries, added, calls0, lines0,
                   if ok then [checkable[j].0.id] else [], moreCalls, moreEntries, calls1, lines1);
    EngagedAskedStep(e, checkable, j, asked, sent, exchanges0, ex, exchanges1);
    EngagedFreshStep(checkable, j, seen, seenIds, added, ok);
    EngagedTurnsStep(checkable, j, sent, turns, calls, entries, ex, Turn(moreCalls, moreEntries));
  }

  /** Only comments and votes are logged while browsing. */
  predicate BrowseEntries(entries: seq<ActionLog>) {
    forall k :: 0 <= k < |entries| ==> entries[k].actionType == CommentCreated || entries[k].actionType == VoteCast
  }

  /** Nothing the browse and post phases log is a heartbeat. */
  lemma BrowseThenPostHasNoBeat(xs: seq<ActionLog>, ys: seq<ActionLog>)
    requires BrowseEntries(xs)
    requires |ys| <= 1 && (ys != [] ==> ys[0].actionType == PostCreated)
    ensures forall k :: 0 <= k < |xs + ys| ==> (xs + ys)[k].actionType != Heartbeat
  {
  }

  lemma BrowseEntriesConcat(xs: seq<ActionLog>, ys: seq<ActionLog>)
    requires BrowseEntries(xs) && BrowseEntries(ys)
    ensures BrowseEntries(xs + ys)
  {
  }

  // ---- The calls of each step ----

  /**
   * `_vote_on_post` for one verdict: one vote call exactly when the verdict
   * earns a vote and the request is valid, in the direction `VoteFor` gives,
   * and one `VOTE_CAST` entry exactly when that call went through.
   */
  ghost predicate Voted(postId: string, verdict: string, calls: seq<ForumCall>, entries: seq<ActionLog>) {
    && (calls == [] <==> VoteFor(verdict).None? || postId == "")
    && (calls != [] ==>
          |calls| == 1 && calls[0].VoteCall? && calls[0].vote == VoteRequest(postId, VoteFor(verdict).value))
    && (entries != [] <==> calls != [] && calls[0].ok)
    && (entries != [] ==>
          |entries| == 1 && entries[0].actionType == VoteCast && entries[0].targetId == Some(postId)
          && entries[0].details == Some(VoteFor(verdict).value.Value()))
  }

  /**
   * What happens to one fact-check reply: the comment request carries the
   * post's id and the reply text; the comment counts exactly when the forum
   * created it; a counted comment is logged as `COMMENT_CREATED` with its
   * verdict and followed by the vote for that verdict; nothing follows a
   * comment that was not created.
   */
  ghost predicate CommentPosted(post: Post, reply: FactCheckResponse, ok: bool, calls: seq<ForumCall>,
                                entries: seq<ActionLog>) {
    var request := CreateCommentRequestOf(post.id, reply.responseText, None);
    && (request.Failure? ==> !ok && calls == [] && entries == [])
    && (request.Success? ==>
          calls != [] && calls[0].CreateCommentCall? && calls[0].comment == request.value
          && (ok <==> calls[0].created.Success?))
    && (!ok ==> |calls| <= 1 && entries == [])
    && (ok ==>
          entries != [] && entries[0].actionType == CommentCreated && entries[0].targetId == Some(post.id)
          && entries[0].details == Some("verdict=" + reply.verdict)
          && Voted(post.id, reply.verdict, calls[1..], entries[1..]))
  }

  /** A comment created and logged, then the vote after it: the trace of a successful `CommentAndVote`. */
  lemma CommentedThenVoted(post: Post, reply: FactCheckResponse, created: Result<Comment, ForumError>, a: ActionLog,
                           voteCalls: seq<ForumCall>, voteEntries: seq<ActionLog>, callsStart: seq<ForumCall>,
                           linesStart: seq<LogLine>, forumCalls: seq<ForumCall>, lines: seq<LogLine>)
    requires CreateCommentRequestOf(post.id, reply.responseText, None).Success? && created.Success?
    requires a.actionType == CommentCreated && a.targetId == Some(post.id)
    requires a.details == Some("verdict=" + reply.verdict)
    requires forumCalls == callsStart + [CreateCommentCall(CreateCommentRequestOf(post.id, reply.responseText, None).value,
                                                          created)] + voteCalls
    requires lines == linesStart + Written([a]) + Written(voteEntries)
    requires CommentTargets(voteCalls) == [] && TargetsOf(voteEntries, CommentCreated) == []
    requires BrowseEntries(voteEntries) && Voted(post.id, reply.verdict, voteCalls, voteEntries) && EngageCalls(voteCalls)
    ensures var calls := [CreateCommentCall(CreateCommentRequestOf(post.id, reply.responseText, None).value, created)]
                         + voteCalls;
            var entries := [a] + voteEntries;
            && forumCalls == callsStart + calls && lines == linesStart + Written(entries)
            && CommentTargets(calls) == [post.id] && TargetsOf(entries, CommentCreated) == [post.id]
            && BrowseEntries(entries) && post.id != "" && entries[0].details.Some?
            && CommentPosted(post, reply, true, calls, entries) && EngageCalls(calls)
  {
    var cc := CreateCommentCall(CreateCommentRequestOf(post.id, reply.responseText, None).value, created);
    CommentedPosted(post, reply, created, a, voteCalls, voteEntries);
    CommentedCalls(cc, post.id, voteCalls, callsStart, forumCalls);
    CommentedEntries(a, post.id, voteEntries, linesStart, lines);
  }

  /** The calls of a created comment followed by its vote. */
  lemma CommentedCalls(cc: ForumCall, postId: string, voteCalls: seq<ForumCall>, callsStart: seq<ForumCall>,
                       forumCalls: seq<ForumCall>)
    requires cc.CreateCommentCall? && cc.comment.postId == postId && cc.created.Success?
    requires forumCalls == callsStart + [cc] + voteCalls
    requires CommentTargets(voteCalls) == [] && EngageCalls(voteCalls)
    ensures forumCalls == callsStart + ([cc] + voteCalls)
    ensures CommentTargets([cc] + voteCalls) == [postId] && EngageCalls([cc] + voteCalls)
  {
    CommentTargetsOfOne(cc);
    CommentTargetsConcat([cc], voteCalls);
    AppendAssoc(callsStart, [cc], voteCalls);
    EngageCallsConcat([cc], voteCalls);
  }

  /** The log of a created comment followed by its vote. */
  lemma CommentedEntries(a: ActionLog, postId: string, voteEntries: seq<ActionLog>, linesStart: seq<LogLine>,
                         lines: seq<LogLine>)
    requires postId != ""
    requires a.actionType == CommentCreated && a.targetId == Some(postId) && a.details.Some?
    requires lines == linesStart + Written([a]) + Written(voteEntries)
    requires TargetsOf(voteEntries, CommentCreated) == [] && BrowseEntries(voteEntries)
    ensures lines == linesStart + Written([a] + voteEntries)
    ensures TargetsOf([a] + voteEntries, CommentCreated) == [postId] && BrowseEntries([a] + voteEntries)
  {
    TargetsOfOne(a, CommentCreated);
    WrittenConcat([a], voteEntries);
    TargetsOfConcat([a], voteEntries, CommentCreated);
    AppendAssoc(linesStart, Written([a]), Written(voteEntries));
  }

  /** A created comment, logged with its verdict and followed by the vote, is a posted comment. */
  lemma CommentedPosted(post: Post, reply: FactCheckResponse, created: Result<Comment, ForumError>, a: ActionLog,
                        voteCalls: seq<ForumCall>, voteEntries: seq<ActionLog>)
    requires CreateCommentRequestOf(post.id, reply.responseText, None).Success? && created.Success?
    requires a.actionType == CommentCreated && a.targetId == Some(post.id)
    requires a.details == Some("verdict=" + reply.verdict)
    requires Voted(post.id, reply.verdict, voteCalls, voteEntries)
    ensures post.id != "" && a.details.Some?
    ensures CommentPosted(post, reply, true,
                          [CreateCommentCall(CreateCommentRequestOf(post.id, reply.responseText, None).value, created)]
                          + voteCalls, [a] + voteEntries)
  {
    var cc := CreateCommentCall(CreateCommentRequestOf(post.id, reply.responseText, None).value, created);
    assert ([cc] + voteCalls)[1..] == voteCalls && ([a] + voteEntries)[1..] == voteEntries;
  }

  /** A sort order whose feed could not be read: one call, nothing seen, nothing sent. */
  lemma SortSkipped(e: TextEngine, sort: PostSortOrder, got: Result<seq<Post>, ForumError>, exchanges: seq<Exchange>,
                    seenIds: set<string>)
    requires got.Failure?
    ensures var calls := [GetPostsCall(sort, got)];
            && SortCalls(calls, sort) && CommentTargets(calls) == [] && calls == [calls[0]]
            && calls[0].posts.Failure? && (Escaped(calls[0]) <==> !got.error.ClientError?)
            && seenIds == seenIds + Fetched(calls)
    ensures exchanges == exchanges + []
    ensures AnalysisRequests(exchanges) == AnalysisRequests(exchanges) + AnalyzePrompts(e, [])
    ensures TargetsOf([], CommentCreated) == [] && Written([]) == [] && BrowseEntries([])
    ensures IsSubsequence(PostsOf([]), []) && DistinctIds([]) && Distinct([])
  {
    var calls := [GetPostsCall(sort, got)];
    CommentTargetsOfOne(calls[0]);
    assert calls[1..] == [];
    assert AnalyzePrompts(e, []) == [];
  }

  /** A sort order whose feed was read: its fetch, then the calls of engaging with it. */
  lemma SortRead(sort: PostSortOrder, posts: seq<Post>, moreCalls: seq<ForumCall>, added: seq<string>,
                 callsStart: seq<ForumCall>, forumCalls: seq<ForumCall>)
    requires forumCalls == callsStart + [GetPostsCall(sort, Success(posts))] + moreCalls
    requires EngageCalls(moreCalls) && CommentTargets(moreCalls) == added
    ensures var calls := [GetPostsCall(sort, Success(posts))] + moreCalls;
            && forumCalls == callsStart + calls && SortCalls(calls, sort) && CommentTargets(calls) == added
            && calls[0] == GetPostsCall(sort, Success(posts)) && calls[1..] == moreCalls && !Escaped(calls[0])
            && Fetched(calls) == IdSet(posts)
  {
    var c := GetPostsCall(sort, Success(posts));
    CommentTargetsOfOne(c);
    CommentTargetsConcat([c], moreCalls);
    AppendAssoc(callsStart, [c], moreCalls);
    assert ([c] + moreCalls)[1..] == moreCalls;
  }

  /** Screening the new posts of a feed sends one analysis request per unsuspicious post, in order. */
  lemma ScreenedRequests(e: TextEngine, minConfidence: real, unseen: seq<Post>, asked: seq<Exchange>,
                         exchanges: seq<Exchange>, checkable: seq<(Post, AnalysisResult)>, analysed: seq<Post>)
    requires analysed == Unsuspicious(e, unseen)
    requires |exchanges| >= |asked| && exchanges[..|asked|] == asked
    requires Screened(e, minConfidence, unseen, exchanges[|asked|..], checkable)
    ensures Prompts(exchanges[|asked|..]) == AnalyzePrompts(e, analysed)
    ensures AnalysisRequests(exchanges) == AnalysisRequests(asked) + AnalyzePrompts(e, analysed)
  {
    AnalysedRequests(e, asked, exchanges, analysed);
  }

  /** The posts analysed and the checkable ones have distinct ids, new before the feed was read. */
  lemma ScreenedFresh(e: TextEngine, minConfidence: real, seen: set<string>, posts: seq<Post>, unseen: seq<Post>,
                      seenIds: set<string>, sent: seq<Exchange>, checkable: seq<(Post, AnalysisResult)>,
                      analysed: seq<Post>)
    requires unseen == Unseen(seen, posts) && seenIds == seen + IdSet(posts)
    requires analysed == Unsuspicious(e, unseen)
    requires Screened(e, minConfidence, unseen, sent, checkable)
    ensures DistinctIds(analysed)
    ensures forall k :: 0 <= k < |analysed| ==> analysed[k].id !in seen && analysed[k].id in seenIds
    ensures forall i, j :: 0 <= i < j < |checkable| ==> checkable[i].0.id != checkable[j].0.id
    ensures forall k :: 0 <= k < |checkable| ==> checkable[k].0.id !in seen && checkable[k].0.id in seenIds
  {
    ScreenedKeepsFeedOrder(e, minConfidence, unseen, sent, checkable);
    CheckableIsFresh(seen, posts, PostsOf(checkable), seenIds);
    UnsuspiciousIsSubsequence(e, unseen);
    CheckableIsFresh(seen, posts, analysed, seenIds);
  }

  /** The checkable posts are analysed posts, in the order they were analysed. */
  lemma ScreenedOrder(e: TextEngine, minConfidence: real, unseen: seq<Post>, sent: seq<Exchange>,
                      checkable: seq<(Post, AnalysisResult)>, analysed: seq<Post>)
    requires analysed == Unsuspicious(e, unseen) && DistinctIds(analysed)
    requires Screened(e, minConfidence, unseen, sent, checkable)
    ensures IsSubsequence(PostsOf(checkable), analysed)
    ensures forall k :: 0 <= k < |checkable| ==> checkable[k].0 in analysed
  {
    ScreenedKeepsAnalysedOrder(e, minConfidence, unseen, sent, checkable);
    SubsequenceKeepsIds(PostsOf(checkable), analysed);
  }

  /** Engaging with posts only comments and votes. */
  predicate EngageCalls(calls: seq<ForumCall>) {
    forall k :: 0 <= k < |calls| ==> calls[k].CreateCommentCall? || calls[k].VoteCall?
  }

  lemma EngageCallsConcat(xs: seq<ForumCall>, ys: seq<ForumCall>)
    requires EngageCalls(xs) && EngageCalls(ys)
    ensures EngageCalls(xs + ys)
  {
  }

  /**
   * The model calls of one feed: the analysis of each unsuspicious new post
   * (as `filter_checkable` screens them into `checkable`), then one
   * fact-check request for each of the first `tried` checkable posts; the
   * forum calls and log entries that follow are the turns of those posts,
   * each as its reply decides it.
   */
  ghost predicate FeedEngaged(e: TextEngine, minConfidence: real, unseen: seq<Post>, sent: seq<Exchange>,
                              analysed: seq<Post>, checkable: seq<(Post, AnalysisResult)>, tried: nat,
                              turns: seq<Turn>, calls: seq<ForumCall>, entries: seq<ActionLog>) {
    && analysed == Unsuspicious(e, unseen)
    && tried <= |checkable| && |sent| == |analysed| + tried
    && Screened(e, minConfidence, unseen, sent[..|analysed|], checkable)
    && Prompts(sent[|analysed|..]) == FactCheckPrompts(e, checkable[..tried])
    && EngagedTurns(checkable, tried, sent[|analysed|..], turns, calls, entries)
  }

  lemma FeedEngagedOf(e: TextEngine, minConfidence: real, unseen: seq<Post>, screened: seq<Exchange>,
                      engaged: seq<Exchange>, checkable: seq<(Post, AnalysisResult)>, tried: nat, turns: seq<Turn>,
                      calls: seq<ForumCall>, entries: seq<ActionLog>)
    requires Screened(e, minConfidence, unseen, screened, checkable)
    requires tried <= |checkable| && Prompts(engaged) == FactCheckPrompts(e, checkable[..tried])
    requires EngagedTurns(checkable, tried, engaged, turns, calls, entries)
    ensures FeedEngaged(e, minConfidence, unseen, screened + engaged, Unsuspicious(e, unseen), checkable, tried,
                        turns, calls, entries)
  {
    assert (screened + engaged)[..|screened|] == screened;
    assert (screened + engaged)[|screened|..] == engaged;
  }

  /** Screening a feed, then the loop over its checkable posts: what the two leave behind together. */
  lemma ScreenedThenEngaged(e: TextEngine, minConfidence: real, unseen: seq<Post>, seen: set<string>,
                            seenIds: set<string>, checkable: seq<(Post, AnalysisResult)>, analysed: seq<Post>,
                            tried: nat, callsStart: seq<ForumCall>, linesStart: seq<LogLine>, asked: seq<Exchange>,
                            screened: seq<Exchange>, exchanges1: seq<Exchange>, calls: seq<ForumCall>,
                            entries: seq<ActionLog>, added: seq<string>, engaged: seq<Exchange>, turns: seq<Turn>,
                            forumCalls: seq<ForumCall>, lines: seq<LogLine>, exchanges2: seq<Exchange>)
    requires analysed == Unsuspicious(e, unseen) && Screened(e, minConfidence, unseen, screened, checkable)
    requires exchanges1 == asked + screened
    requires AnalysisRequests(exchanges1) == AnalysisRequests(asked) + AnalyzePrompts(e, analysed)
    requires EngagedOf(e, checkable, tried, seen, seenIds, callsStart, linesStart, exchanges1, calls, entries, added,
                       engaged, turns, forumCalls, lines, exchanges2)
    ensures forumCalls == callsStart + calls && EngageCalls(calls)
    ensures lines == linesStart + Written(entries)
    ensures CommentTargets(calls) == added && TargetsOf(entries, CommentCreated) == added
    ensures BrowseEntries(entries) && Distinct(added)
    ensures forall k :: 0 <= k < |added| ==> added[k] !in seen && added[k] in seenIds
    ensures AnalysisRequests(exchanges2) == AnalysisRequests(asked) + AnalyzePrompts(e, analysed)
    ensures exchanges2 == asked + (screened + engaged)
    ensures FeedEngaged(e, minConfidence, unseen, screened + engaged, analysed, checkable, tried, turns, calls, entries)
  {
    FeedEngagedOf(e, minConfidence, unseen, screened, engaged, checkable, tried, turns, calls, entries);
    AppendAssoc(asked, screened, engaged);
  }

  /** A feed with no new post asks the model nothing. */
  lemma NothingUnseenEngaged(e: TextEngine, minConfidence: real)
    ensures FeedEngaged(e, minConfidence, [], [], [], [], 0, [], [], [])
  {
    var sent: seq<Exchange> := [];
    var none: seq<(Post, AnalysisResult)> := [];
    assert Prompts(sent) == AnalyzePrompts(e, []) == [];
    assert Prompts(sent[0..]) == FactCheckPrompts(e, none[..0]) == [];
  }

  /** A `get_posts` call whose exception is not a client error: it escapes `_browse_and_engage`. */
  predicate Escaped(c: ForumCall) {
    c.GetPostsCall? && c.posts.Failure? && !c.posts.error.ClientError?
  }

  /**
   * A feed fetch whose request failed after its retries is skipped exactly
   * when the request raised `MoltbookClientError` itself (with `reraise`);
   * a `RetryError` always escapes.
   */
  lemma EscapesUnlessClientError(sort: PostSortOrder, e: MoltbookClient.RetriedError)
    ensures Escaped(GetPostsCall(sort, Failure(ForumErrorOf(e)))) <==> !MoltbookClient.IsClientError(e)
    ensures e.RetryError? ==> Escaped(GetPostsCall(sort, Failure(ForumErrorOf(e))))
  {
  }

  /** The calls of one sort order: its feed fetch, then only comments and votes. */
  predicate SortCalls(calls: seq<ForumCall>, sort: PostSortOrder) {
    calls != [] && calls[0].GetPostsCall? && calls[0].sort == sort && EngageCalls(calls[1..])
  }

  /** The ids of the feed a sort order fetched, if the fetch succeeded. */
  function Fetched(calls: seq<ForumCall>): (ids: set<string>)
    ensures calls != [] && calls[0].GetPostsCall? && calls[0].posts.Success? ==> ids == IdSet(calls[0].posts.value)
    ensures calls == [] || !calls[0].GetPostsCall? || calls[0].posts.Failure? ==> ids == {}
  {
    if calls != [] && calls[0].GetPostsCall? && calls[0].posts.Success? then IdSet(calls[0].posts.value) else {}
  }

  /**
   * Which feeds `_browse_and_engage` reads, given the calls of its HOT and
   * NEW turns: none without budget; otherwise HOT first; NEW exactly when
   * the HOT fetch did not escape and its comments left budget over.
   */
  ghost predicate BrowseShape(hotCalls: seq<ForumCall>, newCalls: seq<ForumCall>, budget: int) {
    && (budget <= 0 ==> hotCalls == [] && newCalls == [])
    && (budget > 0 ==> SortCalls(hotCalls, PostSortOrder.Hot))
    && (newCalls != [] <==> budget > 0 && !Escaped(hotCalls[0]) && |CommentTargets(hotCalls)| < budget)
    && (newCalls != [] ==> SortCalls(newCalls, PostSortOrder.New))
  }

  /**
   * What one sort order did with the feed it read, beyond its forum calls:
   * its log entries, the model exchanges it made, the posts analysed and kept
   * as checkable, how many of those were tried, and their turns.
   */
  datatype FeedRun = FeedRun(entries: seq<ActionLog>, sent: seq<Exchange>, analysed: seq<Post>,
                             checkable: seq<(Post, AnalysisResult)>, tried: nat, turns: seq<Turn>)

  /** The record of a sort order that read no feed. */
  const NoRun: FeedRun := FeedRun([], [], [], [], 0, [])

  /**
   * One sort order, given the ids seen before its feed was read: a feed that
   * could not be read leaves nothing else behind; a feed that was read is
   * screened and engaged with as `FeedEngaged` says, its turns making up the
   * calls after the fetch.
   */
  ghost predicate SortOutcome(e: TextEngine, minConfidence: real, seen: set<string>, sortCalls: seq<ForumCall>,
                              run: FeedRun) {
    && sortCalls != [] && sortCalls[0].GetPostsCall?
    && (sortCalls[0].posts.Failure? ==> run == NoRun)
    && (sortCalls[0].posts.Success? ==>
          FeedEngaged(e, minConfidence, Unseen(seen, sortCalls[0].posts.value), run.sent, run.analysed,
                      run.checkable, run.tried, run.turns, sortCalls[1..], run.entries))
  }

  /**
   * The HOT and NEW turns of `_browse_and_engage`, each read feed with its
   * record: the log entries and model exchanges since the start are those of
   * HOT, then those of NEW; NEW's feed is screened against the ids seen after
   * HOT's.
   */
  ghost predicate RunsRecord(e: TextEngine, minConfidence: real, seenStart: set<string>, asked: seq<Exchange>,
                             entries: seq<ActionLog>, exchanges: seq<Exchange>, hotCalls: seq<ForumCall>,
                             newCalls: seq<ForumCall>, hotRun: FeedRun, newRun: FeedRun) {
    && entries == hotRun.entries + newRun.entries
    && exchanges == asked + hotRun.sent + newRun.sent
    && (hotCalls == [] ==> hotRun == NoRun)
    && (hotCalls != [] ==> SortOutcome(e, minConfidence, seenStart, hotCalls, hotRun))
    && (newCalls == [] ==> newRun == NoRun)
    && (newCalls != [] ==> SortOutcome(e, minConfidence, seenStart + Fetched(hotCalls), newCalls, newRun))
  }

  lemma NoRunsYet(e: TextEngine, minConfidence: real, seenStart: set<string>, asked: seq<Exchange>)
    ensures RunsRecord(e, minConfidence, seenStart, asked, [], asked, [], [], NoRun, NoRun)
  {
    assert asked + [] + [] == asked;
  }

  /** One more turn of the loop over sort orders, with the record `run` of its feed. */
  lemma RunsAfterTurn(i: nat, e: TextEngine, minConfidence: real, seenStart: set<string>, asked: seq<Exchange>,
                      entries: seq<ActionLog>, exchanges0: seq<Exchange>, hotCalls: seq<ForumCall>,
                      newCalls: seq<ForumCall>, hotRun: FeedRun, newRun: FeedRun, sortCalls: seq<ForumCall>,
                      run: FeedRun, seenBefore: set<string>, exchanges1: seq<Exchange>)
    requires i < 2 && (i == 0 ==> hotCalls == [] && newCalls == []) && (i == 1 ==> hotCalls != [] && newCalls == [])
    requires RunsRecord(e, minConfidence, seenStart, asked, entries, exchanges0, hotCalls, newCalls, hotRun, newRun)
    requires seenBefore == seenStart + Fetched(hotCalls) + Fetched(newCalls)
    requires SortOutcome(e, minConfidence, seenBefore, sortCalls, run) && exchanges1 == exchanges0 + run.sent
    ensures var hot := if i == 0 then sortCalls else hotCalls;
            var new_ := if i == 0 then newCalls else sortCalls;
            var hotRun' := if i == 0 then run else hotRun;
            var newRun' := if i == 0 then newRun else run;
            RunsRecord(e, minConfidence, seenStart, asked, entries + run.entries, exchanges1, hot, new_, hotRun',
                       newRun')
  {
    if i == 0 {
      assert seenBefore == seenStart;
      AppendNil<ActionLog>([]);
      AppendNil(run.entries);
      AppendNil(asked);
      AppendNil(asked + run.sent);
    } else {
      assert seenBefore == seenStart + Fetched(hotCalls);
      AppendNil(hotRun.entries);
      AppendNil(asked + hotRun.sent);
    }
  }

  /** A feed fetch of the HOT or NEW turn escaped. */
  ghost predicate BrowseEscaped(hotCalls: seq<ForumCall>, newCalls: seq<ForumCall>) {
    (hotCalls != [] && Escaped(hotCalls[0])) || (newCalls != [] && Escaped(newCalls[0]))
  }

  /** The loop over sort orders after `i` turns, none of which escaped. */
  ghost predicate BrowsedSoFar(i: int, hotCalls: seq<ForumCall>, newCalls: seq<ForumCall>, budget: int) {
    && (i == 0 ==> hotCalls == [])
    && (i >= 1 ==> budget > 0 && SortCalls(hotCalls, PostSortOrder.Hot) && !Escaped(hotCalls[0]))
    && (i <= 1 ==> newCalls == [])
    && (i >= 2 ==> SortCalls(newCalls, PostSortOrder.New) && !Escaped(newCalls[0])
                   && |CommentTargets(hotCalls)| < budget)
  }

  /** One more turn of the loop over sort orders, with the calls `sortCalls` of its feed. */
  lemma ShapeAfterTurn(i: nat, hotCalls: seq<ForumCall>, newCalls: seq<ForumCall>, budget: int, made: int,
                       sortCalls: seq<ForumCall>, seenStart: set<string>, seenBefore: set<string>)
    requires i < 2 && BrowsedSoFar(i, hotCalls, newCalls, budget)
    requires made < budget && (i <= 1 ==> made == |CommentTargets(hotCalls)|)
    requires SortCalls(sortCalls, [PostSortOrder.Hot, PostSortOrder.New][i])
    requires seenBefore == seenStart + Fetched(hotCalls) + Fetched(newCalls)
    ensures var hot := if i == 0 then sortCalls else hotCalls;
            var new_ := if i == 0 then newCalls else sortCalls;
            && (Escaped(sortCalls[0]) ==> BrowseShape(hot, new_, budget) && BrowseEscaped(hot, new_))
            && (!Escaped(sortCalls[0]) ==> BrowsedSoFar(i + 1, hot, new_, budget))
            && hotCalls + newCalls + sortCalls == hot + new_
            && (i == 0 ==> hot + new_ == hot)
            && seenBefore + Fetched(sortCalls) == seenStart + Fetched(hot) + Fetched(new_)
  {
    if i == 0 {
      assert hotCalls + newCalls + sortCalls == sortCalls + [];
    } else {
      assert newCalls == [];
      assert hotCalls + newCalls == hotCalls;
    }
  }

  /** The loop over sort orders ended without an escaped fetch: after NEW, or when the budget was spent. */
  lemma BrowseDone(i: nat, hotCalls: seq<ForumCall>, newCalls: seq<ForumCall>, budget: int, made: int)
    requires i <= 2 && BrowsedSoFar(i, hotCalls, newCalls, budget)
    requires i == 2 || made >= budget
    requires i <= 1 ==> made == |CommentTargets(hotCalls)|
    ensures BrowseShape(hotCalls, newCalls, budget) && !BrowseEscaped(hotCalls, newCalls)
  {
  }

  /**
   * What `_maybe_create_post` does below the cap with the generated content:
   * one `create_post` call exactly when the content and its request are
   * valid, the request built from the content's title, body and target
   * submolt; one `POST_CREATED` entry exactly when the forum published it,
   * carrying the id the forum returned and the content's topic category.
   */
  ghost predicate PostPublished(content: Result<OriginalPostContent, ServiceError>, calls: seq<ForumCall>,
                                entries: seq<ActionLog>) {
    && (calls != [] <==> content.Success? && CreatePostRequestOf(content.value.title, Some(content.value.body), None,
                                                                 content.value.targetSubmolt).Success?)
    && (calls != [] ==>
          |calls| == 1 && calls[0].CreatePostCall?
          && calls[0].post == CreatePostRequestOf(content.value.title, Some(content.value.body), None,
                                                  content.value.targetSubmolt).value)
    && (entries != [] <==> calls != [] && calls[0].published.Success?)
    && (entries != [] ==>
          |entries| == 1 && entries[0].actionType == PostCreated
          && entries[0].targetId == Some(calls[0].published.value.id)
          && entries[0].details == content.value.topicCategory)
  }

  /**
   * What `_maybe_create_post` does, given the action log it counted and the
   * day it counted for: nothing when the count raised or reached the cap;
   * below the cap one request for an original post on a listed topic,
   * followed by what `PostPublished` describes.
   */
  ghost predicate PostAttempt(lines: seq<LogLine>, today: string, maxPosts: int, calls: seq<ForumCall>,
                              entries: seq<ActionLog>, sent: seq<Exchange>) {
    var count := CountToday(lines, PostCreated, today);
    && (count.Failure? || count.value >= maxPosts ==> calls == [] && entries == [] && sent == [])
    && (count.Success? && count.value < maxPosts ==>
          && |sent| == 1 && sent[0].prompt.CreateOriginalPost? && sent[0].prompt.category in TopicCategories
          && PostPublished(ContentOf(sent[0].reply), calls, entries))
  }

  /**
   * How a heartbeat ends once browsing returned, given the action log as
   * browsing left it: after an escaped fetch nothing more is attempted;
   * otherwise the post attempt runs, reading the log fails the heartbeat
   * with that read error and nothing more logged, and otherwise `HEARTBEAT`
   * is logged after the post's entry.
   */
  ghost predicate HeartbeatEnd(r: Result<(), HeartbeatError>, escaped: bool, lines: seq<LogLine>, today: string,
                               maxPosts: int, postCalls: seq<ForumCall>, postEntries: seq<ActionLog>,
                               postSent: seq<Exchange>, browseEntries: seq<ActionLog>, entries: seq<ActionLog>) {
    var count := CountToday(lines, PostCreated, today);
    && (escaped ==> postCalls == [] && postEntries == [] && postSent == [])
    && (!escaped ==> PostAttempt(lines, today, maxPosts, postCalls, postEntries, postSent))
    && ((r.Failure? && r.error.LogUnreadable?) <==> !escaped && count.Failure?)
    && (r.Failure? && r.error.LogUnreadable? ==> r.error.readError == count.error)
    && (r.Failure? ==> entries == browseEntries + postEntries)
    && (r.Success? ==> && |entries| == |browseEntries + postEntries| + 1
                       && entries[..|entries| - 1] == browseEntries + postEntries
                       && entries[|entries| - 1].actionType == Heartbeat
                       && entries[|entries| - 1].targetId == None && entries[|entries| - 1].details == None)
  }

  /** A heartbeat whose browsing escaped ends there. */
  lemma EscapedEnd(r: Result<(), HeartbeatError>, lines: seq<LogLine>, today: string, maxPosts: int,
                   browseEntries: seq<ActionLog>)
    requires r.Failure? && r.error.FeedFailed?
    ensures HeartbeatEnd(r, true, lines, today, maxPosts, [], [], [], browseEntries, browseEntries)
  {
    AppendNil(browseEntries);
  }

  /** A heartbeat that went on to post ends as `FinishHeartbeat` left it. */
  lemma FinishedEnd(finished: Result<(), RepoError>, r: Result<(), HeartbeatError>, lines: seq<LogLine>,
                    today: string, maxPosts: int, postCalls: seq<ForumCall>, postEntries: seq<ActionLog>,
                    postSent: seq<Exchange>, browseEntries: seq<ActionLog>, entries: seq<ActionLog>)
    requires r == if finished.Success? then Success(()) else Failure(LogUnreadable(finished.error))
    requires finished.Failure? <==> CountToday(lines, PostCreated, today).Failure?
    requires finished.Failure? ==> finished.error == CountToday(lines, PostCreated, today).error
    requires PostAttempt(lines, today, maxPosts, postCalls, postEntries, postSent)
    requires finished.Failure? ==> entries == browseEntries + postEntries
    requires finished.Success? ==> && |entries| == |browseEntries + postEntries| + 1
                                   && entries[..|entries| - 1] == browseEntries + postEntries
                                   && entries[|entries| - 1].actionType == Heartbeat
                                   && entries[|entries| - 1].targetId == None && entries[|entries| - 1].details == None
    ensures HeartbeatEnd(r, false, lines, today, maxPosts, postCalls, postEntries, postSent, browseEntries, entries)
  {
  }

  /** Dropping the first call of a trace that was extended. */
  lemma TailOfAppend<T>(a: seq<T>, b: seq<T>)
    requires a != []
    ensures (a + b)[1..] == a[1..] + b
  {
  }

  /** Why a heartbeat stopped early: the exception that reached `run_heartbeat`'s handler. */
  datatype HeartbeatError =
    | FeedFailed(error: ForumError)        // `get_posts` raised something other than a client error
    | LogUnreadable(readError: RepoError)  // `get_today_action_count` raised

  /**
   * What one heartbeat leaves behind: it starts with the heartbeat fetch,
   * logs `HEARTBEAT` last and only when `logged`, and comments on distinct
   * posts, no more than the budget, each logged as `COMMENT_CREATED`.
   */
  ghost predicate HeartbeatTrace(calls: seq<ForumCall>, entries: seq<ActionLog>, logged: bool, budget: int) {
    && calls != [] && calls[0].FetchHeartbeatCall?
    && (logged <==> entries != [] && entries[|entries| - 1].actionType == Heartbeat)
    && (forall k :: 0 <= k < |entries| - 1 ==> entries[k].actionType != Heartbeat)
    && CommentTargets(calls) == TargetsOf(entries, CommentCreated)
    && Distinct(CommentTargets(calls))
    && |CommentTargets(calls)| <= if budget < 0 then 0 else budget
  }

  /** Extending a trace keeps what followed its first call. */
  lemma ExtensionKeepsTail<T>(a: seq<T>, b: seq<T>)
    requires a != [] && |a| <= |b| && b[..|a|] == a
    ensures b[1..|a|] == a[1..]
  {
    assert forall k :: 1 <= k < |a| ==> b[1..|a|][k - 1] == b[..|a|][k];
  }

  /** The trace of a heartbeat up to the end of its browse phase. */
  lemma BrowsePhaseTrace(beat: ForumCall, browseCalls: seq<ForumCall>, browseEntries: seq<ActionLog>,
                         commented: seq<string>, budget: int)
    requires beat.FetchHeartbeatCall?
    requires CommentTargets(browseCalls) == commented && TargetsOf(browseEntries, CommentCreated) == commented
    requires BrowseEntries(browseEntries) && Distinct(commented)
    requires |commented| <= if budget < 0 then 0 else budget
    ensures ([beat] + browseCalls)[0].FetchHeartbeatCall?
    ensures CommentTargets([beat] + browseCalls) == commented
    ensures HeartbeatTrace([beat] + browseCalls, browseEntries, false, budget)
  {
    assert ([beat] + browseCalls)[0] == beat;
    CommentTargetsOfOne(beat);
    CommentTargetsConcat([beat], browseCalls);
    assert [] + commented == commented;
    BrowseThenPostHasNoBeat(browseEntries, []);
    assert browseEntries + [] == browseEntries;
  }

  /** What the post phase of a heartbeat adds to the browse phase's trace. */
  lemma PostPhaseTrace(calls: seq<ForumCall>, entries: seq<ActionLog>, postCalls: seq<ForumCall>,
                       postEntries: seq<ActionLog>, commented: seq<string>)
    requires calls != [] && calls[0].FetchHeartbeatCall?
    requires CommentTargets(calls) == commented && TargetsOf(entries, CommentCreated) == commented
    requires BrowseEntries(entries)
    requires CommentTargets(postCalls) == [] && TargetsOf(postEntries, CommentCreated) == []
    requires |postEntries| <= 1 && (postEntries != [] ==> postEntries[0].actionType == PostCreated)
    ensures (calls + postCalls)[0].FetchHeartbeatCall?
    ensures CommentTargets(calls + postCalls) == commented
    ensures TargetsOf(entries + postEntries, CommentCreated) == commented
    ensures forall k :: 0 <= k < |entries + postEntries| ==> (entries + postEntries)[k].actionType != Heartbeat
  {
    assert (calls + postCalls)[0] == calls[0];
    CommentTargetsConcat(calls, postCalls);
    TargetsOfConcat(entries, postEntries, CommentCreated);
    assert commented + [] == commented;
    BrowseThenPostHasNoBeat(entries, postEntries);
  }

  /** Appending the `HEARTBEAT` entry to a trace that has none. */
  lemma BeatTrace(entries: seq<ActionLog>, a: ActionLog, commented: seq<string>)
    requires forall k :: 0 <= k < |entries| ==> entries[k].actionType != Heartbeat
    requires TargetsOf(entries, CommentCreated) == commented && a.actionType == Heartbeat
    ensures TargetsOf(entries + [a], CommentCreated) == commented
    ensures (entries + [a])[|entries + [a]| - 1].actionType == Heartbeat
    ensures forall k :: 0 <= k < |entries + [a]| - 1 ==> (entries + [a])[k].actionType != Heartbeat
  {
    TargetsOfConcat(entries, [a], CommentCreated);
    TargetsOfOne(a, CommentCreated);
    assert commented + [] == commented;
  }

  /** The facts a finished heartbeat establishes, gathered into its trace. */
  lemma FinishedTrace(calls: seq<ForumCall>, entries: seq<ActionLog>, logged: bool, budget: int, commented: seq<string>)
    requires calls != [] && calls[0].FetchHeartbeatCall?
    requires logged <==> entries != [] && entries[|entries| - 1].actionType == Heartbeat
    requires forall k :: 0 <= k < |entries| - 1 ==> entries[k].actionType != Heartbeat
    requires CommentTargets(calls) == commented && TargetsOf(entries, CommentCreated) == commented
    requires Distinct(commented) && |commented| <= if budget < 0 then 0 else budget
    ensures HeartbeatTrace(calls, entries, logged, budget)
  {
  }

  /** The ids commented on so far stay fresh and unlike those of the posts not yet visited. */
  lemma AddedStaysFresh(checkable: seq<(Post, AnalysisResult)>, j: nat, seen: set<string>, seenIds: set<string>,
                        before: seq<string>, added: seq<string>)
    requires j < |checkable|
    requires forall i, j :: 0 <= i < j < |checkable| ==> checkable[i].0.id != checkable[j].0.id
    requires checkable[j].0.id !in seen && checkable[j].0.id in seenIds
    requires forall k :: 0 <= k < |before| ==> before[k] !in seen && before[k] in seenIds
    requires forall k, m :: 0 <= k < |before| && j <= m < |checkable| ==> before[k] != checkable[m].0.id
    requires added == before || added == before + [checkable[j].0.id]
    ensures forall k :: 0 <= k < |added| ==> added[k] !in seen && added[k] in seenIds
    ensures forall k, m :: 0 <= k < |added| && j + 1 <= m < |checkable| ==> added[k] != checkable[m].0.id
  {
  }

  class KyfAgent {
    const forum: ForumClient
    const repo: FileStateRepository
    const llm: LlmClient
    const clock: Clock
    const engine: TextEngine
    const analyzer: ContentAnalyzerService
    const factChecker: FactCheckerService
    const postCreator: PostCreatorService
    const maxPostsPerDay: int
    const maxCommentsPerHeartbeat: int

    /** The three services share the agent's model and text engine. */
    ghost predicate Valid() {
      && analyzer.llm == llm && factChecker.llm == llm && postCreator.llm == llm
      && analyzer.engine == engine && factChecker.engine == engine
    }

    /**
     * What `_browse_and_engage` has recorded since it started from
     * `callsStart`, `linesStart`, `seenStart` and `asked`: the forum calls
     * of its HOT and NEW turns, the log entries, the posts commented on and
     * analysed (distinct and new to `seenStart`), and the ids marked seen.
     */
    ghost predicate BrowseRecord(callsStart: seq<ForumCall>, linesStart: seq<LogLine>, seenStart: set<string>,
                                 asked: seq<Exchange>, calls: seq<ForumCall>, entries: seq<ActionLog>,
                                 commented: seq<string>, analysed: seq<Post>, hotCalls: seq<ForumCall>,
                                 newCalls: seq<ForumCall>)
      reads forum, repo, llm
    {
      && forum.calls == callsStart + calls && repo.Lines() == linesStart + Written(entries)
      && CommentTargets(calls) == commented && TargetsOf(entries, CommentCreated) == commented
      && BrowseEntries(entries) && Distinct(commented)
      && (forall k :: 0 <= k < |commented| ==> commented[k] !in seenStart && commented[k] in repo.seenIds)
      && AnalysisRequests(llm.exchanges) == AnalysisRequests(asked) + AnalyzePrompts(engine, analysed)
      && DistinctIds(analysed)
      && (forall k :: 0 <= k < |analysed| ==> analysed[k].id !in seenStart && analysed[k].id in repo.seenIds)
      && calls == hotCalls + newCalls
      && repo.seenIds == seenStart + Fetched(hotCalls) + Fetched(newCalls)
    }

    /** `KYFAgent(moltbook, llm, state_repo, max_posts_per_day=3, max_comments_per_heartbeat=10)`. */
    constructor (forum: ForumClient, llm: LlmClient, repo: FileStateRepository, clock: Clock, engine: TextEngine,
                 maxPostsPerDay: int := 3, maxCommentsPerHeartbeat: int := 10)
      ensures Valid()
      ensures this.forum == forum && this.llm == llm && this.repo == repo && this.clock == clock
      ensures this.maxPostsPerDay == maxPostsPerDay && this.maxCommentsPerHeartbeat == maxCommentsPerHeartbeat
      ensures analyzer.minConfidence == 0.6
    {
      this.forum := forum;
      this.repo := repo;
      this.llm := llm;
      this.clock := clock;
      this.engine := engine;
      this.analyzer := new ContentAnalyzerService(llm, engine);
      this.factChecker := new FactCheckerService(llm, engine);
      this.postCreator := new PostCreatorService(llm);
      this.maxPostsPerDay := maxPostsPerDay;
      this.maxCommentsPerHeartbeat := maxCommentsPerHeartbeat;
    }

    /** `log_action(ActionLog(...))`, stamped with the clock's UTC time. */
    method Log(t: ActionType, targetId: Option<string>, details: Option<string>) returns (a: ActionLog)
      modifies repo`actionsFile
      ensures repo.Lines() == old(repo.Lines()) + Written([a])
      ensures a.actionType == t && a.targetId == targetId && a.details == details
    {
      var now := clock.UtcIso();
      a := NewActionLog(t, targetId, details, now);
      repo.LogAction(a);
      WrittenOne(a);
    }

    /**
     * `_vote_on_post`: a vote only for a verdict `VoteFor` maps; `VOTE_CAST`
     * is logged only after the vote went through; every failure, including
     * the request's own validation, is swallowed.
     */
    method VoteOnPost(postId: string, verdict: string) returns (ghost calls: seq<ForumCall>, ghost entries: seq<ActionLog>)
      modifies forum, repo`actionsFile
      ensures forum.calls == old(forum.calls) + calls
      ensures repo.Lines() == old(repo.Lines()) + Written(entries)
      ensures calls == [] <==> VoteFor(verdict).None? || postId == ""
      ensures calls != [] ==>
                |calls| == 1 && calls[0].VoteCall? && calls[0].vote == VoteRequest(postId, VoteFor(verdict).value)
      ensures entries != [] <==> calls != [] && calls[0].ok
      ensures entries != [] ==>
                |entries| == 1 && entries[0].actionType == VoteCast && entries[0].targetId == Some(postId)
                && entries[0].details == Some(VoteFor(verdict).value.Value())
      ensures CommentTargets(calls) == [] && TargetsOf(entries, CommentCreated) == [] && BrowseEntries(entries)
      ensures Voted(postId, verdict, calls, entries) && EngageCalls(calls)
    {
      calls, entries := [], [];
      var direction := VoteFor(verdict);
      if direction.None? {
        return;
      }
      var request := VoteRequestOf(postId, direction.value.Value());
      if request.Failure? {
        return;
      }
      assert request.value == VoteRequest(postId, direction.value);
      var voted := forum.Vote(request.value);
      calls := [VoteCall(request.value, voted.Success?)];
      CommentTargetsOfOne(calls[0]);
      if voted.Failure? {
        return;
      }
      var a := Log(VoteCast, Some(postId), Some(direction.value.Value()));
      TargetsOfOne(a, CommentCreated);
      entries := [a];
    }

    /**
     * One turn of the checkable-post loop of `_browse_and_engage`: reply,
     * comment, log `COMMENT_CREATED`, then vote. `ok` is whether the counter
     * rises: every failure before the log entry is swallowed.
     */
    method EngageOne(post: Post, analysis: AnalysisResult)
      returns (ok: bool, ghost calls: seq<ForumCall>, ghost entries: seq<ActionLog>)
      requires Valid()
      modifies llm, forum, repo`actionsFile
      ensures forum.calls == old(forum.calls) + calls
      ensures repo.Lines() == old(repo.Lines()) + Written(entries)
      ensures CommentTargets(calls) == (if ok then [post.id] else [])
      ensures TargetsOf(entries, CommentCreated) == (if ok then [post.id] else [])
      ensures BrowseEntries(entries)
      ensures ok ==> post.id != "" && entries[0].details.Some?
      ensures AnalysisRequests(llm.exchanges) == AnalysisRequests(old(llm.exchanges))
      ensures |llm.exchanges| == |old(llm.exchanges)| + 1 && llm.exchanges[..|old(llm.exchanges)|] == old(llm.exchanges)
      ensures var ex := llm.exchanges[|llm.exchanges| - 1];
              && ex.prompt == FactCheckPrompt(engine, post, analysis)
              && (ReplyOf(ex.reply).Failure? ==> !ok && calls == [] && entries == [])
              && (ReplyOf(ex.reply).Success? ==> CommentPosted(post, ReplyOf(ex.reply).value, ok, calls, entries))
      ensures EngageCalls(calls)
    {
      ok, calls, entries := false, [], [];
      var reply := factChecker.GenerateReply(post, analysis);
      AnalysisRequestsSnocOther(old(llm.exchanges), llm.exchanges[|llm.exchanges| - 1]);
      if reply.Failure? {
        return;
      }
      ok, calls, entries := CommentAndVote(post, reply.value);
    }

    /** The part of `_browse_and_engage` after a reply was generated: comment, log it, vote. */
    method CommentAndVote(post: Post, reply: FactCheckResponse)
      returns (ok: bool, ghost calls: seq<ForumCall>, ghost entries: seq<ActionLog>)
      modifies forum, repo`actionsFile
      ensures forum.calls == old(forum.calls) + calls
      ensures repo.Lines() == old(repo.Lines()) + Written(entries)
      ensures CommentTargets(calls) == (if ok then [post.id] else [])
      ensures TargetsOf(entries, CommentCreated) == (if ok then [post.id] else [])
      ensures BrowseEntries(entries)
      ensures ok ==> post.id != "" && entries[0].details.Some?
      ensures CommentPosted(post, reply, ok, calls, entries) && EngageCalls(calls)
    {
      ok, calls, entries := false, [], [];
      var request := CreateCommentRequestOf(post.id, reply.responseText, None);
      if request.Failure? {
        return;
      }
      var created := forum.CreateComment(request.value);
      calls := [CreateCommentCall(request.value, created)];
      CommentTargetsOfOne(calls[0]);
      if created.Failure? {
        return;
      }
      var a := Log(CommentCreated, Some(post.id), Some("verdict=" + reply.verdict));
      ok := true;
      var voteCalls, voteEntries := VoteOnPost(post.id, reply.verdict);
      CommentedThenVoted(post, reply, created, a, voteCalls, voteEntries, old(forum.calls), old(repo.Lines()),
                         forum.calls, repo.Lines());
      calls := [CreateCommentCall(request.value, created)] + voteCalls;
      entries := [a] + voteEntries;
    }

    /**
     * The "filter to unseen posts" loop: each post whose id is not yet seen
     * is taken and marked seen at once, before anything is analysed.
     */
    method MarkUnseen(posts: seq<Post>) returns (unseen: seq<Post>)
      modifies repo`seenIds, repo`seenFile
      ensures unseen == Unseen(old(repo.seenIds), posts)
      ensures repo.seenIds == old(repo.seenIds) + IdSet(posts)
    {
      ghost var seen := repo.seenIds;
      unseen := [];
      var i := 0;
      while i < |posts|
        invariant 0 <= i <= |posts|
        invariant unseen == Unseen(seen, posts[..i])
        invariant repo.seenIds == seen + IdSet(posts[..i])
      {
        assert posts[..i + 1][..i] == posts[..i];
        if !repo.IsPostSeen(posts[i].id) {
          unseen := unseen + [posts[i]];
          repo.MarkPostSeen(posts[i].id);
        }
        i := i + 1;
      }
      assert posts[..i] == posts;
    }

    /** One turn of the loop over checkable posts, with what the loop has recorded so far. */
    method EngageStep(checkable: seq<(Post, AnalysisResult)>, j: nat, ghost seen: set<string>,
                      ghost seenIds: set<string>, ghost callsStart: seq<ForumCall>, ghost linesStart: seq<LogLine>,
                      ghost asked: seq<Exchange>, ghost calls: seq<ForumCall>, ghost entries: seq<ActionLog>,
                      ghost added: seq<string>, ghost sent: seq<Exchange>, ghost turns: seq<Turn>)
      returns (ok: bool, ghost calls': seq<ForumCall>, ghost entries': seq<ActionLog>, ghost added': seq<string>,
               ghost sent': seq<Exchange>, ghost turns': seq<Turn>)
      requires Valid() && j < |checkable|
      requires forall i, j :: 0 <= i < j < |checkable| ==> checkable[i].0.id != checkable[j].0.id
      requires forall k :: 0 <= k < |checkable| ==> checkable[k].0.id !in seen && checkable[k].0.id in seenIds
      requires EngagedOf(engine, checkable, j, seen, seenIds, callsStart, linesStart, asked, calls, entries, added,
                         sent, turns, forum.calls, repo.Lines(), llm.exchanges)
      modifies llm, forum, repo`actionsFile
      ensures EngagedOf(engine, checkable, j + 1, seen, seenIds, callsStart, linesStart, asked, calls', entries',
                        added', sent', turns', forum.calls, repo.Lines(), llm.exchanges)
      ensures added' == added + if ok then [checkable[j].0.id] else []
    {
      ghost var calls0, lines0, exchanges0 := forum.calls, repo.Lines(), llm.exchanges;
      ghost var moreCalls: seq<ForumCall>, moreEntries: seq<ActionLog>;
      ok, moreCalls, moreEntries := EngageOne(checkable[j].0, checkable[j].1);
      ghost var ex := llm.exchanges[|exchanges0|];
      ExtendedByLast(exchanges0, llm.exchanges);
      TurnOfEngaged(checkable[j].0, ex, ok, moreCalls, moreEntries);
      EngageAccumulated(engine, checkable, j, seen, seenIds, callsStart, linesStart, asked, calls, entries, added,
                        sent, turns, calls0, lines0, exchanges0, ok, moreCalls, moreEntries, ex, forum.calls,
                        repo.Lines(), llm.exchanges);
      calls', entries', added', sent' := calls + moreCalls, entries + moreEntries,
                                         added + (if ok then [checkable[j].0.id] else []), sent + [ex];
      turns' := turns + [Turn(moreCalls, moreEntries)];
    }

    /**
     * The loop over the checkable posts of one feed: it stops as soon as the
     * budget is spent.
     */
    method EngageAll(checkable: seq<(Post, AnalysisResult)>, made: nat, ghost seen: set<string>)
      returns (count: nat, ghost calls: seq<ForumCall>, ghost entries: seq<ActionLog>, ghost added: seq<string>,
               ghost sent: seq<Exchange>, ghost turns: seq<Turn>, ghost tried: nat)
      requires Valid() && made <= maxCommentsPerHeartbeat
      requires forall i, j :: 0 <= i < j < |checkable| ==> checkable[i].0.id != checkable[j].0.id
      requires forall k :: 0 <= k < |checkable| ==> checkable[k].0.id !in seen && checkable[k].0.id in repo.seenIds
      modifies llm, forum, repo`actionsFile
      ensures count == made + |added| <= maxCommentsPerHeartbeat
      ensures tried <= |checkable| && (tried < |checkable| ==> count >= maxCommentsPerHeartbeat)
      ensures EngagedOf(engine, checkable, tried, seen, old(repo.seenIds), old(forum.calls), old(repo.Lines()),
                        old(llm.exchanges), calls, entries, added, sent, turns, forum.calls, repo.Lines(),
                        llm.exchanges)
    {
      count, calls, entries, added, sent, turns := made, [], [], [], [], [];
      assert CommentTargets(calls) == [] && TargetsOf(entries, CommentCreated) == [] && Written(entries) == [];
      assert Prompts(sent) == FactCheckPrompts(engine, checkable[..0]) == [];
      var j := 0;
      while j < |checkable|
        invariant 0 <= j <= |checkable|
        invariant count == made + |added| <= maxCommentsPerHeartbeat
        invariant EngagedOf(engine, checkable, j, seen, old(repo.seenIds), old(forum.calls), old(repo.Lines()),
                            old(llm.exchanges), calls, entries, added, sent, turns, forum.calls, repo.Lines(),
                            llm.exchanges)
      {
        if count >= maxCommentsPerHeartbeat {
          break;
        }
        var ok;
        ok, calls, entries, added, sent, turns := EngageStep(checkable, j, seen, old(repo.seenIds), old(forum.calls),
                                                             old(repo.Lines()), old(llm.exchanges), calls, entries,
                                                             added, sent, turns);
        if ok {
          count := count + 1;
        }
        j := j + 1;
      }
      tried := j;
    }

    /**
     * The analyzer's pass over the new posts of a feed. The model is asked
     * about `analysed` and nothing else: posts of the feed not seen before it
     * was read, each once, all marked seen already. What it keeps is fresh
     * and has distinct ids.
     */
    method ScreenUnseen(posts: seq<Post>, unseen: seq<Post>, ghost seen: set<string>)
      returns (checkable: seq<(Post, AnalysisResult)>, ghost analysed: seq<Post>)
      requires Valid() && unseen == Unseen(seen, posts) && repo.seenIds == seen + IdSet(posts)
      modifies llm
      ensures |llm.exchanges| >= |old(llm.exchanges)|
      ensures Prompts(llm.exchanges[|old(llm.exchanges)|..]) == AnalyzePrompts(engine, analysed)
      ensures AnalysisRequests(llm.exchanges) == AnalysisRequests(old(llm.exchanges)) + AnalyzePrompts(engine, analysed)
      ensures DistinctIds(analysed)
      ensures forall k :: 0 <= k < |analysed| ==> analysed[k].id !in seen && analysed[k].id in repo.seenIds
      ensures forall i, j :: 0 <= i < j < |checkable| ==> checkable[i].0.id != checkable[j].0.id
      ensures forall k :: 0 <= k < |checkable| ==> checkable[k].0.id !in seen && checkable[k].0.id in repo.seenIds
      ensures analysed == Unsuspicious(engine, unseen)
      ensures llm.exchanges[..|old(llm.exchanges)|] == old(llm.exchanges)
      ensures Screened(engine, analyzer.minConfidence, unseen, llm.exchanges[|old(llm.exchanges)|..], checkable)
      ensures IsSubsequence(PostsOf(checkable), analysed)
      ensures forall k :: 0 <= k < |checkable| ==> checkable[k].0 in analysed
    {
      ghost var asked := llm.exchanges;
      checkable := analyzer.FilterCheckable(unseen);
      analysed := Unsuspicious(engine, unseen);
      ScreenedRequests(engine, analyzer.minConfidence, unseen, asked, llm.exchanges, checkable, analysed);
      ghost var sent := llm.exchanges[|asked|..];
      ScreenedFresh(engine, analyzer.minConfidence, seen, posts, unseen, repo.seenIds, sent, checkable, analysed);
      ScreenedOrder(engine, analyzer.minConfidence, unseen, sent, checkable, analysed);
    }

    /**
     * What one sort order does with the feed it fetched: every new post is
     * marked seen before the analyzer sees any of them; the checkable ones
     * are engaged with while budget is left.
     */
    method EngageFeed(posts: seq<Post>, made: nat)
      returns (count: nat, ghost calls: seq<ForumCall>, ghost entries: seq<ActionLog>, ghost added: seq<string>,
               ghost analysed: seq<Post>, ghost checkable: seq<(Post, AnalysisResult)>, ghost sent: seq<Exchange>,
               ghost turns: seq<Turn>, ghost tried: nat)
      requires Valid() && made < maxCommentsPerHeartbeat
      modifies llm, forum, repo`seenIds, repo`seenFile, repo`actionsFile
      ensures forum.calls == old(forum.calls) + calls && EngageCalls(calls)
      ensures repo.Lines() == old(repo.Lines()) + Written(entries)
      ensures repo.seenIds == old(repo.seenIds) + IdSet(posts)
      ensures count == made + |added| <= maxCommentsPerHeartbeat
      ensures CommentTargets(calls) == added && TargetsOf(entries, CommentCreated) == added
      ensures BrowseEntries(entries) && Distinct(added)
      ensures forall k :: 0 <= k < |added| ==> added[k] !in old(repo.seenIds) && added[k] in repo.seenIds
      ensures AnalysisRequests(llm.exchanges) == AnalysisRequests(old(llm.exchanges)) + AnalyzePrompts(engine, analysed)
      ensures DistinctIds(analysed)
      ensures forall k :: 0 <= k < |analysed| ==> analysed[k].id !in old(repo.seenIds) && analysed[k].id in repo.seenIds
      ensures llm.exchanges == old(llm.exchanges) + sent
      ensures FeedEngaged(engine, analyzer.minConfidence, Unseen(old(repo.seenIds), posts), sent, analysed, checkable,
                          tried, turns, calls, entries)
      ensures tried < |checkable| ==> count >= maxCommentsPerHeartbeat
      ensures IsSubsequence(PostsOf(checkable), analysed)
    {
      ghost var seen := repo.seenIds;
      var unseen := MarkUnseen(posts);
      if unseen == [] {
        NothingUnseenEngaged(engine, analyzer.minConfidence);
        assert CommentTargets([]) == [] && TargetsOf([], CommentCreated) == [];
        return made, [], [], [], [], [], [], [], 0;
      }
      count, calls, entries, added, analysed, checkable, sent, turns, tried := ScreenAndEngage(posts, unseen, seen, made);
    }

    /** `filter_checkable` on the new posts of a feed, then the loop over the checkable ones. */
    method ScreenAndEngage(posts: seq<Post>, unseen: seq<Post>, ghost seen: set<string>, made: nat)
      returns (count: nat, ghost calls: seq<ForumCall>, ghost entries: seq<ActionLog>, ghost added: seq<string>,
               ghost analysed: seq<Post>, ghost checkable: seq<(Post, AnalysisResult)>, ghost sent: seq<Exchange>,
               ghost turns: seq<Turn>, ghost tried: nat)
      requires Valid() && made < maxCommentsPerHeartbeat
      requires unseen == Unseen(seen, posts) && repo.seenIds == seen + IdSet(posts)
      modifies llm, forum, repo`actionsFile
      ensures forum.calls == old(forum.calls) + calls && EngageCalls(calls)
      ensures repo.Lines() == old(repo.Lines()) + Written(entries)
      ensures count == made + |added| <= maxCommentsPerHeartbeat
      ensures CommentTargets(calls) == added && TargetsOf(entries, CommentCreated) == added
      ensures BrowseEntries(entries) && Distinct(added)
      ensures forall k :: 0 <= k < |added| ==> added[k] !in seen && added[k] in repo.seenIds
      ensures AnalysisRequests(llm.exchanges) == AnalysisRequests(old(llm.exchanges)) + AnalyzePrompts(engine, analysed)
      ensures DistinctIds(analysed)
      ensures forall k :: 0 <= k < |analysed| ==> analysed[k].id !in seen && analysed[k].id in repo.seenIds
      ensures llm.exchanges == old(llm.exchanges) + sent
      ensures FeedEngaged(engine, analyzer.minConfidence, unseen, sent, analysed, checkable, tried, turns, calls, entries)
      ensures tried < |checkable| ==> count >= maxCommentsPerHeartbeat
      ensures IsSubsequence(PostsOf(checkable), analysed)
    {
      ghost var asked := llm.exchanges;
      var kept;
      kept, analysed := ScreenUnseen(posts, unseen, seen);
      checkable := kept;
      ghost var screened := llm.exchanges[|asked|..];
      ExtendedBy(asked, llm.exchanges);
      ghost var exchanges1 := llm.exchanges;
      ghost var engaged;
      count, calls, entries, added, engaged, turns, tried := EngageAll(kept, made, seen);
      ScreenedThenEngaged(engine, analyzer.minConfidence, unseen, seen, repo.seenIds, checkable, analysed, tried,
                          old(forum.calls), old(repo.Lines()), asked, screened, exchanges1, calls, entries, added,
                          engaged, turns, forum.calls, repo.Lines(), llm.exchanges);
      sent := screened + engaged;
    }

    /**
     * One sort order of `_browse_and_engage`, entered with `made` comments
     * already made and budget left. A client error on the feed skips the
     * sort; any other error escapes.
     */
    method BrowseSort(sort: PostSortOrder, made: nat)
      returns (r: Result<nat, ForumError>, ghost calls: seq<ForumCall>, ghost entries: seq<ActionLog>,
               ghost added: seq<string>, ghost analysed: seq<Post>, ghost checkable: seq<(Post, AnalysisResult)>,
               ghost sent: seq<Exchange>, ghost turns: seq<Turn>, ghost tried: nat)
      requires Valid() && made < maxCommentsPerHeartbeat
      modifies llm, forum, repo`seenIds, repo`seenFile, repo`actionsFile
      ensures forum.calls == old(forum.calls) + calls
      ensures repo.Lines() == old(repo.Lines()) + Written(entries)
      ensures old(repo.seenIds) <= repo.seenIds
      ensures SortCalls(calls, sort)
      ensures r.Failure? <==> Escaped(calls[0])
      ensures r.Failure? ==> r.error == calls[0].posts.error && calls == [calls[0]] && entries == []
      ensures repo.seenIds == old(repo.seenIds) + Fetched(calls)
      ensures r.Success? ==> r.value == made + |added| <= maxCommentsPerHeartbeat
      ensures CommentTargets(calls) == added && TargetsOf(entries, CommentCreated) == added
      ensures BrowseEntries(entries)
      ensures Distinct(added)
      ensures forall k :: 0 <= k < |added| ==> added[k] !in old(repo.seenIds) && added[k] in repo.seenIds
      ensures AnalysisRequests(llm.exchanges) == AnalysisRequests(old(llm.exchanges)) + AnalyzePrompts(engine, analysed)
      ensures DistinctIds(analysed)
      ensures forall k :: 0 <= k < |analysed| ==> analysed[k].id !in old(repo.seenIds) && analysed[k].id in repo.seenIds
      ensures llm.exchanges == old(llm.exchanges) + sent
      ensures calls[0].posts.Failure? ==> sent == [] && analysed == [] && checkable == [] && entries == []
                                          && turns == [] && tried == 0
      ensures calls[0].posts.Success? ==>
                FeedEngaged(engine, analyzer.minConfidence, Unseen(old(repo.seenIds), calls[0].posts.value), sent,
                            analysed, checkable, tried, turns, calls[1..], entries)
      ensures r.Success? && tried < |checkable| ==> r.value >= maxCommentsPerHeartbeat
      ensures IsSubsequence(PostsOf(checkable), analysed)
    {
      var got := forum.GetPosts(sort);
      calls := [GetPostsCall(sort, got)];
      if got.Failure? {
        entries, added, analysed, checkable, sent, turns, tried := [], [], [], [], [], [], 0;
        SortSkipped(engine, sort, got, llm.exchanges, repo.seenIds);
        if got.error.ClientError? {
          return Success(made), calls, entries, added, analysed, checkable, sent, turns, tried;
        }
        return Failure(got.error), calls, entries, added, analysed, checkable, sent, turns, tried;
      }
      ghost var moreCalls;
      var count;
      count, moreCalls, entries, added, analysed, checkable, sent, turns, tried := EngageFeed(got.value, made);
      SortRead(sort, got.value, moreCalls, added, old(forum.calls), forum.calls);
      calls := calls + moreCalls;
      r := Success(count);
    }

    /**
     * `_browse_and_engage`: the HOT feed, then the NEW feed, each entered only
     * while comment budget is left. The comments made are exactly the
     * successful `create_comment` calls and exactly the logged
     * `COMMENT_CREATED` targets: on distinct posts, none of them seen before
     * this call, at most `max_comments_per_heartbeat` of them.
     */
    method BrowseAndEngage()
      returns (r: Result<nat, ForumError>, ghost calls: seq<ForumCall>, ghost entries: seq<ActionLog>,
               ghost commented: seq<string>, ghost analysed: seq<Post>, ghost hotCalls: seq<ForumCall>,
               ghost newCalls: seq<ForumCall>, ghost hotRun: FeedRun, ghost newRun: FeedRun)
      requires Valid()
      modifies llm, forum, repo`seenIds, repo`seenFile, repo`actionsFile
      ensures BrowseRecord(old(forum.calls), old(repo.Lines()), old(repo.seenIds), old(llm.exchanges), calls, entries,
                           commented, analysed, hotCalls, newCalls)
      ensures old(repo.seenIds) <= repo.seenIds
      ensures RunsRecord(engine, analyzer.minConfidence, old(repo.seenIds), old(llm.exchanges), entries, llm.exchanges,
                         hotCalls, newCalls, hotRun, newRun)
      ensures |commented| <= if maxCommentsPerHeartbeat < 0 then 0 else maxCommentsPerHeartbeat
      ensures r.Success? ==> r.value == |commented|
      ensures r.Failure? ==> !r.error.ClientError?
                             && exists k :: 0 <= k < |calls| && calls[k].GetPostsCall? && calls[k].posts == Failure(r.error)
      ensures BrowseShape(hotCalls, newCalls, maxCommentsPerHeartbeat)
      ensures r.Failure? <==> BrowseEscaped(hotCalls, newCalls)
    {
      var sorts := [PostSortOrder.Hot, PostSortOrder.New];
      calls, entries, commented, analysed, hotCalls, newCalls := [], [], [], [], [], [];
      hotRun, newRun := NoRun, NoRun;
      NoRunsYet(engine, analyzer.minConfidence, old(repo.seenIds), old(llm.exchanges));
      assert AnalyzePrompts(engine, analysed) == [] && Fetched([]) == {};
      assert CommentTargets(calls) == [] && TargetsOf(entries, CommentCreated) == [];
      var made := 0;
      var i := 0;
      while i < |sorts|
        invariant 0 <= i <= |sorts|
        invariant made == |commented| && (made == 0 || made <= maxCommentsPerHeartbeat)
        invariant BrowseRecord(old(forum.calls), old(repo.Lines()), old(repo.seenIds), old(llm.exchanges),
                               calls, entries, commented, analysed, hotCalls, newCalls)
        invariant BrowsedSoFar(i, hotCalls, newCalls, maxCommentsPerHeartbeat)
        invariant i <= 1 ==> made == |CommentTargets(hotCalls)|
        invariant RunsRecord(engine, analyzer.minConfidence, old(repo.seenIds), old(llm.exchanges), entries,
                             llm.exchanges, hotCalls, newCalls, hotRun, newRun)
      {
        if made >= maxCommentsPerHeartbeat {
          break;
        }
        var res;
        ghost var before := |calls|;
        res, calls, entries, commented, analysed, hotCalls, newCalls, hotRun, newRun :=
          BrowseTurn(i, sorts[i], made, old(forum.calls), old(repo.Lines()), old(repo.seenIds), old(llm.exchanges),
                     calls, entries, commented, analysed, hotCalls, newCalls, hotRun, newRun);
        if res.Failure? {
          assert calls[before].GetPostsCall? && calls[before].posts == Failure(res.error);
          return Failure(res.error), calls, entries, commented, analysed, hotCalls, newCalls, hotRun, newRun;
        }
        made := res.value;
        i := i + 1;
      }
      BrowseDone(i, hotCalls, newCalls, maxCommentsPerHeartbeat, made);
      r := Success(made);
    }

    /** One turn of the loop over sort orders, `sort` being the `i`-th of HOT and NEW. */
    method BrowseTurn(i: nat, sort: PostSortOrder, made: nat, ghost callsStart: seq<ForumCall>,
                      ghost linesStart: seq<LogLine>, ghost seenStart: set<string>, ghost asked: seq<Exchange>,
                      ghost calls: seq<ForumCall>, ghost entries: seq<ActionLog>, ghost commented: seq<string>,
                      ghost analysed: seq<Post>, ghost hotCalls: seq<ForumCall>, ghost newCalls: seq<ForumCall>,
                      ghost hotRun: FeedRun, ghost newRun: FeedRun)
      returns (r: Result<nat, ForumError>, ghost calls': seq<ForumCall>, ghost entries': seq<ActionLog>,
               ghost commented': seq<string>, ghost analysed': seq<Post>, ghost hotCalls': seq<ForumCall>,
               ghost newCalls': seq<ForumCall>, ghost hotRun': FeedRun, ghost newRun': FeedRun)
      requires Valid() && i < 2 && sort == [PostSortOrder.Hot, PostSortOrder.New][i]
      requires made == |commented| < maxCommentsPerHeartbeat
      requires BrowseRecord(callsStart, linesStart, seenStart, asked, calls, entries, commented, analysed,
                            hotCalls, newCalls)
      requires BrowsedSoFar(i, hotCalls, newCalls, maxCommentsPerHeartbeat)
      requires i <= 1 ==> made == |CommentTargets(hotCalls)|
      requires RunsRecord(engine, analyzer.minConfidence, seenStart, asked, entries, llm.exchanges, hotCalls, newCalls,
                          hotRun, newRun)
      modifies llm, forum, repo`seenIds, repo`seenFile, repo`actionsFile
      ensures BrowseRecord(callsStart, linesStart, seenStart, asked, calls', entries', commented', analysed',
                           hotCalls', newCalls')
      ensures RunsRecord(engine, analyzer.minConfidence, seenStart, asked, entries', llm.exchanges, hotCalls',
                         newCalls', hotRun', newRun')
      ensures |commented'| <= maxCommentsPerHeartbeat && (r.Success? ==> r.value == |commented'|)
      ensures r.Success? ==> BrowsedSoFar(i + 1, hotCalls', newCalls', maxCommentsPerHeartbeat)
                             && (i + 1 <= 1 ==> |commented'| == |CommentTargets(hotCalls')|)
      ensures r.Failure? ==> BrowseShape(hotCalls', newCalls', maxCommentsPerHeartbeat)
                             && BrowseEscaped(hotCalls', newCalls')
      ensures r.Failure? ==> !r.error.ClientError? && |calls| < |calls'|
                             && calls'[|calls|].GetPostsCall? && calls'[|calls|].posts == Failure(r.error)
    {
      ghost var seenBefore, exchanges0 := repo.seenIds, llm.exchanges;
      ghost var sortCalls, run;
      r, calls', entries', commented', analysed', sortCalls, run :=
        BrowseStep(sort, made, callsStart, linesStart, seenStart, asked, calls, entries, commented, analysed);
      ShapeAfterTurn(i, hotCalls, newCalls, maxCommentsPerHeartbeat, made, sortCalls, seenStart, seenBefore);
      RunsAfterTurn(i, engine, analyzer.minConfidence, seenStart, asked, entries, exchanges0, hotCalls, newCalls,
                    hotRun, newRun, sortCalls, run, seenBefore, llm.exchanges);
      hotCalls', newCalls' := if i == 0 then sortCalls else hotCalls, if i == 0 then newCalls else sortCalls;
      hotRun', newRun' := if i == 0 then run else hotRun, if i == 0 then newRun else run;
    }

    /**
     * `_maybe_create_post`: today's `POST_CREATED` count decides; an
     * unreadable log escapes. At the cap nothing is called or logged;
     * below it at most one post is published, logged with the id the forum
     * returned, and every failure is swallowed.
     */
    method MaybeCreatePost()
      returns (r: Result<(), RepoError>, today: string, ghost calls: seq<ForumCall>,
               ghost entries: seq<ActionLog>, ghost sent: seq<Exchange>)
      requires Valid()
      modifies llm, forum, repo`actionsFile
      ensures forum.calls == old(forum.calls) + calls
      ensures repo.Lines() == old(repo.Lines()) + Written(entries)
      ensures llm.exchanges == old(llm.exchanges) + sent
      ensures r.Failure? <==> CountToday(old(repo.Lines()), PostCreated, today).Failure?
      ensures r.Failure? ==> r.error == CountToday(old(repo.Lines()), PostCreated, today).error
      ensures PostAttempt(old(repo.Lines()), today, maxPostsPerDay, calls, entries, sent)
      ensures r.Failure? || CountToday(old(repo.Lines()), PostCreated, today).value >= maxPostsPerDay
              ==> calls == [] && entries == [] && sent == []
      ensures r.Success? && CountToday(old(repo.Lines()), PostCreated, today).value < maxPostsPerDay
              ==> |sent| == 1 && sent[0].prompt.CreateOriginalPost? && sent[0].prompt.category in TopicCategories
                  && PostPublished(ContentOf(sent[0].reply), calls, entries)
      ensures |calls| <= 1 && |entries| <= 1
      ensures calls != [] ==> calls[0].CreatePostCall?
      ensures entries != [] <==> calls != [] && calls[0].published.Success?
      ensures entries != [] ==> entries[0].actionType == PostCreated
                                && entries[0].targetId == Some(calls[0].published.value.id)
      ensures CommentTargets(calls) == [] && TargetsOf(entries, CommentCreated) == []
      ensures AnalysisRequests(llm.exchanges) == AnalysisRequests(old(llm.exchanges))
    {
      calls, entries, sent := [], [], [];
      today := clock.TodayIso();
      var count := repo.GetTodayActionCount(PostCreated, today);
      if count.Failure? {
        return Failure(count.error), today, calls, entries, sent;
      }
      if count.value >= maxPostsPerDay {
        return Success(()), today, calls, entries, sent;
      }
      r := Success(());
      ghost var ex;
      calls, entries, ex := PublishPost();
      sent := [ex];
    }

    /**
     * The body of `_maybe_create_post` below the daily cap: one request for
     * an original post on a drawn topic, then the post and its log entry when
     * the content makes a valid request.
     */
    method PublishPost() returns (ghost calls: seq<ForumCall>, ghost entries: seq<ActionLog>, ghost ex: Exchange)
      requires Valid()
      modifies llm, forum, repo`actionsFile
      ensures forum.calls == old(forum.calls) + calls
      ensures repo.Lines() == old(repo.Lines()) + Written(entries)
      ensures llm.exchanges == old(llm.exchanges) + [ex]
      ensures ex.prompt.CreateOriginalPost? && ex.prompt.category in TopicCategories
      ensures PostPublished(ContentOf(ex.reply), calls, entries)
      ensures CommentTargets(calls) == [] && TargetsOf(entries, CommentCreated) == []
      ensures AnalysisRequests(llm.exchanges) == AnalysisRequests(old(llm.exchanges))
    {
      calls, entries := [], [];
      var content := postCreator.CreatePost();
      ex := llm.exchanges[|llm.exchanges| - 1];
      AnalysisRequestsSnocOther(old(llm.exchanges), ex);
      if content.Failure? {
        return;
      }
      var request := CreatePostRequestOf(content.value.title, Some(content.value.body), None,
                                         content.value.targetSubmolt);
      if request.Failure? {
        return;
      }
      var post := forum.CreatePost(request.value);
      calls := [CreatePostCall(request.value, post)];
      CommentTargetsOfOne(calls[0]);
      if post.Failure? {
        return;
      }
      var a := Log(PostCreated, Some(post.value.id), content.value.topicCategory);
      TargetsOfOne(a, CommentCreated);
      entries := [a];
    }

    /** One turn of the loop over sort orders, with what the loop has recorded so far. */
    method BrowseStep(sort: PostSortOrder, made: nat, ghost callsStart: seq<ForumCall>, ghost linesStart: seq<LogLine>,
                      ghost seenStart: set<string>, ghost asked: seq<Exchange>, ghost calls: seq<ForumCall>,
                      ghost entries: seq<ActionLog>, ghost commented: seq<string>, ghost analysed: seq<Post>)
      returns (r: Result<nat, ForumError>, ghost calls': seq<ForumCall>, ghost entries': seq<ActionLog>,
               ghost commented': seq<string>, ghost analysed': seq<Post>, ghost sortCalls: seq<ForumCall>,
               ghost run: FeedRun)
      requires Valid() && made == |commented| < maxCommentsPerHeartbeat
      requires forum.calls == callsStart + calls && repo.Lines() == linesStart + Written(entries)
      requires seenStart <= repo.seenIds
      requires CommentTargets(calls) == commented && TargetsOf(entries, CommentCreated) == commented
      requires BrowseEntries(entries) && Distinct(commented)
      requires forall k :: 0 <= k < |commented| ==> commented[k] !in seenStart && commented[k] in repo.seenIds
      requires AnalysisRequests(llm.exchanges) == AnalysisRequests(asked) + AnalyzePrompts(engine, analysed)
      requires DistinctIds(analysed)
      requires forall k :: 0 <= k < |analysed| ==> analysed[k].id !in seenStart && analysed[k].id in repo.seenIds
      modifies llm, forum, repo`seenIds, repo`seenFile, repo`actionsFile
      ensures forum.calls == callsStart + calls' && repo.Lines() == linesStart + Written(entries')
      ensures seenStart <= repo.seenIds
      ensures CommentTargets(calls') == commented' && TargetsOf(entries', CommentCreated) == commented'
      ensures BrowseEntries(entries') && Distinct(commented')
      ensures forall k :: 0 <= k < |commented'| ==> commented'[k] !in seenStart && commented'[k] in repo.seenIds
      ensures |commented'| <= maxCommentsPerHeartbeat && (r.Success? ==> r.value == |commented'|)
      ensures r.Failure? ==> !r.error.ClientError? && |calls| < |calls'|
                             && calls'[|calls|].GetPostsCall? && calls'[|calls|].posts == Failure(r.error)
      ensures AnalysisRequests(llm.exchanges) == AnalysisRequests(asked) + AnalyzePrompts(engine, analysed')
      ensures DistinctIds(analysed')
      ensures forall k :: 0 <= k < |analysed'| ==> analysed'[k].id !in seenStart && analysed'[k].id in repo.seenIds
      ensures calls' == calls + sortCalls && SortCalls(sortCalls, sort)
      ensures repo.seenIds == old(repo.seenIds) + Fetched(sortCalls)
      ensures r.Failure? <==> Escaped(sortCalls[0])
      ensures SortOutcome(engine, analyzer.minConfidence, old(repo.seenIds), sortCalls, run)
      ensures entries' == entries + run.entries && llm.exchanges == old(llm.exchanges) + run.sent
    {
      ghost var seenBefore := repo.seenIds;
      ghost var moreCalls: seq<ForumCall>, moreEntries: seq<ActionLog>, added: seq<string>, more: seq<Post>;
      ghost var checkable, sent, turns, tried;
      ghost var callsBefore, linesBefore, asking := forum.calls, repo.Lines(), llm.exchanges;
      r, moreCalls, moreEntries, added, more, checkable, sent, turns, tried := BrowseSort(sort, made);
      sortCalls := moreCalls;
      run := FeedRun(moreEntries, sent, more, checkable, tried, turns);
      SortAccumulated(engine, callsStart, linesStart, seenStart, asked, calls, entries, commented, analysed,
                      callsBefore, linesBefore, seenBefore, asking, moreCalls, moreEntries, added, more,
                      forum.calls, repo.Lines(), repo.seenIds, llm.exchanges);
      calls', entries', commented', analysed' := calls + moreCalls, entries + moreEntries, commented + added,
                                                 analysed + more;
      if r.Failure? {
        CommentTargetsOfOne(moreCalls[0]);
        assert calls'[|calls|] == moreCalls[0];
      }
    }

    /**
     * `run_heartbeat`: fetch the heartbeat file (any failure swallowed),
     * browse, maybe post, and log `HEARTBEAT` only when no exception reached
     * the handler; an exception that does ends the heartbeat unlogged.
     */
    method RunHeartbeat() returns (r: Result<(), HeartbeatError>, ghost calls: seq<ForumCall>,
                                   ghost entries: seq<ActionLog>, ghost analysed: seq<Post>,
                                   ghost hotCalls: seq<ForumCall>, ghost newCalls: seq<ForumCall>,
                                   ghost hotRun: FeedRun, ghost newRun: FeedRun,
                                   ghost browseEntries: seq<ActionLog>, ghost browsedExchanges: seq<Exchange>,
                                   ghost today: string, ghost postCalls: seq<ForumCall>,
                                   ghost postEntries: seq<ActionLog>, ghost postSent: seq<Exchange>)
      requires Valid()
      modifies llm, forum, repo`seenIds, repo`seenFile, repo`actionsFile
      ensures forum.calls == old(forum.calls) + calls
      ensures repo.Lines() == old(repo.Lines()) + Written(entries)
      ensures HeartbeatTrace(calls, entries, r.Success?, maxCommentsPerHeartbeat)
      ensures AnalysisRequests(llm.exchanges) == AnalysisRequests(old(llm.exchanges)) + AnalyzePrompts(engine, analysed)
      ensures DistinctIds(analysed)
      ensures forall k :: 0 <= k < |analysed| ==> analysed[k].id !in old(repo.seenIds) && analysed[k].id in repo.seenIds
      ensures |calls| > |hotCalls + newCalls| && calls[1..1 + |hotCalls + newCalls|] == hotCalls + newCalls
      ensures calls[1..] == hotCalls + newCalls + postCalls
      ensures BrowseShape(hotCalls, newCalls, maxCommentsPerHeartbeat)
      ensures repo.seenIds == old(repo.seenIds) + Fetched(hotCalls) + Fetched(newCalls)
      ensures RunsRecord(engine, analyzer.minConfidence, old(repo.seenIds), old(llm.exchanges), browseEntries,
                         browsedExchanges, hotCalls, newCalls, hotRun, newRun)
      ensures llm.exchanges == browsedExchanges + postSent
      ensures (r.Failure? && r.error.FeedFailed?) <==> BrowseEscaped(hotCalls, newCalls)
      ensures HeartbeatEnd(r, BrowseEscaped(hotCalls, newCalls), old(repo.Lines()) + Written(browseEntries), today,
                           maxPostsPerDay, postCalls, postEntries, postSent, browseEntries, entries)
    {
      var browsed;
      ghost var commented: seq<string>;
      browsed, calls, entries, commented, analysed, hotCalls, newCalls, hotRun, newRun := BrowsePhase();
      browseEntries, browsedExchanges := entries, llm.exchanges;
      today, postCalls, postEntries, postSent := "", [], [], [];
      if browsed.Failure? {
        AppendNil(calls[1..]);
        AppendNil(llm.exchanges);
        r := Failure(FeedFailed(browsed.error));
        EscapedEnd(r, old(repo.Lines()) + Written(browseEntries), today, maxPostsPerDay, browseEntries);
        return;
      }
      var finished;
      ghost var browsedCalls := calls;
      finished, today, postCalls, postEntries, postSent, calls, entries :=
        FinishHeartbeat(old(forum.calls), old(repo.Lines()), calls, entries, commented);
      ExtensionKeepsTail(browsedCalls, calls);
      TailOfAppend(browsedCalls, postCalls);
      FinishedTrace(calls, entries, finished.Success?, maxCommentsPerHeartbeat, commented);
      r := if finished.Success? then Success(()) else Failure(LogUnreadable(finished.error));
      FinishedEnd(finished, r, old(repo.Lines()) + Written(browseEntries), today, maxPostsPerDay, postCalls,
                  postEntries, postSent, browseEntries, entries);
    }

    /** The start of `run_heartbeat`: the heartbeat fetch, whose result is not used, then browsing. */
    method BrowsePhase()
      returns (browsed: Result<nat, ForumError>, ghost calls: seq<ForumCall>, ghost entries: seq<ActionLog>,
               ghost commented: seq<string>, ghost analysed: seq<Post>, ghost hotCalls: seq<ForumCall>,
               ghost newCalls: seq<ForumCall>, ghost hotRun: FeedRun, ghost newRun: FeedRun)
      requires Valid()
      modifies llm, forum, repo`seenIds, repo`seenFile, repo`actionsFile
      ensures forum.calls == old(forum.calls) + calls
      ensures repo.Lines() == old(repo.Lines()) + Written(entries)
      ensures calls != [] && calls[0].FetchHeartbeatCall? && calls[1..] == hotCalls + newCalls
      ensures RunsRecord(engine, analyzer.minConfidence, old(repo.seenIds), old(llm.exchanges), entries, llm.exchanges,
                         hotCalls, newCalls, hotRun, newRun)
      ensures CommentTargets(calls) == commented && TargetsOf(entries, CommentCreated) == commented
      ensures BrowseEntries(entries) && Distinct(commented)
      ensures |commented| <= if maxCommentsPerHeartbeat < 0 then 0 else maxCommentsPerHeartbeat
      ensures HeartbeatTrace(calls, entries, false, maxCommentsPerHeartbeat)
      ensures AnalysisRequests(llm.exchanges) == AnalysisRequests(old(llm.exchanges)) + AnalyzePrompts(engine, analysed)
      ensures DistinctIds(analysed)
      ensures forall k :: 0 <= k < |analysed| ==> analysed[k].id !in old(repo.seenIds) && analysed[k].id in repo.seenIds
      ensures BrowseShape(hotCalls, newCalls, maxCommentsPerHeartbeat)
      ensures repo.seenIds == old(repo.seenIds) + Fetched(hotCalls) + Fetched(newCalls)
      ensures browsed.Failure? <==> BrowseEscaped(hotCalls, newCalls)
    {
      var beat := forum.FetchHeartbeat();
      ghost var browseCalls: seq<ForumCall>;
      browsed, browseCalls, entries, commented, analysed, hotCalls, newCalls, hotRun, newRun := BrowseAndEngage();
      BrowsePhaseTrace(FetchHeartbeatCall(beat.Success?), browseCalls, entries, commented, maxCommentsPerHeartbeat);
      AppendAssoc(old(forum.calls), [FetchHeartbeatCall(beat.Success?)], browseCalls);
      calls := [FetchHeartbeatCall(beat.Success?)] + browseCalls;
      assert calls[1..] == browseCalls;
    }

    /** The post phase of a heartbeat, appended to the trace of its browse phase. */
    method PostPhase(ghost callsStart: seq<ForumCall>, ghost linesStart: seq<LogLine>,
                     ghost calls: seq<ForumCall>, ghost entries: seq<ActionLog>, ghost commented: seq<string>)
      returns (r: Result<(), RepoError>, today: string, ghost postCalls: seq<ForumCall>,
               ghost postEntries: seq<ActionLog>, ghost sent: seq<Exchange>,
               ghost calls': seq<ForumCall>, ghost entries': seq<ActionLog>)
      requires Valid()
      requires forum.calls == callsStart + calls && repo.Lines() == linesStart + Written(entries)
      requires calls != [] && calls[0].FetchHeartbeatCall?
      requires CommentTargets(calls) == commented && TargetsOf(entries, CommentCreated) == commented
      requires BrowseEntries(entries)
      modifies llm, forum, repo`actionsFile
      ensures forum.calls == callsStart + calls' && repo.Lines() == linesStart + Written(entries')
      ensures calls' == calls + postCalls && entries' == entries + postEntries
      ensures llm.exchanges == old(llm.exchanges) + sent
      ensures r.Failure? <==> CountToday(linesStart + Written(entries), PostCreated, today).Failure?
      ensures r.Failure? ==> r.error == CountToday(linesStart + Written(entries), PostCreated, today).error
      ensures PostAttempt(linesStart + Written(entries), today, maxPostsPerDay, postCalls, postEntries, sent)
      ensures calls' != [] && calls'[0].FetchHeartbeatCall?
      ensures |calls| <= |calls'| && calls'[..|calls|] == calls
      ensures CommentTargets(calls') == commented && TargetsOf(entries', CommentCreated) == commented
      ensures forall k :: 0 <= k < |entries'| ==> entries'[k].actionType != Heartbeat
      ensures AnalysisRequests(llm.exchanges) == AnalysisRequests(old(llm.exchanges))
    {
      r, today, postCalls, postEntries, sent := MaybeCreatePost();
      PostPhaseTrace(calls, entries, postCalls, postEntries, commented);
      WrittenConcat(entries, postEntries);
      AppendAssoc(callsStart, calls, postCalls);
      AppendAssoc(linesStart, Written(entries), Written(postEntries));
      calls', entries' := calls + postCalls, entries + postEntries;
    }

    /**
     * The rest of `run_heartbeat` once browsing returned: maybe post, then
     * log `HEARTBEAT` unless reading the action log failed.
     */
    method FinishHeartbeat(ghost callsStart: seq<ForumCall>, ghost linesStart: seq<LogLine>,
                           ghost calls: seq<ForumCall>, ghost entries: seq<ActionLog>, ghost commented: seq<string>)
      returns (r: Result<(), RepoError>, today: string, ghost postCalls: seq<ForumCall>,
               ghost postEntries: seq<ActionLog>, ghost sent: seq<Exchange>,
               ghost calls': seq<ForumCall>, ghost entries': seq<ActionLog>)
      requires Valid()
      requires forum.calls == callsStart + calls && repo.Lines() == linesStart + Written(entries)
      requires calls != [] && calls[0].FetchHeartbeatCall?
      requires CommentTargets(calls) == commented && TargetsOf(entries, CommentCreated) == commented
      requires BrowseEntries(entries) && Distinct(commented)
      requires |commented| <= if maxCommentsPerHeartbeat < 0 then 0 else maxCommentsPerHeartbeat
      modifies llm, forum, repo`actionsFile
      ensures forum.calls == callsStart + calls' && repo.Lines() == linesStart + Written(entries')
      ensures calls' == calls + postCalls && llm.exchanges == old(llm.exchanges) + sent
      ensures r.Failure? <==> CountToday(linesStart + Written(entries), PostCreated, today).Failure?
      ensures r.Failure? ==> r.error == CountToday(linesStart + Written(entries), PostCreated, today).error
      ensures PostAttempt(linesStart + Written(entries), today, maxPostsPerDay, postCalls, postEntries, sent)
      ensures r.Failure? ==> entries' == entries + postEntries
      ensures r.Success? ==> && |entries'| == |entries + postEntries| + 1
                             && entries'[..|entries'| - 1] == entries + postEntries
                             && entries'[|entries'| - 1].actionType == Heartbeat
                             && entries'[|entries'| - 1].targetId == None && entries'[|entries'| - 1].details == None
      ensures calls' != [] && calls'[0].FetchHeartbeatCall?
      ensures |calls| <= |calls'| && calls'[..|calls|] == calls
      ensures r.Success? <==> entries' != [] && entries'[|entries'| - 1].actionType == Heartbeat
      ensures forall k :: 0 <= k < |entries'| - 1 ==> entries'[k].actionType != Heartbeat
      ensures CommentTargets(calls') == commented && TargetsOf(entries', CommentCreated) == commented
      ensures AnalysisRequests(llm.exchanges) == AnalysisRequests(old(llm.exchanges))
    {
      var posted;
      posted, today, postCalls, postEntries, sent, calls', entries' := PostPhase(callsStart, linesStart, calls, entries, commented);
      if posted.Failure? {
        return Failure(posted.error), today, postCalls, postEntries, sent, calls', entries';
      }
      var a := Log(Heartbeat, None, None);
      BeatTrace(entries', a, commented);
      WrittenConcat(entries', [a]);
      AppendAssoc(linesStart, Written(entries'), Written([a]));
      entries' := entries' + [a];
      r := Success(());
    }
  }
}
