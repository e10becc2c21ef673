/**
 * `ContentAnalyzerService` (src/kyf/services/content_analyzer.py): asks the
 * model whether a post makes a checkable claim, and screens a feed down to
 * the posts worth a reply.
 */
module ContentAnalyzer {
  import opened Wrappers
  import opened Json
  import opened MoltbookModels
  import opened LlmModels
  import opened Sanitizer
  import opened LlmClients

  /** The template arguments `analyze` sends for a post. */
  function AnalyzePrompt(e: TextEngine, p: Post): (q: UserPrompt)
    ensures q.AnalyzePost? && NoEdgeSpace(q.title) && NoEdgeSpace(q.body)
    ensures p.body.None? || p.body == Some("") ==> q.body == ""
    ensures p.submolt.None? || p.submolt == Some("") ==> q.submolt == "general"
    ensures p.submolt.Some? && p.submolt.value != "" ==> q.submolt == p.submolt.value
  {
    AnalyzePost(Sanitize(e, p.title), Sanitize(e, OrDefault(p.body, "")), OrDefault(p.submolt, "general"))
  }

  /** The analysis `analyze` returns for a reply: the validated result, or the default on any error. */
  function AnalysisOf(reply: Result<Json, LlmError>): (a: AnalysisResult)
    ensures ValidAnalysisResult(a)
    ensures reply.Failure? ==>
              a == NewAnalysisResult(false, Some("Analysis error: " + ModelFailed(reply.error).Describe()))
    ensures reply.Success? && ValidateAnalysisResult(reply.value).Success? ==> a == ValidateAnalysisResult(reply.value).value
    ensures reply.Success? && ValidateAnalysisResult(reply.value).Failure? ==>
              a == NewAnalysisResult(false, Some("Analysis error: " + InvalidReply(ValidateAnalysisResult(reply.value).error).Describe()))
  {
    match reply
    case Failure(err) => NewAnalysisResult(false, Some("Analysis error: " + ModelFailed(err).Describe()))
    case Success(j) =>
      match ValidateAnalysisResult(j)
      case Success(a) => a
      case Failure(v) => NewAnalysisResult(false, Some("Analysis error: " + InvalidReply(v).Describe()))
  }

  /** No error of the model reaches the caller as a checkable claim. */
  lemma FailedAnalysisIsNeverCheckable(reply: Result<Json, LlmError>)
    requires reply.Failure? || ValidateAnalysisResult(reply.value).Failure?
    ensures !AnalysisOf(reply).hasCheckableClaim && AnalysisOf(reply).confidence == 0.0
  {
  }

  /** The pre-check of `filter_checkable`: title or body (None read as "") is suspicious. */
  predicate Suspicious(e: TextEngine, p: Post) {
    IsSuspicious(e, p.title) || IsSuspicious(e, OrDefault(p.body, ""))
  }

  /** The posts that pass the pre-check, in feed order: the ones sent to the model. */
  function Unsuspicious(e: TextEngine, posts: seq<Post>): (ups: seq<Post>)
    ensures |ups| <= |posts|
    ensures forall k :: 0 <= k < |ups| ==> !Suspicious(e, ups[k])
    decreases |posts|
  {
    if posts == [] then []
    else
      var p := posts[|posts| - 1];
      Unsuspicious(e, posts[..|posts| - 1]) + (if Suspicious(e, p) then [] else [p])
  }

  /** The post is kept exactly when the model found a claim with enough confidence. */
  predicate Keep(minConfidence: real, a: AnalysisResult) {
    a.hasCheckableClaim && a.confidence >= minConfidence
  }

  /**
   * The result of `filter_checkable` given the model's replies, one per
   * unsuspicious post in order: each kept post paired with its own analysis.
   */
  function Screen(e: TextEngine, minConfidence: real, posts: seq<Post>, replies: seq<Result<Json, LlmError>>)
    : (r: seq<(Post, AnalysisResult)>)
    requires |replies| == |Unsuspicious(e, posts)|
    ensures |r| <= |replies|
    ensures forall k :: 0 <= k < |r| ==> !Suspicious(e, r[k].0) && Keep(minConfidence, r[k].1) && ValidAnalysisResult(r[k].1)
    decreases |posts|
  {
    if posts == [] then []
    else
      var p := posts[|posts| - 1];
      var init := posts[..|posts| - 1];
      if Suspicious(e, p) then Screen(e, minConfidence, init, replies)
      else
        var a := AnalysisOf(replies[|replies| - 1]);
        Screen(e, minConfidence, init, replies[..|replies| - 1]) + (if Keep(minConfidence, a) then [(p, a)] else [])
  }

  /** `xs` is `ys` with some elements left out, the rest in their order. */
  predicate IsSubsequence<T(==)>(xs: seq<T>, ys: seq<T>)
    decreases |ys|
  {
    xs == [] ||
    (ys != [] &&
      ((xs[|xs| - 1] == ys[|ys| - 1] && IsSubsequence(xs[..|xs| - 1], ys[..|ys| - 1]))
       || IsSubsequence(xs, ys[..|ys| - 1])))
  }

  /** The posts sent to the model are a subsequence of the feed, in its order. */
  lemma {:induction false} UnsuspiciousIsSubsequence(e: TextEngine, posts: seq<Post>)
    ensures IsSubsequence(Unsuspicious(e, posts), posts)
    decreases |posts|
  {
    if posts != [] {
      var init, p := posts[..|posts| - 1], posts[|posts| - 1];
      UnsuspiciousIsSubsequence(e, init);
      var before := Unsuspicious(e, init);
      if Suspicious(e, p) {
        assert Unsuspicious(e, posts) == before;
        assert IsSubsequence(before, posts[..|posts| - 1]);
      } else {
        assert Unsuspicious(e, posts) == before + [p];
        assert (before + [p])[..|before|] == before;
      }
    }
  }

  function PostsOf(r: seq<(Post, AnalysisResult)>): (ps: seq<Post>)
    ensures |ps| == |r| && forall k :: 0 <= k < |r| ==> ps[k] == r[k].0
  {
    seq(|r|, k requires 0 <= k < |r| => r[k].0)
  }

  /** The kept posts are an order-preserving subsequence of the feed. */
  lemma {:induction false} ScreenKeepsFeedOrder(e: TextEngine, minConfidence: real, posts: seq<Post>,
                                                replies: seq<Result<Json, LlmError>>)
    requires |replies| == |Unsuspicious(e, posts)|
    ensures IsSubsequence(PostsOf(Screen(e, minConfidence, posts, replies)), posts)
    decreases |posts|
  {
    if posts != [] {
      var p := posts[|posts| - 1];
      var init := posts[..|posts| - 1];
      var rs := if Suspicious(e, p) then replies else replies[..|replies| - 1];
      ScreenKeepsFeedOrder(e, minConfidence, init, rs);
      var before := PostsOf(Screen(e, minConfidence, init, rs));
      var now := PostsOf(Screen(e, minConfidence, posts, replies));
      if now == before {
        assert posts[..|posts| - 1] == init;
      } else {
        assert now == before + [p];
        assert now[..|now| - 1] == before;
      }
    }
  }

  /** What `filter_checkable` returns is an order-preserving subsequence of its input. */
  lemma ScreenedKeepsFeedOrder(e: TextEngine, minConfidence: real, posts: seq<Post>, sent: seq<Exchange>,
                               results: seq<(Post, AnalysisResult)>)
    requires Screened(e, minConfidence, posts, sent, results)
    ensures IsSubsequence(PostsOf(results), posts)
  {
    ScreenKeepsFeedOrder(e, minConfidence, posts, Replies(sent));
  }

  /**
   * The kept posts are an order-preserving subsequence of the posts the model
   * was asked about: none is kept without an analysis of its own.
   */
  lemma {:induction false} ScreenKeepsAnalysedOrder(e: TextEngine, minConfidence: real, posts: seq<Post>,
                                                    replies: seq<Result<Json, LlmError>>)
    requires |replies| == |Unsuspicious(e, posts)|
    ensures IsSubsequence(PostsOf(Screen(e, minConfidence, posts, replies)), Unsuspicious(e, posts))
    decreases |posts|
  {
    if posts != [] {
      var p := posts[|posts| - 1];
      var init := posts[..|posts| - 1];
      var rs := if Suspicious(e, p) then replies else replies[..|replies| - 1];
      ScreenKeepsAnalysedOrder(e, minConfidence, init, rs);
      var before := PostsOf(Screen(e, minConfidence, init, rs));
      var now := PostsOf(Screen(e, minConfidence, posts, replies));
      var asked := Unsuspicious(e, init);
      var all := Unsuspicious(e, posts);
      if Suspicious(e, p) {
        assert all == asked && now == before;
      } else {
        assert all == asked + [p];
        assert all[..|all| - 1] == asked;
        var a := AnalysisOf(replies[|replies| - 1]);
        if Keep(minConfidence, a) {
          assert now == before + [p];
          assert now[..|now| - 1] == before;
        } else {
          assert now == before;
        }
      }
    }
  }

  /** What `filter_checkable` returns is an order-preserving subsequence of the posts it analysed. */
  lemma ScreenedKeepsAnalysedOrder(e: TextEngine, minConfidence: real, posts: seq<Post>, sent: seq<Exchange>,
                                   results: seq<(Post, AnalysisResult)>)
    requires Screened(e, minConfidence, posts, sent, results)
    ensures IsSubsequence(PostsOf(results), Unsuspicious(e, posts))
  {
    ScreenKeepsAnalysedOrder(e, minConfidence, posts, Replies(sent));
  }

  /** Screening with one more post at the end of the feed. */
  lemma ScreenAppend(e: TextEngine, minConfidence: real, posts: seq<Post>,
                     replies: seq<Result<Json, LlmError>>, p: Post, reply: Result<Json, LlmError>)
    requires |replies| == |Unsuspicious(e, posts)|
    ensures Unsuspicious(e, posts + [p]) == Unsuspicious(e, posts) + (if Suspicious(e, p) then [] else [p])
    ensures Suspicious(e, p) ==> Screen(e, minConfidence, posts + [p], replies) == Screen(e, minConfidence, posts, replies)
    ensures !Suspicious(e, p) ==>
              Screen(e, minConfidence, posts + [p], replies + [reply])
              == Screen(e, minConfidence, posts, replies)
                 + (if Keep(minConfidence, AnalysisOf(reply)) then [(p, AnalysisOf(reply))] else [])
  {
    assert (posts + [p])[..|posts|] == posts;
    assert (replies + [reply])[..|replies|] == replies;
  }

  function Prompts(xs: seq<Exchange>): (ps: seq<UserPrompt>)
    ensures |ps| == |xs| && forall k :: 0 <= k < |xs| ==> ps[k] == xs[k].prompt
  {
    seq(|xs|, k requires 0 <= k < |xs| => xs[k].prompt)
  }

  function Replies(xs: seq<Exchange>): (rs: seq<Result<Json, LlmError>>)
    ensures |rs| == |xs| && forall k :: 0 <= k < |xs| ==> rs[k] == xs[k].reply
  {
    seq(|xs|, k requires 0 <= k < |xs| => xs[k].reply)
  }

  function AnalyzePrompts(e: TextEngine, ps: seq<Post>): (qs: seq<UserPrompt>)
    ensures |qs| == |ps| && forall k :: 0 <= k < |ps| ==> qs[k] == AnalyzePrompt(e, ps[k])
  {
    seq(|ps|, k requires 0 <= k < |ps| => AnalyzePrompt(e, ps[k]))
  }

  /** The model calls `sent` and the `results` are those `filter_checkable` makes for `posts`. */
  ghost predicate Screened(e: TextEngine, minConfidence: real, posts: seq<Post>, sent: seq<Exchange>,
                           results: seq<(Post, AnalysisResult)>)
  {
    && |sent| == |Unsuspicious(e, posts)|
    && Prompts(sent) == AnalyzePrompts(e, Unsuspicious(e, posts))
    && results == Screen(e, minConfidence, posts, Replies(sent))
  }

  /** A suspicious post adds no model call and no result. */
  lemma ScreenedSkip(e: TextEngine, minConfidence: real, posts: seq<Post>, sent: seq<Exchange>,
                     results: seq<(Post, AnalysisResult)>, p: Post)
    requires Screened(e, minConfidence, posts, sent, results) && Suspicious(e, p)
    ensures Screened(e, minConfidence, posts + [p], sent, results)
  {
    ScreenAppend(e, minConfidence, posts, Replies(sent), p, Failure(LlmError("")));
  }

  /** Any other post adds one model call and, when kept, one result. */
  lemma ScreenedAnalyse(e: TextEngine, minConfidence: real, posts: seq<Post>, sent: seq<Exchange>,
                        results: seq<(Post, AnalysisResult)>, p: Post, ex: Exchange)
    requires Screened(e, minConfidence, posts, sent, results) && !Suspicious(e, p)
    requires ex.prompt == AnalyzePrompt(e, p)
    ensures var a := AnalysisOf(ex.reply);
            Screened(e, minConfidence, posts + [p], sent + [ex],
                     results + (if Keep(minConfidence, a) then [(p, a)] else []))
  {
    var ups := Unsuspicious(e, posts);
    ScreenAppend(e, minConfidence, posts, Replies(sent), p, ex.reply);
    assert Unsuspicious(e, posts + [p]) == ups + [p];
    PromptsAppend(sent, ex);
    AnalyzePromptsAppend(e, ups, p);
    RepliesAppend(sent, ex);
  }

  lemma PromptsAppend(xs: seq<Exchange>, x: Exchange)
    ensures Prompts(xs + [x]) == Prompts(xs) + [x.prompt]
  {
  }

  lemma RepliesAppend(xs: seq<Exchange>, x: Exchange)
    ensures Replies(xs + [x]) == Replies(xs) + [x.reply]
  {
  }

  lemma AnalyzePromptsAppend(e: TextEngine, ps: seq<Post>, p: Post)
    ensures AnalyzePrompts(e, ps + [p]) == AnalyzePrompts(e, ps) + [AnalyzePrompt(e, p)]
  {
  }

  lemma AnalyzePromptsConcat(e: TextEngine, ps: seq<Post>, qs: seq<Post>)
    ensures AnalyzePrompts(e, ps + qs) == AnalyzePrompts(e, ps) + AnalyzePrompts(e, qs)
  {
  }

  /** The `analyze` requests among the calls `xs`, in the order they were made. */
  function AnalysisRequests(xs: seq<Exchange>): (qs: seq<UserPrompt>)
    ensures |qs| <= |xs|
    ensures forall k :: 0 <= k < |qs| ==> qs[k].AnalyzePost?
  {
    if xs == [] then []
    else AnalysisRequests(xs[..|xs| - 1])
         + (if xs[|xs| - 1].prompt.AnalyzePost? then [xs[|xs| - 1].prompt] else [])
  }

  /** A call that is not an analysis adds no analysis request. */
  lemma AnalysisRequestsSnocOther(xs: seq<Exchange>, x: Exchange)
    requires !x.prompt.AnalyzePost?
    ensures AnalysisRequests(xs + [x]) == AnalysisRequests(xs)
  {
    assert (xs + [x])[..|xs|] == xs;
  }

  lemma {:induction false} AnalysisRequestsConcat(xs: seq<Exchange>, ys: seq<Exchange>)
    ensures AnalysisRequests(xs + ys) == AnalysisRequests(xs) + AnalysisRequests(ys)
    decreases |ys|
  {
    if ys == [] {
      assert xs + ys == xs;
    } else {
      var init := ys[..|ys| - 1];
      var last := ys[|ys| - 1];
      assert (xs + ys)[..|xs + ys| - 1] == xs + init;
      assert (xs + ys)[|xs + ys| - 1] == last;
      AnalysisRequestsConcat(xs, init);
    }
  }

  /** When every call was an analysis, the analysis requests are all the prompts. */
  lemma {:induction false} AnalysisRequestsOfAnalyses(xs: seq<Exchange>)
    requires forall k :: 0 <= k < |xs| ==> xs[k].prompt.AnalyzePost?
    ensures AnalysisRequests(xs) == Prompts(xs)
    decreases |xs|
  {
    if xs != [] {
      var init := xs[..|xs| - 1];
      AnalysisRequestsOfAnalyses(init);
      assert Prompts(xs) == Prompts(init) + [xs[|xs| - 1].prompt];
    }
  }

  /** Calls that asked for the analyses of `ps` add exactly those analysis requests. */
  lemma AnalysedRequests(e: TextEngine, before: seq<Exchange>, after: seq<Exchange>, ps: seq<Post>)
    requires |before| <= |after| && after[..|before|] == before
    requires Prompts(after[|before|..]) == AnalyzePrompts(e, ps)
    ensures AnalysisRequests(after) == AnalysisRequests(before) + AnalyzePrompts(e, ps)
  {
    var sent := after[|before|..];
    assert after == before + sent;
    forall k | 0 <= k < |sent|
      ensures sent[k].prompt.AnalyzePost?
    {
      assert Prompts(sent)[k] == AnalyzePrompt(e, ps[k]);
    }
    AnalysisRequestsConcat(before, sent);
    AnalysisRequestsOfAnalyses(sent);
  }

  class ContentAnalyzerService {
    const llm: LlmClient
    const engine: TextEngine
    const minConfidence: real

    /** `ContentAnalyzerService(llm, min_confidence=0.6)`. */
    constructor (llm: LlmClient, engine: TextEngine, minConfidence: real := 0.6)
      ensures this.llm == llm && this.engine == engine && this.minConfidence == minConfidence
    {
      this.llm := llm;
      this.engine := engine;
      this.minConfidence := minConfidence;
    }

    /** `analyze`: one model call with the sanitised post; every error becomes the default result. */
    method Analyze(post: Post) returns (a: AnalysisResult)
      modifies llm
      ensures |llm.exchanges| > 0 && llm.exchanges == old(llm.exchanges) + [llm.exchanges[|llm.exchanges| - 1]]
      ensures llm.exchanges[|llm.exchanges| - 1].prompt == AnalyzePrompt(engine, post)
      ensures a == AnalysisOf(llm.exchanges[|llm.exchanges| - 1].reply)
    {
      var raw := llm.GenerateJson(AnalyzePrompt(engine, post));
      a := AnalysisOf(raw);
    }

    /**
     * `filter_checkable`: suspicious posts are skipped without a model call;
     * every other post is analysed, in order, and kept when `Keep` holds.
     */
    method FilterCheckable(posts: seq<Post>) returns (results: seq<(Post, AnalysisResult)>)
      modifies llm
      ensures |llm.exchanges| >= |old(llm.exchanges)|
      ensures llm.exchanges[..|old(llm.exchanges)|] == old(llm.exchanges)
      ensures Screened(engine, minConfidence, posts, llm.exchanges[|old(llm.exchanges)|..], results)
    {
      ghost var before := llm.exchanges;
      ghost var sent: seq<Exchange> := [];
      results := [];
      var i := 0;
      while i < |posts|
        invariant 0 <= i <= |posts|
        invariant llm.exchanges == before + sent
        invariant Screened(engine, minConfidence, posts[..i], sent, results)
      {
        assert posts[..i + 1] == posts[..i] + [posts[i]];
        results, sent := ScreenOne(before, posts[..i], sent, results, posts[i]);
        i := i + 1;
      }
      assert posts[..i] == posts;
    }

    /** One turn of the `filter_checkable` loop. */
    method ScreenOne(ghost before: seq<Exchange>, ghost done: seq<Post>, ghost sent: seq<Exchange>,
                     results: seq<(Post, AnalysisResult)>, post: Post)
      returns (results': seq<(Post, AnalysisResult)>, ghost sent': seq<Exchange>)
      requires llm.exchanges == before + sent
      requires Screened(engine, minConfidence, done, sent, results)
      modifies llm
      ensures llm.exchanges == before + sent'
      ensures Screened(engine, minConfidence, done + [post], sent', results')
    {
      if Suspicious(engine, post) {
        ScreenedSkip(engine, minConfidence, done, sent, results, post);
        return results, sent;
      }
      var analysis := Analyze(post);
      ghost var ex := llm.exchanges[|llm.exchanges| - 1];
      ScreenedAnalyse(engine, minConfidence, done, sent, results, post, ex);
      sent' := sent + [ex];
      results' := results;
      if analysis.hasCheckableClaim && analysis.confidence >= minConfidence {
        results' := results + [(post, analysis)];
      }
    }
  }
}
