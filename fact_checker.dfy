/**
 * `FactCheckerService` (src/kyf/services/fact_checker.py): asks the model for
 * a reply to a post whose claim the analyzer found checkable, and re-raises
 * every failure.
 */
module FactChecker {
  import opened Wrappers
  import opened Json
  import opened MoltbookModels
  import opened LlmModels
  import opened Sanitizer
  import opened LlmClients

  /**
   * The template arguments `generate_reply` sends: the sanitised title and
   * body, and the claim summary exactly as the analysis gave it.
   */
  function FactCheckPrompt(e: TextEngine, p: Post, a: AnalysisResult): (q: UserPrompt)
    ensures q.FactCheckReply? && NoEdgeSpace(q.title) && NoEdgeSpace(q.body)
    ensures q.title == Sanitize(e, p.title)
    ensures p.body.None? || p.body == Some("") ==> q.body == ""
    ensures p.body.Some? ==> q.body == Sanitize(e, p.body.value)
    ensures a.claimSummary.None? || a.claimSummary == Some("") ==> q.claimSummary == "unspecified claim"
    ensures a.claimSummary.Some? && a.claimSummary.value != "" ==> q.claimSummary == a.claimSummary.value
  {
    FactCheckReply(Sanitize(e, p.title), Sanitize(e, OrDefault(p.body, "")),
                   OrDefault(a.claimSummary, "unspecified claim"))
  }

  /** The prompts of `generate_reply` for each checkable post, in order. */
  function FactCheckPrompts(e: TextEngine, cs: seq<(Post, AnalysisResult)>): (qs: seq<UserPrompt>)
    ensures |qs| == |cs| && forall k :: 0 <= k < |cs| ==> qs[k] == FactCheckPrompt(e, cs[k].0, cs[k].1)
  {
    if cs == [] then []
    else FactCheckPrompts(e, cs[..|cs| - 1]) + [FactCheckPrompt(e, cs[|cs| - 1].0, cs[|cs| - 1].1)]
  }

  lemma FactCheckPromptsStep(e: TextEngine, cs: seq<(Post, AnalysisResult)>, j: nat)
    requires j < |cs|
    ensures FactCheckPrompts(e, cs[..j + 1]) == FactCheckPrompts(e, cs[..j]) + [FactCheckPrompt(e, cs[j].0, cs[j].1)]
  {
    assert cs[..j + 1][..j] == cs[..j];
  }

  /** The claim summary reaches the prompt unfiltered, even when it would be flagged. */
  lemma ClaimSummaryIsNotSanitised(e: TextEngine, p: Post, a: AnalysisResult)
    requires a.claimSummary.Some? && IsSuspicious(e, a.claimSummary.value)
    ensures FactCheckPrompt(e, p, a).claimSummary == a.claimSummary.value
  {
  }

  /** What `generate_reply` returns for a reply: the validated response, or the error it re-raises. */
  function ReplyOf(reply: Result<Json, LlmError>): (r: Result<FactCheckResponse, ServiceError>)
    ensures r.Success? ==> ValidFactCheckResponse(r.value)
    ensures reply.Failure? ==> r == Failure(ModelFailed(reply.error))
  {
    Validated(reply, ValidateFactCheckResponse)
  }

  /**
   * A reply that `generate_reply` returns always makes a valid comment body:
   * the comment request fails only for an empty post id.
   */
  lemma ReplyIsACommentBody(reply: Result<Json, LlmError>, postId: string)
    requires ReplyOf(reply).Success?
    ensures CreateCommentRequestOf(postId, ReplyOf(reply).value.responseText, None).Success? <==> postId != ""
  {
    FactCheckReplyIsCommentBody(ReplyOf(reply).value, postId);
  }

  class FactCheckerService {
    const llm: LlmClient
    const engine: TextEngine

    /** `FactCheckerService(llm)`. */
    constructor (llm: LlmClient, engine: TextEngine)
      ensures this.llm == llm && this.engine == engine
    {
      this.llm := llm;
      this.engine := engine;
    }

    /** `generate_reply`: one model call; a failed call or an invalid reply is raised to the caller. */
    method GenerateReply(post: Post, analysis: AnalysisResult) returns (r: Result<FactCheckResponse, ServiceError>)
      modifies llm
      ensures |llm.exchanges| > 0 && llm.exchanges == old(llm.exchanges) + [llm.exchanges[|llm.exchanges| - 1]]
      ensures llm.exchanges[|llm.exchanges| - 1].prompt == FactCheckPrompt(engine, post, analysis)
      ensures r == ReplyOf(llm.exchanges[|llm.exchanges| - 1].reply)
    {
      var raw := llm.GenerateJson(FactCheckPrompt(engine, post, analysis));
      r := ReplyOf(raw);
    }
  }
}
