/**
 * The language model's reply schemas (src/kyf/models/llm.py) and how
 * `model_validate` turns a decoded JSON reply into one of them.
 * Floats are modelled as reals: only their ordering is used here.
 */
module LlmModels {
  import opened Wrappers
  import opened Json
  import opened JsonFields
  import MoltbookModels

  datatype ValidationError = ValidationError(model: string)

  datatype LlmConfig = LlmConfig(model: string, temperature: real, maxOutputTokens: int)

  predicate ValidLlmConfig(c: LlmConfig) {
    0.0 <= c.temperature <= 2.0 && c.maxOutputTokens > 0
  }

  /** `LLMConfig()` with every field at its default; the defaults satisfy the constraints. */
  function DefaultLlmConfig(): (c: LlmConfig)
    ensures ValidLlmConfig(c)
    ensures c.maxOutputTokens == 1024 && c.temperature == 0.8
  {
    LlmConfig("llama-3.3-70b-versatile", 0.8, 1024)
  }

  // ---- AnalysisResult ----

  datatype AnalysisResult = AnalysisResult(
    hasCheckableClaim: bool,
    claimSummary: Option<string>,
    confidence: real,
    reasoning: Option<string>)

  predicate ValidAnalysisResult(a: AnalysisResult) {
    0.0 <= a.confidence <= 1.0
  }

  /** `AnalysisResult(has_checkable_claim=b, reasoning=...)`: the other fields take their defaults. */
  function NewAnalysisResult(hasCheckableClaim: bool, reasoning: Option<string>): (a: AnalysisResult)
    ensures ValidAnalysisResult(a)
    ensures a.hasCheckableClaim == hasCheckableClaim && a.reasoning == reasoning
    ensures a.claimSummary.None? && a.confidence == 0.0
  {
    AnalysisResult(hasCheckableClaim, None, 0.0, reasoning)
  }

  /**
   * What `AnalysisResult.model_validate` accepts: an object with a boolean
   * `has_checkable_claim`, optional string-or-null summary and reasoning, and
   * an optional number `confidence` within [0, 1].
   */
  predicate AnalysisShaped(j: Json) {
    j.JObject?
    && "has_checkable_claim" in j.fields && j.fields["has_checkable_claim"].JBool?
    && NullOrString(j.fields, "claim_summary") && NullOrString(j.fields, "reasoning")
    && ("confidence" in j.fields ==> j.fields["confidence"].JNumber? && 0.0 <= j.fields["confidence"].n <= 1.0)
  }

  function ValidateAnalysisResult(j: Json): (r: Result<AnalysisResult, ValidationError>)
    ensures r.Success? <==> AnalysisShaped(j)
    ensures r.Success? ==> ValidAnalysisResult(r.value)
    ensures r.Success? && "confidence" in j.fields ==> r.value.confidence == j.fields["confidence"].n
    ensures r.Success? ==> j.JObject? && "has_checkable_claim" in j.fields
                           && j.fields["has_checkable_claim"] == JBool(r.value.hasCheckableClaim)
    ensures r.Success? && j.JObject? && "confidence" !in j.fields ==> r.value.confidence == 0.0
    ensures r.Success? && j.JObject? && "claim_summary" !in j.fields ==> r.value.claimSummary.None?
  {
    if !j.JObject? then Failure(ValidationError("AnalysisResult"))
    else
      var m := j.fields;
      match (RequiredBool(m, "has_checkable_claim"), OptionalString(m, "claim_summary"),
             RealOr(m, "confidence", 0.0), OptionalString(m, "reasoning"))
      case (Some(has), Some(summary), Some(conf), Some(why)) =>
        var a := AnalysisResult(has, summary, conf, why);
        if ValidAnalysisResult(a) then Success(a) else Failure(ValidationError("AnalysisResult"))
      case _ => Failure(ValidationError("AnalysisResult"))
  }

  // ---- FactCheckResponse ----

  datatype FactCheckResponse = FactCheckResponse(responseText: string, verdict: string, sourcesUsed: seq<string>)

  predicate ValidFactCheckResponse(f: FactCheckResponse) {
    1 <= |f.responseText| <= 5000
  }

  /**
   * What `FactCheckResponse.model_validate` accepts: an object with a string
   * `response_text` of 1 to 5000 characters, a string `verdict`, and an
   * optional list of strings `sources_used`.
   */
  predicate FactCheckShaped(j: Json) {
    j.JObject?
    && "response_text" in j.fields && j.fields["response_text"].JString?
    && 1 <= |j.fields["response_text"].s| <= 5000
    && "verdict" in j.fields && j.fields["verdict"].JString?
    && ("sources_used" in j.fields ==>
          j.fields["sources_used"].JArray?
          && forall i :: 0 <= i < |j.fields["sources_used"].items| ==> j.fields["sources_used"].items[i].JString?)
  }

  function ValidateFactCheckResponse(j: Json): (r: Result<FactCheckResponse, ValidationError>)
    ensures r.Success? <==> FactCheckShaped(j)
    ensures r.Success? ==> ValidFactCheckResponse(r.value)
    ensures r.Success? ==> r.value.responseText == j.fields["response_text"].s
    ensures r.Success? ==> j.JObject? && "verdict" in j.fields && j.fields["verdict"] == JString(r.value.verdict)
    ensures r.Success? && "sources_used" !in j.fields ==> r.value.sourcesUsed == []
  {
    if !j.JObject? then Failure(ValidationError("FactCheckResponse"))
    else
      var m := j.fields;
      match (RequiredString(m, "response_text"), RequiredString(m, "verdict"), StringListOr(m, "sources_used"))
      case (Some(text), Some(verdict), Some(sources)) =>
        var f := FactCheckResponse(text, verdict, sources);
        if ValidFactCheckResponse(f) then Success(f) else Failure(ValidationError("FactCheckResponse"))
      case _ => Failure(ValidationError("FactCheckResponse"))
  }

  /**
   * The reply text bounds equal those of a comment body, so a validated
   * fact-check reply becomes a comment exactly when the post id is non-empty.
   */
  lemma FactCheckReplyIsCommentBody(f: FactCheckResponse, postId: string)
    requires ValidFactCheckResponse(f)
    ensures MoltbookModels.CreateCommentRequestOf(postId, f.responseText, None).Success? <==> postId != ""
  {
  }

  // ---- CommentReplyResponse ----

  datatype CommentReplyResponse = CommentReplyResponse(responseText: string)

  predicate ValidCommentReplyResponse(c: CommentReplyResponse) {
    1 <= |c.responseText| <= 2000
  }

  function ValidateCommentReplyResponse(j: Json): (r: Result<CommentReplyResponse, ValidationError>)
    ensures r.Success? <==> j.JObject? && "response_text" in j.fields && j.fields["response_text"].JString?
                            && 1 <= |j.fields["response_text"].s| <= 2000
    ensures r.Success? ==> ValidCommentReplyResponse(r.value)
    ensures r.Success? ==> j.JObject? && j.fields.Keys >= {"response_text"}
    ensures r.Success? ==> r.value.responseText == j.fields["response_text"].s
  {
    if !j.JObject? then Failure(ValidationError("CommentReplyResponse"))
    else
      match RequiredString(j.fields, "response_text")
      case Some(text) =>
        if ValidCommentReplyResponse(CommentReplyResponse(text)) then Success(CommentReplyResponse(text))
        else Failure(ValidationError("CommentReplyResponse"))
      case None => Failure(ValidationError("CommentReplyResponse"))
  }

  /** A conversational reply is also short enough for a comment body. */
  lemma CommentReplyIsCommentBody(c: CommentReplyResponse, postId: string, parentId: string)
    requires ValidCommentReplyResponse(c) && postId != ""
    ensures MoltbookModels.CreateCommentRequestOf(postId, c.responseText, Some(parentId)).Success?
  {
  }

  // ---- OriginalPostContent ----

  datatype OriginalPostContent = OriginalPostContent(
    title: string, body: string, targetSubmolt: string, topicCategory: Option<string>)

  predicate ValidOriginalPostContent(c: OriginalPostContent) {
    1 <= |c.title| <= 300 && 1 <= |c.body| <= 10000
  }

  /**
   * What `OriginalPostContent.model_validate` accepts: an object with a string
   * `title` of 1 to 300 characters, a string `body` of 1 to 10000 characters,
   * an optional string `target_submolt` and an optional string-or-null
   * `topic_category`.
   */
  predicate PostContentShaped(j: Json) {
    j.JObject?
    && "title" in j.fields && j.fields["title"].JString? && 1 <= |j.fields["title"].s| <= 300
    && "body" in j.fields && j.fields["body"].JString? && 1 <= |j.fields["body"].s| <= 10000
    && ("target_submolt" in j.fields ==> j.fields["target_submolt"].JString?)
    && NullOrString(j.fields, "topic_category")
  }

  function ValidateOriginalPostContent(j: Json): (r: Result<OriginalPostContent, ValidationError>)
    ensures r.Success? <==> PostContentShaped(j)
    ensures r.Success? ==> ValidOriginalPostContent(r.value)
    ensures r.Success? ==> r.value.title == j.fields["title"].s && r.value.body == j.fields["body"].s
    ensures r.Success? && "target_submolt" in j.fields ==> r.value.targetSubmolt == j.fields["target_submolt"].s
    ensures r.Success? ==> j.JObject? && ("target_submolt" !in j.fields ==> r.value.targetSubmolt == "science")
    ensures r.Success? ==> j.JObject? && ("topic_category" !in j.fields ==> r.value.topicCategory.None?)
  {
    if !j.JObject? then Failure(ValidationError("OriginalPostContent"))
    else
      var m := j.fields;
      match (RequiredString(m, "title"), RequiredString(m, "body"),
             StringOr(m, "target_submolt", "science"), OptionalString(m, "topic_category"))
      case (Some(title), Some(body), Some(submolt), Some(category)) =>
        var c := OriginalPostContent(title, body, submolt, category);
        if ValidOriginalPostContent(c) then Success(c) else Failure(ValidationError("OriginalPostContent"))
      case _ => Failure(ValidationError("OriginalPostContent"))
  }

  /**
   * A generated post's title and body always fit a CreatePostRequest, but its
   * target submolt has no minimum length: the request is valid exactly when
   * the submolt is non-empty.
   */
  lemma OriginalPostFitsCreatePost(c: OriginalPostContent)
    requires ValidOriginalPostContent(c)
    ensures MoltbookModels.CreatePostRequestOf(c.title, Some(c.body), None, c.targetSubmolt).Success?
            <==> c.targetSubmolt != ""
  {
  }

  /** A reply the model may legally give whose post can never be published. */
  lemma EmptyTargetSubmoltPassesValidation()
    ensures var j := JObject(map["title" := JString("t"), "body" := JString("b"), "target_submolt" := JString("")]);
            && ValidateOriginalPostContent(j).Success?
            && ValidateOriginalPostContent(j).value.targetSubmolt == ""
            && MoltbookModels.CreatePostRequestOf("t", Some("b"), None, "").Failure?
  {
    var j := JObject(map["title" := JString("t"), "body" := JString("b"), "target_submolt" := JString("")]);
    assert "title" in j.fields && "body" in j.fields && "target_submolt" in j.fields;
    assert "topic_category" !in j.fields;
  }
}
