/**
 * `PostCreatorService` (src/kyf/services/post_creator.py): picks a topic and
 * a target submolt, asks the model for an original post, and re-raises every
 * failure.
 */
module PostCreator {
  import opened Wrappers
  import opened Json
  import opened LlmModels
  import opened LlmClients

  const TopicCategories: seq<string> := [
    "tech_and_ai_hype",
    "startup_myths",
    "popular_science",
    "life_advice_bs",
    "crypto_and_finance",
    "health_and_wellness",
    "journalism_and_media"
  ]

  const CategoryToSubmolt: map<string, string> := map[
    "tech_and_ai_hype" := "ai-ethics",
    "startup_myths" := "economics",
    "popular_science" := "science",
    "life_advice_bs" := "selfimprovement",
    "crypto_and_finance" := "finance",
    "health_and_wellness" := "health",
    "journalism_and_media" := "random"
  ]

  const DefaultSubmolt: string := "science"

  /** `CATEGORY_TO_SUBMOLT.get(topic, DEFAULT_SUBMOLT)`. */
  function SubmoltOf(topic: string): (s: string)
    ensures s != ""
    ensures topic !in CategoryToSubmolt ==> s == DefaultSubmolt
  {
    if topic in CategoryToSubmolt then CategoryToSubmolt[topic] else DefaultSubmolt
  }

  /** `submolt or CATEGORY_TO_SUBMOLT.get(topic, DEFAULT_SUBMOLT)`: never empty, and an explicit submolt wins. */
  function TargetSubmolt(topic: string, submolt: Option<string>): (s: string)
    ensures s != ""
    ensures submolt.Some? && submolt.value != "" ==> s == submolt.value
    ensures submolt.None? || submolt == Some("") ==> s == SubmoltOf(topic)
  {
    OrDefault(submolt, SubmoltOf(topic))
  }

  /**
   * The table covers every topic of the list, and holds these seven pairs; so
   * a topic drawn from the list never falls back to the default.
   */
  lemma TopicTable()
    ensures |TopicCategories| == 7
    ensures forall t :: t in TopicCategories ==> t in CategoryToSubmolt
    ensures SubmoltOf("tech_and_ai_hype") == "ai-ethics" && SubmoltOf("startup_myths") == "economics"
    ensures SubmoltOf("popular_science") == "science" && SubmoltOf("life_advice_bs") == "selfimprovement"
    ensures SubmoltOf("crypto_and_finance") == "finance" && SubmoltOf("health_and_wellness") == "health"
    ensures SubmoltOf("journalism_and_media") == "random"
  {
  }

  /** What `create_post` returns for a reply: the validated content, or the error it re-raises. */
  function ContentOf(reply: Result<Json, LlmError>): (r: Result<OriginalPostContent, ServiceError>)
    ensures r.Success? ==> ValidOriginalPostContent(r.value)
    ensures reply.Failure? ==> r == Failure(ModelFailed(reply.error))
  {
    Validated(reply, ValidateOriginalPostContent)
  }

  class PostCreatorService {
    const llm: LlmClient

    /** `PostCreatorService(llm)`. */
    constructor (llm: LlmClient)
      ensures this.llm == llm
    {
      this.llm := llm;
    }

    /**
     * `create_post(category, submolt)`: a missing or empty category is replaced
     * by some entry of the topic list (`random.choice`); one model call follows.
     */
    method CreatePost(category: Option<string> := None, submolt: Option<string> := None)
      returns (r: Result<OriginalPostContent, ServiceError>)
      modifies llm
      ensures |llm.exchanges| > 0 && llm.exchanges == old(llm.exchanges) + [llm.exchanges[|llm.exchanges| - 1]]
      ensures var q := llm.exchanges[|llm.exchanges| - 1].prompt;
              && q.CreateOriginalPost?
              && (category.Some? && category.value != "" ==> q.category == category.value)
              && (category.None? || category == Some("") ==> q.category in TopicCategories)
              && q.submolt == TargetSubmolt(q.category, submolt)
      ensures r == ContentOf(llm.exchanges[|llm.exchanges| - 1].reply)
    {
      assert TopicCategories[0] in TopicCategories;
      var drawn: string :| drawn in TopicCategories;
      var topic := OrDefault(category, drawn);
      var raw := llm.GenerateJson(CreateOriginalPost(topic, TargetSubmolt(topic, submolt)));
      r := ContentOf(raw);
    }
  }
}
