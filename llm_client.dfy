/**
 * The language model as the services see it (`LLMClient.generate_json` in
 * src/kyf/clients/llm_client.py): a prompt goes in, a decoded JSON value or
 * an error comes out. Every call is sent with the fixed system persona, so
 * only the user prompt is recorded. The prompt texts of
 * src/kyf/prompts/templates.py are fixed; a prompt is modelled by the
 * arguments filled into its template.
 */
module LlmClients {
  import opened Wrappers
  import opened Json
  import LlmModels

  datatype UserPrompt =
    | AnalyzePost(title: string, body: string, submolt: string)
    | FactCheckReply(title: string, body: string, claimSummary: string)
    | CreateOriginalPost(category: string, submolt: string)

  /** A provider failure or a reply that is not JSON. */
  datatype LlmError = LlmError(message: string)

  /** What a service raises: the model call failed, or its reply did not validate. */
  datatype ServiceError =
    | ModelFailed(modelError: LlmError)
    | InvalidReply(validationError: LlmModels.ValidationError)
  {
    /** `str(e)`; the wording of pydantic's message is not modelled beyond the model name. */
    function Describe(): string {
      match this
      case ModelFailed(e) => e.message
      case InvalidReply(v) => "validation error for " + v.model
    }
  }

  /**
   * What a service that re-raises makes of a reply: the value `validate`
   * accepts, or the model's error, or the validation error.
   */
  function Validated<T>(reply: Result<Json, LlmError>, validate: Json -> Result<T, LlmModels.ValidationError>)
    : (r: Result<T, ServiceError>)
    ensures r.Success? <==> reply.Success? && validate(reply.value).Success?
    ensures r.Success? ==> r.value == validate(reply.value).value
    ensures reply.Failure? ==> r == Failure(ModelFailed(reply.error))
    ensures reply.Success? && validate(reply.value).Failure? ==> r == Failure(InvalidReply(validate(reply.value).error))
  {
    match reply
    case Failure(e) => Failure(ModelFailed(e))
    case Success(j) =>
      match validate(j)
      case Success(v) => Success(v)
      case Failure(v) => Failure(InvalidReply(v))
  }

  datatype Exchange = Exchange(prompt: UserPrompt, reply: Result<Json, LlmError>)

  class LlmClient {
    /** Every call so far, in order, with the reply it got. */
    ghost var exchanges: seq<Exchange>

    constructor ()
      ensures exchanges == []
    {
      exchanges := [];
    }

    /** `generate_json(system_prompt=SYSTEM_PERSONA, user_prompt=...)`: any reply is possible. */
    method GenerateJson(prompt: UserPrompt) returns (r: Result<Json, LlmError>)
      modifies this
      ensures exchanges == old(exchanges) + [Exchange(prompt, r)]
    {
      r :| true;
      exchanges := exchanges + [Exchange(prompt, r)];
    }
  }
}
