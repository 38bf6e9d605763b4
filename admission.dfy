/**
 * Prompt admission: `OpenAIServing._validate_prompt_and_tokenize`.
 *
 * A request carries either raw prompt text or pre-tokenized prompt ids. The
 * validator turns it into the final token ids and the input text, and checks
 * the token count against the model's context length. For completion and
 * chat requests with no `max_tokens` it fills in the room that is left; the
 * source writes that value into the request object, and here it comes back as
 * the updated request kind in the success value.
 */
module Admission {
  import opened Wrappers

  /** The keyword arguments the tokenizer is called with: `add_special_tokens`, and `max_length` when truncation is on. */
  datatype TokenizerKwargs = TokenizerKwargs(addSpecialTokens: Option<bool>, maxLength: Option<int>)

  /**
   * The tokenizer is a foreign library (created with left-side truncation);
   * it is modelled by two functions about which nothing is assumed.
   */
  datatype Tokenizer = Tokenizer(encode: (string, TokenizerKwargs) -> seq<int>, decode: seq<int> -> string)

  /** Embedding requests have no completion budget; completion and chat requests have an optional `max_tokens`. */
  datatype RequestKind = Embedding | Completion(maxTokens: Option<int>)

  /** The `ValueError`s the validator raises, with the numbers their messages report. */
  datatype AdmissionError =
    | NoPrompt
    | BothPrompts
    | EmbeddingTooLong(maxModelLen: int, tokenNum: int)
    | MessagesTooLong(maxModelLen: int, tokenNum: int)
    | CompletionTooLong(maxModelLen: int, tokenNum: int, maxTokens: int)

  /** The returned `(input_ids, input_text)` together with the request as the validator leaves it. */
  datatype Admitted = Admitted(inputIds: seq<int>, inputText: string, request: RequestKind)

  /** Python truthiness of the optional prompt text: `None` and `""` are both absent. */
  predicate PromptGiven(prompt: Option<string>) {
    prompt.Some? && prompt.value != ""
  }

  /** Python truthiness of the optional prompt ids: `None` and `[]` are both absent. */
  predicate PromptIdsGiven(promptIds: Option<seq<int>>) {
    promptIds.Some? && promptIds.value != []
  }

  function Min(a: int, b: int): int {
    if a <= b then a else b
  }

  /**
   * Python's `ids[-k:]` for any integer `k`: a suffix of `ids`; the last
   * min(k, |ids|) ids when k >= 1, all of them when k == 0, and all but the
   * first min(-k, |ids|) when k < 0.
   */
  function KeepLast(ids: seq<int>, k: int): (r: seq<int>)
    ensures |r| <= |ids| && r == ids[|ids| - |r|..]
    ensures k >= 1 ==> |r| == Min(k, |ids|)
    ensures k == 0 ==> r == ids
    ensures k < 0 ==> |r| == |ids| - Min(-k, |ids|)
  {
    var start := -k;
    var from :=
      if start < 0 then (if start + |ids| < 0 then 0 else start + |ids|)
      else (if start > |ids| then |ids| else start);
    ids[from..]
  }

  /**
   * The tokenization step: the token ids and the input text, once exactly
   * one of the prompt and the prompt ids is present. The branch is chosen by
   * `prompt_ids is None`, not by truthiness, and the text is the prompt
   * whenever the prompt is not `None`.
   */
  function Tokenize(tokenizer: Tokenizer, prompt: Option<string>, promptIds: Option<seq<int>>,
                    truncatePromptTokens: Option<int>, addSpecialTokens: Option<bool>): (r: (seq<int>, string))
    requires PromptGiven(prompt) != PromptIdsGiven(promptIds)
    ensures prompt.Some? ==> r.1 == prompt.value
    ensures promptIds.Some? && truncatePromptTokens.None? ==> r.0 == promptIds.value
    ensures promptIds.Some? ==> |r.0| <= |promptIds.value|
  {
    var inputIds :=
      if promptIds.None? then
        tokenizer.encode(prompt.value, TokenizerKwargs(addSpecialTokens, truncatePromptTokens))
      else if truncatePromptTokens.Some? then
        KeepLast(promptIds.value, truncatePromptTokens.value)
      else
        promptIds.value;
    var inputText := if prompt.Some? then prompt.value else tokenizer.decode(promptIds.value);
    (inputIds, inputText)
  }

  /** `_validate_prompt_and_tokenize` against a model whose context length is `maxModelLen`. */
  function ValidatePromptAndTokenize(tokenizer: Tokenizer, maxModelLen: int, request: RequestKind,
                                     prompt: Option<string>, promptIds: Option<seq<int>>,
                                     truncatePromptTokens: Option<int>, addSpecialTokens: Option<bool>)
    : (r: Result<Admitted, AdmissionError>)
    ensures r.Ok? ==> PromptGiven(prompt) != PromptIdsGiven(promptIds)
    ensures r.Ok? ==> r.value.request.Embedding? == request.Embedding?
    ensures r.Ok? && request.Embedding? ==> |r.value.inputIds| <= maxModelLen
    ensures r.Ok? && request.Completion? ==>
              r.value.request.maxTokens.Some? && |r.value.inputIds| + r.value.request.maxTokens.value <= maxModelLen
  {
    if !(PromptGiven(prompt) || PromptIdsGiven(promptIds)) then Err(NoPrompt)
    else if PromptGiven(prompt) && PromptIdsGiven(promptIds) then Err(BothPrompts)
    else
      var (inputIds, inputText) := Tokenize(tokenizer, prompt, promptIds, truncatePromptTokens, addSpecialTokens);
      var tokenNum := |inputIds|;
      match request
      case Embedding =>
        if tokenNum > maxModelLen then Err(EmbeddingTooLong(maxModelLen, tokenNum))
        else Ok(Admitted(inputIds, inputText, Embedding))
      case Completion(maxTokens) =>
        if maxTokens.None? && tokenNum >= maxModelLen then Err(MessagesTooLong(maxModelLen, tokenNum))
        else
          var budget := if maxTokens.None? then maxModelLen - tokenNum else maxTokens.value;
          if tokenNum + budget > maxModelLen then Err(CompletionTooLong(maxModelLen, tokenNum, budget))
          else Ok(Admitted(inputIds, inputText, Completion(Some(budget))))
  }

  /** Neither or both of the prompt and the prompt ids present (by truthiness) is rejected, and only then. */
  lemma PresenceRule(tokenizer: Tokenizer, maxModelLen: int, request: RequestKind,
                     prompt: Option<string>, promptIds: Option<seq<int>>,
                     truncatePromptTokens: Option<int>, addSpecialTokens: Option<bool>)
    ensures var r := ValidatePromptAndTokenize(tokenizer, maxModelLen, request, prompt, promptIds,
                                               truncatePromptTokens, addSpecialTokens);
            && (r == Err(NoPrompt) <==> !PromptGiven(prompt) && !PromptIdsGiven(promptIds))
            && (r == Err(BothPrompts) <==> PromptGiven(prompt) && PromptIdsGiven(promptIds))
  {
  }

  /**
   * With prompt ids and `truncate_prompt_tokens = k >= 1` the ids are the
   * last min(k, |ids|) of them; without `k` they are the ids unchanged; when
   * no prompt text was passed the text is the decoding of the ORIGINAL ids.
   */
  lemma PromptIdsTruncation(tokenizer: Tokenizer, maxModelLen: int, request: RequestKind,
                            promptIds: seq<int>, truncatePromptTokens: Option<int>, addSpecialTokens: Option<bool>)
    requires promptIds != []
    ensures var r := ValidatePromptAndTokenize(tokenizer, maxModelLen, request, None, Some(promptIds),
                                               truncatePromptTokens, addSpecialTokens);
            r.Ok? ==>
              && (truncatePromptTokens.Some? && truncatePromptTokens.value >= 1 ==>
                    r.value.inputIds == promptIds[|promptIds| - Min(truncatePromptTokens.value, |promptIds|)..])
              && (truncatePromptTokens.None? ==> r.value.inputIds == promptIds)
              && r.value.inputText == tokenizer.decode(promptIds)
  {
  }

  /**
   * The ids branch is chosen by `prompt_ids is None`: a prompt given together
   * with an empty id list passes the presence check, is never tokenized, and
   * is admitted with zero tokens; its text is still the prompt.
   */
  lemma EmptyPromptIdsShadowPrompt(tokenizer: Tokenizer, maxModelLen: int, request: RequestKind,
                                   prompt: string, truncatePromptTokens: Option<int>, addSpecialTokens: Option<bool>)
    requires prompt != ""
    requires request.Embedding? ==> 0 <= maxModelLen
    requires request.Completion? ==> (if request.maxTokens.None? then 0 < maxModelLen else request.maxTokens.value <= maxModelLen)
    ensures var r := ValidatePromptAndTokenize(tokenizer, maxModelLen, request, Some(prompt), Some([]),
                                               truncatePromptTokens, addSpecialTokens);
            r.Ok? && r.value.inputIds == [] && r.value.inputText == prompt
  {
  }

  /**
   * With raw prompt text the tokenizer is called with the request's
   * `add_special_tokens` and, when set, `max_length`; if the tokenizer keeps
   * at most `max_length` tokens then the admitted ids number at most `k`.
   */
  lemma PromptTextTokenized(tokenizer: Tokenizer, maxModelLen: int, request: RequestKind,
                            prompt: string, truncatePromptTokens: Option<int>, addSpecialTokens: Option<bool>)
    requires prompt != ""
    requires forall text, special, k :: k >= 1 ==>
               |tokenizer.encode(text, TokenizerKwargs(special, Some(k)))| <= k
    ensures var r := ValidatePromptAndTokenize(tokenizer, maxModelLen, request, Some(prompt), None,
                                               truncatePromptTokens, addSpecialTokens);
            r.Ok? ==>
              && r.value.inputIds == tokenizer.encode(prompt, TokenizerKwargs(addSpecialTokens, truncatePromptTokens))
              && r.value.inputText == prompt
              && (truncatePromptTokens.Some? && truncatePromptTokens.value >= 1 ==>
                    |r.value.inputIds| <= truncatePromptTokens.value)
  {
  }

  /** An embedding request is admitted iff its token count is at most the context length; it has no budget to fill in. */
  lemma EmbeddingAdmission(tokenizer: Tokenizer, maxModelLen: int,
                           prompt: Option<string>, promptIds: Option<seq<int>>,
                           truncatePromptTokens: Option<int>, addSpecialTokens: Option<bool>)
    requires PromptGiven(prompt) != PromptIdsGiven(promptIds)
    ensures var n := |Tokenize(tokenizer, prompt, promptIds, truncatePromptTokens, addSpecialTokens).0|;
            var r := ValidatePromptAndTokenize(tokenizer, maxModelLen, Embedding, prompt, promptIds,
                                               truncatePromptTokens, addSpecialTokens);
            && (r.Ok? <==> n <= maxModelLen)
            && (r.Ok? ==> r.value.request == Embedding)
            && (r.Err? ==> r.error == EmbeddingTooLong(maxModelLen, n))
  {
  }

  /**
   * A completion or chat request without `max_tokens` is refused iff its
   * token count reaches the context length; otherwise `max_tokens` becomes
   * the room left, which is at least one token.
   */
  lemma DefaultMaxTokens(tokenizer: Tokenizer, maxModelLen: int,
                         prompt: Option<string>, promptIds: Option<seq<int>>,
                         truncatePromptTokens: Option<int>, addSpecialTokens: Option<bool>)
    requires PromptGiven(prompt) != PromptIdsGiven(promptIds)
    ensures var n := |Tokenize(tokenizer, prompt, promptIds, truncatePromptTokens, addSpecialTokens).0|;
            var r := ValidatePromptAndTokenize(tokenizer, maxModelLen, Completion(None), prompt, promptIds,
                                               truncatePromptTokens, addSpecialTokens);
            && (r.Ok? <==> n < maxModelLen)
            && (r.Ok? ==> r.value.request == Completion(Some(maxModelLen - n)) && maxModelLen - n >= 1)
            && (r.Err? ==> r.error == MessagesTooLong(maxModelLen, n))
  {
  }

  /**
   * An explicit `max_tokens` is admitted iff prompt and completion fit in
   * the context length together; it is left as it was, and a refusal reports
   * the context length, the token count and the requested completion length.
   */
  lemma ExplicitMaxTokens(tokenizer: Tokenizer, maxModelLen: int, maxTokens: int,
                          prompt: Option<string>, promptIds: Option<seq<int>>,
                          truncatePromptTokens: Option<int>, addSpecialTokens: Option<bool>)
    requires PromptGiven(prompt) != PromptIdsGiven(promptIds)
    ensures var n := |Tokenize(tokenizer, prompt, promptIds, truncatePromptTokens, addSpecialTokens).0|;
            var r := ValidatePromptAndTokenize(tokenizer, maxModelLen, Completion(Some(maxTokens)), prompt, promptIds,
                                               truncatePromptTokens, addSpecialTokens);
            && (r.Ok? <==> n + maxTokens <= maxModelLen)
            && (r.Ok? ==> r.value.request == Completion(Some(maxTokens)))
            && (r.Err? ==> r.error == CompletionTooLong(maxModelLen, n, maxTokens))
  {
  }

  /**
   * Worked cases for a context length of 10, with six or more pre-tokenized
   * ids: six ids leave room for 4; ten ids leave none; six ids plus 5
   * requested is too long and plus 4 fits; an embedding of 11 ids is too
   * long and one of 10 fits.
   */
  lemma ContextWindowExamples(tokenizer: Tokenizer)
    ensures var six, ten, eleven := [1, 2, 3, 4, 5, 6], [1, 2, 3, 4, 5, 6, 7, 8, 9, 10], [1, 2, 3, 4, 5, 6, 7, 8, 9, 10, 11];
            && ValidatePromptAndTokenize(tokenizer, 10, Completion(None), None, Some(six), None, Some(true))
               == Ok(Admitted(six, tokenizer.decode(six), Completion(Some(4))))
            && ValidatePromptAndTokenize(tokenizer, 10, Completion(None), None, Some(ten), None, Some(true))
               == Err(MessagesTooLong(10, 10))
            && ValidatePromptAndTokenize(tokenizer, 10, Completion(Some(5)), None, Some(six), None, Some(true))
               == Err(CompletionTooLong(10, 6, 5))
            && ValidatePromptAndTokenize(tokenizer, 10, Completion(Some(4)), None, Some(six), None, Some(true)).Ok?
            && ValidatePromptAndTokenize(tokenizer, 10, Embedding, None, Some(eleven), None, Some(true))
               == Err(EmbeddingTooLong(10, 11))
            && ValidatePromptAndTokenize(tokenizer, 10, Embedding, None, Some(ten), None, Some(true)).Ok?
  {
  }
}
