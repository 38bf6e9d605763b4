# Request admission and adapter registry of vLLM's OpenAI-compatible server

This project models, in Dafny, the core of `OpenAIServing` in
`vllm/entrypoints/openai/serving_engine.py`: the layer between the
OpenAI-compatible HTTP API and the generation engine. It covers three pieces.

- **Prompt admission** (`Admission`). `_validate_prompt_and_tokenize` checks that exactly one
  of `prompt` / `prompt_ids` is present (by Python truthiness). It tokenizes the prompt or
  suffix-truncates the ids. It then enforces the context length `max_model_len` and fills in a
  missing `max_tokens`. The function returns either the admitted ids, text and updated request,
  or an error carrying the numbers the source's message reports.
- **Model-name resolution** (`Serving.ModelNotFound`, `Serving.AvailableModels`, `Serving.OpenAIServing.MaybeGetLora`).
  Served names are checked before adapter names. The read-only scan of `_maybe_get_lora` is a
  method of the class with a loop over its registry. It raises exactly when `_check_model` would have reported a 404.
- **The LoRA adapter registry** (`LoraRegistry`, `Serving.OpenAIServing`). This is the ordered list
  `lora_requests` of (name, id, path) entries.
  - The pure functions give what `_get_lora_id`, `_add_lora` and `_remove_lora` do to the list.
    `AddLoraModuleResult` and `RemoveLoraModuleResult` give the response and new registry of
    the two administration calls.
  - The class `OpenAIServing` holds the configuration as constants and the list as a mutable field. Its
    methods update the list in place, and thin methods run the pure functions on the object's own fields.
    Each method's postcondition ties the new state to those functions.
  - What the engine's `add_lora` / `remove_lora` came back with is an input, `EngineCall`.

The model follows the code, including where it differs from the design intent:

- **Ids can collide.** Ids are `len(lora_requests) + 1`, so after a removal a new adapter can get
  an id a surviving adapter still has (`LoraRegistry.IdCollision`). Only the ids given at
  construction are distinct. If `LoRARequest` compares by id, `list.remove` after such a collision
  deletes the wrong adapter (`LoraRegistry.RemoveAfterCollision`), and a failed add can drop a
  surviving adapter instead of rolling back (`Serving.RollbackAfterCollision`).
- **`_add_lora` returns the last entry.** It does so even when the name was already registered.
  The engine call and any rollback then target that entry. A failed re-add can therefore drop
  another adapter from the registry (`Serving.ReAddFailureDropsLastAdapter`). The rollback is
  exact only for a new name.
- **The text decodes the original ids.** For `prompt_ids`, the text is the decoding of the
  original, untruncated ids.
- **The prompt text wins for the text.** When `prompt` is not `None`, the text is `prompt`,
  even when it is `""`.
- **The ids branch is chosen by `is None`.** A non-empty prompt with `prompt_ids == []` is
  admitted with zero tokens (`Admission.EmptyPromptIdsShadowPrompt`).
- **`_maybe_get_lora` raises `ValueError`.** An unknown name gives
  `Err(ModelDoesNotExist(model))`.

## Model

| member | source | states |
|---|---|---|
| `Admission.KeepLast` | vllm/entrypoints/openai/serving_engine.py:169-170 | `ids[-k:]` is a suffix of the ids; for k ≥ 1 its length is min(k, len(ids)), for k = 0 it is all ids, for k < 0 all but the first min(-k, len(ids)) |
| `Admission.Tokenize` | vllm/entrypoints/openai/serving_engine.py:153-176 | the text is the prompt whenever one is passed; untruncated ids are kept as given; truncation never lengthens the ids |
| `Admission.ValidatePromptAndTokenize` | vllm/entrypoints/openai/serving_engine.py:137-206 | an admitted request had exactly one of prompt / prompt ids, keeps its kind, an embedding fits the context length, and a completion ends with a `max_tokens` such that tokens + `max_tokens` ≤ `max_model_len` |
| `Admission.PresenceRule` | vllm/entrypoints/openai/serving_engine.py:147-151 | "no prompt" exactly when both are falsy ("" and [] count as absent), "both prompts" exactly when both are truthy |
| `Admission.PromptIdsTruncation` | vllm/entrypoints/openai/serving_engine.py:169-175 | with ids and k ≥ 1 the admitted ids are the last min(k, len(ids)) ids, without k the ids unchanged, and the text is the decoding of the original ids |
| `Admission.EmptyPromptIdsShadowPrompt` | vllm/entrypoints/openai/serving_engine.py:147-175 | a non-empty prompt with `prompt_ids == []` passes the presence check, is never tokenized, and is admitted with no tokens and the prompt as text |
| `Admission.PromptTextTokenized` | vllm/entrypoints/openai/serving_engine.py:160-168 | prompt text is tokenized with the request's `add_special_tokens` and `max_length`; if the tokenizer honours `max_length`, at most k tokens are admitted |
| `Admission.EmbeddingAdmission` | vllm/entrypoints/openai/serving_engine.py:176-186 | an embedding request is admitted iff n ≤ L, stays an embedding request (no `max_tokens`), and otherwise fails reporting L and n |
| `Admission.DefaultMaxTokens` | vllm/entrypoints/openai/serving_engine.py:188-195 | with `max_tokens` unset: refused iff n ≥ L (reporting L and n); otherwise `max_tokens` becomes L − n, which is ≥ 1 |
| `Admission.ExplicitMaxTokens` | vllm/entrypoints/openai/serving_engine.py:197-206 | with `max_tokens` set: admitted iff n + `max_tokens` ≤ L, left unchanged, otherwise refused reporting L, n and `max_tokens` |
| `Admission.ContextWindowExamples` | vllm/entrypoints/openai/serving_engine.py:179-206 | for L = 10: 6 ids get `max_tokens` 4, 10 ids fail, 6 + 5 fails, 6 + 4 fits, an 11-id embedding fails, a 10-id one fits |
| `LoraRegistry.LoraNames` | vllm/entrypoints/openai/serving_engine.py:118 | the adapter names, one per entry, in registry order |
| `LoraRegistry.FirstNamed` | vllm/entrypoints/openai/serving_engine.py:214 | the `next(...)` scan finds nothing iff no entry has the name, and otherwise the least position that has it |
| `LoraRegistry.InitialLoraRequests` | vllm/entrypoints/openai/serving_engine.py:52-61 | no modules give an empty registry; otherwise entry i is module i with id i + 1 |
| `LoraRegistry.InitialIdsDistinct` | vllm/entrypoints/openai/serving_engine.py:55-61 | the constructed registry's ids lie in 1..n and are pairwise distinct |
| `LoraRegistry.GetLoraId` | vllm/entrypoints/openai/serving_engine.py:213-215 | `None` iff the name is not registered, otherwise the id of the first entry with that name |
| `LoraRegistry.ListRemove` | vllm/entrypoints/openai/serving_engine.py:220 | `list.remove` of a present element shortens the list by one |
| `LoraRegistry.ListRemoveAt` | vllm/entrypoints/openai/serving_engine.py:220 | if position i holds an element equal to x and no earlier one does, `list.remove(x)` deletes exactly position i |
| `LoraRegistry.ListRemoveDeletes` | vllm/entrypoints/openai/serving_engine.py:220 | `list.remove(x)` of a present x deletes exactly one position k: the first whose element is equal to x under the entries' equality |
| `LoraRegistry.FieldWiseFindsFirstNamed` | vllm/entrypoints/openai/serving_engine.py:214-220 | under field-wise equality nothing before the first entry with a name equals it, so `list.remove` finds that entry |
| `LoraRegistry.DistinctIdsFindEveryEntry` | vllm/entrypoints/openai/serving_engine.py:214-220 | with pairwise-distinct ids no entry equals an earlier one under either equality |
| `LoraRegistry.RemoveLora` | vllm/entrypoints/openai/serving_engine.py:217-220 | a no-op for an unregistered name; for a registered one exactly one entry goes, under either equality |
| `LoraRegistry.AddLora` | vllm/entrypoints/openai/serving_engine.py:222-232 | the resulting list is non-empty and the returned entry is its last one |
| `LoraRegistry.AddLoraAbsent` | vllm/entrypoints/openai/serving_engine.py:223-232 | a new name appends exactly one entry (name, old length + 1, path), keeps earlier entries, and returns it |
| `LoraRegistry.AddLoraPresent` | vllm/entrypoints/openai/serving_engine.py:223-224 | a registered name leaves the list unchanged and returns its last entry |
| `LoraRegistry.RemoveLoraPresent` | vllm/entrypoints/openai/serving_engine.py:217-220 | when no entry before the first one with that name is equal to it, removing the name deletes exactly that entry, keeping the rest in order |
| `LoraRegistry.RollbackRestores` | vllm/entrypoints/openai/serving_engine.py:222-232 | adding a new name and removing it again gives back exactly the original registry, under field-wise equality, and under id equality when no entry holds the id len + 1 |
| `LoraRegistry.AddLoraKeepsNamesDistinct` | vllm/entrypoints/openai/serving_engine.py:223-231 | `_add_lora` preserves pairwise-distinct names |
| `LoraRegistry.RemoveLoraKeepsNamesDistinct` | vllm/entrypoints/openai/serving_engine.py:217-220 | `_remove_lora` preserves pairwise-distinct names; with distinct names the removed name is gone when `list.remove` deletes the named entry itself: always under field-wise equality, and under id equality when ids are distinct |
| `LoraRegistry.RemoveLoraKeepsIdsDistinct` | vllm/entrypoints/openai/serving_engine.py:217-220 | `_remove_lora` preserves pairwise-distinct ids, under either equality |
| `LoraRegistry.AddLoraTwice` | vllm/entrypoints/openai/serving_engine.py:222-232 | adding the same new model twice in a row returns the same entry both times and grows the list by exactly one |
| `LoraRegistry.IdCollision` | vllm/entrypoints/openai/serving_engine.py:217-232 | add a, add b, remove a, add c leaves b and c both with id 2, under either equality: ids are not unique |
| `LoraRegistry.RemoveAfterCollision` | vllm/entrypoints/openai/serving_engine.py:217-220 | on [b (2), c (2)], removing c deletes c under field-wise equality but deletes b under id equality |
| `Serving.ModelNotFound` | vllm/entrypoints/openai/serving_engine.py:112-123 | no error iff the name is served or a registered adapter name; otherwise a `NotFoundError` with code 404 whose message names the requested model |
| `Serving.AvailableModels` | vllm/entrypoints/openai/serving_engine.py:63-79 | cards are the served names (with the context length) followed by the adapter names (without), all rooted at the first served name; `IndexError` iff there are adapters but no served name |
| `Serving.ListedIffChecked` | vllm/entrypoints/openai/serving_engine.py:63-79 | with a served name, a name is listed exactly when `_check_model` accepts it |
| `Protocol.CreateErrorResponse` | vllm/entrypoints/openai/serving_engine.py:81-88 | keeps the message and the error type; the code is a 4xx or 5xx number, 500 or above exactly for `INTERNAL_SERVER_ERROR` |
| `Protocol.CreateLoraErrorResponse` | vllm/entrypoints/openai/serving_engine.py:103-110 | as `create_error_response`, and the response names the given adapter |
| `Serving.AddLoraModuleResult` | vllm/entrypoints/openai/serving_engine.py:234-273 | fails exactly on a name mismatch (422) or an engine exception (422/400/500 by category); a failure never grows the registry; a success passes the engine's result on and leaves the name registered. Partner lemmas: `AddLoraModuleMismatch`, `AddLoraModuleNewName`, `AddLoraModuleExistingName` |
| `Serving.RemoveLoraModuleResult` | vllm/entrypoints/openai/serving_engine.py:275-294 | fails exactly when the name is registered and the engine raises, then with a 500 naming the adapter and the registry unchanged; shrinks the registry by one exactly when the name is registered and the engine returned. Partner lemmas: `RemoveLoraModuleUnknown`, `RemoveLoraModuleEngineFailure`, `RemoveLoraModuleEngineSuccess` |
| `Serving.AddLoraModuleMismatch` | vllm/entrypoints/openai/serving_engine.py:236-242 | a payload/path name mismatch returns a 422 for the payload's adapter, whose message names both names, and leaves the registry unchanged |
| `Serving.AddLoraModuleNewName` | vllm/entrypoints/openai/serving_engine.py:243-273 | for a new name: success appends one entry with id old length + 1 and passes the engine's result on; an engine exception gives 422 for `RuntimeError`, 400 for `ValueError`, 500 otherwise, naming the adapter (with the exception's text in the message for the first two), keeps the length, and restores the registry exactly under field-wise equality or when the id len + 1 was unused |
| `Serving.AddLoraModuleExistingName` | vllm/entrypoints/openai/serving_engine.py:243-273 | for a registered name nothing is appended; an engine exception removes one entry, the one `_remove_lora` finds under the LAST entry's name, and the error and its message name that adapter |
| `Serving.ReAddFailureDropsLastAdapter` | vllm/entrypoints/openai/serving_engine.py:232-272 | with [a (1), b (2)], re-adding a with a failing engine removes b and reports a 500 for b, under either equality |
| `Serving.RollbackAfterCollision` | vllm/entrypoints/openai/serving_engine.py:217-273 | with [b (2)], a failed add of c (id 2) leaves [c (2)] under id equality, so the rollback removes the survivor; under field-wise equality it leaves [b (2)] |
| `Serving.RemoveLoraModuleUnknown` | vllm/entrypoints/openai/serving_engine.py:275-279 | removing an unknown name returns `True` and leaves the registry unchanged |
| `Serving.RemoveLoraModuleEngineFailure` | vllm/entrypoints/openai/serving_engine.py:280-291 | when the engine raises for a registered name the response is a 500 naming the adapter and the registry is unchanged |
| `Serving.RemoveLoraModuleEngineSuccess` | vllm/entrypoints/openai/serving_engine.py:280-294 | when the engine returns, its result is passed on and one entry is deleted; under field-wise equality or with distinct ids it is exactly the first entry of that name, and with distinct names, and either field-wise equality or distinct ids, the name is then gone |
| `Serving.AdministrationKeepsNamesDistinct` | vllm/entrypoints/openai/serving_engine.py:234-294 | both administration calls preserve pairwise-distinct adapter names, under either equality |
| `Serving.OpenAIServing.constructor` | vllm/entrypoints/openai/serving_engine.py:34-61 | records the context length, tokenizer, served names and entry equality; the registry is the numbered module list, with distinct ids and the next id unused |
| `Serving.OpenAIServing.ShowAvailableModels` | vllm/entrypoints/openai/serving_engine.py:63-79 | the listing of this server's served names and registry: on success the card ids are the served names followed by the adapter names |
| `Serving.OpenAIServing.CheckModel` | vllm/entrypoints/openai/serving_engine.py:112-123 | no error iff the name is one of this server's served names or registered adapter names |
| `Serving.OpenAIServing.MaybeGetLora` | vllm/entrypoints/openai/serving_engine.py:125-135 | `None` for a served name (checked first), else the first registered adapter with that name, else `ValueError`; it raises iff `_check_model` reports an error |
| `Serving.OpenAIServing.ValidatePromptAndTokenize` | vllm/entrypoints/openai/serving_engine.py:137-206 | admission with this server's tokenizer and context length: an admitted completion has tokens + `max_tokens` ≤ the server's `max_model_len` |
| `Serving.OpenAIServing.RemoveLora` | vllm/entrypoints/openai/serving_engine.py:217-220 | the new list is `RemoveLora` of the old one, by `list.remove` under the server's entry equality of the entry found by name |
| `Serving.OpenAIServing.AddLora` | vllm/entrypoints/openai/serving_engine.py:222-232 | the new list and the returned entry are `AddLora` of the old list |
| `Serving.OpenAIServing.AddLoraModule` | vllm/entrypoints/openai/serving_engine.py:234-273 | response and new list are `AddLoraModuleResult` of the old list; for a new name an engine exception leaves the list as it was under field-wise equality or when the id len + 1 was unused |
| `Serving.OpenAIServing.RemoveLoraModule` | vllm/entrypoints/openai/serving_engine.py:275-294 | response and new list are `RemoveLoraModuleResult` of the old list; an engine exception leaves the list as it was |

## Left out

- Tokenizer internals. `get_tokenizer` (:43-48), the tokenizer call (:168) and `decode` (:175) are a foreign library. `Admission.Tokenizer` is two function values about which nothing is assumed.
- `Admission.PromptTextTokenized`: the bound of at most k tokens holds only under the stated hypothesis that the tokenizer honours `max_length`. Nothing else about the tokenizer is assumed.
- The engine and the async plumbing. This covers `asyncio.get_event_loop` and `run_in_executor` into the model runner's `add_lora` / `remove_lora` (:245-248, :281-284).
  - Their outcome is the input `EngineCall`: a returned boolean, a `RuntimeError`, a `ValueError` or any other exception.
  - As written, `asyncio` is not imported in the file, so those lines raise `NameError`. That is the "any other exception" outcome.
- Concurrency. The model has one sequential caller. Interleaved add/remove calls on the shared list are not modelled.
- Admission error texts. The `ValueError`s of `_validate_prompt_and_tokenize` carry the numbers their messages report (L, n and `max_tokens`), not the message text. Error responses carry their full message, with the exception's text as given by `EngineCall`.
- `create_streaming_error_response` (:90-101): JSON serialisation is not modelled.
- `ModelPermission` objects in `show_available_models` (:63-79) are not modelled.
- `_get_decoded_token` (:208-211) is a tokenizer passthrough and is not modelled.
- The pydantic constraint `Field(ge=1)` on `truncate_prompt_tokens` is not enforced by the function itself. The model takes any integer, with Python slice semantics.
- `vllm/lora/request.py` is not part of this model, so the equality `list.remove` uses on `LoRARequest` is not known. Both readings are modelled (`Protocol.LoraEquality`): field-wise, a dataclass's default, and by `lora_int_id` alone. `OpenAIServing` takes the one in force as a constructor argument.
- `vllm/entrypoints/openai/protocol.py` is not part of this model. Requests are reduced to the fields the core reads: the request kind and `max_tokens`, and the adapter name and path.
