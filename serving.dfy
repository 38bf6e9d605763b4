/**
 * `OpenAIServing`: model-name resolution, the model listing, and the
 * adapter administration calls (`add_lora_module`, `remove_lora_module`)
 * over the registry of `LoraRegistry`. The engine's `add_lora` /
 * `remove_lora` calls are not modelled; what they came back with is an
 * input (`EngineCall`).
 */
module Serving {
  import opened Wrappers
  import opened Protocol
  import opened Admission
  import opened LoraRegistry

  /** The `ValueError` `_maybe_get_lora` raises for a name that is neither served nor registered. */
  datatype ModelDoesNotExist = ModelDoesNotExist(model: string)

  /** An entry of the model listing; the permission objects are not modelled. */
  datatype ModelCard = ModelCard(id: string, maxModelLen: Option<int>, root: string)

  /** The `IndexError` of `served_model_names[0]` on an empty list of served names. */
  datatype IndexError = IndexError

  /**
   * `_check_model`: no error exactly when the requested name is a served
   * name or a registered adapter name; otherwise a 404 `NotFoundError`
   * whose message names the requested model.
   */
  function ModelNotFound(servedModelNames: seq<string>, loraRequests: Registry, model: string): (r: Option<ErrorResponse>)
    ensures r.None? <==> model in servedModelNames || exists i :: 0 <= i < |loraRequests| && loraRequests[i].loraName == model
    ensures r.Some? ==> r.value == ErrorResponse("The model `" + model + "` does not exist.", "NotFoundError", 404)
  {
    if model in servedModelNames then None
    else if model in LoraNames(loraRequests) then None
    else Some(CreateErrorResponse("The model `" + model + "` does not exist.", "NotFoundError", NotFound))
  }

  /** The ids of a model listing. */
  function CardIds(cards: seq<ModelCard>): (ids: seq<string>)
    ensures |ids| == |cards|
  {
    seq(|cards|, i requires 0 <= i < |cards| => cards[i].id)
  }

  /**
   * `show_available_models`: one card per served name (with the context
   * length) followed by one card per adapter (without), every card rooted at
   * the first served name; that lookup fails on an empty served list as soon
   * as there is an adapter card to build.
   */
  function AvailableModels(servedModelNames: seq<string>, maxModelLen: int, loraRequests: Registry)
    : (r: Result<seq<ModelCard>, IndexError>)
    ensures r.Err? <==> servedModelNames == [] && loraRequests != []
    ensures r.Ok? ==> CardIds(r.value) == servedModelNames + LoraNames(loraRequests)
    ensures r.Ok? ==> forall i :: 0 <= i < |r.value| ==>
              r.value[i].root == servedModelNames[0] &&
              (r.value[i].maxModelLen == if i < |servedModelNames| then Some(maxModelLen) else None)
  {
    if servedModelNames == [] && loraRequests != [] then Err(IndexError)
    else
      var modelCards := seq(|servedModelNames|, i requires 0 <= i < |servedModelNames| =>
                              ModelCard(servedModelNames[i], Some(maxModelLen), servedModelNames[0]));
      var loraCards := seq(|loraRequests|, i requires 0 <= i < |loraRequests| =>
                             ModelCard(loraRequests[i].loraName, None, servedModelNames[0]));
      Ok(modelCards + loraCards)
  }

  /** A name is listed exactly when `_check_model` accepts it. */
  lemma ListedIffChecked(servedModelNames: seq<string>, maxModelLen: int, loraRequests: Registry, model: string)
    requires servedModelNames != []
    ensures var r := AvailableModels(servedModelNames, maxModelLen, loraRequests);
            r.Ok? && (model in CardIds(r.value) <==> ModelNotFound(servedModelNames, loraRequests, model).None?)
  {
    var ids := servedModelNames + LoraNames(loraRequests);
    if model in LoraNames(loraRequests) {
      var i :| 0 <= i < |loraRequests| && LoraNames(loraRequests)[i] == model;
      assert ids[|servedModelNames| + i] == model;
    }
  }

  /** The status code of a failed materialisation, by exception category. */
  function AddFailureCode(engine: EngineCall): int
  {
    match engine
    case RaisedRuntimeError(_) => 422
    case RaisedValueError(_) => 400
    case _ => 500
  }

  /** The message of a failed materialisation: the exception's text for the two named categories. */
  function AddFailureMessage(loraName: string, engine: EngineCall): string
  {
    match engine
    case RaisedRuntimeError(e) => "Adding lora " + loraName + " failed: " + e
    case RaisedValueError(e) => "Adding lora " + loraName + " failed: " + e
    case _ => "Adding lora " + loraName + " failed."
  }

  /** The message of a name mismatch, naming the payload's adapter and the path's name. */
  function MismatchMessage(loraName: string, modelName: string): string
  {
    "Adding lora " + loraName + " failed: model name mismatch with payload " + modelName + "."
  }

  /** The message of a failed removal. */
  function RemoveFailureMessage(modelName: string): string
  {
    "Removing lora " + modelName + " failed."
  }

  /**
   * `add_lora_module` as a value: the response and the new registry, given
   * what the engine's `add_lora` call came back with and the equality
   * `list.remove` uses. The engine call and any rollback act on the entry
   * `_add_lora` returned. It fails exactly on a name mismatch or an engine
   * exception; a failure never grows the registry, and a success leaves the
   * adapter's name registered.
   */
  function AddLoraModuleResult(loras: Registry, request: LoraAddRequest, modelName: string, engine: EngineCall,
                               eq: LoraEquality): (r: (LoraResponse, Registry))
    ensures r.0.Failure? <==> request.model.name != modelName || engine.Raised()
    ensures r.0.Failure? ==>
              (|r.1| <= |loras| &&
               r.0.error.code == (if request.model.name != modelName then 422 else AddFailureCode(engine)))
    ensures r.0.Success? ==> r.0.result == engine.result && request.model.name in LoraNames(r.1)
  {
    if request.model.name != modelName then
      (Failure(CreateLoraErrorResponse(MismatchMessage(request.model.name, modelName), request.model.name,
                                       "UnprocessableEntityError", UnprocessableEntity)), loras)
    else
      var (added, lora) := AddLora(loras, request.model);
      assert LoraNames(added)[|added| - 1] == lora.loraName;
      assert request.model.name in LoraNames(added) by {
        if request.model.name !in LoraNames(loras) {
          AddLoraAbsent(loras, request.model);
        }
      }
      match engine
      case Completed(result) => (Success(result), added)
      case RaisedRuntimeError(e) =>
        (Failure(CreateLoraErrorResponse("Adding lora " + lora.loraName + " failed: " + e, lora.loraName,
                                         "UnprocessableEntityError", UnprocessableEntity)),
         RemoveLora(added, lora.loraName, eq))
      case RaisedValueError(e) =>
        (Failure(CreateLoraErrorResponse("Adding lora " + lora.loraName + " failed: " + e, lora.loraName,
                                         "BadRequestError", BadRequest)),
         RemoveLora(added, lora.loraName, eq))
      case RaisedOtherException =>
        (Failure(CreateLoraErrorResponse("Adding lora " + lora.loraName + " failed.", lora.loraName,
                                         "InternalServerError", InternalServerError)),
         RemoveLora(added, lora.loraName, eq))
  }

  /**
   * `remove_lora_module` as a value: the response and the new registry,
   * given what the engine's `remove_lora` call came back with. It fails
   * exactly when the name is registered and the engine raises, and then with
   * a 500 and the registry untouched; the registry shrinks by one exactly
   * when the name is registered and the engine returned.
   */
  function RemoveLoraModuleResult(loras: Registry, modelName: string, engine: EngineCall, eq: LoraEquality)
    : (r: (LoraResponse, Registry))
    ensures r.0.Failure? <==> modelName in LoraNames(loras) && engine.Raised()
    ensures r.0.Failure? ==>
              r.1 == loras &&
              r.0.error == LoraErrorResponse(RemoveFailureMessage(modelName), "InternalServerError", 500, modelName)
    ensures r.0.Success? ==> r.0.result == if modelName in LoraNames(loras) then engine.result else true
    ensures |r.1| == if modelName in LoraNames(loras) && engine.Completed? then |loras| - 1 else |loras|
  {
    match GetLoraId(loras, modelName)
    case None => (Success(true), loras)
    case Some(_) =>
      match engine
      case Completed(result) => (Success(result), RemoveLora(loras, modelName, eq))
      case _ =>
        (Failure(CreateLoraErrorResponse("Removing lora " + modelName + " failed.", modelName,
                                         "InternalServerError", InternalServerError)), loras)
  }

  /** A request whose payload name differs from the path name is refused with 422 and changes nothing. */
  lemma AddLoraModuleMismatch(loras: Registry, request: LoraAddRequest, modelName: string, engine: EngineCall,
                              eq: LoraEquality)
    requires request.model.name != modelName
    ensures AddLoraModuleResult(loras, request, modelName, engine, eq) ==
            (Failure(LoraErrorResponse(MismatchMessage(request.model.name, modelName), "UnprocessableEntityError", 422,
                                       request.model.name)), loras)
  {
  }

  /**
   * For a name not yet registered: an engine that returns leaves exactly one
   * new entry (id old length + 1) and its result is passed on; an engine that
   * raises gives an error naming the adapter, with 422 for a `RuntimeError`,
   * 400 for a `ValueError` and 500 for anything else, and leaves as many
   * entries as before. The registry is then exactly as it was under
   * field-wise equality, and under id equality when the new id was unused.
   */
  lemma AddLoraModuleNewName(loras: Registry, request: LoraAddRequest, engine: EngineCall, eq: LoraEquality)
    requires request.model.name !in LoraNames(loras)
    ensures var (response, after) := AddLoraModuleResult(loras, request, request.model.name, engine, eq);
            && (engine.Completed? ==>
                  response == Success(engine.result) &&
                  after == loras + [LoRARequest(request.model.name, |loras| + 1, request.model.path)])
            && (engine.Raised() ==>
                  after == RemoveLora(loras + [LoRARequest(request.model.name, |loras| + 1, request.model.path)],
                                      request.model.name, eq) &&
                  |after| == |loras| && response.Failure? &&
                  response.error.code == AddFailureCode(engine) &&
                  response.error.message == AddFailureMessage(request.model.name, engine) &&
                  response.error.errorLoraName == request.model.name)
            && (engine.Raised() && (eq.FieldWise? || NextIdUnused(loras)) ==> after == loras)
  {
    AddLoraAbsent(loras, request.model);
    if eq.FieldWise? || NextIdUnused(loras) {
      RollbackRestores(loras, request.model, eq);
    }
  }

  /**
   * For a name already registered nothing is appended, and the engine call
   * and any rollback act on the LAST entry: a failure removes an entry found
   * under the last entry's name, and the error names that adapter.
   */
  lemma AddLoraModuleExistingName(loras: Registry, request: LoraAddRequest, engine: EngineCall, eq: LoraEquality)
    requires request.model.name in LoraNames(loras)
    ensures var last := loras[|loras| - 1];
            var (response, after) := AddLoraModuleResult(loras, request, request.model.name, engine, eq);
            && (engine.Completed? ==> response == Success(engine.result) && after == loras)
            && (engine.Raised() ==>
                  after == RemoveLora(loras, last.loraName, eq) && |after| == |loras| - 1 &&
                  response.error.code == AddFailureCode(engine) &&
                  response.error.message == AddFailureMessage(last.loraName, engine) &&
                  response.error.errorLoraName == last.loraName)
  {
    AddLoraPresent(loras, request.model);
    assert LoraNames(loras)[|loras| - 1] == loras[|loras| - 1].loraName;
  }

  /**
   * Re-adding a registered adapter whose engine call fails takes a DIFFERENT
   * adapter out of the registry: with [a (1), b (2)], re-adding "a" rolls
   * back "b", under either equality.
   */
  lemma ReAddFailureDropsLastAdapter(eq: LoraEquality)
    ensures var loras := [LoRARequest("a", 1, "/a"), LoRARequest("b", 2, "/b")];
            var request := LoraAddRequest(LoraModel("a", "/a"));
            AddLoraModuleResult(loras, request, "a", RaisedOtherException, eq) ==
              (Failure(LoraErrorResponse("Adding lora b failed.", "InternalServerError", 500, "b")),
               [LoRARequest("a", 1, "/a")])
  {
    var loras := [LoRARequest("a", 1, "/a"), LoRARequest("b", 2, "/b")];
    assert LoraNames(loras) == ["a", "b"];
    AddLoraPresent(loras, LoraModel("a", "/a"));
    assert IsFirstNamed(loras, "b", 1);
    RemoveLoraPresent(loras, "b", eq, 1);
    assert loras[..1] + loras[2..] == [LoRARequest("a", 1, "/a")];
    assert "Adding lora " + "b" + " failed." == "Adding lora b failed.";
  }

  /**
   * Under id equality a failed add of a new name whose id collides is not
   * rolled back: with [b (2)], adding "c" (id 2) and failing removes "b"
   * and leaves "c" registered; under field-wise equality "b" is kept.
   */
  lemma RollbackAfterCollision()
    ensures var loras := [LoRARequest("b", 2, "/b")];
            var request := LoraAddRequest(LoraModel("c", "/c"));
            && AddLoraModuleResult(loras, request, "c", RaisedOtherException, IdOnly).1 == [LoRARequest("c", 2, "/c")]
            && AddLoraModuleResult(loras, request, "c", RaisedOtherException, FieldWise).1 == loras
  {
    var loras := [LoRARequest("b", 2, "/b")];
    var request := LoraAddRequest(LoraModel("c", "/c"));
    assert LoraNames(loras) == ["b"];
    AddLoraModuleNewName(loras, request, RaisedOtherException, IdOnly);
    AddLoraModuleNewName(loras, request, RaisedOtherException, FieldWise);
    var added := loras + [LoRARequest("c", 2, "/c")];
    assert RemoveLora(added, "c", IdOnly) == [LoRARequest("c", 2, "/c")] by {
      assert LoraNames(added) == ["b", "c"];
      assert IsFirstNamed(added, "c", 1);
      assert FirstNamed(added, "c") == Some(1);
      ListRemoveAt(added, added[1], IdOnly, 0);
    }
  }

  /** Removing an unknown adapter succeeds with `True` and changes nothing, whatever the engine would do. */
  lemma RemoveLoraModuleUnknown(loras: Registry, modelName: string, engine: EngineCall, eq: LoraEquality)
    requires modelName !in LoraNames(loras)
    ensures RemoveLoraModuleResult(loras, modelName, engine, eq) == (Success(true), loras)
  {
  }

  /**
   * Removing a registered adapter whose engine call raises: a 500 naming the
   * adapter, and the entry stays.
   */
  lemma RemoveLoraModuleEngineFailure(loras: Registry, modelName: string, engine: EngineCall, eq: LoraEquality)
    requires modelName in LoraNames(loras) && engine.Raised()
    ensures RemoveLoraModuleResult(loras, modelName, engine, eq) ==
            (Failure(LoraErrorResponse(RemoveFailureMessage(modelName), "InternalServerError", 500, modelName)), loras)
  {
  }

  /**
   * Removing a registered adapter whose engine call returns: its result is
   * passed on and one entry goes. It is exactly the first entry with that
   * name under field-wise equality or with distinct ids, and then, when names
   * were distinct, the name is gone altogether.
   */
  lemma RemoveLoraModuleEngineSuccess(loras: Registry, modelName: string, result: bool, i: nat, eq: LoraEquality)
    requires IsFirstNamed(loras, modelName, i)
    ensures var (response, after) := RemoveLoraModuleResult(loras, modelName, Completed(result), eq);
            && response == Success(result) && |after| == |loras| - 1
            && (eq.FieldWise? || IdsDistinct(loras) ==> after == loras[..i] + loras[i + 1..])
            && (NamesDistinct(loras) && (eq.FieldWise? || IdsDistinct(loras)) ==> modelName !in LoraNames(after))
  {
    assert LoraNames(loras)[i] == modelName;
    if eq.FieldWise? || IdsDistinct(loras) {
      if eq.FieldWise? {
        FieldWiseFindsFirstNamed(loras, modelName, i);
      } else {
        DistinctIdsFindEveryEntry(loras, eq, i);
      }
      RemoveLoraPresent(loras, modelName, eq, i);
      if NamesDistinct(loras) {
        forall k | IsFirstNamed(loras, modelName, k) ensures NoEarlierEqual(loras, eq, k) {
          FirstNamedUnique(loras, modelName, i, k);
        }
        RemoveLoraKeepsNamesDistinct(loras, modelName, eq);
      }
    }
  }

  /** Both administration calls keep adapter names pairwise distinct, under either equality. */
  lemma AdministrationKeepsNamesDistinct(loras: Registry, request: LoraAddRequest, modelName: string,
                                         engine: EngineCall, eq: LoraEquality)
    requires NamesDistinct(loras)
    ensures NamesDistinct(AddLoraModuleResult(loras, request, modelName, engine, eq).1)
    ensures NamesDistinct(RemoveLoraModuleResult(loras, modelName, engine, eq).1)
  {
    if request.model.name == modelName {
      var (added, lora) := AddLora(loras, request.model);
      AddLoraKeepsNamesDistinct(loras, request.model);
      RemoveLoraKeepsNamesDistinct(added, lora.loraName, eq);
    }
    RemoveLoraKeepsNamesDistinct(loras, modelName, eq);
  }

  /**
   * The serving object: its configuration, fixed at construction, and the
   * adapter registry, which the administration calls update in place.
   * `loraEquality` is the equality of the `LoRARequest` class, which is
   * defined outside the modelled file.
   */
  class OpenAIServing {
    const maxModelLen: int
    const tokenizer: Tokenizer
    const servedModelNames: seq<string>
    const loraEquality: LoraEquality
    var loraRequests: Registry

    /** `__init__`: the adapters given at start-up get ids 1..n, in order. */
    constructor (maxModelLen: int, tokenizer: Tokenizer, servedModelNames: seq<string>,
                 loraModules: Option<seq<LoRAModulePath>>, loraEquality: LoraEquality)
      ensures this.maxModelLen == maxModelLen && this.tokenizer == tokenizer
      ensures this.servedModelNames == servedModelNames && this.loraEquality == loraEquality
      ensures loraRequests == InitialLoraRequests(loraModules)
      ensures IdsDistinct(loraRequests) && NextIdUnused(loraRequests)
    {
      this.maxModelLen := maxModelLen;
      this.tokenizer := tokenizer;
      this.servedModelNames := servedModelNames;
      this.loraEquality := loraEquality;
      loraRequests := InitialLoraRequests(loraModules);
      InitialIdsDistinct(loraModules);
    }

    /** `show_available_models` on this server's names, context length and registry. */
    method ShowAvailableModels() returns (r: Result<seq<ModelCard>, IndexError>)
      ensures r == AvailableModels(servedModelNames, maxModelLen, loraRequests)
      ensures r.Ok? ==> CardIds(r.value) == servedModelNames + LoraNames(loraRequests)
    {
      r := AvailableModels(servedModelNames, maxModelLen, loraRequests);
    }

    /** `_check_model` on this server's served names and registry. */
    method CheckModel(model: string) returns (r: Option<ErrorResponse>)
      ensures r == ModelNotFound(servedModelNames, loraRequests, model)
      ensures r.None? <==> model in servedModelNames || model in LoraNames(loraRequests)
    {
      r := ModelNotFound(servedModelNames, loraRequests, model);
    }

    /**
     * `_maybe_get_lora`: `None` for a served name (checked first), otherwise
     * the first registered adapter with that name, and a `ValueError` when
     * there is none; it raises exactly when `_check_model` reports an error.
     */
    method MaybeGetLora(model: string) returns (r: Result<Option<LoRARequest>, ModelDoesNotExist>)
      ensures model in servedModelNames ==> r == Ok(None)
      ensures model !in servedModelNames ==>
                r == match FirstNamed(loraRequests, model)
                     case Some(i) => Ok(Some(loraRequests[i]))
                     case None => Err(ModelDoesNotExist(model))
      ensures r.Ok? <==> ModelNotFound(servedModelNames, loraRequests, model).None?
    {
      if model in servedModelNames {
        return Ok(None);
      }
      var i := 0;
      while i < |loraRequests|
        invariant 0 <= i <= |loraRequests|
        invariant forall j :: 0 <= j < i ==> loraRequests[j].loraName != model
      {
        if loraRequests[i].loraName == model {
          FirstNamedUnique(loraRequests, model, i, FirstNamed(loraRequests, model).value);
          return Ok(Some(loraRequests[i]));
        }
        i := i + 1;
      }
      return Err(ModelDoesNotExist(model));
    }

    /** `_validate_prompt_and_tokenize` with this server's tokenizer and context length. */
    method ValidatePromptAndTokenize(request: RequestKind, prompt: Option<string>, promptIds: Option<seq<int>>,
                                     truncatePromptTokens: Option<int>, addSpecialTokens: Option<bool>)
      returns (r: Result<Admitted, AdmissionError>)
      ensures r == Admission.ValidatePromptAndTokenize(tokenizer, maxModelLen, request, prompt, promptIds,
                                                       truncatePromptTokens, addSpecialTokens)
      ensures r.Ok? && request.Completion? ==>
                r.value.request.maxTokens.Some? && |r.value.inputIds| + r.value.request.maxTokens.value <= maxModelLen
    {
      r := Admission.ValidatePromptAndTokenize(tokenizer, maxModelLen, request, prompt, promptIds,
                                               truncatePromptTokens, addSpecialTokens);
    }

    /** `_remove_lora`: `list.remove` of the first entry with that name, if any. */
    method RemoveLora(modelName: string)
      modifies this
      ensures loraRequests == LoraRegistry.RemoveLora(old(loraRequests), modelName, loraEquality)
    {
      var found := FirstNamed(loraRequests, modelName);
      if found.Some? {
        var lora := loraRequests[found.value];
        loraRequests := ListRemove(loraRequests, lora, loraEquality);
      }
    }

    /** `_add_lora`: append an entry with id `len + 1` when the name is new; return the last entry. */
    method AddLora(model: LoraModel) returns (lora: LoRARequest)
      modifies this
      ensures (loraRequests, lora) == LoraRegistry.AddLora(old(loraRequests), model)
    {
      var existing := FirstNamed(loraRequests, model.name);
      if existing.None? {
        var path := LoRAModulePath(model.name, model.path);
        loraRequests := loraRequests + [LoRARequest(path.name, |loraRequests| + 1, path.localPath)];
      }
      lora := loraRequests[|loraRequests| - 1];
    }

    /**
     * `add_lora_module`: register optimistically, call the engine, and roll
     * the registration back when the engine raises.
     */
    method AddLoraModule(request: LoraAddRequest, modelName: string, engine: EngineCall) returns (r: LoraResponse)
      modifies this
      ensures (r, loraRequests) == AddLoraModuleResult(old(loraRequests), request, modelName, engine, loraEquality)
      ensures request.model.name !in LoraNames(old(loraRequests)) && engine.Raised() &&
              (loraEquality.FieldWise? || NextIdUnused(old(loraRequests))) ==>
                loraRequests == old(loraRequests)
    {
      ghost var before := loraRequests;
      if request.model.name != modelName {
        return Failure(CreateLoraErrorResponse(MismatchMessage(request.model.name, modelName), request.model.name,
                                               "UnprocessableEntityError", UnprocessableEntity));
      }
      var lora := AddLora(request.model);
      match engine {
        case Completed(result) =>
          r := Success(result);
        case RaisedRuntimeError(e) =>
          RemoveLora(lora.loraName);
          r := Failure(CreateLoraErrorResponse("Adding lora " + lora.loraName + " failed: " + e, lora.loraName,
                                               "UnprocessableEntityError", UnprocessableEntity));
        case RaisedValueError(e) =>
          RemoveLora(lora.loraName);
          r := Failure(CreateLoraErrorResponse("Adding lora " + lora.loraName + " failed: " + e, lora.loraName,
                                               "BadRequestError", BadRequest));
        case RaisedOtherException =>
          RemoveLora(lora.loraName);
          r := Failure(CreateLoraErrorResponse("Adding lora " + lora.loraName + " failed.", lora.loraName,
                                               "InternalServerError", InternalServerError));
      }
      if request.model.name !in LoraNames(before) {
        AddLoraModuleNewName(before, request, engine, loraEquality);
      }
    }

    /**
     * `remove_lora_module`: an unknown name is already removed; otherwise
     * call the engine first and drop the entry only when it returned.
     */
    method RemoveLoraModule(modelName: string, engine: EngineCall) returns (r: LoraResponse)
      modifies this
      ensures (r, loraRequests) == RemoveLoraModuleResult(old(loraRequests), modelName, engine, loraEquality)
      ensures engine.Raised() ==> loraRequests == old(loraRequests)
    {
      var loraId := GetLoraId(loraRequests, modelName);
      if loraId.None? {
        return Success(true);
      }
      match engine {
        case Completed(result) =>
          RemoveLora(modelName);
          r := Success(result);
        case _ =>
          r := Failure(CreateLoraErrorResponse("Removing lora " + modelName + " failed.", modelName,
                                               "InternalServerError", InternalServerError));
      }
    }
  }
}
