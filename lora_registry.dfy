/**
 * The adapter registry of `OpenAIServing`: the ordered list
 * `lora_requests` of (name, id, path) entries, as values. The functions
 * here are what the in-place operations of the `Serving.OpenAIServing`
 * class do to that list; the lemmas state the registry's properties,
 * including the ones the source does NOT have (ids are not unique).
 */
module LoraRegistry {
  import opened Wrappers
  import opened Protocol

  type Registry = seq<LoRARequest>

  /** `[lora.lora_name for lora in lora_requests]`. */
  function LoraNames(loras: Registry): (names: seq<string>)
    ensures |names| == |loras|
    ensures forall i :: 0 <= i < |loras| ==> names[i] == loras[i].loraName
  {
    seq(|loras|, i requires 0 <= i < |loras| => loras[i].loraName)
  }

  /** Entry `i` is the first one whose name is `name`. */
  predicate IsFirstNamed(loras: Registry, name: string, i: int) {
    0 <= i < |loras| && loras[i].loraName == name &&
    forall j :: 0 <= j < i ==> loras[j].loraName != name
  }

  /**
   * The position of `next((lora for lora in lora_requests if name ==
   * lora.lora_name), None)`: the first entry with that name, if any.
   */
  function FirstNamed(loras: Registry, name: string): (r: Option<nat>)
    ensures r.None? <==> name !in LoraNames(loras)
    ensures r.Some? ==> IsFirstNamed(loras, name, r.value)
  {
    if |loras| == 0 then None
    else if loras[0].loraName == name then Some(0)
    else match FirstNamed(loras[1..], name)
      case None => None
      case Some(i) => Some(i + 1)
  }

  /** The first entry named `name` is unique. */
  lemma FirstNamedUnique(loras: Registry, name: string, i: int, j: int)
    requires IsFirstNamed(loras, name, i) && IsFirstNamed(loras, name, j)
    ensures i == j
  {
  }

  /** The registry built at construction: the given adapters in order, with ids 1, 2, ..., n. */
  function InitialLoraRequests(loraModules: Option<seq<LoRAModulePath>>): (loras: Registry)
    ensures loraModules.None? ==> loras == []
    ensures loraModules.Some? ==> |loras| == |loraModules.value|
    ensures loraModules.Some? ==> forall i :: 0 <= i < |loras| ==>
              loras[i] == LoRARequest(loraModules.value[i].name, i + 1, loraModules.value[i].localPath)
  {
    if loraModules.None? then []
    else
      var modules := loraModules.value;
      seq(|modules|, i requires 0 <= i < |modules| => LoRARequest(modules[i].name, i + 1, modules[i].localPath))
  }

  /** Pairwise-distinct ids: a property only the freshly constructed registry is guaranteed to have. */
  predicate IdsDistinct(loras: Registry) {
    forall i, j :: 0 <= i < j < |loras| ==> loras[i].loraIntId != loras[j].loraIntId
  }

  /** Pairwise-distinct names. */
  predicate NamesDistinct(loras: Registry) {
    forall i, j :: 0 <= i < j < |loras| ==> loras[i].loraName != loras[j].loraName
  }

  /** The constructed registry's ids are 1..n: pairwise distinct, and the next id `n + 1` is unused. */
  lemma InitialIdsDistinct(loraModules: Option<seq<LoRAModulePath>>)
    ensures IdsDistinct(InitialLoraRequests(loraModules))
    ensures forall e :: e in InitialLoraRequests(loraModules) ==> 1 <= e.loraIntId <= |InitialLoraRequests(loraModules)|
    ensures NextIdUnused(InitialLoraRequests(loraModules))
  {
    var loras := InitialLoraRequests(loraModules);
    forall e | e in loras ensures 1 <= e.loraIntId <= |loras| {
      var i :| 0 <= i < |loras| && loras[i] == e;
    }
  }

  /** `_get_lora_id`: the id of the first entry named `name`, or `None`. */
  function GetLoraId(loras: Registry, name: string): (id: Option<int>)
    ensures id.None? <==> name !in LoraNames(loras)
    ensures id.Some? ==> exists i :: IsFirstNamed(loras, name, i) && loras[i].loraIntId == id.value
  {
    match FirstNamed(loras, name)
    case None => None
    case Some(i) => Some(loras[i].loraIntId)
  }

  /** Python's `list.remove(x)`: drop the first element that `eq` finds equal to `x`. */
  function ListRemove(loras: Registry, x: LoRARequest, eq: LoraEquality): (r: Registry)
    requires x in loras
    ensures |r| == |loras| - 1
  {
    if eq.Equal(loras[0], x) then loras[1..] else [loras[0]] + ListRemove(loras[1..], x, eq)
  }

  /** No entry before position `i` is equal to entry `i` under `eq`. */
  predicate NoEarlierEqual(loras: Registry, eq: LoraEquality, i: int) {
    0 <= i < |loras| && forall j :: 0 <= j < i ==> !eq.Equal(loras[j], loras[i])
  }

  /** `list.remove(x)` deletes the position of the first element equal to `x`. */
  lemma {:induction false} ListRemoveAt(loras: Registry, x: LoRARequest, eq: LoraEquality, i: nat)
    requires x in loras && i < |loras| && eq.Equal(loras[i], x)
    requires forall j :: 0 <= j < i ==> !eq.Equal(loras[j], x)
    ensures ListRemove(loras, x, eq) == loras[..i] + loras[i + 1..]
  {
    if i > 0 {
      ListRemoveAt(loras[1..], x, eq, i - 1);
      assert loras[1..][..i - 1] + loras[1..][i..] == loras[1..i] + loras[i + 1..];
      assert [loras[0]] + loras[1..i] == loras[..i];
    }
  }

  /** `list.remove(x)` deletes one position: the first whose entry is equal to `x`. */
  lemma {:induction false} ListRemoveDeletes(loras: Registry, x: LoRARequest, eq: LoraEquality) returns (k: nat)
    requires x in loras
    ensures k < |loras| && eq.Equal(loras[k], x) && (forall j :: 0 <= j < k ==> !eq.Equal(loras[j], x))
    ensures ListRemove(loras, x, eq) == loras[..k] + loras[k + 1..]
  {
    if eq.Equal(loras[0], x) {
      k := 0;
    } else {
      var k' := ListRemoveDeletes(loras[1..], x, eq);
      k := k' + 1;
      ListRemoveAt(loras, x, eq, k);
    }
  }

  /** Under field-wise equality the first entry with a name has no equal entry before it. */
  lemma FieldWiseFindsFirstNamed(loras: Registry, name: string, i: nat)
    requires IsFirstNamed(loras, name, i)
    ensures NoEarlierEqual(loras, FieldWise, i)
  {
  }

  /** With pairwise-distinct ids no entry has an equal entry before it, under either equality. */
  lemma DistinctIdsFindEveryEntry(loras: Registry, eq: LoraEquality, i: nat)
    requires IdsDistinct(loras) && i < |loras|
    ensures NoEarlierEqual(loras, eq, i)
  {
  }

  /**
   * `_remove_lora`: look up the first entry named `name` and, if there is
   * one, `list.remove` it under the entries' equality `eq`.
   */
  function RemoveLora(loras: Registry, name: string, eq: LoraEquality): (r: Registry)
    ensures name !in LoraNames(loras) ==> r == loras
    ensures name in LoraNames(loras) ==> |r| == |loras| - 1
  {
    match FirstNamed(loras, name)
    case None => loras
    case Some(i) => ListRemove(loras, loras[i], eq)
  }

  /**
   * `_add_lora`: when no entry has the model's name, append one with id
   * `len(lora_requests) + 1`; either way return the LAST entry of the list,
   * which is not the named entry when the name was already present.
   */
  function AddLora(loras: Registry, model: LoraModel): (r: (Registry, LoRARequest))
    ensures |r.0| > 0 && r.1 == r.0[|r.0| - 1]
  {
    var added :=
      if FirstNamed(loras, model.name).None? then
        var lora := LoRAModulePath(model.name, model.path);
        loras + [LoRARequest(lora.name, |loras| + 1, lora.localPath)]
      else loras;
    (added, added[|added| - 1])
  }

  /** With a new name `_add_lora` appends exactly one entry, with id old length + 1, and returns it. */
  lemma AddLoraAbsent(loras: Registry, model: LoraModel)
    requires model.name !in LoraNames(loras)
    ensures var (added, lora) := AddLora(loras, model);
            && lora == LoRARequest(model.name, |loras| + 1, model.path)
            && added == loras + [lora]
            && added[..|loras|] == loras
  {
  }

  /** With a present name `_add_lora` leaves the list as it was and returns its last entry. */
  lemma AddLoraPresent(loras: Registry, model: LoraModel)
    requires model.name in LoraNames(loras)
    ensures AddLora(loras, model) == (loras, loras[|loras| - 1])
  {
  }

  /**
   * `_remove_lora` of a present name deletes exactly the first entry with
   * that name, keeping the others in order, when no earlier entry is equal to
   * it: always under field-wise equality, and under id equality when ids are
   * distinct.
   */
  lemma RemoveLoraPresent(loras: Registry, name: string, eq: LoraEquality, i: nat)
    requires IsFirstNamed(loras, name, i)
    requires NoEarlierEqual(loras, eq, i)
    ensures RemoveLora(loras, name, eq) == loras[..i] + loras[i + 1..]
  {
    FirstNamedUnique(loras, name, i, FirstNamed(loras, name).value);
    ListRemoveAt(loras, loras[i], eq, i);
  }

  /** No entry already holds the id `_add_lora` would give the next new adapter. */
  predicate NextIdUnused(loras: Registry) {
    forall e :: e in loras ==> e.loraIntId != |loras| + 1
  }

  /**
   * Adding a new name and then removing that name gives back the registry
   * exactly under field-wise equality, and under id equality when no entry
   * already holds the new entry's id.
   */
  lemma RollbackRestores(loras: Registry, model: LoraModel, eq: LoraEquality)
    requires model.name !in LoraNames(loras)
    requires eq.FieldWise? || NextIdUnused(loras)
    ensures RemoveLora(AddLora(loras, model).0, model.name, eq) == loras
  {
    var added := AddLora(loras, model).0;
    AddLoraAbsent(loras, model);
    assert IsFirstNamed(added, model.name, |loras|);
    forall j | 0 <= j < |loras| ensures !eq.Equal(added[j], added[|loras|]) {
      assert added[j] == loras[j] && added[j] in loras;
    }
    RemoveLoraPresent(added, model.name, eq, |loras|);
    assert added[..|loras|] + added[|loras| + 1..] == loras;
  }

  /** `_add_lora` keeps names pairwise distinct. */
  lemma AddLoraKeepsNamesDistinct(loras: Registry, model: LoraModel)
    requires NamesDistinct(loras)
    ensures NamesDistinct(AddLora(loras, model).0)
  {
    if model.name !in LoraNames(loras) {
      AddLoraAbsent(loras, model);
      var added := AddLora(loras, model).0;
      forall i, j | 0 <= i < j < |added| ensures added[i].loraName != added[j].loraName {
        if j == |loras| {
          assert LoraNames(loras)[i] == loras[i].loraName;
        }
      }
    }
  }

  /** Position `i` of a list with position `k` deleted. */
  lemma DeletedAt(loras: Registry, k: nat, i: nat)
    requires k < |loras| && i < |loras| - 1
    ensures (loras[..k] + loras[k + 1..])[i] == loras[if i < k then i else i + 1]
  {
  }

  /**
   * `_remove_lora` keeps names pairwise distinct, and when it deletes the
   * named entry itself (see `RemoveLoraPresent`) the name is gone.
   */
  lemma RemoveLoraKeepsNamesDistinct(loras: Registry, name: string, eq: LoraEquality)
    requires NamesDistinct(loras)
    ensures NamesDistinct(RemoveLora(loras, name, eq))
    ensures (forall i :: IsFirstNamed(loras, name, i) ==> NoEarlierEqual(loras, eq, i)) ==>
              name !in LoraNames(RemoveLora(loras, name, eq))
  {
    var r := RemoveLora(loras, name, eq);
    if name in LoraNames(loras) {
      var first := FirstNamed(loras, name).value;
      var k := ListRemoveDeletes(loras, loras[first], eq);
      forall i, j | 0 <= i < j < |r| ensures r[i].loraName != r[j].loraName {
        DeletedAt(loras, k, i);
        DeletedAt(loras, k, j);
      }
      if NoEarlierEqual(loras, eq, first) {
        RemoveLoraPresent(loras, name, eq, first);
        forall i | 0 <= i < |r| ensures r[i].loraName != name {
          DeletedAt(loras, first, i);
        }
      }
    }
  }

  /** Deleting entries keeps ids pairwise distinct. */
  lemma RemoveLoraKeepsIdsDistinct(loras: Registry, name: string, eq: LoraEquality)
    requires IdsDistinct(loras)
    ensures IdsDistinct(RemoveLora(loras, name, eq))
  {
    var r := RemoveLora(loras, name, eq);
    if name in LoraNames(loras) {
      var first := FirstNamed(loras, name).value;
      var k := ListRemoveDeletes(loras, loras[first], eq);
      forall i, j | 0 <= i < j < |r| ensures r[i].loraIntId != r[j].loraIntId {
        DeletedAt(loras, k, i);
        DeletedAt(loras, k, j);
      }
    }
  }

  /**
   * Adding the same model twice in a row returns the same entry both times
   * and grows the registry by exactly one.
   */
  lemma AddLoraTwice(loras: Registry, model: LoraModel)
    requires model.name !in LoraNames(loras)
    ensures var (once, first) := AddLora(loras, model);
            var (twice, second) := AddLora(once, model);
            && second == first && twice == once && |twice| == |loras| + 1
  {
    AddLoraAbsent(loras, model);
    var once := AddLora(loras, model).0;
    assert LoraNames(once)[|loras|] == model.name;
    AddLoraPresent(once, model);
  }

  /**
   * Ids are NOT unique: add A (id 1), add B (id 2), remove A, add C; C gets
   * id `len + 1` = 2, which B still holds. This holds under either equality.
   */
  lemma IdCollision(eq: LoraEquality)
    ensures var a, b, c := LoraModel("a", "/a"), LoraModel("b", "/b"), LoraModel("c", "/c");
            var loras := AddLora(RemoveLora(AddLora(AddLora([], a).0, b).0, "a", eq), c).0;
            && loras == [LoRARequest("b", 2, "/b"), LoRARequest("c", 2, "/c")]
            && !IdsDistinct(loras)
  {
    var a, b, c := LoraModel("a", "/a"), LoraModel("b", "/b"), LoraModel("c", "/c");
    AddLoraAbsent([], a);
    var one := AddLora([], a).0;
    assert one == [LoRARequest("a", 1, "/a")];
    assert LoraNames(one) == ["a"];
    AddLoraAbsent(one, b);
    var two := AddLora(one, b).0;
    assert two == [LoRARequest("a", 1, "/a"), LoRARequest("b", 2, "/b")];
    assert IsFirstNamed(two, "a", 0);
    RemoveLoraPresent(two, "a", eq, 0);
    var three := RemoveLora(two, "a", eq);
    assert three == [LoRARequest("b", 2, "/b")];
    assert LoraNames(three) == ["b"];
    AddLoraAbsent(three, c);
  }

  /**
   * After that collision, removing "c" removes "c" under field-wise
   * equality, but under id equality `list.remove` finds "b" first (same id):
   * "b" is dropped and "c" stays registered.
   */
  lemma RemoveAfterCollision()
    ensures var loras := [LoRARequest("b", 2, "/b"), LoRARequest("c", 2, "/c")];
            && RemoveLora(loras, "c", FieldWise) == [LoRARequest("b", 2, "/b")]
            && RemoveLora(loras, "c", IdOnly) == [LoRARequest("c", 2, "/c")]
  {
    var loras := [LoRARequest("b", 2, "/b"), LoRARequest("c", 2, "/c")];
    assert LoraNames(loras) == ["b", "c"];
    assert IsFirstNamed(loras, "c", 1);
    RemoveLoraPresent(loras, "c", FieldWise, 1);
    assert loras[..1] + loras[2..] == [LoRARequest("b", 2, "/b")];
    ListRemoveAt(loras, loras[1], IdOnly, 0);
  }
}
