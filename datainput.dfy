/** Assembly of the estimator's input (`_set_model_data_input`): for each
    member of the data-input mapper, in order, the model attribute named by
    the member's lower-cased name is looked up; a missing or `None`
    attribute raises, a boolean becomes 0 or 1, and the value is stored
    under the member's value. */
module DataInput {
  import opened Wrappers
  import opened PyText
  import opened Tensors

  /** The Python values the model's attributes hold. */
  datatype PyValue =
    | PyNone
    | PyBool(b: bool)
    | PyInt(i: int)
    | PyFloat(x: real)
    | PyInts(ns: seq<int>)
    | PyFloats(xs: seq<real>)
    | PyBools(bs: seq<bool>)
    | PyResponse(ys: seq<Option<real>>)
    | PyMatrix(m: Matrix)

  /** One member of the data-input mapper enum: its upper-case name, which
      names an attribute once lower-cased, and its value, the estimator's key. */
  datatype MapperKey = MapperKey(name: string, value: string)

  /** `int(v)` for a boolean; every other value is passed unchanged. */
  function Convert(v: PyValue): (r: PyValue)
    ensures v.PyBool? ==> r == PyInt(if v.b then 1 else 0)
    ensures !v.PyBool? ==> r == v
    ensures r != PyNone <==> v != PyNone
  {
    if v.PyBool? then PyInt(if v.b then 1 else 0) else v
  }

  /** `getattr(self, name, None)` is not `None`. */
  predicate Present(attrs: map<string, PyValue>, name: string) {
    name in attrs && attrs[name] != PyNone
  }

  function MissingMessage(name: string): string {
    name + " is missing from data input"
  }

  /** The dictionary built from the first `|keys|` mapper members, or the
      error raised for the first member whose attribute is missing. */
  function Gather(keys: seq<MapperKey>, attrs: map<string, PyValue>): Result<map<string, PyValue>>
  {
    if keys == [] then Ok(map[])
    else
      var prev :- Gather(keys[..|keys| - 1], attrs);
      var key := keys[|keys| - 1];
      var name := Lower(key.name);
      if !Present(attrs, name) then Err(ModelException(MissingMessage(name)))
      else Ok(prev[key.value := Convert(attrs[name])])
  }

  /** The loop of `_set_model_data_input`. */
  method CollectDataInput(keys: seq<MapperKey>, attrs: map<string, PyValue>) returns (r: Result<map<string, PyValue>>)
    ensures r == Gather(keys, attrs)
  {
    var dataInputs: map<string, PyValue> := map[];
    for i := 0 to |keys|
      invariant Gather(keys[..i], attrs) == Ok(dataInputs)
    {
      assert keys[..i + 1][..i] == keys[..i];
      var keyLower := Lower(keys[i].name);
      if keyLower !in attrs || attrs[keyLower] == PyNone {
        r := Err(ModelException(MissingMessage(keyLower)));
        FirstMissingStops(keys, attrs, i);
        return;
      }
      var inputValue := attrs[keyLower];
      if inputValue.PyBool? {
        inputValue := PyInt(if inputValue.b then 1 else 0);
      }
      dataInputs := dataInputs[keys[i].value := inputValue];
    }
    assert keys[..|keys|] == keys;
    r := Ok(dataInputs);
  }

  /** Once a prefix fails, every longer prefix fails with the same error. */
  lemma {:induction false} FirstMissingStops(keys: seq<MapperKey>, attrs: map<string, PyValue>, i: nat)
    requires i < |keys|
    requires Gather(keys[..i], attrs).Ok?
    requires !Present(attrs, Lower(keys[i].name))
    ensures Gather(keys, attrs) == Err(ModelException(MissingMessage(Lower(keys[i].name))))
  {
    if i + 1 == |keys| {
      assert keys[..|keys| - 1] == keys[..i];
    } else {
      assert keys[..|keys| - 1][..i] == keys[..i];
      assert keys[..|keys| - 1][i] == keys[i];
      FirstMissingStops(keys[..|keys| - 1], attrs, i);
    }
  }

  /** The input is assembled exactly when every mapper member's attribute is set. */
  lemma {:induction false} GatherOkIff(keys: seq<MapperKey>, attrs: map<string, PyValue>)
    ensures Gather(keys, attrs).Ok? <==> forall j :: 0 <= j < |keys| ==> Present(attrs, Lower(keys[j].name))
  {
    if keys != [] {
      var init := keys[..|keys| - 1];
      GatherOkIff(init, attrs);
      assert forall j :: 0 <= j < |init| ==> init[j] == keys[j];
    }
  }

  /** On failure, the error names the first member whose attribute is missing. */
  lemma {:induction false} GatherErrorIsFirstMissing(keys: seq<MapperKey>, attrs: map<string, PyValue>)
    requires Gather(keys, attrs).Err?
    ensures exists j :: 0 <= j < |keys|
              && !Present(attrs, Lower(keys[j].name))
              && (forall k :: 0 <= k < j ==> Present(attrs, Lower(keys[k].name)))
              && Gather(keys, attrs).error == ModelException(MissingMessage(Lower(keys[j].name)))
  {
    var init := keys[..|keys| - 1];
    var last := |keys| - 1;
    if Gather(init, attrs).Err? {
      GatherErrorIsFirstMissing(init, attrs);
      var j :| 0 <= j < |init|
              && !Present(attrs, Lower(init[j].name))
              && (forall k :: 0 <= k < j ==> Present(attrs, Lower(init[k].name)))
              && Gather(init, attrs).error == ModelException(MissingMessage(Lower(init[j].name)));
      assert init[j] == keys[j];
      assert forall k :: 0 <= k < j ==> init[k] == keys[k];
    } else {
      GatherOkIff(init, attrs);
      assert forall k :: 0 <= k < last ==> init[k] == keys[k];
    }
  }

  /** On success, the keys are exactly the mapper values. */
  lemma {:induction false} GatherKeys(keys: seq<MapperKey>, attrs: map<string, PyValue>)
    requires Gather(keys, attrs).Ok?
    ensures Gather(keys, attrs).value.Keys == set j | 0 <= j < |keys| :: keys[j].value
  {
    if keys != [] {
      var init := keys[..|keys| - 1];
      GatherKeys(init, attrs);
      assert forall j :: 0 <= j < |init| ==> init[j] == keys[j];
      var s := set j | 0 <= j < |keys| :: keys[j].value;
      var s' := set j | 0 <= j < |init| :: init[j].value;
      assert s == s' + {keys[|keys| - 1].value};
    }
  }

  /** On success, the value under a member's key is its attribute (booleans
      as 0 or 1), unless a later member with the same value overwrote it. */
  lemma {:induction false} GatherValue(keys: seq<MapperKey>, attrs: map<string, PyValue>, j: nat)
    requires Gather(keys, attrs).Ok?
    requires j < |keys|
    requires forall k :: j < k < |keys| ==> keys[k].value != keys[j].value
    ensures Present(attrs, Lower(keys[j].name))
    ensures keys[j].value in Gather(keys, attrs).value
    ensures Gather(keys, attrs).value[keys[j].value] == Convert(attrs[Lower(keys[j].name)])
  {
    var last := |keys| - 1;
    var init := keys[..last];
    if j < last {
      GatherValue(init, attrs, j);
      assert init[j] == keys[j];
    }
  }
}
