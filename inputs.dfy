/**
  `parseInputs`: binds the material's `<input shaderVar=.. value=..>` elements
  to registry variables. The target is the first variable of that name; it
  must not be a builtin, and a non-constant target must not be instanced.
  Every accepted input marks its variable as set by the material and gives it
  the input's value.
*/
module Inputs {
  import opened Common
  import opened ShaderBinary
  import opened Builtins
  import opened Registry

  /** One `<input>` element: the variable it names and its (already parsed) value. */
  datatype InputEntry = InputEntry(shaderVar: string, value: InputValue)

  /** The data types `ShaderVariableDataType.defs.h` lists: every type but `NONE`, samplers and textures. */
  predicate IsNumericType(t: DataType) {
    t != NoType && !IsSampler(t) && !IsTexture(t)
  }

  /** One input applied to the variables. */
  function ParseInput(vars: seq<MaterialVariable>, e: InputEntry): Result<seq<MaterialVariable>> {
    var k := TryFindVariable(vars, e.shaderVar);
    if k.None? then Fail(UserData(VariableNotFound))
    else
      var v := vars[k.value];
      if v.builtin != NoBuiltin then Fail(UserData(BuiltinListed))
      else
        var bound := vars[k.value := v.(numericValueIsSet := true, value := Some(e.value))];
        if v.constant then
          // The value switch over the numeric data types; any other type hits `ANKI_ASSERT(0)`.
          if IsNumericType(v.dataType) then Ok(bound) else Fail(Fatal(UnsupportedInputType))
        else if v.instanced then Fail(UserData(InstancedInput))
        else if IsNumericType(v.dataType) || IsTexture(v.dataType) then Ok(bound)
        else Fail(Fatal(UnsupportedInputType))
  }

  /** The loop over the `<input>` elements, as a fold over a prefix. */
  function ParseInputsSpec(vars: seq<MaterialVariable>, entries: seq<InputEntry>): Result<seq<MaterialVariable>>
    decreases |entries|
  {
    if entries == [] then Ok(vars)
    else
      var done :- ParseInputsSpec(vars, entries[..|entries| - 1]);
      ParseInput(done, entries[|entries| - 1])
  }

  /** What an input may name: an existing non-builtin variable of a type it can carry, not an instanced uniform. */
  predicate InputValid(vars: seq<MaterialVariable>, e: InputEntry) {
    TryFindVariable(vars, e.shaderVar).Some? &&
    var v := vars[TryFindVariable(vars, e.shaderVar).value];
    && v.builtin == NoBuiltin
    && (v.constant ==> IsNumericType(v.dataType))
    && (!v.constant ==> !v.instanced && (IsNumericType(v.dataType) || IsTexture(v.dataType)))
  }

  /** The two variables agree on everything an input does not touch. */
  predicate SameButValue(a: MaterialVariable, b: MaterialVariable) {
    a.(numericValueIsSet := b.numericValueIsSet, value := b.value) == b
  }

  /** Every position of the registry agrees on everything an input does not touch. */
  predicate SameButValues(a: seq<MaterialVariable>, b: seq<MaterialVariable>) {
    |a| == |b| && forall i | 0 <= i < |a| :: SameButValue(a[i], b[i])
  }

  /** Lookup by name depends only on the names, which inputs do not change. */
  lemma SameButValuesFind(a: seq<MaterialVariable>, b: seq<MaterialVariable>, name: string)
    requires SameButValues(a, b)
    ensures Names(a) == Names(b)
    ensures TryFindVariable(a, name) == TryFindVariable(b, name)
  {
    assert forall i | 0 <= i < |a| :: a[i].name == b[i].name;
    assert Names(a) == Names(b);
  }

  /** The value the last input naming variable `i` gives it, if any input does. */
  function LastValueFor(vars: seq<MaterialVariable>, entries: seq<InputEntry>, i: nat): Option<InputValue>
    decreases |entries|
  {
    if entries == [] then None
    else if TryFindVariable(vars, entries[|entries| - 1].shaderVar) == Some(i) then Some(entries[|entries| - 1].value)
    else LastValueFor(vars, entries[..|entries| - 1], i)
  }

  /**
    One input, applied to a registry that differs from `vars` only in values:
    it is accepted exactly when it is valid for `vars`, and then it sets the
    flag and the value of the variable it names and of no other.
  */
  lemma ParseInputStep(vars: seq<MaterialVariable>, cur: seq<MaterialVariable>, e: InputEntry)
    requires SameButValues(vars, cur)
    ensures ParseInput(cur, e).Ok? <==> InputValid(vars, e)
    ensures ParseInput(cur, e).Ok? ==>
      var out := ParseInput(cur, e).value; var k := TryFindVariable(vars, e.shaderVar).value;
      && SameButValues(vars, out)
      && out[k].numericValueIsSet && out[k].value == Some(e.value)
      && forall i | 0 <= i < |cur| && i != k :: out[i] == cur[i]
  {
    SameButValuesFind(vars, cur, e.shaderVar);
    var k := TryFindVariable(vars, e.shaderVar);
    if k.Some? {
      assert SameButValue(vars[k.value], cur[k.value]);
    }
  }

  /** Accepted inputs change nothing but values and flags. */
  lemma {:induction false} ParseInputsFrame(vars: seq<MaterialVariable>, entries: seq<InputEntry>)
    requires ParseInputsSpec(vars, entries).Ok?
    ensures SameButValues(vars, ParseInputsSpec(vars, entries).value)
    decreases |entries|
  {
    if entries == [] {
      assert forall i | 0 <= i < |vars| :: SameButValue(vars[i], vars[i]);
    } else {
      var pre := entries[..|entries| - 1];
      ParseInputsFrame(vars, pre);
      ParseInputStep(vars, ParseInputsSpec(vars, pre).value, entries[|entries| - 1]);
    }
  }

  /** The fold of the inputs is accepted exactly when every input is valid. */
  lemma {:induction false} ParseInputsAccepts(vars: seq<MaterialVariable>, entries: seq<InputEntry>)
    ensures ParseInputsSpec(vars, entries).Ok? <==> AllHold((e: InputEntry) => InputValid(vars, e), entries)
    decreases |entries|
  {
    if entries != [] {
      var pre := entries[..|entries| - 1];
      ParseInputsAccepts(vars, pre);
      if ParseInputsSpec(vars, pre).Ok? {
        ParseInputsFrame(vars, pre);
        ParseInputStep(vars, ParseInputsSpec(vars, pre).value, entries[|entries| - 1]);
      }
    }
  }

  /** The inputs are accepted exactly when each is valid. */
  lemma ParseInputsIff(vars: seq<MaterialVariable>, entries: seq<InputEntry>)
    ensures ParseInputsSpec(vars, entries).Ok? <==> forall k | 0 <= k < |entries| :: InputValid(vars, entries[k])
  {
    ParseInputsAccepts(vars, entries);
    AllHoldEach((e: InputEntry) => InputValid(vars, e), entries);
  }

  /**
    After accepted inputs a variable is set exactly when it was already or
    some input names it, and it holds the value of the last input naming it.
    A repeated input is not rejected: the last one wins.
  */
  lemma {:induction false} ParseInputsValues(vars: seq<MaterialVariable>, entries: seq<InputEntry>)
    requires ParseInputsSpec(vars, entries).Ok?
    ensures var out := ParseInputsSpec(vars, entries).value;
      |out| == |vars| && forall i | 0 <= i < |vars| ::
        && (out[i].numericValueIsSet <==> vars[i].numericValueIsSet || LastValueFor(vars, entries, i).Some?)
        && out[i].value == (if LastValueFor(vars, entries, i).Some? then LastValueFor(vars, entries, i) else vars[i].value)
    decreases |entries|
  {
    if entries != [] {
      var pre := entries[..|entries| - 1];
      ParseInputsValues(vars, pre);
      ParseInputsFrame(vars, pre);
      ParseInputStep(vars, ParseInputsSpec(vars, pre).value, entries[|entries| - 1]);
    }
  }

  /** An `<input>` that fails ends the loop with its error. */
  lemma {:induction false} ParseInputsStopsAt(vars: seq<MaterialVariable>, entries: seq<InputEntry>, i: nat)
    requires i < |entries| && ParseInputsSpec(vars, entries[..i]).Ok?
    requires ParseInput(ParseInputsSpec(vars, entries[..i]).value, entries[i]).Fail?
    ensures ParseInputsSpec(vars, entries) == Fail(ParseInput(ParseInputsSpec(vars, entries[..i]).value, entries[i]).error)
    decreases |entries|
  {
    if i < |entries| - 1 {
      var pre := entries[..|entries| - 1];
      assert pre[..i] == entries[..i];
      ParseInputsStopsAt(vars, pre, i);
    } else {
      assert entries[..|entries| - 1] == entries[..i];
    }
  }
}
