/**
  The variable registry, `createVars`: one `MaterialVariable` per field of the
  per-draw and per-instance uniform blocks (element 0 only; element 1
  back-patches the stride index), per opaque resource in the material's
  descriptor set, and per program constant.

  The scan is written as folds over prefixes (`ScanBlocks`, `ScanVars`,
  `ScanOpaques`), so that the loops of `MaterialResource.CreateVars` can be
  proved step by step against them. Below the scan, reference definitions
  over the binary (`ZeroNames`, `CountAt`, `MaxSet`, ...) state what the
  registry holds without going through the checks.
*/
module Registry {
  import opened Common
  import opened ShaderBinary
  import opened Builtins
  import opened VarNames

  /** `MaterialVariable`; `None` stands for the engine's `MAX_U32` "unset". */
  datatype MaterialVariable = MaterialVariable(
    name: string,
    index: nat,
    indexInBinary: Option<nat>,
    indexInBinary2ndElement: Option<nat>,
    constant: bool,
    instanced: bool,
    dataType: DataType,
    builtin: BuiltinVarId,
    opaqueBinding: Option<nat>,
    numericValueIsSet: bool,
    value: Option<InputValue>)

  /** A field of a uniform block: neither a constant nor an opaque resource. */
  predicate InBlock(v: MaterialVariable) {
    !v.constant && v.opaqueBinding.None?
  }

  function Names(vars: seq<MaterialVariable>): (ns: seq<string>)
    ensures |ns| == |vars| && forall i | 0 <= i < |vars| :: ns[i] == vars[i].name
  {
    seq(|vars|, i requires 0 <= i < |vars| => vars[i].name)
  }

  predicate Distinct(ns: seq<string>) {
    forall i, j | 0 <= i < j < |ns| :: ns[i] != ns[j]
  }

  /** Every variable's `m_index` is its position in `m_vars`. */
  predicate Positions(vars: seq<MaterialVariable>) {
    forall i | 0 <= i < |vars| :: vars[i].index == i
  }

  /** `tryFindVariable`: the position of the first variable with that name. */
  function TryFindVariable(vars: seq<MaterialVariable>, name: string): (r: Option<nat>)
    ensures r.None? <==> name !in Names(vars)
    ensures r.Some? ==> r.value < |vars| && vars[r.value].name == name
    ensures r.Some? ==> forall k | 0 <= k < r.value :: vars[k].name != name
  {
    if |vars| == 0 then None
    else if vars[0].name == name then Some(0)
    else
      var rest := TryFindVariable(vars[1..], name);
      assert Names(vars) == [vars[0].name] + Names(vars[1..]);
      if rest.None? then None else Some(rest.value + 1)
  }

  // ---------------------------------------------------------------------------
  // The scan state: the variables so far and the loop's running values.
  // ---------------------------------------------------------------------------

  datatype Scan = Scan(
    vars: seq<MaterialVariable>,
    perDrawUboBinding: Option<nat>,
    perInstanceUboBinding: Option<nat>,
    perDrawUboIdx: Option<nat>,
    perInstanceUboIdx: Option<nat>,
    descriptorSet: Option<nat>,
    maxDescriptorSet: nat,
    instancedVarCount: nat,
    instancedVarWithMaxInstanceIdxCount: nat)

  const EmptyScan := Scan([], None, None, None, None, None, 0, 0, 0)

  /** The two block fields of the scan are equal. */
  predicate SameBlocks(a: Scan, b: Scan) {
    && a.perDrawUboBinding == b.perDrawUboBinding && a.perInstanceUboBinding == b.perInstanceUboBinding
    && a.perDrawUboIdx == b.perDrawUboIdx && a.perInstanceUboIdx == b.perInstanceUboIdx
    && a.descriptorSet == b.descriptorSet
  }

  /**
    The registry's variables so far are at their positions, are all block
    fields without a value from the material and have distinct names.
  */
  predicate BlockVarsShape(vars: seq<MaterialVariable>) {
    Positions(vars) && Distinct(Names(vars)) && forall i | 0 <= i < |vars| :: InBlock(vars[i]) && !vars[i].numericValueIsSet
  }

  /** `Some(instanced)` for the two material blocks, `None` for every other block. */
  function BlockKind(block: Block): Option<bool> {
    if block.name == "b_ankiPerDraw" then Some(false)
    else if block.name == "b_ankiPerInstance" then Some(true)
    else None
  }

  // ---------------------------------------------------------------------------
  // Reference definitions over the binary.
  // ---------------------------------------------------------------------------

  /** A field whose full name is well formed and whose array index is below `MAX_INSTANCE_COUNT`. */
  predicate FieldParses(instanced: bool, v: Variable) {
    var p := ParseVariable(v.name, instanced);
    p.Ok? && p.value.0 < MaxInstanceCount
  }

  /** The name a field contributes to the registry: its own when it is element 0. */
  function ZeroName(instanced: bool, v: Variable): seq<string> {
    var p := ParseVariable(v.name, instanced);
    if p.Ok? && p.value.0 == 0 then [p.value.1] else []
  }

  function ZeroNamesOfVars(instanced: bool, vs: seq<Variable>): seq<string>
    decreases |vs|
  {
    if vs == [] then [] else ZeroNamesOfVars(instanced, vs[..|vs| - 1]) + ZeroName(instanced, vs[|vs| - 1])
  }

  /** The element-0 field names of the material blocks, in scan order. */
  function ZeroNames(blocks: seq<Block>): seq<string>
    decreases |blocks|
  {
    if blocks == [] then []
    else
      var last := blocks[|blocks| - 1];
      ZeroNames(blocks[..|blocks| - 1])
        + (if BlockKind(last).Some? then ZeroNamesOfVars(BlockKind(last).value, last.variables) else [])
  }

  /** 1 when `v` is a per-instance field at array element `k`, 0 otherwise. */
  function CountOne(instanced: bool, k: nat, v: Variable): nat {
    var p := ParseVariable(v.name, instanced);
    if instanced && p.Ok? && p.value.0 == k then 1 else 0
  }

  /** How many fields of a per-instance block sit at array element `k`. */
  function CountAtInVars(instanced: bool, k: nat, vs: seq<Variable>): nat
    decreases |vs|
  {
    if vs == [] then 0 else CountAtInVars(instanced, k, vs[..|vs| - 1]) + CountOne(instanced, k, vs[|vs| - 1])
  }

  /** How many per-instance fields of the binary sit at array element `k`. */
  function CountAt(blocks: seq<Block>, k: nat): nat
    decreases |blocks|
  {
    if blocks == [] then 0
    else
      var last := blocks[|blocks| - 1];
      CountAt(blocks[..|blocks| - 1], k)
        + (if BlockKind(last).Some? then CountAtInVars(BlockKind(last).value, k, last.variables) else 0)
  }

  /** The highest descriptor set of the uniform blocks. */
  function MaxSet(blocks: seq<Block>): nat
    decreases |blocks|
  {
    if blocks == [] then 0 else Max(MaxSet(blocks[..|blocks| - 1]), blocks[|blocks| - 1].descriptorSet)
  }

  /** The highest descriptor set of the opaque resources, starting from `m`. */
  function MaxOpaqueSet(m: nat, opaques: seq<Opaque>): nat
    decreases |opaques|
  {
    if opaques == [] then m else Max(MaxOpaqueSet(m, opaques[..|opaques| - 1]), opaques[|opaques| - 1].descriptorSet)
  }

  predicate IsMaterialBlock(blocks: seq<Block>, b: int) {
    0 <= b < |blocks| && BlockKind(blocks[b]).Some?
  }

  // ---------------------------------------------------------------------------
  // The scan.
  // ---------------------------------------------------------------------------

  /** Appending a block field under a fresh name keeps the registry's shape. */
  lemma AppendShape(vars: seq<MaterialVariable>, v: MaterialVariable)
    requires v.index == |vars| && InBlock(v) && !v.numericValueIsSet && v.name !in Names(vars)
    ensures Names(vars + [v]) == Names(vars) + [v.name]
    ensures BlockVarsShape(vars) ==> BlockVarsShape(vars + [v])
  {
    assert Names(vars + [v]) == Names(vars) + [v.name];
  }

  /** Back-patching one variable without touching its name, index or kind keeps the shape. */
  lemma PatchShape(vars: seq<MaterialVariable>, k: nat, v: MaterialVariable)
    requires k < |vars| && v.name == vars[k].name && v.index == vars[k].index
    requires v.constant == vars[k].constant && v.opaqueBinding == vars[k].opaqueBinding
    requires v.numericValueIsSet == vars[k].numericValueIsSet
    ensures Names(vars[k := v]) == Names(vars)
    ensures BlockVarsShape(vars) ==> BlockVarsShape(vars[k := v])
  {
    assert Names(vars[k := v]) == Names(vars);
  }

  /** One parsed field `(idx, name)` at position `j` of the current block. */
  function ScanField(s: Scan, instanced: bool, j: nat, idx: nat, name: string, dataType: DataType): (r: Result<Scan>)
    ensures r.Ok? ==> idx < MaxInstanceCount
    ensures r.Ok? ==> Names(r.value.vars) == Names(s.vars) + (if idx == 0 then [name] else [])
    ensures r.Ok? && BlockVarsShape(s.vars) ==> BlockVarsShape(r.value.vars)
    ensures r.Ok? ==> SameBlocks(s, r.value) && r.value.maxDescriptorSet == s.maxDescriptorSet
    ensures r.Ok? ==>
      r.value.instancedVarCount == s.instancedVarCount + (if instanced && idx == 0 then 1 else 0)
    ensures r.Ok? ==>
      r.value.instancedVarWithMaxInstanceIdxCount
      == s.instancedVarWithMaxInstanceIdxCount + (if instanced && idx == MaxInstanceCount - 1 then 1 else 0)
  {
    if |name| == 0 then Fail(Fatal(EmptyVariableName))
    else
      var s1 := if instanced && idx == MaxInstanceCount - 1
        then s.(instancedVarWithMaxInstanceIdxCount := s.instancedVarWithMaxInstanceIdxCount + 1)
        else s;
      if idx > 0 then
        if idx >= MaxInstanceCount then Fail(UserData(ArrayExceedsInstanceCount))
        else if idx == 1 then
          var other := TryFindVariable(s1.vars, name);
          if other.None? then Fail(Fatal(FirstElementMissing))
          else if s1.vars[other.value].indexInBinary2ndElement.Some? then Fail(Fatal(SecondElementTwice))
          else
            var k := other.value;
            var patchedVar := s1.vars[k].(indexInBinary2ndElement := Some(j));
            PatchShape(s1.vars, k, patchedVar);
            Ok(s1.(vars := s1.vars[k := patchedVar]))
        else Ok(s1)
      else if TryFindVariable(s1.vars, name).Some? then Fail(UserData(VariableFoundTwice))
      else
        var builtin :- CheckBuiltin(name, dataType, instanced);
        var nv := MaterialVariable(name, |s1.vars|, Some(j), None, false, instanced,
                                   dataType, builtin, None, false, None);
        AppendShape(s1.vars, nv);
        Ok(s1.(vars := s1.vars + [nv],
               instancedVarCount := s1.instancedVarCount + (if instanced then 1 else 0)))
  }

  /** Element `j` of the current block: `parseVariable`, then the registry step. */
  function ScanVar(s: Scan, instanced: bool, j: nat, v: Variable): (r: Result<Scan>)
    ensures r.Ok? ==> FieldParses(instanced, v)
    ensures r.Ok? ==> Names(r.value.vars) == Names(s.vars) + ZeroName(instanced, v)
    ensures r.Ok? && BlockVarsShape(s.vars) ==> BlockVarsShape(r.value.vars)
    ensures r.Ok? ==> SameBlocks(s, r.value) && r.value.maxDescriptorSet == s.maxDescriptorSet
    ensures r.Ok? ==> r.value.instancedVarCount == s.instancedVarCount + CountOne(instanced, 0, v)
    ensures r.Ok? ==>
      r.value.instancedVarWithMaxInstanceIdxCount
      == s.instancedVarWithMaxInstanceIdxCount + CountOne(instanced, MaxInstanceCount - 1, v)
  {
    var p := ParseVariable(v.name, instanced);
    if p.Fail? then Fail(p.error)
    else ScanField(s, instanced, j, p.value.0, p.value.1, v.dataType)
  }

  /** The fields of one material block, in order. */
  function ScanVars(s: Scan, instanced: bool, vs: seq<Variable>): (r: Result<Scan>)
    ensures r.Ok? ==> SameBlocks(s, r.value) && r.value.maxDescriptorSet == s.maxDescriptorSet
    decreases |vs|
  {
    if vs == [] then Ok(s)
    else
      var s1 :- ScanVars(s, instanced, vs[..|vs| - 1]);
      ScanVar(s1, instanced, |vs| - 1, vs[|vs| - 1])
  }

  /** Every field of `vs` is well formed, stated as a fold so that it follows the scan. */
  predicate AllFieldsParse(instanced: bool, vs: seq<Variable>)
    decreases |vs|
  {
    vs == [] || (AllFieldsParse(instanced, vs[..|vs| - 1]) && FieldParses(instanced, vs[|vs| - 1]))
  }

  /** The fold form of `AllFieldsParse` states it of every field. */
  lemma {:induction false} AllFieldsParseEach(instanced: bool, vs: seq<Variable>)
    requires AllFieldsParse(instanced, vs)
    ensures forall j | 0 <= j < |vs| :: FieldParses(instanced, vs[j])
    decreases |vs|
  {
    if vs != [] {
      var pre := vs[..|vs| - 1];
      AllFieldsParseEach(instanced, pre);
      forall j | 0 <= j < |vs| ensures FieldParses(instanced, vs[j]) {
        if j < |pre| { assert pre[j] == vs[j]; }
      }
    }
  }

  /** Every field of a block that scans is well formed and within the instance count. */
  lemma {:induction false} ScanVarsParse(s: Scan, instanced: bool, vs: seq<Variable>)
    requires ScanVars(s, instanced, vs).Ok?
    ensures AllFieldsParse(instanced, vs)
    decreases |vs|
  {
    if vs != [] {
      ScanVarsParse(s, instanced, vs[..|vs| - 1]);
    }
  }

  /** A block adds its element-0 names, in order, and keeps the registry's shape. */
  lemma {:induction false} ScanVarsNames(s: Scan, instanced: bool, vs: seq<Variable>)
    requires ScanVars(s, instanced, vs).Ok?
    ensures Names(ScanVars(s, instanced, vs).value.vars) == Names(s.vars) + ZeroNamesOfVars(instanced, vs)
    ensures BlockVarsShape(s.vars) ==> BlockVarsShape(ScanVars(s, instanced, vs).value.vars)
    decreases |vs|
  {
    if vs != [] {
      ScanVarsNames(s, instanced, vs[..|vs| - 1]);
    }
  }

  /** A block adds its per-instance elements 0 and `MAX_INSTANCE_COUNT - 1` to the two counters. */
  lemma {:induction false} ScanVarsCounts(s: Scan, instanced: bool, vs: seq<Variable>)
    requires ScanVars(s, instanced, vs).Ok?
    ensures ScanVars(s, instanced, vs).value.instancedVarCount == s.instancedVarCount + CountAtInVars(instanced, 0, vs)
    ensures ScanVars(s, instanced, vs).value.instancedVarWithMaxInstanceIdxCount
            == s.instancedVarWithMaxInstanceIdxCount + CountAtInVars(instanced, MaxInstanceCount - 1, vs)
    decreases |vs|
  {
    if vs != [] {
      ScanVarsCounts(s, instanced, vs[..|vs| - 1]);
    }
  }

  /** The block bookkeeping of `createVars` for a material block at position `b`. */
  function EnterBlock(s: Scan, b: nat, block: Block): (r: Result<Scan>)
    requires BlockKind(block).Some?
    ensures r.Ok? ==> r.value.vars == s.vars && r.value.maxDescriptorSet == s.maxDescriptorSet
    ensures r.Ok? ==> r.value.instancedVarCount == s.instancedVarCount
    ensures r.Ok? ==> r.value.instancedVarWithMaxInstanceIdxCount == s.instancedVarWithMaxInstanceIdxCount
    ensures r.Ok? ==> r.value.descriptorSet == Some(block.descriptorSet)
    ensures r.Ok? && s.descriptorSet.Some? ==> s.descriptorSet == Some(block.descriptorSet)
    ensures r.Ok? && !BlockKind(block).value ==>
      r.value.perDrawUboIdx == Some(b) && r.value.perDrawUboBinding == Some(block.binding)
      && (s.perDrawUboIdx.Some? ==> s.perDrawUboIdx == Some(b))
      && r.value.perInstanceUboIdx == s.perInstanceUboIdx && r.value.perInstanceUboBinding == s.perInstanceUboBinding
    ensures r.Ok? && BlockKind(block).value ==>
      r.value.perInstanceUboIdx == Some(b) && r.value.perInstanceUboBinding == Some(block.binding)
      && (s.perInstanceUboIdx.Some? ==> s.perInstanceUboIdx == Some(b))
      && r.value.perDrawUboIdx == s.perDrawUboIdx && r.value.perDrawUboBinding == s.perDrawUboBinding
  {
    var instanced := BlockKind(block).value;
    if !instanced && s.perDrawUboIdx.Some? && s.perDrawUboIdx != Some(b) then Fail(Fatal(DuplicateUbo))
    else if instanced && s.perInstanceUboIdx.Some? && s.perInstanceUboIdx != Some(b) then Fail(Fatal(DuplicateUbo))
    else
      var s1 := if !instanced then s.(perDrawUboBinding := Some(block.binding), perDrawUboIdx := Some(b))
                else s.(perInstanceUboBinding := Some(block.binding), perInstanceUboIdx := Some(b));
      if s1.descriptorSet.Some? && s1.descriptorSet != Some(block.descriptorSet) then
        Fail(UserData(MixedUboDescriptorSets))
      else Ok(s1.(descriptorSet := Some(block.descriptorSet)))
  }

  /** One uniform block at position `b`: every block raises the running maximum set. */
  function ScanBlock(s: Scan, b: nat, block: Block): Result<Scan> {
    var s0 := s.(maxDescriptorSet := Max(s.maxDescriptorSet, block.descriptorSet));
    if BlockKind(block).None? then Ok(s0)
    else
      var s1 :- EnterBlock(s0, b, block);
      ScanVars(s1, BlockKind(block).value, block.variables)
  }

  /** The loop over `binary.m_uniformBlocks`. */
  function ScanBlocks(blocks: seq<Block>): (r: Result<Scan>)
    ensures r.Ok? ==> r.value.maxDescriptorSet == MaxSet(blocks)
    decreases |blocks|
  {
    if blocks == [] then Ok(EmptyScan)
    else
      var s :- ScanBlocks(blocks[..|blocks| - 1]);
      ScanBlock(s, |blocks| - 1, blocks[|blocks| - 1])
  }

  /** Every field of every material block is well formed, as a fold over the blocks. */
  predicate MaterialFieldsParse(blocks: seq<Block>)
    decreases |blocks|
  {
    if blocks == [] then true
    else
      var last := blocks[|blocks| - 1];
      MaterialFieldsParse(blocks[..|blocks| - 1])
        && (BlockKind(last).Some? ==> AllFieldsParse(BlockKind(last).value, last.variables))
  }

  /** The fold form of `MaterialFieldsParse` states it of every field of every material block. */
  lemma {:induction false} MaterialFieldsParseEach(blocks: seq<Block>)
    requires MaterialFieldsParse(blocks)
    ensures forall b, j | IsMaterialBlock(blocks, b) && 0 <= j < |blocks[b].variables| ::
      FieldParses(BlockKind(blocks[b]).value, blocks[b].variables[j])
    decreases |blocks|
  {
    if blocks != [] {
      var pre := blocks[..|blocks| - 1];
      var last := blocks[|blocks| - 1];
      MaterialFieldsParseEach(pre);
      assert forall b | 0 <= b < |pre| :: pre[b] == blocks[b];
      if BlockKind(last).Some? {
        AllFieldsParseEach(BlockKind(last).value, last.variables);
      }
    }
  }

  /** On success every field of a material block is well formed and within the instance count. */
  lemma {:induction false} ScanBlocksParse(blocks: seq<Block>)
    requires ScanBlocks(blocks).Ok?
    ensures MaterialFieldsParse(blocks)
    decreases |blocks|
  {
    if blocks != [] {
      var pre := blocks[..|blocks| - 1];
      var last := blocks[|blocks| - 1];
      ScanBlocksParse(pre);
      if BlockKind(last).Some? {
        var s := ScanBlocks(pre).value;
        var s0 := s.(maxDescriptorSet := Max(s.maxDescriptorSet, last.descriptorSet));
        ScanVarsParse(EnterBlock(s0, |blocks| - 1, last).value, BlockKind(last).value, last.variables);
      }
    }
  }

  /** On success the registry holds the element-0 names in scan order, at their positions, without repeats. */
  lemma {:induction false} ScanBlocksNames(blocks: seq<Block>)
    requires ScanBlocks(blocks).Ok?
    ensures Names(ScanBlocks(blocks).value.vars) == ZeroNames(blocks)
    ensures BlockVarsShape(ScanBlocks(blocks).value.vars)
    decreases |blocks|
  {
    if blocks != [] {
      var pre := blocks[..|blocks| - 1];
      var last := blocks[|blocks| - 1];
      ScanBlocksNames(pre);
      if BlockKind(last).Some? {
        var s := ScanBlocks(pre).value;
        var s0 := s.(maxDescriptorSet := Max(s.maxDescriptorSet, last.descriptorSet));
        ScanVarsNames(EnterBlock(s0, |blocks| - 1, last).value, BlockKind(last).value, last.variables);
      }
    }
  }

  /** On success the counters count the per-instance fields at elements 0 and `MAX_INSTANCE_COUNT - 1`. */
  lemma {:induction false} ScanBlocksCounts(blocks: seq<Block>)
    requires ScanBlocks(blocks).Ok?
    ensures ScanBlocks(blocks).value.instancedVarCount == CountAt(blocks, 0)
    ensures ScanBlocks(blocks).value.instancedVarWithMaxInstanceIdxCount == CountAt(blocks, MaxInstanceCount - 1)
    decreases |blocks|
  {
    if blocks != [] {
      var pre := blocks[..|blocks| - 1];
      var last := blocks[|blocks| - 1];
      ScanBlocksCounts(pre);
      if BlockKind(last).Some? {
        var s := ScanBlocks(pre).value;
        var s0 := s.(maxDescriptorSet := Max(s.maxDescriptorSet, last.descriptorSet));
        ScanVarsCounts(EnterBlock(s0, |blocks| - 1, last).value, BlockKind(last).value, last.variables);
      }
    }
  }

  /** On success all material blocks share one descriptor set, and there is one exactly when a material block exists. */
  lemma {:induction false} ScanBlocksSets(blocks: seq<Block>)
    requires ScanBlocks(blocks).Ok?
    ensures ScanBlocks(blocks).value.descriptorSet.Some? <==> exists b :: IsMaterialBlock(blocks, b)
    ensures forall b | IsMaterialBlock(blocks, b) :: ScanBlocks(blocks).value.descriptorSet == Some(blocks[b].descriptorSet)
    decreases |blocks|
  {
    if blocks != [] {
      var pre := blocks[..|blocks| - 1];
      var last := blocks[|blocks| - 1];
      ScanBlocksSets(pre);
      var s := ScanBlocks(pre).value;
      var s0 := s.(maxDescriptorSet := Max(s.maxDescriptorSet, last.descriptorSet));
      var r := ScanBlocks(blocks).value;
      if BlockKind(last).Some? {
        var e := EnterBlock(s0, |blocks| - 1, last).value;
        assert SameBlocks(e, r);
      } else {
        assert SameBlocks(s0, r);
      }
      SetsStep(blocks, pre, s.descriptorSet, r.descriptorSet);
    }
  }

  /** One block of the scan keeps the facts of `ScanBlocksSets`, for the set `d` before it and `d'` after it. */
  lemma SetsStep(blocks: seq<Block>, pre: seq<Block>, d: Option<nat>, d': Option<nat>)
    requires blocks != [] && pre == blocks[..|blocks| - 1]
    requires d.Some? <==> exists b :: IsMaterialBlock(pre, b)
    requires forall b | IsMaterialBlock(pre, b) :: d == Some(pre[b].descriptorSet)
    requires BlockKind(blocks[|blocks| - 1]).Some? ==>
      d' == Some(blocks[|blocks| - 1].descriptorSet) && (d.Some? ==> d == d')
    requires BlockKind(blocks[|blocks| - 1]).None? ==> d' == d
    ensures d'.Some? <==> exists b :: IsMaterialBlock(blocks, b)
    ensures forall b | IsMaterialBlock(blocks, b) :: d' == Some(blocks[b].descriptorSet)
  {
    var n := |blocks| - 1;
    forall b | IsMaterialBlock(blocks, b) ensures d' == Some(blocks[b].descriptorSet) {
      if b < n {
        assert blocks[b] == pre[b];
        assert IsMaterialBlock(pre, b);
      }
    }
    if d'.Some? && BlockKind(blocks[n]).None? {
      var b :| IsMaterialBlock(pre, b);
      assert blocks[b] == pre[b];
      assert IsMaterialBlock(blocks, b);
    }
    if d'.Some? && BlockKind(blocks[n]).Some? {
      assert IsMaterialBlock(blocks, n);
    }
    if exists b :: IsMaterialBlock(blocks, b) {
      var b :| IsMaterialBlock(blocks, b);
      if b < n {
        assert blocks[b] == pre[b];
        assert IsMaterialBlock(pre, b);
      }
    }
  }

  /** The recorded position of the per-draw (`false`) or per-instance (`true`) block. */
  function UboIdx(s: Scan, instanced: bool): Option<nat> {
    if instanced then s.perInstanceUboIdx else s.perDrawUboIdx
  }

  /** The recorded binding of the per-draw (`false`) or per-instance (`true`) block. */
  function UboBinding(s: Scan, instanced: bool): Option<nat> {
    if instanced then s.perInstanceUboBinding else s.perDrawUboBinding
  }

  /**
    On success at most one block of each kind exists: every block of the kind
    is the recorded one, with the recorded binding, and a recorded position
    names a block of that kind.
  */
  lemma {:induction false} ScanBlocksUbo(blocks: seq<Block>, instanced: bool)
    requires ScanBlocks(blocks).Ok?
    ensures forall b | 0 <= b < |blocks| && BlockKind(blocks[b]) == Some(instanced) ::
      UboIdx(ScanBlocks(blocks).value, instanced) == Some(b)
      && UboBinding(ScanBlocks(blocks).value, instanced) == Some(blocks[b].binding)
    ensures UboIdx(ScanBlocks(blocks).value, instanced).Some? ==>
      UboIdx(ScanBlocks(blocks).value, instanced).value < |blocks|
      && BlockKind(blocks[UboIdx(ScanBlocks(blocks).value, instanced).value]) == Some(instanced)
    ensures UboBinding(ScanBlocks(blocks).value, instanced).Some? <==> UboIdx(ScanBlocks(blocks).value, instanced).Some?
    decreases |blocks|
  {
    if blocks != [] {
      var n := |blocks| - 1;
      var pre := blocks[..n];
      var last := blocks[n];
      ScanBlocksUbo(pre, instanced);
      var s := ScanBlocks(pre).value;
      var s0 := s.(maxDescriptorSet := Max(s.maxDescriptorSet, last.descriptorSet));
      var r := ScanBlocks(blocks).value;
      if BlockKind(last).Some? {
        var e := EnterBlock(s0, n, last).value;
        assert SameBlocks(e, r);
      } else {
        assert SameBlocks(s0, r);
      }
      UboStep(blocks, s, r, instanced);
    }
  }

  /** One block of the scan keeps the facts of `ScanBlocksUbo`. */
  lemma UboStep(blocks: seq<Block>, s: Scan, r: Scan, instanced: bool)
    requires blocks != []
    requires var pre := blocks[..|blocks| - 1];
      forall b | 0 <= b < |pre| && BlockKind(pre[b]) == Some(instanced) ::
        UboIdx(s, instanced) == Some(b) && UboBinding(s, instanced) == Some(pre[b].binding)
    requires UboIdx(s, instanced).Some? ==>
      UboIdx(s, instanced).value < |blocks| - 1 && BlockKind(blocks[..|blocks| - 1][UboIdx(s, instanced).value]) == Some(instanced)
    requires UboBinding(s, instanced).Some? <==> UboIdx(s, instanced).Some?
    requires BlockKind(blocks[|blocks| - 1]) == Some(instanced) ==>
      UboIdx(r, instanced) == Some(|blocks| - 1) && UboBinding(r, instanced) == Some(blocks[|blocks| - 1].binding)
      && (UboIdx(s, instanced).Some? ==> UboIdx(s, instanced) == Some(|blocks| - 1))
    requires BlockKind(blocks[|blocks| - 1]) != Some(instanced) ==>
      UboIdx(r, instanced) == UboIdx(s, instanced) && UboBinding(r, instanced) == UboBinding(s, instanced)
    ensures forall b | 0 <= b < |blocks| && BlockKind(blocks[b]) == Some(instanced) ::
      UboIdx(r, instanced) == Some(b) && UboBinding(r, instanced) == Some(blocks[b].binding)
    ensures UboIdx(r, instanced).Some? ==>
      UboIdx(r, instanced).value < |blocks| && BlockKind(blocks[UboIdx(r, instanced).value]) == Some(instanced)
    ensures UboBinding(r, instanced).Some? <==> UboIdx(r, instanced).Some?
  {
    var n := |blocks| - 1;
    var pre := blocks[..n];
    forall b | 0 <= b < |blocks| && BlockKind(blocks[b]) == Some(instanced)
      ensures UboIdx(r, instanced) == Some(b) && UboBinding(r, instanced) == Some(blocks[b].binding)
    {
      if b < n {
        assert blocks[b] == pre[b];
      }
    }
    if UboIdx(r, instanced).Some? && BlockKind(blocks[n]) != Some(instanced) {
      assert blocks[UboIdx(s, instanced).value] == pre[UboIdx(s, instanced).value];
    }
  }

  /** The variable `createVars` makes of opaque `j` at registry position `index`. */
  function OpaqueVar(index: nat, j: nat, o: Opaque, builtin: BuiltinVarId): MaterialVariable {
    MaterialVariable(o.name, index, Some(j), None, false, false, o.dataType, builtin, Some(o.binding), false, None)
  }

  /** The builtin id of an opaque resource that passed `checkBuiltin`. */
  function OpaqueBuiltin(o: Opaque): BuiltinVarId {
    var b := CheckBuiltin(o.name, o.dataType, false);
    if b.Ok? then b.value else NoBuiltin
  }

  /** The positions, in order, of the opaques that live in descriptor set `dset`. */
  function InSetPositions(opaques: seq<Opaque>, dset: Option<nat>): (ps: seq<nat>)
    ensures forall i | 0 <= i < |ps| :: ps[i] < |opaques| && dset == Some(opaques[ps[i]].descriptorSet)
    decreases |opaques|
  {
    if opaques == [] then []
    else
      var j := |opaques| - 1;
      InSetPositions(opaques[..j], dset) + (if dset == Some(opaques[j].descriptorSet) then [j] else [])
  }

  /** Opaque resource `j`: kept only when it lives in the material's descriptor set. */
  function ScanOpaque(s: Scan, j: nat, o: Opaque): (r: Result<Scan>)
    ensures r.Ok? ==> SameBlocks(s, r.value) && r.value.maxDescriptorSet == Max(s.maxDescriptorSet, o.descriptorSet)
    ensures r.Ok? ==>
      r.value.vars == s.vars + (if s.descriptorSet == Some(o.descriptorSet) then [OpaqueVar(|s.vars|, j, o, OpaqueBuiltin(o))] else [])
    ensures s.descriptorSet == Some(o.descriptorSet) && CheckBuiltin(o.name, o.dataType, false).Fail? ==> r.Fail?
  {
    var s0 := s.(maxDescriptorSet := Max(s.maxDescriptorSet, o.descriptorSet));
    if s0.descriptorSet != Some(o.descriptorSet) then Ok(s0)
    else
      var builtin :- CheckBuiltin(o.name, o.dataType, false);
      Ok(s0.(vars := s0.vars + [OpaqueVar(|s0.vars|, j, o, builtin)]))
  }

  /**
    The loop over `binary.m_opaques`: behind the block fields come, in binary
    order, one variable per opaque resource of the material's descriptor set.
  */
  function ScanOpaques(s: Scan, opaques: seq<Opaque>): (r: Result<Scan>)
    ensures r.Ok? ==> SameBlocks(s, r.value)
    ensures r.Ok? ==> r.value.maxDescriptorSet == MaxOpaqueSet(s.maxDescriptorSet, opaques)
    ensures r.Ok? && Positions(s.vars) ==> Positions(r.value.vars)
    ensures r.Ok? ==> var ps := InSetPositions(opaques, s.descriptorSet);
      && |r.value.vars| == |s.vars| + |ps| && r.value.vars[..|s.vars|] == s.vars
      && forall i | 0 <= i < |ps| ::
           r.value.vars[|s.vars| + i] == OpaqueVar(|s.vars| + i, ps[i], opaques[ps[i]], OpaqueBuiltin(opaques[ps[i]]))
    decreases |opaques|
  {
    if opaques == [] then Ok(s)
    else
      var pre := opaques[..|opaques| - 1];
      var s1 :- ScanOpaques(s, pre);
      var r := ScanOpaque(s1, |opaques| - 1, opaques[|opaques| - 1]);
      assert forall j | 0 <= j < |pre| :: pre[j] == opaques[j];
      r
  }

  /** The variable made of program constant `c` at registry position `index`. */
  function ConstantVar(index: nat, c: Constant): MaterialVariable {
    MaterialVariable(c.name, index, None, None, true, false, c.dataType, NoBuiltin, None, false, None)
  }

  /** The loop over the program's constants: one constant variable each, appended in order. */
  function AppendConstants(vars: seq<MaterialVariable>, constants: seq<Constant>): (r: seq<MaterialVariable>)
    ensures |r| == |vars| + |constants| && r[..|vars|] == vars
    ensures forall k | 0 <= k < |constants| :: r[|vars| + k] == ConstantVar(|vars| + k, constants[k])
  {
    vars + seq(|constants|, k requires 0 <= k < |constants| => ConstantVar(|vars| + k, constants[k]))
  }

  /** What `createVars` leaves in the material. */
  datatype Registry = Registry(
    vars: seq<MaterialVariable>,
    perDrawUboBinding: Option<nat>,
    perInstanceUboBinding: Option<nat>,
    perDrawUboIdx: Option<nat>,
    perInstanceUboIdx: Option<nat>,
    descriptorSetIdx: nat)

  /** `createVars`. */
  function CreateVarsSpec(binary: Binary, constants: seq<Constant>): Result<Registry> {
    var s :- ScanBlocks(binary.uniformBlocks);
    if s.instancedVarWithMaxInstanceIdxCount != s.instancedVarCount then Fail(UserData(PerInstanceNotFullyPopulated))
    else if s.perDrawUboBinding.None? && s.perInstanceUboBinding.None? then Fail(UserData(BothUbosMissing))
    else
      var s2 :- ScanOpaques(s, binary.opaques);
      if s2.descriptorSet != Some(s2.maxDescriptorSet) then Fail(UserData(NotHighestDescriptorSet))
      else
        // `m_descriptorSetIdx` is a U8.
        Ok(Registry(AppendConstants(s2.vars, constants), s2.perDrawUboBinding, s2.perInstanceUboBinding,
                    s2.perDrawUboIdx, s2.perInstanceUboIdx, s2.maxDescriptorSet % 256))
  }

  // ---------------------------------------------------------------------------
  // What a successful `createVars` guarantees, and what it rejects.
  // ---------------------------------------------------------------------------

  /** The descriptor set every material block and kept opaque lives in: the highest one of the binary. */
  function MaterialSet(binary: Binary): nat {
    MaxOpaqueSet(MaxSet(binary.uniformBlocks), binary.opaques)
  }

  /** The scan state `createVars` has reached after the uniform blocks and after the opaques. */
  lemma CreateVarsScans(binary: Binary, constants: seq<Constant>)
    requires CreateVarsSpec(binary, constants).Ok?
    ensures ScanBlocks(binary.uniformBlocks).Ok?
    ensures ScanOpaques(ScanBlocks(binary.uniformBlocks).value, binary.opaques).Ok?
    ensures var s := ScanBlocks(binary.uniformBlocks).value;
      var s2 := ScanOpaques(s, binary.opaques).value;
      && s.descriptorSet == Some(MaterialSet(binary))
      && CreateVarsSpec(binary, constants).value.vars == AppendConstants(s2.vars, constants)
  {
  }

  /**
    The registry begins with the element-0 block fields, in scan order and
    under distinct names, and every variable's index is its position.
  */
  lemma CreateVarsBlockFields(binary: Binary, constants: seq<Constant>)
    requires CreateVarsSpec(binary, constants).Ok?
    ensures var vars := CreateVarsSpec(binary, constants).value.vars;
      var zs := ZeroNames(binary.uniformBlocks);
      && Distinct(zs)
      && |zs| <= |vars|
      && Positions(vars)
      && (forall i | 0 <= i < |zs| :: vars[i].name == zs[i] && InBlock(vars[i]))
  {
    CreateVarsScans(binary, constants);
    var s := ScanBlocks(binary.uniformBlocks).value;
    ScanBlocksNames(binary.uniformBlocks);
    var s2 := ScanOpaques(s, binary.opaques).value;
    var vars := CreateVarsSpec(binary, constants).value.vars;
    assert Positions(s2.vars);
    forall i | |s2.vars| <= i < |vars| ensures vars[i].index == i {
      assert vars[i] == ConstantVar(|s2.vars| + (i - |s2.vars|), constants[i - |s2.vars|]);
    }
    assert forall i | 0 <= i < |s.vars| :: vars[i] == s.vars[i];
  }

  /** No variable of a fresh registry carries a value from the material. */
  lemma CreateVarsUnset(binary: Binary, constants: seq<Constant>)
    requires CreateVarsSpec(binary, constants).Ok?
    ensures var vars := CreateVarsSpec(binary, constants).value.vars;
      forall i | 0 <= i < |vars| :: !vars[i].numericValueIsSet
  {
    CreateVarsBlocksUnset(binary, constants);
    CreateVarsResources(binary, constants);
    var vars := CreateVarsSpec(binary, constants).value.vars;
    var n := |ZeroNames(binary.uniformBlocks)|;
    var ps := InSetPositions(binary.opaques, Some(MaterialSet(binary)));
    forall i | n <= i < |vars| ensures !vars[i].numericValueIsSet {
      if i < n + |ps| {
        assert vars[n + (i - n)] == OpaqueVar(i, ps[i - n], binary.opaques[ps[i - n]], OpaqueBuiltin(binary.opaques[ps[i - n]]));
      } else {
        var k := i - n - |ps|;
        assert vars[n + |ps| + k] == ConstantVar(i, constants[k]);
      }
    }
  }

  /** The block fields a fresh registry starts with carry no value from the material. */
  lemma CreateVarsBlocksUnset(binary: Binary, constants: seq<Constant>)
    requires CreateVarsSpec(binary, constants).Ok?
    ensures var vars := CreateVarsSpec(binary, constants).value.vars;
      && |ZeroNames(binary.uniformBlocks)| <= |vars|
      && forall i | 0 <= i < |ZeroNames(binary.uniformBlocks)| :: !vars[i].numericValueIsSet
  {
    CreateVarsScans(binary, constants);
    ScanBlocksNames(binary.uniformBlocks);
    var s := ScanBlocks(binary.uniformBlocks).value;
    var s2 := ScanOpaques(s, binary.opaques).value;
    var vars := CreateVarsSpec(binary, constants).value.vars;
    forall i | 0 <= i < |s.vars| ensures !vars[i].numericValueIsSet {
      assert vars[i] == s2.vars[i] == s.vars[i];
      assert InBlock(s.vars[i]) && !s.vars[i].numericValueIsSet;
    }
  }

  /**
    Behind the block fields come one variable per opaque resource of the
    material's descriptor set, in binary order, and then one per program
    constant, in order.
  */
  lemma CreateVarsResources(binary: Binary, constants: seq<Constant>)
    requires CreateVarsSpec(binary, constants).Ok?
    ensures var vars := CreateVarsSpec(binary, constants).value.vars;
      var n := |ZeroNames(binary.uniformBlocks)|;
      var ps := InSetPositions(binary.opaques, Some(MaterialSet(binary)));
      && |vars| == n + |ps| + |constants|
      && (forall i | 0 <= i < |ps| ::
            vars[n + i] == OpaqueVar(n + i, ps[i], binary.opaques[ps[i]], OpaqueBuiltin(binary.opaques[ps[i]])))
      && (forall k | 0 <= k < |constants| :: vars[n + |ps| + k] == ConstantVar(n + |ps| + k, constants[k]))
  {
    CreateVarsScans(binary, constants);
    var s := ScanBlocks(binary.uniformBlocks).value;
    ScanBlocksNames(binary.uniformBlocks);
    assert |s.vars| == |ZeroNames(binary.uniformBlocks)|;
  }

  /**
    Every field of a material block is well formed with an array index below
    `MAX_INSTANCE_COUNT`, there are as many per-instance fields at element 0
    as at element `MAX_INSTANCE_COUNT - 1`, a material block exists, and all
    material blocks live in the highest descriptor set, whose low byte the
    material keeps.
  */
  lemma CreateVarsChecks(binary: Binary, constants: seq<Constant>)
    requires CreateVarsSpec(binary, constants).Ok?
    ensures var blocks := binary.uniformBlocks;
      && (forall b, j | IsMaterialBlock(blocks, b) && 0 <= j < |blocks[b].variables| ::
            FieldParses(BlockKind(blocks[b]).value, blocks[b].variables[j]))
      && CountAt(blocks, 0) == CountAt(blocks, MaxInstanceCount - 1)
      && (exists b :: IsMaterialBlock(blocks, b))
      && (forall b | IsMaterialBlock(blocks, b) :: blocks[b].descriptorSet == MaterialSet(binary))
      && CreateVarsSpec(binary, constants).value.descriptorSetIdx == MaterialSet(binary) % 256
  {
    var blocks := binary.uniformBlocks;
    ScanBlocksParse(blocks);
    MaterialFieldsParseEach(blocks);
    ScanBlocksCounts(blocks);
    ScanBlocksSets(blocks);
    var s := ScanBlocks(blocks).value;
    assert s.descriptorSet.Some? by {
      ScanBlocksUbo(blocks, false);
      ScanBlocksUbo(blocks, true);
      assert UboBinding(s, false).Some? || UboBinding(s, true).Some?;
    }
    assert s.descriptorSet == Some(MaterialSet(binary));
  }

  /**
    At most one block of each kind exists; the registry records its position
    and binding, and a recorded position names a block of that kind.
  */
  lemma CreateVarsUbos(binary: Binary, constants: seq<Constant>)
    requires CreateVarsSpec(binary, constants).Ok?
    ensures var reg := CreateVarsSpec(binary, constants).value; var blocks := binary.uniformBlocks;
      && (forall b | 0 <= b < |blocks| && BlockKind(blocks[b]) == Some(false) ::
            reg.perDrawUboIdx == Some(b) && reg.perDrawUboBinding == Some(blocks[b].binding))
      && (forall b | 0 <= b < |blocks| && BlockKind(blocks[b]) == Some(true) ::
            reg.perInstanceUboIdx == Some(b) && reg.perInstanceUboBinding == Some(blocks[b].binding))
      && (reg.perDrawUboIdx.Some? ==>
            reg.perDrawUboIdx.value < |blocks| && BlockKind(blocks[reg.perDrawUboIdx.value]) == Some(false))
      && (reg.perInstanceUboIdx.Some? ==>
            reg.perInstanceUboIdx.value < |blocks| && BlockKind(blocks[reg.perInstanceUboIdx.value]) == Some(true))
      && (reg.perDrawUboBinding.Some? <==> reg.perDrawUboIdx.Some?)
      && (reg.perInstanceUboBinding.Some? <==> reg.perInstanceUboIdx.Some?)
      && (reg.perDrawUboBinding.Some? || reg.perInstanceUboBinding.Some?)
  {
    ScanBlocksUbo(binary.uniformBlocks, false);
    ScanBlocksUbo(binary.uniformBlocks, true);
  }

  /** Two element-0 fields with the same name are rejected. */
  lemma RepeatedFieldRejected(binary: Binary, constants: seq<Constant>)
    requires !Distinct(ZeroNames(binary.uniformBlocks))
    ensures CreateVarsSpec(binary, constants).Fail?
  {
    if CreateVarsSpec(binary, constants).Ok? {
      CreateVarsBlockFields(binary, constants);
    }
  }

  /** A malformed field name, or an array index of `MAX_INSTANCE_COUNT` or more, is rejected. */
  lemma MalformedFieldRejected(binary: Binary, constants: seq<Constant>, b: nat, j: nat)
    requires IsMaterialBlock(binary.uniformBlocks, b) && j < |binary.uniformBlocks[b].variables|
    requires !FieldParses(BlockKind(binary.uniformBlocks[b]).value, binary.uniformBlocks[b].variables[j])
    ensures CreateVarsSpec(binary, constants).Fail?
  {
    if CreateVarsSpec(binary, constants).Ok? {
      CreateVarsChecks(binary, constants);
    }
  }

  /** Unequal numbers of per-instance fields at element 0 and at the last element are rejected. */
  lemma PartialInstanceArrayRejected(binary: Binary, constants: seq<Constant>)
    requires CountAt(binary.uniformBlocks, 0) != CountAt(binary.uniformBlocks, MaxInstanceCount - 1)
    ensures CreateVarsSpec(binary, constants).Fail?
  {
    if CreateVarsSpec(binary, constants).Ok? {
      CreateVarsChecks(binary, constants);
    }
  }

  /**
    `createVars` compares counts and does not match names: a per-instance block
    whose field `a` stops at element 0 while field `b` has only its last
    element passes `createVars`.
  */
  lemma PartialInstanceArrayAccepted()
    requires 3 <= MaxInstanceCount <= 10_000_000
    ensures var vs := [Variable(InstancedName(0, "a"), NoType), Variable(InstancedName(MaxInstanceCount - 1, "b"), NoType)];
      && CreateVarsSpec(Binary([Block("b_ankiPerInstance", 0, 0, vs)], [], []), []).Ok?
      && forall j | 0 <= j < |vs| :: ParseVariable(vs[j].name, true) != Ok((MaxInstanceCount - 1, "a"))
  {
    var last := MaxInstanceCount - 1;
    var va := Variable(InstancedName(0, "a"), NoType);
    var vb := Variable(InstancedName(last, "b"), NoType);
    InstancedRoundTrip(0, "a");
    InstancedRoundTrip(last, "b");
    CountedBlockAccepted(va, vb);
    var vs := [va, vb];
    forall j | 0 <= j < |vs| ensures ParseVariable(vs[j].name, true) != Ok((last, "a")) {
      if j == 1 { assert "b" != "a"; }
    }
  }

  /** The block of `PartialInstanceArrayAccepted`, given only how its two field names parse. */
  lemma CountedBlockAccepted(va: Variable, vb: Variable)
    requires MaxInstanceCount >= 3
    requires ParseVariable(va.name, true) == Ok((0, "a"))
    requires ParseVariable(vb.name, true) == Ok((MaxInstanceCount - 1, "b"))
    ensures CreateVarsSpec(Binary([Block("b_ankiPerInstance", 0, 0, [va, vb])], [], []), []).Ok?
  {
    var vs := [va, vb];
    var block := Block("b_ankiPerInstance", 0, 0, vs);
    var s1 := EmptyScan.(perInstanceUboBinding := Some(0), perInstanceUboIdx := Some(0), descriptorSet := Some(0));
    assert EnterBlock(EmptyScan, 0, block) == Ok(s1);
    var s2 := ScanFreshField(s1, va);
    var s3 := s2.(instancedVarWithMaxInstanceIdxCount := 1);
    ScanLastElement(s2, 1, vb);
    assert vs[..1] == [va] && [va][..0] == [];
    assert ScanVars(s1, true, [va]) == Ok(s2);
    assert vs[..|vs| - 1] == [va] && vs[|vs| - 1] == vb && |vs| - 1 == 1;
    assert ScanVars(s1, true, vs) == Ok(s3);
    assert [block][..0] == [];
    assert ScanBlocks([block]) == Ok(s3);
  }

  /** A per-instance field `a` at element 0 enters an empty registry as its first variable. */
  lemma ScanFreshField(s: Scan, v: Variable) returns (r: Scan)
    requires s.vars == [] && s.instancedVarCount == 0
    requires ParseVariable(v.name, true) == Ok((0, "a"))
    ensures ScanVar(s, true, 0, v) == Ok(r)
    ensures r == s.(vars := [MaterialVariable("a", 0, Some(0), None, false, true, v.dataType, NoBuiltin, None, false, None)],
                    instancedVarCount := 1)
  {
    CheckBuiltinShortName("a", v.dataType, true);
    r := s.(vars := [MaterialVariable("a", 0, Some(0), None, false, true, v.dataType, NoBuiltin, None, false, None)],
            instancedVarCount := 1);
    assert TryFindVariable(s.vars, "a").None?;
    assert CheckBuiltin("a", v.dataType, true) == Ok(NoBuiltin);
    assert MaxInstanceCount - 1 != 0;
    assert ScanField(s, true, 0, 0, "a", v.dataType).Ok?;
    assert ScanField(s, true, 0, 0, "a", v.dataType).value.vars == r.vars;
    assert ScanField(s, true, 0, 0, "a", v.dataType) == Ok(r);
  }

  /** A per-instance field at the last element past element 1 only raises its counter. */
  lemma ScanLastElement(s: Scan, j: nat, v: Variable)
    requires MaxInstanceCount >= 3
    requires ParseVariable(v.name, true).Ok? && ParseVariable(v.name, true).value.0 == MaxInstanceCount - 1
    requires |ParseVariable(v.name, true).value.1| > 0
    ensures ScanVar(s, true, j, v) == Ok(s.(instancedVarWithMaxInstanceIdxCount := s.instancedVarWithMaxInstanceIdxCount + 1))
  {
  }

  /** A binary with neither material block is rejected. */
  lemma NoMaterialBlockRejected(binary: Binary, constants: seq<Constant>)
    requires forall b | 0 <= b < |binary.uniformBlocks| :: BlockKind(binary.uniformBlocks[b]).None?
    ensures CreateVarsSpec(binary, constants).Fail?
  {
    if CreateVarsSpec(binary, constants).Ok? {
      CreateVarsChecks(binary, constants);
    }
  }

  /** A material block outside the highest descriptor set of the binary is rejected. */
  lemma LowerDescriptorSetRejected(binary: Binary, constants: seq<Constant>, b: nat)
    requires IsMaterialBlock(binary.uniformBlocks, b)
    requires binary.uniformBlocks[b].descriptorSet != MaterialSet(binary)
    ensures CreateVarsSpec(binary, constants).Fail?
  {
    if CreateVarsSpec(binary, constants).Ok? {
      CreateVarsChecks(binary, constants);
    }
  }

  /** Two blocks of the same kind are rejected. */
  lemma DuplicateBlockRejected(binary: Binary, constants: seq<Constant>, b1: nat, b2: nat)
    requires b1 < b2 < |binary.uniformBlocks|
    requires BlockKind(binary.uniformBlocks[b1]).Some?
    requires BlockKind(binary.uniformBlocks[b1]) == BlockKind(binary.uniformBlocks[b2])
    ensures CreateVarsSpec(binary, constants).Fail?
  {
    if CreateVarsSpec(binary, constants).Ok? {
      CreateVarsUbos(binary, constants);
    }
  }

  /** A block that fails ends the scan with its error. */
  lemma {:induction false} ScanBlocksStopsAt(blocks: seq<Block>, i: nat)
    requires i < |blocks| && ScanBlocks(blocks[..i]).Ok?
    requires ScanBlock(ScanBlocks(blocks[..i]).value, i, blocks[i]).Fail?
    ensures ScanBlocks(blocks) == Fail(ScanBlock(ScanBlocks(blocks[..i]).value, i, blocks[i]).error)
    decreases |blocks|
  {
    if i < |blocks| - 1 {
      var pre := blocks[..|blocks| - 1];
      assert pre[..i] == blocks[..i];
      ScanBlocksStopsAt(pre, i);
    } else {
      assert blocks[..|blocks| - 1] == blocks[..i];
    }
  }

  /** An opaque that fails ends the scan with its error. */
  lemma {:induction false} ScanOpaquesStopsAt(s: Scan, opaques: seq<Opaque>, i: nat)
    requires i < |opaques| && ScanOpaques(s, opaques[..i]).Ok?
    requires ScanOpaque(ScanOpaques(s, opaques[..i]).value, i, opaques[i]).Fail?
    ensures ScanOpaques(s, opaques) == Fail(ScanOpaque(ScanOpaques(s, opaques[..i]).value, i, opaques[i]).error)
    decreases |opaques|
  {
    if i < |opaques| - 1 {
      var pre := opaques[..|opaques| - 1];
      assert pre[..i] == opaques[..i];
      ScanOpaquesStopsAt(s, pre, i);
    } else {
      assert opaques[..|opaques| - 1] == opaques[..i];
    }
  }

  /** A field that fails ends the block with its error. */
  lemma {:induction false} ScanVarsStopsAt(s: Scan, instanced: bool, vs: seq<Variable>, i: nat)
    requires i < |vs| && ScanVars(s, instanced, vs[..i]).Ok?
    requires ScanVar(ScanVars(s, instanced, vs[..i]).value, instanced, i, vs[i]).Fail?
    ensures ScanVars(s, instanced, vs) == Fail(ScanVar(ScanVars(s, instanced, vs[..i]).value, instanced, i, vs[i]).error)
    decreases |vs|
  {
    if i < |vs| - 1 {
      var pre := vs[..|vs| - 1];
      assert pre[..i] == vs[..i];
      ScanVarsStopsAt(s, instanced, pre, i);
    } else {
      assert vs[..|vs| - 1] == vs[..i];
    }
  }
}
