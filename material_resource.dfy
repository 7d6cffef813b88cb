/**
  `MaterialResource`: the object `load` fills from a material description and
  whose `getOrCreateVariant` compiles and caches one variant per cell of the
  variant matrix. Each step of `load` is a method whose outcome and new state
  are those of the step's specification function; `LoadSpec` composes them.
*/
module Material {
  import opened Common
  import opened ShaderBinary
  import opened Builtins
  import opened Registry
  import opened Mutators
  import opened Inputs
  import opened Variants
  import opened RayTracing
  import opened GlobalUniforms
  import Loading

  /**
    The material description after XML parsing: the program it names (already
    loaded), the optional `shadow` and `forwardShading` attributes, the
    optional `<mutation>`, `<inputs>` and `<rtMaterial>` elements.
  */
  datatype MaterialDescription = MaterialDescription(
    program: ShaderProgram,
    shadow: Option<int>,
    forwardShading: Option<int>,
    mutation: Option<seq<MutatorEntry>>,
    inputs: Option<seq<InputEntry>>,
    rtMaterial: Option<RtMaterialElement>)

  /** Everything `load` sets, apart from the variant matrix. */
  datatype MaterialState = MaterialState(
    prog: ShaderProgram,
    registry: Registry,
    shadow: bool,
    forwardShading: bool,
    nonBuiltinsMutation: seq<SubMutation>,
    builtin: BuiltinSetup,
    rt: RtState,
    gpu: GpuMaterial,
    globalUniformsUboBinding: nat)

  const NoProgram := ShaderProgram(Binary([], [], []), [], [])
  const NoRegistry := Registry([], None, None, None, None, 0)
  const NoRt := RtState({}, map[], map[])
  const ZeroGpu := GpuMaterial(0, map[], map[], map[])

  /**
    A freshly constructed material: one LOD, no builtin slot bound, every
    `MAX_U32` marker unset, a zeroed GPU descriptor, shadows on and deferred
    shading.
  */
  const InitialState := MaterialState(NoProgram, NoRegistry, true, false, [],
                                      BuiltinSetup(NoBuiltinMutators, 1, None, None), NoRt, ZeroGpu, MaxU32)

  /** An optional numeric attribute read as a flag; absent, the flag keeps its value. */
  function Flag(attr: Option<int>, current: bool): bool {
    if attr.Some? then attr.value != 0 else current
  }

  /**
    `load`, from a freshly constructed material: `createVars` and the two
    flags, then the rest in `LoadFromMutationSpec`.
  */
  function LoadSpec(d: MaterialDescription, rayTracingEnabled: bool, compileRt: RtCompiler, indexer: BindlessIndexer)
    : Result<MaterialState>
  {
    var reg :- CreateVarsSpec(d.program.binary, d.program.constants);
    LoadFromMutationSpec(d, rayTracingEnabled, compileRt, indexer,
                         InitialState.(prog := d.program, registry := reg,
                                       shadow := Flag(d.shadow, InitialState.shadow),
                                       forwardShading := Flag(d.forwardShading, InitialState.forwardShading)))
  }

  /** `load` from `parseMutators` on: the `<mutation>` (when present) and `findBuiltinMutators`. */
  function LoadFromMutationSpec(d: MaterialDescription, rayTracingEnabled: bool, compileRt: RtCompiler, indexer: BindlessIndexer,
                                s: MaterialState): Result<MaterialState>
  {
    var subs :- if d.mutation.Some? then ParseMutatorsSpec(s.prog.mutators, d.mutation.value) else Ok(s.nonBuiltinsMutation);
    var setup :- FindBuiltinMutatorsSpec(s.prog, s.registry.perInstanceUboBinding.Some?, s.forwardShading,
                                         |subs|, s.registry.descriptorSetIdx, s.builtin);
    LoadFromInputsSpec(d, rayTracingEnabled, compileRt, indexer, s.(nonBuiltinsMutation := subs, builtin := setup))
  }

  /**
    `load` from `parseInputs` on: the `<inputs>` (when present), the
    `<rtMaterial>` (when present and ray tracing is on), and the global
    uniforms block.
  */
  function LoadFromInputsSpec(d: MaterialDescription, rayTracingEnabled: bool, compileRt: RtCompiler, indexer: BindlessIndexer,
                              s: MaterialState): Result<MaterialState>
  {
    var vars :- if d.inputs.Some? then ParseInputsSpec(s.registry.vars, d.inputs.value) else Ok(s.registry.vars);
    var rtg :- if d.rtMaterial.Some? && rayTracingEnabled
      then ParseRtMaterialSpec(s.rt, s.gpu, d.rtMaterial.value, compileRt, indexer)
      else Ok((s.rt, s.gpu));
    var binding :- GlobalUniformsSpec(s.prog.binary.uniformBlocks);
    Ok(s.(registry := s.registry.(vars := vars), rt := rtg.0, gpu := rtg.1, globalUniformsUboBinding := binding))
  }

  /** The steps of `load` in order; the first failure stops it. */
  method LoadMaterial(d: MaterialDescription, rayTracingEnabled: bool, compileRt: RtCompiler, indexer: BindlessIndexer)
    returns (r: Result<MaterialState>)
    ensures r == LoadSpec(d, rayTracingEnabled, compileRt, indexer)
  {
    var reg := Loading.CreateVars(d.program.binary, d.program.constants);
    if reg.Fail? {
      return Fail(reg.error);
    }
    r := LoadFromMutation(d, rayTracingEnabled, compileRt, indexer,
                          InitialState.(prog := d.program, registry := reg.value,
                                        shadow := Flag(d.shadow, InitialState.shadow),
                                        forwardShading := Flag(d.forwardShading, InitialState.forwardShading)));
  }

  /** The `<mutation>` child, then `findBuiltinMutators`. */
  method LoadFromMutation(d: MaterialDescription, rayTracingEnabled: bool, compileRt: RtCompiler, indexer: BindlessIndexer,
                          s: MaterialState) returns (r: Result<MaterialState>)
    ensures r == LoadFromMutationSpec(d, rayTracingEnabled, compileRt, indexer, s)
  {
    var subs := s.nonBuiltinsMutation;
    if d.mutation.Some? {
      var parsed := Loading.ParseMutators(s.prog.mutators, d.mutation.value);
      if parsed.Fail? {
        return Fail(parsed.error);
      }
      subs := parsed.value;
    }
    var setup := Loading.FindBuiltinMutators(s.prog, s.registry.perInstanceUboBinding.Some?, s.forwardShading,
                                             |subs|, s.registry.descriptorSetIdx, s.builtin);
    if setup.Fail? {
      return Fail(setup.error);
    }
    r := LoadFromInputs(d, rayTracingEnabled, compileRt, indexer, s.(nonBuiltinsMutation := subs, builtin := setup.value));
  }

  /** The `<inputs>` and `<rtMaterial>` children, then `findGlobalUniformsUbo`. */
  method LoadFromInputs(d: MaterialDescription, rayTracingEnabled: bool, compileRt: RtCompiler, indexer: BindlessIndexer,
                        s: MaterialState) returns (r: Result<MaterialState>)
    ensures r == LoadFromInputsSpec(d, rayTracingEnabled, compileRt, indexer, s)
  {
    var vars := s.registry.vars;
    if d.inputs.Some? {
      var parsed := Loading.ParseInputs(vars, d.inputs.value);
      if parsed.Fail? {
        return Fail(parsed.error);
      }
      vars := parsed.value;
    }
    var rt, gpu := s.rt, s.gpu;
    if d.rtMaterial.Some? && rayTracingEnabled {
      var rtg := Loading.ParseRtMaterial(rt, gpu, d.rtMaterial.value, compileRt, indexer);
      if rtg.Fail? {
        return Fail(rtg.error);
      }
      rt, gpu := rtg.value.0, rtg.value.1;
    }
    var binding := Loading.FindGlobalUniformsUbo(s.prog.binary.uniformBlocks);
    if binding.Fail? {
      return Fail(binding.error);
    }
    r := Ok(s.(registry := s.registry.(vars := vars), rt := rt, gpu := gpu, globalUniformsUboBinding := binding.value));
  }

  /** What `getOrCreateVariant` needs of the material: variable positions and values behind every set flag. */
  predicate Usable(s: MaterialState) {
    Positions(s.registry.vars) && ValuesPresent(s.registry.vars)
  }

  /** Accepted inputs keep the positions and give a value to every flag they set. */
  lemma InputsKeepUsable(vars: seq<MaterialVariable>, entries: seq<InputEntry>)
    requires Positions(vars) && ValuesPresent(vars)
    requires ParseInputsSpec(vars, entries).Ok?
    ensures Positions(ParseInputsSpec(vars, entries).value) && ValuesPresent(ParseInputsSpec(vars, entries).value)
  {
    ParseInputsFrame(vars, entries);
    ParseInputsValues(vars, entries);
    var out := ParseInputsSpec(vars, entries).value;
    assert forall i | 0 <= i < |out| :: SameButValue(vars[i], out[i]);
  }

  /** The last stage of `load` keeps the material usable and its builtin setup. */
  lemma LoadFromInputsUsable(d: MaterialDescription, rayTracingEnabled: bool, compileRt: RtCompiler, indexer: BindlessIndexer,
                             s: MaterialState)
    requires Usable(s)
    requires LoadFromInputsSpec(d, rayTracingEnabled, compileRt, indexer, s).Ok?
    ensures Usable(LoadFromInputsSpec(d, rayTracingEnabled, compileRt, indexer, s).value)
    ensures LoadFromInputsSpec(d, rayTracingEnabled, compileRt, indexer, s).value.builtin == s.builtin
  {
    if d.inputs.Some? {
      InputsKeepUsable(s.registry.vars, d.inputs.value);
    }
  }

  /** The mutation stage of `load` keeps the material usable and fills each builtin slot by name. */
  lemma LoadFromMutationUsable(d: MaterialDescription, rayTracingEnabled: bool, compileRt: RtCompiler, indexer: BindlessIndexer,
                               s: MaterialState)
    requires Usable(s) && SlotsNamed(s.builtin.slots)
    requires LoadFromMutationSpec(d, rayTracingEnabled, compileRt, indexer, s).Ok?
    ensures Usable(LoadFromMutationSpec(d, rayTracingEnabled, compileRt, indexer, s).value)
    ensures SlotsNamed(LoadFromMutationSpec(d, rayTracingEnabled, compileRt, indexer, s).value.builtin.slots)
  {
    var subs := if d.mutation.Some? then ParseMutatorsSpec(s.prog.mutators, d.mutation.value).value else s.nonBuiltinsMutation;
    var args := (s.registry.perInstanceUboBinding.Some?, s.forwardShading, |subs|, s.registry.descriptorSetIdx);
    FindBuiltinMutatorsNamed(s.prog, args.0, args.1, args.2, args.3, s.builtin);
    var setup := FindBuiltinMutatorsSpec(s.prog, args.0, args.1, args.2, args.3, s.builtin).value;
    LoadFromInputsUsable(d, rayTracingEnabled, compileRt, indexer, s.(nonBuiltinsMutation := subs, builtin := setup));
  }

  /**
    A loaded material can serve variants: every variable sits at its own
    position, every value flag has a value, and every builtin slot holds a
    mutator of its own name.
  */
  lemma LoadUsable(d: MaterialDescription, rayTracingEnabled: bool, compileRt: RtCompiler, indexer: BindlessIndexer)
    requires LoadSpec(d, rayTracingEnabled, compileRt, indexer).Ok?
    ensures Usable(LoadSpec(d, rayTracingEnabled, compileRt, indexer).value)
    ensures SlotsNamed(LoadSpec(d, rayTracingEnabled, compileRt, indexer).value.builtin.slots)
  {
    var reg := CreateVarsSpec(d.program.binary, d.program.constants).value;
    CreateVarsBlockFields(d.program.binary, d.program.constants);
    CreateVarsUnset(d.program.binary, d.program.constants);
    LoadFromMutationUsable(d, rayTracingEnabled, compileRt, indexer,
                           InitialState.(prog := d.program, registry := reg,
                                         shadow := Flag(d.shadow, InitialState.shadow),
                                         forwardShading := Flag(d.forwardShading, InitialState.forwardShading)));
  }

  /**
    A load fails when `createVars` does; a successful load keeps the program,
    holds the global uniforms binding, and leaves the ray-tracing state,
    the mutation and the registry's values as constructed when the
    corresponding element is absent (or ray tracing is off).
  */
  lemma LoadSteps(d: MaterialDescription, rayTracingEnabled: bool, compileRt: RtCompiler, indexer: BindlessIndexer)
    ensures CreateVarsSpec(d.program.binary, d.program.constants).Fail? ==>
      LoadSpec(d, rayTracingEnabled, compileRt, indexer) == Fail(CreateVarsSpec(d.program.binary, d.program.constants).error)
    ensures LoadSpec(d, rayTracingEnabled, compileRt, indexer).Ok? ==>
      var s := LoadSpec(d, rayTracingEnabled, compileRt, indexer).value;
      && s.prog == d.program
      && s.shadow == Flag(d.shadow, true) && s.forwardShading == Flag(d.forwardShading, false)
      && GlobalUniformsSpec(d.program.binary.uniformBlocks) == Ok(s.globalUniformsUboBinding)
      && (d.rtMaterial.None? || !rayTracingEnabled ==> s.rt == NoRt && s.gpu == ZeroGpu)
      && (d.mutation.None? ==> s.nonBuiltinsMutation == [])
      && (d.inputs.None? ==> s.registry.vars == CreateVarsSpec(d.program.binary, d.program.constants).value.vars)
  {
    var reg := CreateVarsSpec(d.program.binary, d.program.constants);
    if reg.Ok? {
      var s0 := InitialState.(prog := d.program, registry := reg.value,
                              shadow := Flag(d.shadow, InitialState.shadow),
                              forwardShading := Flag(d.forwardShading, InitialState.forwardShading));
      LoadFromMutationSteps(d, rayTracingEnabled, compileRt, indexer, s0);
    }
  }

  /** The mutation stage keeps what it does not set; without `<mutation>` the parsed list is the one it started with. */
  lemma LoadFromMutationSteps(d: MaterialDescription, rayTracingEnabled: bool, compileRt: RtCompiler, indexer: BindlessIndexer,
                              s: MaterialState)
    ensures LoadFromMutationSpec(d, rayTracingEnabled, compileRt, indexer, s).Ok? ==>
      var t := LoadFromMutationSpec(d, rayTracingEnabled, compileRt, indexer, s).value;
      && t.prog == s.prog && t.shadow == s.shadow && t.forwardShading == s.forwardShading
      && GlobalUniformsSpec(s.prog.binary.uniformBlocks) == Ok(t.globalUniformsUboBinding)
      && (d.rtMaterial.None? || !rayTracingEnabled ==> t.rt == s.rt && t.gpu == s.gpu)
      && (d.mutation.None? ==> t.nonBuiltinsMutation == s.nonBuiltinsMutation)
      && (d.inputs.None? ==> t.registry.vars == s.registry.vars)
  {
    var subs := if d.mutation.Some? then ParseMutatorsSpec(s.prog.mutators, d.mutation.value) else Ok(s.nonBuiltinsMutation);
    if subs.Ok? {
      var setup := FindBuiltinMutatorsSpec(s.prog, s.registry.perInstanceUboBinding.Some?, s.forwardShading,
                                           |subs.value|, s.registry.descriptorSetIdx, s.builtin);
      if setup.Ok? {
        LoadFromInputsSteps(d, rayTracingEnabled, compileRt, indexer, s.(nonBuiltinsMutation := subs.value, builtin := setup.value));
      }
    }
  }

  /** The last stage sets only the variables' values, the ray-tracing state and the global uniforms binding. */
  lemma LoadFromInputsSteps(d: MaterialDescription, rayTracingEnabled: bool, compileRt: RtCompiler, indexer: BindlessIndexer,
                            s: MaterialState)
    ensures LoadFromInputsSpec(d, rayTracingEnabled, compileRt, indexer, s).Ok? ==>
      var t := LoadFromInputsSpec(d, rayTracingEnabled, compileRt, indexer, s).value;
      && t == s.(registry := t.registry, rt := t.rt, gpu := t.gpu, globalUniformsUboBinding := t.globalUniformsUboBinding)
      && t.registry == s.registry.(vars := t.registry.vars)
      && GlobalUniformsSpec(s.prog.binary.uniformBlocks) == Ok(t.globalUniformsUboBinding)
      && (d.rtMaterial.None? || !rayTracingEnabled ==> t.rt == s.rt && t.gpu == s.gpu)
      && (d.inputs.None? ==> t.registry.vars == s.registry.vars)
  {
  }

  /** A program without a global uniforms block never loads. */
  lemma LoadNeedsGlobalUniforms(d: MaterialDescription, rayTracingEnabled: bool, compileRt: RtCompiler, indexer: BindlessIndexer)
    requires forall k | 0 <= k < |d.program.binary.uniformBlocks| :: d.program.binary.uniformBlocks[k].name != GlobalUniformsName
    ensures LoadSpec(d, rayTracingEnabled, compileRt, indexer).Fail?
  {
    GlobalUniformsRequired(d.program.binary.uniformBlocks);
  }

  /**
    The material's fields, grouped by the step of `load` that sets them:
    `registry` holds `m_vars`, the two uniform blocks and the descriptor set;
    `builtin` the builtin mutator pointers, `m_lodCount` and the two bone
    buffer bindings; `rt` the per-ray-type programs and shader group handle
    indices; `gpu` the `MaterialGpuDescriptor` and its texture views.
  */
  class MaterialResource {
    var prog: ShaderProgram
    var registry: Registry
    var shadow: bool
    var forwardShading: bool
    var nonBuiltinsMutation: seq<SubMutation>
    var builtin: BuiltinSetup
    var rt: RtState
    var gpu: GpuMaterial
    var globalUniformsUboBinding: nat

    /** `m_variantMatrix`, flattened by `CellIndex`; `None` is a cell whose program is not created yet. */
    const variantMatrix: array<Option<MaterialVariant>>

    /** The fields, gathered. */
    function State(): MaterialState
      reads this
    {
      MaterialState(prog, registry, shadow, forwardShading, nonBuiltinsMutation, builtin, rt, gpu, globalUniformsUboBinding)
    }

    /** What every loaded material keeps: a full variant matrix and a usable registry. */
    predicate Valid()
      reads this
    {
      variantMatrix.Length == CellCount() && Usable(State())
    }

    /** A material nothing is loaded into yet, with every variant cell empty. */
    constructor()
      ensures State() == InitialState && Valid()
      ensures variantMatrix.Length == CellCount() && forall i | 0 <= i < CellCount() :: variantMatrix[i].None?
      ensures fresh(variantMatrix)
    {
      prog := NoProgram;
      registry := NoRegistry;
      shadow := true;
      forwardShading := false;
      nonBuiltinsMutation := [];
      builtin := BuiltinSetup(NoBuiltinMutators, 1, None, None);
      rt := NoRt;
      gpu := ZeroGpu;
      globalUniformsUboBinding := MaxU32;
      variantMatrix := new Option<MaterialVariant>[CellCount()](_ => None);
    }

    /** Sets every field but the variant matrix. */
    method Store(s: MaterialState)
      modifies this
      ensures State() == s
    {
      prog, registry, shadow, forwardShading := s.prog, s.registry, s.shadow, s.forwardShading;
      nonBuiltinsMutation, builtin, rt, gpu := s.nonBuiltinsMutation, s.builtin, s.rt, s.gpu;
      globalUniformsUboBinding := s.globalUniformsUboBinding;
    }

    /**
      `load`: the steps of `LoadMaterial`, whose outcome becomes the
      material's fields once every step has succeeded.
    */
    method Load(d: MaterialDescription, rayTracingEnabled: bool, compileRt: RtCompiler, indexer: BindlessIndexer)
      returns (r: Result<()>)
      requires State() == InitialState && variantMatrix.Length == CellCount()
      modifies this
      ensures r == Status(LoadSpec(d, rayTracingEnabled, compileRt, indexer))
      ensures r.Ok? ==> State() == LoadSpec(d, rayTracingEnabled, compileRt, indexer).value && Valid()
      ensures r.Fail? ==> State() == InitialState
    {
      var m := LoadMaterial(d, rayTracingEnabled, compileRt, indexer);
      if m.Fail? {
        return Fail(m.error);
      }
      Store(m.value);
      LoadUsable(d, rayTracingEnabled, compileRt, indexer);
      r := Ok(());
    }

    // -------------------------------------------------------------------------
    // getOrCreateVariant
    // -------------------------------------------------------------------------

    /** What creating the variant of cell `c` yields: the constants, the compiled program, then `initVariant`. */
    function CreateVariantSpec(c: Cell, compiler: Compiler): Result<MaterialVariant>
      reads this
      requires Usable(State())
    {
      var consts :- VariantConstants(registry.vars);
      InitVariantSpec(prog.constants, registry.vars, registry.perDrawUboIdx, registry.perInstanceUboIdx,
                      compiler(prog, VariantMutations(nonBuiltinsMutation, builtin.slots, c), consts))
    }

    /** The `addMutation` calls of `getOrCreateVariant`. */
    method VariantInitMutations(c: Cell) returns (muts: seq<Mutation>)
      ensures muts == VariantMutations(nonBuiltinsMutation, builtin.slots, c)
    {
      muts := [];
      for k := 0 to |nonBuiltinsMutation|
        invariant muts == AsMutations(nonBuiltinsMutation[..k])
      {
        muts := muts + [Mutation(nonBuiltinsMutation[k].mutator.name, nonBuiltinsMutation[k].value)];
        assert muts == AsMutations(nonBuiltinsMutation[..k + 1]);
      }
      assert nonBuiltinsMutation[..|nonBuiltinsMutation|] == nonBuiltinsMutation;
      muts := muts
        + SlotMutation(builtin.slots.instanced, Bit(c.instanced))
        + SlotMutation(builtin.slots.pass, c.pass)
        + SlotMutation(builtin.slots.lod, c.lod)
        + SlotMutation(builtin.slots.bones, Bit(c.skinned))
        + SlotMutation(builtin.slots.velocity, Bit(c.velocity))
        + SlotMutation(builtin.slots.vrs, Bit(c.vrs));
    }

    /** The `addConstant` loop of `getOrCreateVariant`. */
    method VariantInitConstants() returns (r: Result<seq<ConstantValue>>)
      requires ValuesPresent(registry.vars)
      ensures r == VariantConstants(registry.vars)
    {
      var vars := registry.vars;
      var cs: seq<ConstantValue> := [];
      for i := 0 to |vars|
        invariant ValuesPresent(vars[..i]) && VariantConstants(vars[..i]) == Ok(cs)
      {
        assert vars[..i + 1][..i] == vars[..i];
        var one := ConstantStep(vars[i]);
        if one.Fail? {
          VariantConstantsStopsAt(vars, i);
          return Fail(one.error);
        }
        cs := cs + one.value;
      }
      assert vars[..|vars|] == vars;
      r := Ok(cs);
    }

    /**
      `getOrCreateVariant`: the key's cell (LOD clamped to the material's
      LOD range) is returned as it is when its program exists; otherwise the
      variant is created, stored in that cell and returned. No other cell
      changes, so a second call with a key of the same cell returns the same
      variant.
    */
    method GetOrCreateVariant(key: RenderingKey, compiler: Compiler) returns (r: Result<MaterialVariant>)
      requires Valid()
      requires key.pass < Passes.count && ClampLod(builtin.lodCount, key.lod) < MaxLodCount
      requires key.instanceCount > 1 ==> builtin.slots.instanced.Some?
      requires key.skinned ==> builtin.slots.bones.Some?
      requires key.velocity ==> builtin.slots.velocity.Some?
      modifies variantMatrix
      ensures Valid()
      ensures var i := CellIndex(KeyCell(builtin.lodCount, key));
        && (old(variantMatrix[i]).Some? ==> r == Ok(old(variantMatrix[i]).value) && variantMatrix[..] == old(variantMatrix[..]))
        && (old(variantMatrix[i]).None? ==>
              && r == CreateVariantSpec(KeyCell(builtin.lodCount, key), compiler)
              && variantMatrix[..] == (if r.Ok? then old(variantMatrix[..])[i := Some(r.value)] else old(variantMatrix[..])))
    {
      var c := KeyCell(builtin.lodCount, key);
      var i := CellIndex(c);
      if variantMatrix[i].Some? {
        return Ok(variantMatrix[i].value);
      }
      var muts := VariantInitMutations(c);
      var consts := VariantInitConstants();
      if consts.Fail? {
        return Fail(consts.error);
      }
      var pv := compiler(prog, muts, consts.value);
      r := InitVariant(prog.constants, registry.vars, registry.perDrawUboIdx, registry.perInstanceUboIdx, pv);
      if r.Ok? {
        variantMatrix[i] := Some(r.value);
      }
    }
  }
}
