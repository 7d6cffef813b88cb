/**
  The loops of `MaterialResource::load`, one method per pass the source makes
  over the shader binary or the XML, each proved to compute its
  specification function. They work on values; `Material.MaterialResource`
  stores what they return.
*/
module Loading {
  import opened Common
  import opened ShaderBinary
  import opened Registry
  import opened Mutators
  import opened Inputs
  import opened RayTracing
  import opened GlobalUniforms

  /** The inner loop of `createVars` over the fields of one material block. */
  method ScanBlockFields(s0: Scan, instanced: bool, vs: seq<Variable>) returns (r: Result<Scan>)
    ensures r == ScanVars(s0, instanced, vs)
  {
    var s := s0;
    for j := 0 to |vs|
      invariant ScanVars(s0, instanced, vs[..j]) == Ok(s)
    {
      assert vs[..j + 1][..j] == vs[..j];
      var n := ScanVar(s, instanced, j, vs[j]);
      if n.Fail? {
        ScanVarsStopsAt(s0, instanced, vs, j);
        return Fail(n.error);
      }
      s := n.value;
    }
    assert vs[..|vs|] == vs;
    r := Ok(s);
  }

  /** One iteration of the outer loop: the running maximum set, then a material block's bookkeeping and fields. */
  method ScanUniformBlock(s: Scan, b: nat, block: Block) returns (r: Result<Scan>)
    ensures r == ScanBlock(s, b, block)
  {
    var s0 := s.(maxDescriptorSet := Max(s.maxDescriptorSet, block.descriptorSet));
    var kind := BlockKind(block);
    if kind.None? {
      return Ok(s0);
    }
    var s1 := EnterBlock(s0, b, block);
    if s1.Fail? {
      return Fail(s1.error);
    }
    r := ScanBlockFields(s1.value, kind.value, block.variables);
  }

  /** The pass of `createVars` over the uniform blocks. */
  method ScanUniformBlocks(blocks: seq<Block>) returns (r: Result<Scan>)
    ensures r == ScanBlocks(blocks)
  {
    var s := EmptyScan;
    for b := 0 to |blocks|
      invariant ScanBlocks(blocks[..b]) == Ok(s)
    {
      assert blocks[..b + 1][..b] == blocks[..b];
      var n := ScanUniformBlock(s, b, blocks[b]);
      if n.Fail? {
        ScanBlocksStopsAt(blocks, b);
        return Fail(n.error);
      }
      s := n.value;
    }
    assert blocks[..|blocks|] == blocks;
    r := Ok(s);
  }

  /** The pass of `createVars` over the opaque variables. */
  method ScanOpaqueVars(s0: Scan, opaques: seq<Opaque>) returns (r: Result<Scan>)
    ensures r == ScanOpaques(s0, opaques)
  {
    var s := s0;
    for j := 0 to |opaques|
      invariant ScanOpaques(s0, opaques[..j]) == Ok(s)
    {
      assert opaques[..j + 1][..j] == opaques[..j];
      var n := ScanOpaque(s, j, opaques[j]);
      if n.Fail? {
        ScanOpaquesStopsAt(s0, opaques, j);
        return Fail(n.error);
      }
      s := n.value;
    }
    assert opaques[..|opaques|] == opaques;
    r := Ok(s);
  }

  /** The pass of `createVars` over the specialization constants. */
  method AppendConstantVars(vars: seq<MaterialVariable>, constants: seq<Constant>) returns (vs: seq<MaterialVariable>)
    ensures vs == AppendConstants(vars, constants)
  {
    vs := vars;
    for k := 0 to |constants|
      invariant vs == AppendConstants(vars, constants[..k])
    {
      vs := vs + [ConstantVar(|vs|, constants[k])];
      assert vs == AppendConstants(vars, constants[..k + 1]);
    }
    assert constants[..|constants|] == constants;
  }

  /** `createVars`. */
  method CreateVars(binary: Binary, constants: seq<Constant>) returns (r: Result<Registry>)
    ensures r == CreateVarsSpec(binary, constants)
  {
    var s := ScanUniformBlocks(binary.uniformBlocks);
    if s.Fail? {
      return Fail(s.error);
    }
    if s.value.instancedVarWithMaxInstanceIdxCount != s.value.instancedVarCount {
      return Fail(UserData(PerInstanceNotFullyPopulated));
    }
    if s.value.perDrawUboBinding.None? && s.value.perInstanceUboBinding.None? {
      return Fail(UserData(BothUbosMissing));
    }
    var s2 := ScanOpaqueVars(s.value, binary.opaques);
    if s2.Fail? {
      return Fail(s2.error);
    }
    var t := s2.value;
    if t.descriptorSet != Some(t.maxDescriptorSet) {
      return Fail(UserData(NotHighestDescriptorSet));
    }
    var vs := AppendConstantVars(t.vars, constants);
    r := Ok(Registry(vs, t.perDrawUboBinding, t.perInstanceUboBinding, t.perDrawUboIdx, t.perInstanceUboIdx,
                     t.maxDescriptorSet % 256));
  }

  /** `parseMutators`. */
  method ParseMutators(mutators: seq<Mutator>, entries: seq<MutatorEntry>) returns (r: Result<seq<SubMutation>>)
    ensures r == ParseMutatorsSpec(mutators, entries)
  {
    if entries == [] {
      return Fail(UserData(MissingChildElement));
    }
    var subs: seq<SubMutation> := [];
    for i := 0 to |entries|
      invariant ParseMutatorList(mutators, entries[..i]) == Ok(subs)
    {
      assert entries[..i + 1][..i] == entries[..i];
      var m := ParseMutator(mutators, entries[i]);
      if m.Fail? {
        ParseMutatorListStopsAt(mutators, entries, i);
        return Fail(m.error);
      }
      subs := subs + [m.value];
    }
    assert entries[..|entries|] == entries;
    r := Ok(subs);
  }

  /** The loop of `findBuiltinMutators` over the storage blocks for the two bone-transform buffers. */
  method ScanBoneBuffers(acc0: BoneBindings, blocks: seq<Block>, descriptorSetIdx: nat) returns (r: Result<BoneBindings>)
    ensures r == ScanBoneBlocks(acc0, blocks, descriptorSetIdx)
  {
    var acc := acc0;
    for b := 0 to |blocks|
      invariant ScanBoneBlocks(acc0, blocks[..b], descriptorSetIdx) == Ok(acc)
    {
      assert blocks[..b + 1][..b] == blocks[..b];
      var n := ScanBoneBlock(acc, blocks[b], descriptorSetIdx);
      if n.Fail? {
        ScanBoneBlocksStopsAt(acc0, blocks, descriptorSetIdx, b);
        return Fail(n.error);
      }
      acc := n.value;
    }
    assert blocks[..|blocks|] == blocks;
    r := Ok(acc);
  }

  /** `findBuiltinMutators`. */
  method FindBuiltinMutators(prog: ShaderProgram, hasPerInstanceUbo: bool, forwardShading: bool,
                             nonBuiltinCount: nat, descriptorSetIdx: nat, st: BuiltinSetup) returns (r: Result<BuiltinSetup>)
    ensures r == FindBuiltinMutatorsSpec(prog, hasPerInstanceUbo, forwardShading, nonBuiltinCount, descriptorSetIdx, st)
  {
    var ms := prog.mutators;
    var instanced := TryFindMutator(ms, "ANKI_INSTANCED");
    var c := CheckInstanced(instanced, hasPerInstanceUbo);
    if c.Fail? {
      return Fail(c.error);
    }
    var pass := TryFindMutator(ms, "ANKI_PASS");
    c := CheckPass(pass, forwardShading);
    if c.Fail? {
      return Fail(c.error);
    }
    var lod := TryFindMutator(ms, "ANKI_LOD");
    c := CheckLod(lod);
    if c.Fail? {
      return Fail(c.error);
    }
    var lodCount := st.lodCount;
    if lod.Some? {
      lodCount := |lod.value.values| % 256;
    }
    var bones := TryFindMutator(ms, "ANKI_BONES");
    c := CheckSwitch(bones);
    if c.Fail? {
      return Fail(c.error);
    }
    var bb := BoneBindings(st.boneTrfsBinding, st.prevFrameBoneTrfsBinding);
    if bones.Some? {
      var scan := ScanBoneBuffers(bb, prog.binary.storageBlocks, descriptorSetIdx);
      if scan.Fail? {
        return Fail(scan.error);
      }
      bb := scan.value;
    }
    if BonesWithoutBuffers(bones, bb) {
      return Ok(BuiltinSetup(st.slots.(instanced := instanced, pass := pass, lod := lod, bones := bones),
                             lodCount, bb.current, bb.previous));
    }
    var velocity := TryFindMutator(ms, "ANKI_VELOCITY");
    c := CheckSwitch(velocity);
    if c.Fail? {
      return Fail(c.error);
    }
    var vrs := TryFindMutator(ms, "ANKI_VRS");
    c := CheckSwitch(vrs);
    if c.Fail? {
      return Fail(c.error);
    }
    var slots := BuiltinMutators(instanced, pass, lod, bones, velocity, vrs);
    if nonBuiltinCount + BoundCount(slots) != |ms| {
      return Fail(UserData(UnaccountedMutators));
    }
    r := Ok(BuiltinSetup(slots, lodCount, bb.current, bb.previous));
  }

  /** `parseInputs`, over the `<input>` children (none is allowed). */
  method ParseInputs(vars: seq<MaterialVariable>, entries: seq<InputEntry>) returns (r: Result<seq<MaterialVariable>>)
    ensures r == ParseInputsSpec(vars, entries)
  {
    var cur := vars;
    for i := 0 to |entries|
      invariant ParseInputsSpec(vars, entries[..i]) == Ok(cur)
    {
      assert entries[..i + 1][..i] == entries[..i];
      var n := ParseInput(cur, entries[i]);
      if n.Fail? {
        ParseInputsStopsAt(vars, entries, i);
        return Fail(n.error);
      }
      cur := n.value;
    }
    assert entries[..|entries|] == entries;
    r := Ok(cur);
  }

  /** The `<mutation>` of one ray type, checked against its program. */
  method RtMutation(prog: ShaderProgram, mutation: Option<seq<MutatorEntry>>) returns (r: Result<seq<SubMutation>>)
    ensures r == RtMutationSpec(prog, mutation)
  {
    var subs: seq<SubMutation> := [];
    if mutation.Some? {
      var entries := mutation.value;
      if entries == [] {
        return Fail(UserData(MissingChildElement));
      }
      for i := 0 to |entries|
        invariant RtParseMutatorList(prog.mutators, entries[..i]) == Ok(subs)
      {
        assert entries[..i + 1][..i] == entries[..i];
        var m := RtParseMutator(prog.mutators, entries[i]);
        if m.Fail? {
          RtParseMutatorListStopsAt(prog.mutators, entries, i);
          return Fail(m.error);
        }
        subs := subs + [m.value];
      }
      assert entries[..|entries|] == entries;
    }
    if |subs| != |prog.mutators| {
      return Fail(UserData(RtMutatorsUnset));
    }
    r := Ok(subs);
  }

  /** The loop over `<rayType>`. */
  method RayTypes(st0: RtState, entries: seq<RayTypeEntry>, compile: RtCompiler) returns (r: Result<RtState>)
    ensures r == RayTypesSpec(st0, entries, compile)
  {
    if entries == [] {
      return Fail(UserData(MissingChildElement));
    }
    var st := st0;
    for i := 0 to |entries|
      invariant RayTypeList(st0, entries[..i], compile) == Ok(st)
    {
      assert entries[..i + 1][..i] == entries[..i];
      var e := entries[i];
      var t := RayTypeOf(e.typeName);
      if t.None? {
        RayTypeListStopsAt(st0, entries, compile, i);
        return Fail(UserData(UnknownRayType));
      }
      if t.value in st.programs {
        RayTypeListStopsAt(st0, entries, compile, i);
        return Fail(UserData(RayTypeTwice));
      }
      var subs := RtMutation(e.program, e.mutation);
      if subs.Fail? {
        RayTypeListStopsAt(st0, entries, compile, i);
        return Fail(subs.error);
      }
      st := RtState(st.rayTypes + {t.value}, st.programs[t.value := e.program],
                    st.handleIndices[t.value := compile(e.program, AsMutations(subs.value))]);
    }
    assert entries[..|entries|] == entries;
    r := Ok(st);
  }

  /** The search of `GPU_MATERIAL_TEXTURES`, stopping at the first match. */
  method FindTextureEntry(name: string) returns (r: Option<nat>)
    ensures r == FindTexture(name)
  {
    for i := 0 to |GpuMaterialTextures|
      invariant FindTexture(name) == FindTextureFrom(name, i)
    {
      if GpuMaterialTextures[i].name == name {
        return Some(i);
      }
    }
    r := None;
  }

  /** The search of `GPU_MATERIAL_FLOATS`, stopping at the first match. */
  method FindFloatEntry(name: string) returns (r: Option<nat>)
    ensures r == FindFloat(name)
  {
    for i := 0 to |GpuMaterialFloats|
      invariant FindFloat(name) == FindFloatFrom(name, i)
    {
      if GpuMaterialFloats[i].name == name {
        return Some(i);
      }
    }
    r := None;
  }

  /** One `<input>` of `<rtMaterial>`. */
  method RtInput(g: GpuMaterial, e: RtInputEntry, indexer: BindlessIndexer) returns (r: Result<GpuMaterial>)
    ensures r == RtInputStep(g, e, indexer)
  {
    var t := FindTextureEntry(e.name);
    if t.Some? {
      var ch := GpuMaterialTextures[t.value].slot;
      return Ok(g.(textureViewCount := g.textureViewCount + 1,
                   images := g.images[ch := e.text],
                   bindlessTextureIndices := g.bindlessTextureIndices[ch := indexer(e.text) % 65536]));
    }
    var f := FindFloatEntry(e.name);
    if f.None? {
      return Fail(UserData(BadInputName));
    }
    var entry := GpuMaterialFloats[f.value];
    if e.numbers.None? || |e.numbers.value| != entry.floatCount {
      return Fail(UserData(BadInputValue));
    }
    r := Ok(g.(floats := g.floats[entry.field := e.numbers.value]));
  }

  /** The optional `<inputs>` of `<rtMaterial>`. */
  method RtInputs(g0: GpuMaterial, inputs: Option<seq<RtInputEntry>>, indexer: BindlessIndexer) returns (r: Result<GpuMaterial>)
    ensures r == RtInputsSpec(g0, inputs, indexer)
  {
    if inputs.None? {
      return Ok(g0);
    }
    var entries := inputs.value;
    if entries == [] {
      return Fail(UserData(MissingChildElement));
    }
    var g := g0;
    for i := 0 to |entries|
      invariant RtInputList(g0, entries[..i], indexer) == Ok(g)
    {
      assert entries[..i + 1][..i] == entries[..i];
      var n := RtInput(g, entries[i], indexer);
      if n.Fail? {
        RtInputListStopsAt(g0, entries, indexer, i);
        return Fail(n.error);
      }
      g := n.value;
    }
    assert entries[..|entries|] == entries;
    r := Ok(g);
  }

  /** `parseRtMaterial`. */
  method ParseRtMaterial(st: RtState, g: GpuMaterial, el: RtMaterialElement, compile: RtCompiler, indexer: BindlessIndexer)
    returns (r: Result<(RtState, GpuMaterial)>)
    ensures r == ParseRtMaterialSpec(st, g, el, compile, indexer)
  {
    var st2 := RayTypes(st, el.rayTypes, compile);
    if st2.Fail? {
      return Fail(st2.error);
    }
    var g2 := RtInputs(g, el.inputs, indexer);
    if g2.Fail? {
      return Fail(g2.error);
    }
    r := Ok((st2.value, g2.value));
  }

  /** `findGlobalUniformsUbo`: the binding of the last block of that name. */
  method FindGlobalUniformsUbo(blocks: seq<Block>) returns (r: Result<nat>)
    ensures r == GlobalUniformsSpec(blocks)
  {
    var binding := MaxU32;
    for b := 0 to |blocks|
      invariant BindingAfter(Some(MaxU32), blocks[..b], GlobalUniformsName) == Some(binding)
    {
      assert blocks[..b + 1][..b] == blocks[..b];
      if blocks[b].name == GlobalUniformsName {
        binding := blocks[b].binding;
      }
    }
    assert blocks[..|blocks|] == blocks;
    if binding == MaxU32 {
      return Fail(UserData(GlobalUniformsMissing));
    }
    r := Ok(binding);
  }
}
