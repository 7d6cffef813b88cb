/**
  `parseRtMaterial`: the `<rtMaterial>` element. Each `<rayType>` names one of
  the four ray types, a ray-tracing program and an optional `<mutation>` that
  lists as many valid mutators as that program has; the resolver records the shader
  group handle of the resulting variant. The optional `<inputs>` then fill
  the GPU material descriptor: texture channels from `GPU_MATERIAL_TEXTURES`,
  float fields from `GPU_MATERIAL_FLOATS`.
*/
module RayTracing {
  import opened Common
  import opened ShaderBinary
  import opened Mutators

  // ---------------------------------------------------------------------------
  // Ray types
  // ---------------------------------------------------------------------------

  datatype RayType = Shadows | Gi | Reflections | PathTracing

  /** The `type` attribute of `<rayType>`; anything else is unknown. */
  function RayTypeOf(s: string): Option<RayType> {
    if s == "shadows" then Some(Shadows)
    else if s == "gi" then Some(Gi)
    else if s == "reflections" then Some(Reflections)
    else if s == "pathTracing" then Some(PathTracing)
    else None
  }

  /** The spelling of each ray type in the material description. */
  function RayTypeName(t: RayType): string {
    match t
    case Shadows => "shadows"
    case Gi => "gi"
    case Reflections => "reflections"
    case PathTracing => "pathTracing"
  }

  /** Every ray type is recognised under its own name... */
  lemma RayTypeRoundTrip(t: RayType)
    ensures RayTypeOf(RayTypeName(t)) == Some(t)
  {
  }

  /** ...and nothing but those four names is recognised. */
  lemma RayTypeNamesOnly(s: string)
    ensures RayTypeOf(s).Some? <==> s in {"shadows", "gi", "reflections", "pathTracing"}
    ensures RayTypeOf(s).Some? ==> RayTypeName(RayTypeOf(s).value) == s
  {
  }

  // ---------------------------------------------------------------------------
  // The mutation of one ray type
  // ---------------------------------------------------------------------------

  /**
    One `<mutator>` of a ray type's `<mutation>`. Unlike the material's own
    mutation there is no builtin or `ANKI_` check here.
  */
  function RtParseMutator(mutators: seq<Mutator>, e: MutatorEntry): Result<SubMutation> {
    if |e.name| == 0 then Fail(UserData(EmptyMutatorName))
    else
      var m := TryFindMutator(mutators, e.name);
      if m.None? then Fail(UserData(MutatorNotFound))
      else if e.value !in m.value.values then Fail(UserData(MutatorValueNotFound))
      else Ok(SubMutation(m.value, e.value))
  }

  /** The do-while loop over the `<mutator>` elements, as a fold over a prefix. */
  function RtParseMutatorList(mutators: seq<Mutator>, entries: seq<MutatorEntry>): Result<seq<SubMutation>>
    decreases |entries|
  {
    if entries == [] then Ok([])
    else
      var done :- RtParseMutatorList(mutators, entries[..|entries| - 1]);
      var m :- RtParseMutator(mutators, entries[|entries| - 1]);
      Ok(done + [m])
  }

  /**
    The sub-mutations of one ray type: none without `<mutation>`, at least one
    `<mutator>` inside it, and as many as the program has mutators.
  */
  function RtMutationSpec(prog: ShaderProgram, mutation: Option<seq<MutatorEntry>>): Result<seq<SubMutation>> {
    var subs :-
      if mutation.None? then Ok([])
      else if mutation.value == [] then Fail(UserData(MissingChildElement))
      else RtParseMutatorList(prog.mutators, mutation.value);
    if |subs| != |prog.mutators| then Fail(UserData(RtMutatorsUnset)) else Ok(subs)
  }

  /** What a ray type's mutation may list: a non-empty name of a mutator of its program, with one of its values. */
  predicate RtEntryValid(mutators: seq<Mutator>, e: MutatorEntry) {
    && |e.name| > 0
    && TryFindMutator(mutators, e.name).Some?
    && e.value in TryFindMutator(mutators, e.name).value.values
  }

  /** The sub-mutation an accepted entry yields: the first mutator of that name, with the entry's value. */
  function RtSubFor(mutators: seq<Mutator>, e: MutatorEntry): SubMutation
    requires RtEntryValid(mutators, e)
  {
    SubMutation(TryFindMutator(mutators, e.name).value, e.value)
  }

  /** The list is accepted exactly when every entry is valid, and then yields one sub-mutation per entry, in order. */
  lemma {:induction false} RtParseMutatorListAccepts(mutators: seq<Mutator>, entries: seq<MutatorEntry>)
    ensures RtParseMutatorList(mutators, entries).Ok? <==> AllHold((e: MutatorEntry) => RtEntryValid(mutators, e), entries)
    ensures RtParseMutatorList(mutators, entries).Ok? ==>
      var subs := RtParseMutatorList(mutators, entries).value;
      |subs| == |entries| && forall k | 0 <= k < |entries| :: RtEntryValid(mutators, entries[k]) && subs[k] == RtSubFor(mutators, entries[k])
    decreases |entries|
  {
    if entries != [] {
      var pre := entries[..|entries| - 1];
      RtParseMutatorListAccepts(mutators, pre);
      assert forall k | 0 <= k < |pre| :: pre[k] == entries[k];
    }
  }

  /**
    A ray type's mutation is accepted exactly when it is absent and the
    program has no mutators, or it lists as many valid entries as the
    program has mutators; the sub-mutations are then the entries' own. The
    entries' names are not compared with each other
    (`RtRepeatedMutatorAccepted`).
  */
  lemma RtMutationIff(prog: ShaderProgram, mutation: Option<seq<MutatorEntry>>)
    ensures RtMutationSpec(prog, mutation).Ok? <==>
      (mutation.None? && |prog.mutators| == 0) ||
      (&& mutation.Some?
       && mutation.value != []
       && |mutation.value| == |prog.mutators|
       && forall k | 0 <= k < |mutation.value| :: RtEntryValid(prog.mutators, mutation.value[k]))
    ensures RtMutationSpec(prog, mutation).Ok? && mutation.Some? ==>
      var subs := RtMutationSpec(prog, mutation).value;
      |subs| == |mutation.value| &&
      forall k | 0 <= k < |subs| :: RtEntryValid(prog.mutators, mutation.value[k]) && subs[k] == RtSubFor(prog.mutators, mutation.value[k])
  {
    if mutation.Some? {
      RtParseMutatorListAccepts(prog.mutators, mutation.value);
      AllHoldEach((e: MutatorEntry) => RtEntryValid(prog.mutators, e), mutation.value);
    }
  }

  /**
    The mutation's check compares counts and does not match names: `a`
    listed twice stands in for `b`, which no entry sets.
  */
  lemma RtRepeatedMutatorAccepted()
    ensures var prog := ShaderProgram(Binary([], [], []), [], [Mutator("a", [0, 1]), Mutator("b", [0])]);
      var entries := [MutatorEntry("a", 0), MutatorEntry("a", 1)];
      && RtMutationSpec(prog, Some(entries)).Ok?
      && forall k | 0 <= k < |entries| :: entries[k].name != "b"
  {
    var ms := [Mutator("a", [0, 1]), Mutator("b", [0])];
    var entries := [MutatorEntry("a", 0), MutatorEntry("a", 1)];
    assert TryFindMutator(ms, "a") == Some(ms[0]);
    var s0 := SubMutation(ms[0], 0);
    var s1 := SubMutation(ms[0], 1);
    assert RtParseMutator(ms, entries[0]) == Ok(s0);
    assert RtParseMutator(ms, entries[1]) == Ok(s1);
    var e1 := entries[..1];
    assert e1 == [entries[0]] && e1[..|e1| - 1] == [] && e1[|e1| - 1] == entries[0];
    assert RtParseMutatorList(ms, []) == Ok([]);
    assert [] + [s0] == [s0];
    assert RtParseMutatorList(ms, e1) == Ok([s0]);
    assert entries[..|entries| - 1] == e1 && entries[|entries| - 1] == entries[1];
    assert [s0] + [s1] == [s0, s1];
    assert RtParseMutatorList(ms, entries) == Ok([s0, s1]);
    assert "a" != "b";
  }

  // ---------------------------------------------------------------------------
  // The loop over <rayType>
  // ---------------------------------------------------------------------------

  /** One `<rayType>` element, with its program already loaded. */
  datatype RayTypeEntry = RayTypeEntry(typeName: string, program: ShaderProgram, mutation: Option<seq<MutatorEntry>>)

  /**
    The ray-tracing part of the material: the `m_rayTypes` bit set, the
    program loaded per type and the shader group handle index per type
    (a type that is not a key holds the initial `MAX_U32`).
  */
  datatype RtState = RtState(rayTypes: set<RayType>, programs: map<RayType, ShaderProgram>, handleIndices: map<RayType, nat>)

  /** The three parts describe the same ray types. */
  predicate RtConsistent(st: RtState) {
    st.rayTypes == st.programs.Keys && st.rayTypes == st.handleIndices.Keys
  }

  function TypeOf(e: RayTypeEntry): Option<RayType> { RayTypeOf(e.typeName) }

  /** One `<rayType>`: a known type not set before, and a mutation with as many valid entries as the program has mutators. */
  function RayTypeStep(st: RtState, e: RayTypeEntry, compile: RtCompiler): Result<RtState> {
    var t := TypeOf(e);
    if t.None? then Fail(UserData(UnknownRayType))
    else if t.value in st.programs then Fail(UserData(RayTypeTwice))
    else
      var subs :- RtMutationSpec(e.program, e.mutation);
      Ok(RtState(
        st.rayTypes + {t.value},
        st.programs[t.value := e.program],
        st.handleIndices[t.value := compile(e.program, AsMutations(subs))]))
  }

  function RayTypeList(st: RtState, entries: seq<RayTypeEntry>, compile: RtCompiler): Result<RtState>
    decreases |entries|
  {
    if entries == [] then Ok(st)
    else
      var done :- RayTypeList(st, entries[..|entries| - 1], compile);
      RayTypeStep(done, entries[|entries| - 1], compile)
  }

  /** The do-while loop over `<rayType>`: at least one is required. */
  function RayTypesSpec(st: RtState, entries: seq<RayTypeEntry>, compile: RtCompiler): Result<RtState> {
    if entries == [] then Fail(UserData(MissingChildElement)) else RayTypeList(st, entries, compile)
  }

  /** The ray types the entries name. */
  function Declared(entries: seq<RayTypeEntry>): set<RayType> {
    set k | 0 <= k < |entries| && TypeOf(entries[k]).Some? :: TypeOf(entries[k]).value
  }

  lemma DeclaredSnoc(entries: seq<RayTypeEntry>)
    requires entries != []
    ensures Declared(entries) == Declared(entries[..|entries| - 1]) +
      (if TypeOf(entries[|entries| - 1]).Some? then {TypeOf(entries[|entries| - 1]).value} else {})
  {
    var pre := entries[..|entries| - 1];
    assert forall k | 0 <= k < |pre| :: pre[k] == entries[k];
  }

  /** Accepted entries add exactly their own types to the keys of every part. */
  lemma {:induction false} RayTypeListKeys(st: RtState, entries: seq<RayTypeEntry>, compile: RtCompiler)
    requires RayTypeList(st, entries, compile).Ok?
    ensures var out := RayTypeList(st, entries, compile).value;
      && out.rayTypes == st.rayTypes + Declared(entries)
      && out.programs.Keys == st.programs.Keys + Declared(entries)
      && out.handleIndices.Keys == st.handleIndices.Keys + Declared(entries)
    decreases |entries|
  {
    if entries != [] {
      RayTypeListKeys(st, entries[..|entries| - 1], compile);
      DeclaredSnoc(entries);
    }
  }

  /** What entry `k` needs: a known type, not set before it or by an earlier entry, and an accepted mutation. */
  predicate RayTypeEntryValid(set0: set<RayType>, entries: seq<RayTypeEntry>, k: nat)
    requires k < |entries|
  {
    && TypeOf(entries[k]).Some?
    && TypeOf(entries[k]).value !in set0
    && (forall j | 0 <= j < k :: TypeOf(entries[j]) != TypeOf(entries[k]))
    && RtMutationSpec(entries[k].program, entries[k].mutation).Ok?
  }

  /** Validity of an earlier entry does not depend on the entries after it. */
  lemma RayTypeEntryValidPrefix(set0: set<RayType>, entries: seq<RayTypeEntry>)
    requires entries != []
    ensures forall k | 0 <= k < |entries| - 1 ::
      RayTypeEntryValid(set0, entries[..|entries| - 1], k) == RayTypeEntryValid(set0, entries, k)
  {
    var pre := entries[..|entries| - 1];
    assert forall k | 0 <= k < |pre| :: pre[k] == entries[k];
  }

  /** The last entry is valid exactly when its type is known, new to both `set0` and the earlier entries, and its mutation is accepted. */
  lemma RayTypeEntryValidLast(set0: set<RayType>, entries: seq<RayTypeEntry>)
    requires entries != []
    ensures var e := entries[|entries| - 1];
      RayTypeEntryValid(set0, entries, |entries| - 1) <==>
        && TypeOf(e).Some?
        && TypeOf(e).value !in set0 + Declared(entries[..|entries| - 1])
        && RtMutationSpec(e.program, e.mutation).Ok?
  {
    var pre := entries[..|entries| - 1];
    assert forall k | 0 <= k < |pre| :: pre[k] == entries[k];
  }

  /** The loop accepts exactly when every entry is valid. */
  lemma {:induction false} RayTypeListAccepts(st: RtState, entries: seq<RayTypeEntry>, compile: RtCompiler)
    ensures RayTypeList(st, entries, compile).Ok? <==>
      forall k | 0 <= k < |entries| :: RayTypeEntryValid(st.programs.Keys, entries, k)
    decreases |entries|
  {
    if entries != [] {
      var pre := entries[..|entries| - 1];
      RayTypeListAccepts(st, pre, compile);
      RayTypeEntryValidPrefix(st.programs.Keys, entries);
      RayTypeEntryValidLast(st.programs.Keys, entries);
      if RayTypeList(st, pre, compile).Ok? {
        var mid := RayTypeList(st, pre, compile).value;
        var e := entries[|entries| - 1];
        RayTypeListKeys(st, pre, compile);
        assert RayTypeList(st, entries, compile) == RayTypeStep(mid, e, compile);
        if TypeOf(e).Some? {
          assert TypeOf(e).value in mid.programs <==> TypeOf(e).value in st.programs.Keys + Declared(pre);
        }
        assert RayTypeStep(mid, e, compile).Ok? <==> RayTypeEntryValid(st.programs.Keys, entries, |entries| - 1);
        if RayTypeEntryValid(st.programs.Keys, entries, |entries| - 1) {
          assert forall k | 0 <= k < |entries| :: RayTypeEntryValid(st.programs.Keys, entries, k);
        }
      } else {
        var j :| 0 <= j < |pre| && !RayTypeEntryValid(st.programs.Keys, pre, j);
        assert !RayTypeEntryValid(st.programs.Keys, entries, j);
      }
    }
  }

  /** The handle index the resolver records for an entry. */
  function HandleFor(e: RayTypeEntry, compile: RtCompiler): nat
    requires RtMutationSpec(e.program, e.mutation).Ok?
  {
    compile(e.program, AsMutations(RtMutationSpec(e.program, e.mutation).value))
  }

  /** Accepted entries keep every program and handle recorded before them. */
  lemma {:induction false} RayTypeListKeeps(st: RtState, entries: seq<RayTypeEntry>, compile: RtCompiler)
    requires RayTypeList(st, entries, compile).Ok?
    ensures var out := RayTypeList(st, entries, compile).value;
      && (forall t | t in st.programs :: t in out.programs && out.programs[t] == st.programs[t])
      && (forall t | t in st.handleIndices && t in st.programs :: t in out.handleIndices && out.handleIndices[t] == st.handleIndices[t])
    decreases |entries|
  {
    if entries != [] {
      RayTypeListKeeps(st, entries[..|entries| - 1], compile);
    }
  }

  /** An accepted entry of a type not seen before records its program and handle under that type. */
  lemma RayTypeStepValues(st: RtState, e: RayTypeEntry, compile: RtCompiler)
    requires RayTypeStep(st, e, compile).Ok?
    ensures TypeOf(e).Some? && TypeOf(e).value !in st.programs && RtMutationSpec(e.program, e.mutation).Ok?
    ensures RayTypeStep(st, e, compile).value.programs == st.programs[TypeOf(e).value := e.program]
    ensures RayTypeStep(st, e, compile).value.handleIndices == st.handleIndices[TypeOf(e).value := HandleFor(e, compile)]
  {
  }

  /** Accepted entries record each entry's program and handle under its type. */
  lemma {:induction false} RayTypeListValues(st: RtState, entries: seq<RayTypeEntry>, compile: RtCompiler)
    requires RayTypeList(st, entries, compile).Ok?
    ensures var out := RayTypeList(st, entries, compile).value;
      forall k | 0 <= k < |entries| ::
        && TypeOf(entries[k]).Some?
        && RtMutationSpec(entries[k].program, entries[k].mutation).Ok?
        && TypeOf(entries[k]).value in out.programs
        && TypeOf(entries[k]).value in out.handleIndices
        && out.programs[TypeOf(entries[k]).value] == entries[k].program
        && out.handleIndices[TypeOf(entries[k]).value] == HandleFor(entries[k], compile)
    decreases |entries|
  {
    if entries != [] {
      var n := |entries| - 1;
      var pre := entries[..n];
      RayTypeListValues(st, pre, compile);
      assert forall k | 0 <= k < |pre| :: pre[k] == entries[k];
      var mid := RayTypeList(st, pre, compile).value;
      var e := entries[n];
      assert RayTypeList(st, entries, compile) == RayTypeStep(mid, e, compile);
      RayTypeStepValues(mid, e, compile);
      var t := TypeOf(e).value;
      var out := RayTypeList(st, entries, compile).value;
      forall k | 0 <= k < |entries|
        ensures TypeOf(entries[k]).Some? && RtMutationSpec(entries[k].program, entries[k].mutation).Ok?
        ensures TypeOf(entries[k]).value in out.programs && TypeOf(entries[k]).value in out.handleIndices
        ensures out.programs[TypeOf(entries[k]).value] == entries[k].program
        ensures out.handleIndices[TypeOf(entries[k]).value] == HandleFor(entries[k], compile)
      {
        var tk := TypeOf(entries[k]).value;
        if k < n {
          assert pre[k] == entries[k];
          assert tk in mid.programs && tk in mid.handleIndices && tk != t;
          assert out.programs[tk] == mid.programs[tk] && out.handleIndices[tk] == mid.handleIndices[tk];
        } else {
          assert tk == t;
        }
      }
    }
  }

  /** `<rtMaterial>`'s ray types: accepted exactly when there is at least one and each is valid. */
  lemma RayTypesIff(st: RtState, entries: seq<RayTypeEntry>, compile: RtCompiler)
    ensures RayTypesSpec(st, entries, compile).Ok? <==>
      entries != [] && forall k | 0 <= k < |entries| :: RayTypeEntryValid(st.programs.Keys, entries, k)
  {
    RayTypeListAccepts(st, entries, compile);
  }

  /** Starting from a consistent state, the three parts still describe the same ray types. */
  lemma RayTypesConsistent(st: RtState, entries: seq<RayTypeEntry>, compile: RtCompiler)
    requires RtConsistent(st)
    requires RayTypesSpec(st, entries, compile).Ok?
    ensures RtConsistent(RayTypesSpec(st, entries, compile).value)
  {
    RayTypeListKeys(st, entries, compile);
  }

  /** A ray type cannot be given twice in one material. */
  lemma RayTypeTwiceRejected(st: RtState, entries: seq<RayTypeEntry>, compile: RtCompiler, i: nat, j: nat)
    requires i < j < |entries| && TypeOf(entries[i]).Some? && TypeOf(entries[i]) == TypeOf(entries[j])
    ensures RayTypesSpec(st, entries, compile).Fail?
  {
    RayTypeListAccepts(st, entries, compile);
    assert !RayTypeEntryValid(st.programs.Keys, entries, j);
  }

  // ---------------------------------------------------------------------------
  // The GPU material tables
  // ---------------------------------------------------------------------------

  /** `TextureChannelId`. */
  datatype TextureChannel =
    | DiffuseChannel | NormalChannel | RoughnessMetalnessChannel | EmissionChannel
    | HeightChannel | Aux0Channel | Aux1Channel | Aux2Channel

  datatype GpuMaterialTexture = GpuMaterialTexture(name: string, slot: TextureChannel)

  /** `GPU_MATERIAL_TEXTURES`: the input name of each texture channel. */
  const GpuMaterialTextures: seq<GpuMaterialTexture> := [
    GpuMaterialTexture("TEXTURE_CHANNEL_DIFFUSE", DiffuseChannel),
    GpuMaterialTexture("TEXTURE_CHANNEL_NORMAL", NormalChannel),
    GpuMaterialTexture("TEXTURE_CHANNEL_ROUGHNESS_METALNESS", RoughnessMetalnessChannel),
    GpuMaterialTexture("TEXTURE_CHANNEL_EMISSION", EmissionChannel),
    GpuMaterialTexture("TEXTURE_CHANNEL_HEIGHT", HeightChannel),
    GpuMaterialTexture("TEXTURE_CHANNEL_AUX_0", Aux0Channel),
    GpuMaterialTexture("TEXTURE_CHANNEL_AUX_1", Aux1Channel),
    GpuMaterialTexture("TEXTURE_CHANNEL_AUX_2", Aux2Channel)]

  /** The float fields of `MaterialGpuDescriptor` an input can set. */
  datatype GpuField = DiffuseColor | SpecularColor | EmissiveColor | Roughness | Metalness

  datatype GpuMaterialFloat = GpuMaterialFloat(name: string, field: GpuField, floatCount: nat)

  /** `GPU_MATERIAL_FLOATS`: input name, target field and number of floats. */
  const GpuMaterialFloats: seq<GpuMaterialFloat> := [
    GpuMaterialFloat("diffuseColor", DiffuseColor, 3),
    GpuMaterialFloat("specularColor", SpecularColor, 3),
    GpuMaterialFloat("emissiveColor", EmissiveColor, 3),
    GpuMaterialFloat("roughness", Roughness, 1),
    GpuMaterialFloat("metalness", Metalness, 1)]

  /** The first loop over `GPU_MATERIAL_TEXTURES`, which stops at the first match. */
  function FindTexture(name: string): (r: Option<nat>)
    ensures r.Some? ==> r.value < |GpuMaterialTextures| && GpuMaterialTextures[r.value].name == name
    ensures r.None? <==> forall k | 0 <= k < |GpuMaterialTextures| :: GpuMaterialTextures[k].name != name
  {
    FindTextureFrom(name, 0)
  }

  function FindTextureFrom(name: string, i: nat): (r: Option<nat>)
    requires i <= |GpuMaterialTextures|
    ensures r.Some? ==> i <= r.value < |GpuMaterialTextures| && GpuMaterialTextures[r.value].name == name
    ensures r.None? <==> forall k | i <= k < |GpuMaterialTextures| :: GpuMaterialTextures[k].name != name
    decreases |GpuMaterialTextures| - i
  {
    if i == |GpuMaterialTextures| then None
    else if GpuMaterialTextures[i].name == name then Some(i)
    else FindTextureFrom(name, i + 1)
  }

  /** The second loop, over `GPU_MATERIAL_FLOATS`. */
  function FindFloat(name: string): (r: Option<nat>)
    ensures r.Some? ==> r.value < |GpuMaterialFloats| && GpuMaterialFloats[r.value].name == name
    ensures r.None? <==> forall k | 0 <= k < |GpuMaterialFloats| :: GpuMaterialFloats[k].name != name
  {
    FindFloatFrom(name, 0)
  }

  function FindFloatFrom(name: string, i: nat): (r: Option<nat>)
    requires i <= |GpuMaterialFloats|
    ensures r.Some? ==> i <= r.value < |GpuMaterialFloats| && GpuMaterialFloats[r.value].name == name
    ensures r.None? <==> forall k | i <= k < |GpuMaterialFloats| :: GpuMaterialFloats[k].name != name
    decreases |GpuMaterialFloats| - i
  {
    if i == |GpuMaterialFloats| then None
    else if GpuMaterialFloats[i].name == name then Some(i)
    else FindFloatFrom(name, i + 1)
  }

  /** The texture table names each channel once, under a name of its own. */
  lemma TextureTableDistinct(i: nat, j: nat)
    requires i < |GpuMaterialTextures| && j < |GpuMaterialTextures| && i != j
    ensures GpuMaterialTextures[i].name != GpuMaterialTextures[j].name
    ensures GpuMaterialTextures[i].slot != GpuMaterialTextures[j].slot
  {
    var a := GpuMaterialTextures[i].name;
    var b := GpuMaterialTextures[j].name;
    if 5 <= i && 5 <= j {
      assert a[20] != b[20];
    } else {
      assert a[16] != b[16];
    }
  }

  /** The float table names each field once, under a name of its own. */
  lemma FloatTableDistinct(i: nat, j: nat)
    requires i < |GpuMaterialFloats| && j < |GpuMaterialFloats| && i != j
    ensures GpuMaterialFloats[i].name != GpuMaterialFloats[j].name
    ensures GpuMaterialFloats[i].field != GpuMaterialFloats[j].field
  {
    assert GpuMaterialFloats[i].name[0] != GpuMaterialFloats[j].name[0];
  }

  /** No name is in both tables, so the order in which they are tried does not matter. */
  lemma TablesDisjoint(i: nat, j: nat)
    requires i < |GpuMaterialTextures| && j < |GpuMaterialFloats|
    ensures GpuMaterialTextures[i].name != GpuMaterialFloats[j].name
  {
    assert GpuMaterialTextures[i].name[0] != GpuMaterialFloats[j].name[0];
  }

  /** Looking up a texture entry's name finds that entry. */
  lemma FindTextureAt(k: nat)
    requires k < |GpuMaterialTextures|
    ensures FindTexture(GpuMaterialTextures[k].name) == Some(k)
  {
    var r := FindTexture(GpuMaterialTextures[k].name);
    if r.value != k {
      TextureTableDistinct(r.value, k);
    }
  }

  /** Looking up a float entry's name finds that entry. */
  lemma FindFloatAt(k: nat)
    requires k < |GpuMaterialFloats|
    ensures FindFloat(GpuMaterialFloats[k].name) == Some(k)
  {
    var r := FindFloat(GpuMaterialFloats[k].name);
    if r.value != k {
      FloatTableDistinct(r.value, k);
    }
  }

  // ---------------------------------------------------------------------------
  // The loop over <input>
  // ---------------------------------------------------------------------------

  /**
    One `<input name=.. value=..>` of `<rtMaterial>`: the value text (an image
    path for a texture) and the numbers it parses to, if it does.
  */
  datatype RtInputEntry = RtInputEntry(name: string, text: string, numbers: Option<seq<real>>)

  /**
    The part of the material the inputs fill: the views counted so far, the
    image loaded per channel, the descriptor's bindless index per channel
    (16 bits) and its float fields. A key that is absent holds the zero the
    descriptor starts with.
  */
  datatype GpuMaterial = GpuMaterial(
    textureViewCount: nat,
    images: map<TextureChannel, string>,
    bindlessTextureIndices: map<TextureChannel, nat>,
    floats: map<GpuField, seq<real>>)

  /** `getOrCreateBindlessTextureIndex` of the view of the image at a path, a foreign call. */
  type BindlessIndexer = string -> nat

  /** One input. */
  function RtInputStep(g: GpuMaterial, e: RtInputEntry, indexer: BindlessIndexer): Result<GpuMaterial> {
    var t := FindTexture(e.name);
    if t.Some? then
      var ch := GpuMaterialTextures[t.value].slot;
      Ok(g.(textureViewCount := g.textureViewCount + 1,
            images := g.images[ch := e.text],
            bindlessTextureIndices := g.bindlessTextureIndices[ch := indexer(e.text) % 65536]))
    else
      var f := FindFloat(e.name);
      if f.None? then Fail(UserData(BadInputName))
      else
        var entry := GpuMaterialFloats[f.value];
        if e.numbers.None? || |e.numbers.value| != entry.floatCount then Fail(UserData(BadInputValue))
        else Ok(g.(floats := g.floats[entry.field := e.numbers.value]))
  }

  function RtInputList(g: GpuMaterial, entries: seq<RtInputEntry>, indexer: BindlessIndexer): Result<GpuMaterial>
    decreases |entries|
  {
    if entries == [] then Ok(g)
    else
      var done :- RtInputList(g, entries[..|entries| - 1], indexer);
      RtInputStep(done, entries[|entries| - 1], indexer)
  }

  /** The optional `<inputs>`: when present it needs at least one `<input>`. */
  function RtInputsSpec(g: GpuMaterial, inputs: Option<seq<RtInputEntry>>, indexer: BindlessIndexer): Result<GpuMaterial> {
    if inputs.None? then Ok(g)
    else if inputs.value == [] then Fail(UserData(MissingChildElement))
    else RtInputList(g, inputs.value, indexer)
  }

  /** What an input may be: a texture entry's name, or a float entry's name with that entry's number of floats. */
  predicate RtInputValid(e: RtInputEntry) {
    || (exists k | 0 <= k < |GpuMaterialTextures| :: GpuMaterialTextures[k].name == e.name)
    || (exists k | 0 <= k < |GpuMaterialFloats| ::
          GpuMaterialFloats[k].name == e.name && e.numbers.Some? && |e.numbers.value| == GpuMaterialFloats[k].floatCount)
  }

  /** One input is accepted exactly when it is valid. */
  lemma RtInputStepIff(g: GpuMaterial, e: RtInputEntry, indexer: BindlessIndexer)
    ensures RtInputStep(g, e, indexer).Ok? <==> RtInputValid(e)
  {
    if FindTexture(e.name).None? {
      var f := FindFloat(e.name);
      if f.Some? {
        forall k | 0 <= k < |GpuMaterialFloats| && GpuMaterialFloats[k].name == e.name ensures k == f.value {
          FindFloatAt(k);
        }
      }
    }
  }

  /** The inputs are accepted exactly when every one is valid. */
  lemma {:induction false} RtInputListAccepts(g: GpuMaterial, entries: seq<RtInputEntry>, indexer: BindlessIndexer)
    ensures RtInputList(g, entries, indexer).Ok? <==> AllHold(RtInputValid, entries)
    decreases |entries|
  {
    if entries != [] {
      var pre := entries[..|entries| - 1];
      RtInputListAccepts(g, pre, indexer);
      if RtInputList(g, pre, indexer).Ok? {
        RtInputStepIff(RtInputList(g, pre, indexer).value, entries[|entries| - 1], indexer);
      }
    }
  }

  /** `<inputs>` is accepted exactly when it is absent, or lists at least one input and each is valid. */
  lemma RtInputsIff(g: GpuMaterial, inputs: Option<seq<RtInputEntry>>, indexer: BindlessIndexer)
    ensures RtInputsSpec(g, inputs, indexer).Ok? <==>
      inputs.None? || (inputs.value != [] && forall k | 0 <= k < |inputs.value| :: RtInputValid(inputs.value[k]))
  {
    if inputs.Some? {
      RtInputListAccepts(g, inputs.value, indexer);
      AllHoldEach(RtInputValid, inputs.value);
    }
  }

  /** The last input with that name, if any. */
  function LastInputNamed(entries: seq<RtInputEntry>, name: string): Option<RtInputEntry>
    decreases |entries|
  {
    if entries == [] then None
    else if entries[|entries| - 1].name == name then Some(entries[|entries| - 1])
    else LastInputNamed(entries[..|entries| - 1], name)
  }

  /** How many inputs name a texture channel. */
  function TextureInputCount(entries: seq<RtInputEntry>): nat
    decreases |entries|
  {
    if entries == [] then 0
    else TextureInputCount(entries[..|entries| - 1]) + (if FindTexture(entries[|entries| - 1].name).Some? then 1 else 0)
  }

  /** What the inputs leave in texture entry `k`'s channel: the last input naming it, or what was there. */
  predicate TextureEffect(g: GpuMaterial, out: GpuMaterial, entries: seq<RtInputEntry>, indexer: BindlessIndexer, k: nat)
    requires k < |GpuMaterialTextures|
  {
    var ch := GpuMaterialTextures[k].slot;
    var l := LastInputNamed(entries, GpuMaterialTextures[k].name);
    if l.Some? then
      && ch in out.images && out.images[ch] == l.value.text
      && ch in out.bindlessTextureIndices && out.bindlessTextureIndices[ch] == indexer(l.value.text) % 65536
    else
      && (ch in out.images <==> ch in g.images)
      && (ch in g.images ==> out.images[ch] == g.images[ch])
      && (ch in out.bindlessTextureIndices <==> ch in g.bindlessTextureIndices)
      && (ch in g.bindlessTextureIndices ==> out.bindlessTextureIndices[ch] == g.bindlessTextureIndices[ch])
  }

  /** What the inputs leave in float entry `k`'s field: the last input naming it, or what was there. */
  predicate FloatEffect(g: GpuMaterial, out: GpuMaterial, entries: seq<RtInputEntry>, k: nat)
    requires k < |GpuMaterialFloats|
  {
    var f := GpuMaterialFloats[k].field;
    var l := LastInputNamed(entries, GpuMaterialFloats[k].name);
    if l.Some? then
      && l.value.numbers.Some? && |l.value.numbers.value| == GpuMaterialFloats[k].floatCount
      && f in out.floats && out.floats[f] == l.value.numbers.value
    else
      && (f in out.floats <==> f in g.floats)
      && (f in g.floats ==> out.floats[f] == g.floats[f])
  }

  /** One texture view per texture input, repeats included. */
  lemma {:induction false} RtInputListViews(g: GpuMaterial, entries: seq<RtInputEntry>, indexer: BindlessIndexer)
    requires RtInputList(g, entries, indexer).Ok?
    ensures RtInputList(g, entries, indexer).value.textureViewCount == g.textureViewCount + TextureInputCount(entries)
    decreases |entries|
  {
    if entries != [] {
      RtInputListViews(g, entries[..|entries| - 1], indexer);
    }
  }

  /** One more accepted input keeps texture entry `k`'s channel as the last input naming it. */
  lemma TextureEffectStep(g: GpuMaterial, mid: GpuMaterial, entries: seq<RtInputEntry>, indexer: BindlessIndexer, k: nat)
    requires entries != [] && k < |GpuMaterialTextures|
    requires TextureEffect(g, mid, entries[..|entries| - 1], indexer, k)
    requires RtInputStep(mid, entries[|entries| - 1], indexer).Ok?
    ensures TextureEffect(g, RtInputStep(mid, entries[|entries| - 1], indexer).value, entries, indexer, k)
  {
    var t := FindTexture(entries[|entries| - 1].name);
    if t.Some? && t.value != k {
      TextureTableDistinct(k, t.value);
    }
  }

  /** Each texture channel holds the image of the last input naming it. */
  lemma {:induction false} RtInputListTextures(g: GpuMaterial, entries: seq<RtInputEntry>, indexer: BindlessIndexer)
    requires RtInputList(g, entries, indexer).Ok?
    ensures forall k | 0 <= k < |GpuMaterialTextures| ::
      TextureEffect(g, RtInputList(g, entries, indexer).value, entries, indexer, k)
    decreases |entries|
  {
    if entries == [] {
      assert forall k | 0 <= k < |GpuMaterialTextures| :: LastInputNamed(entries, GpuMaterialTextures[k].name).None?;
    } else {
      var pre := entries[..|entries| - 1];
      RtInputListTextures(g, pre, indexer);
      forall k | 0 <= k < |GpuMaterialTextures|
        ensures TextureEffect(g, RtInputList(g, entries, indexer).value, entries, indexer, k)
      {
        TextureEffectStep(g, RtInputList(g, pre, indexer).value, entries, indexer, k);
      }
    }
  }

  /** One more accepted input keeps float entry `k`'s field as the last input naming it. */
  lemma FloatEffectStep(g: GpuMaterial, mid: GpuMaterial, entries: seq<RtInputEntry>, indexer: BindlessIndexer, k: nat)
    requires entries != [] && k < |GpuMaterialFloats|
    requires FloatEffect(g, mid, entries[..|entries| - 1], k)
    requires RtInputStep(mid, entries[|entries| - 1], indexer).Ok?
    ensures FloatEffect(g, RtInputStep(mid, entries[|entries| - 1], indexer).value, entries, k)
  {
    var e := entries[|entries| - 1];
    var t := FindTexture(e.name);
    if t.Some? {
      TablesDisjoint(t.value, k);
    } else if FindFloat(e.name).value != k {
      FloatTableDistinct(k, FindFloat(e.name).value);
    }
  }

  /** Each float field holds the numbers of the last input naming it. */
  lemma {:induction false} RtInputListFloats(g: GpuMaterial, entries: seq<RtInputEntry>, indexer: BindlessIndexer)
    requires RtInputList(g, entries, indexer).Ok?
    ensures forall k | 0 <= k < |GpuMaterialFloats| ::
      FloatEffect(g, RtInputList(g, entries, indexer).value, entries, k)
    decreases |entries|
  {
    if entries == [] {
      assert forall k | 0 <= k < |GpuMaterialFloats| :: LastInputNamed(entries, GpuMaterialFloats[k].name).None?;
    } else {
      var pre := entries[..|entries| - 1];
      RtInputListFloats(g, pre, indexer);
      forall k | 0 <= k < |GpuMaterialFloats|
        ensures FloatEffect(g, RtInputList(g, entries, indexer).value, entries, k)
      {
        FloatEffectStep(g, RtInputList(g, pre, indexer).value, entries, indexer, k);
      }
    }
  }

  // ---------------------------------------------------------------------------
  // The whole element, and the early returns of its loops
  // ---------------------------------------------------------------------------

  /** The `<rtMaterial>` element: its ray types and its optional inputs. */
  datatype RtMaterialElement = RtMaterialElement(rayTypes: seq<RayTypeEntry>, inputs: Option<seq<RtInputEntry>>)

  /** `parseRtMaterial`: the ray types, then the inputs. */
  function ParseRtMaterialSpec(st: RtState, g: GpuMaterial, el: RtMaterialElement,
                               compile: RtCompiler, indexer: BindlessIndexer): Result<(RtState, GpuMaterial)>
  {
    var st2 :- RayTypesSpec(st, el.rayTypes, compile);
    var g2 :- RtInputsSpec(g, el.inputs, indexer);
    Ok((st2, g2))
  }

  /** The element is accepted exactly when its ray types and its inputs are. */
  lemma ParseRtMaterialIff(st: RtState, g: GpuMaterial, el: RtMaterialElement, compile: RtCompiler, indexer: BindlessIndexer)
    ensures ParseRtMaterialSpec(st, g, el, compile, indexer).Ok? <==>
      && el.rayTypes != []
      && (forall k | 0 <= k < |el.rayTypes| :: RayTypeEntryValid(st.programs.Keys, el.rayTypes, k))
      && (el.inputs.None? || (el.inputs.value != [] && forall k | 0 <= k < |el.inputs.value| :: RtInputValid(el.inputs.value[k])))
  {
    RayTypesIff(st, el.rayTypes, compile);
    RtInputsIff(g, el.inputs, indexer);
  }

  /** A `<mutator>` that fails ends the ray type's mutation with its error. */
  lemma {:induction false} RtParseMutatorListStopsAt(mutators: seq<Mutator>, entries: seq<MutatorEntry>, i: nat)
    requires i < |entries| && RtParseMutatorList(mutators, entries[..i]).Ok? && RtParseMutator(mutators, entries[i]).Fail?
    ensures RtParseMutatorList(mutators, entries) == Fail(RtParseMutator(mutators, entries[i]).error)
    decreases |entries|
  {
    if i < |entries| - 1 {
      var pre := entries[..|entries| - 1];
      assert pre[..i] == entries[..i];
      RtParseMutatorListStopsAt(mutators, pre, i);
    } else {
      assert entries[..|entries| - 1] == entries[..i];
    }
  }

  /** A `<rayType>` that fails ends the loop with its error. */
  lemma {:induction false} RayTypeListStopsAt(st: RtState, entries: seq<RayTypeEntry>, compile: RtCompiler, i: nat)
    requires i < |entries| && RayTypeList(st, entries[..i], compile).Ok?
    requires RayTypeStep(RayTypeList(st, entries[..i], compile).value, entries[i], compile).Fail?
    ensures RayTypeList(st, entries, compile) ==
      Fail(RayTypeStep(RayTypeList(st, entries[..i], compile).value, entries[i], compile).error)
    decreases |entries|
  {
    if i < |entries| - 1 {
      var pre := entries[..|entries| - 1];
      assert pre[..i] == entries[..i];
      RayTypeListStopsAt(st, pre, compile, i);
    } else {
      assert entries[..|entries| - 1] == entries[..i];
    }
  }

  /** An `<input>` that fails ends the loop with its error. */
  lemma {:induction false} RtInputListStopsAt(g: GpuMaterial, entries: seq<RtInputEntry>, indexer: BindlessIndexer, i: nat)
    requires i < |entries| && RtInputList(g, entries[..i], indexer).Ok?
    requires RtInputStep(RtInputList(g, entries[..i], indexer).value, entries[i], indexer).Fail?
    ensures RtInputList(g, entries, indexer) ==
      Fail(RtInputStep(RtInputList(g, entries[..i], indexer).value, entries[i], indexer).error)
    decreases |entries|
  {
    if i < |entries| - 1 {
      var pre := entries[..|entries| - 1];
      assert pre[..i] == entries[..i];
      RtInputListStopsAt(g, pre, indexer, i);
    } else {
      assert entries[..|entries| - 1] == entries[..i];
    }
  }
}
