/**
  The material's mutators: the non-builtin `(name, value)` pairs the material
  lists (`parseMutators`), and the builtin slots INSTANCED, PASS, LOD, BONES,
  VELOCITY and VRS that the resolver binds to the program's own mutators
  (`findBuiltinMutators`).
*/
module Mutators {
  import opened Common
  import opened ShaderBinary
  import opened Builtins

  /** One `<mutator name=.. value=..>` element of the material description. */
  datatype MutatorEntry = MutatorEntry(name: string, value: int)

  /** `SubMutation`: a program mutator and the value the material picks for it. */
  datatype SubMutation = SubMutation(mutator: Mutator, value: int)

  // ---------------------------------------------------------------------------
  // parseMutators
  // ---------------------------------------------------------------------------

  /** One element of `<mutation>`, checked against the program's mutators. */
  function ParseMutator(mutators: seq<Mutator>, e: MutatorEntry): Result<SubMutation> {
    if |e.name| == 0 then Fail(UserData(EmptyMutatorName))
    else if IsBuiltinMutatorName(e.name) then Fail(UserData(BuiltinMutatorListed))
    else if StartsWith(e.name, "ANKI_") then Fail(UserData(ReservedMutatorPrefix))
    else
      var m := TryFindMutator(mutators, e.name);
      if m.None? then Fail(UserData(MutatorNotFound))
      else if e.value !in m.value.values then Fail(UserData(MutatorValueNotFound))
      else Ok(SubMutation(m.value, e.value))
  }

  /** The do-while loop over the `<mutator>` elements, as a fold over a prefix. */
  function ParseMutatorList(mutators: seq<Mutator>, entries: seq<MutatorEntry>): Result<seq<SubMutation>>
    decreases |entries|
  {
    if entries == [] then Ok([])
    else
      var done :- ParseMutatorList(mutators, entries[..|entries| - 1]);
      var m :- ParseMutator(mutators, entries[|entries| - 1]);
      Ok(done + [m])
  }

  /** The `addMutation` calls for a list of sub-mutations: each mutator's name with the chosen value, in order. */
  function AsMutations(subs: seq<SubMutation>): seq<Mutation> {
    seq(|subs|, i requires 0 <= i < |subs| => Mutation(subs[i].mutator.name, subs[i].value))
  }

  /** `parseMutators`: `<mutation>` needs at least one `<mutator>` child. */
  function ParseMutatorsSpec(mutators: seq<Mutator>, entries: seq<MutatorEntry>): Result<seq<SubMutation>> {
    if entries == [] then Fail(UserData(MissingChildElement)) else ParseMutatorList(mutators, entries)
  }

  /**
    What the material may list: a non-empty name outside the reserved `ANKI_`
    namespace, naming a mutator of the program, with one of that mutator's values.
  */
  predicate EntryValid(mutators: seq<Mutator>, e: MutatorEntry) {
    && |e.name| > 0
    && !StartsWith(e.name, "ANKI_")
    && exists k | 0 <= k < |mutators| :: mutators[k].name == e.name && e.value in TryFindMutator(mutators, e.name).value.values
  }

  /** One element is accepted exactly when it is valid, and then it names the program's mutator. */
  lemma ParseMutatorIff(mutators: seq<Mutator>, e: MutatorEntry)
    ensures ParseMutator(mutators, e).Ok? <==> EntryValid(mutators, e)
    ensures ParseMutator(mutators, e).Ok? ==>
      ParseMutator(mutators, e).value.mutator == TryFindMutator(mutators, e.name).value
      && ParseMutator(mutators, e).value.mutator.name == e.name
      && ParseMutator(mutators, e).value.value == e.value
  {
    if IsBuiltinMutatorName(e.name) {
      BuiltinMutatorNamesReserved(e.name);
    }
  }

  /**
    The list is accepted exactly when every element is valid; it then yields
    one `SubMutation` per element, in document order, each carrying the
    element's value and the program mutator of that name.
  */
  lemma {:induction false} ParseMutatorListIff(mutators: seq<Mutator>, entries: seq<MutatorEntry>)
    ensures ParseMutatorList(mutators, entries).Ok? <==> forall i | 0 <= i < |entries| :: EntryValid(mutators, entries[i])
    ensures ParseMutatorList(mutators, entries).Ok? ==>
      var subs := ParseMutatorList(mutators, entries).value;
      && |subs| == |entries|
      && forall i | 0 <= i < |entries| ::
           subs[i].mutator == TryFindMutator(mutators, entries[i].name).value && subs[i].value == entries[i].value
    decreases |entries|
  {
    if entries != [] {
      var pre := entries[..|entries| - 1];
      var last := entries[|entries| - 1];
      ParseMutatorListIff(mutators, pre);
      ParseMutatorIff(mutators, last);
      assert forall i | 0 <= i < |pre| :: pre[i] == entries[i];
    }
  }

  /** `parseMutators` accepts exactly a non-empty list of valid elements. */
  lemma ParseMutatorsIff(mutators: seq<Mutator>, entries: seq<MutatorEntry>)
    ensures ParseMutatorsSpec(mutators, entries).Ok? <==>
      |entries| > 0 && forall i | 0 <= i < |entries| :: EntryValid(mutators, entries[i])
    ensures ParseMutatorsSpec(mutators, entries).Ok? ==>
      var subs := ParseMutatorsSpec(mutators, entries).value;
      && |subs| == |entries|
      && forall i | 0 <= i < |entries| ::
           subs[i].mutator.name == entries[i].name && subs[i].mutator in mutators
           && subs[i].value == entries[i].value && subs[i].value in subs[i].mutator.values
  {
    ParseMutatorListIff(mutators, entries);
  }

  // ---------------------------------------------------------------------------
  // findBuiltinMutators
  // ---------------------------------------------------------------------------

  /** `m_builtinMutators`: the program mutator bound to each builtin slot, if any. */
  datatype BuiltinMutators = BuiltinMutators(
    instanced: Option<Mutator>, pass: Option<Mutator>, lod: Option<Mutator>,
    bones: Option<Mutator>, velocity: Option<Mutator>, vrs: Option<Mutator>)

  const NoBuiltinMutators := BuiltinMutators(None, None, None, None, None, None)

  /** What `findBuiltinMutators` writes: the slots, `m_lodCount` and the two bone-transform bindings. */
  datatype BuiltinSetup = BuiltinSetup(
    slots: BuiltinMutators, lodCount: nat, boneTrfsBinding: Option<nat>, prevFrameBoneTrfsBinding: Option<nat>)

  function One(m: Option<Mutator>): nat { if m.Some? then 1 else 0 }

  /** `builtinMutatorCount`: how many slots are bound. */
  function BoundCount(s: BuiltinMutators): nat {
    One(s.instanced) + One(s.pass) + One(s.lod) + One(s.bones) + One(s.velocity) + One(s.vrs)
  }

  /** The values `0, 1, .., n-1`, in order. */
  predicate IsIota(values: seq<int>) {
    forall i | 0 <= i < |values| :: values[i] == i
  }

  /** The members of the `Pass` enumeration other than `FS`, in order. */
  function NonFsPasses(): (ps: seq<int>)
    ensures |ps| == Passes.count - 1
  {
    seq(Passes.count - 1, i requires 0 <= i < Passes.count - 1 => if i < Passes.fs then i else i + 1)
  }

  /** `NonFsPasses` lists every pass but `FS`, each once, in increasing order. */
  lemma NonFsPassesAreAllButFs()
    ensures forall p | 0 <= p < Passes.count && p != Passes.fs :: p in NonFsPasses()
    ensures Passes.fs !in NonFsPasses()
    ensures forall i, j | 0 <= i < j < |NonFsPasses()| :: NonFsPasses()[i] < NonFsPasses()[j]
  {
    var ps := NonFsPasses();
    forall p | 0 <= p < Passes.count && p != Passes.fs ensures p in ps {
      if p < Passes.fs { assert ps[p] == p; } else { assert ps[p - 1] == p; }
    }
  }

  /** The INSTANCED slot: two values, of which only the first is compared (with 0). */
  function CheckInstanced(m: Option<Mutator>, hasPerInstanceUbo: bool): Result<()> {
    if m.None? then Ok(())
    else if |m.value.values| != 2 then Fail(UserData(WrongValueCount))
    else if m.value.values[0] != 0 then Fail(UserData(UnexpectedValues))
    else if !hasPerInstanceUbo then Fail(UserData(MissingPerInstanceUbo))
    else Ok(())
  }

  /** The PASS slot: present exactly for deferred shading, with every pass but `FS` as values. */
  function CheckPass(m: Option<Mutator>, forwardShading: bool): Result<()> {
    if m.Some? && forwardShading then Fail(UserData(PassNotForForward))
    else if m.None? && !forwardShading then Fail(UserData(PassRequired))
    else if m.None? then Ok(())
    else if |m.value.values| != Passes.count - 1 then Fail(UserData(WrongValueCount))
    else if m.value.values != NonFsPasses() then Fail(UserData(UnexpectedValues))
    else Ok(())
  }

  /** The LOD slot: at most `MAX_LOD_COUNT` values, which must be `0 .. n-1`. */
  function CheckLod(m: Option<Mutator>): Result<()> {
    if m.None? then Ok(())
    else if |m.value.values| > MaxLodCount then Fail(UserData(WrongValueCount))
    else if !IsIota(m.value.values) then Fail(UserData(UnexpectedValues))
    else Ok(())
  }

  /** The BONES, VELOCITY and VRS slots: exactly the values 0 and 1. */
  function CheckSwitch(m: Option<Mutator>): Result<()> {
    if m.None? then Ok(())
    else if |m.value.values| != 2 then Fail(UserData(WrongValueCount))
    else if !IsIota(m.value.values) then Fail(UserData(UnexpectedValues))
    else Ok(())
  }

  /** The two bone-transform bindings; `None` is the engine's `MAX_U32`. */
  datatype BoneBindings = BoneBindings(current: Option<nat>, previous: Option<nat>)

  /** One storage block of the loop that looks for the bone-transform buffers. */
  function ScanBoneBlock(acc: BoneBindings, block: Block, descriptorSetIdx: nat): Result<BoneBindings> {
    if block.name == "b_ankiBoneTransforms" then
      if block.descriptorSet != descriptorSetIdx then Fail(UserData(BoneTransformsWrongSet))
      else Ok(acc.(current := Some(block.binding)))
    else if block.name == "b_ankiPrevFrameBoneTransforms" then
      if block.descriptorSet != descriptorSetIdx then Fail(UserData(BoneTransformsWrongSet))
      else Ok(acc.(previous := Some(block.binding)))
    else Ok(acc)
  }

  /** The loop over `binary.m_storageBlocks`. */
  function ScanBoneBlocks(acc: BoneBindings, blocks: seq<Block>, descriptorSetIdx: nat): Result<BoneBindings>
    decreases |blocks|
  {
    if blocks == [] then Ok(acc)
    else
      var a :- ScanBoneBlocks(acc, blocks[..|blocks| - 1], descriptorSetIdx);
      ScanBoneBlock(a, blocks[|blocks| - 1], descriptorSetIdx)
  }

  /** The position of the last block with that name. */
  function LastNamed(blocks: seq<Block>, name: string): (r: Option<nat>)
    ensures r.Some? ==> r.value < |blocks| && blocks[r.value].name == name
    ensures r.Some? ==> forall b | r.value < b < |blocks| :: blocks[b].name != name
    ensures r.None? ==> forall b | 0 <= b < |blocks| :: blocks[b].name != name
    decreases |blocks|
  {
    if blocks == [] then None
    else if blocks[|blocks| - 1].name == name then Some(|blocks| - 1)
    else
      var r := LastNamed(blocks[..|blocks| - 1], name);
      assert forall b | 0 <= b < |blocks| - 1 :: blocks[..|blocks| - 1][b] == blocks[b];
      r
  }

  /** The binding a scan leaves for `name`: the last such block's, or the one it started from. */
  function BindingAfter(start: Option<nat>, blocks: seq<Block>, name: string): Option<nat> {
    var k := LastNamed(blocks, name);
    if k.Some? then Some(blocks[k.value].binding) else start
  }

  /**
    The bone-transform scan fails exactly when one of the two buffers lies
    outside the material's descriptor set; otherwise the last buffer of each
    name gives its binding.
  */
  lemma {:induction false} ScanBoneBlocksIff(acc: BoneBindings, blocks: seq<Block>, descriptorSetIdx: nat)
    ensures ScanBoneBlocks(acc, blocks, descriptorSetIdx).Ok? <==>
      forall b | 0 <= b < |blocks| && blocks[b].name in {"b_ankiBoneTransforms", "b_ankiPrevFrameBoneTransforms"} ::
        blocks[b].descriptorSet == descriptorSetIdx
    ensures ScanBoneBlocks(acc, blocks, descriptorSetIdx).Ok? ==>
      ScanBoneBlocks(acc, blocks, descriptorSetIdx).value
      == BoneBindings(BindingAfter(acc.current, blocks, "b_ankiBoneTransforms"),
                      BindingAfter(acc.previous, blocks, "b_ankiPrevFrameBoneTransforms"))
    decreases |blocks|
  {
    if blocks != [] {
      var pre := blocks[..|blocks| - 1];
      ScanBoneBlocksIff(acc, pre, descriptorSetIdx);
      assert forall b | 0 <= b < |pre| :: pre[b] == blocks[b];
    }
  }

  /** The state `findBuiltinMutators` leaves when BONES is bound but a bone buffer is missing. */
  predicate BonesWithoutBuffers(bones: Option<Mutator>, bb: BoneBindings) {
    bones.Some? && (BindingUnset(bb.current) || BindingUnset(bb.previous))
  }

  /** A binding still at `MAX_U32`: none was found, or the one found is itself `MAX_U32`. */
  predicate BindingUnset(b: Option<nat>) {
    b.None? || b == Some(MaxU32)
  }

  /**
    `findBuiltinMutators`, as written: when BONES is bound but a bone buffer is
    missing it logs and returns success straight away, so VELOCITY and VRS
    keep their previous slots and the closure count is not checked.
  */
  function FindBuiltinMutatorsSpec(prog: ShaderProgram, hasPerInstanceUbo: bool, forwardShading: bool,
                                   nonBuiltinCount: nat, descriptorSetIdx: nat, st: BuiltinSetup): Result<BuiltinSetup>
  {
    var ms := prog.mutators;
    var instanced := TryFindMutator(ms, "ANKI_INSTANCED");
    var _ :- CheckInstanced(instanced, hasPerInstanceUbo);
    var pass := TryFindMutator(ms, "ANKI_PASS");
    var _ :- CheckPass(pass, forwardShading);
    var lod := TryFindMutator(ms, "ANKI_LOD");
    var _ :- CheckLod(lod);
    // `m_lodCount` is a U8.
    var lodCount := if lod.Some? then |lod.value.values| % 256 else st.lodCount;
    var bones := TryFindMutator(ms, "ANKI_BONES");
    var _ :- CheckSwitch(bones);
    var bb :- if bones.Some?
      then ScanBoneBlocks(BoneBindings(st.boneTrfsBinding, st.prevFrameBoneTrfsBinding), prog.binary.storageBlocks, descriptorSetIdx)
      else Ok(BoneBindings(st.boneTrfsBinding, st.prevFrameBoneTrfsBinding));
    if BonesWithoutBuffers(bones, bb) then
      Ok(BuiltinSetup(st.slots.(instanced := instanced, pass := pass, lod := lod, bones := bones),
                      lodCount, bb.current, bb.previous))
    else
      var velocity := TryFindMutator(ms, "ANKI_VELOCITY");
      var _ :- CheckSwitch(velocity);
      var vrs := TryFindMutator(ms, "ANKI_VRS");
      var _ :- CheckSwitch(vrs);
      var slots := BuiltinMutators(instanced, pass, lod, bones, velocity, vrs);
      if nonBuiltinCount + BoundCount(slots) != |ms| then Fail(UserData(UnaccountedMutators))
      else Ok(BuiltinSetup(slots, lodCount, bb.current, bb.previous))
  }

  /**
    Each slot holds the program's mutator of that builtin name; PASS is bound
    exactly for deferred shading and lists every pass but `FS`; LOD lists
    `0 .. n-1` with `n <= MAX_LOD_COUNT` and sets the LOD count to `n` (as a
    byte); BONES, VELOCITY and VRS list 0 and 1; INSTANCED has two values, the
    first 0, and needs the per-instance block.
  */
  lemma FindBuiltinMutatorsSlots(prog: ShaderProgram, hasPerInstanceUbo: bool, forwardShading: bool,
                                 nonBuiltinCount: nat, descriptorSetIdx: nat, st: BuiltinSetup)
    requires FindBuiltinMutatorsSpec(prog, hasPerInstanceUbo, forwardShading, nonBuiltinCount, descriptorSetIdx, st).Ok?
    ensures var r := FindBuiltinMutatorsSpec(prog, hasPerInstanceUbo, forwardShading, nonBuiltinCount, descriptorSetIdx, st).value;
      var ms := prog.mutators;
      && r.slots.instanced == TryFindMutator(ms, "ANKI_INSTANCED")
      && r.slots.pass == TryFindMutator(ms, "ANKI_PASS")
      && r.slots.lod == TryFindMutator(ms, "ANKI_LOD")
      && r.slots.bones == TryFindMutator(ms, "ANKI_BONES")
      && (r.slots.instanced.Some? ==>
            |r.slots.instanced.value.values| == 2 && r.slots.instanced.value.values[0] == 0 && hasPerInstanceUbo)
      && (r.slots.pass.Some? <==> !forwardShading)
      && (r.slots.pass.Some? ==> r.slots.pass.value.values == NonFsPasses())
      && (r.slots.lod.Some? ==>
            |r.slots.lod.value.values| <= MaxLodCount && IsIota(r.slots.lod.value.values)
            && r.lodCount == |r.slots.lod.value.values| % 256)
      && (r.slots.lod.None? ==> r.lodCount == st.lodCount)
      && (r.slots.bones.Some? ==> r.slots.bones.value.values == [0, 1])
  {
    var b := TryFindMutator(prog.mutators, "ANKI_BONES");
    if b.Some? {
      assert b.value.values == [b.value.values[0], b.value.values[1]];
    }
  }

  /**
    Unless the BONES shortcut is taken, VELOCITY and VRS are the program's
    mutators of those names with values 0 and 1, and the material's own
    mutators plus the bound slots are as many as the program's mutators. Only
    the numbers are compared (`RepeatedMutatorAccepted`). The shortcut leaves
    the VELOCITY and VRS slots as they were.
  */
  lemma FindBuiltinMutatorsClosure(prog: ShaderProgram, hasPerInstanceUbo: bool, forwardShading: bool,
                                   nonBuiltinCount: nat, descriptorSetIdx: nat, st: BuiltinSetup)
    requires FindBuiltinMutatorsSpec(prog, hasPerInstanceUbo, forwardShading, nonBuiltinCount, descriptorSetIdx, st).Ok?
    ensures var r := FindBuiltinMutatorsSpec(prog, hasPerInstanceUbo, forwardShading, nonBuiltinCount, descriptorSetIdx, st).value;
      !BonesWithoutBuffers(r.slots.bones, BoneBindings(r.boneTrfsBinding, r.prevFrameBoneTrfsBinding)) ==>
        && r.slots.velocity == TryFindMutator(prog.mutators, "ANKI_VELOCITY")
        && r.slots.vrs == TryFindMutator(prog.mutators, "ANKI_VRS")
        && (r.slots.velocity.Some? ==> r.slots.velocity.value.values == [0, 1])
        && (r.slots.vrs.Some? ==> r.slots.vrs.value.values == [0, 1])
        && nonBuiltinCount + BoundCount(r.slots) == |prog.mutators|
    ensures var r := FindBuiltinMutatorsSpec(prog, hasPerInstanceUbo, forwardShading, nonBuiltinCount, descriptorSetIdx, st).value;
      BonesWithoutBuffers(r.slots.bones, BoneBindings(r.boneTrfsBinding, r.prevFrameBoneTrfsBinding)) ==>
        r.slots.velocity == st.slots.velocity && r.slots.vrs == st.slots.vrs
  {
    var r := FindBuiltinMutatorsSpec(prog, hasPerInstanceUbo, forwardShading, nonBuiltinCount, descriptorSetIdx, st).value;
    if !BonesWithoutBuffers(r.slots.bones, BoneBindings(r.boneTrfsBinding, r.prevFrameBoneTrfsBinding)) {
      var v := r.slots.velocity;
      if v.Some? {
        assert v.value.values == [v.value.values[0], v.value.values[1]];
      }
      var w := r.slots.vrs;
      if w.Some? {
        assert w.value.values == [w.value.values[0], w.value.values[1]];
      }
    }
  }

  /**
    With BONES bound, both bone buffers must lie in the material's descriptor
    set, and the bindings are those of the last buffer of each name.
  */
  lemma FindBuiltinMutatorsBones(prog: ShaderProgram, hasPerInstanceUbo: bool, forwardShading: bool,
                                 nonBuiltinCount: nat, descriptorSetIdx: nat, st: BuiltinSetup)
    requires FindBuiltinMutatorsSpec(prog, hasPerInstanceUbo, forwardShading, nonBuiltinCount, descriptorSetIdx, st).Ok?
    requires TryFindMutator(prog.mutators, "ANKI_BONES").Some?
    ensures var r := FindBuiltinMutatorsSpec(prog, hasPerInstanceUbo, forwardShading, nonBuiltinCount, descriptorSetIdx, st).value;
      var blocks := prog.binary.storageBlocks;
      && (forall b | 0 <= b < |blocks| && blocks[b].name in {"b_ankiBoneTransforms", "b_ankiPrevFrameBoneTransforms"} ::
            blocks[b].descriptorSet == descriptorSetIdx)
      && r.boneTrfsBinding == BindingAfter(st.boneTrfsBinding, blocks, "b_ankiBoneTransforms")
      && r.prevFrameBoneTrfsBinding == BindingAfter(st.prevFrameBoneTrfsBinding, blocks, "b_ankiPrevFrameBoneTransforms")
  {
    ScanBoneBlocksIff(BoneBindings(st.boneTrfsBinding, st.prevFrameBoneTrfsBinding), prog.binary.storageBlocks, descriptorSetIdx);
  }

  /** INSTANCED's second value is never compared: `[0, 7]` is accepted. */
  lemma InstancedSecondValueUnchecked()
    ensures var prog := ShaderProgram(Binary([], [], []), [], [Mutator("ANKI_INSTANCED", [0, 7])]);
      FindBuiltinMutatorsSpec(prog, true, true, 0, 0, BuiltinSetup(NoBuiltinMutators, 1, None, None)).Ok?
  {
    var ms := [Mutator("ANKI_INSTANCED", [0, 7])];
    assert TryFindMutator(ms, "ANKI_INSTANCED") == Some(ms[0]);
    assert ms[0].name != "ANKI_PASS" && ms[0].name != "ANKI_LOD" && ms[0].name != "ANKI_BONES";
    assert ms[0].name != "ANKI_VELOCITY" && ms[0].name != "ANKI_VRS";
  }

  /**
    With BONES bound and no bone buffers, the load goes on with success even
    though a program mutator (`m` below) is accounted for by nobody.
  */
  lemma BonesWithoutBuffersSkipsClosure()
    ensures var prog := ShaderProgram(Binary([], [], []), [], [Mutator("ANKI_BONES", [0, 1]), Mutator("m", [0])]);
      var r := FindBuiltinMutatorsSpec(prog, false, true, 0, 0, BuiltinSetup(NoBuiltinMutators, 1, None, None));
      r.Ok? && BoundCount(r.value.slots) < |prog.mutators|
  {
    var ms := [Mutator("ANKI_BONES", [0, 1]), Mutator("m", [0])];
    assert ms[0].name != "ANKI_INSTANCED" && ms[0].name != "ANKI_PASS" && ms[0].name != "ANKI_LOD";
    assert ms[1].name != "ANKI_INSTANCED" && ms[1].name != "ANKI_PASS" && ms[1].name != "ANKI_LOD";
    assert ms[1].name != "ANKI_BONES";
    assert TryFindMutator(ms, "ANKI_BONES") == Some(ms[0]);
  }

  /**
    The closure compares counts and does not match names: `a` listed twice
    stands in for `b`, which no entry sets, and both stages accept.
  */
  lemma RepeatedMutatorAccepted()
    ensures var ms := [Mutator("a", [0, 1]), Mutator("b", [0])];
      var entries := [MutatorEntry("a", 0), MutatorEntry("a", 1)];
      var prog := ShaderProgram(Binary([], [], []), [], ms);
      && ParseMutatorsSpec(ms, entries) == Ok([SubMutation(ms[0], 0), SubMutation(ms[0], 1)])
      && FindBuiltinMutatorsSpec(prog, false, true, 2, 0, BuiltinSetup(NoBuiltinMutators, 1, None, None)).Ok?
      && forall k | 0 <= k < |entries| :: entries[k].name != "b"
  {
    var ms := [Mutator("a", [0, 1]), Mutator("b", [0])];
    var entries := [MutatorEntry("a", 0), MutatorEntry("a", 1)];
    assert TryFindMutator(ms, "a") == Some(ms[0]);
    assert !IsBuiltinMutatorName("a") && !StartsWith("a", "ANKI_");
    var s0 := SubMutation(ms[0], 0);
    var s1 := SubMutation(ms[0], 1);
    assert ParseMutator(ms, entries[0]) == Ok(s0);
    assert ParseMutator(ms, entries[1]) == Ok(s1);
    var e1 := entries[..1];
    assert e1 == [entries[0]] && e1[..|e1| - 1] == [] && e1[|e1| - 1] == entries[0];
    assert ParseMutatorList(ms, []) == Ok([]);
    assert [] + [s0] == [s0];
    assert ParseMutatorList(ms, e1) == Ok([s0]);
    assert entries[..|entries| - 1] == e1 && entries[|entries| - 1] == entries[1];
    assert [s0] + [s1] == [s0, s1];
    assert ParseMutatorList(ms, entries) == Ok([s0, s1]);
    assert "a" != "b";
    assert ms[0].name != "ANKI_INSTANCED" && ms[0].name != "ANKI_PASS" && ms[0].name != "ANKI_LOD";
    assert ms[0].name != "ANKI_BONES" && ms[0].name != "ANKI_VELOCITY" && ms[0].name != "ANKI_VRS";
    assert ms[1].name != "ANKI_INSTANCED" && ms[1].name != "ANKI_PASS" && ms[1].name != "ANKI_LOD";
    assert ms[1].name != "ANKI_BONES" && ms[1].name != "ANKI_VELOCITY" && ms[1].name != "ANKI_VRS";
  }

  /** A `<mutator>` that fails ends the loop with its error. */
  lemma {:induction false} ParseMutatorListStopsAt(mutators: seq<Mutator>, entries: seq<MutatorEntry>, i: nat)
    requires i < |entries| && ParseMutatorList(mutators, entries[..i]).Ok? && ParseMutator(mutators, entries[i]).Fail?
    ensures ParseMutatorList(mutators, entries) == Fail(ParseMutator(mutators, entries[i]).error)
    decreases |entries|
  {
    if i < |entries| - 1 {
      var pre := entries[..|entries| - 1];
      assert pre[..i] == entries[..i];
      ParseMutatorListStopsAt(mutators, pre, i);
    } else {
      assert entries[..|entries| - 1] == entries[..i];
    }
  }

  /** A bone buffer in the wrong set ends the scan with its error. */
  lemma {:induction false} ScanBoneBlocksStopsAt(acc: BoneBindings, blocks: seq<Block>, descriptorSetIdx: nat, i: nat)
    requires i < |blocks| && ScanBoneBlocks(acc, blocks[..i], descriptorSetIdx).Ok?
    requires ScanBoneBlock(ScanBoneBlocks(acc, blocks[..i], descriptorSetIdx).value, blocks[i], descriptorSetIdx).Fail?
    ensures ScanBoneBlocks(acc, blocks, descriptorSetIdx) ==
      Fail(ScanBoneBlock(ScanBoneBlocks(acc, blocks[..i], descriptorSetIdx).value, blocks[i], descriptorSetIdx).error)
    decreases |blocks|
  {
    if i < |blocks| - 1 {
      var pre := blocks[..|blocks| - 1];
      assert pre[..i] == blocks[..i];
      ScanBoneBlocksStopsAt(acc, pre, descriptorSetIdx, i);
    } else {
      assert blocks[..|blocks| - 1] == blocks[..i];
    }
  }
}
