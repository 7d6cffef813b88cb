/**
  The variant cache: how `getOrCreateVariant` picks a cell of the variant
  matrix from a rendering key and what it asks the shader compiler for, and
  how `initVariant` turns the compiled variant's reflection into the active
  bits, block layouts and uniform block sizes of a `MaterialVariant`.
*/
module Variants {
  import opened Common
  import opened ShaderBinary
  import opened Builtins
  import opened Registry
  import opened Mutators
  import opened Inputs

  // ---------------------------------------------------------------------------
  // Rendering key and matrix cell
  // ---------------------------------------------------------------------------

  /** `RenderingKey`: what a draw asks of the material. */
  datatype RenderingKey = RenderingKey(pass: nat, lod: nat, instanceCount: nat, skinned: bool, velocity: bool, vrs: bool)

  /**
    `min<U32>(m_lodCount - 1, lod)`. The subtraction is U32 arithmetic, so a
    LOD count of 0 wraps to `MAX_U32` and leaves the LOD as it is.
  */
  function ClampLod(lodCount: nat, lod: nat): (r: nat)
    ensures r <= lod
    ensures 1 <= lodCount <= MaxU32 + 1 ==> r < lodCount
    ensures 1 <= lodCount <= MaxU32 + 1 && lod < lodCount ==> r == lod
    ensures 1 <= lodCount <= MaxU32 + 1 && lod >= lodCount ==> r == lodCount - 1
    ensures lodCount == 0 && lod <= MaxU32 ==> r == lod
  {
    Min((lodCount - 1) % (MaxU32 + 1), lod)
  }

  /** A cell of `m_variantMatrix[pass][lod][instanced][skinned][velocity][vrs]`. */
  datatype Cell = Cell(pass: nat, lod: nat, instanced: bool, skinned: bool, velocity: bool, vrs: bool)

  predicate CellInRange(c: Cell) {
    c.pass < Passes.count && c.lod < MaxLodCount
  }

  /** The number of cells of the matrix. */
  function CellCount(): nat {
    Passes.count * MaxLodCount * 16
  }

  function Bit(b: bool): nat { if b then 1 else 0 }

  /** `x * n + y` with `y < n` stays below `m * n` when `x < m`. */
  lemma MixBound(x: nat, y: nat, m: nat, n: nat)
    requires x < m && y < n
    ensures x * n + y < m * n
  {
    assert x * n + y < x * n + n == (x + 1) * n;
    assert (x + 1) * n <= m * n;
  }

  /** Multiplication by a natural number is monotone. */
  lemma MulMonotone(a: nat, b: nat, n: nat)
    ensures a <= b ==> a * n <= b * n
  {
    if a <= b {
      assert b * n == a * n + (b - a) * n;
    }
  }

  /** `x * n + y` with `y < n` determines `x` and `y`. */
  lemma MixInjective(x1: nat, y1: nat, x2: nat, y2: nat, n: nat)
    requires y1 < n && y2 < n && x1 * n + y1 == x2 * n + y2
    ensures x1 == x2 && y1 == y2
  {
    assert (x1 + 1) * n == x1 * n + n && (x2 + 1) * n == x2 * n + n;
    MulMonotone(x1 + 1, x2, n);
    MulMonotone(x2 + 1, x1, n);
  }

  /** The row-major position of a cell in the flattened matrix. */
  function CellIndex(c: Cell): (r: nat)
    requires CellInRange(c)
    ensures r < CellCount()
  {
    var row := c.pass * MaxLodCount + c.lod;
    MixBound(c.pass, c.lod, Passes.count, MaxLodCount);
    MixBound(row, BitsOf(c), Passes.count * MaxLodCount, 16);
    row * 16 + BitsOf(c)
  }

  /** The four flag dimensions of a cell, `[instanced][skinned][velocity][vrs]`, as one number below 16. */
  function BitsOf(c: Cell): (r: nat)
    ensures r < 16
  {
    Bit(c.instanced) * 8 + Bit(c.skinned) * 4 + Bit(c.velocity) * 2 + Bit(c.vrs)
  }

  /** Distinct cells occupy distinct positions of the flattened matrix. */
  lemma CellIndexInjective(c1: Cell, c2: Cell)
    requires CellInRange(c1) && CellInRange(c2)
    ensures CellIndex(c1) == CellIndex(c2) ==> c1 == c2
  {
    if CellIndex(c1) == CellIndex(c2) {
      var row1 := c1.pass * MaxLodCount + c1.lod;
      var row2 := c2.pass * MaxLodCount + c2.lod;
      MixInjective(row1, BitsOf(c1), row2, BitsOf(c2), 16);
      MixInjective(c1.pass, c1.lod, c2.pass, c2.lod, MaxLodCount);
    }
  }

  /** The cell a key selects once its LOD is clamped; it is instanced when more than one instance is drawn. */
  function KeyCell(lodCount: nat, key: RenderingKey): (c: Cell)
    ensures c.lod <= key.lod && (1 <= lodCount <= MaxU32 + 1 ==> c.lod < lodCount)
    ensures c.instanced <==> key.instanceCount > 1
    ensures c.pass == key.pass && c.skinned == key.skinned && c.velocity == key.velocity && c.vrs == key.vrs
  {
    Cell(key.pass, ClampLod(lodCount, key.lod), key.instanceCount > 1, key.skinned, key.velocity, key.vrs)
  }

  /** Keys that differ only in LOD levels at or above the last one share a cell. */
  lemma KeysBeyondLastLodShareCell(lodCount: nat, k1: RenderingKey, k2: RenderingKey)
    requires 1 <= lodCount <= MaxU32 + 1
    requires k1.lod >= lodCount - 1 && k2.lod >= lodCount - 1
    requires k1.(lod := 0) == k2.(lod := 0)
    requires (k1.instanceCount > 1) == (k2.instanceCount > 1)
    ensures KeyCell(lodCount, k1) == KeyCell(lodCount, k2)
  {
  }

  // ---------------------------------------------------------------------------
  // What getOrCreateVariant asks the compiler for
  // ---------------------------------------------------------------------------

  /** One `addMutation` for a builtin slot, when the slot is bound. */
  function SlotMutation(slot: Option<Mutator>, value: int): seq<Mutation> {
    if slot.Some? then [Mutation(slot.value.name, value)] else []
  }

  /**
    The mutation list of `getOrCreateVariant`, in its fixed order: the
    material's own mutations, then INSTANCED, PASS, LOD, BONES, VELOCITY and
    VRS for the slots that are bound, each with the cell's value.
  */
  function VariantMutations(subs: seq<SubMutation>, slots: BuiltinMutators, c: Cell): seq<Mutation> {
    AsMutations(subs)
    + SlotMutation(slots.instanced, Bit(c.instanced))
    + SlotMutation(slots.pass, c.pass)
    + SlotMutation(slots.lod, c.lod)
    + SlotMutation(slots.bones, Bit(c.skinned))
    + SlotMutation(slots.velocity, Bit(c.velocity))
    + SlotMutation(slots.vrs, Bit(c.vrs))
  }

  /** The values a mutation list gives the mutator `name`, in list order. */
  function ValuesFor(ms: seq<Mutation>, name: string): seq<int>
    decreases |ms|
  {
    if ms == [] then []
    else ValuesFor(ms[..|ms| - 1], name) + (if ms[|ms| - 1].mutator == name then [ms[|ms| - 1].value] else [])
  }

  lemma {:induction false} ValuesForAppend(a: seq<Mutation>, b: seq<Mutation>, name: string)
    ensures ValuesFor(a + b, name) == ValuesFor(a, name) + ValuesFor(b, name)
    decreases |b|
  {
    if b == [] {
      assert a + b == a;
    } else {
      var b' := b[..|b| - 1];
      ValuesForAppend(a, b', name);
      assert (a + b)[..|a + b| - 1] == a + b';
    }
  }

  /** The values the material's own mutations give `name`. */
  function SubValuesFor(subs: seq<SubMutation>, name: string): seq<int>
    decreases |subs|
  {
    if subs == [] then []
    else
      var last := subs[|subs| - 1];
      SubValuesFor(subs[..|subs| - 1], name) + (if last.mutator.name == name then [last.value] else [])
  }

  lemma {:induction false} NonBuiltinValues(subs: seq<SubMutation>, name: string)
    ensures ValuesFor(AsMutations(subs), name) == SubValuesFor(subs, name)
    decreases |subs|
  {
    if subs != [] {
      var pre := subs[..|subs| - 1];
      NonBuiltinValues(pre, name);
      assert AsMutations(subs)[..|subs| - 1] == AsMutations(pre);
    }
  }

  /** The slot `m_builtinMutators[id]`. */
  function Slot(slots: BuiltinMutators, id: BuiltinMutatorId): Option<Mutator> {
    match id
    case NoMutator => None
    case InstancedMutator => slots.instanced
    case PassMutator => slots.pass
    case LodMutator => slots.lod
    case BonesMutator => slots.bones
    case VelocityMutator => slots.velocity
    case VrsMutator => slots.vrs
  }

  /** The position of a builtin mutator id in `BUILTIN_MUTATOR_NAMES`. */
  function SlotOrdinal(id: BuiltinMutatorId): (k: nat)
    ensures k < |BuiltinMutatorNames|
  {
    match id
    case NoMutator => 0
    case InstancedMutator => 1
    case PassMutator => 2
    case LodMutator => 3
    case BonesMutator => 4
    case VelocityMutator => 5
    case VrsMutator => 6
  }

  /** The value `getOrCreateVariant` gives a builtin slot: the key's pass or LOD, or a flag as 0/1. */
  function CellValue(c: Cell, id: BuiltinMutatorId): int {
    match id
    case NoMutator => 0
    case InstancedMutator => Bit(c.instanced)
    case PassMutator => c.pass
    case LodMutator => c.lod
    case BonesMutator => Bit(c.skinned)
    case VelocityMutator => Bit(c.velocity)
    case VrsMutator => Bit(c.vrs)
  }

  /** Every bound slot holds the program mutator of its builtin name, as `findBuiltinMutators` binds them. */
  predicate SlotsNamed(slots: BuiltinMutators) {
    forall id | Slot(slots, id).Some? :: Slot(slots, id).value.name == BuiltinMutatorNames[SlotOrdinal(id)]
  }

  /** The value a bound slot named `name` contributes. */
  function SlotValue(slots: BuiltinMutators, c: Cell, id: BuiltinMutatorId, name: string): seq<int> {
    if Slot(slots, id).Some? && Slot(slots, id).value.name == name then [CellValue(c, id)] else []
  }

  /** The values one slot's mutation gives `name`. */
  lemma SlotValues(slots: BuiltinMutators, c: Cell, id: BuiltinMutatorId, name: string)
    ensures ValuesFor(SlotMutation(Slot(slots, id), CellValue(c, id)), name) == SlotValue(slots, c, id, name)
  {
    if Slot(slots, id).Some? {
      assert SlotMutation(Slot(slots, id), CellValue(c, id))[..0] == [];
    }
  }

  /** The values the mutation list gives `name`: the material's own, then each bound slot's of that name. */
  lemma VariantMutationsSplit(subs: seq<SubMutation>, slots: BuiltinMutators, c: Cell, name: string)
    ensures ValuesFor(VariantMutations(subs, slots, c), name) ==
      SubValuesFor(subs, name)
      + SlotValue(slots, c, InstancedMutator, name)
      + SlotValue(slots, c, PassMutator, name)
      + SlotValue(slots, c, LodMutator, name)
      + SlotValue(slots, c, BonesMutator, name)
      + SlotValue(slots, c, VelocityMutator, name)
      + SlotValue(slots, c, VrsMutator, name)
  {
    var m1 := SlotMutation(Slot(slots, InstancedMutator), CellValue(c, InstancedMutator));
    var m2 := SlotMutation(Slot(slots, PassMutator), CellValue(c, PassMutator));
    var m3 := SlotMutation(Slot(slots, LodMutator), CellValue(c, LodMutator));
    var m4 := SlotMutation(Slot(slots, BonesMutator), CellValue(c, BonesMutator));
    var m5 := SlotMutation(Slot(slots, VelocityMutator), CellValue(c, VelocityMutator));
    var m6 := SlotMutation(Slot(slots, VrsMutator), CellValue(c, VrsMutator));
    var p0 := AsMutations(subs);
    var p1 := p0 + m1;
    var p2 := p1 + m2;
    var p3 := p2 + m3;
    var p4 := p3 + m4;
    var p5 := p4 + m5;
    assert VariantMutations(subs, slots, c) == p5 + m6;
    NonBuiltinValues(subs, name);
    SlotValues(slots, c, InstancedMutator, name);
    SlotValues(slots, c, PassMutator, name);
    SlotValues(slots, c, LodMutator, name);
    SlotValues(slots, c, BonesMutator, name);
    SlotValues(slots, c, VelocityMutator, name);
    SlotValues(slots, c, VrsMutator, name);
    ValuesForAppend(p0, m1, name);
    ValuesForAppend(p1, m2, name);
    ValuesForAppend(p2, m3, name);
    ValuesForAppend(p3, m4, name);
    ValuesForAppend(p4, m5, name);
    ValuesForAppend(p5, m6, name);
  }

  /** A slot bound by name contributes to its own name only. */
  lemma SlotValueOwnName(slots: BuiltinMutators, c: Cell, id: BuiltinMutatorId, other: BuiltinMutatorId)
    requires SlotsNamed(slots)
    ensures SlotValue(slots, c, id, BuiltinMutatorNames[SlotOrdinal(other)]) ==
      (if id == other && Slot(slots, id).Some? then [CellValue(c, id)] else [])
  {
    if id != other && Slot(slots, id).Some? && id != NoMutator && other != NoMutator {
      BuiltinMutatorNamesDistinct(SlotOrdinal(id), SlotOrdinal(other));
    }
  }

  /**
    With the slots bound by name and no material mutation using the reserved
    prefix, the compiler is given each bound builtin mutator exactly once,
    with the cell's value, and an unbound one not at all.
  */
  lemma BuiltinMutationValues(subs: seq<SubMutation>, slots: BuiltinMutators, c: Cell, id: BuiltinMutatorId)
    requires id != NoMutator
    requires SlotsNamed(slots)
    requires forall i | 0 <= i < |subs| :: !StartsWith(subs[i].mutator.name, "ANKI_")
    ensures ValuesFor(VariantMutations(subs, slots, c), BuiltinMutatorNames[SlotOrdinal(id)]) ==
      (if Slot(slots, id).Some? then [CellValue(c, id)] else [])
  {
    var name := BuiltinMutatorNames[SlotOrdinal(id)];
    VariantMutationsSplit(subs, slots, c, name);
    assert name in BuiltinMutatorNames[1..] by {
      assert BuiltinMutatorNames[1..][SlotOrdinal(id) - 1] == name;
    }
    BuiltinMutatorNamesReserved(name);
    SubValuesForReserved(subs, name);
    SlotValuesOwnName(slots, c, id);
  }

  /** The six slots' values for the builtin name of `id`: its own slot's, and nothing from the others. */
  lemma SlotValuesOwnName(slots: BuiltinMutators, c: Cell, id: BuiltinMutatorId)
    requires id != NoMutator
    requires SlotsNamed(slots)
    ensures var name := BuiltinMutatorNames[SlotOrdinal(id)];
      SlotValue(slots, c, InstancedMutator, name) + SlotValue(slots, c, PassMutator, name)
      + SlotValue(slots, c, LodMutator, name) + SlotValue(slots, c, BonesMutator, name)
      + SlotValue(slots, c, VelocityMutator, name) + SlotValue(slots, c, VrsMutator, name)
      == (if Slot(slots, id).Some? then [CellValue(c, id)] else [])
  {
    SlotValueOwnName(slots, c, InstancedMutator, id);
    SlotValueOwnName(slots, c, PassMutator, id);
    SlotValueOwnName(slots, c, LodMutator, id);
    SlotValueOwnName(slots, c, BonesMutator, id);
    SlotValueOwnName(slots, c, VelocityMutator, id);
    SlotValueOwnName(slots, c, VrsMutator, id);
  }

  /** Every mutator without the reserved prefix receives exactly the values the material lists for it. */
  lemma OwnMutationValues(subs: seq<SubMutation>, slots: BuiltinMutators, c: Cell, name: string)
    requires SlotsNamed(slots)
    requires !StartsWith(name, "ANKI_")
    ensures ValuesFor(VariantMutations(subs, slots, c), name) == SubValuesFor(subs, name)
  {
    VariantMutationsSplit(subs, slots, c, name);
    forall id | Slot(slots, id).Some?
      ensures Slot(slots, id).value.name != name
    {
      if id != NoMutator {
        var k := SlotOrdinal(id);
        assert BuiltinMutatorNames[1..][k - 1] == BuiltinMutatorNames[k];
        BuiltinMutatorNamesReserved(BuiltinMutatorNames[k]);
      }
    }
    assert SlotValue(slots, c, InstancedMutator, name) == [];
    assert SlotValue(slots, c, PassMutator, name) == [];
    assert SlotValue(slots, c, LodMutator, name) == [];
    assert SlotValue(slots, c, BonesMutator, name) == [];
    assert SlotValue(slots, c, VelocityMutator, name) == [];
    assert SlotValue(slots, c, VrsMutator, name) == [];
  }

  /** A name with the reserved prefix gets no value from mutations that avoid the prefix. */
  lemma {:induction false} SubValuesForReserved(subs: seq<SubMutation>, name: string)
    requires StartsWith(name, "ANKI_")
    requires forall i | 0 <= i < |subs| :: !StartsWith(subs[i].mutator.name, "ANKI_")
    ensures SubValuesFor(subs, name) == []
    decreases |subs|
  {
    if subs != [] {
      var pre := subs[..|subs| - 1];
      assert forall i | 0 <= i < |pre| :: pre[i] == subs[i];
      SubValuesForReserved(pre, name);
    }
  }

  /** A variable whose value is set carries that value. */
  predicate ValuesPresent(vars: seq<MaterialVariable>) {
    forall i | 0 <= i < |vars| :: vars[i].numericValueIsSet ==> vars[i].value.Some?
  }

  /** One constant of the `addConstant` loop: set constants of a numeric type are passed on. */
  function ConstantStep(v: MaterialVariable): Result<seq<ConstantValue>>
    requires v.numericValueIsSet ==> v.value.Some?
  {
    if !v.constant || !v.numericValueIsSet then Ok([])
    // The switch over the numeric data types; any other type hits `ANKI_ASSERT(0)`.
    else if !IsNumericType(v.dataType) then Fail(Fatal(UnsupportedInputType))
    else Ok([ConstantValue(v.name, v.value.value)])
  }

  /** The constants `getOrCreateVariant` hands to the compiler, in variable order. */
  function VariantConstants(vars: seq<MaterialVariable>): Result<seq<ConstantValue>>
    requires ValuesPresent(vars)
    decreases |vars|
  {
    if vars == [] then Ok([])
    else
      var pre := vars[..|vars| - 1];
      assert forall i | 0 <= i < |pre| :: pre[i] == vars[i];
      var done :- VariantConstants(pre);
      var one :- ConstantStep(vars[|vars| - 1]);
      Ok(done + one)
  }

  /** A constant the material gives a value to. */
  predicate SetConstant(v: MaterialVariable) {
    v.constant && v.numericValueIsSet
  }

  /** The positions of the set constants among the variables, in increasing order, each once. */
  function SetConstantPositions(vars: seq<MaterialVariable>): (ps: seq<nat>)
    ensures forall k | 0 <= k < |ps| :: ps[k] < |vars| && SetConstant(vars[ps[k]])
    ensures forall k, l | 0 <= k < l < |ps| :: ps[k] < ps[l]
    ensures forall i | 0 <= i < |vars| && SetConstant(vars[i]) :: i in ps
    decreases |vars|
  {
    if vars == [] then []
    else
      var pre := vars[..|vars| - 1];
      assert forall i | 0 <= i < |pre| :: pre[i] == vars[i];
      SetConstantPositions(pre) + (if SetConstant(vars[|vars| - 1]) then [|vars| - 1] else [])
  }

  /**
    A built constant list holds one entry per set constant, in variable
    order: entry `k` is the name and value of the `k`-th set constant.
  */
  lemma {:induction false} VariantConstantsInOrder(vars: seq<MaterialVariable>)
    requires ValuesPresent(vars)
    requires VariantConstants(vars).Ok?
    ensures var cs := VariantConstants(vars).value;
      var ps := SetConstantPositions(vars);
      && |cs| == |ps|
      && forall k | 0 <= k < |ps| :: cs[k] == ConstantValue(vars[ps[k]].name, vars[ps[k]].value.value)
    decreases |vars|
  {
    if vars != [] {
      var pre := vars[..|vars| - 1];
      var v := vars[|vars| - 1];
      assert forall i | 0 <= i < |pre| :: pre[i] == vars[i];
      assert ValuesPresent(pre);
      VariantConstantsInOrder(pre);
      var cs0 := VariantConstants(pre).value;
      var cs := VariantConstants(vars).value;
      assert cs == cs0 + ConstantStep(v).value;
      var ps0 := SetConstantPositions(pre);
      var ps := SetConstantPositions(vars);
      assert ps == ps0 + (if SetConstant(v) then [|vars| - 1] else []);
      forall k | 0 <= k < |ps|
        ensures cs[k] == ConstantValue(vars[ps[k]].name, vars[ps[k]].value.value)
      {
        if k < |ps0| {
          assert ps[k] == ps0[k] && cs[k] == cs0[k] && vars[ps0[k]] == pre[ps0[k]];
        } else {
          assert ps[k] == |vars| - 1 && cs[k] == ConstantValue(v.name, v.value.value);
        }
      }
    }
  }

  /**
    The constant list is built exactly when every constant with a value has
    a numeric type; it then holds the name and value of each such constant,
    and nothing else. `VariantConstantsInOrder` adds order and multiplicity.
  */
  lemma {:induction false} VariantConstantsContents(vars: seq<MaterialVariable>)
    requires ValuesPresent(vars)
    ensures VariantConstants(vars).Ok? <==>
      forall i | 0 <= i < |vars| && vars[i].constant && vars[i].numericValueIsSet :: IsNumericType(vars[i].dataType)
    ensures VariantConstants(vars).Ok? ==>
      var cs := VariantConstants(vars).value;
      && (forall i | 0 <= i < |vars| && vars[i].constant && vars[i].numericValueIsSet ::
            ConstantValue(vars[i].name, vars[i].value.value) in cs)
      && (forall c | c in cs :: exists i | 0 <= i < |vars| ::
            vars[i].constant && vars[i].numericValueIsSet && c == ConstantValue(vars[i].name, vars[i].value.value))
    decreases |vars|
  {
    if vars != [] {
      var pre := vars[..|vars| - 1];
      var v := vars[|vars| - 1];
      assert forall i | 0 <= i < |pre| :: pre[i] == vars[i];
      VariantConstantsContents(pre);
      if VariantConstants(pre).Ok? && ConstantStep(v).Ok? {
        var cs := VariantConstants(vars).value;
        assert cs == VariantConstants(pre).value + ConstantStep(v).value;
        forall c | c in cs
          ensures exists i | 0 <= i < |vars| ::
            vars[i].constant && vars[i].numericValueIsSet && c == ConstantValue(vars[i].name, vars[i].value.value)
        {
          if c !in VariantConstants(pre).value {
            assert c == ConstantValue(v.name, v.value.value);
            assert vars[|vars| - 1] == v;
          }
        }
      }
    }
  }

  // ---------------------------------------------------------------------------
  // initVariant
  // ---------------------------------------------------------------------------

  /** `MaterialVariant`: the compiled program and, per variable, whether it is active and its block layout. */
  datatype MaterialVariant = MaterialVariant(
    program: nat,
    activeVars: seq<bool>,
    blockInfos: seq<BlockInfo>,
    perDrawUboSize: nat,
    perInstanceUboSizeSingleInstance: nat)

  /** The per-draw and per-instance block instances the variant uses. */
  datatype UboInstances = UboInstances(perDraw: Option<BlockInstance>, perInstance: Option<BlockInstance>)

  /** The loop over the variant's uniform blocks: a per-draw match is not also checked as per-instance; the last match wins. */
  function FindUboInstances(insts: seq<BlockInstance>, perDrawIdx: Option<nat>, perInstanceIdx: Option<nat>): UboInstances
    decreases |insts|
  {
    if insts == [] then UboInstances(None, None)
    else
      var u := FindUboInstances(insts[..|insts| - 1], perDrawIdx, perInstanceIdx);
      var inst := insts[|insts| - 1];
      if Some(inst.index) == perDrawIdx then u.(perDraw := Some(inst))
      else if Some(inst.index) == perInstanceIdx then u.(perInstance := Some(inst))
      else u
  }

  predicate IsPerDrawInstance(inst: BlockInstance, perDrawIdx: Option<nat>) {
    Some(inst.index) == perDrawIdx
  }

  predicate IsPerInstanceInstance(inst: BlockInstance, perDrawIdx: Option<nat>, perInstanceIdx: Option<nat>) {
    Some(inst.index) != perDrawIdx && Some(inst.index) == perInstanceIdx
  }

  /**
    The per-draw instance found is the last one with the per-draw block's
    index, and none is found when there is none; likewise for the
    per-instance block among the instances that are not per-draw.
  */
  lemma {:induction false} FindUboInstancesLast(insts: seq<BlockInstance>, perDrawIdx: Option<nat>, perInstanceIdx: Option<nat>)
    ensures var u := FindUboInstances(insts, perDrawIdx, perInstanceIdx);
      && (u.perDraw.None? <==> forall k | 0 <= k < |insts| :: !IsPerDrawInstance(insts[k], perDrawIdx))
      && (u.perDraw.Some? ==> exists k | 0 <= k < |insts| ::
            && IsPerDrawInstance(insts[k], perDrawIdx) && u.perDraw == Some(insts[k])
            && forall k' | k < k' < |insts| :: !IsPerDrawInstance(insts[k'], perDrawIdx))
    ensures var u := FindUboInstances(insts, perDrawIdx, perInstanceIdx);
      && (u.perInstance.None? <==> forall k | 0 <= k < |insts| :: !IsPerInstanceInstance(insts[k], perDrawIdx, perInstanceIdx))
      && (u.perInstance.Some? ==> exists k | 0 <= k < |insts| ::
            && IsPerInstanceInstance(insts[k], perDrawIdx, perInstanceIdx) && u.perInstance == Some(insts[k])
            && forall k' | k < k' < |insts| :: !IsPerInstanceInstance(insts[k'], perDrawIdx, perInstanceIdx))
    decreases |insts|
  {
    if insts != [] {
      var pre := insts[..|insts| - 1];
      var last := |insts| - 1;
      FindUboInstancesLast(pre, perDrawIdx, perInstanceIdx);
      assert forall k | 0 <= k < |pre| :: pre[k] == insts[k];
      var u := FindUboInstances(insts, perDrawIdx, perInstanceIdx);
      if IsPerDrawInstance(insts[last], perDrawIdx) {
        assert u.perDraw == Some(insts[last]);
      } else if IsPerInstanceInstance(insts[last], perDrawIdx, perInstanceIdx) {
        assert u.perInstance == Some(insts[last]);
      }
    }
  }

  /** `I16(x)`: two's-complement truncation to 16 bits. */
  function ToI16(x: int): (r: int)
    ensures -32768 <= r < 32768
    ensures -32768 <= x < 32768 ==> r == x
    ensures (r - x) % 65536 == 0
  {
    (x + 32768) % 65536 - 32768
  }

  /** What `initVariant` records for one variable. */
  datatype VarLayout = VarLayout(active: bool, info: BlockInfo)

  /** A variable the variant does not touch: inactive, with a fresh block info. */
  const Inactive := VarLayout(false, UnsetBlockInfo)

  /** What one variable's resolution reads: the program's constants, the variant and its block instances. */
  datatype VariantContext = VariantContext(constants: seq<Constant>, pv: ProgramVariant, ubos: UboInstances)

  /** The first program constant of that name. */
  function FirstConstant(constants: seq<Constant>, name: string): (r: Option<nat>)
    ensures r.None? <==> forall p | 0 <= p < |constants| :: constants[p].name != name
    ensures r.Some? ==> r.value < |constants| && constants[r.value].name == name
    ensures r.Some? ==> forall p | 0 <= p < r.value :: constants[p].name != name
  {
    if constants == [] then None
    else if constants[0].name == name then Some(0)
    else
      var rest := FirstConstant(constants[1..], name);
      if rest.None? then None else Some(rest.value + 1)
  }

  predicate VarInstanceIs(vi: VariableInstance, idx: Option<nat>) {
    Some(vi.index) == idx
  }

  /** A per-draw field: every variable instance with its binary index marks it active and overwrites its layout. */
  function PerDrawLayout(acc: VarLayout, idx: Option<nat>, vis: seq<VariableInstance>): VarLayout
    decreases |vis|
  {
    if vis == [] then acc
    else
      var l := PerDrawLayout(acc, idx, vis[..|vis| - 1]);
      if VarInstanceIs(vis[|vis| - 1], idx) then VarLayout(true, vis[|vis| - 1].blockInfo) else l
  }

  /**
    A per-draw field is active exactly when some variable instance carries
    its binary index, and then it has the layout of the last such instance.
  */
  lemma {:induction false} PerDrawLayoutLast(idx: Option<nat>, vis: seq<VariableInstance>)
    ensures PerDrawLayout(Inactive, idx, vis).active <==> exists k | 0 <= k < |vis| :: VarInstanceIs(vis[k], idx)
    ensures (forall k | 0 <= k < |vis| :: !VarInstanceIs(vis[k], idx)) ==> PerDrawLayout(Inactive, idx, vis) == Inactive
    ensures PerDrawLayout(Inactive, idx, vis).active ==> exists k | 0 <= k < |vis| ::
      && VarInstanceIs(vis[k], idx) && PerDrawLayout(Inactive, idx, vis).info == vis[k].blockInfo
      && forall k' | k < k' < |vis| :: !VarInstanceIs(vis[k'], idx)
    decreases |vis|
  {
    if vis != [] {
      var n := |vis| - 1;
      var pre := vis[..n];
      PerDrawLayoutLast(idx, pre);
      assert forall k | 0 <= k < |pre| :: pre[k] == vis[k];
      var l := PerDrawLayout(Inactive, idx, pre);
      if VarInstanceIs(vis[n], idx) {
        assert PerDrawLayout(Inactive, idx, vis) == VarLayout(true, vis[n].blockInfo);
      } else {
        assert PerDrawLayout(Inactive, idx, vis) == l;
        if l.active {
          var k :| 0 <= k < |pre| && VarInstanceIs(pre[k], idx) && l.info == pre[k].blockInfo
                   && forall k' | k < k' < |pre| :: !VarInstanceIs(pre[k'], idx);
          assert VarInstanceIs(vis[k], idx) && l.info == vis[k].blockInfo;
          assert forall k' | k < k' < |vis| :: !VarInstanceIs(vis[k'], idx);
        } else {
          assert forall k | 0 <= k < |vis| :: !VarInstanceIs(vis[k], idx);
        }
      }
    }
  }

  /**
    One variable instance seen by a per-instance field: element 0 marks the
    field active, copies its layout and forces the array size; element 1 sets
    the array stride to the distance from element 0, which must have been
    seen and be at least 4 bytes away.
  */
  function PerInstanceStep(v: MaterialVariable, acc: VarLayout, vi: VariableInstance): Result<VarLayout> {
    if VarInstanceIs(vi, v.indexInBinary) then
      // Element 0 fixes the array size at MAX_INSTANCE_COUNT as a 16-bit value; the draw sets the real count later.
      Ok(VarLayout(true, vi.blockInfo.(arraySize := ToI16(MaxInstanceCount))))
    else if VarInstanceIs(vi, v.indexInBinary2ndElement) then
      if acc.info.offset < 0 then Fail(Fatal(StrideBeforeFirstElement))
      else
        var stride := ToI16(vi.blockInfo.offset - acc.info.offset);
        if stride < 4 then Fail(Fatal(StrideTooSmall))
        else Ok(acc.(info := acc.info.(arrayStride := stride)))
    else Ok(acc)
  }

  function PerInstanceLayout(v: MaterialVariable, vis: seq<VariableInstance>): Result<VarLayout>
    decreases |vis|
  {
    if vis == [] then Ok(Inactive)
    else
      var l :- PerInstanceLayout(v, vis[..|vis| - 1]);
      PerInstanceStep(v, l, vis[|vis| - 1])
  }

  /**
    A per-instance field that resolves is active exactly when element 0 is
    among the variable instances; an active one has array size
    `I16(MAX_INSTANCE_COUNT)` and either a stride of at least 4 set from
    element 1 or the stride the compiler gave element 0; an inactive one is
    untouched.
  */
  lemma {:induction false} PerInstanceLayoutProps(v: MaterialVariable, vis: seq<VariableInstance>)
    requires PerInstanceLayout(v, vis).Ok?
    ensures var l := PerInstanceLayout(v, vis).value;
      && (l.active <==> exists k | 0 <= k < |vis| :: VarInstanceIs(vis[k], v.indexInBinary))
      && (!l.active ==> l == Inactive)
      && (l.active ==> l.info.arraySize == ToI16(MaxInstanceCount))
      && (l.active ==> l.info.arrayStride >= 4 || exists k | 0 <= k < |vis| ::
            VarInstanceIs(vis[k], v.indexInBinary) && l.info.arrayStride == vis[k].blockInfo.arrayStride)
    decreases |vis|
  {
    if vis != [] {
      var pre := vis[..|vis| - 1];
      var vi := vis[|vis| - 1];
      PerInstanceLayoutProps(v, pre);
      assert forall k | 0 <= k < |pre| :: pre[k] == vis[k];
      var l := PerInstanceLayout(v, pre).value;
      assert PerInstanceLayout(v, vis) == PerInstanceStep(v, l, vi);
      if VarInstanceIs(vi, v.indexInBinary) {
        assert VarInstanceIs(vis[|vis| - 1], v.indexInBinary);
      }
    }
  }

  /** The position of the last variable instance carrying binary index `idx`, if any. */
  function LastInstance(vis: seq<VariableInstance>, idx: Option<nat>): (r: Option<nat>)
    ensures r.Some? ==>
      r.value < |vis| && VarInstanceIs(vis[r.value], idx) && forall k | r.value < k < |vis| :: !VarInstanceIs(vis[k], idx)
    ensures r.None? ==> forall k | 0 <= k < |vis| :: !VarInstanceIs(vis[k], idx)
    decreases |vis|
  {
    if vis == [] then None
    else if VarInstanceIs(vis[|vis| - 1], idx) then Some(|vis| - 1)
    else LastInstance(vis[..|vis| - 1], idx)
  }

  /**
    The layout a resolved per-instance field ends with. It is the block
    info of the last element-0 instance `k`, with the array size forced to
    `I16(MAX_INSTANCE_COUNT)`. The stride is the 16-bit distance from
    element 0 to the last element-1 instance `j` when `j` comes after `k`;
    that distance is then at least 4 and element 0's offset is not negative.
    Otherwise the stride is the one the compiler gave element `k`. Without
    element 0 the field stays inactive.
  */
  lemma {:induction false} PerInstanceLayoutLast(v: MaterialVariable, vis: seq<VariableInstance>)
    requires PerInstanceLayout(v, vis).Ok?
    ensures var l := PerInstanceLayout(v, vis).value;
      var k := LastInstance(vis, v.indexInBinary);
      var j := LastInstance(vis, v.indexInBinary2ndElement);
      && (k.None? ==> l == Inactive)
      && (k.Some? ==> l.active)
      && (k.Some? && j.Some? && j.value > k.value ==>
            && l.info == vis[k.value].blockInfo.(arraySize := ToI16(MaxInstanceCount),
                 arrayStride := ToI16(vis[j.value].blockInfo.offset - vis[k.value].blockInfo.offset))
            && l.info.arrayStride >= 4 && vis[k.value].blockInfo.offset >= 0)
      && (k.Some? && (j.None? || j.value < k.value || j.value == k.value) ==>
            l.info == vis[k.value].blockInfo.(arraySize := ToI16(MaxInstanceCount)))
    decreases |vis|
  {
    if vis != [] {
      var n := |vis| - 1;
      var pre := vis[..n];
      var vi := vis[n];
      PerInstanceLayoutLast(v, pre);
      var lp := PerInstanceLayout(v, pre).value;
      var kp := LastInstance(pre, v.indexInBinary);
      var jp := LastInstance(pre, v.indexInBinary2ndElement);
      assert PerInstanceLayout(v, vis) == PerInstanceStep(v, lp, vi);
      if !VarInstanceIs(vi, v.indexInBinary) {
        assert LastInstance(vis, v.indexInBinary) == kp;
        if VarInstanceIs(vi, v.indexInBinary2ndElement) {
          assert LastInstance(vis, v.indexInBinary2ndElement) == Some(n);
          if kp.Some? {
            assert lp.info.offset == pre[kp.value].blockInfo.offset;
          }
        } else {
          assert LastInstance(vis, v.indexInBinary2ndElement) == jp;
        }
      }
    }
  }

  /** Element 1 of a per-instance field seen before any element 0 is fatal. */
  lemma {:induction false} SecondElementFirstRejected(v: MaterialVariable, vis: seq<VariableInstance>, k: nat)
    requires k < |vis| && VarInstanceIs(vis[k], v.indexInBinary2ndElement) && !VarInstanceIs(vis[k], v.indexInBinary)
    requires forall k' | 0 <= k' < k :: !VarInstanceIs(vis[k'], v.indexInBinary)
    ensures PerInstanceLayout(v, vis).Fail?
    decreases |vis|
  {
    if k < |vis| - 1 {
      var pre := vis[..|vis| - 1];
      assert forall j | 0 <= j < |pre| :: pre[j] == vis[j];
      SecondElementFirstRejected(v, pre, k);
    } else {
      var pre := vis[..k];
      assert pre == vis[..|vis| - 1];
      assert forall j | 0 <= j < |pre| :: pre[j] == vis[j];
      if PerInstanceLayout(v, pre).Ok? {
        PerInstanceLayoutProps(v, pre);
      }
    }
  }

  /** The loop over the variant's opaque instances: the variable is active when one carries its binary index. */
  predicate OpaqueActive(opaques: seq<OpaqueInstance>, idx: Option<nat>) {
    exists k | 0 <= k < |opaques| :: Some(opaques[k].index) == idx
  }

  /** One iteration of `initVariant`'s loop over the variables. */
  function ResolveVar(ctx: VariantContext, v: MaterialVariable): Result<VarLayout> {
    if v.constant then
      var p := FirstConstant(ctx.constants, v.name);
      Ok(if p.Some? then VarLayout(p.value in ctx.pv.activeConstants, UnsetBlockInfo) else Inactive)
    else if InBlock(v) && !v.instanced then
      Ok(if ctx.ubos.perDraw.None? then Inactive
         else PerDrawLayout(Inactive, v.indexInBinary, ctx.ubos.perDraw.value.variableInstances))
    else if InBlock(v) then
      if ctx.ubos.perInstance.None? then Ok(Inactive)
      else PerInstanceLayout(v, ctx.ubos.perInstance.value.variableInstances)
    else if !IsSampler(v.dataType) && !IsTexture(v.dataType) then Fail(Fatal(NotSamplerOrTexture))
    else Ok(VarLayout(OpaqueActive(ctx.pv.opaques, v.indexInBinary), UnsetBlockInfo))
  }

  /** The loop over the variables, stopping at the first fatal one. */
  function ResolveAll(ctx: VariantContext, vars: seq<MaterialVariable>): (r: Result<seq<VarLayout>>)
    ensures r.Ok? ==> |r.value| == |vars| && forall j | 0 <= j < |vars| :: ResolveVar(ctx, vars[j]) == Ok(r.value[j])
    ensures r.Ok? <==> forall j | 0 <= j < |vars| :: ResolveVar(ctx, vars[j]).Ok?
    decreases |vars|
  {
    if vars == [] then Ok([])
    else
      var pre := vars[..|vars| - 1];
      assert forall j | 0 <= j < |pre| :: pre[j] == vars[j];
      var done :- ResolveAll(ctx, pre);
      var l :- ResolveVar(ctx, vars[|vars| - 1]);
      Ok(done + [l])
  }

  /** The loop resolving a prefix without error and failing at the next variable fails with that variable's error. */
  lemma {:induction false} ResolveAllStopsAt(ctx: VariantContext, vars: seq<MaterialVariable>, i: nat)
    requires i < |vars| && ResolveAll(ctx, vars[..i]).Ok? && ResolveVar(ctx, vars[i]).Fail?
    ensures ResolveAll(ctx, vars) == Fail(ResolveVar(ctx, vars[i]).error)
    decreases |vars|
  {
    if i < |vars| - 1 {
      var pre := vars[..|vars| - 1];
      assert pre[..i] == vars[..i];
      ResolveAllStopsAt(ctx, pre, i);
    } else {
      assert vars[..|vars| - 1] == vars[..i];
    }
  }

  /** The final check of one variable: active ordinary variables need a value; instanced ones an element-1 index. */
  function CheckVar(v: MaterialVariable, active: bool): Result<()> {
    if v.builtin == NoBuiltin && active && !v.numericValueIsSet then Fail(Fatal(ActiveVariableUnset))
    else if v.instanced && v.indexInBinary2ndElement.None? then Fail(Fatal(SecondElementUnknown))
    else Ok(())
  }

  /** The final loop over the variables, given their active bits. */
  function CheckVars(vars: seq<MaterialVariable>, active: seq<bool>): Result<()>
    requires |active| == |vars|
    decreases |vars|
  {
    if vars == [] then Ok(())
    else
      var _ :- CheckVars(vars[..|vars| - 1], active[..|active| - 1]);
      CheckVar(vars[|vars| - 1], active[|active| - 1])
  }

  /** The final loop passes exactly when every variable passes its check. */
  lemma {:induction false} CheckVarsIff(vars: seq<MaterialVariable>, active: seq<bool>)
    requires |active| == |vars|
    ensures CheckVars(vars, active).Ok? <==> forall j | 0 <= j < |vars| :: CheckVar(vars[j], active[j]).Ok?
    decreases |vars|
  {
    if vars != [] {
      var pre := vars[..|vars| - 1];
      var apre := active[..|active| - 1];
      CheckVarsIff(pre, apre);
      assert forall j | 0 <= j < |pre| :: pre[j] == vars[j] && apre[j] == active[j];
    }
  }

  /** A prefix that passes followed by a variable that fails makes the final loop fail with that error. */
  lemma {:induction false} CheckVarsStopsAt(vars: seq<MaterialVariable>, active: seq<bool>, i: nat)
    requires |active| == |vars| && i < |vars|
    requires CheckVars(vars[..i], active[..i]).Ok? && CheckVar(vars[i], active[i]).Fail?
    ensures CheckVars(vars, active) == Fail(CheckVar(vars[i], active[i]).error)
    decreases |vars|
  {
    if i < |vars| - 1 {
      var pre := vars[..|vars| - 1];
      var apre := active[..|active| - 1];
      assert pre[..i] == vars[..i] && apre[..i] == active[..i];
      CheckVarsStopsAt(pre, apre, i);
    } else {
      assert vars[..|vars| - 1] == vars[..i] && active[..|active| - 1] == active[..i];
    }
  }

  function Actives(ls: seq<VarLayout>): seq<bool> {
    seq(|ls|, j requires 0 <= j < |ls| => ls[j].active)
  }

  function Infos(ls: seq<VarLayout>): seq<BlockInfo> {
    seq(|ls|, j requires 0 <= j < |ls| => ls[j].info)
  }

  /** `initVariant`. */
  function InitVariantSpec(constants: seq<Constant>, vars: seq<MaterialVariable>,
                           perDrawUboIdx: Option<nat>, perInstanceUboIdx: Option<nat>, pv: ProgramVariant): Result<MaterialVariant>
  {
    var ubos := FindUboInstances(pv.uniformBlocks, perDrawUboIdx, perInstanceUboIdx);
    if ubos.perDraw.None? && ubos.perInstance.None? then Fail(Fatal(NoBlockInstance))
    else
      var ls :- ResolveAll(VariantContext(constants, pv, ubos), vars);
      var _ :- CheckVars(vars, Actives(ls));
      Ok(MaterialVariant(
        pv.program, Actives(ls), Infos(ls),
        if ubos.perDraw.Some? then ubos.perDraw.value.size else 0,
        if ubos.perInstance.Some? then ubos.perInstance.value.size / MaxInstanceCount else 0))
  }

  /** A per-instance field that resolves a prefix and fails at the next instance fails with that error. */
  lemma {:induction false} PerInstanceLayoutStopsAt(v: MaterialVariable, vis: seq<VariableInstance>, k: nat, l: VarLayout)
    requires k < |vis| && PerInstanceLayout(v, vis[..k]) == Ok(l) && PerInstanceStep(v, l, vis[k]).Fail?
    ensures PerInstanceLayout(v, vis) == Fail(PerInstanceStep(v, l, vis[k]).error)
    decreases |vis|
  {
    if k < |vis| - 1 {
      var pre := vis[..|vis| - 1];
      assert pre[..k] == vis[..k];
      PerInstanceLayoutStopsAt(v, pre, k, l);
    } else {
      assert vis[..|vis| - 1] == vis[..k];
    }
  }

  // ---------------------------------------------------------------------------
  // What a successful initVariant guarantees
  // ---------------------------------------------------------------------------

  /**
    An initialised variant keeps the compiled program and one active bit and
    one block layout per variable; its per-draw size is that of the last
    per-draw block instance (0 without one) and its single-instance size is
    that of the last per-instance block instance divided by
    `MAX_INSTANCE_COUNT` (0 without one).
  */
  lemma InitVariantSizes(constants: seq<Constant>, vars: seq<MaterialVariable>,
                         perDrawUboIdx: Option<nat>, perInstanceUboIdx: Option<nat>, pv: ProgramVariant)
    requires InitVariantSpec(constants, vars, perDrawUboIdx, perInstanceUboIdx, pv).Ok?
    ensures var r := InitVariantSpec(constants, vars, perDrawUboIdx, perInstanceUboIdx, pv).value;
      var insts := pv.uniformBlocks;
      && r.program == pv.program
      && |r.activeVars| == |vars| && |r.blockInfos| == |vars|
      && ((forall k | 0 <= k < |insts| :: !IsPerDrawInstance(insts[k], perDrawUboIdx)) ==> r.perDrawUboSize == 0)
      && ((exists k | 0 <= k < |insts| :: IsPerDrawInstance(insts[k], perDrawUboIdx)) ==>
            exists k | 0 <= k < |insts| ::
              && IsPerDrawInstance(insts[k], perDrawUboIdx) && r.perDrawUboSize == insts[k].size
              && forall k' | k < k' < |insts| :: !IsPerDrawInstance(insts[k'], perDrawUboIdx))
      && ((forall k | 0 <= k < |insts| :: !IsPerInstanceInstance(insts[k], perDrawUboIdx, perInstanceUboIdx)) ==>
            r.perInstanceUboSizeSingleInstance == 0)
      && ((exists k | 0 <= k < |insts| :: IsPerInstanceInstance(insts[k], perDrawUboIdx, perInstanceUboIdx)) ==>
            exists k | 0 <= k < |insts| ::
              && IsPerInstanceInstance(insts[k], perDrawUboIdx, perInstanceUboIdx)
              && r.perInstanceUboSizeSingleInstance == insts[k].size / MaxInstanceCount
              && forall k' | k < k' < |insts| :: !IsPerInstanceInstance(insts[k'], perDrawUboIdx, perInstanceUboIdx))
  {
    FindUboInstancesLast(pv.uniformBlocks, perDrawUboIdx, perInstanceUboIdx);
  }

  /** A variant that uses neither the per-draw nor the per-instance block is fatal. */
  lemma InitVariantNeedsBlock(constants: seq<Constant>, vars: seq<MaterialVariable>,
                              perDrawUboIdx: Option<nat>, perInstanceUboIdx: Option<nat>, pv: ProgramVariant)
    requires forall k | 0 <= k < |pv.uniformBlocks| ::
      !IsPerDrawInstance(pv.uniformBlocks[k], perDrawUboIdx) && !IsPerInstanceInstance(pv.uniformBlocks[k], perDrawUboIdx, perInstanceUboIdx)
    ensures InitVariantSpec(constants, vars, perDrawUboIdx, perInstanceUboIdx, pv) == Fail(Fatal(NoBlockInstance))
  {
    FindUboInstancesLast(pv.uniformBlocks, perDrawUboIdx, perInstanceUboIdx);
  }

  /** The layout `initVariant` records for variable `i`, read back from the variant. */
  function LayoutOf(r: MaterialVariant, i: nat): VarLayout
    requires i < |r.activeVars| && i < |r.blockInfos|
  {
    VarLayout(r.activeVars[i], r.blockInfos[i])
  }

  /** Variable `i` of an initialised variant has the layout its own resolution gives. */
  lemma InitVariantResolves(constants: seq<Constant>, vars: seq<MaterialVariable>,
                            perDrawUboIdx: Option<nat>, perInstanceUboIdx: Option<nat>, pv: ProgramVariant, i: nat)
    requires InitVariantSpec(constants, vars, perDrawUboIdx, perInstanceUboIdx, pv).Ok?
    requires i < |vars|
    ensures var r := InitVariantSpec(constants, vars, perDrawUboIdx, perInstanceUboIdx, pv).value;
      var ubos := FindUboInstances(pv.uniformBlocks, perDrawUboIdx, perInstanceUboIdx);
      && i < |r.activeVars| && i < |r.blockInfos|
      && ResolveVar(VariantContext(constants, pv, ubos), vars[i]) == Ok(LayoutOf(r, i))
      && CheckVar(vars[i], r.activeVars[i]).Ok?
  {
    var ubos := FindUboInstances(pv.uniformBlocks, perDrawUboIdx, perInstanceUboIdx);
    var ls := ResolveAll(VariantContext(constants, pv, ubos), vars).value;
    CheckVarsIff(vars, Actives(ls));
  }

  /**
    A field of the per-draw block is active exactly when the variant uses
    the block and one of its variable instances carries the field's binary
    index; it then has the layout of the last such instance, and otherwise
    a fresh one.
  */
  lemma InitVariantPerDrawField(constants: seq<Constant>, vars: seq<MaterialVariable>,
                                perDrawUboIdx: Option<nat>, perInstanceUboIdx: Option<nat>, pv: ProgramVariant, i: nat)
    requires InitVariantSpec(constants, vars, perDrawUboIdx, perInstanceUboIdx, pv).Ok?
    requires i < |vars| && InBlock(vars[i]) && !vars[i].instanced
    ensures var r := InitVariantSpec(constants, vars, perDrawUboIdx, perInstanceUboIdx, pv).value;
      var ubo := FindUboInstances(pv.uniformBlocks, perDrawUboIdx, perInstanceUboIdx).perDraw;
      var idx := vars[i].indexInBinary;
      && i < |r.activeVars| && i < |r.blockInfos|
      && (r.activeVars[i] <==> ubo.Some? && exists k | 0 <= k < |ubo.value.variableInstances| ::
            VarInstanceIs(ubo.value.variableInstances[k], idx))
      && (!r.activeVars[i] ==> r.blockInfos[i] == UnsetBlockInfo)
      && (r.activeVars[i] ==> exists k | 0 <= k < |ubo.value.variableInstances| ::
            && VarInstanceIs(ubo.value.variableInstances[k], idx)
            && r.blockInfos[i] == ubo.value.variableInstances[k].blockInfo
            && forall k' | k < k' < |ubo.value.variableInstances| :: !VarInstanceIs(ubo.value.variableInstances[k'], idx))
  {
    InitVariantResolves(constants, vars, perDrawUboIdx, perInstanceUboIdx, pv, i);
    var ubo := FindUboInstances(pv.uniformBlocks, perDrawUboIdx, perInstanceUboIdx).perDraw;
    if ubo.Some? {
      PerDrawLayoutLast(vars[i].indexInBinary, ubo.value.variableInstances);
    }
  }

  /**
    A field of the per-instance block is active exactly when the variant
    uses the block and one of its variable instances is element 0 of the
    field; an active one has array size `I16(MAX_INSTANCE_COUNT)` and a
    stride set from element 1 of at least 4 bytes, unless element 0 came
    last and left the compiler's stride; an inactive one keeps a fresh
    layout. It always has a known element-1 index. The whole layout is
    that of `PerInstanceLayoutLast`: element 0's block info with the forced
    array size, and the stride from the last element 1 after it.
  */
  lemma InitVariantPerInstanceField(constants: seq<Constant>, vars: seq<MaterialVariable>,
                                    perDrawUboIdx: Option<nat>, perInstanceUboIdx: Option<nat>, pv: ProgramVariant, i: nat)
    requires InitVariantSpec(constants, vars, perDrawUboIdx, perInstanceUboIdx, pv).Ok?
    requires i < |vars| && InBlock(vars[i]) && vars[i].instanced
    ensures var r := InitVariantSpec(constants, vars, perDrawUboIdx, perInstanceUboIdx, pv).value;
      var ubo := FindUboInstances(pv.uniformBlocks, perDrawUboIdx, perInstanceUboIdx).perInstance;
      var idx := vars[i].indexInBinary;
      && i < |r.activeVars| && i < |r.blockInfos|
      && vars[i].indexInBinary2ndElement.Some?
      && (r.activeVars[i] <==> ubo.Some? && exists k | 0 <= k < |ubo.value.variableInstances| ::
            VarInstanceIs(ubo.value.variableInstances[k], idx))
      && (!r.activeVars[i] ==> r.blockInfos[i] == UnsetBlockInfo)
      && (r.activeVars[i] ==> r.blockInfos[i].arraySize == ToI16(MaxInstanceCount))
      && (r.activeVars[i] ==>
            (|| r.blockInfos[i].arrayStride >= 4
             || exists k | 0 <= k < |ubo.value.variableInstances| ::
                  && VarInstanceIs(ubo.value.variableInstances[k], idx)
                  && r.blockInfos[i].arrayStride == ubo.value.variableInstances[k].blockInfo.arrayStride))
      && (r.activeVars[i] ==>
            var vis := ubo.value.variableInstances;
            var k := LastInstance(vis, idx);
            var j := LastInstance(vis, vars[i].indexInBinary2ndElement);
            && k.Some?
            && (j.Some? && j.value > k.value ==>
                  r.blockInfos[i] == vis[k.value].blockInfo.(arraySize := ToI16(MaxInstanceCount),
                    arrayStride := ToI16(vis[j.value].blockInfo.offset - vis[k.value].blockInfo.offset)))
            && (j.None? || j.value <= k.value ==>
                  r.blockInfos[i] == vis[k.value].blockInfo.(arraySize := ToI16(MaxInstanceCount))))
  {
    InitVariantResolves(constants, vars, perDrawUboIdx, perInstanceUboIdx, pv, i);
    var ubo := FindUboInstances(pv.uniformBlocks, perDrawUboIdx, perInstanceUboIdx).perInstance;
    if ubo.Some? {
      PerInstanceLayoutProps(vars[i], ubo.value.variableInstances);
      PerInstanceLayoutLast(vars[i], ubo.value.variableInstances);
    }
  }

  /**
    A constant is active exactly when the program has a constant of its name
    and the variant reports the first such constant active; an opaque
    resource is a sampler or a texture and is active exactly when one of the
    variant's opaque instances carries its binary index. Neither gets a
    block layout.
  */
  lemma InitVariantResources(constants: seq<Constant>, vars: seq<MaterialVariable>,
                             perDrawUboIdx: Option<nat>, perInstanceUboIdx: Option<nat>, pv: ProgramVariant, i: nat)
    requires InitVariantSpec(constants, vars, perDrawUboIdx, perInstanceUboIdx, pv).Ok?
    requires i < |vars| && !InBlock(vars[i])
    ensures var r := InitVariantSpec(constants, vars, perDrawUboIdx, perInstanceUboIdx, pv).value;
      var v := vars[i];
      && i < |r.activeVars| && i < |r.blockInfos|
      && r.blockInfos[i] == UnsetBlockInfo
      && (v.constant ==> (r.activeVars[i] <==> exists p | 0 <= p < |constants| ::
            && constants[p].name == v.name && p in pv.activeConstants
            && forall q | 0 <= q < p :: constants[q].name != v.name))
      && (!v.constant ==> IsSampler(v.dataType) || IsTexture(v.dataType))
      && (!v.constant ==> (r.activeVars[i] <==> OpaqueActive(pv.opaques, v.indexInBinary)))
  {
    InitVariantResolves(constants, vars, perDrawUboIdx, perInstanceUboIdx, pv, i);
    var p := FirstConstant(constants, vars[i].name);
    if vars[i].constant && p.Some? {
      var r := InitVariantSpec(constants, vars, perDrawUboIdx, perInstanceUboIdx, pv).value;
      if r.activeVars[i] {
        assert constants[p.value].name == vars[i].name && p.value in pv.activeConstants;
      }
    }
  }

  /**
    Variant initialisation succeeds exactly when the variant uses one of the
    material's blocks, every variable resolves, and every active ordinary
    variable has a value set by the material and every instanced one a known
    element-1 index; the per-variable checks cover every variable.
  */
  lemma InitVariantIff(constants: seq<Constant>, vars: seq<MaterialVariable>,
                       perDrawUboIdx: Option<nat>, perInstanceUboIdx: Option<nat>, pv: ProgramVariant)
    ensures var ubos := FindUboInstances(pv.uniformBlocks, perDrawUboIdx, perInstanceUboIdx);
      var ctx := VariantContext(constants, pv, ubos);
      InitVariantSpec(constants, vars, perDrawUboIdx, perInstanceUboIdx, pv).Ok? <==>
        && (ubos.perDraw.Some? || ubos.perInstance.Some?)
        && (forall j | 0 <= j < |vars| :: ResolveVar(ctx, vars[j]).Ok?)
        && (forall j | 0 <= j < |vars| :: CheckVar(vars[j], ResolveVar(ctx, vars[j]).value.active).Ok?)
  {
    var ubos := FindUboInstances(pv.uniformBlocks, perDrawUboIdx, perInstanceUboIdx);
    var ctx := VariantContext(constants, pv, ubos);
    var all := ResolveAll(ctx, vars);
    if all.Ok? {
      CheckVarsIff(vars, Actives(all.value));
    }
  }

  /** An active ordinary variable whose value the material does not set makes initialisation fatal. */
  lemma ActiveUnsetRejected(constants: seq<Constant>, vars: seq<MaterialVariable>,
                            perDrawUboIdx: Option<nat>, perInstanceUboIdx: Option<nat>, pv: ProgramVariant, i: nat)
    requires i < |vars| && vars[i].builtin == NoBuiltin && !vars[i].numericValueIsSet
    requires var ctx := VariantContext(constants, pv, FindUboInstances(pv.uniformBlocks, perDrawUboIdx, perInstanceUboIdx));
      ResolveVar(ctx, vars[i]).Ok? && ResolveVar(ctx, vars[i]).value.active
    ensures InitVariantSpec(constants, vars, perDrawUboIdx, perInstanceUboIdx, pv).Fail?
  {
    InitVariantIff(constants, vars, perDrawUboIdx, perInstanceUboIdx, pv);
  }

  // ---------------------------------------------------------------------------
  // initVariant, step by step
  // ---------------------------------------------------------------------------

  /** The loop over the program's constants, stopping at the first of the name. */
  method FindConstant(constants: seq<Constant>, name: string) returns (r: Option<nat>)
    ensures r == FirstConstant(constants, name)
  {
    r := None;
    for p := 0 to |constants|
      invariant forall q | 0 <= q < p :: constants[q].name != name
    {
      if constants[p].name == name {
        return Some(p);
      }
    }
  }

  /** The loop over the variant's opaque instances, stopping at the first match. */
  method FindOpaque(opaques: seq<OpaqueInstance>, idx: Option<nat>) returns (found: bool)
    ensures found == OpaqueActive(opaques, idx)
  {
    for k := 0 to |opaques|
      invariant forall q | 0 <= q < k :: Some(opaques[q].index) != idx
    {
      if Some(opaques[k].index) == idx {
        return true;
      }
    }
    return false;
  }

  /** The loop over the per-draw block's variable instances. */
  method PerDrawFieldLayout(idx: Option<nat>, vis: seq<VariableInstance>) returns (l: VarLayout)
    ensures l == PerDrawLayout(Inactive, idx, vis)
  {
    l := Inactive;
    for k := 0 to |vis|
      invariant l == PerDrawLayout(Inactive, idx, vis[..k])
    {
      assert vis[..k + 1][..k] == vis[..k];
      if Some(vis[k].index) == idx {
        l := VarLayout(true, vis[k].blockInfo);
      }
    }
    assert vis[..|vis|] == vis;
  }

  /** The loop over the per-instance block's variable instances. */
  method PerInstanceFieldLayout(v: MaterialVariable, vis: seq<VariableInstance>) returns (r: Result<VarLayout>)
    ensures r == PerInstanceLayout(v, vis)
  {
    var l := Inactive;
    for k := 0 to |vis|
      invariant PerInstanceLayout(v, vis[..k]) == Ok(l)
    {
      assert vis[..k + 1][..k] == vis[..k];
      var vi := vis[k];
      if Some(vi.index) == v.indexInBinary {
        l := VarLayout(true, vi.blockInfo.(arraySize := ToI16(MaxInstanceCount)));
      } else if Some(vi.index) == v.indexInBinary2ndElement {
        if l.info.offset < 0 {
          PerInstanceLayoutStopsAt(v, vis, k, l);
          return Fail(Fatal(StrideBeforeFirstElement));
        }
        var stride := ToI16(vi.blockInfo.offset - l.info.offset);
        if stride < 4 {
          PerInstanceLayoutStopsAt(v, vis, k, l);
          return Fail(Fatal(StrideTooSmall));
        }
        l := l.(info := l.info.(arrayStride := stride));
      }
    }
    assert vis[..|vis|] == vis;
    return Ok(l);
  }

  /** One iteration of the loop over the variables. */
  method ResolveVariable(ctx: VariantContext, v: MaterialVariable) returns (r: Result<VarLayout>)
    ensures r == ResolveVar(ctx, v)
  {
    if v.constant {
      var p := FindConstant(ctx.constants, v.name);
      if p.Some? {
        return Ok(VarLayout(p.value in ctx.pv.activeConstants, UnsetBlockInfo));
      }
      return Ok(Inactive);
    } else if InBlock(v) && !v.instanced {
      if ctx.ubos.perDraw.None? {
        return Ok(Inactive);
      }
      var l := PerDrawFieldLayout(v.indexInBinary, ctx.ubos.perDraw.value.variableInstances);
      return Ok(l);
    } else if InBlock(v) {
      if ctx.ubos.perInstance.None? {
        return Ok(Inactive);
      }
      r := PerInstanceFieldLayout(v, ctx.ubos.perInstance.value.variableInstances);
    } else {
      if !IsSampler(v.dataType) && !IsTexture(v.dataType) {
        return Fail(Fatal(NotSamplerOrTexture));
      }
      var found := FindOpaque(ctx.pv.opaques, v.indexInBinary);
      return Ok(VarLayout(found, UnsetBlockInfo));
    }
  }

  /** The loop over the variant's uniform blocks. */
  method FindBlockInstances(insts: seq<BlockInstance>, perDrawUboIdx: Option<nat>, perInstanceUboIdx: Option<nat>)
    returns (u: UboInstances)
    ensures u == FindUboInstances(insts, perDrawUboIdx, perInstanceUboIdx)
  {
    var perDraw: Option<BlockInstance> := None;
    var perInstance: Option<BlockInstance> := None;
    for k := 0 to |insts|
      invariant UboInstances(perDraw, perInstance) == FindUboInstances(insts[..k], perDrawUboIdx, perInstanceUboIdx)
    {
      assert insts[..k + 1][..k] == insts[..k];
      if Some(insts[k].index) == perDrawUboIdx {
        perDraw := Some(insts[k]);
      } else if Some(insts[k].index) == perInstanceUboIdx {
        perInstance := Some(insts[k]);
      }
    }
    assert insts[..|insts|] == insts;
    return UboInstances(perDraw, perInstance);
  }

  /**
    The loop over the variables: writes each variable's active bit and block
    layout at its `m_index`, stopping at the first fatal variable.
  */
  method FillLayouts(ctx: VariantContext, vars: seq<MaterialVariable>, activeVars: array<bool>, blockInfos: array<BlockInfo>)
    returns (r: Result<()>)
    requires Positions(vars)
    requires activeVars.Length == |vars| && blockInfos.Length == |vars|
    requires forall j | 0 <= j < |vars| :: !activeVars[j] && blockInfos[j] == UnsetBlockInfo
    modifies activeVars, blockInfos
    ensures r.Ok? <==> ResolveAll(ctx, vars).Ok?
    ensures r.Fail? ==> r == Fail(ResolveAll(ctx, vars).error)
    ensures r.Ok? ==> activeVars[..] == Actives(ResolveAll(ctx, vars).value)
    ensures r.Ok? ==> blockInfos[..] == Infos(ResolveAll(ctx, vars).value)
  {
    for i := 0 to |vars|
      invariant forall j | 0 <= j < i :: ResolveVar(ctx, vars[j]) == Ok(VarLayout(activeVars[j], blockInfos[j]))
      invariant forall j | i <= j < |vars| :: !activeVars[j] && blockInfos[j] == UnsetBlockInfo
    {
      var v := vars[i];
      assert v.index == i;
      var l := ResolveVariable(ctx, v);
      if l.Fail? {
        ResolvedPrefix(ctx, vars, i, activeVars[..], blockInfos[..]);
        ResolveAllStopsAt(ctx, vars, i);
        return Fail(l.error);
      }
      activeVars[v.index] := l.value.active;
      blockInfos[v.index] := l.value.info;
    }
    ResolvedPrefix(ctx, vars, |vars|, activeVars[..], blockInfos[..]);
    return Ok(());
  }

  /** A prefix whose variables resolve to the layouts written so far resolves, and when it is whole they are its layouts. */
  lemma ResolvedPrefix(ctx: VariantContext, vars: seq<MaterialVariable>, i: nat, actives: seq<bool>, infos: seq<BlockInfo>)
    requires i <= |vars| == |actives| == |infos|
    requires forall j | 0 <= j < i :: ResolveVar(ctx, vars[j]) == Ok(VarLayout(actives[j], infos[j]))
    ensures ResolveAll(ctx, vars[..i]).Ok?
    ensures i == |vars| ==> actives == Actives(ResolveAll(ctx, vars).value) && infos == Infos(ResolveAll(ctx, vars).value)
  {
    assert forall j | 0 <= j < i :: vars[..i][j] == vars[j];
    if i == |vars| {
      assert vars[..i] == vars;
    }
  }

  /** The final loop: active ordinary variables need a value, instanced ones an element-1 index. */
  method CheckVariables(vars: seq<MaterialVariable>, activeVars: array<bool>) returns (r: Result<()>)
    requires Positions(vars) && activeVars.Length == |vars|
    ensures r == CheckVars(vars, activeVars[..])
  {
    ghost var active := activeVars[..];
    for i := 0 to |vars|
      invariant CheckVars(vars[..i], active[..i]).Ok?
    {
      var v := vars[i];
      assert vars[..i + 1][..i] == vars[..i] && active[..i + 1][..i] == active[..i];
      if v.builtin == NoBuiltin && activeVars[v.index] && !v.numericValueIsSet {
        CheckVarsStopsAt(vars, active, i);
        return Fail(Fatal(ActiveVariableUnset));
      }
      if v.instanced && v.indexInBinary2ndElement.None? {
        CheckVarsStopsAt(vars, active, i);
        return Fail(Fatal(SecondElementUnknown));
      }
    }
    assert vars[..|vars|] == vars && active[..|vars|] == active;
    return Ok(());
  }

  /**
    `initVariant`: finds the block instances, fills the active bits and the
    block layouts one variable at a time, then runs the final check.
  */
  method InitVariant(constants: seq<Constant>, vars: seq<MaterialVariable>,
                     perDrawUboIdx: Option<nat>, perInstanceUboIdx: Option<nat>, pv: ProgramVariant)
    returns (r: Result<MaterialVariant>)
    requires Positions(vars)
    ensures r == InitVariantSpec(constants, vars, perDrawUboIdx, perInstanceUboIdx, pv)
  {
    var ubos := FindBlockInstances(pv.uniformBlocks, perDrawUboIdx, perInstanceUboIdx);
    if ubos.perDraw.None? && ubos.perInstance.None? {
      return Fail(Fatal(NoBlockInstance));
    }
    var ctx := VariantContext(constants, pv, ubos);
    var activeVars := new bool[|vars|](_ => false);
    var blockInfos := new BlockInfo[|vars|](_ => UnsetBlockInfo);
    var filled := FillLayouts(ctx, vars, activeVars, blockInfos);
    if filled.Fail? {
      return Fail(filled.error);
    }
    var checked := CheckVariables(vars, activeVars);
    if checked.Fail? {
      return Fail(checked.error);
    }
    var perDrawUboSize := if ubos.perDraw.Some? then ubos.perDraw.value.size else 0;
    var perInstanceUboSize := if ubos.perInstance.Some? then ubos.perInstance.value.size / MaxInstanceCount else 0;
    return Ok(MaterialVariant(pv.program, activeVars[..], blockInfos[..], perDrawUboSize, perInstanceUboSize));
  }

  // ---------------------------------------------------------------------------
  // Facts the material's invariant rests on
  // ---------------------------------------------------------------------------

  /** A constant of an unsupported type ends the `addConstant` loop with its error. */
  lemma {:induction false} VariantConstantsStopsAt(vars: seq<MaterialVariable>, i: nat)
    requires ValuesPresent(vars)
    requires i < |vars| && VariantConstants(vars[..i]).Ok? && ConstantStep(vars[i]).Fail?
    ensures VariantConstants(vars) == Fail(ConstantStep(vars[i]).error)
    decreases |vars|
  {
    if i < |vars| - 1 {
      var pre := vars[..|vars| - 1];
      assert pre[..i] == vars[..i];
      VariantConstantsStopsAt(pre, i);
    } else {
      assert vars[..|vars| - 1] == vars[..i];
    }
  }

  /** A fresh registry has no value without its flag, and accepted inputs keep it so. */
  lemma LoadedValuesPresent(binary: Binary, constants: seq<Constant>, inputs: Option<seq<InputEntry>>)
    requires CreateVarsSpec(binary, constants).Ok?
    requires inputs.Some? ==> ParseInputsSpec(CreateVarsSpec(binary, constants).value.vars, inputs.value).Ok?
    ensures var vars := CreateVarsSpec(binary, constants).value.vars;
      ValuesPresent(if inputs.Some? then ParseInputsSpec(vars, inputs.value).value else vars)
  {
    CreateVarsUnset(binary, constants);
    if inputs.Some? {
      ParseInputsValues(CreateVarsSpec(binary, constants).value.vars, inputs.value);
    }
  }

  /** `findBuiltinMutators` fills each slot with a mutator of that slot's own name. */
  lemma FindBuiltinMutatorsNamed(prog: ShaderProgram, hasPerInstanceUbo: bool, forwardShading: bool,
                                 nonBuiltinCount: nat, descriptorSetIdx: nat, st: BuiltinSetup)
    requires SlotsNamed(st.slots)
    requires FindBuiltinMutatorsSpec(prog, hasPerInstanceUbo, forwardShading, nonBuiltinCount, descriptorSetIdx, st).Ok?
    ensures SlotsNamed(FindBuiltinMutatorsSpec(prog, hasPerInstanceUbo, forwardShading, nonBuiltinCount, descriptorSetIdx, st).value.slots)
  {
    FindBuiltinMutatorsSlots(prog, hasPerInstanceUbo, forwardShading, nonBuiltinCount, descriptorSetIdx, st);
    FindBuiltinMutatorsClosure(prog, hasPerInstanceUbo, forwardShading, nonBuiltinCount, descriptorSetIdx, st);
  }
}
