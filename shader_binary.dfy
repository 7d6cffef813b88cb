/**
  What the resolver sees of a compiled shader program: the reflection tables of
  its binary (uniform and storage blocks, opaque resources), its named constants
  and mutators, and, for one compiled variant, the block instances, opaque
  instances and active constants the compiler reports. The compiler itself is an
  opaque function (`Compiler`, `RtCompiler`).
*/
module ShaderBinary {
  import opened Common

  /** `ShaderVariableDataType`, reduced to the members the resolver tests for. */
  datatype DataType =
    | NoType | Mat3x4 | Mat3 | Sampler
    | Texture2D | Texture2DArray | Texture3D | TextureCube
    | OtherType(code: nat)

  predicate IsSampler(t: DataType) { t == Sampler }

  predicate IsTexture(t: DataType) {
    t == Texture2D || t == Texture2DArray || t == Texture3D || t == TextureCube
  }

  datatype Variable = Variable(name: string, dataType: DataType)

  datatype Block = Block(name: string, descriptorSet: nat, binding: nat, variables: seq<Variable>)

  datatype Opaque = Opaque(name: string, dataType: DataType, descriptorSet: nat, binding: nat)

  datatype Constant = Constant(name: string, dataType: DataType)

  datatype Mutator = Mutator(name: string, values: seq<int>)

  datatype Binary = Binary(uniformBlocks: seq<Block>, storageBlocks: seq<Block>, opaques: seq<Opaque>)

  datatype ShaderProgram = ShaderProgram(binary: Binary, constants: seq<Constant>, mutators: seq<Mutator>)

  /** `tryFindMutator`: the first mutator of the program with that name. */
  function TryFindMutator(mutators: seq<Mutator>, name: string): (r: Option<Mutator>)
    ensures r.None? <==> forall k | 0 <= k < |mutators| :: mutators[k].name != name
    ensures r.Some? ==> r.value in mutators && r.value.name == name
  {
    if |mutators| == 0 then None
    else if mutators[0].name == name then Some(mutators[0])
    else TryFindMutator(mutators[1..], name)
  }

  /** The mutator found is the first one with that name. */
  lemma {:induction false} TryFindMutatorFirst(mutators: seq<Mutator>, name: string)
    ensures var r := TryFindMutator(mutators, name);
      r.Some? ==> exists k | 0 <= k < |mutators| ::
        mutators[k] == r.value && forall j | 0 <= j < k :: mutators[j].name != name
  {
    if |mutators| > 0 && mutators[0].name != name {
      var rest := mutators[1..];
      TryFindMutatorFirst(rest, name);
      var r := TryFindMutator(rest, name);
      if r.Some? {
        var k :| 0 <= k < |rest| && rest[k] == r.value && forall j | 0 <= j < k :: rest[j].name != name;
        forall j | 0 <= j < k + 1 ensures mutators[j].name != name {
          if j > 0 { assert mutators[j] == rest[j - 1]; }
        }
        assert mutators[k + 1] == r.value;
      }
    }
  }

  /** `ShaderVariableBlockInfo`; a fresh record holds -1 in every field. */
  datatype BlockInfo = BlockInfo(offset: int, arraySize: int, arrayStride: int, matrixStride: int)

  const UnsetBlockInfo := BlockInfo(-1, -1, -1, -1)

  /** A field of a block that survived compilation of one variant. */
  datatype VariableInstance = VariableInstance(index: nat, blockInfo: BlockInfo)

  /** A uniform block used by one variant: which declared block, its size, its fields. */
  datatype BlockInstance = BlockInstance(index: nat, size: nat, variableInstances: seq<VariableInstance>)

  datatype OpaqueInstance = OpaqueInstance(index: nat)

  /**
    One compiled variant. `activeConstants` holds the positions (in the
    program's constant table) of the constants `isConstantActive` reports.
  */
  datatype ProgramVariant = ProgramVariant(
    program: nat,
    uniformBlocks: seq<BlockInstance>,
    opaques: seq<OpaqueInstance>,
    activeConstants: set<nat>)

  /** One `(mutator name, value)` pair of `ShaderProgramResourceVariantInitInfo::addMutation`. */
  datatype Mutation = Mutation(mutator: string, value: int)

  /** One `addConstant` of the variant init info. */
  datatype ConstantValue = ConstantValue(name: string, value: InputValue)

  /** The shader program's `getOrCreateVariant`, a foreign call. */
  type Compiler = (ShaderProgram, seq<Mutation>, seq<ConstantValue>) -> ProgramVariant

  /** The ray-tracing program's `getOrCreateVariant` followed by `getShaderGroupHandleIndex`. */
  type RtCompiler = (ShaderProgram, seq<Mutation>) -> nat
}
