/**
  Shared vocabulary of the material resolver: optional values, error returns,
  the engine-wide constants whose headers are not part of this model, and the
  two string primitives (`find` of a character, prefix test) the resolver uses.
*/
module Common {

  datatype Option<+T> = None | Some(value: T)

  /** Why a load step failed; one constructor per distinct check of the resolver. */
  datatype Reason =
    // builtin variables
    | IncorrectBuiltinType | BuiltinShouldNotBeInstanced | UnknownBuiltin
    // uniform names
    | BadPerDrawName | BadPerInstanceName | WrongVariableName | NonInstancedArray
    | BadIndexText | IndexBufferOverrun
    // variable registry
    | MixedUboDescriptorSets | DuplicateUbo | EmptyVariableName | ArrayExceedsInstanceCount
    | FirstElementMissing | SecondElementTwice | VariableFoundTwice
    | PerInstanceNotFullyPopulated | BothUbosMissing | NotHighestDescriptorSet
    // mutators
    | MissingChildElement | EmptyMutatorName | BuiltinMutatorListed | ReservedMutatorPrefix
    | MutatorNotFound | MutatorValueNotFound | WrongValueCount | UnexpectedValues
    | MissingPerInstanceUbo | PassNotForForward | PassRequired | BoneTransformsWrongSet
    | UnaccountedMutators
    // inputs
    | VariableNotFound | BuiltinListed | InstancedInput | UnsupportedInputType
    // variants
    | NoBlockInstance | StrideBeforeFirstElement | StrideTooSmall | NotSamplerOrTexture
    | ActiveVariableUnset | SecondElementUnknown
    // ray tracing
    | UnknownRayType | RayTypeTwice | RtMutatorsUnset | BadInputName | BadInputValue
    // global uniforms
    | GlobalUniformsMissing

  /**
    `UserData` is the engine's `Error::USER_DATA` return; `Fatal` stands for a
    condition the engine stops on: a failed `ANKI_ASSERT` (in a build that
    keeps assertions), a null dereference, or `ANKI_RESOURCE_LOGF`.
  */
  datatype Error = UserData(reason: Reason) | Fatal(reason: Reason)

  datatype Result<+T> = Ok(value: T) | Fail(error: Error) {
    predicate IsFailure() { Fail? }
    function PropagateFailure<U>(): Result<U>
      requires Fail?
    {
      Fail(error)
    }
    function Extract(): T
      requires Ok?
    {
      value
    }
  }

  /** `MAX_INSTANCE_COUNT`: abstract, at least 2 (element 1 is used for the stride). */
  type InstanceBound = n: nat | 2 <= n witness 2
  const MaxInstanceCount: InstanceBound

  /** `MAX_LOD_COUNT`: abstract, at least one level. */
  type LodBound = n: nat | 1 <= n witness 1
  const MaxLodCount: LodBound

  /**
    The `Pass` enumeration: its members are the values `0 .. count-1` and
    `fs` is the value of the forward-shading member `Pass::FS`.
  */
  datatype PassEnum = PassEnum(count: nat, fs: nat)
  type PassLayout = p: PassEnum | p.fs < p.count witness PassEnum(1, 0)
  const Passes: PassLayout

  /** The largest U32, the engine's "unset" marker. */
  const MaxU32: nat := 0xFFFF_FFFF

  /** A value given to a variable in the material description (typed union or image path). */
  datatype InputValue = Numbers(xs: seq<real>) | ImagePath(path: string)

  predicate StartsWith(s: string, prefix: string) {
    |prefix| <= |s| && s[..|prefix|] == prefix
  }

  /** `CString::find` of one character: the first position holding `c`. */
  function Find(s: string, c: char): (r: Option<nat>)
    ensures r.None? <==> c !in s
    ensures r.Some? ==> r.value < |s| && s[r.value] == c && c !in s[..r.value]
  {
    if |s| == 0 then None
    else if s[0] == c then Some(0)
    else
      var rest := Find(s[1..], c);
      assert s == [s[0]] + s[1..];
      if rest.None? then None
      else
        assert s[..rest.value + 1] == [s[0]] + s[1..][..rest.value];
        Some(rest.value + 1)
  }

  function Max(a: nat, b: nat): (r: nat)
    ensures r >= a && r >= b && (r == a || r == b)
  {
    if a >= b then a else b
  }

  function Min(a: nat, b: nat): (r: nat)
    ensures r <= a && r <= b && (r == a || r == b)
  {
    if a <= b then a else b
  }

  /** `p` holds for every element, as a fold over a prefix (the shape the resolver's loops have). */
  predicate AllHold<T>(p: T -> bool, xs: seq<T>)
    decreases |xs|
  {
    xs == [] || (AllHold(p, xs[..|xs| - 1]) && p(xs[|xs| - 1]))
  }

  /** The fold holds exactly when `p` holds at every index. */
  lemma {:induction false} AllHoldEach<T>(p: T -> bool, xs: seq<T>)
    ensures AllHold(p, xs) <==> forall k | 0 <= k < |xs| :: p(xs[k])
    decreases |xs|
  {
    if xs != [] {
      var pre := xs[..|xs| - 1];
      AllHoldEach(p, pre);
      assert forall k | 0 <= k < |pre| :: pre[k] == xs[k];
    }
  }

  /** The outcome of a step without its value: what an `Error`-returning member of the resolver reports. */
  function Status<T>(r: Result<T>): Result<()> {
    if r.Ok? then Ok(()) else Fail(r.error)
  }
}
