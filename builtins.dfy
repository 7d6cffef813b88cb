/**
  The builtin material variables and builtin mutators: the fixed tables
  `BUILTIN_INFOS` and `BUILTIN_MUTATOR_NAMES` and the check `checkBuiltin`.
*/
module Builtins {
  import opened Common
  import opened ShaderBinary

  datatype BuiltinVarId = NoBuiltin | Transform | PreviousTransform | Rotation | GlobalSampler

  datatype BuiltinVarInfo = BuiltinVarInfo(id: BuiltinVarId, name: string, dataType: DataType, instanced: bool)

  /** The table, indexed by the id's ordinal; entry 0 (`NONE`) is never matched. */
  const BuiltinInfos: seq<BuiltinVarInfo> := [
    BuiltinVarInfo(NoBuiltin, "NONE", NoType, false),
    BuiltinVarInfo(Transform, "m_ankiTransform", Mat3x4, true),
    BuiltinVarInfo(PreviousTransform, "m_ankiPreviousTransform", Mat3x4, true),
    BuiltinVarInfo(Rotation, "m_ankiRotation", Mat3, true),
    BuiltinVarInfo(GlobalSampler, "u_ankiGlobalSampler", Sampler, false)
  ]

  /** The table entries `checkBuiltin` looks at: every id except `NONE`. */
  predicate IsBuiltinEntry(k: int) { 1 <= k < |BuiltinInfos| }

  /** The two prefixes reserved for builtins. */
  predicate HasReservedPrefix(name: string) {
    StartsWith(name, "m_anki") || StartsWith(name, "u_anki")
  }

  /** The scan of `checkBuiltin` from table entry `k` on. */
  function CheckBuiltinFrom(name: string, dataType: DataType, instanced: bool, k: nat): Result<BuiltinVarId>
    requires 1 <= k <= |BuiltinInfos|
    decreases |BuiltinInfos| - k
  {
    if k == |BuiltinInfos| then
      if HasReservedPrefix(name) then Fail(UserData(UnknownBuiltin)) else Ok(NoBuiltin)
    else if BuiltinInfos[k].name == name then
      if BuiltinInfos[k].dataType != dataType then Fail(UserData(IncorrectBuiltinType))
      else if instanced && !BuiltinInfos[k].instanced then Fail(UserData(BuiltinShouldNotBeInstanced))
      else Ok(BuiltinInfos[k].id)
    else CheckBuiltinFrom(name, dataType, instanced, k + 1)
  }

  /**
    `checkBuiltin`: a name found in the table yields its id, unless the data
    type differs or the variable is instanced while the entry is not; a name
    not in the table is rejected when it uses a reserved prefix and is an
    ordinary variable otherwise.
  */
  function CheckBuiltin(name: string, dataType: DataType, instanced: bool): (r: Result<BuiltinVarId>)
    ensures forall k | IsBuiltinEntry(k) && BuiltinInfos[k].name == name ::
      r == (if BuiltinInfos[k].dataType != dataType then Fail(UserData(IncorrectBuiltinType))
            else if instanced && !BuiltinInfos[k].instanced then Fail(UserData(BuiltinShouldNotBeInstanced))
            else Ok(BuiltinInfos[k].id))
    ensures (forall k | IsBuiltinEntry(k) :: BuiltinInfos[k].name != name) ==>
      r == (if HasReservedPrefix(name) then Fail(UserData(UnknownBuiltin)) else Ok(NoBuiltin))
  {
    CheckBuiltinScan(name, dataType, instanced, 1);
    CheckBuiltinFrom(name, dataType, instanced, 1)
  }

  /** The scan from `k` returns the first matching entry at or after `k`. */
  lemma {:induction false} CheckBuiltinScan(name: string, dataType: DataType, instanced: bool, k: nat)
    requires 1 <= k <= |BuiltinInfos|
    ensures forall j | k <= j < |BuiltinInfos| && BuiltinInfos[j].name == name ::
      CheckBuiltinFrom(name, dataType, instanced, k) ==
        (if BuiltinInfos[j].dataType != dataType then Fail(UserData(IncorrectBuiltinType))
         else if instanced && !BuiltinInfos[j].instanced then Fail(UserData(BuiltinShouldNotBeInstanced))
         else Ok(BuiltinInfos[j].id))
    ensures (forall j | k <= j < |BuiltinInfos| :: BuiltinInfos[j].name != name) ==>
      CheckBuiltinFrom(name, dataType, instanced, k) ==
        (if HasReservedPrefix(name) then Fail(UserData(UnknownBuiltin)) else Ok(NoBuiltin))
    decreases |BuiltinInfos| - k
  {
    BuiltinNamesDistinct();
    if k < |BuiltinInfos| {
      CheckBuiltinScan(name, dataType, instanced, k + 1);
    }
  }

  /** No two entries of the table share a name, so a lookup has at most one answer. */
  lemma BuiltinNamesDistinct()
    ensures forall i, j | 0 <= i < j < |BuiltinInfos| :: BuiltinInfos[i].name != BuiltinInfos[j].name
  {
    assert BuiltinInfos[1].name[6] != BuiltinInfos[2].name[6];
    assert BuiltinInfos[1].name[6] != BuiltinInfos[3].name[6];
    assert BuiltinInfos[2].name[6] != BuiltinInfos[3].name[6];
  }

  /** A name shorter than the reserved prefixes is no builtin and passes `checkBuiltin`. */
  lemma CheckBuiltinShortName(name: string, dataType: DataType, instanced: bool)
    requires |name| < 6
    ensures CheckBuiltin(name, dataType, instanced) == Ok(NoBuiltin)
  {
    assert forall k | IsBuiltinEntry(k) :: |BuiltinInfos[k].name| >= 6;
    assert !HasReservedPrefix(name);
  }

  /** A successful check with a builtin id names exactly that table entry. */
  lemma CheckBuiltinFound(name: string, dataType: DataType, instanced: bool)
    requires CheckBuiltin(name, dataType, instanced).Ok?
    requires CheckBuiltin(name, dataType, instanced).value != NoBuiltin
    ensures exists k | IsBuiltinEntry(k) ::
      (BuiltinInfos[k].name == name
       && BuiltinInfos[k].id == CheckBuiltin(name, dataType, instanced).value
       && BuiltinInfos[k].dataType == dataType
       && (instanced ==> BuiltinInfos[k].instanced))
  {
    assert !(forall k | IsBuiltinEntry(k) :: BuiltinInfos[k].name != name);
  }

  datatype BuiltinMutatorId = NoMutator | InstancedMutator | PassMutator | LodMutator
                            | BonesMutator | VelocityMutator | VrsMutator

  /** `BUILTIN_MUTATOR_NAMES`, indexed by the id's ordinal. */
  const BuiltinMutatorNames: seq<string> :=
    ["NONE", "ANKI_INSTANCED", "ANKI_PASS", "ANKI_LOD", "ANKI_BONES", "ANKI_VELOCITY", "ANKI_VRS"]

  /** A name of a builtin mutator other than `NONE`. */
  predicate IsBuiltinMutatorName(name: string) {
    name in BuiltinMutatorNames[1..]
  }

  /** No two builtin mutator names are equal. */
  lemma BuiltinMutatorNamesDistinct(i: nat, j: nat)
    requires i < |BuiltinMutatorNames| && j < |BuiltinMutatorNames| && i != j
    ensures BuiltinMutatorNames[i] != BuiltinMutatorNames[j]
  {
    var a := BuiltinMutatorNames[i];
    var b := BuiltinMutatorNames[j];
    if 1 <= i && 1 <= j {
      assert a[5] != b[5] || a[6] != b[6];
    } else {
      assert a[0] != b[0];
    }
  }

  /** Every builtin mutator name other than `NONE` carries the reserved `ANKI_` prefix. */
  lemma BuiltinMutatorNamesReserved(name: string)
    requires IsBuiltinMutatorName(name)
    ensures StartsWith(name, "ANKI_")
  {
    var k :| 0 <= k < |BuiltinMutatorNames[1..]| && BuiltinMutatorNames[1..][k] == name;
    assert name == BuiltinMutatorNames[k + 1];
  }
}
