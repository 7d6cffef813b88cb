/**
  `findGlobalUniformsUbo`: the binding of the program's `b_ankiGlobalUniforms`
  uniform block, which every material needs.
*/
module GlobalUniforms {
  import opened Common
  import opened ShaderBinary
  import opened Mutators

  const GlobalUniformsName: string := "b_ankiGlobalUniforms"

  /**
    The loop keeps the binding of the last block of that name, starting from
    `MAX_U32`; a binding still equal to `MAX_U32` afterwards means missing.
  */
  function GlobalUniformsSpec(blocks: seq<Block>): Result<nat> {
    var b := BindingAfter(Some(MaxU32), blocks, GlobalUniformsName).value;
    if b == MaxU32 then Fail(UserData(GlobalUniformsMissing)) else Ok(b)
  }

  /**
    The lookup succeeds exactly when some block has that name and the last
    such block is bound somewhere other than `MAX_U32`; it then yields that
    block's binding.
  */
  lemma GlobalUniformsIff(blocks: seq<Block>)
    ensures GlobalUniformsSpec(blocks).Ok? <==>
      exists k | 0 <= k < |blocks| ::
        && blocks[k].name == GlobalUniformsName
        && (forall j | k < j < |blocks| :: blocks[j].name != GlobalUniformsName)
        && blocks[k].binding != MaxU32
    ensures GlobalUniformsSpec(blocks).Ok? ==>
      exists k | 0 <= k < |blocks| ::
        && blocks[k].name == GlobalUniformsName
        && (forall j | k < j < |blocks| :: blocks[j].name != GlobalUniformsName)
        && GlobalUniformsSpec(blocks).value == blocks[k].binding
  {
    var l := LastNamed(blocks, GlobalUniformsName);
    if l.Some? {
      assert blocks[l.value].name == GlobalUniformsName;
    }
  }

  /** A program without that block cannot be used by a material. */
  lemma GlobalUniformsRequired(blocks: seq<Block>)
    requires forall k | 0 <= k < |blocks| :: blocks[k].name != GlobalUniformsName
    ensures GlobalUniformsSpec(blocks) == Fail(UserData(GlobalUniformsMissing))
  {
  }
}
