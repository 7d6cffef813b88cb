# AnKi material resolver, modelled in Dafny

This project models `MaterialResource`, the material resolver of the AnKi 3D
engine (`AnKi/Resource/MaterialResource.cpp`). A material names a shader
program and may carry a `<mutation>`, `<inputs>` and an `<rtMaterial>`
element. `load` checks the description against the reflection tables of the
program's binary. It builds the material's variable registry and checks the
mutators. It binds the inputs, resolves the ray-tracing part and finds the
global uniforms block. `getOrCreateVariant` then compiles one program variant
per cell of a six-dimensional matrix, on first use, and records for it which
variables are active and their block layouts.

The model is organised as the source is:

| file | module | models |
|---|---|---|
| `common.dfy` | `Common` | error kinds (`UserData`, `Fatal`), `Result`, `Option`, `CString::find`, the `MAX_U32` constant |
| `shader_binary.dfy` | `ShaderBinary` | the reflection tables a shader program exposes (uniform and storage blocks, opaques, constants, mutators) |
| `builtins.dfy` | `Builtins` | `BUILTIN_INFOS`, `checkBuiltin`, `BUILTIN_MUTATOR_NAMES` |
| `var_names.dfy` | `VarNames` | `parseVariable` and the two spellings of a block field |
| `registry.dfy` | `Registry` | `createVars`: the uniform blocks, the opaques and the constants |
| `mutators.dfy` | `Mutators` | `parseMutators` and `findBuiltinMutators` |
| `inputs.dfy` | `Inputs` | the validation and flag logic of `parseInputs` |
| `variants.dfy` | `Variants` | the variant matrix index, the mutation and constant lists of `getOrCreateVariant`, and `initVariant` |
| `ray_tracing.dfy` | `RayTracing` | `parseRtMaterial`: ray types, their mutations, `GPU_MATERIAL_TEXTURES`, `GPU_MATERIAL_FLOATS` |
| `global_uniforms.dfy` | `GlobalUniforms` | `findGlobalUniformsUbo` |
| `loading.dfy` | `Loading` | the loops of `load`'s steps, as methods over values |
| `material_resource.dfy` | `Material` | the class `MaterialResource`: `load` and `getOrCreateVariant` |

Each step of `load` has two forms:

- A specification function, written as a fold over prefixes of the input in
  the order the source walks it, with lemmas proving what the step promises:
  - for acceptance, exactly which inputs pass, as an if-and-only-if;
  - for the content, what the result holds, in order.
- A method that walks the same input with a `for` loop and is proved to
  compute that function.

`Material.MaterialResource` holds the fields `load` sets, grouped by the step
that sets them, plus the variant matrix as a flat `array` of optional variants.
`load` runs the step methods and stores the outcome. `getOrCreateVariant`
reads and writes the matrix in place. `initVariant` writes the active bits and
the block infos into two arrays.

Failures follow the source's two kinds:

- `Error::USER_DATA` becomes `UserData(reason)`.
- `ANKI_ASSERT` on data, and `ANKI_RESOURCE_LOGF`, become `Fatal(reason)`. The
  model follows a build with assertions enabled.
- The assertions on the caller's rendering key (`getOrCreateVariant`'s lines
  885-888) become preconditions.

Three constants come from headers that are not shown, so the model leaves them
abstract:

- `MAX_INSTANCE_COUNT`, taken to be at least 2;
- `MAX_LOD_COUNT`, at least 1;
- the `Pass` enumeration with its member `FS`.

Every proof holds for any values of them.

## Model

| member | source | states |
|---|---|---|
| `Builtins.CheckBuiltin` | AnKi/Resource/MaterialResource.cpp:31-71 | A name equal to a `BUILTIN_INFOS` entry yields that entry's id. It fails with a type error when the data type differs, and with an instancing error when the variable is instanced but the entry is not. A name in no entry fails when it starts with `m_anki` or `u_anki` and yields `NONE` otherwise. |
| `Builtins.CheckBuiltinFound` | AnKi/Resource/MaterialResource.cpp:31-71 | A successful check with an id other than `NONE` names a table entry with that name, that id and that type, instanced if the variable is. |
| `Builtins.CheckBuiltinShortName` | AnKi/Resource/MaterialResource.cpp:31-71 | A name shorter than `m_anki` matches no table entry and has no reserved prefix, so `checkBuiltin` yields `NONE`. |
| `Builtins.BuiltinNamesDistinct` | AnKi/Resource/MaterialResource.cpp:24-29 | The builtin variable table names each entry once. |
| `Builtins.BuiltinMutatorNamesDistinct` | AnKi/Resource/MaterialResource.cpp:13-14 | The seven builtin mutator names are pairwise different. |
| `Builtins.BuiltinMutatorNamesReserved` | AnKi/Resource/MaterialResource.cpp:13-14 | Every builtin mutator name but `NONE` starts with `ANKI_`. |
| `Common.Find` | AnKi/Resource/MaterialResource.cpp:571-572 | `CString::find` of one character: the first position holding it, or none when it does not occur. |
| `ShaderBinary.TryFindMutator` | AnKi/Resource/MaterialResource.cpp:305-311 | None exactly when no mutator of the program has that name; otherwise a mutator of the program with that name. |
| `ShaderBinary.TryFindMutatorFirst` | AnKi/Resource/MaterialResource.cpp:305-311 | The mutator found sits at a position before which no mutator has that name, so it is the first one. |
| `VarNames.ParseVariableContract` | AnKi/Resource/MaterialResource.cpp:555-619 | A per-draw name parses exactly when it starts with `u_ankiPerDraw.` and has no bracket, and then its index is 0. A per-instance name that parses starts with `u_ankiPerInstance[` and its index is the decimal number between that bracket and the first `]`; that number is non-empty and fits the 8-character buffer. The name returned is the text after the first `.`, and a name without a `.` fails. |
| `VarNames.InstancedRoundTrip` | AnKi/Resource/MaterialResource.cpp:555-619 | For an index below ten million and a field name without `.`, `[` or `]`, `u_ankiPerInstance[i].name` parses back to `(i, name)`. |
| `VarNames.PerDrawRoundTrip` | AnKi/Resource/MaterialResource.cpp:555-619 | For a field name without `.`, `[` or `]`, `u_ankiPerDraw.name` parses back to `(0, name)`. |
| `VarNames.DecimalFitsBuffer` | AnKi/Resource/MaterialResource.cpp:587-593 | The decimal spelling of an index below ten million fits the index buffer. |
| `VarNames.Decimal` | AnKi/Resource/MaterialResource.cpp:585-594 | The decimal spelling of a number is non-empty, all digits, and reads back as the number. |
| `Registry.TryFindVariable` | AnKi/Resource/MaterialResource.cpp:696-711 | The position of the first variable of that name, or none exactly when no variable has it. |
| `Registry.ScanField` | AnKi/Resource/MaterialResource.cpp:677-727 | One parsed block field. The name must be non-empty. An element index of `MAX_INSTANCE_COUNT` or more fails. Element 1 back-patches the element-0 variable's second binary index, and fails when there is none or it is already set. Element 0 appends a new variable at the end, under a name not yet used, after `checkBuiltin`. The two instance counters grow exactly on per-instance elements 0 and `MAX_INSTANCE_COUNT - 1`. |
| `Registry.ScanVar` | AnKi/Resource/MaterialResource.cpp:672-728 | A field that scans is well formed, adds its element-0 name, keeps the registry's shape and counts itself as above. |
| `Registry.EnterBlock` | AnKi/Resource/MaterialResource.cpp:636-670 | A material block records its own position and binding for its kind. It fails when another block of the same kind was recorded, or when it lies in a different descriptor set from an earlier material block. |
| `Registry.ScanBlocks` | AnKi/Resource/MaterialResource.cpp:630-729 | The loop over the uniform blocks; on success the running maximum is the highest descriptor set of all blocks. |
| `Registry.ScanBlocksParse` | AnKi/Resource/MaterialResource.cpp:672-691 | After a successful scan every field of a material block is well formed with an index below `MAX_INSTANCE_COUNT`. |
| `Registry.ScanBlocksNames` | AnKi/Resource/MaterialResource.cpp:706-727 | After a successful scan the registry holds, in scan order, exactly the element-0 names, distinct and at their own positions. |
| `Registry.ScanBlocksCounts` | AnKi/Resource/MaterialResource.cpp:686-727 | The two counters count the per-instance fields at element 0 and at element `MAX_INSTANCE_COUNT - 1`. |
| `Registry.ScanBlocksSets` | AnKi/Resource/MaterialResource.cpp:662-670 | All material blocks share one descriptor set, which is recorded exactly when a material block exists. |
| `Registry.ScanBlocksUbo` | AnKi/Resource/MaterialResource.cpp:636-656 | At most one block of each kind exists. Every block of a kind is the recorded one, with the recorded binding, and a recorded position names a block of that kind. |
| `Registry.ScanOpaques` | AnKi/Resource/MaterialResource.cpp:744-764 | The loop over the opaques keeps the earlier variables and appends, in binary order, one variable per opaque of the material's descriptor set, at its own position. The running maximum set also covers every opaque. |
| `Registry.AppendConstants` | AnKi/Resource/MaterialResource.cpp:775-783 | One constant variable per program constant, in order, each at its own position. |
| `Registry.InSetPositions` | AnKi/Resource/MaterialResource.cpp:748-751 | Every position listed is that of an opaque in the material's descriptor set. |
| `Registry.CreateVarsScans` | AnKi/Resource/MaterialResource.cpp:621-786 | A successful `createVars` passed the block scan and the opaque scan, its blocks lie in the material's set, and its variables are the scanned ones followed by the constants. |
| `Registry.CreateVarsBlockFields` | AnKi/Resource/MaterialResource.cpp:713-727 | The registry starts with the element-0 block fields under distinct names, and every variable's `m_index` equals its position in `m_vars`. |
| `Registry.CreateVarsUnset` | AnKi/Resource/MaterialResource.cpp:713-783 | No variable of a fresh registry is marked as set by the material or carries a value. |
| `Registry.CreateVarsResources` | AnKi/Resource/MaterialResource.cpp:744-783 | After the block fields come the opaques of the material's descriptor set in binary order, then the constants in order. |
| `Registry.CreateVarsChecks` | AnKi/Resource/MaterialResource.cpp:731-772 | On success: every field is well formed with an index below `MAX_INSTANCE_COUNT`; the per-instance fields at element 0 are as many as those at element `MAX_INSTANCE_COUNT - 1`; a material block exists; every material block is in the highest set used by any block or opaque; the material keeps that set number as a byte. |
| `Registry.CreateVarsUbos` | AnKi/Resource/MaterialResource.cpp:636-656 | The registry records the position and binding of the one block of each kind, and none for an absent kind. |
| `Registry.RepeatedFieldRejected` | AnKi/Resource/MaterialResource.cpp:706-711 | Two element-0 fields with the same name make `createVars` fail. |
| `Registry.MalformedFieldRejected` | AnKi/Resource/MaterialResource.cpp:676-691 | A malformed field name, or an index of `MAX_INSTANCE_COUNT` or more, makes `createVars` fail. |
| `Registry.PartialInstanceArrayRejected` | AnKi/Resource/MaterialResource.cpp:731-735 | When the per-instance fields at element 0 and those at element `MAX_INSTANCE_COUNT - 1` differ in number, `createVars` fails. |
| `Registry.PartialInstanceArrayAccepted` | AnKi/Resource/MaterialResource.cpp:731-735 | `createVars` counts the fields and does not match their names. A per-instance block with field `a` at element 0 and field `b` at the last element passes `createVars`, although `a` has no last element. This needs at least three instances, and an index the 8-character buffer holds. |
| `Registry.CountedBlockAccepted` | AnKi/Resource/MaterialResource.cpp:620-772 | `createVars` accepts a lone `b_ankiPerInstance` block whose two fields parse as element 0 of `a` and the last element of `b`. |
| `Registry.NoMaterialBlockRejected` | AnKi/Resource/MaterialResource.cpp:737-741 | A binary with neither `b_ankiPerDraw` nor `b_ankiPerInstance` is rejected. |
| `Registry.LowerDescriptorSetRejected` | AnKi/Resource/MaterialResource.cpp:766-770 | A material block below the highest descriptor set in use is rejected. |
| `Registry.DuplicateBlockRejected` | AnKi/Resource/MaterialResource.cpp:636-656 | Two blocks of the same kind are rejected. |
| `Registry.ScanBlocksStopsAt` | AnKi/Resource/MaterialResource.cpp:630-729 | The first block that fails ends `createVars` with its error. |
| `Registry.ScanVarsStopsAt` | AnKi/Resource/MaterialResource.cpp:672-728 | The first field that fails ends `createVars` with its error. |
| `Registry.ScanOpaquesStopsAt` | AnKi/Resource/MaterialResource.cpp:744-764 | The first opaque that fails ends `createVars` with its error. |
| `Mutators.ParseMutatorIff` | AnKi/Resource/MaterialResource.cpp:272-317 | One `<mutator>` is accepted exactly when its name is non-empty, is no builtin mutator name, lacks the `ANKI_` prefix, names a program mutator and its value is one of that mutator's values. It then yields that mutator and the value. |
| `Mutators.ParseMutatorListIff` | AnKi/Resource/MaterialResource.cpp:253-327 | The list is accepted exactly when every element is valid. It then yields one sub-mutation per element, in document order, with the element's value and the program mutator of that name. |
| `Mutators.ParseMutatorsIff` | AnKi/Resource/MaterialResource.cpp:253-327 | `<mutation>` is accepted exactly when it has at least one `<mutator>` and every one is valid. |
| `Mutators.NonFsPassesAreAllButFs` | AnKi/Resource/MaterialResource.cpp:384-398 | The expected PASS values list every `Pass` member but `FS`, each once, in increasing order. |
| `Mutators.LastNamed` | AnKi/Resource/MaterialResource.cpp:463-486 | The last block with that name, or none when no block has it. |
| `Mutators.ScanBoneBlocksIff` | AnKi/Resource/MaterialResource.cpp:463-486 | The bone buffer scan fails exactly when a buffer of one of the two names lies outside the material's descriptor set. Otherwise each binding is that of the last buffer of its name, or unchanged without one. |
| `Mutators.FindBuiltinMutatorsSlots` | AnKi/Resource/MaterialResource.cpp:334-495 | Each slot holds the program's mutator of that builtin name. PASS is bound exactly for deferred shading and lists every pass but `FS`. LOD lists `0 .. n-1` with `n <= MAX_LOD_COUNT`, and `m_lodCount` becomes `n` as a byte. BONES, VELOCITY and VRS list `[0, 1]`. INSTANCED has two values, the first 0, and needs the per-instance block. |
| `Mutators.FindBuiltinMutatorsClosure` | AnKi/Resource/MaterialResource.cpp:488-550 | Unless the BONES shortcut returns, VELOCITY and VRS are bound by name with `[0, 1]`, and the material's own mutators plus the bound slots are as many as the program's mutators. After the shortcut the VELOCITY and VRS slots stay as they were. |
| `Mutators.FindBuiltinMutatorsBones` | AnKi/Resource/MaterialResource.cpp:440-486 | With BONES bound, both bone buffers lie in the material's descriptor set, and the bindings are those of the last buffer of each name. |
| `Mutators.InstancedSecondValueUnchecked` | AnKi/Resource/MaterialResource.cpp:338-353 | An INSTANCED mutator with values `[0, 7]` is accepted: only the first value is compared. |
| `Mutators.BonesWithoutBuffersSkipsClosure` | AnKi/Resource/MaterialResource.cpp:488-494 | With BONES bound and no bone buffers, `findBuiltinMutators` succeeds although a program mutator is accounted for by nobody. |
| `Mutators.RepeatedMutatorAccepted` | AnKi/Resource/MaterialResource.cpp:253-550 | A `<mutation>` that lists `a` twice for a program with mutators `a` and `b` passes `parseMutators` and `findBuiltinMutators`, although no entry sets `b`. |
| `Mutators.ParseMutatorListStopsAt` | AnKi/Resource/MaterialResource.cpp:268-322 | The first `<mutator>` that fails ends the loop with its error. |
| `Mutators.ScanBoneBlocksStopsAt` | AnKi/Resource/MaterialResource.cpp:463-486 | The first bone buffer in the wrong set ends the scan with its error. |
| `Inputs.ParseInputStep` | AnKi/Resource/MaterialResource.cpp:797-844 | One `<input>` is accepted exactly when it names an existing non-builtin variable, and that variable is not an instanced non-constant and has a type an input can carry. It then sets that variable's flag and value, and no other variable changes. |
| `Inputs.ParseInputsFrame` | AnKi/Resource/MaterialResource.cpp:788-877 | Accepted inputs change nothing but the flags and values. |
| `Inputs.ParseInputsIff` | AnKi/Resource/MaterialResource.cpp:788-877 | The inputs are accepted exactly when each one is valid. |
| `Inputs.ParseInputsValues` | AnKi/Resource/MaterialResource.cpp:815-870 | A variable is set afterwards exactly when it was set before or some input names it. It then holds the value of the last input naming it. |
| `Inputs.ParseInputsStopsAt` | AnKi/Resource/MaterialResource.cpp:793-874 | The first `<input>` that fails ends the loop with its error. |
| `Variants.ClampLod` | AnKi/Resource/MaterialResource.cpp:882 | The LOD never grows. For a LOD count of at least 1 it is below the count, unchanged when already below, and the last LOD otherwise. A LOD count of 0 wraps in U32 and leaves the LOD as it is. |
| `Variants.KeyCell` | AnKi/Resource/MaterialResource.cpp:881-891 | The cell keeps the key's pass, skinning, velocity and VRS bits, clamps the LOD below the LOD count, and is instanced exactly when more than one instance is drawn. |
| `Variants.CellIndex` | AnKi/Resource/MaterialResource.cpp:890-891 | A cell within the matrix bounds has a position inside the flat matrix; `Variants.CellIndexInjective` makes the positions distinct. |
| `Variants.CellIndexInjective` | AnKi/Resource/MaterialResource.cpp:890-891 | Distinct cells have distinct positions in the flat matrix. |
| `Variants.MixInjective` | AnKi/Resource/MaterialResource.cpp:890-891 | One step of the row-major position, `x * n + y` with `y < n`, determines both `x` and `y`. |
| `Variants.KeysBeyondLastLodShareCell` | AnKi/Resource/MaterialResource.cpp:882-891 | Keys that differ only in LODs at or past the last one select the same cell. |
| `Variants.VariantMutationsSplit` | AnKi/Resource/MaterialResource.cpp:913-946 | The values the mutation list gives a name are first the material's own values, then each bound slot's. |
| `Variants.BuiltinMutationValues` | AnKi/Resource/MaterialResource.cpp:918-946 | When the slots are bound by name and no material mutator uses the reserved prefix: each bound builtin mutator is given exactly once, with the cell's value, and an unbound one not at all. |
| `Variants.OwnMutationValues` | AnKi/Resource/MaterialResource.cpp:913-916 | Every mutator without the reserved prefix receives exactly the values the material lists for it. |
| `Variants.VariantConstantsContents` | AnKi/Resource/MaterialResource.cpp:948-972 | The constant list is built exactly when every constant set by the material has a numeric type. It then holds the name and value of each such constant, and nothing else. |
| `Variants.SetConstantPositions` | AnKi/Resource/MaterialResource.cpp:948-958 | The positions of the constants the material sets, each once and in increasing order; every such constant's position is among them. |
| `Variants.VariantConstantsInOrder` | AnKi/Resource/MaterialResource.cpp:948-972 | A built constant list has one entry per set constant, in variable order: entry `k` is the name and value of the `k`-th set constant. |
| `Variants.VariantConstantsStopsAt` | AnKi/Resource/MaterialResource.cpp:948-972 | A constant of an unsupported type ends the loop with its error. |
| `Variants.FindUboInstancesLast` | AnKi/Resource/MaterialResource.cpp:989-1000 | The per-draw instance found is the last one with the per-draw block's index, or none without one. The per-instance instance is likewise the last match among the instances that are not per-draw. |
| `Variants.ToI16` | AnKi/Resource/MaterialResource.cpp:1053-1063 | `I16(x)` lies in the 16-bit range, equals `x` in that range, and differs from `x` by a multiple of 65536. |
| `Variants.FirstConstant` | AnKi/Resource/MaterialResource.cpp:1013-1023 | The first program constant of that name, or none exactly when no constant has it. |
| `Variants.PerDrawLayoutLast` | AnKi/Resource/MaterialResource.cpp:1024-1039 | A per-draw field is active exactly when some variable instance carries its binary index, and then it has the block info of the last such instance. |
| `Variants.PerInstanceLayoutProps` | AnKi/Resource/MaterialResource.cpp:1040-1069 | A per-instance field that resolves is active exactly when element 0 is among the instances. An active one has array size `I16(MAX_INSTANCE_COUNT)`, and its stride is either at least 4 and set from element 1, or the compiler's element-0 stride. An inactive one is left untouched. |
| `Variants.LastInstance` | AnKi/Resource/MaterialResource.cpp:1040-1069 | The position of the last variable instance carrying a binary index, or none exactly when no instance carries it. |
| `Variants.PerInstanceLayoutLast` | AnKi/Resource/MaterialResource.cpp:1040-1069 | An active per-instance field has the full block info of the last element-0 instance, with array size `I16(MAX_INSTANCE_COUNT)`. When the last element-1 instance comes after it, the stride is `I16(offset(element 1) - offset(element 0))`; that stride is at least 4 and element 0's offset is not negative. Otherwise the stride is element 0's own. Without element 0 the field is untouched. |
| `Variants.SecondElementFirstRejected` | AnKi/Resource/MaterialResource.cpp:1058-1065 | Element 1 of a per-instance field met before any element 0 is fatal. |
| `Variants.ResolveAll` | AnKi/Resource/MaterialResource.cpp:1011-1082 | The variables resolve exactly when each one does, giving one layout per variable, each its own resolution. |
| `Variants.ResolveAllStopsAt` | AnKi/Resource/MaterialResource.cpp:1011-1082 | The first variable that fails to resolve ends the loop with its error. |
| `Variants.CheckVarsIff` | AnKi/Resource/MaterialResource.cpp:1084-1094 | The final loop passes exactly when every variable passes its check. |
| `Variants.CheckVarsStopsAt` | AnKi/Resource/MaterialResource.cpp:1084-1094 | The first variable that fails the final check ends it with its error. |
| `Variants.PerInstanceLayoutStopsAt` | AnKi/Resource/MaterialResource.cpp:1046-1068 | The first variable instance that fails ends the per-instance field's loop with its error. |
| `Variants.InitVariantSizes` | AnKi/Resource/MaterialResource.cpp:1003-1008 | An initialised variant keeps the compiled program and has one active bit and one block info per variable. The per-draw size is that of the last per-draw block instance, or 0 without one. The single-instance size is the last per-instance block instance's size divided by `MAX_INSTANCE_COUNT`, or 0 without one. |
| `Variants.InitVariantNeedsBlock` | AnKi/Resource/MaterialResource.cpp:1001 | A variant that uses neither the per-draw nor the per-instance block is fatal. |
| `Variants.InitVariantResolves` | AnKi/Resource/MaterialResource.cpp:1011-1082 | Each variable of an initialised variant has the layout its own resolution gives. |
| `Variants.InitVariantPerDrawField` | AnKi/Resource/MaterialResource.cpp:1024-1039 | A per-draw field is active exactly when the variant uses the block and some instance carries the field's binary index. It then has the last such instance's block info, and a fresh one otherwise. |
| `Variants.InitVariantPerInstanceField` | AnKi/Resource/MaterialResource.cpp:1040-1069 | A per-instance field is active exactly when the variant uses the block and some instance is element 0 of the field. An active one has the block info of the last element-0 instance, with array size `I16(MAX_INSTANCE_COUNT)`. Its stride is `I16(offset(element 1) - offset(element 0))` for the last element 1 after that instance, with this stride at least 4; otherwise it is element 0's own stride. An inactive one keeps a fresh block info. The field always has a known element-1 index. |
| `Variants.InitVariantResources` | AnKi/Resource/MaterialResource.cpp:1013-1081 | A constant is active exactly when the program has a constant of its name and the variant reports the first one active. An opaque is a sampler or texture, active exactly when an opaque instance carries its binary index. Neither gets a block info. |
| `Variants.InitVariantIff` | AnKi/Resource/MaterialResource.cpp:983-1094 | Initialisation succeeds exactly when the variant uses one of the material's blocks and every variable resolves. Every active ordinary variable must also have a value set by the material, and every instanced one a known element-1 index. |
| `Variants.ActiveUnsetRejected` | AnKi/Resource/MaterialResource.cpp:1087-1091 | An active ordinary variable whose value the material does not set makes initialisation fatal. |
| `Variants.LoadedValuesPresent` | AnKi/Resource/MaterialResource.cpp:713-727 | A fresh registry has no value flag without a value, and accepted inputs keep it so. |
| `Variants.FindBuiltinMutatorsNamed` | AnKi/Resource/MaterialResource.cpp:334-525 | After `findBuiltinMutators` each slot holds a mutator of that slot's own name. |
| `Variants.FindConstant` | AnKi/Resource/MaterialResource.cpp:1015-1022 | The constant loop stops at the first program constant of the name. |
| `Variants.FindOpaque` | AnKi/Resource/MaterialResource.cpp:1073-1080 | The opaque loop finds whether some opaque instance carries the binary index. |
| `Variants.PerDrawFieldLayout` | AnKi/Resource/MaterialResource.cpp:1031-1038 | The loop over the per-draw variable instances computes the per-draw layout. |
| `Variants.PerInstanceFieldLayout` | AnKi/Resource/MaterialResource.cpp:1047-1068 | The loop over the per-instance variable instances computes the per-instance layout, or its error. |
| `Variants.ResolveVariable` | AnKi/Resource/MaterialResource.cpp:1013-1081 | One iteration of the variable loop computes that variable's resolution. |
| `Variants.FindBlockInstances` | AnKi/Resource/MaterialResource.cpp:989-1000 | The loop over the variant's uniform blocks finds the last per-draw and per-instance instances. |
| `Variants.CheckVariables` | AnKi/Resource/MaterialResource.cpp:1084-1094 | The final loop passes exactly when the final check does. |
| `Variants.InitVariant` | AnKi/Resource/MaterialResource.cpp:983-1112 | `initVariant` computes exactly the initialised variant, or its fatal error, as the variant specification states. |
| `RayTracing.RayTypeRoundTrip` | AnKi/Resource/MaterialResource.cpp:1124-1140 | Each ray type is recognised under its own name. |
| `RayTracing.RayTypeNamesOnly` | AnKi/Resource/MaterialResource.cpp:1124-1145 | Only `shadows`, `gi`, `reflections` and `pathTracing` are recognised. |
| `RayTracing.RtParseMutatorListAccepts` | AnKi/Resource/MaterialResource.cpp:1175-1211 | A ray type's mutator list is accepted exactly when every entry is valid. It then yields one sub-mutation per entry, in order. |
| `RayTracing.RtMutationIff` | AnKi/Resource/MaterialResource.cpp:1161-1220 | A ray type's mutation is accepted exactly when it is absent and the program has no mutators, or it lists as many valid entries as the program has mutators. The sub-mutations are then the entries' own. |
| `RayTracing.RtRepeatedMutatorAccepted` | AnKi/Resource/MaterialResource.cpp:1190-1220 | A mutation that lists `a` twice for a program with mutators `a` and `b` is accepted, although no entry sets `b`. |
| `RayTracing.RayTypeListKeys` | AnKi/Resource/MaterialResource.cpp:1147-1153 | Accepted ray types add exactly their own types to the type set, the programs and the handles. |
| `RayTracing.RayTypeListAccepts` | AnKi/Resource/MaterialResource.cpp:1119-1235 | The ray type loop accepts exactly when every entry is valid: a known type, new to the material, with an accepted mutation. |
| `RayTracing.RayTypeListKeeps` | AnKi/Resource/MaterialResource.cpp:1158-1231 | Accepted ray types keep every program and handle recorded before them. |
| `RayTracing.RayTypeListValues` | AnKi/Resource/MaterialResource.cpp:1158-1231 | Each accepted ray type has a known type and an accepted mutation, and records its program and the compiler's shader group handle under its type. |
| `RayTracing.RayTypesIff` | AnKi/Resource/MaterialResource.cpp:1116-1235 | The ray types are accepted exactly when there is at least one and each is valid. |
| `RayTracing.RayTypesConsistent` | AnKi/Resource/MaterialResource.cpp:1147-1153 | Starting from a consistent state, the type bits, the programs and the handles still describe the same ray types. |
| `RayTracing.RayTypeTwiceRejected` | AnKi/Resource/MaterialResource.cpp:1147-1151 | A ray type given twice is rejected. |
| `RayTracing.FindTexture` | AnKi/Resource/MaterialResource.cpp:1253-1274 | The texture table search finds an entry of that name, or none exactly when no entry has it. |
| `RayTracing.FindFloat` | AnKi/Resource/MaterialResource.cpp:1279-1304 | The float table search finds an entry of that name, or none exactly when no entry has it. |
| `RayTracing.TextureTableDistinct` | AnKi/Resource/MaterialResource.cpp:122-130 | `GPU_MATERIAL_TEXTURES` names each texture channel once, under its own name. |
| `RayTracing.FloatTableDistinct` | AnKi/Resource/MaterialResource.cpp:140-145 | `GPU_MATERIAL_FLOATS` names each field once. |
| `RayTracing.TablesDisjoint` | AnKi/Resource/MaterialResource.cpp:122-145 | No name is in both tables, so trying textures first decides nothing. |
| `RayTracing.FindTextureAt` | AnKi/Resource/MaterialResource.cpp:1253-1256 | Looking up a texture entry's name finds that entry. |
| `RayTracing.FindFloatAt` | AnKi/Resource/MaterialResource.cpp:1279-1282 | Looking up a float entry's name finds that entry. |
| `RayTracing.RtInputStepIff` | AnKi/Resource/MaterialResource.cpp:1247-1311 | One input is accepted exactly when its name is in the texture table, or in the float table with as many numbers as that field holds (3 or 1). |
| `RayTracing.RtInputListAccepts` | AnKi/Resource/MaterialResource.cpp:1245-1315 | The inputs are accepted exactly when every one is valid. |
| `RayTracing.RtInputsIff` | AnKi/Resource/MaterialResource.cpp:1238-1316 | `<inputs>` is accepted exactly when it is absent, or it has at least one input and each is valid. |
| `RayTracing.RtInputListViews` | AnKi/Resource/MaterialResource.cpp:1265-1270 | The texture view count grows by one per texture input, repeats included. |
| `RayTracing.RtInputListTextures` | AnKi/Resource/MaterialResource.cpp:1262-1268 | Each texture channel named by an input holds the image of the last input naming it and that image's bindless index, truncated to U16. A channel no input names keeps its image and index. |
| `RayTracing.RtInputListFloats` | AnKi/Resource/MaterialResource.cpp:1285-1299 | Each float field named by an input holds the 3 or 1 numbers of the last input naming it; one no input names keeps its value. |
| `RayTracing.ParseRtMaterialIff` | AnKi/Resource/MaterialResource.cpp:1114-1319 | `<rtMaterial>` is accepted exactly when its ray types and its inputs are. |
| `RayTracing.RtParseMutatorListStopsAt` | AnKi/Resource/MaterialResource.cpp:1175-1211 | The first `<mutator>` that fails ends the ray type's mutation with its error. |
| `RayTracing.RayTypeListStopsAt` | AnKi/Resource/MaterialResource.cpp:1119-1235 | The first `<rayType>` that fails ends the loop with its error. |
| `RayTracing.RtInputListStopsAt` | AnKi/Resource/MaterialResource.cpp:1245-1315 | The first `<input>` that fails ends the loop with its error. |
| `GlobalUniforms.GlobalUniformsIff` | AnKi/Resource/MaterialResource.cpp:1321-1339 | The lookup succeeds exactly when some block is named `b_ankiGlobalUniforms` and the last such block has a binding other than `MAX_U32`. It then yields that binding. |
| `GlobalUniforms.GlobalUniformsRequired` | AnKi/Resource/MaterialResource.cpp:1332-1336 | A program without that block fails the lookup. |
| `Loading.ScanBlockFields` | AnKi/Resource/MaterialResource.cpp:672-728 | The loop over one block's fields computes the block scan. |
| `Loading.ScanUniformBlock` | AnKi/Resource/MaterialResource.cpp:632-728 | One iteration of the block loop computes that block's scan. |
| `Loading.ScanUniformBlocks` | AnKi/Resource/MaterialResource.cpp:630-729 | The loop over the uniform blocks computes the block scan. |
| `Loading.ScanOpaqueVars` | AnKi/Resource/MaterialResource.cpp:744-764 | The loop over the opaques computes the opaque scan. |
| `Loading.AppendConstantVars` | AnKi/Resource/MaterialResource.cpp:775-783 | The loop over the constants appends them in order. |
| `Loading.CreateVars` | AnKi/Resource/MaterialResource.cpp:621-786 | `createVars` computes the registry whose properties the `Registry.CreateVars*` lemmas state, or its error. |
| `Loading.ParseMutators` | AnKi/Resource/MaterialResource.cpp:253-327 | The `do`-`while` loop computes the sub-mutations `Mutators.ParseMutatorsIff` describes, or the first error. |
| `Loading.ScanBoneBuffers` | AnKi/Resource/MaterialResource.cpp:463-486 | The storage block loop computes the bone bindings. |
| `Loading.FindBuiltinMutators` | AnKi/Resource/MaterialResource.cpp:329-553 | `findBuiltinMutators` computes the builtin setup of the `Mutators.FindBuiltinMutators*` lemmas, or its error. |
| `Loading.ParseInputs` | AnKi/Resource/MaterialResource.cpp:788-877 | The input loop computes the registry of the `Inputs` lemmas, or the first error. |
| `Loading.RtMutation` | AnKi/Resource/MaterialResource.cpp:1160-1220 | One ray type's mutation is checked as `RayTracing.RtMutationIff` states. |
| `Loading.RayTypes` | AnKi/Resource/MaterialResource.cpp:1116-1235 | The ray type loop computes the ray-tracing state, or the first error. |
| `Loading.FindTextureEntry` | AnKi/Resource/MaterialResource.cpp:1253-1274 | The texture table loop stops at the first match. |
| `Loading.FindFloatEntry` | AnKi/Resource/MaterialResource.cpp:1279-1304 | The float table loop stops at the first match. |
| `Loading.RtInput` | AnKi/Resource/MaterialResource.cpp:1247-1311 | One ray-tracing input updates the GPU descriptor, or fails. |
| `Loading.RtInputs` | AnKi/Resource/MaterialResource.cpp:1238-1316 | The input loop computes the GPU descriptor, or the first error. |
| `Loading.ParseRtMaterial` | AnKi/Resource/MaterialResource.cpp:1114-1319 | `parseRtMaterial` computes the ray-tracing state and GPU descriptor, or the first error. |
| `Loading.FindGlobalUniformsUbo` | AnKi/Resource/MaterialResource.cpp:1321-1339 | The block loop computes the binding `GlobalUniforms.GlobalUniformsIff` describes. |
| `Material.LoadMaterial` | AnKi/Resource/MaterialResource.cpp:195-251 | The steps of `load` computed in order; the first failure stops it. |
| `Material.LoadFromMutation` | AnKi/Resource/MaterialResource.cpp:223-231 | The `<mutation>` step, then `findBuiltinMutators`. |
| `Material.LoadFromInputs` | AnKi/Resource/MaterialResource.cpp:234-248 | The `<inputs>` step, the `<rtMaterial>` step when ray tracing is on, then the global uniforms lookup. |
| `Material.LoadUsable` | AnKi/Resource/MaterialResource.cpp:195-251 | A loaded material has every variable at its own position, a value behind every value flag, and each builtin slot filled by a mutator of its own name. |
| `Material.LoadFromInputsUsable` | AnKi/Resource/MaterialResource.cpp:234-248 | The last stage keeps the material usable and keeps the builtin setup. |
| `Material.LoadFromMutationUsable` | AnKi/Resource/MaterialResource.cpp:223-248 | The mutation stage keeps the material usable and fills each builtin slot by name. |
| `Material.InputsKeepUsable` | AnKi/Resource/MaterialResource.cpp:788-877 | Accepted inputs keep the positions and put a value behind every flag they set. |
| `Material.LoadSteps` | AnKi/Resource/MaterialResource.cpp:195-251 | A `createVars` failure is the load's failure. A successful load keeps the program and reads `shadow` and `forwardShading` as non-zero numbers, defaulting to on and off. It holds the global uniforms binding. Without `<rtMaterial>` or ray tracing, the ray-tracing state stays as constructed; without `<mutation>` the mutation is empty; without `<inputs>` the registry is `createVars`'s. |
| `Material.LoadFromMutationSteps` | AnKi/Resource/MaterialResource.cpp:222-248 | After the `<mutation>` step and `findBuiltinMutators`, the program and both flags are unchanged and the global uniforms binding is held. Without `<rtMaterial>` or ray tracing, the ray-tracing state is unchanged. Without `<mutation>`, the mutation list is unchanged. Without `<inputs>`, the variables are unchanged. |
| `Material.LoadFromInputsSteps` | AnKi/Resource/MaterialResource.cpp:234-248 | The last stage changes only the variables, the ray-tracing state, the GPU descriptor and the global uniforms binding; the rest of the registry is kept. The binding is `findGlobalUniformsUbo`'s. Without `<rtMaterial>` or ray tracing, the ray-tracing state is unchanged; without `<inputs>`, the variables are. |
| `Material.LoadNeedsGlobalUniforms` | AnKi/Resource/MaterialResource.cpp:1332-1336 | A program without a `b_ankiGlobalUniforms` block never loads. |
| `Material.MaterialResource.constructor` | AnKi/Resource/MaterialResource.cpp:156-161 | A fresh material: one LOD, no builtin slot, a zeroed GPU descriptor, the global uniforms binding at `MAX_U32`, and every variant cell empty. The fresh material is `Valid`, the class invariant that `GetOrCreateVariant` requires. |
| `Material.MaterialResource.Store` | AnKi/Resource/MaterialResource.cpp:195-251 | Sets every field `load` writes and no other. |
| `Material.MaterialResource.Load` | AnKi/Resource/MaterialResource.cpp:195-251 | `load` on a fresh material returns the outcome of `Material.LoadMaterial`. On success the fields are the loaded state and the material is `Valid`; on failure they stay as constructed. |
| `Material.MaterialResource.VariantInitMutations` | AnKi/Resource/MaterialResource.cpp:913-946 | The `addMutation` calls: the material's own sub-mutations, then each bound slot with the cell's value, with the properties `Variants.BuiltinMutationValues` and `Variants.OwnMutationValues` state. |
| `Material.MaterialResource.VariantInitConstants` | AnKi/Resource/MaterialResource.cpp:948-972 | The `addConstant` loop, with the contents `Variants.VariantConstantsContents` states and the order `Variants.VariantConstantsInOrder` states. |
| `Material.MaterialResource.GetOrCreateVariant` | AnKi/Resource/MaterialResource.cpp:879-981 | The key selects its cell, with the LOD clamped. A cell whose program exists is returned as is and nothing changes. Otherwise the variant is compiled and initialised; on success it is stored in that cell and returned. No other cell changes, so a second call for the same cell returns the same variant. |

## Left out

- XML parsing, `GetAttribute` and the file system: a material arrives as a
  `MaterialDescription` of already-parsed records. Numeric attributes are
  integers or opaque values.
- Loading the shader programs, images and textures (`loadResource`): the
  program comes already loaded inside the description. An input's image is an
  opaque value.
- The shader compiler (`getOrCreateVariant` of the program, `isConstantActive`,
  `getShaderGroupHandleIndex`) and `getOrCreateBindlessTextureIndex`: these are
  function parameters (`Compiler`, `RtCompiler`, `BindlessIndexer`).
- The `RWMutex` double-checked locking of `getOrCreateVariant`: the model is
  sequential; the second check is the same test as the first.
- Typed numeric values, `memcpy` into `MaterialGpuDescriptor` and the byte
  layout of its fields: a float field is a sequence of numbers under that
  field's entry. The `0xFF` handle-index memset is not observable in the model.
- Logging, allocators, the destructor and the `#if 0` debug print.
- `m_textureViews` has a fixed capacity in the source; the model counts views
  without a bound.
- `Material.MaterialResource.Load`: on failure the model leaves the material
  as constructed, while the source leaves the fields set by the steps that
  succeeded. The engine discards a material whose load failed.
- The defaults of `m_shadow` (on) and `m_forwardShading` (off) and the
  `BlockInfo` fresh values come from headers that are not shown.
- `CString::toNumber` is not shown. The model accepts a non-empty run of
  decimal digits as an index.
- Repeated `<input>` elements for the same variable: the source does not
  reject them and the last one wins (`Inputs.ParseInputsValues`). A repeated
  ray-tracing input likewise overwrites the earlier one, and a repeated
  texture input still takes one more view.
- `Mutators.FindBuiltinMutatorsClosure` does not hold after the BONES
  shortcut. The source returns success there without checking VELOCITY, VRS
  or the mutator count; `Mutators.BonesWithoutBuffersSkipsClosure` exhibits
  this.
- `Mutators.FindBuiltinMutatorsClosure` and `RayTracing.RtMutationIff` state
  count equalities, not that every program mutator is set. The source compares
  only the numbers and does not reject a mutator listed twice, so a repeated
  one can stand in for one nobody sets (`Mutators.RepeatedMutatorAccepted`,
  `RayTracing.RtRepeatedMutatorAccepted`).
- `Material.MaterialResource.GetOrCreateVariant`: requires the key's pass
  and clamped LOD to lie inside the matrix. The source indexes a fixed-size
  array there and does not check. Its assertions on the key become
  preconditions too.
- `Mutators.FindBuiltinMutatorsSpec` reads a bone binding still equal to
  `MAX_U32` as missing, as the source's test does, also when a buffer is
  bound at `MAX_U32`.
- `tryFindMutator` belongs to the shader program resource, which is not part
  of this model. `ShaderBinary.TryFindMutator` takes it to return the first
  mutator with the name (`ShaderBinary.TryFindMutatorFirst`).
- `tryFindVariable` is declared in the material header, which is not part of
  this model. `Registry.TryFindVariable` takes it to return the first variable
  with the name. This matters for `parseInputs`, because an opaque or a
  constant may share its name with an earlier variable.
- `MaterialVariable::inBlock()` and the `MAX_U32` "unset" markers are declared
  in the material header, which is not part of this model. `Registry.InBlock`
  takes a block field to be a variable that is neither a constant nor an opaque
  resource. `None` stands for an unset index, binding or value.
- `Registry.CreateVarsChecks` states the count equality the source checks, not
  that every per-instance field is fully populated. The source compares only
  the two counts, so a field without its last element is accepted when
  another field stands in for it (`Registry.PartialInstanceArrayAccepted`).
- `src/anki/renderer/*` and the headers beside the core file: they are
  rendering plumbing and declarations outside the material resolver.
