# ColonistBarAdjuster, modelled in Dafny

ColonistBarAdjuster is a RimWorld mod that lets the player tune the colonist
bar at the top of the screen. It has eight settings:

- horizontal and vertical offset;
- base scale;
- colonists per row and maximum number of rows;
- horizontal and vertical margin;
- whether the group background is hidden.

The mod applies them through four Harmony patches on the game's own methods:

- **FindBestScale:** a prefix that replaces the game's search for the bar's scale.
- **GetDrawLoc and CalculateDrawLocs:** a transpiler that swaps the hard-coded margins for calls to the settings. On GetDrawLoc it also adds the offsets.
- **DrawGroupFrame:** a transpiler that skips the group frame when the background is hidden.
- **DrawColonist:** a transpiler that multiplies the portrait size by the base scale.

The settings object persists the values through the game's Scribe system. It also draws the settings window, using a small helper library, ControlsBuilder. That library lays out rows and caches the text being typed into number fields.

The project has one module per component:

| module | file | models |
|---|---|---|
| `Instructions` | instructions.dfy | IL instructions, opcodes and symbolic member references |
| `MarginPatch`, `MarginRewrite` | margin_patch.dfy, margin_rewrite.dfy | the margin/offset transpiler, and a declarative description of its output |
| `GroupFramePatch` | group_frame_patch.dfy | the DrawGroupFrame transpiler |
| `ColonistPatch` | colonist_patch.dfy | the DrawColonist transpiler |
| `ScalePatch` | scale_patch.dfy | the FindBestScale prefix |
| `Util`, `ControlsBuilder` | util.dfy, controls_builder.dfy | change-only assignment, the row builder with its buffer cache, `ValueSetting` |
| `AdjusterSettings` | adjuster_settings.dfy | the settings class: setters, ApplyChanges, ExposeData, the settings window |
| `Wrappers` | wrappers.dfy | `Option` |

How the pieces are modelled:

- **Transpilers** are methods over `seq<Instruction>`. Each is proved equal to a
  function that states the output. Lemmas then say what that output is:
  - its length;
  - where each input instruction lands;
  - that labels are preserved;
  - a round trip back to the input.
- **The settings object** is a class with the eight fields. The game is a `Host`
  object holding the scene flags and a count of colonist-bar recaches. Every setter
  and the window state the new values and how many recaches they cause.
- **Scribe** is a mode: saving, loading from a record, or inactive. The save/load
  round trip is proved.

## Model

| member | source | states |
|---|---|---|
| `Instructions.Emit` | Source/HarmonyPatches.cs:157 | a new instruction has the given opcode and operand and no labels |
| `MarginPatch.IsBaseSize` | Source/HarmonyPatches.cs:98-102 | the head of a margin pattern: an `ldsflda` of the field `BaseSize` declared by `RimWorld.ColonistBar` |
| `MarginPatch.IsMargin` | Source/HarmonyPatches.cs:109-112 | an `ldc.r4` whose float constant equals the expected default margin |
| `MarginPatch.IsVectorCtor` | Source/HarmonyPatches.cs:116-119 | a `newobj` of the constructor (`.ctor`) declared by `UnityEngine.Vector2` |
| `MarginPatch.VectorXorY` | Source/HarmonyPatches.cs:103-108 | the component name is returned exactly for an `ldfld` of a `Vector2` field, and is that field's name |
| `MarginPatch.MarginFor` | Source/HarmonyPatches.cs:130-142 | `x` maps to the default horizontal margin 24 and the MarginX getter; `y` maps to 32 and the MarginY getter; any other name is skipped |
| `MarginPatch.Substitute` | Source/HarmonyPatches.cs:146-147 | the replaced constant becomes a call of the getter and keeps its labels |
| `MarginPatch.Margins` | Source/HarmonyPatches.cs:124-149 | the margin block moves the list and the index exactly as the single-step description `MarginBlock` does, including the `continue` on an unknown component |
| `MarginPatch.Offsets` | Source/HarmonyPatches.cs:152-166 | the offset block inserts the four instructions and moves the index as `OffsetBlock` does |
| `MarginPatch.ColonistMarginAdjustmentTranspiler` | Source/HarmonyPatches.cs:93-173 | the output list is `PatchedFrom(instructions, 0, isGetDrawLoc)`, the streaming description of the loop in terms of the original positions |
| `MarginPatch.PatchedLabels` | Source/HarmonyPatches.cs:121-167 | the patched list carries the same labels, in the same order, as the input, so no branch target is lost |
| `MarginPatch.PatchedLength` | Source/HarmonyPatches.cs:121-167 | outside GetDrawLoc the length is unchanged; inside it the list never shrinks |
| `MarginPatch.TurnLength` | Source/HarmonyPatches.cs:143-165 | one loop turn emits as many instructions as it consumes, or four more when it inserts the offsets |
| `MarginRewrite.RewrittenChanges` | Source/HarmonyPatches.cs:124-149 | an instruction is changed exactly at a margin site; there its constant is the default margin of its component and it becomes a call of that component's getter; labels are kept |
| `MarginRewrite.OffsetSitesKept` | Source/HarmonyPatches.cs:152-155 | rewriting the margins neither creates nor removes an offset site |
| `MarginRewrite.ExpandFacts` | Source/HarmonyPatches.cs:152-166 | expanding the offset sites adds four instructions per site, keeps all labels, and changes nothing outside GetDrawLoc |
| `MarginRewrite.ExpandPlaces` | Source/HarmonyPatches.cs:152-166 | every instruction keeps its relative order after expansion, and each offset site ends up wrapped in `call OffsetX; add; …; call OffsetY; add` |
| `MarginRewrite.PatchedIsRewrite` | Source/HarmonyPatches.cs:121-167 | when no pattern starts inside a slot the index jumps over, the loop's output equals "rewrite every margin site, then expand every offset site"; outside GetDrawLoc it equals the margin rewrite alone |
| `MarginRewrite.QuirkShadowedHead` | Source/HarmonyPatches.cs:143 | a margin pattern that starts where the index jumps (`i += 2` lands on the margin slot) is not patched, though it is a margin site |
| `MarginRewrite.QuirkShadowedSite` | Source/HarmonyPatches.cs:160-165 | of two adjacent offset sites only the first is wrapped, because the index skips past the `newobj` |
| `GroupFramePatch.Prologue` | Source/HarmonyPatches.cs:179-185 | the first two instructions are the HideBackground getter call and a `brtrue` to the end label |
| `GroupFramePatch.Marked` | Source/HarmonyPatches.cs:189-190 | a `ret` gets the end label appended; every other instruction passes unchanged |
| `GroupFramePatch.MarkReturns` | Source/HarmonyPatches.cs:187-193 | each body instruction is marked in place, and the length is kept |
| `GroupFramePatch.DrawGroupFrameTranspiler` | Source/HarmonyPatches.cs:175-194 | with the default label that `new Label()` gives, the output is the prologue followed by the body with every `ret` marked |
| `GroupFramePatch.EndLabelTargets` | Source/HarmonyPatches.cs:177-192 | for any label, even one the body already carries, an output instruction carries it if and only if it is a body instruction that is a `ret` or already had the label |
| `GroupFramePatch.DefaultLabelCollision` | Source/HarmonyPatches.cs:177 | a body that already carries the default label keeps it on a non-`ret` instruction, so the `brtrue` can land there too |
| `GroupFramePatch.OutputShape` | Source/HarmonyPatches.cs:187-193 | the output is two longer than the input; each body instruction sits two places later with its opcode and operand; only `ret` gains a label |
| `GroupFramePatch.EndLabelOnReturns` | Source/HarmonyPatches.cs:177-190 | for a label not already on the body, an output instruction carries it if and only if it is a `ret` of the body |
| `GroupFramePatch.UnmarkRoundTrip` | Source/HarmonyPatches.cs:187-193 | dropping the prologue and each `ret`'s last label gives back the input |
| `ColonistPatch.IsPawnTextureSizeLoad` | Source/HarmonyPatches.cs:206 | an `ldsfld` of a field named `PawnTextureSize`; only the field's name is compared, not its declaring type |
| `ColonistPatch.Scaled` | Source/HarmonyPatches.cs:201-211 | a `PawnTextureSize` load is followed by the BaseScale getter call and `Vector2 * float`; anything else passes alone |
| `ColonistPatch.DrawColonistTranspiler` | Source/HarmonyPatches.cs:196-215 | the output is each instruction's piece, in order; the error is logged if and only if no load was found |
| `ColonistPatch.NoOccurrences` | Source/HarmonyPatches.cs:206-214 | the count of loads is zero exactly when no instruction is a `PawnTextureSize` load |
| `ColonistPatch.ScaleLoadsLength` | Source/HarmonyPatches.cs:199-211 | the output is the input plus two instructions per load |
| `ColonistPatch.ScaleLoadsAt` | Source/HarmonyPatches.cs:199-211 | each input instruction lands two places later per earlier load, and every load, not only the first, is followed by the two calls |
| `ColonistPatch.OccurrencesKept` | Source/HarmonyPatches.cs:206-209 | the inserted calls are not loads, so the output has as many loads as the input |
| `ColonistPatch.PatchedTwice` | Source/HarmonyPatches.cs:196-212 | patching twice inserts the calls twice: the patch is not idempotent |
| `ColonistPatch.UnscaleRoundTrip` | Source/HarmonyPatches.cs:199-211 | removing the two instructions after each load gives back the input |
| `ScalePatch.CeilDiv` | Source/HarmonyPatches.cs:66 | the ceiling of a/b: the least q with a <= b*q |
| `ScalePatch.CheckGroups` | Source/HarmonyPatches.cs:58-75 | the check succeeds exactly when no group of an entry needs more rows than allowed. The one-row flag is exactly "every group examined before the loop stopped needs at most one row" |
| `ScalePatch.ExaminedUpTo` | Source/HarmonyPatches.cs:69-73 | after a break at entry i the attempt fails, and the one-row flag covers entries 0..i only |
| `ScalePatch.ExaminedAll` | Source/HarmonyPatches.cs:61-75 | when no group breaks the loop, the one-row flag covers every entry |
| `ScalePatch.ScaleAt` | Source/HarmonyPatches.cs:81 | the k-th scale keeps the sign of the base scale: positive stays positive, negative stays negative, nonzero stays nonzero |
| `ScalePatch.RowCapacity` | Source/HarmonyPatches.cs:83-85 | the colonists per row after shrinking is the floor of the total width over the width per colonist: n*w <= t < (n+1)*w |
| `ScalePatch.FirstFit` | Source/HarmonyPatches.cs:52-86 | the attempt returned is accepted and every earlier attempt is rejected; None means every attempt up to the bound is rejected |
| `ScalePatch.FindBestScalePrefix` | Source/HarmonyPatches.cs:47-90 | the original method is always skipped. The loop ends exactly when some attempt is accepted, and then returns the first accepted attempt's scale, colonists per row and one-row flag |
| `ScalePatch.FirstAttempt` | Source/HarmonyPatches.cs:49-50 | when the configured values are accepted, the result is the base scale with the configured colonists per row |
| `ScalePatch.ScalesDecrease` | Source/HarmonyPatches.cs:81 | with a positive base scale each rejected attempt strictly shrinks the scale, and it stays positive |
| `ScalePatch.FuelIrrelevant` | Source/HarmonyPatches.cs:52-86 | once an accepted attempt is found, a larger bound on the attempts gives the same answer |
| `ScalePatch.MoreRowsAccepted` | Source/HarmonyPatches.cs:56-75 | an attempt accepted under some MaxNumberOfRows is accepted under any higher one, since the limit is used only in the comparison at line 69 |
| `ScalePatch.FewerRowsLaterFit` | Source/HarmonyPatches.cs:52-86 | when a lower MaxNumberOfRows accepts some attempt, the higher one accepts one too, and no later |
| `ScalePatch.FewerRowsNoLargerScale` | Source/HarmonyPatches.cs:49-88 | with a positive base scale, lowering MaxNumberOfRows never makes the returned scale larger |
| `ScalePatch.AcceptedOnlyOneRow` | Source/HarmonyPatches.cs:54-68 | for an accepted attempt the one-row flag holds exactly when every group needs at most one row |
| `Util.SetValue` | Source/ControlsBuilder.cs:356-363 | an equal value leaves the storage alone and invokes nothing; a different value is stored; the callback runs exactly when the value differs and a callback exists, and it receives the new value |
| `ControlsBuilder.GetControlWidth` | Source/ControlsBuilder.cs:262-263 | three controls, each with its four-pixel margin, fill the view width |
| `ControlsBuilder.Builder.Begin` | Source/ControlsBuilder.cs:40-57 | the view width is the rect's width less the scrollbar |
| `ControlsBuilder.Builder.End` | Source/ControlsBuilder.cs:58-68 | the next view height is the laid-out height plus one row; the buffer cache is untouched |
| `ControlsBuilder.Builder.CreateText` | Source/ControlsBuilder.cs:70-97 | a label row advances the layout by one row height |
| `ControlsBuilder.Builder.GetValueBuffer` | Source/ControlsBuilder.cs:270-292 | a cached buffer of the right type is reused; its text is cleared if and only if the value changed. Otherwise a fresh buffer replaces the entry, and an error is reported to the game's log if and only if an entry of the wrong type was there (the log shows it once per key hash). No other key changes |
| `ControlsBuilder.Builder.ResetValueBuffers` | Source/ControlsBuilder.cs:265-266 | the cache is emptied |
| `ControlsBuilder.Builder.CreateNumeric` | Source/ControlsBuilder.cs:99-152 | the row is highlighted if and only if the value differs from the default. Reset on a modified value gives the default and drops the key's buffer; otherwise the result is the edited value and the key's buffer holds the typed text. The layout advances one row |
| `ControlsBuilder.Builder.CreateCheckbox` | Source/ControlsBuilder.cs:154-187 | the row is highlighted if and only if the value differs from the default; reset on a modified value gives the default, otherwise the clicked state |
| `ControlsBuilder.Builder.CreateDropdown` | Source/ControlsBuilder.cs:189-238 | the row is highlighted if and only if the wrapped value differs from the default; reset on a modified value writes the default back to the wrapper; the wrapper's value is returned |
| `ControlsBuilder.ValueSetting.constructor` | Source/ControlsBuilder.cs:326-341 | the value is assigned before the callback, so construction never invokes it |
| `ControlsBuilder.ValueSetting.SetValue` | Source/ControlsBuilder.cs:319-323 | the value is set, and the callback is invoked with it once, only on a real change |
| `AdjusterSettings.Host.CheckRecacheEntries` | Source/ColonistBarAdjusterSettings.cs:219-220 | a dirty bar rebuilds its entries once and is clean afterwards |
| `AdjusterSettings.ColonistBarAdjusterSettings.constructor` | Source/ColonistBarAdjusterSettings.cs:15-22 | every setting starts at its default |
| `AdjusterSettings.ColonistBarAdjusterSettings.ApplyChanges` | Source/ColonistBarAdjusterSettings.cs:211-222 | the bar recaches exactly once when in the play scene with a visible bar, and never otherwise; the scene is untouched |
| `AdjusterSettings.ColonistBarAdjusterSettings.SetOffsetX` | Source/ColonistBarAdjusterSettings.cs:26-31 | only OffsetX changes; the bar recaches once, leaving it clean, exactly when the value differs and the bar reacts; the scene flags are untouched |
| `AdjusterSettings.ColonistBarAdjusterSettings.SetOffsetY` | Source/ColonistBarAdjusterSettings.cs:32-37 | only OffsetY changes; the bar recaches once, leaving it clean, exactly when the value differs and the bar reacts; the scene flags are untouched |
| `AdjusterSettings.ColonistBarAdjusterSettings.SetBaseScale` | Source/ColonistBarAdjusterSettings.cs:38-43 | only BaseScale changes; the bar recaches once, leaving it clean, exactly when the value differs and the bar reacts; the scene flags are untouched |
| `AdjusterSettings.ColonistBarAdjusterSettings.SetColonistsPerRow` | Source/ColonistBarAdjusterSettings.cs:44-49 | only ColonistsPerRow changes; the bar recaches once, leaving it clean, exactly when the value differs and the bar reacts; the scene flags are untouched |
| `AdjusterSettings.ColonistBarAdjusterSettings.SetMaxNumberOfRows` | Source/ColonistBarAdjusterSettings.cs:50-55 | only MaxNumberOfRows changes; the bar recaches once, leaving it clean, exactly when the value differs and the bar reacts; the scene flags are untouched |
| `AdjusterSettings.ColonistBarAdjusterSettings.SetMarginX` | Source/ColonistBarAdjusterSettings.cs:56-61 | only MarginX changes; the bar recaches once, leaving it clean, exactly when the value differs and the bar reacts; the scene flags are untouched |
| `AdjusterSettings.ColonistBarAdjusterSettings.SetMarginY` | Source/ColonistBarAdjusterSettings.cs:62-67 | only MarginY changes; the bar recaches once, leaving it clean, exactly when the value differs and the bar reacts; the scene flags are untouched |
| `AdjusterSettings.ColonistBarAdjusterSettings.SetHideBackground` | Source/ColonistBarAdjusterSettings.cs:68-73 | only HideBackground changes; the bar recaches once, leaving it clean, exactly when the value differs and the bar reacts; the scene flags are untouched |
| `AdjusterSettings.ColonistBarAdjusterSettings.SetSetting` | Source/ColonistBarAdjusterSettings.cs:26-73 | assigning through a property, by key: only that key's field changes, with one recache exactly on a real change |
| `AdjusterSettings.ColonistBarAdjusterSettings.ExposeValue` | Source/ColonistBarAdjusterSettings.cs:177-179 | one read-look-assign step: the new values and written record are one `ExposeStep`, and the recaches so far equal the real changes so far |
| `AdjusterSettings.ColonistBarAdjusterSettings.ExposeData` | Source/ColonistBarAdjusterSettings.cs:173-207 | the values and the written record are those of looking up the eight keys in order; the bar recaches once per real change plus once at the end, when it reacts |
| `AdjusterSettings.ColonistBarAdjusterSettings.Row` | Source/ColonistBarAdjusterSettings.cs:85-163 | one row of the window: it advances the layout one row, assigns that row's value through its property, or does nothing once a row has thrown |
| `AdjusterSettings.ColonistBarAdjusterSettings.NumericRow` | Source/ColonistBarAdjusterSettings.cs:85-154 | a numeric row advances the layout one row and assigns its value. Its buffer is forgotten exactly when reset is clicked on a modified value, and otherwise cached under the setting's name; no other buffer key changes |
| `AdjusterSettings.ColonistBarAdjusterSettings.DoSettingsWindowContents` | Source/ColonistBarAdjusterSettings.cs:77-169 | the rows before a throw are applied in order and the rest skipped. End always runs, so the next view height is the rows laid out plus one. The bar recaches once per real change |
| `AdjusterSettings.Look` | Source/ColonistBarAdjusterSettings.cs:178 | definition of the Scribe loading rule: saving or inactive leaves the value alone; loading reads the record, falling back to the default. Its one derived fact: a loaded value has the default's type |
| `AdjusterSettings.Loaded` | Source/ColonistBarAdjusterSettings.cs:178 | a missing key loads the default, and a loaded value always has the default's type |
| `AdjusterSettings.Written` | Source/ColonistBarAdjusterSettings.cs:178 | definition of the Scribe saving rule: saving writes a value exactly when it differs from the default; other modes write nothing |
| `AdjusterSettings.LoadedValues` | Source/ColonistBarAdjusterSettings.cs:177-204 | loading gives each field the record's entry under its name, or its default |
| `AdjusterSettings.ChangedCount` | Source/ColonistBarAdjusterSettings.cs:26-73 | the number of fields that differ is zero exactly when the two setting states are equal |
| `AdjusterSettings.Position` | Source/ColonistBarAdjusterSettings.cs:85-163 | each setting has one row among the eight; the checkbox is the last |
| `AdjusterSettings.RowValue` | Source/ColonistBarAdjusterSettings.cs:85-163 | a row's result has the type of the field it is assigned to |
| `AdjusterSettings.RowsDone` | Source/ColonistBarAdjusterSettings.cs:83-168 | fewer than eight rows are laid out exactly when one throws |
| `AdjusterSettings.OrderFacts` | Source/ColonistBarAdjusterSettings.cs:177-204 | the eight settings are looked up once each, under eight distinct save keys |
| `AdjusterSettings.ExposeInOrder` | Source/ColonistBarAdjusterSettings.cs:177-204 | the eight look-and-assign steps compose to one pass over the keys in order |
| `AdjusterSettings.ExposeChanges` | Source/ColonistBarAdjusterSettings.cs:177-204 | the setters' recache count over a pass is the number of fields that end up different; fields not looked up keep their values |
| `AdjusterSettings.ExposeKeeps` | Source/ColonistBarAdjusterSettings.cs:177-204 | outside loading, a pass assigns every field its own value and causes no recache; when inactive it writes nothing |
| `AdjusterSettings.SaveWrites` | Source/ColonistBarAdjusterSettings.cs:177-204 | saving writes exactly the looked-up keys whose value differs from the default, with that value, and no other name |
| `AdjusterSettings.LoadReads` | Source/ColonistBarAdjusterSettings.cs:177-204 | loading gives each looked-up field the record's entry or its default, leaves the rest alone, and writes nothing |
| `AdjusterSettings.SavedRecordContents` | Source/ColonistBarAdjusterSettings.cs:177-204 | the saved record holds exactly the non-default settings under their names |
| `AdjusterSettings.SavedDefaults` | Source/ColonistBarAdjusterSettings.cs:177-204 | saving the defaults writes nothing |
| `AdjusterSettings.SaveLoadRoundTrip` | Source/ColonistBarAdjusterSettings.cs:173-207 | loading what was saved gives back every setting |
| `AdjusterSettings.ExposeModes` | Source/ColonistBarAdjusterSettings.cs:173-207 | loading yields the record's values; saving keeps the values and writes the saved record; inactive changes nothing. In every mode, the recaches equal the fields changed |
| `AdjusterSettings.RowsFields` | Source/ColonistBarAdjusterSettings.cs:85-163 | after n rows, each of the first n settings holds its row's result and the rest are untouched |
| `AdjusterSettings.RowsChanges` | Source/ColonistBarAdjusterSettings.cs:85-163 | the recaches caused by the rows equal the number of settings that ended up different |
| `AdjusterSettings.IdleFrame` | Source/ColonistBarAdjusterSettings.cs:85-163 | a frame where the user edits and clicks nothing leaves every setting alone and causes no recache |
| `AdjusterSettings.ResetAllFrame` | Source/ColonistBarAdjusterSettings.cs:85-163 | clicking reset on every row brings back all defaults, with one recache per setting that was modified |

## Left out

- Drawing: IMGUI drawing, colours, fonts, tooltips, text anchors and the scroll position are not modelled. A widget's answer is an input of the row that draws it: the edited number and typed text, the checkbox state, whether reset was clicked.
- Clamping: `Widgets.TextFieldNumeric` clamps to the row's min/max. That is game code, so the edited value is an input and the bounds are not modelled.
- Floats are modelled as mathematical reals. This leaves out:
  - NaN and negative zero in the equality of `Util.SetValue`;
  - the single-precision rounding of `0.95f` and of the products;
  - the `int` overflow of `Mathf.FloorToInt`.
- ScalePatch.FindBestScalePrefix: the source loops with `while (true)` until an attempt is accepted. The model runs at most `fuel` attempts, and None means the bound was reached. FuelIrrelevant shows that the bound does not change a found answer.
- ScalePatch.FindBestScalePrefix: requires a nonzero base scale and a nonzero width per colonist (`Sizable`). The source divides by them, and a zero gives a float infinity or NaN that reals cannot express.
- Game oracles in ScalePatch:
  - `TryDistributeHorizontalSlotsBetweenGroups` is an oracle function in `Finder`;
  - `ColonistBar.BaseSize.x` and `MaxColonistBarWidth` are fields of `Finder`;
  - the entries are given as their group numbers.
- Game state in AdjusterSettings:
  - `GenScene.InPlayScene`, `Find.ColonistBar` and its `Visible` are flags of `Host`;
  - `CheckRecacheEntries` is a counter of rebuilds;
  - a missing bar is `barPresent == false`.
- Scribe: `Scribe_Values.Look` is modelled by the Scribe mode and a record of saved values. XML, `forceSave` and `base.ExposeData()` are not modelled.
- AdjusterSettings.ColonistBarAdjusterSettings.DoSettingsWindowContents: an exception escaping a row is modelled by `throwsAt`, the row that throws. A throwing row changes nothing, and the rows after it are skipped. End still runs. Where exactly inside the row game code throws is not modelled.
- AdjusterSettings.ColonistBarAdjusterSettings.DoSettingsWindowContents: does not state which value-buffer keys remain after the whole window. NumericRow states each row's effect on them, but carrying that across the eight rows makes the proof too expensive.
- AdjusterSettings.ColonistBarAdjusterSettings.DoSettingsWindowContents: the rows are given `inRect.width`, as the source does, and not the view width that `Begin` returns. Only the drawing depends on it.
- GroupFramePatch.EndLabelOnReturns: assumes the label is not already on the body. The source's `new Label()` does not ensure that, since it is the default label value; EndLabelTargets states the general case.
- MarginRewrite.PatchedIsRewrite: the declarative description holds for lists where no pattern starts inside a slot that the index jumps over (`Unshadowed`). The two quirk lemmas show what happens otherwise.
- Mutation in place: `CodeInstruction` objects are values. The in-place mutation of a `ret`'s label list and of a margin constant's opcode and operand is modelled as building a new instruction. The iterator transpilers are methods that return the whole sequence.
- ControlsBuilder.Builder.CreateDropdown: the menu's callbacks, which set the wrapper after the frame, are not modelled. A null wrapper, which the source dereferences, is not modelled either.
- Types and nulls:
  - `ValueBuffers` holds buffers of two numeric types (`float`, `int`), told apart by `NumValue`;
  - other C# types are not modelled;
  - a null value of `T` in `Util.SetValue` is one more value of `T`.
- Registration: Harmony patch registration (the static constructor) and the reflection it uses are not modelled. Member references are symbolic tags.
- ControlsBuilder.Builder.GetValueBuffer: `errorReported` says that `Log.ErrorOnce` is called, not that a line is written. The game drops a repeat for a key hash it has logged before; that per-hash memory is not modelled.
- Logging: log output is a boolean "an error was reported".
- ColonistBarAdjuster.cs is not part of this model. The static getters the patched code calls are symbolic references.
