# bevy_lunex: a verified model of the layout core

bevy_lunex is a retained-mode UI layout engine for the Bevy game engine.
A UI is a tree of nodes addressed by `/`-separated paths. Each node's
rectangle is computed from its parent's by a layout: a boundary between two
points, a window at a position with a size, or a solid box of fixed aspect
ratio fitted into the parent. Positions and sizes are written in units:
absolute, percentages of the parent, font sizes and viewport fractions. The
repository holds four generations of this core side by side, and each one is
a module family here, because their rules differ.

- The oldest generation, `src/`, has `Hierarchy`/`Branch` trees with
  permanent and removable branches, `Widget` paths, Window/Relative/Solid
  containers and a grid generator. It is modelled in `OldCore`,
  `OldContainer`, `OldWidget`, `OldGrid` and `OldGeneral`. Its later
  `src/core/` form is modelled in `LegacyCore`, `LegacyContainer`,
  `LegacyWidget` and `PathUtil`.
- `bevy_lunex_core` with `bevy_lunex_utility` and `bevy_lunex_ui` has the
  `UiTree` of numbered branches with name shortcuts, widgets, containers,
  grids, elements and a sprite cursor. It is modelled in `CoreTree`,
  `CoreWidget`, `CoreContainer`, `UtilityGrid`, `UtilityElement` and
  `UiCursor`.
- `lunex_engine` with `bevy_lunex` has the `UiValue` and `NodeSize` unit
  algebras, the Boundary/Window/Solid layouts, the declarative and
  parametric layouts, the name-keyed `Node` tree, the top-down compute pass,
  `UiAnimation` states and two cursors. It is modelled in `EngineValue`,
  `EngineCommonValue`, `EngineSize`, `EngineLayout`, `EngineDeclarative`,
  `EngineParametric`, `EngineStructs`, `EngineNodes`, `EngineTraits`,
  `EngineCommonTraits`, `EngineCompute`, `LunexStates`, `LunexStructs`,
  `InteractionCursor` and `LogicCursor`.
- The newest generation, `crate/`, has the eight-unit `UiValue`,
  centre-relative layouts, `UiHover`, the text animator and the cursor icon
  queue. It is modelled in `CrateUnits`, `CrateLayouts`, `CrateStates`,
  `CrateTextAnim` and `CrateCursor`.
- Two example programs carry logic of their own: the parameter parser of the
  nesting prototype (`NestingParameter`) and the theme manager of the nesting
  example (`NestingDiv`).

Some modules are shared. `Base` holds vectors and `Option`, and `Slots`
holds the per-slot option rules that every unit macro applies. `Strings`
holds the Rust string operations the path code relies on (`split`,
`split_once`, `rsplit_once`, `trim`, `parse::<usize>`). `CursorRequests`
holds the "replace only on a strictly higher priority" rule that three
cursors share.

The model follows these conventions:

- `f32` is a mathematical real, with no rounding, NaN or infinity.
- Rust's `%` on floats is written as a truncated remainder.
- `usize` bounds are explicit where an id or a count could overflow.
- Strings are sequences of characters.
- Values the source copies become datatypes and functions.
- Structs whose methods update fields in place become classes. Each class
  has a `State()` function, and each method's contract ties the new state to
  a specification function of the old one.
- Tree descents through `&mut` children are modelled on values: a lookup
  returns the path of ids or names it took, and a write rebuilds the tree
  along that path.
- Errors are datatypes. A `Result` is returned wherever the source returns
  one.
- Each layout, tree operation and state step is proved against the rule its
  source states: aspect ratio, fit and fill bounds, centring, id allocation,
  round trips of paths, clamping of progress to [0, 1], and so on.

Where the source and its documentation disagree, the model follows the code
as written. Where the code is evidently wrong, it models both the written and
the corrected behaviour; see "## Findings".

## Model

| member | source | states |
|---|---|---|
| EngineValue.New | crates/lunex_engine/src/core/value.rs:43-49 | `UiValue::new()` has all nine unit slots absent |
| EngineValue.FromUnit | crates/lunex_engine/src/core/value.rs:122-127 | converting one unit sets exactly that unit's slot to its coefficient and leaves the other eight absent |
| EngineValue.Add | crates/lunex_engine/src/core/value.rs:51-62 | slot-wise sum: both present gives the sum, one present keeps that one, both absent stays absent |
| EngineValue.Neg | crates/lunex_engine/src/core/value.rs:68-77 | negation keeps which slots are present and negates each present coefficient |
| EngineValue.Sub | crates/lunex_engine/src/core/value.rs:78-89 | subtraction as written: both present gives the difference, left-only keeps the left, right-only copies the right coefficient without negating it |
| EngineValue.SubCorrected | crates/lunex_engine/src/core/value.rs:78-89 | intended subtraction: as `Sub`, except that a right-only slot holds the negated coefficient |
| EngineValue.Mul | crates/lunex_engine/src/core/value.rs:95-108 | slot-wise product: a slot is present exactly when both sides have it, holding the product |
| EngineValue.Scale | crates/lunex_engine/src/core/value.rs:193-204 | multiplying by a float scales every present slot and keeps absent ones absent |
| EngineValue.AddUnit | crates/lunex_engine/src/core/value.rs:129-143 | adding a unit adds to its slot when present, sets it to the coefficient when absent, and changes no other slot |
| EngineValue.SubUnit | crates/lunex_engine/src/core/value.rs:152-166 | subtracting a unit subtracts from its slot when present and sets it to `+x` (not `-x`) when absent; no other slot changes |
| EngineValue.SubUnitIsSub | crates/lunex_engine/src/core/value.rs:152-166 | subtracting one unit is subtracting the one-slot value, flaw included; the corrected subtraction would leave `-x` in a slot that was absent |
| EngineValue.MulUnit | crates/lunex_engine/src/core/value.rs:175-183 | multiplying by a unit scales its slot only when present; otherwise the value is unchanged |
| EngineValue.CrossAdd | crates/lunex_engine/src/core/value.rs:533-541 | `Unit1(x) + Unit2(y)` of different units holds `x` and `y` in their slots and nothing else |
| EngineValue.CrossSub | crates/lunex_engine/src/core/value.rs:542-550 | `Unit1(x) - Unit2(y)` of different units holds `x` and `-y` and nothing else |
| EngineValue.GetComponent | crates/lunex_engine/src/core/value.rs:213-227 | `get_x`/`get_y` keep exactly the present slots and take the chosen component of each |
| EngineValue.WithComponent | crates/lunex_engine/src/core/value.rs:230-259 | `with_x`/`set_x`: every slot `other` has gets that component replaced, or a fresh vector with that component when it was absent; other slots are untouched |
| EngineValue.FromReal | crates/lunex_engine/src/core/value.rs:794-798 | a plain float converts to the `Ab` unit of that float |
| EngineValue.EvaluateUnit | crates/lunex_engine/src/core/value.rs:977-989 | a single unit evaluates to its coefficient times that unit's weight (scale for Ab, parent/100 for Rl/Rw/Rh, font for Em, viewport/100 for Vp/Vh, 0 for Sp and Vw, which evaluation never reads) |
| EngineValue.EvaluateWeighted | crates/lunex_engine/src/core/value.rs:977-989 | f32 evaluation is the sum over the slots of coefficient times unit weight |
| EngineValue.EvaluateAdd | crates/lunex_engine/src/core/value.rs:51-62 | the evaluation of a sum is the sum of the evaluations |
| EngineValue.NegNeg | crates/lunex_engine/src/core/value.rs:68-77 | negating twice gives the value back |
| EngineValue.EvaluateNeg | crates/lunex_engine/src/core/value.rs:68-77 | a negated value evaluates to the negated evaluation |
| EngineValue.EvaluateScale | crates/lunex_engine/src/core/value.rs:193-204 | multiplying by a float multiplies the evaluation by it |
| EngineValue.EvaluateSubCorrected | crates/lunex_engine/src/core/value.rs:78-89 | the corrected subtraction evaluates to the difference of the evaluations |
| EngineValue.SubAgreesWhenLeftCovers | crates/lunex_engine/src/core/value.rs:78-89 | the written and the corrected subtraction agree exactly when every right-only slot holds 0 |
| EngineValue.SubUnnegatedCounterexample | crates/lunex_engine/src/core/value.rs:78-89 | `new() - Rl(3)` keeps `rl = 3` and evaluates to +3 against a parent of 100, while the difference of the evaluations is -3 |
| EngineValue.CrossAddIsAdd | crates/lunex_engine/src/core/value.rs:533-541 | the cross-unit sum equals the value sum of the two single units |
| EngineValue.CrossSubIsSubCorrected | crates/lunex_engine/src/core/value.rs:542-550 | the cross-unit difference equals the corrected difference of the two single units; the written `Sub` keeps `y` un-negated |
| EngineValue.SubCorrectedIsAddNeg | crates/lunex_engine/src/core/value.rs:68-89 | the corrected subtraction is adding the negation; the written one differs from it on `new() - Rl(3)` |
| EngineValue.WithXGet | crates/lunex_engine/src/core/value.rs:213-236 | reading x after `with_x` gives the new coefficients where `other` has them and the old ones elsewhere; y is kept, or 0 in a slot `with_x` created |
| EngineValue.WithYGet | crates/lunex_engine/src/core/value.rs:221-244 | the same for `with_y`, with the axes swapped |
| EngineValue.FromPairAxes | crates/lunex_engine/src/core/value.rs:761-768 | `(a, b).into()` has x from `a` and y from `b`, with 0 on the other axis of a slot only one side has |
| EngineValue.SplatAxes | crates/lunex_engine/src/core/value.rs:819-826 | converting an f32 value to a Vec2 value puts each coefficient on both axes and keeps exactly the present slots |
| EngineValue.FromUnitSplatIsSplat | crates/lunex_engine/src/core/value.rs:505-509 | converting a one-float unit to Vec2 equals converting it to an f32 value and splatting that |
| EngineValue.Evaluate2Axes | crates/lunex_engine/src/core/value.rs:990-1002 | Vec2 evaluation evaluates each axis on its own, on both axes weighing rw by the parent's x, rh by its y, vp by the viewport's x and vh by its y, and rl by the parent component-wise |
| EngineValue.Evaluate2Add | crates/lunex_engine/src/core/value.rs:990-1002 | Vec2 evaluation of a sum is the sum of the evaluations |
| EngineValue.Evaluate2SubCorrected | crates/lunex_engine/src/core/value.rs:990-1002 | Vec2 evaluation of the corrected difference is the difference of the evaluations |
| EngineValue.Evaluate2Scale | crates/lunex_engine/src/core/value.rs:990-1002 | Vec2 evaluation of a value times a float is the evaluation times that float |
| EngineValue.Evaluate2Unit | crates/lunex_engine/src/core/value.rs:990-1002 | a single Vec2 unit evaluates, per axis, to its component times that axis's weight |
| EngineValue.Evaluate2New | crates/lunex_engine/src/core/value.rs:990-1002 | the empty value evaluates to the zero vector |
| EngineValue.Evaluate | crates/lunex_engine/src/core/value.rs:978-989 | an all-zero context (scale, parent, viewport and font size) evaluates to 0; what each slot contributes is stated by EngineValue.EvaluateWeighted and EngineValue.EvaluateUnit, sp and vw contributing nothing |
| EngineValue.Evaluate2 | crates/lunex_engine/src/core/value.rs:991-1002 | an all-zero context evaluates to the zero vector; each axis is stated by EngineValue.Evaluate2Axes |
| CrateUnits.New | crate/src/units.rs:333-339 | `UiValue::new()` has all eight unit slots absent |
| CrateUnits.FromUnit | crate/src/units.rs:441-447 | converting one unit sets exactly that unit's slot to its coefficient and leaves the other seven absent |
| CrateUnits.Add | crate/src/units.rs:355-366 | slot-wise sum: both present gives the sum, one present keeps that one, both absent stays absent |
| CrateUnits.Neg | crate/src/units.rs:343-353 | negation keeps which slots are present and negates each present coefficient |
| CrateUnits.Sub | crate/src/units.rs:374-385 | subtraction as written: both present gives the difference, left-only keeps the left, right-only copies the right coefficient without negating it |
| CrateUnits.SubCorrected | crate/src/units.rs:374-385 | intended subtraction: as `Sub`, except that a right-only slot holds the negated coefficient |
| CrateUnits.Mul | crate/src/units.rs:393-406 | slot-wise product: a slot is present exactly when both sides have it, holding the product |
| CrateUnits.Scale | crate/src/units.rs:414-425 | multiplying by a float scales every present slot and keeps absent ones absent |
| CrateUnits.AddUnit | crate/src/units.rs:450-464 | adding a unit adds to its slot when present, sets it to the coefficient when absent, and changes no other slot |
| CrateUnits.SubUnit | crate/src/units.rs:475-489 | subtracting a unit subtracts from its slot when present and sets it to `+x` (not `-x`) when absent; no other slot changes |
| CrateUnits.SubUnitIsSub | crate/src/units.rs:475-489 | subtracting one unit is subtracting the one-slot value, flaw included; the corrected subtraction would leave `-x` in a slot that was absent |
| CrateUnits.MulUnit | crate/src/units.rs:500-508 | multiplying by a unit scales its slot only when present; otherwise the value is unchanged |
| CrateUnits.CrossAdd | crate/src/units.rs:218-226 | `Unit1(x) + Unit2(y)` of different units holds `x` and `y` in their slots and nothing else |
| CrateUnits.CrossSub | crate/src/units.rs:227-235 | `Unit1(x) - Unit2(y)` of different units holds `x` and `-y` and nothing else |
| CrateUnits.GetComponent | crate/src/units.rs:520-534 | `get_x`/`get_y` keep exactly the present slots and take the chosen component of each |
| CrateUnits.WithComponent | crate/src/units.rs:537-566 | `with_x`/`set_x`: every slot `other` has gets that component replaced, or a fresh vector with that component when it was absent; other slots are untouched |
| CrateUnits.FromReal | crate/src/units.rs:776-780 | a plain float converts to the `Ab` unit of that float |
| CrateUnits.EvaluateUnit | crate/src/units.rs:838-850 | a single unit evaluates to its coefficient times that unit's weight (scale for Ab, parent/100 for Rl/Rw/Rh, font for Em, viewport/100 for Vp/Vw/Vh) |
| CrateUnits.EvaluateWeighted | crate/src/units.rs:838-850 | f32 evaluation is the sum over the slots of coefficient times unit weight |
| CrateUnits.EvaluateAdd | crate/src/units.rs:355-366 | the evaluation of a sum is the sum of the evaluations |
| CrateUnits.NegNeg | crate/src/units.rs:343-353 | negating twice gives the value back |
| CrateUnits.EvaluateNeg | crate/src/units.rs:343-353 | a negated value evaluates to the negated evaluation |
| CrateUnits.EvaluateScale | crate/src/units.rs:414-425 | multiplying by a float multiplies the evaluation by it |
| CrateUnits.EvaluateSubCorrected | crate/src/units.rs:374-385 | the corrected subtraction evaluates to the difference of the evaluations |
| CrateUnits.SubAgreesWhenLeftCovers | crate/src/units.rs:374-385 | the written and the corrected subtraction agree exactly when every right-only slot holds 0 |
| CrateUnits.SubUnnegatedCounterexample | crate/src/units.rs:374-385 | `new() - Rl(3)` keeps `rl = 3` and evaluates to +3 against a parent of 100, while the difference of the evaluations is -3 |
| CrateUnits.CrossAddIsAdd | crate/src/units.rs:218-226 | the cross-unit sum equals the value sum of the two single units |
| CrateUnits.CrossSubIsSubCorrected | crate/src/units.rs:227-235 | the cross-unit difference equals the corrected difference of the two single units; the written `Sub` keeps `y` un-negated |
| CrateUnits.SubCorrectedIsAddNeg | crate/src/units.rs:343-385 | the corrected subtraction is adding the negation; the written one differs from it on `new() - Rl(3)` |
| CrateUnits.WithXGet | crate/src/units.rs:520-543 | reading x after `with_x` gives the new coefficients where `other` has them and the old ones elsewhere; y is kept, or 0 in a slot `with_x` created |
| CrateUnits.WithYGet | crate/src/units.rs:528-551 | the same for `with_y`, with the axes swapped |
| CrateUnits.FromPairAxes | crate/src/units.rs:743-749 | `(a, b).into()` has x from `a` and y from `b`, with 0 on the other axis of a slot only one side has |
| CrateUnits.SplatAxes | crate/src/units.rs:801-808 | converting an f32 value to a Vec2 value puts each coefficient on both axes and keeps exactly the present slots |
| CrateUnits.FromUnitSplatIsSplat | crate/src/units.rs:195-199 | converting a one-float unit to Vec2 equals converting it to an f32 value and splatting that |
| CrateUnits.Evaluate2Axes | crate/src/units.rs:852-864 | Vec2 evaluation evaluates each axis on its own, weighing rl and vp component-wise, rw and vw by the parent's and viewport's x and rh and vh by their y |
| CrateUnits.Evaluate2Add | crate/src/units.rs:852-864 | Vec2 evaluation of a sum is the sum of the evaluations |
| CrateUnits.Evaluate2SubCorrected | crate/src/units.rs:852-864 | Vec2 evaluation of the corrected difference is the difference of the evaluations |
| CrateUnits.Evaluate | crate/src/units.rs:838-851 | an all-zero context (scale, parent, viewport and font size) evaluates to 0; what each slot contributes, vw included, is stated by CrateUnits.EvaluateWeighted and CrateUnits.EvaluateUnit |
| CrateUnits.Evaluate2 | crate/src/units.rs:852-864 | an all-zero context evaluates to the zero vector; each axis is stated by CrateUnits.Evaluate2Axes |
| EngineCommonValue.New | crates/lunex_engine/src/common/value.rs:41-47 | `UiValue::new()` has all nine unit slots absent |
| EngineCommonValue.FromUnit | crates/lunex_engine/src/common/value.rs:118-124 | `unit.into()` sets exactly that unit's slot to its coefficient and leaves the others absent |
| EngineCommonValue.Add | crates/lunex_engine/src/common/value.rs:49-60 | slot-wise sum: both present gives the sum, one present keeps that one, both absent stays absent |
| EngineCommonValue.Neg | crates/lunex_engine/src/common/value.rs:66-75 | negation keeps which slots are present and negates each present coefficient |
| EngineCommonValue.Sub | crates/lunex_engine/src/common/value.rs:76-87 | subtraction as written: both present gives the difference, left-only keeps the left, right-only copies the right coefficient without negating it |
| EngineCommonValue.SubCorrected | crates/lunex_engine/src/common/value.rs:76-87 | intended subtraction: as `Sub`, except that a right-only slot holds the negated coefficient |
| EngineCommonValue.Mul | crates/lunex_engine/src/common/value.rs:93-106 | slot-wise product: a slot is present exactly when both sides have it, holding the product |
| EngineCommonValue.AddUnit | crates/lunex_engine/src/common/value.rs:125-139 | adding a unit adds to its slot when present, sets it to the coefficient when absent, and changes no other slot |
| EngineCommonValue.SubUnit | crates/lunex_engine/src/common/value.rs:148-162 | subtracting a unit subtracts from its slot when present and sets it to `+x` (not `-x`) when absent; no other slot changes |
| EngineCommonValue.SubUnitIsSub | crates/lunex_engine/src/common/value.rs:148-162 | subtracting one unit is subtracting the one-slot value, flaw included; the corrected subtraction would leave `-x` in a slot that was absent |
| EngineCommonValue.MulUnit | crates/lunex_engine/src/common/value.rs:171-179 | multiplying by a unit scales its slot only when present; otherwise the value is unchanged |
| EngineCommonValue.CrossAdd | crates/lunex_engine/src/common/value.rs:500-508 | `Unit1(x) + Unit2(y)` of different units holds `x` and `y` in their slots and nothing else |
| EngineCommonValue.CrossSub | crates/lunex_engine/src/common/value.rs:509-517 | `Unit1(x) - Unit2(y)` of different units holds `x` and `-y` and nothing else |
| EngineCommonValue.GetComponent | crates/lunex_engine/src/common/value.rs:191-205 | `get_x`/`get_y` keep exactly the present slots and take the chosen component of each |
| EngineCommonValue.WithComponent | crates/lunex_engine/src/common/value.rs:208-237 | `with_x`/`set_x`: every slot `other` has gets that component replaced, or a fresh vector with that component when it was absent; other slots are untouched |
| EngineCommonValue.FromReal | crates/lunex_engine/src/common/value.rs:713-717 | a plain float converts to the `Ab` unit of that float |
| EngineCommonValue.FromRealPair | crates/lunex_engine/src/common/value.rs:734-738 | `(x, y).into()` is an `Ab` vector whose x axis reads as `x.into()` and whose y axis reads as `y.into()` |
| EngineCommonValue.NegNeg | crates/lunex_engine/src/common/value.rs:66-75 | negating twice gives the value back |
| EngineCommonValue.SubAgreesWhenLeftCovers | crates/lunex_engine/src/common/value.rs:76-87 | the written and the corrected subtraction agree exactly when every right-only slot holds 0 |
| EngineCommonValue.CrossAddIsAdd | crates/lunex_engine/src/common/value.rs:500-508 | the cross-unit sum equals the value sum of the two single units |
| EngineCommonValue.CrossSubIsSubCorrected | crates/lunex_engine/src/common/value.rs:509-517 | the cross-unit difference equals the corrected difference of the two single units; the written `Sub` keeps `y` un-negated |
| EngineCommonValue.SubCorrectedIsAddNeg | crates/lunex_engine/src/common/value.rs:66-87 | the corrected subtraction is adding the negation; the written one differs from it on `new() - Rl(3)` |
| EngineCommonValue.WithXGet | crates/lunex_engine/src/common/value.rs:191-214 | reading x after `with_x` gives the new coefficients where `other` has them and the old ones elsewhere; y is kept, or 0 in a slot `with_x` created |
| EngineCommonValue.WithYGet | crates/lunex_engine/src/common/value.rs:199-222 | the same for `with_y`, with the axes swapped |
| EngineCommonValue.FromUnitSplatIsSplat | crates/lunex_engine/src/common/value.rs:480-484 | converting a one-float unit to Vec2 equals converting it to an f32 value and splatting that |
| EngineCommonValue.SplatAxes | crates/lunex_engine/src/common/value.rs:719-726 | converting an f32 value to a Vec2 value puts each coefficient on both axes and keeps exactly the present slots |
| EngineCommonValue.FromRealSplatIsSplat | crates/lunex_engine/src/common/value.rs:728-732 | `f32.into()` as a Vec2 value equals the f32 value splatted onto both axes |
| EngineSize.New | crates/lunex_engine/src/common/size.rs:1515-1521 | `NodeSize::new()` has its abs, prc and rem slots all absent |
| EngineSize.FromUnit | crates/lunex_engine/src/common/size.rs:1523-1545 | `from_abs`/`from_prc`/`from_rem` and `unit.into()` set exactly that unit's slot and leave the other two absent |
| EngineSize.WithUnit | crates/lunex_engine/src/common/size.rs:122-160 | `with_abs`/`set_abs` and siblings overwrite that unit's slot with the coefficient, whatever it held, and keep the other two |
| EngineSize.With | crates/lunex_engine/src/common/size.rs:114-145 | `with`/`set`: each slot `other` has replaces the corresponding slot; the slots it lacks are kept |
| EngineSize.FromStandard | crates/lunex_engine/src/common/size.rs:173-175 | `from_standard(n)` holds only a rem slot of `n * 0.25` (one Tailwind step is a quarter rem) |
| EngineSize.Add | crates/lunex_engine/src/common/size.rs:270-291 | slot-wise sum: both present gives the sum, one present keeps that one, both absent stays absent |
| EngineSize.AddUnit | crates/lunex_engine/src/common/size.rs:293-365 | adding `Abs`/`Prc`/`Rem` (and `+=`) adds to that slot when present, sets it to the coefficient when absent, and changes no other slot |
| EngineSize.CrossAdd | crates/lunex_engine/src/common/size.rs:211-224 | `Abs(x) + Prc(y)` and the other mixed sums (and `from_abs_prc` and siblings) hold exactly the two coefficients in their slots |
| EngineSize.Neg | crates/lunex_engine/src/common/size.rs:387-400 | negation keeps which slots are present and negates each present coefficient |
| EngineSize.Sub | crates/lunex_engine/src/common/size.rs:468-489 | `NodeSize - NodeSize`: both present gives the difference, left-only keeps the left, right-only holds the negated right, both absent stays absent |
| EngineSize.SubUnit | crates/lunex_engine/src/common/size.rs:491-529 | subtracting `Abs`/`Prc`/`Rem` as written: the slot is decreased when present but set to `+x` when absent; no other slot changes |
| EngineSize.SubUnitCorrected | crates/lunex_engine/src/common/size.rs:491-529 | intended single-unit subtraction: an absent slot becomes `-x`, as `NodeSize - NodeSize` does |
| EngineSize.CrossSub | crates/lunex_engine/src/common/size.rs:409-422 | `Abs(x) - Prc(y)` and the other mixed differences hold exactly `x` and `-y` |
| EngineSize.Mul | crates/lunex_engine/src/common/size.rs:590-611 | slot-wise product: a slot is present exactly when both sides have it, holding the product |
| EngineSize.MulUnit | crates/lunex_engine/src/common/size.rs:613-642 | multiplying by a unit scales that slot only when present; otherwise the size is unchanged |
| EngineSize.Scale | crates/lunex_engine/src/common/size.rs:678-693 | multiplying by a float scales every present slot and keeps absent ones absent |
| EngineSize.GetComponent | crates/lunex_engine/src/common/size.rs:974-1003 | `get_x`/`get_y` keep exactly the present slots and take that component of each |
| EngineSize.WithComponent | crates/lunex_engine/src/common/size.rs:982-1018 | `with_x`/`set_x` and the y forms: each slot `other` has gets that axis replaced, or is created with 0 on the other axis; other slots are untouched |
| EngineSize.EvaluateParts | crates/lunex_engine/src/common/size.rs:1212-1240 | `evaluate` is `evaluate_abs + evaluate_prc + evaluate_rem`, `evaluate_abs_rem` is the sum of its two parts, and without a prc slot `evaluate` equals `evaluate_abs_rem` |
| EngineSize.EvaluateUnit | crates/lunex_engine/src/common/size.rs:1212-1218 | one unit is worth `x * scale` (abs), `x / 100 * parent` (prc) or `x * font` (rem) |
| EngineSize.EvaluateAdd | crates/lunex_engine/src/common/size.rs:270-291 | the evaluation of a sum is the sum of the evaluations |
| EngineSize.EvaluateSub | crates/lunex_engine/src/common/size.rs:468-489 | `NodeSize - NodeSize` evaluates to the difference of the evaluations |
| EngineSize.EvaluateScale | crates/lunex_engine/src/common/size.rs:678-693 | multiplying by a float multiplies the evaluation by it |
| EngineSize.AddUnitIsAdd | crates/lunex_engine/src/common/size.rs:293-305 | adding a unit equals adding the size holding only that unit |
| EngineSize.SubUnitCorrectedIsSub | crates/lunex_engine/src/common/size.rs:491-503 | the corrected single-unit subtraction equals subtracting the size holding only that unit; the written one agrees with it exactly when the slot is present or `x` is 0 |
| EngineSize.SubUnitCounterexample | crates/lunex_engine/src/common/size.rs:491-503 | `new() - Abs(5)` holds `abs = 5` and evaluates to +5, while `new() - from_abs(5)` holds `abs = -5` |
| EngineSize.EvaluateSubUnitCorrected | crates/lunex_engine/src/common/size.rs:491-529 | the corrected single-unit subtraction evaluates to the evaluation minus that unit's worth, whether or not the slot was present |
| EngineSize.WithIdempotent | crates/lunex_engine/src/common/size.rs:114-119 | `with(other)` twice is `with(other)` once, and `with(new())` changes nothing |
| EngineSize.WithXGet | crates/lunex_engine/src/common/size.rs:974-1003 | reading x after `with_x` gives the new coefficients where `other` has them and the old ones elsewhere; y is kept, or 0 in a slot `with_x` created |
| EngineSize.WithYGet | crates/lunex_engine/src/common/size.rs:974-1011 | the same for `with_y`, with the axes swapped |
| EngineSize.GetComponentAccumulates | crates/lunex_engine/src/common/size.rs:974-980 | the `+=` accumulation `get_x` performs over the present units gives the same size as reading the component slot by slot |
| EngineSize.SplatAxes | crates/lunex_engine/src/common/size.rs:812-819 | converting an f32 size to a Vec2 size puts each coefficient on both axes and keeps exactly the present slots |
| EngineSize.FromUnitSplatIsSplat | crates/lunex_engine/src/common/size.rs:797-811 | converting `Abs(x)`/`Prc(x)`/`Rem(x)` to a Vec2 size equals converting it to an f32 size and splatting that |
| EngineSize.Evaluate2Axes | crates/lunex_engine/src/common/size.rs:1242-1249 | Vec2 evaluation is the f32 evaluation of each axis against that axis of the parent |
| EngineSize.Evaluate2Sub | crates/lunex_engine/src/common/size.rs:1242-1249 | Vec2 evaluation of a difference is the difference of the evaluations |
| EngineSize.Evaluate2Scale | crates/lunex_engine/src/common/size.rs:1242-1249 | Vec2 evaluation of a size times a float is the evaluation times that float |
| EngineSize.Evaluate4Axes | crates/lunex_engine/src/common/size.rs:1302-1309 | Vec4 evaluation is the f32 evaluation of each of the four axes against that axis of the parent |
| EngineSize.TestRepeatedAdd | crates/lunex_engine/src/common/size.rs:21-23 | `with_abs(Abs(5)) + Abs(5) + Abs(5) == with_abs(Abs(15))`, and likewise for prc and rem |
| EngineSize.TestMixedAdd | crates/lunex_engine/src/common/size.rs:25-35 | `Abs(5) + Prc(10) + Rem(15)` holds {5, 10, 15}; then `+ Abs(20)`, `+= Prc(20)` and `+= amount` give {25, 10, 15}, {25, 30, 15} and {30, 40, 30} |
| EngineSize.TestAxes | crates/lunex_engine/src/common/size.rs:37-38 | `Rem(Vec2(10, 12)).into() == new().with_x(Rem(10)).with_y(Rem(12))` |
| EngineSize.Evaluate | crates/lunex_engine/src/common/size.rs:1212-1219 | an all-zero context (scale, parent and font size) evaluates to 0; EngineSize.EvaluateParts and EngineSize.EvaluateUnit state the sum of the three slots |
| EngineSize.EvaluateAbs | crates/lunex_engine/src/common/size.rs:1220-1224 | is the full evaluation of the size with only its abs slot kept |
| EngineSize.EvaluatePrc | crates/lunex_engine/src/common/size.rs:1225-1229 | is the full evaluation of the size with only its prc slot kept |
| EngineSize.EvaluateRem | crates/lunex_engine/src/common/size.rs:1230-1234 | is the full evaluation of the size with only its rem slot kept |
| EngineSize.EvaluateAbsRem | crates/lunex_engine/src/common/size.rs:1235-1240 | is the full evaluation of the size with its prc slot dropped, and the sum of `evaluate_abs` and `evaluate_rem` |
| EngineSize.Evaluate2 | crates/lunex_engine/src/common/size.rs:1242-1249 | an all-zero context evaluates to the zero vector; each axis is stated by EngineSize.Evaluate2Axes |
| EngineSize.Evaluate4 | crates/lunex_engine/src/common/size.rs:1302-1309 | an all-zero context evaluates to the zero vector; each of the four axes is stated by EngineSize.Evaluate4Axes |
| EngineCommonTraits.InvertY2 | crates/lunex_engine/src/common/traits.rs:20-25 | `invert_y` on a Vec2 negates y and keeps x |
| EngineCommonTraits.InvertY3 | crates/lunex_engine/src/common/traits.rs:26-31 | `invert_y` on a Vec3 negates y and keeps x and z |
| EngineCommonTraits.InvertY4 | crates/lunex_engine/src/common/traits.rs:32-37 | `invert_y` on a Vec4 negates y and keeps x, z and w |
| EngineCommonTraits.InvertYInvolution | crates/lunex_engine/src/common/traits.rs:16-37 | inverting y twice gives back the vector, for Vec2, Vec3 and Vec4 |
| EngineStructs.New | crates/lunex_engine/src/common/structs.rs:33-37 | `Rectangle2D::new()` is the empty rectangle: zero position and zero size |
| EngineStructs.WithPos | crates/lunex_engine/src/common/structs.rs:39-42 | `with_pos` sets the position and keeps the size |
| EngineStructs.WithX | crates/lunex_engine/src/common/structs.rs:44-47 | `with_x` sets the x position and keeps y and the size |
| EngineStructs.WithY | crates/lunex_engine/src/common/structs.rs:49-52 | `with_y` sets the y position and keeps x and the size |
| EngineStructs.WithSize | crates/lunex_engine/src/common/structs.rs:54-57 | `with_size` sets the size and keeps the position |
| EngineStructs.WithWidth | crates/lunex_engine/src/common/structs.rs:59-62 | `with_width` sets the width and keeps the height and the position |
| EngineStructs.WithHeight | crates/lunex_engine/src/common/structs.rs:64-67 | `with_height` sets the height and keeps the width and the position |
| EngineStructs.To3D | crates/lunex_engine/src/common/structs.rs:69-76 | a 2D rectangle becomes a 3D one with the same x, y and size, depth 0 and no rotation |
| EngineStructs.To2D | crates/lunex_engine/src/common/structs.rs:89-96 | a 3D rectangle becomes a 2D one with its x, y and size; depth and rotations are dropped |
| EngineStructs.RoundTrips | crates/lunex_engine/src/common/structs.rs:69-96 | 2D to 3D and back is the identity; 3D to 2D and back resets exactly depth and rotations, so it is the identity iff those are zero |
| EngineStructs.SettersCompose | crates/lunex_engine/src/common/structs.rs:39-67 | `with_x` and `with_y` commute and together equal `with_pos`; `with_width` and `with_height` commute and together equal `with_size` |
| EngineLayout.BoundaryCompute | crates/lunex_engine/src/layout/layout.rs:168-175 | a boundary's rectangle starts at the parent's position plus the first corner and ends at the parent's position plus the second corner |
| EngineLayout.WindowCompute | crates/lunex_engine/src/layout/layout.rs:253-258 | a window lies at its evaluated position from the parent's corner, and the default layout `Window::new().size(Rl(100))` covers the parent exactly |
| EngineLayout.SolidScale | crates/lunex_engine/src/layout/layout.rs:343-348 | the fitting factor matches the parent's width for `HorFill`, its height for `VerFill`, and is the smaller (`Fit`) or larger (`Fill`) of the two axis ratios |
| EngineLayout.SolidPlace | crates/lunex_engine/src/layout/layout.rs:338-362 | the solid's size is its evaluated size times the fitting factor |
| EngineLayout.SolidCompute | crates/lunex_engine/src/layout/layout.rs:338-362 | the solid keeps the width-to-height ratio of its evaluated size, and `HorFill`/`VerFill` match the parent's width/height |
| EngineLayout.SolidNew | crates/lunex_engine/src/layout/layout.rs:298-305 | `Solid::new()` has an absolute 1:1 size, is centred on both axes and uses `Fit` |
| EngineLayout.DefaultLayout | crates/lunex_engine/src/layout/layout.rs:28-31 | the default layout is a window at no offset whose size is `Rl(100)` on both axes |
| EngineLayout.Eval | crates/lunex_engine/src/layout/layout.rs:253-258 | an empty value evaluates to zero, and `Rl(100)` on both axes to the parent's size |
| EngineLayout.BoundaryIsWindow | crates/lunex_engine/src/layout/layout.rs:168-175 | a boundary computes as the window at its first corner whose size is the negating difference of its corners |
| EngineLayout.CenteredAtCorrectedIsCentred | crates/lunex_engine/src/layout/layout.rs:217-220 | with the negating subtraction, `new_centered_at(pos, size)` computes to a rectangle of the evaluated size whose centre is the parent's position plus the evaluated `pos` |
| EngineLayout.CenteredAtCounterexample | crates/lunex_engine/src/layout/layout.rs:217-220 | as written, `new_centered_at` of an empty `pos` and `Ab(10)` in a 100x100 parent is placed at (5, 5) with its centre at (10, 10); corrected, it is at (-5, -5) centred on the origin |
| EngineLayout.AbsoluteWindow | crates/lunex_engine/src/layout/layout.rs:253-258 | at scale 1 a window at `Ab(c)` of size `Ab(10)` lies `c` past the parent's corner with its centre 5 further |
| EngineLayout.EvalAbs | crates/lunex_engine/src/layout/layout.rs:253-258 | at scale 1 an absolute coefficient evaluates to itself |
| EngineLayout.SolidKeepsAspect | crates/lunex_engine/src/layout/layout.rs:338-362 | the computed solid keeps the width-to-height ratio of its evaluated size |
| EngineLayout.SolidAxisFill | crates/lunex_engine/src/layout/layout.rs:343-346 | `HorFill` makes the solid exactly as wide as the parent, `VerFill` exactly as tall |
| EngineLayout.SolidFitInside | crates/lunex_engine/src/layout/layout.rs:343-361 | with a positive size and a non-negative parent, `Fit` stays inside the parent and touches it on one axis |
| EngineLayout.SolidFillCovers | crates/lunex_engine/src/layout/layout.rs:343-361 | with a positive size, `Fill` covers the parent on both axes and touches it on one |
| EngineLayout.SolidAlignment | crates/lunex_engine/src/layout/layout.rs:350-360 | the alignment places the solid along the parent's free space: position = parent position + free space * (align + 1) / 2 on each axis |
| EngineLayout.SolidAlignmentCases | crates/lunex_engine/src/layout/layout.rs:59-65 | `START` is flush with the parent's position, `CENTER` shares the parent's centre, `END` is flush with the parent's far corner |
| EngineLayout.SolidNewIsCentredSquare | crates/lunex_engine/src/layout/layout.rs:298-305 | `Solid::new()` at a positive scale in a non-negative parent computes to the largest square that fits, centred in the parent |
| EngineLayout.NewCenteredAt | crates/lunex_engine/src/layout/layout.rs:217-220 | as written (the as-written half of the Findings row): the size is kept; a slot in both gives `pos - size/2`, a slot only in pos is kept, and a slot only in the size gives `+size/2` un-negated; EngineLayout.CenteredAtCounterexample exhibits the misplaced centre |
| EngineLayout.NewCenteredAtCorrected | crates/lunex_engine/src/layout/layout.rs:217-220 | corrected half of the Findings row: as NewCenteredAt except that a slot only in the size gives `-size/2`; EngineLayout.CenteredAtCorrectedIsCentred proves the computed rectangle is centred on the evaluated pos |
| EngineDeclarative.WindowFull | crates/lunex_engine/src/layout/declarative.rs:14-15 | `Window::FULL` has no offset and exactly `Prc(100)` on both axes of its size, with no other unit |
| EngineDeclarative.WindowEmpty | crates/lunex_engine/src/layout/declarative.rs:16-24 | `Window::EMPTY` and `Window::new()` have no unit set in either position or size |
| EngineDeclarative.WindowNewAt | crates/lunex_engine/src/layout/declarative.rs:25-29 | `new_at` keeps the given size (its position is characterised by `NewAtIsCentred`) |
| EngineDeclarative.WindowX | crates/lunex_engine/src/layout/declarative.rs:35-39 | `x` overwrites the position's x slots the new value sets, keeps the others and keeps the size |
| EngineDeclarative.WindowY | crates/lunex_engine/src/layout/declarative.rs:40-44 | `y` overwrites the position's y slots the new value sets, keeps the others and keeps the size |
| EngineDeclarative.WindowWidth | crates/lunex_engine/src/layout/declarative.rs:50-54 | `width` overwrites the size's x slots the new value sets, keeps the others and keeps the position |
| EngineDeclarative.WindowHeight | crates/lunex_engine/src/layout/declarative.rs:55-59 | `height` overwrites the size's y slots the new value sets, keeps the others and keeps the position |
| EngineDeclarative.WindowCompute | crates/lunex_engine/src/layout/declarative.rs:60-66 | the window's offset from the parent's position is its evaluated position, and its size is its evaluated size |
| EngineDeclarative.SolidNew | crates/lunex_engine/src/layout/declarative.rs:98-106 | `Solid::new()` is an absolute 1:1 ratio, centred on both axes, with `Cover::Contain` |
| EngineDeclarative.SolidWidth | crates/lunex_engine/src/layout/declarative.rs:112-116 | `width` overwrites the ratio's x slots the new value sets and keeps alignment and cover |
| EngineDeclarative.SolidHeight | crates/lunex_engine/src/layout/declarative.rs:117-121 | `height` overwrites the ratio's y slots the new value sets and keeps alignment and cover |
| EngineDeclarative.SolidCompute | crates/lunex_engine/src/layout/declarative.rs:137-162 | the solid keeps the ratio of its evaluated size, and `Horizontal`/`Vertical` cover match the parent's width/height |
| EngineDeclarative.SolidIsLayoutSolid | crates/lunex_engine/src/layout/declarative.rs:137-162 | the declarative solid computes exactly the same rectangle as the layout-module solid with the corresponding scaling mode |
| EngineDeclarative.SolidProperties | crates/lunex_engine/src/layout/declarative.rs:137-162 | the solid keeps its aspect ratio and is aligned along the parent's free space; `Contain` stays inside a non-negative parent and `Full` covers it |
| EngineDeclarative.NewAtIsCentred | crates/lunex_engine/src/layout/declarative.rs:25-29 | because the `NodeSize` subtraction negates a slot present only on the right, `new_at(pos, size)` computes to a window centred on the point `pos` evaluates to |
| EngineDeclarative.FullAndEmpty | crates/lunex_engine/src/layout/declarative.rs:14-17 | `Window::FULL` computes to exactly the parent; the empty window computes to the parent's position with zero size |
| EngineParametric.DivNew | crates/lunex_engine/src/layout/parametric.rs:36-39 | a new div has normal sizing, no minimum or maximum, no alignment, no forced break, and no unit set in any padding, border or margin |
| EngineParametric.SetEdge | crates/lunex_engine/src/layout/parametric.rs:56-59 | `pad`, `border` and `margin` replace that inset alone; the other insets, the sizing and the break flag stay |
| EngineParametric.SetSide | crates/lunex_engine/src/layout/parametric.rs:77-95 | `pad_l`/`pad_t`/`pad_r`/`pad_b` and their border and margin siblings touch only the inset they name |
| EngineParametric.SetHorizontal | crates/lunex_engine/src/layout/parametric.rs:61-67 | `pad_x`, `border_x` and `margin_x` touch only the inset they name |
| EngineParametric.SetVertical | crates/lunex_engine/src/layout/parametric.rs:69-75 | `pad_y`, `border_y` and `margin_y` touch only the inset they name |
| EngineParametric.Br | crates/lunex_engine/src/layout/parametric.rs:179-182 | `br` sets the forced line break and changes nothing else |
| EngineParametric.ComputeSize | crates/lunex_engine/src/layout/parametric.rs:211-217 | the computed size exceeds the content by the padding plus the border on both sides of each axis |
| EngineParametric.SetSideOnlyThatSide | crates/lunex_engine/src/layout/parametric.rs:77-95 | setting one side reads back the new coefficients on that side and keeps the other sides of every slot already present |
| EngineParametric.SetHorizontalBothSides | crates/lunex_engine/src/layout/parametric.rs:61-67 | `pad_x` puts the argument's x coefficients on both the left and the right side, and keeps the top and bottom |
| EngineParametric.ComputeEdgeSides | crates/lunex_engine/src/layout/parametric.rs:199-210 | each evaluated side is that side's scalar evaluation, with percentages of the parent's width for left and right and of its height for top and bottom |
| EngineParametric.PadXWidens | crates/lunex_engine/src/layout/parametric.rs:61-67 | a new div given `pad_x(Abs((p, q)))` computes `2 * p * scale` wider than its content and exactly as high |
| EngineParametric.ComputeEdge | crates/lunex_engine/src/layout/parametric.rs:199-210 | an empty inset and an all-zero context evaluate to zero on every side; EngineParametric.ComputeEdgeSides states each side against the parent's width or height |
| EngineCompute.Lerp | crates/lunex_engine/src/core/compute.rs:106-110 | linear interpolation gives `a` at 0 and `b` at 1, and gives `a` whatever the tween when both ends agree |
| EngineCompute.LerpRect | crates/lunex_engine/src/core/compute.rs:106-110 | the rectangle interpolation gives the first rectangle at 0, the second at 1, and either when they are equal |
| EngineCompute.Place | crates/lunex_engine/src/core/compute.rs:59-91 | a boundary and a window compute to their 2D rectangle lifted to 3D at depth 0; a solid gives a rectangle exactly when its evaluated size allows the division its scaling needs |
| EngineCompute.LayoutRect | crates/lunex_engine/src/core/compute.rs:59-91 | a `Div` layout gives no rectangle; a placed layout gives its placement |
| EngineCompute.LayoutAt | crates/lunex_engine/src/core/compute.rs:59 | the layout under the index when present, otherwise the one under 0; key 0 must exist because the fallback is evaluated first |
| EngineCompute.FontOf | crates/lunex_engine/src/core/compute.rs:55 | a node's own font size overrides the inherited one |
| EngineCompute.Tweened | crates/lunex_engine/src/core/compute.rs:59-91 | the rectangle is the stored one when either layout gives none, the first layout's at tween 0, the second's at tween 1, and the first's whenever both indices are the same |
| EngineCompute.ComputeData | crates/lunex_engine/src/core/compute.rs:44-115 | the node step changes only the rectangle: the tween of the two layouts' rectangles when both exist, otherwise the stored one, at depth `(depth + depth_bias) * abs_scale` |
| EngineCompute.ComputeAll | crates/lunex_engine/src/core/compute.rs:41-132 | a node without data stays as it is; otherwise it keeps its children's keys, computes its own data and then every child inside its new rectangle |
| EngineCompute.ComputeAllInPlace | crates/lunex_engine/src/core/compute.rs:128-131 | the loop over the children, in whatever order the map yields them, computes the same tree as the recursive definition |
| EngineCompute.ScaleOf | crates/lunex_engine/src/core/compute.rs:19-25 | the absolute scale is 1 without master data, otherwise the master's |
| EngineCompute.FontSizeOf | crates/lunex_engine/src/core/compute.rs:19-25 | the font size is 16 without master data, otherwise the master's |
| EngineCompute.Compute | crates/lunex_engine/src/core/compute.rs:17-28 | `UiTree::compute` leaves the tree's master data alone and computes the root inside the parent, using the parent's size as the viewport |
| EngineCompute.ComputeDataIdempotent | crates/lunex_engine/src/core/compute.rs:44-115 | repeating the node step changes nothing |
| EngineCompute.ComputeIdempotent | crates/lunex_engine/src/core/compute.rs:41-132 | running the whole pass a second time with nothing changed gives the same tree |
| EngineCompute.ChildInsideParent | crates/lunex_engine/src/core/compute.rs:128-131 | each child is computed inside the rectangle its parent now holds, with the parent's font size override |
| EngineCompute.DefaultNodeFillsParent | crates/lunex_engine/src/core/compute.rs:41-115 | a node with default data covers its parent's area exactly, at the depth its cached depth gives, with no rotation |
| EngineCompute.SameLayoutIgnoresTween | crates/lunex_engine/src/core/compute.rs:59-113 | when both layout indices name the same placed layout, the tween has no effect and the node gets that layout's rectangle |
| EngineNodes.NewNode | crates/lunex_engine/src/nodes/structs.rs:295-304 | a new node has no children and no data, and its order is consistent with its map |
| EngineNodes.Put | crates/lunex_engine/src/nodes/structs.rs:315 | inserting into the children map stores the child under the key, appends a new key to the iteration order and keeps an existing key's place; the node's own fields stay |
| EngineNodes.Delete | crates/lunex_engine/src/nodes/structs.rs:344 | `shift_remove` takes the key out of the map and the order, keeps the order consistent and keeps the node's own fields |
| EngineNodes.ChildPath | crates/lunex_engine/src/nodes/structs.rs:313 | a child's cached path is its name under a node with an empty path, and otherwise the parent's path, '/', and the name |
| EngineNodes.Attach | crates/lunex_engine/src/nodes/structs.rs:312-314 | the stored child gets the given name, the derived path and the parent's depth plus one, and keeps its data and children |
| EngineNodes.Search | crates/lunex_engine/src/nodes/structs.rs:321-327 | the name search only returns a free name, and fails only with `InvalidPath` |
| EngineNodes.GeneratedName | crates/lunex_engine/src/nodes/structs.rs:321-327 | a generated name is free, and failure is `InvalidPath` |
| EngineNodes.SearchSpec | crates/lunex_engine/src/nodes/structs.rs:321-327 | from any point of the loop, the search succeeds exactly when one of the generated names numbered `len` to `len + 99` is free, and then returns the first free one |
| EngineNodes.GeneratedNameSpec | crates/lunex_engine/src/nodes/structs.rs:321-327 | name generation succeeds exactly when one of the 100 candidates numbered from `len` is free, and returns the first free candidate |
| EngineNodes.GenerateName | crates/lunex_engine/src/nodes/structs.rs:321-327 | the generating loop, with its counter that tries the first candidate twice and gives up past 100, returns what the search specification gives |
| EngineNodes.AddNode | crates/lunex_engine/src/nodes/structs.rs:307-334 | a free non-empty name other than "." stores the attached child under it and returns the name; "." or a taken name fails with `NameInUse`; an empty name uses the generated name; an error leaves the node unchanged; the order stays consistent |
| EngineNodes.MakeNode | crates/lunex_engine/src/nodes/structs.rs:440-468 | a made node is stored under the returned name with no children and no data; an error leaves the node unchanged |
| EngineNodes.TakeNode | crates/lunex_engine/src/nodes/structs.rs:343-348 | a present child is removed and returned; a missing one gives `NoNode` and leaves the node unchanged |
| EngineNodes.ObtainNode | crates/lunex_engine/src/nodes/structs.rs:357-367 | "." is the node itself, "" is `InvalidPath`, any other name is the child under it or `NoNode` |
| EngineNodes.WriteFound | crates/lunex_engine/src/nodes/structs.rs:388-393 | writing back the node a path leads to, unchanged, leaves the whole tree unchanged |
| EngineNodes.BorrowNode | crates/lunex_engine/src/nodes/structs.rs:381-386 | "." is the node itself, "" is `InvalidPath`, and a failing lookup along the path is only ever `InvalidPath` or `NoNode` |
| EngineNodes.BorrowAfterWrite | crates/lunex_engine/src/nodes/structs.rs:388-393 | the node written back through a path is the node found at that path afterwards |
| EngineNodes.WriteKeepsOrder | crates/lunex_engine/src/nodes/structs.rs:388-393 | writing back through a path keeps every node on the way ordered |
| EngineNodes.WriteData | crates/lunex_engine/src/nodes/structs.rs:503-513 | writing back a node whose data alone changed keeps the top-level names and their order |
| EngineNodes.BorrowValid | crates/lunex_engine/src/nodes/structs.rs:381-393 | every node a path reaches in a valid tree is valid |
| EngineNodes.InsertNodeAtPrefix | crates/lunex_engine/src/nodes/structs.rs:336-341 | `insert_node` of `prefix/name` fails as the prefix lookup does and leaves the tree unchanged, or turns the node at the prefix into what `add_node` makes of it |
| EngineNodes.WriteValid | crates/lunex_engine/src/nodes/structs.rs:388-393 | writing a valid node back at a path that resolves keeps a valid tree valid |
| EngineNodes.SetChildValid | crates/lunex_engine/src/nodes/structs.rs:388-393 | replacing an existing child of a valid node by a valid node keeps it valid |
| EngineNodes.AddNodeValid | crates/lunex_engine/src/nodes/structs.rs:307-334 | `add_node` of a valid child keeps a valid node valid, under a given or a generated name |
| EngineNodes.TakeNodeValid | crates/lunex_engine/src/nodes/structs.rs:343-348 | `take_node` keeps a valid node valid |
| EngineNodes.InsertNodeValid | crates/lunex_engine/src/nodes/structs.rs:336-341 | `insert_node` of a valid child keeps a valid tree valid |
| EngineNodes.RemoveNodeValid | crates/lunex_engine/src/nodes/structs.rs:350-355 | `remove_node` keeps a valid tree valid |
| EngineNodes.RemoveNode | crates/lunex_engine/src/nodes/structs.rs:350-355 | a failed removal leaves the tree unchanged; a plain name is removed exactly when it is a child, and that child is returned |
| EngineNodes.InsertNode | crates/lunex_engine/src/nodes/structs.rs:336-341 | a failed insertion, whether the prefix lookup or `add_node` fails, leaves the tree unchanged; a plain name succeeds exactly when it is free |
| EngineNodes.FirstCollision | crates/lunex_engine/src/nodes/structs.rs:397-399 | the collision check finds no name exactly when none of the incoming names is taken, and a found name is both incoming and taken |
| EngineNodes.Merge | crates/lunex_engine/src/nodes/structs.rs:395-405 | any incoming name already taken is reported as `DuplicateName` before anything changes |
| EngineNodes.InsertAllValid | crates/lunex_engine/src/nodes/structs.rs:400-402 | inserting valid children one by one keeps a valid node valid |
| EngineNodes.MergeValid | crates/lunex_engine/src/nodes/structs.rs:395-405 | merging a valid node into a valid node leaves a valid node |
| EngineNodes.InsertPlain | crates/lunex_engine/src/nodes/structs.rs:336-341 | `insert_node` of a free plain name adds the child directly under it |
| EngineNodes.CreateNode | crates/lunex_engine/src/nodes/structs.rs:470-472 | `create_node` of a free plain name adds an empty node with no data under exactly that name |
| EngineNodes.InsertAllAdds | crates/lunex_engine/src/nodes/structs.rs:400-402 | inserting distinct, free, plain names succeeds and adds exactly those names, keeping the data |
| EngineNodes.MergeAdds | crates/lunex_engine/src/nodes/structs.rs:395-405 | a merge without collisions over plain names succeeds, and the node ends up with its own children and all the incoming ones, keeping its data |
| EngineNodes.Crawl | crates/lunex_engine/src/nodes/structs.rs:407-415 | every child listed in the order appears in the crawl, and a node without children crawls to nothing |
| EngineNodes.CrawlNodes | crates/lunex_engine/src/nodes/structs.rs:407-415 | the crawl loop lists every child in order, each followed by its own crawl |
| EngineNodes.CrawlFromListsChildren | crates/lunex_engine/src/nodes/structs.rs:407-415 | from any point of the loop, each remaining child appears in the crawl, immediately followed by the whole crawl of its subtree |
| EngineNodes.CrawlListsChildren | crates/lunex_engine/src/nodes/structs.rs:407-415 | every child of an ordered node appears in its crawl, followed by its own subtree's crawl |
| EngineNodes.CrawlLeaf | crates/lunex_engine/src/nodes/structs.rs:407-415 | a node without children crawls to nothing |
| EngineNodes.ObtainOrCreateNode | crates/lunex_engine/src/nodes/structs.rs:474-477 | for a plain name the child exists afterwards and is returned; an existing child leaves the node unchanged |
| EngineNodes.BorrowOrCreateNode | crates/lunex_engine/src/nodes/structs.rs:484-489 | creating along a path keeps an ordered node ordered, keeps its data, and never loses one of its children |
| EngineNodes.BorrowOrCreateReaches | crates/lunex_engine/src/nodes/structs.rs:484-489 | along a path of plain names every missing node is created, the tree stays valid, and the result is the node the path then leads to |
| EngineNodes.ReplaceChild | crates/lunex_engine/src/nodes/structs.rs:484-489 | replacing a child by a valid node keeps the tree valid, and a path through that child continues in the new node |
| EngineNodes.ObtainOrCreateValid | crates/lunex_engine/src/nodes/structs.rs:474-477 | obtaining or creating a plain name keeps the tree valid and returns a valid node that the name then leads to |
| EngineNodes.AddData | crates/lunex_engine/src/nodes/structs.rs:499-501 | `add_data` stores the new data and returns the previous data |
| EngineNodes.TakeData | crates/lunex_engine/src/nodes/structs.rs:507-509 | `take_data` leaves no data and returns the previous data |
| EngineNodes.InsertData | crates/lunex_engine/src/nodes/structs.rs:503-505 | a path lookup error leaves the tree unchanged; otherwise the node at the path gets the data and the previous data is returned |
| EngineNodes.WriteDataValid | crates/lunex_engine/src/nodes/structs.rs:503-513 | changing only the data of the node at a path keeps a valid tree valid |
| EngineNodes.DataOpsValid | crates/lunex_engine/src/nodes/structs.rs:503-513 | `insert_data` and `remove_data` keep a valid tree valid |
| EngineNodes.RemoveData | crates/lunex_engine/src/nodes/structs.rs:511-513 | a path lookup error leaves the tree unchanged; otherwise the node at the path is left without data and the previous data is returned |
| EngineNodes.BorrowData | crates/lunex_engine/src/nodes/structs.rs:523-525 | `borrow_data` succeeds exactly when the path resolves, and then gives that node's data |
| EngineNodes.InsertThenBorrowData | crates/lunex_engine/src/nodes/structs.rs:503-525 | data inserted at a path is found there, and removing it gives it back |
| EngineNodes.NodeTree.constructor | crates/lunex_engine/src/nodes/structs.rs:102-107 | a new tree has no top-level data and a valid root with the given name |
| EngineNodes.NodeTree.AddTopdata | crates/lunex_engine/src/nodes/structs.rs:79-81 | the new top-level data replaces the old, which is returned; the root is unchanged, so a valid root stays valid |
| EngineNodes.NodeTree.TakeTopdata | crates/lunex_engine/src/nodes/structs.rs:83-85 | the top-level data is taken out and returned; the root is unchanged, so a valid root stays valid |
| EngineNodes.NodeTree.AddData | crates/lunex_engine/src/nodes/structs.rs:192-194 | the root's data is replaced and the previous data returned; the top-level data is unchanged, and a valid root stays valid |
| EngineNodes.NodeTree.AddNodeTo | crates/lunex_engine/src/nodes/structs.rs:110-112 | the tree applies `add_node` to its root, and a valid root given a valid child stays valid |
| EngineNodes.NodeTree.InsertNodeAt | crates/lunex_engine/src/nodes/structs.rs:114-116 | the tree applies `insert_node` to its root, and a valid root given a valid child stays valid |
| EngineNodes.NodeTree.TakeNodeFrom | crates/lunex_engine/src/nodes/structs.rs:118-120 | the tree applies `take_node` to its root, and a valid root stays valid |
| EngineNodes.NodeTree.RemoveNodeAt | crates/lunex_engine/src/nodes/structs.rs:122-124 | the tree applies `remove_node` to its root, and a valid root stays valid |
| EngineNodes.NodeTree.MergeInto | crates/lunex_engine/src/nodes/structs.rs:142-144 | the tree applies `merge` to its root, and a valid root merged with a valid node stays valid |
| EngineNodes.NodeTree.BorrowOrCreate | crates/lunex_engine/src/nodes/structs.rs:183-185 | the tree applies `borrow_or_create_node` to its root; on a valid root and a path of plain names it succeeds, the root stays valid and the path then leads to the returned node |
| EngineNodes.NodeTree.InsertDataAt | crates/lunex_engine/src/nodes/structs.rs:196-198 | the tree applies `insert_data` to its root, and a valid root stays valid |
| EngineNodes.NodeTree.RemoveDataAt | crates/lunex_engine/src/nodes/structs.rs:204-206 | the tree applies `remove_data` to its root, and a valid root stays valid |
| EngineTraits.DefaultMasterData | crates/lunex_engine/src/core/structs.rs:67-75 | default master data has absolute scale 1 and font size 16 |
| EngineTraits.DefaultNodeData | crates/lunex_engine/src/core/structs.rs:84-103 | default node data has no user data, the default layout under index 0, both layout indices 0, no tween, no depth bias and no font override |
| EngineTraits.MakeUiNode | crates/lunex_engine/src/core/traits.rs:103-107 | a free plain name gets a new child carrying default `NodeData`, and nothing else changes; "." or a taken name fails with `NameInUse` and leaves the node unchanged; a name holding '/' leaves a child without `NodeData` behind |
| EngineTraits.CreateUiNode | crates/lunex_engine/src/core/traits.rs:108-112 | `create_ui_node` of a free plain name adds a child with no `NodeData`, because the prepared node carrying the default data is dropped |
| EngineTraits.ObtainOrCreateUiNode | crates/lunex_engine/src/core/traits.rs:113-118 | for a plain name the child exists afterwards and is returned; an existing child leaves the node unchanged; a newly made child carries default `NodeData` |
| EngineTraits.AddUiData | crates/lunex_engine/src/core/traits.rs:230-233 | the user data is swapped into the node's `NodeData` and the previous user data is returned |
| EngineTraits.TakeUiData | crates/lunex_engine/src/core/traits.rs:238-241 | the user data is taken out of the node's `NodeData` and returned, leaving none |
| EngineTraits.ObtainUiData | crates/lunex_engine/src/core/traits.rs:246-249 | the user data stored in the node's `NodeData` |
| EngineTraits.InsertUiData | crates/lunex_engine/src/core/traits.rs:234-237 | a path lookup error leaves the tree unchanged; otherwise the node at the path becomes what `add_ui_data` makes of it and its previous user data is returned |
| EngineTraits.RemoveUiData | crates/lunex_engine/src/core/traits.rs:242-245 | a path lookup error leaves the tree unchanged; otherwise the node at the path becomes what `take_ui_data` makes of it and its previous user data is returned |
| EngineTraits.BorrowUiData | crates/lunex_engine/src/core/traits.rs:254-257 | `borrow_ui_data` succeeds exactly when the path resolves, and then gives that node's user data |
| EngineTraits.New2d | crates/lunex_engine/src/core/traits.rs:273-278 | a 2D tree has default master data and a root with the given name and default `NodeData` |
| EngineTraits.New3d | crates/lunex_engine/src/core/traits.rs:279-287 | a 3D tree is a 2D tree whose absolute scale is 0.001 |
| EngineTraits.AddThenTake | crates/lunex_engine/src/core/traits.rs:230-241 | taking the user data gives back what was added, and leaves none |
| EngineTraits.InsertThenBorrowUiData | crates/lunex_engine/src/core/traits.rs:234-257 | along a path, what `insert_ui_data` puts in, `borrow_ui_data` sees and `remove_ui_data` takes out |
| EngineTraits.MakeThenObtain | crates/lunex_engine/src/core/traits.rs:103-118 | a fresh plain name made with `make_ui_node` is then found by `obtain_or_create_ui_node` without creating anything, and carries default `NodeData` |
| EngineTraits.ObtainOrCreateUiValid | crates/lunex_engine/src/core/traits.rs:113-118 | obtaining or creating a plain name keeps the tree valid and returns a valid node that the name then leads to |
| EngineTraits.BorrowOrCreateUiReaches | crates/lunex_engine/src/core/traits.rs:125-130 | along a path of plain names every missing node is created, the tree stays valid, and the result is the node the path then leads to |
| EngineTraits.BorrowOrCreateUiNode | crates/lunex_engine/src/core/traits.rs:125-130 | a one-segment path succeeds with the child under that name, which carries a default `NodeData` when it was missing; EngineTraits.BorrowOrCreateUiReaches states longer paths |
| CrateLayouts.RectLerp | crate/src/layouts.rs:22-27 | the rectangle interpolation gives the first rectangle at 0 and the second at 1 |
| CrateLayouts.BoundaryCompute | crate/src/layouts.rs:232-240 | measured from the parent's top-left corner, the node's top-left corner is the evaluated `pos1` and its bottom-right corner the evaluated `pos2`; the result is reported by its centre relative to the parent's centre |
| CrateLayouts.WindowCompute | crate/src/layouts.rs:338-347 | the window has its evaluated size, and its anchor point, with y flipped to grow downwards, lies at the evaluated `pos` measured from the parent's top-left corner |
| CrateLayouts.SolidCompute | crate/src/layouts.rs:435-459 | the solid keeps the ratio of its evaluated size, `HorFill`/`VerFill` match the parent's width/height, and align 0 puts its centre on the parent's |
| CrateLayouts.LayoutCompute | crate/src/layouts.rs:126-134 | each layout type computes as its own variant does |
| CrateLayouts.WindowNew | crate/src/layouts.rs:255-261 | a new window has no unit set in position or size and is anchored top-left |
| CrateLayouts.WindowFull | crate/src/layouts.rs:263-265 | `full` sets the size to exactly `Rl(100)` on both axes and keeps the position and anchor |
| CrateLayouts.SolidNew | crate/src/layouts.rs:364-371 | a new solid is an absolute 1:1 ratio, centred on both axes, with `Fit` scaling |
| CrateLayouts.LerpBetween | crate/src/layouts.rs:22-27 | for a tween in [0, 1] the interpolation lies between the two ends |
| CrateLayouts.BoundaryIsWindow | crate/src/layouts.rs:232-240 | a boundary computes as the top-left-anchored window at its first corner whose size is the negating difference of its corners |
| CrateLayouts.WindowFullCoversParent | crate/src/layouts.rs:255-265 | `Window::new().full()` occupies the parent exactly: offset zero from its centre and as large as it |
| CrateLayouts.SolidIsCentredLayoutSolid | crate/src/layouts.rs:435-459 | the solid computes the same size as the lunex_engine solid in a parent whose corner is at minus half its size, and its position is that solid's centre |
| CrateLayouts.SolidProperties | crate/src/layouts.rs:435-459 | the solid keeps its aspect ratio, `Fit` stays inside a non-negative parent, `Fill` covers it, and alignment 0 on both axes centres it on the parent |
| CrateStates.Step | crate/src/states.rs:93-100 | one tick changes only the value: enabled and below 1, it climbs by the forward speed times the tick, capped at 1; disabled and above 0, it falls by the backward speed times the tick, floored at 0; otherwise nothing changes |
| CrateStates.UiHover.constructor | crate/src/states.rs:55-63 | a new hover is at 0, disabled, with both speeds 1 and the identity curve |
| CrateStates.UiHover.SetCurve | crate/src/states.rs:65-68 | `curve` replaces only the curve |
| CrateStates.UiHover.SetForwardSpeed | crate/src/states.rs:70-73 | `forward_speed` replaces only the forward speed |
| CrateStates.UiHover.SetBackwardSpeed | crate/src/states.rs:75-78 | `backward_speed` replaces only the backward speed |
| CrateStates.UiHover.Update | crate/src/states.rs:88-100 | the two tests of the update loop, run in sequence on one entity, perform exactly one tick |
| CrateStates.UiHover.OnHoverSet | crate/src/states.rs:107-119 | a `UiHoverSet` event sets only the enable flag, to true on pointer over and false on pointer out |
| CrateStates.StepKeepsRange | crate/src/states.rs:93-100 | with a non-negative tick and speeds, a value in [0, 1] stays in [0, 1] and moves only towards the end the flag points to |
| CrateStates.EnabledClimbs | crate/src/states.rs:93-96 | after `n` ticks an enabled hover is at least the smaller of 1 and its start plus `n` forward steps, never above 1, and still enabled |
| CrateStates.DisabledFalls | crate/src/states.rs:97-99 | after `n` ticks a disabled hover is at most the larger of 0 and its start minus `n` backward steps, never below 0, and still disabled |
| CrateTextAnim.Visible | crate/src/textanim.rs:168-169 | the number of visible characters is at most the length, 0 for progress at or below 0, the whole length from progress 1, and otherwise the floor of progress times length |
| CrateTextAnim.Typing | crate/src/textanim.rs:167-192 | a typing frame is the whole text, or a non-empty prefix of it whose last character is replaced by the cursor |
| CrateTextAnim.TypingUnderscore | crate/src/textanim.rs:166-177 | the frame is the whole text, or a prefix of it followed by `_`; a non-empty text starts as `_` alone and is whole from progress 1 |
| CrateTextAnim.TypingCursor | crate/src/textanim.rs:180-191 | the frame is the whole text, or a prefix of it followed by a bar; a non-empty text starts as the bar alone and is whole from progress 1 |
| CrateTextAnim.TypingEnds | crate/src/textanim.rs:167-192 | at progress 0 or before, a non-empty text shows only the cursor; from progress 1 on it shows the whole text |
| CrateTextAnim.TypingGrows | crate/src/textanim.rs:168-169 | later progress never shows fewer characters |
| CrateTextAnim.SlideChar | crate/src/textanim.rs:237-250 | each character shows itself, `_` or a blank: blank at progress 0 or before, itself from progress 1 for every index within twice the centre, and the centre character is never blank once progress is positive unless it is a blank itself |
| CrateTextAnim.SlideIn | crate/src/textanim.rs:233-255 | the slide-in frame has the text's length, and each position shows its character, '_' or ' ' |
| CrateTextAnim.SlideInLoop | crate/src/textanim.rs:233-255 | the character loop builds exactly the slide-in frame |
| CrateTextAnim.DistanceWithinCenter | crate/src/textanim.rs:235-238 | no character is further from the centre index than the centre is from the start, so each character's share lies in [0, 1] |
| CrateTextAnim.SlideInEnds | crate/src/textanim.rs:233-255 | from progress 1 on, a text of two or more characters is shown whole; at progress 0 or before, it is blank |
| CrateTextAnim.SlideInShortIsBlank | crate/src/textanim.rs:233-255 | a text of at most one character divides zero by zero, so it is blank at every progress |
| CrateTextAnim.Advance | crate/src/textanim.rs:72-79 | a tick moves the counter only while it is below the end, by the rate, and leaves it capped at the end either way; the flag says whether it moved |
| CrateTextAnim.Quiet | crate/src/textanim.rs:43-53 | `set_text_quiet` stores the new text with the counter already at its end |
| CrateTextAnim.TextAnimator.constructor | crate/src/textanim.rs:19-36 | a new animator holds the given text, counter 0, a 5-second duration and the underscore typing function |
| CrateTextAnim.TextAnimator.SetText | crate/src/textanim.rs:38-41 | `set_text` replaces the text and restarts the counter at 0 |
| CrateTextAnim.TextAnimator.SetTextQuiet | crate/src/textanim.rs:43-53 | `set_text_quiet` replaces the text and puts the counter at its end |
| CrateTextAnim.TextAnimator.SetFunction | crate/src/textanim.rs:55-58 | `function` replaces only the animation function |
| CrateTextAnim.TextAnimator.SetSpeed | crate/src/textanim.rs:60-63 | `speed` switches to counting characters at the given speed |
| CrateTextAnim.TextAnimator.SetDuration | crate/src/textanim.rs:65-68 | `duration` switches to a fixed duration |
| CrateTextAnim.TextAnimator.Update | crate/src/textanim.rs:70-114 | one tick advances the counter; if it moved, the function's frame for the new progress is shown, with a layout recompute only when it differs from what was shown; if not, nothing is shown anew |
| CrateTextAnim.QuietIsStill | crate/src/textanim.rs:43-53 | after `set_text_quiet` the next tick does not move the counter, so nothing is shown anew |
| CrateTextAnim.SetTextMoves | crate/src/textanim.rs:38-41 | after `set_text` the next tick moves the counter whenever the end is positive |
| CrateTextAnim.CharSpeedEndPositive | crate/src/textanim.rs:74 | when counting characters, the end is at least 1 |
| CrateTextAnim.RepeatIsProduct | crate/src/textanim.rs:76 | adding a rate `n` times is `n` times the rate |
| CrateTextAnim.TicksReachEnd | crate/src/textanim.rs:72-79 | with a non-negative rate the counter climbs to its end and stays there: after `n` ticks it is at least the smaller of the end and the start plus `n` rates, and never above the end |
| CrateTextAnim.FinalFrameIsText | crate/src/textanim.rs:167-192 | once the counter is at its end, both typing functions show the whole text |
| CrateCursor.Filed | crate/src/cursor.rs:27-36 | the requestee's request is stored under its pointer, replacing its earlier one, and that pointer's window is set; other pointers and other requests stay; a new pointer starts with top priority 0 and the default icon, a known one keeps its top |
| CrateCursor.Cancelled | crate/src/cursor.rs:38-42 | the requestee's request leaves its pointer's queue and nothing else changes; an unknown pointer changes nothing |
| CrateCursor.SelectTop | crate/src/cursor.rs:61-71 | the selection loop, in whatever order the map yields the queue, ends with the top request: priority 0 and the default icon when nothing is positive, otherwise the greatest priority and an icon filed at it |
| CrateCursor.TopIsUnique | crate/src/cursor.rs:61-71 | whatever order the loop visits the queue in, it finds the same top priority, and the same icon unless requests tie at the top with different icons |
| CrateCursor.DefaultTopIffNothingPositive | crate/src/cursor.rs:61-71 | the top priority is 0 exactly when no request has a positive priority |
| CrateCursor.HigherRequestTakesTop | crate/src/cursor.rs:27-36 | a request above the current top becomes the top |
| CrateCursor.LowerRequestKeepsTop | crate/src/cursor.rs:27-36 | a new requestee asking for no more than the top leaves the top in place |
| CrateCursor.LiveQueue | crate/src/cursor.rs:113-124 | the cleaned queue holds exactly the requests of live entities, unchanged |
| CrateCursor.Purged | crate/src/cursor.rs:100-133 | after the purge a pointer remains exactly when its window still exists or it has none, and its queue keeps only live entities' requests |
| CrateCursor.PurgeQueue | crate/src/cursor.rs:113-124 | the two inner loops, collecting the despawned requestees and then removing them, leave the live queue |
| CrateCursor.CursorIconQueue.constructor | crate/src/cursor.rs:21-24 | the default queue knows no pointer |
| CrateCursor.CursorIconQueue.RequestCursor | crate/src/cursor.rs:27-36 | `request_cursor` files the request as stated by `Filed` |
| CrateCursor.CursorIconQueue.CancelCursor | crate/src/cursor.rs:38-42 | `cancel_cursor` removes the request as stated by `Cancelled` |
| CrateCursor.CursorIconQueue.ApplyTops | crate/src/cursor.rs:54-76 | the apply loop keeps every pointer's window and queue and records its top request |
| CrateCursor.CursorIconQueue.Purge | crate/src/cursor.rs:100-133 | the purge loops leave exactly the purged pointers |
| CrateCursor.HoverRequest | crate/src/cursor.rs:155-172 | hovering files the entity's cursor at priority 1 under the pointer, with a window exactly when the pointer is not a gamepad's, and leaves every other pointer alone |
| CrateCursor.HoverOut | crate/src/cursor.rs:174-192 | leaving takes the entity's request out of the pointer's queue, keeps every other request, and leaves every other pointer alone |
| CrateCursor.HoverFilesPriorityOne | crate/src/cursor.rs:155-172 | hovering an entity that asks for a cursor files its icon at priority 1, with no window exactly for a gamepad pointer, and a gamepad pointer survives every purge |
| CrateCursor.HoverAloneIsTop | crate/src/cursor.rs:155-172 | over a single hovered entity the top is its cursor at priority 1 |
| CrateCursor.HoverThenOutRestoresQueue | crate/src/cursor.rs:155-192 | hovering an entity and leaving it gives back the queue as it was |
| CrateCursor.PurgeCleansAndSettles | crate/src/cursor.rs:100-133 | after a purge every filed request belongs to a live entity and every pointer's window exists or is none; a second purge changes nothing |
| CrateCursor.PurgeKeepsLiveRequests | crate/src/cursor.rs:100-133 | a purge keeps a live entity's request under a pointer whose window exists |
| CrateCursor.SoftwareCursor.constructor | crate/src/cursor.rs:213-220 | a new software cursor asks for the default icon at priority 0, with no atlas and at the origin |
| CrateCursor.SoftwareCursor.RequestCursor | crate/src/cursor.rs:222-227 | a request replaces the current one only when its priority is strictly higher |
| CrateCursor.SoftwareCursor.SetIndex | crate/src/cursor.rs:229-232 | `set_index` binds the icon to its atlas index and offset and changes nothing else |
| CrateCursor.SpriteIndex | crate/src/cursor.rs:294-305 | a cursor whose pointer the queue does not know keeps its index; a top icon without an atlas entry gives index 0 |
| CrateCursor.SetIndexShows | crate/src/cursor.rs:229-305 | the sprite shows the index bound to its pointer's top icon |
| CursorRequests.Requested | crates/bevy_lunex/src/interaction/cursor2d.rs:44-49 | after a request the held priority is the larger of the two; the held request changes only to the new one, and only when its priority is strictly higher |
| CursorRequests.RequestAllAppend | crates/bevy_lunex/src/logic/cursor.rs:331-339 | requests in a row are processed one at a time, the last applied to what the earlier ones left |
| CursorRequests.RequestAllFirstGreatest | crates/bevy_lunex/src/interaction/cursor2d.rs:44-49 | after requests in a row the cursor holds the greatest priority; its icon is the held one when no request beats it, and otherwise that of the first request reaching the greatest priority |
| CursorRequests.ResetThenNothingPositive | crates/bevy_lunex/src/interaction/cursor2d.rs:82-87 | after the tick's reset, requests at no positive priority leave the default icon at priority 0 |
| CursorRequests.AtlasIndex | crates/bevy_lunex/src/interaction/cursor2d.rs:90-95 | an icon's atlas index is the registered one, or 0 when it is not registered |
| CursorRequests.AtlasOffset | crates/bevy_lunex/src/interaction/cursor2d.rs:66 | an icon's sprite offset is the registered one, or zero when it is not registered |
| CursorRequests.RegisterDecides | crates/bevy_lunex/src/interaction/cursor2d.rs:51-54 | registering an icon decides its index and offset and no other icon's |
| InteractionCursor.Cursor2d.constructor | crates/bevy_lunex/src/interaction/cursor2d.rs:29-37 | a new cursor asks for the default icon at priority 0, has no atlas, uses the native cursor and is not hidden |
| InteractionCursor.Cursor2d.SetNative | crates/bevy_lunex/src/interaction/cursor2d.rs:39-42 | `native_cursor` sets only the native toggle |
| InteractionCursor.Cursor2d.RequestCursor | crates/bevy_lunex/src/interaction/cursor2d.rs:44-49 | a request replaces the current one only when its priority is strictly higher, and nothing else changes |
| InteractionCursor.Cursor2d.RegisterCursor | crates/bevy_lunex/src/interaction/cursor2d.rs:51-54 | `register_cursor` binds the icon to its index and offset and changes nothing else |
| InteractionCursor.Cursor2d.Preupdate | crates/bevy_lunex/src/interaction/cursor2d.rs:82-87 | the tick's reset puts back the default icon at priority 0 and changes nothing else |
| InteractionCursor.Cursor2d.Shown | crates/bevy_lunex/src/interaction/cursor2d.rs:57-95 | the window's cursor is visible when native and not hidden; the sprite is visible only with a cursor position, when neither hidden nor native; the window gets the requested icon and the sprite its atlas index |
| InteractionCursor.OneCursorShows | crates/bevy_lunex/src/interaction/cursor2d.rs:57-79 | the native cursor and the sprite never show together, a hidden cursor shows neither, and otherwise inside the window exactly the one the native toggle picks shows |
| InteractionCursor.FirstPositiveRequestShows | crates/bevy_lunex/src/interaction/cursor2d.rs:44-95 | after the reset, a request at a positive priority is shown with its registered atlas index, and a later request at no higher priority leaves it |
| LogicCursor.Forwarded | crates/bevy_lunex/src/logic/cursor.rs:331-339 | the hover rule makes at most one request per hovered entity, each at priority 1 |
| LogicCursor.FirstForward | crates/bevy_lunex/src/logic/cursor.rs:331-339 | an icon is found exactly when some hover state moves forward, and it is that of the first one that does |
| LogicCursor.ForwardedAppend | crates/bevy_lunex/src/logic/cursor.rs:331-339 | one more hovered entity adds a request exactly when its hover state moves forward |
| LogicCursor.ForwardedFirst | crates/bevy_lunex/src/logic/cursor.rs:331-339 | the rule makes requests exactly when some hover state moves forward, and the first is that entity's cursor at priority 1 |
| LogicCursor.HoverAfterReset | crates/bevy_lunex/src/logic/cursor.rs:304-339 | after the tick's reset the cursor shows the first forward-moving entity's icon at priority 1, or the default icon when none moves forward |
| LogicCursor.Cursor2d.constructor | crates/bevy_lunex/src/logic/cursor.rs:26-34 | a new cursor asks for the default icon at priority 0, has no atlas, is not confined and is visible |
| LogicCursor.Cursor2d.RequestCursor | crates/bevy_lunex/src/logic/cursor.rs:36-41 | a request replaces the current one only when its priority is strictly higher, and nothing else changes |
| LogicCursor.Cursor2d.SetIndex | crates/bevy_lunex/src/logic/cursor.rs:43-46 | `set_index` binds the icon to its index and offset and changes nothing else |
| LogicCursor.Cursor2d.Preupdate | crates/bevy_lunex/src/logic/cursor.rs:304-309 | the tick's reset puts back the default icon at priority 0 and changes nothing else |
| LogicCursor.Cursor2d.TextureIndex | crates/bevy_lunex/src/logic/cursor.rs:310-314 | the sprite index is the atlas index of the requested icon |
| LogicCursor.Cursor2d.OnHoverSetCursor | crates/bevy_lunex/src/logic/cursor.rs:331-339 | the loop over the hovered entities leaves the cursor as the rule's requests, applied in order, do |
| UiCursor.Clamp | crates/bevy_lunex_ui/src/code/cursor.rs:40-46 | the clamped index names an existing offset: the index itself when it is in range, otherwise the last offset |
| UiCursor.WithOsCursor | crates/bevy_lunex_ui/src/code/cursor.rs:26-29 | only the OS-cursor flag changes, to the value given |
| UiCursor.WithOffset | crates/bevy_lunex_ui/src/code/cursor.rs:30-33 | exactly one offset is added, at the end, and the rest of the cursor is unchanged |
| UiCursor.WithDefaultIndex | crates/bevy_lunex_ui/src/code/cursor.rs:40-43 | the default index names an existing offset and is the one asked for when that exists; nothing else changes |
| UiCursor.RequestIndex | crates/bevy_lunex_ui/src/code/cursor.rs:44-46 | the requested index names an existing offset and is the one asked for when that exists; nothing else changes |
| UiCursor.ResetRequest | crates/bevy_lunex_ui/src/code/cursor.rs:88-92 | the requested index falls back to the default and nothing else changes |
| UiCursor.SpriteOffset | crates/bevy_lunex_ui/src/code/cursor.rs:61-65 | the offset used is the requested one, or zero while no offset was added |
| UiCursor.Located | crates/bevy_lunex_ui/src/code/cursor.rs:49-85 | the sprite is visible exactly when the window reports a position; with none both locations are parked at -10000, the sprite keeps its translation and the OS cursor is left alone; with one the screen location is that position and the OS cursor's visibility is the cursor's flag; only the two locations change |
| UiCursor.LocatedTracksScreen | crates/bevy_lunex_ui/src/code/cursor.rs:66-73 | the window's centre maps to the camera's position, the top-left corner half a window left of and above it, and a move on screen is the same move in the world with y flipped |
| UiCursor.SpriteSitsOnCursor | crates/bevy_lunex_ui/src/code/cursor.rs:61-77 | the sprite is placed so that its requested offset, scaled, lands on the cursor's world location; with no offset it sits on the location itself |
| UiCursor.OperationsKeepValid | crates/bevy_lunex_ui/src/code/cursor.rs:16-46 | a new cursor has both indices in range (or zero with no offsets), and every builder, request and reset keeps them so |
| UiCursor.RequestThenReset | crates/bevy_lunex_ui/src/code/cursor.rs:44-92 | after a request and the tick's reset the default sprite shows again; a request for an existing index shows that sprite |
| UiCursor.Cursor.constructor | crates/bevy_lunex_ui/src/code/cursor.rs:16-25 | a new cursor has no offsets, indices 0, both locations at zero and the OS cursor on |
| UiCursor.Cursor.SetOsCursor | crates/bevy_lunex_ui/src/code/cursor.rs:26-29 | the new state is the OS-cursor update of the old |
| UiCursor.Cursor.AddSpriteOffset | crates/bevy_lunex_ui/src/code/cursor.rs:30-33 | the new state is the old with the offset pushed |
| UiCursor.Cursor.SetDefaultIndex | crates/bevy_lunex_ui/src/code/cursor.rs:40-43 | the new state is the clamped default-index update of the old |
| UiCursor.Cursor.RequestCursorIndex | crates/bevy_lunex_ui/src/code/cursor.rs:44-46 | the new state is the clamped request update of the old |
| UiCursor.Cursor.Update | crates/bevy_lunex_ui/src/code/cursor.rs:49-85 | the new state, the sprite translation and both visibilities are those of one cursor update of the old state |
| UiCursor.Cursor.Preupdate | crates/bevy_lunex_ui/src/code/cursor.rs:88-92 | the new state is the old with the request reset to the default |
| UiCursor.Cursor.TextureIndex | crates/bevy_lunex_ui/src/code/cursor.rs:95-99 | the sprite index is the requested cursor index |
| LunexStates.Clamp | crates/bevy_lunex/src/logic/states.rs:92 | the clamped value lies in the range, is the value itself inside it and the nearer bound outside it |
| LunexStates.IsForward | crates/bevy_lunex/src/logic/states.rs:82-84 | moving forward means a positive direction whose speed factor is exactly the forward speed; no direction at or below 0, and no new animation, moves forward |
| LunexStates.Advance | crates/bevy_lunex/src/logic/states.rs:91-92 | the transition a tick reaches stays in [0, 1] and is the moved transition whenever that already lies in [0, 1] |
| LunexStates.Tick | crates/bevy_lunex/src/logic/states.rs:86-94 | the change flag is set exactly when the transition differs from the last tick's, the last tick's becomes the current one, a receiver keeps its transition and any other moves to the advanced value in [0, 1]; nothing else changes |
| LunexStates.SetTransition | crates/bevy_lunex/src/logic/states.rs:19-27 | the event's transition replaces the entity's and nothing else changes |
| LunexStates.PipeEvents | crates/bevy_lunex/src/logic/states.rs:114-122 | a changing state sends its transition to every listed entity, in order; a state that is not changing sends nothing |
| LunexStates.Pipe | crates/bevy_lunex/src/logic/states.rs:114-122 | the pipe loop sends exactly the events the pipe rule specifies |
| LunexStates.ColorEvent | crates/bevy_lunex/src/logic/states.rs:142-151 | a colour is sent exactly while the state is changing, and it is the base colour mixed towards the state's colour by the transition |
| LunexStates.UiAnimation.constructor | crates/bevy_lunex/src/logic/states.rs:54-65 | a new animation is at rest at 0, neither changing nor a receiver, with both speeds 8 |
| LunexStates.UiAnimation.SetReceiver | crates/bevy_lunex/src/logic/states.rs:67-70 | only the receiver flag changes |
| LunexStates.UiAnimation.SetForwardSpeed | crates/bevy_lunex/src/logic/states.rs:72-75 | only the forward speed changes |
| LunexStates.UiAnimation.SetBackwardSpeed | crates/bevy_lunex/src/logic/states.rs:77-80 | only the backward speed changes |
| LunexStates.UiAnimation.Update | crates/bevy_lunex/src/logic/states.rs:86-94 | the new state is one tick of the old |
| LunexStates.UiAnimation.OnSetTransition | crates/bevy_lunex/src/logic/states.rs:19-27 | the new state is the old with the event's transition |
| LunexStates.UiAnimation.OnPointerOver | crates/bevy_lunex/src/logic/states.rs:158-164 | only the direction changes, to forward |
| LunexStates.UiAnimation.OnPointerOut | crates/bevy_lunex/src/logic/states.rs:167-173 | only the direction changes, to backward, so the state no longer moves forward |
| LunexStates.ForwardTickExample | crates/bevy_lunex/src/logic/states.rs:91-92 | from rest, a forward tick of 0.1 s at speed 5 reaches half way |
| LunexStates.TickMonotone | crates/bevy_lunex/src/logic/states.rs:91-92 | with non-negative tick and speeds, a forward tick never lowers the transition and a backward tick never raises it |
| LunexStates.SecondTickReportsFirstMove | crates/bevy_lunex/src/logic/states.rs:88-89 | the second of two ticks reports a change exactly when the first moved the transition |
| LunexStates.ReceiverKeepsPipedValue | crates/bevy_lunex/src/logic/states.rs:90 | a receiver keeps the transition it was sent through later ticks, and reports no change on the tick after next |
| LunexStates.PipeDeliversTransition | crates/bevy_lunex/src/logic/states.rs:114-122 | piping a changing state into a receiver hands the receiver the source's transition |
| LunexStructs.Index | crates/bevy_lunex/src/structs.rs:9-55 | every state marker's index is below 6 |
| LunexStructs.StateAt | crates/bevy_lunex/src/structs.rs:9-55 | an index names a marker exactly when it is below 6 |
| LunexStructs.IndexIsBijection | crates/bevy_lunex/src/structs.rs:16-55 | the indices 0 to 5 name the six markers one to one, Base at 0, so no two states share a slot of the per-state tables |
| LunexStructs.LinkPath | crates/bevy_lunex/src/structs.rs:278-283 | a link made from a path holds exactly that path |
| LunexStructs.Add | crates/bevy_lunex/src/structs.rs:284-289 | the child's path is the parent's, a '/', then the name |
| LunexStructs.AddIsChild | crates/bevy_lunex/src/structs.rs:284-289 | the child's path segments are the parent's followed by the name's, and for a plain name cutting at the last '/' gives back the parent and the name |
| LunexStructs.AddToNewLink | crates/bevy_lunex/src/structs.rs:290-305 | the default link is "/", so a child of it has two slashes before its name and cutting at the last '/' gives "/" back |
| LunexStructs.DefaultController | crates/bevy_lunex/src/structs.rs:259-267 | the default controller tweens from the first layout to the first layout, at 0, with the identity as smoothing |
| LunexStructs.NewTextSize | crates/bevy_lunex/src/structs.rs:106-116 | a new text size is one relative height, as tall as its node |
| LunexStructs.WithSize | crates/bevy_lunex/src/structs.rs:117-120 | the given size replaces the old one |
| NestingDiv.NewManager | examples/ui/nesting/src/div.rs:181-190 | a new manager knows the default theme under "dracula" alone, and that name is current with a copy of it |
| NestingDiv.Chosen | examples/ui/nesting/src/div.rs:197-201 | a registered name becomes current with a copy of its theme; an unknown name changes nothing |
| NestingDiv.Added | examples/ui/nesting/src/div.rs:202-204 | the theme is stored under the name, the current theme and its name are untouched, and the theme it replaced, if any, is handed back |
| NestingDiv.NameStaysRegistered | examples/ui/nesting/src/div.rs:180-205 | the current name is registered in a new manager, and choosing or adding a theme never loses it |
| NestingDiv.AddThenChoose | examples/ui/nesting/src/div.rs:197-204 | a theme added then chosen is current, and adding twice under one name hands back the first theme |
| NestingDiv.CurrentIsCopy | examples/ui/nesting/src/div.rs:183-204 | the current theme is a copy: replacing the registered theme of the current name leaves the current one as it was until it is chosen again |
| NestingDiv.ThemeManager.constructor | examples/ui/nesting/src/div.rs:181-190 | the new manager's state is that of a new manager |
| NestingDiv.ThemeManager.SetCurrent | examples/ui/nesting/src/div.rs:194-196 | a write through the mutable access replaces the current theme only |
| NestingDiv.ThemeManager.SetTheme | examples/ui/nesting/src/div.rs:197-201 | the new state is the old with the name chosen |
| NestingDiv.ThemeManager.Add | examples/ui/nesting/src/div.rs:202-204 | the new state and the returned theme are those of adding the theme to the old state |
| NestingDiv.ColorOf | examples/ui/nesting/src/div.rs:222-237 | a custom colour is returned as carried, a base shade gives the pack's base colour whatever the shade, and every other theme colour is one of the pack's nine colours |
| NestingDiv.ColorOfReadsPack | examples/ui/nesting/src/div.rs:222-237 | a theme colour depends on the theme's colour pack alone, a custom one on nothing, and the shade of a base colour is ignored |
| NestingDiv.NewButton | examples/ui/nesting/src/div.rs:296-298 | a new button has the primary colour and no attribute set |
| NestingDiv.WithAttribute | examples/ui/nesting/src/div.rs:8-15 | the attribute becomes set, the others and the colour are untouched |
| NestingDiv.WithColor | examples/ui/nesting/src/div.rs:17-64 | the theme colour is replaced and the attributes are untouched |
| NestingDiv.Base100 | examples/ui/nesting/src/div.rs:40-43 | base100 is the base colour with shade 100 |
| NestingDiv.BuildersCommute | examples/ui/nesting/src/div.rs:8-64 | attribute builders commute and repeat harmlessly and keep the colour; the last colour builder wins and none touches the attributes |
| NestingParameter.Pieces | examples/future_WIP/nesting/src/parameter.rs:26-40 | the text always yields at least one piece |
| NestingParameter.Kept | examples/future_WIP/nesting/src/parameter.rs:31-32 | trimming and dropping empty pieces never adds pieces |
| NestingParameter.KeptPiece | examples/future_WIP/nesting/src/parameter.rs:31-32 | a piece yields at most one kept text |
| NestingParameter.KeptClean | examples/future_WIP/nesting/src/parameter.rs:31-40 | every kept piece is non-empty and already trimmed |
| NestingParameter.SplitParameter | examples/future_WIP/nesting/src/parameter.rs:20-42 | every piece is trimmed and not empty |
| NestingParameter.SplitParameterLoop | examples/future_WIP/nesting/src/parameter.rs:20-42 | the loop over the characters produces exactly the trimmed, non-empty pieces of the text cut at the commas outside brackets |
| NestingParameter.SplitNext | examples/future_WIP/nesting/src/parameter.rs:27-36 | one character of the loop keeps the pieces still to come consistent with the whole split |
| NestingParameter.CutPiece | examples/future_WIP/nesting/src/parameter.rs:30-34 | a comma outside brackets keeps the piece read so far when it is non-empty after trimming |
| NestingParameter.LastPiece | examples/future_WIP/nesting/src/parameter.rs:39-40 | after the loop the rest of the text is kept when it is non-empty after trimming |
| NestingParameter.PiecesExtend | examples/future_WIP/nesting/src/parameter.rs:28-35 | a bracket or an ordinary character joins the piece being read, and a bracket sets or clears the bracket flag |
| NestingParameter.PiecesCut | examples/future_WIP/nesting/src/parameter.rs:30-34 | a comma outside brackets ends the piece being read and starts an empty one |
| NestingParameter.KeptConcat | examples/future_WIP/nesting/src/parameter.rs:31-40 | trimming and dropping pieces distributes over concatenation |
| NestingParameter.PiecesRejoin | examples/future_WIP/nesting/src/parameter.rs:26-40 | the pieces joined back with commas give the text again, so the split only cuts at commas |
| NestingParameter.PiecesWithoutBrackets | examples/future_WIP/nesting/src/parameter.rs:28-34 | with no brackets to come, no piece holds a comma |
| NestingParameter.SplitWithoutBrackets | examples/future_WIP/nesting/src/parameter.rs:20-42 | without brackets the split is a plain split at commas, trimmed, with the empty pieces dropped |
| NestingParameter.NestedBracketsEndEarly | examples/future_WIP/nesting/src/parameter.rs:28-29 | the first closing bracket ends bracket mode, so in f(a(b),c) the comma after (b) cuts |
| NestingParameter.TrimParens | examples/future_WIP/nesting/src/parameter.rs:67-72 | the result is never longer than the text trimmed of whitespace |
| NestingParameter.TrimParensUnwraps | examples/future_WIP/nesting/src/parameter.rs:67-72 | a text without whitespace or brackets at its ends is its own trim, and brackets around it are exactly what trim takes off |
| NestingParameter.ComplexValuesAsWritten | examples/future_WIP/nesting/src/parameter.rs:55 | the slice as written succeeds exactly when the untrimmed right side has at least 3 characters and its length minus 2 does not pass the trimmed side |
| NestingParameter.ComplexValues | examples/future_WIP/nesting/src/parameter.rs:55 | the corrected slice succeeds exactly when the trimmed right side has at least the two brackets |
| NestingParameter.ParseWith | examples/future_WIP/nesting/src/parameter.rs:44-65 | a piece without a colon is a bare word, unchanged |
| NestingParameter.ParseParameterAsWritten | examples/future_WIP/nesting/src/parameter.rs:44-65 | a piece without `:` is kept as a bare word; a list succeeds exactly when the untrimmed right side is at least 3 long and at most 2 longer than the trimmed one (otherwise the slice panics); list values are trimmed and not empty |
| NestingParameter.ParseParameter | examples/future_WIP/nesting/src/parameter.rs:44-65 | with the slice corrected: a piece without `:` is a bare word; a list succeeds exactly when its trimmed right side has at least two characters; list values are trimmed and not empty |
| NestingParameter.DefinedRoundTrip | examples/future_WIP/nesting/src/parameter.rs:47-52 | a clean name and a clean value without a comma written as name:value parse back to that pair, as written and corrected |
| NestingParameter.BlankValueIsSimple | examples/future_WIP/nesting/src/parameter.rs:47-49 | a name with a blank right side parses to the trimmed name alone |
| NestingParameter.KeptUntouched | examples/future_WIP/nesting/src/parameter.rs:56-59 | values that are trimmed and non-empty are kept as they are |
| NestingParameter.JoinHasComma | examples/future_WIP/nesting/src/parameter.rs:47 | two or more values joined with commas hold a comma, so they take the list branch |
| NestingParameter.WrappedValues | examples/future_WIP/nesting/src/parameter.rs:53-59 | values joined with commas inside brackets hold a comma and, corrected, give the values back |
| NestingParameter.WrappedHasComma | examples/future_WIP/nesting/src/parameter.rs:47 | brackets around two or more joined values hold a comma |
| NestingParameter.Unwrap | examples/future_WIP/nesting/src/parameter.rs:55-59 | corrected, the values of a bracketed text are the kept pieces of its inside |
| NestingParameter.ParseComplex | examples/future_WIP/nesting/src/parameter.rs:53-61 | a clean name and a right side with a comma parse to the name and the values of the right side |
| NestingParameter.ComplexRoundTrip | examples/future_WIP/nesting/src/parameter.rs:44-65 | corrected, a list written as name:(v1,...,vn) with clean values parses back to the name and the values |
| NestingParameter.AsWrittenDropsLastChar | examples/future_WIP/nesting/src/parameter.rs:55 | as written, a bracketed list holding a comma yields the pieces of its inside without the inside's last character |
| NestingParameter.ParseComplexAsWritten | examples/future_WIP/nesting/src/parameter.rs:53-61 | as written, a clean name and a right side with a comma parse to the name and the as-written values |
| NestingParameter.AsWrittenSlice | examples/future_WIP/nesting/src/parameter.rs:55 | as written, the slice of a bracketed text stops one character before its closing bracket |
| NestingParameter.ComplexDropsLastValue | examples/future_WIP/nesting/src/parameter.rs:55 | name:(a,b) gives only a as written, and a and b corrected |
| NestingParameter.ShortListPanics | examples/future_WIP/nesting/src/parameter.rs:55 | as written, the right side "," makes the slice panic |
| NestingParameter.ParseAll | examples/future_WIP/nesting/src/parameter.rs:10-17 | parsing succeeds exactly when every piece parses, and then gives each piece's parameter in order |
| NestingParameter.Parse | examples/future_WIP/nesting/src/parameter.rs:10-17 | parsing a list is splitting it and parsing each piece in order as written, failing where the written list slice panics |
| NestingParameter.ParseCorrected | examples/future_WIP/nesting/src/parameter.rs:10-17 | the same loop with the list slice corrected parses each piece with the corrected parser |
| NestingParameter.ParseListExample | examples/future_WIP/nesting/src/parameter.rs:10-61 | as written `m:(a,b)` parses to a list holding only `a`; corrected it holds `a` and `b` |
| NestingParameter.ParseEach | examples/future_WIP/nesting/src/parameter.rs:13-15 | the loop over the pieces gives each piece's parameter in order, or fails when one piece fails |
| CoreContainer.Offset | crates/bevy_lunex_core/src/code/container.rs:47-58 | a point with no relative part is the parent's corner plus the pixels, and 100 percent with no pixels is the parent's far corner |
| CoreContainer.WindowCalculate | crates/bevy_lunex_core/src/code/container.rs:47-58 | the window's corner is its offset from the parent's corner, and with no relative size its size is the pixel size |
| CoreContainer.RelativeCalculate | crates/bevy_lunex_core/src/code/container.rs:110-124 | the placement starts at the first corner's offset and ends exactly at the second corner's offset |
| CoreContainer.SolidCalculate | crates/bevy_lunex_core/src/code/container.rs:180-202 | the width is the declared width scaled by the smaller ratio of parent to declared size when fitting, by the larger when filling |
| CoreContainer.PackageCalculate | crates/bevy_lunex_core/src/code/container.rs:399-412 | a package is calculated by the layout its variant holds |
| CoreContainer.DefaultWindow | crates/bevy_lunex_core/src/code/container.rs:61-70 | the default window sits at the parent's corner with 100 percent of its width and height |
| CoreContainer.DefaultRelative | crates/bevy_lunex_core/src/code/container.rs:127-134 | the default relative layout runs from the parent's first corner to 100 percent of it |
| CoreContainer.DefaultSolid | crates/bevy_lunex_core/src/code/container.rs:235-243 | the default solid is a centred, fitted square |
| CoreContainer.DefaultPackage | crates/bevy_lunex_core/src/code/container.rs:325-329 | the default package is the default relative layout |
| CoreContainer.ExpectWindow | crates/bevy_lunex_core/src/code/container.rs:278-285 | a window package yields the window it holds; any other variant panics |
| CoreContainer.ExpectRelative | crates/bevy_lunex_core/src/code/container.rs:286-293 | a relative package yields the layout it holds; any other variant panics |
| CoreContainer.ExpectSolid | crates/bevy_lunex_core/src/code/container.rs:294-301 | a solid package yields the layout it holds; any other variant panics |
| CoreContainer.InvertY | crates/bevy_lunex_core/src/code/container.rs:350-360 | both corners are mirrored on the x axis and the size and depth kept |
| CoreContainer.GetPos | crates/bevy_lunex_core/src/code/container.rs:361-368 | 0 percent is the first corner and 100 percent the first corner plus the size |
| CoreContainer.GetPosYInverted | crates/bevy_lunex_core/src/code/container.rs:369-376 | the y-inverted point is the point at the same relative x and the negated relative y |
| CoreContainer.Container.constructor | crates/bevy_lunex_core/src/code/container.rs:389-398 | a new container caches the default position and holds the default package |
| CoreContainer.Container.Calculate | crates/bevy_lunex_core/src/code/container.rs:399-412 | the layout is kept and the cache becomes the calculated placement with its second corner at the first plus the size, keeping the depth |
| CoreContainer.Container.LayoutSet | crates/bevy_lunex_core/src/code/container.rs:420-424 | the layout is replaced and the cache kept |
| CoreContainer.CacheSpansSize | crates/bevy_lunex_core/src/code/container.rs:399-412 | the cached second corner is the first corner plus the cached size |
| CoreContainer.RelativeIsWindow | crates/bevy_lunex_core/src/code/container.rs:47-124 | a relative layout places like the window at its first corner whose size is the difference of its corners |
| CoreContainer.DefaultsCoverParent | crates/bevy_lunex_core/src/code/container.rs:61-134 | the default window, the default relative layout and the default package all cover the parent exactly |
| CoreContainer.SolidIsEngineSolid | crates/bevy_lunex_core/src/code/container.rs:180-202 | the solid calculation agrees with the Solid placement of the lunex_engine layouts |
| CoreContainer.SolidProperties | crates/bevy_lunex_core/src/code/container.rs:180-202 | the solid keeps its aspect ratio, fitting stays inside a non-negative parent and filling covers it (each touching one axis), and anchor 0 centres it |
| CoreContainer.InvertYInvolution | crates/bevy_lunex_core/src/code/container.rs:350-360 | inverting y twice restores the position |
| CoreTree.NewBranch | crates/bevy_lunex_core/src/code/tree.rs:503-522 | a new branch has the given name, id, path, level and parent visibility, is active and visible and not in focus, starts at the root depth with a new container, and has no data and no children |
| CoreTree.RootBranch | crates/bevy_lunex_core/src/code/tree.rs:32-49 | the root is ROOT with id 0 at level 0, visible, laid out from the parent's first corner to its second |
| CoreTree.GetDepth | crates/bevy_lunex_core/src/code/tree.rs:164-170 | the depth is the level steps plus the branch's own depth, raised by exactly the highlight step while in focus |
| CoreTree.DepthSteps | crates/bevy_lunex_core/src/code/tree.rs:164-170 | focus raises the depth by exactly the highlight step, and one level down is one level step deeper |
| CoreTree.GetPath | crates/bevy_lunex_core/src/code/tree.rs:180-188 | the root (level 0) has the empty path; any other branch's path ends with its name, and with a parent path it is that path, '/' and the name |
| CoreTree.IsVisible | crates/bevy_lunex_core/src/code/tree.rs:198-200 | a branch is shown only when both it and its parent are, so a hidden parent hides it whatever its own flag |
| CoreTree.CascadeVisibility | crates/bevy_lunex_core/src/code/tree.rs:480-484 | the branch takes the parent visibility given and nothing but its children's visibility changes below it |
| CoreTree.SetVisibility | crates/bevy_lunex_core/src/code/tree.rs:206-213 | the flag is set; the effective visibility becomes the flag and the parent's; the children are cascaded the new effective visibility only when it changed |
| CoreTree.CascadeVisibilityConsistent | crates/bevy_lunex_core/src/code/tree.rs:472-484 | after a cascade every child's parent visibility is its parent's effective visibility |
| CoreTree.SetVisibilityConsistent | crates/bevy_lunex_core/src/code/tree.rs:206-213 | setting the visibility keeps every parent and child in agreement |
| CoreTree.SetDepth | crates/bevy_lunex_core/src/code/tree.rs:172-174 | the branch takes the depth and nothing else changes at its own level |
| CoreTree.SetDepthSelfOnly | crates/bevy_lunex_core/src/code/tree.rs:176-178 | despite its name it leaves the branch's own depth alone and gives every descendant the depth |
| CoreTree.SetDepthReachesAll | crates/bevy_lunex_core/src/code/tree.rs:493-497 | after setting the depth the branch and all its descendants are at that depth |
| CoreTree.FreeFrom | crates/bevy_lunex_core/src/code/tree.rs:526-533 | the id found is free, at or above the start, and every id between is taken |
| CoreTree.AboveShrinks | crates/bevy_lunex_core/src/code/tree.rs:526-533 | the taken ids above a taken id are fewer than those from it, so the search ends |
| CoreTree.SmallestFreeId | crates/bevy_lunex_core/src/code/tree.rs:526-533 | the id chosen is free and every smaller id is taken |
| CoreTree.SmallestFreeIdBound | crates/bevy_lunex_core/src/code/tree.rs:526-533 | no id larger than the number of children is ever needed |
| CoreTree.CoveredSize | crates/bevy_lunex_core/src/code/tree.rs:526-533 | a set holding every id below a bound has at least that many elements |
| CoreTree.NextFreeId | crates/bevy_lunex_core/src/code/tree.rs:526-533 | the counting loop settles on the smallest free id |
| CoreTree.CreateSimple | crates/bevy_lunex_core/src/code/tree.rs:525-548 | a new branch goes in under the smallest free id, one level down and inheriting the branch's effective visibility, with its path naming it or its id; the id path is returned and nothing else changes |
| CoreTree.CreateLinked | crates/bevy_lunex_core/src/code/tree.rs:551-563 | an empty name makes a nameless branch; a taken name creates nothing and is an error; a fresh name also gets a shortcut to the new branch and is returned |
| CoreTree.ShortcutAdd | crates/bevy_lunex_core/src/code/tree.rs:566-572 | a taken name is refused and changes nothing; otherwise the path is registered and the name translates to it |
| CoreTree.TranslateSimple | crates/bevy_lunex_core/src/code/tree.rs:575-580 | a name translates exactly when it has a shortcut, to that shortcut's path; otherwise the error names it |
| CoreTree.At | crates/bevy_lunex_core/src/code/tree.rs:587-595 | one step down is the child under that id |
| CoreTree.Replace | crates/bevy_lunex_core/src/code/tree.rs:625-660 | writing a descendant back reaches the same path and finds the new branch there, changing only the children at each level |
| CoreTree.ReachesAppend | crates/bevy_lunex_core/src/code/tree.rs:614-622 | descending along a path then along another is descending along both |
| CoreTree.ReachesPrefix | crates/bevy_lunex_core/src/code/tree.rs:614-622 | what can be reached along a path can be reached along each of its prefixes, and from there along the rest |
| CoreTree.SizeOfCovers | crates/bevy_lunex_core/src/code/tree.rs:587-595 | a child is never bigger than its parent's children together |
| CoreTree.AtSmaller | crates/bevy_lunex_core/src/code/tree.rs:614-622 | a descendant is strictly smaller than the branch, so descents end |
| CoreTree.ParseId | crates/bevy_lunex_core/src/code/tree.rs:587-595 | an id segment parses exactly when the text after its first character is a usize, and the error names that text otherwise |
| CoreTree.BorrowSimple | crates/bevy_lunex_core/src/code/tree.rs:587-595 | a borrow by id succeeds exactly when the id parses and is a child, giving that child; otherwise the error says which step failed |
| CoreTree.Lookup | crates/bevy_lunex_core/src/code/tree.rs:598-622 | a successful lookup is a non-empty path of ids that can be descended |
| CoreTree.Segment | crates/bevy_lunex_core/src/code/tree.rs:598-611 | a successful lookup of one segment is a non-empty path of ids that can be descended |
| CoreTree.BorrowSimpleChecked | crates/bevy_lunex_core/src/code/tree.rs:598-611 | an empty name is a syntax error, an id segment is borrowed by id, and any other name needs a shortcut |
| CoreTree.BorrowLinkedChecked | crates/bevy_lunex_core/src/code/tree.rs:614-622 | a path without '/' is one segment, and the empty path is a syntax error |
| CoreTree.BorrowById | crates/bevy_lunex_core/src/code/tree.rs:587-622 | the path of an id finds exactly the child under that id, or reports that no such branch exists |
| CoreTree.IdPathParses | crates/bevy_lunex_core/src/code/tree.rs:587-595 | the path of an id is one non-empty numeric segment that parses back to the id |
| CoreTree.DropSimple | crates/bevy_lunex_core/src/code/tree.rs:667-675 | a drop by id succeeds exactly when the borrow would, with the same error otherwise, and removes just that child |
| CoreTree.DropLinked | crates/bevy_lunex_core/src/code/tree.rs:694-702 | a successful drop changes only the children of the branch |
| CoreTree.DropSegment | crates/bevy_lunex_core/src/code/tree.rs:678-691 | a successful drop of one segment changes only the children of the branch |
| CoreTree.DropLinkedLikeLookup | crates/bevy_lunex_core/src/code/tree.rs:694-702 | dropping succeeds exactly where borrowing does, with the same error |
| CoreTree.DropSegmentLikeSegment | crates/bevy_lunex_core/src/code/tree.rs:678-691 | dropping a segment succeeds exactly where borrowing it does, with the same error |
| CoreTree.DropLinkedRemovesTarget | crates/bevy_lunex_core/src/code/tree.rs:694-702 | after a drop the branch the lookup found is gone from its parent |
| CoreTree.RemovedBelow | crates/bevy_lunex_core/src/code/tree.rs:652-702 | a branch removed below a descendant stays removed once the descendant is written back |
| CoreTree.DropSegmentRemovesTarget | crates/bevy_lunex_core/src/code/tree.rs:678-691 | after a drop of one segment the branch it named is gone from its parent |
| CoreTree.RemoveSimpleChecked | crates/bevy_lunex_core/src/code/tree.rs:705-717 | a name without a shortcut is an error and changes nothing; otherwise the drop through the shortcut decides, and only a successful drop also removes the shortcut |
| CoreTree.CreateLinkedThenBorrow | crates/bevy_lunex_core/src/code/tree.rs:551-622 | a branch made under a fresh plain name is found through that name |
| CoreTree.CreateLinkedThenRemove | crates/bevy_lunex_core/src/code/tree.rs:551-717 | removing a branch by the name it was created under gives back the branch as it was before |
| CoreTree.DistinctSize | crates/bevy_lunex_core/src/code/tree.rs:720-735 | a list without repeats has as many elements as its set |
| CoreTree.MarkDangling | crates/bevy_lunex_core/src/code/tree.rs:720-729 | the first pass marks every shortcut that does not resolve, each once |
| CoreTree.RemoveInvalid | crates/bevy_lunex_core/src/code/tree.rs:720-735 | exactly the shortcuts that do not resolve are removed, and their number is returned |
| CoreTree.MergeStep | crates/bevy_lunex_core/src/code/tree.rs:266-331 | one turn of the merge loop keeps the merge invariant |
| CoreTree.MergeShortcutsStep | crates/bevy_lunex_core/src/code/tree.rs:266-331 | one turn keeps the shortcuts invariant of the merge |
| CoreTree.MergeInventoryStep | crates/bevy_lunex_core/src/code/tree.rs:266-331 | one turn keeps the children invariant of the merge |
| CoreTree.MergePendingStep | crates/bevy_lunex_core/src/code/tree.rs:266-331 | one turn keeps the branches still to move consistent with the shortcuts still to do |
| CoreTree.MergeDoneStep | crates/bevy_lunex_core/src/code/tree.rs:266-331 | one turn keeps every done shortcut moved |
| CoreTree.MovedKept | crates/bevy_lunex_core/src/code/tree.rs:266-331 | moving one shortcut does not disturb another already moved |
| CoreTree.FindCollision | crates/bevy_lunex_core/src/code/tree.rs:268-274 | a taken name is reported exactly when some incoming shortcut name is already in use, and the one reported is such a name |
| CoreTree.MergeBranch | crates/bevy_lunex_core/src/code/tree.rs:266-331 | a clash of shortcut names is an error naming it and changes nothing; otherwise the shortcuts become both sets, the old ones unchanged, every old child stays, one child is added per incoming shortcut, and every incoming shortcut is moved to a fresh id and rewritten to it |
| CoreTree.MergeStart | crates/bevy_lunex_core/src/code/tree.rs:266-331 | the merge invariant holds before the loop |
| CoreTree.MergeFinish | crates/bevy_lunex_core/src/code/tree.rs:266-331 | the merge invariant with nothing left to do gives the outcome of the merge |
| CoreTree.CascadeUpdate | crates/bevy_lunex_core/src/code/tree.rs:463-470 | the branch's cached position is its layout calculated in the given box, the layout kept and no child added or lost |
| CoreTree.ChildInParentBox | crates/bevy_lunex_core/src/code/tree.rs:463-470 | each child is laid out in its parent's freshly calculated box |
| CoreTree.CascadeUpdateIdempotent | crates/bevy_lunex_core/src/code/tree.rs:463-470 | updating twice in the same box changes nothing more |
| CoreTree.UiTree.constructor | crates/bevy_lunex_core/src/code/tree.rs:32-49 | a new tree has zero size and offset and the root branch |
| CoreTree.UiTree.Update | crates/bevy_lunex_core/src/code/tree.rs:51-54 | the whole tree is laid out in the tree's size at the origin and the size and offset are kept |
| CoreTree.UiTree.Merge | crates/bevy_lunex_core/src/code/tree.rs:78-80 | merging a tree fails and changes nothing on a clash of shortcut names, and otherwise the shortcuts become both sets |
| CoreWidget.New | crates/bevy_lunex_core/src/code/widget.rs:657-662 | the widget keeps the path, and its name is the path's last segment: the whole path when it has no '/', and otherwise what follows the last '/' |
| CoreWidget.End | crates/bevy_lunex_core/src/code/widget.rs:874-876 | the extended path is the widget's path, a '/', then the segment |
| CoreWidget.Str | crates/bevy_lunex_core/src/code/widget.rs:859-861 | the new widget's path is the extended path, and for a plain segment its name is that segment |
| CoreWidget.Add | crates/bevy_lunex_core/src/code/widget.rs:845-847 | the new widget lies under this one and carries the other widget's name |
| CoreWidget.LastSegmentOf | crates/bevy_lunex_core/src/code/widget.rs:657-662 | the last segment of a path extended by a plain segment is that segment, and what comes before is the path |
| CoreWidget.Find | crates/bevy_lunex_core/src/code/widget.rs:117-128 | a mutable fetch succeeds exactly when the path resolves, giving a non-empty path of ids that can be descended, and otherwise reports the lookup's error with the path |
| CoreWidget.Fetch | crates/bevy_lunex_core/src/code/widget.rs:54-62 | a fetch finds the branch the widget's path names, and otherwise reports the borrow's error with the path |
| CoreWidget.FetchExt | crates/bevy_lunex_core/src/code/widget.rs:84-97 | an extended fetch with an empty sub-path is the plain fetch, and otherwise the fetch of the widget one segment further down |
| CoreWidget.Insert | crates/bevy_lunex_core/src/code/widget.rs:266-290 | the value is stored under its key in the map of its kind, over any earlier value, and every other entry is unchanged |
| CoreWidget.SetData | crates/bevy_lunex_core/src/code/widget.rs:266-290 | a missing data record is created empty before the value is stored, and every other entry reads as before |
| CoreWidget.FetchDataSet | crates/bevy_lunex_core/src/code/widget.rs:266-638 | a data set fails exactly when the fetch fails, and then changes nothing |
| CoreWidget.SameShapeRefl | crates/bevy_lunex_core/src/code/widget.rs:266-290 | every tree has its own shape |
| CoreWidget.ReplaceSameShape | crates/bevy_lunex_core/src/code/widget.rs:266-290 | writing back a branch of the same shape keeps the shape of the whole tree |
| CoreWidget.SameShapeAt | crates/bevy_lunex_core/src/code/widget.rs:266-290 | trees of the same shape reach the same descendants, again of the same shape |
| CoreWidget.LookupSameShape | crates/bevy_lunex_core/src/code/widget.rs:266-290 | a path lookup sees only the shape of the tree, not its data |
| CoreWidget.SegmentSameShape | crates/bevy_lunex_core/src/code/widget.rs:266-290 | a segment lookup sees only the shape of the tree, not its data |
| CoreWidget.FetchDataSetThenRead | crates/bevy_lunex_core/src/code/widget.rs:266-323 | after a data set the same fetch finds the branch and reads the value back, and every other entry is as before |
| CoreWidget.SkipNumeric | crates/bevy_lunex_core/src/code/widget.rs:711-714 | the skip stops at or below its start, at the first segment or at one that is not an id segment, and every segment it passed is an id segment |
| CoreWidget.Layout | crates/bevy_lunex_core/src/code/widget.rs:692-728 | the name is the path's last segment and holds no '/' |
| CoreWidget.LayoutOfJoined | crates/bevy_lunex_core/src/code/widget.rs:692-728 | a path made of parent segments, id segments and a plain name is read back into those three parts |
| CoreWidget.NoDelimiterIn | crates/bevy_lunex_core/src/code/widget.rs:694 | segments that hold no '/' stay so when put together |
| CoreWidget.SkipStopsAtParent | crates/bevy_lunex_core/src/code/widget.rs:711-714 | the skip over id segments stops at the parent's last segment |
| CoreWidget.LayoutOfSegment | crates/bevy_lunex_core/src/code/widget.rs:692-728 | a path with no '/' has no parent and no id segments: the branch goes in the root |
| CoreWidget.CreateIn | crates/bevy_lunex_core/src/code/widget.rs:730-790 | a created widget is well formed; a parent that cannot be fetched is reported and changes nothing; with id segments the branch is made in the branch they lead to and the name registered on the parent |
| CoreWidget.ReadPath | crates/bevy_lunex_core/src/code/widget.rs:692-728 | the loops that read the path produce the parent path, the id segments and the name |
| CoreWidget.SkipSegments | crates/bevy_lunex_core/src/code/widget.rs:706-719 | the backwards loop stops after the parent and joins the id segments it skipped |
| CoreWidget.JoinPrefix | crates/bevy_lunex_core/src/code/widget.rs:722-727 | the forward loop joins the segments before the stop with '/' |
| CoreWidget.Create | crates/bevy_lunex_core/src/code/widget.rs:692-790 | creating is reading the path and then updating the tree |
| CoreWidget.CreateInRoot | crates/bevy_lunex_core/src/code/widget.rs:730-742 | creating a fresh plain name in the root makes a branch that a fetch of the new widget finds |
| CoreWidget.CreateNamelessInRoot | crates/bevy_lunex_core/src/code/widget.rs:730-742 | a nameless widget in the root gets the id path of its new branch, which a fetch finds |
| CoreWidget.CreateInParent | crates/bevy_lunex_core/src/code/widget.rs:745-790 | creating parent/name makes the branch inside the parent, where the name now leads to it |
| CoreWidget.DropExt | crates/bevy_lunex_core/src/code/widget.rs:798-805 | a widget that cannot be fetched is reported and nothing changes; a failed drop changes nothing; a successful one drops the sub-path from the widget's branch only |
| CoreWidget.DropExtRemovesTarget | crates/bevy_lunex_core/src/code/widget.rs:798-805 | after the drop the branch the sub-path led to is no longer among its parent's children |
| CoreWidget.Remove | crates/bevy_lunex_core/src/code/widget.rs:809-816 | a widget that cannot be fetched or a key without a shortcut is reported and nothing changes; the remove succeeds exactly when the key is a shortcut whose linked branch can be dropped, and then the widget's branch becomes that drop with the key's shortcut removed, every other failure leaving the tree unchanged |
| CoreWidget.RemoveDropsTarget | crates/bevy_lunex_core/src/code/widget.rs:809-816 | after a successful remove the branch the key led to is no longer among its parent's children and the key is no longer a shortcut of the widget's branch |
| CoreWidget.RemoveInvalid | crates/bevy_lunex_core/src/code/widget.rs:820-827 | the widget's branch loses exactly the shortcuts that lead nowhere and their number is returned; a widget that cannot be fetched is reported |
| CoreWidget.ContainsPosition | crates/bevy_lunex_core/src/code/widget.rs:884-912 | the answer is given exactly when the fetch succeeds, and is whether the point lies strictly inside the branch's cached position |
| CoreWidget.CornersOutside | crates/bevy_lunex_core/src/code/widget.rs:884-912 | neither corner of a position lies strictly inside it, nor does anything in a box of zero width |
| UtilityElement.DefaultElement | crates/bevy_lunex_utility/src/code/element.rs:42-58 | a default element is centred in its widget, with a 50 by 50 boundary, full scale, depth 0 and no forced size |
| UtilityElement.Fullfill | crates/bevy_lunex_utility/src/code/element.rs:63-65 | a filling element has a 1 by 1 boundary stretched to 100 percent both ways, and is otherwise the default |
| UtilityElement.DefaultPlacement | crates/bevy_lunex_utility/src/code/element.rs:282-295 | the parameters' placement defaults to the widget's top-left corner at full scale with no forced size, at the given depth |
| UtilityElement.DefaultImageParams | crates/bevy_lunex_utility/src/code/element.rs:282-295 | default image parameters are anchored top-left, white, unflipped, at depth 0 |
| UtilityElement.DefaultTextParams | crates/bevy_lunex_utility/src/code/element.rs:560-572 | default text parameters are anchored centre-left, left-aligned, with the default style, at depth 3 in front of images |
| UtilityElement.AnchorPoint | crates/bevy_lunex_utility/src/code/element.rs:299-371 | the point an anchor names lies in the widget, on the top edge exactly for the top anchors, on the bottom exactly for the bottom ones, and likewise for left and right |
| UtilityElement.AnchorAlignment | crates/bevy_lunex_utility/src/code/element.rs:576-657 | a text preset is left-aligned exactly when its anchor is on the left edge and right-aligned exactly when it is on the right |
| UtilityElement.ImagePreset | crates/bevy_lunex_utility/src/code/element.rs:299-371 | each image preset is the default parameters with the anchor at the point of the widget it names |
| UtilityElement.TextPreset | crates/bevy_lunex_utility/src/code/element.rs:576-657 | each text preset is the default parameters with the anchor at the point it names and the text aligned to that side |
| UtilityElement.TopLeftIsDefault | crates/bevy_lunex_utility/src/code/element.rs:307-313 | the top-left image preset is the default |
| UtilityElement.At | crates/bevy_lunex_utility/src/code/element.rs:375-378 | only the relative position changes, to the point given |
| UtilityElement.AtX | crates/bevy_lunex_utility/src/code/element.rs:381-384 | only the relative x changes |
| UtilityElement.AtY | crates/bevy_lunex_utility/src/code/element.rs:387-390 | only the relative y changes |
| UtilityElement.AtAbs | crates/bevy_lunex_utility/src/code/element.rs:393-396 | only the pixel position changes, to the point given |
| UtilityElement.AtXAbs | crates/bevy_lunex_utility/src/code/element.rs:399-402 | only the pixel x changes |
| UtilityElement.AtYAbs | crates/bevy_lunex_utility/src/code/element.rs:405-408 | only the pixel y changes |
| UtilityElement.WithScale | crates/bevy_lunex_utility/src/code/element.rs:411-414 | only the scale changes |
| UtilityElement.WithDepth | crates/bevy_lunex_utility/src/code/element.rs:435-438 | only the depth changes |
| UtilityElement.WithWidth | crates/bevy_lunex_utility/src/code/element.rs:441-444 | only the forced width changes |
| UtilityElement.WithHeight | crates/bevy_lunex_utility/src/code/element.rs:447-450 | only the forced height changes |
| UtilityElement.AtComponents | crates/bevy_lunex_utility/src/code/element.rs:375-408 | setting x then y is setting both at once, in either order, for the relative and the pixel position |
| UtilityElement.ImageElement | crates/bevy_lunex_utility/src/code/element.rs:203-231 | an image element takes the parameters' placement and the image's own dimensions as its boundary |
| UtilityElement.TextElement | crates/bevy_lunex_utility/src/code/element.rs:491-509 | a text element takes the parameters' placement and the text's estimated size at the style's font size as its boundary |
| UtilityElement.FindSep | crates/bevy_lunex_utility/src/code/element.rs:740 | the line break found is the first at or after the start, and none is reported only when there is none |
| UtilityElement.SplitLines | crates/bevy_lunex_utility/src/code/element.rs:740 | a text always has at least one line |
| UtilityElement.SplitLinesJoin | crates/bevy_lunex_utility/src/code/element.rs:740 | no line holds the break, and joining the lines back with it gives the text |
| UtilityElement.LongestLineIsMax | crates/bevy_lunex_utility/src/code/element.rs:741-746 | the width counted is the maximum: no line is longer, and some line is that long |
| UtilityElement.ScaledMonotone | crates/bevy_lunex_utility/src/code/element.rs:748-751 | more characters never take less room at a non-negative size |
| UtilityElement.LinesFitWidth | crates/bevy_lunex_utility/src/code/element.rs:741-751 | at a non-negative font size every line fits in the width the longest line takes |
| UtilityElement.TextComputeSizeSimple | crates/bevy_lunex_utility/src/code/element.rs:734-752 | at a non-negative font size every line fits in the width, and the height is 0.6 of the font size per line, with at least one line |
| UtilityElement.ComputeTextSize | crates/bevy_lunex_utility/src/code/element.rs:734-752 | the loop computes the estimated size of the text |
| UtilityElement.EmptyTextIsOneLine | crates/bevy_lunex_utility/src/code/element.rs:734-752 | empty text is one empty line: no width, one line's height |
| UtilityElement.SingleLineSize | crates/bevy_lunex_utility/src/code/element.rs:734-752 | a text without a break is one line as wide as its characters |
| UtilityElement.WidthFitsEveryLine | crates/bevy_lunex_utility/src/code/element.rs:734-752 | every line fits in the computed width, some line fills it, and the height is one line's height per line |
| UtilityGrid.DefaultCell | crates/bevy_lunex_utility/src/code/grid.rs:1062-1086 | a default cell is 10 by 10, unnamed and in the middle |
| UtilityGrid.Sized | crates/bevy_lunex_utility/src/code/grid.rs:1065-1070 | a sized cell has the given size and is otherwise the default |
| UtilityGrid.Named | crates/bevy_lunex_utility/src/code/grid.rs:1071-1077 | a named cell has the given size and name, in the middle |
| UtilityGrid.DefaultSegment | crates/bevy_lunex_utility/src/code/grid.rs:1029-1036 | a default segment has no scale, cells, gaps or border |
| UtilityGrid.DefaultGrid | crates/bevy_lunex_utility/src/code/grid.rs:719-728 | a default grid is horizontal with no segments, gaps or border |
| UtilityGrid.Repeat | crates/bevy_lunex_utility/src/code/grid.rs:773-782 | the list has exactly n entries, each the value given |
| UtilityGrid.Copies | crates/bevy_lunex_utility/src/code/grid.rs:773-782 | the push loop makes exactly n copies of the value |
| UtilityGrid.SplatCells | crates/bevy_lunex_utility/src/code/grid.rs:773-782 | the segment has exactly n copies of the cell and is otherwise the default |
| UtilityGrid.SegmentSplatGaps | crates/bevy_lunex_utility/src/code/grid.rs:785-794 | the segment has exactly n copies of the gap and is otherwise the default |
| UtilityGrid.AddCells | crates/bevy_lunex_utility/src/code/grid.rs:797-804 | the cells are replaced by as many copies of the cell as there are gaps; nothing else changes |
| UtilityGrid.SegmentAddGaps | crates/bevy_lunex_utility/src/code/grid.rs:807-814 | the gaps are replaced by as many copies of the gap as there are cells; nothing else changes |
| UtilityGrid.SplatSegment | crates/bevy_lunex_utility/src/code/grid.rs:505-514 | the grid has exactly n copies of the segment and is otherwise the default |
| UtilityGrid.GridSplatGaps | crates/bevy_lunex_utility/src/code/grid.rs:517-526 | the grid has exactly n copies of the gap and is otherwise the default |
| UtilityGrid.AddSegments | crates/bevy_lunex_utility/src/code/grid.rs:529-536 | the segments are replaced by as many copies as there are gaps; nothing else changes |
| UtilityGrid.GridAddGaps | crates/bevy_lunex_utility/src/code/grid.rs:539-546 | the gaps are replaced by as many copies as there are segments; nothing else changes |
| UtilityGrid.TextCells | crates/bevy_lunex_utility/src/code/grid.rs:758-770 | the segment has one cell per text, named after it and sized as the text at font size 10, and is otherwise the default |
| UtilityGrid.Alongs | crates/bevy_lunex_utility/src/code/grid.rs:857-878 | one extent along the segment per cell |
| UtilityGrid.Acrosses | crates/bevy_lunex_utility/src/code/grid.rs:842-854 | one extent across the segment per cell |
| UtilityGrid.PeakIsMax | crates/bevy_lunex_utility/src/code/grid.rs:842-854 | the running maximum is never below 0, no entry exceeds it, and it is some entry unless it is 0 |
| UtilityGrid.Largest | crates/bevy_lunex_utility/src/code/grid.rs:842-854 | the loop keeps a running maximum that ends at the largest entry, or 0 |
| UtilityGrid.Total | crates/bevy_lunex_utility/src/code/grid.rs:857-878 | the loop sums the entries it has passed |
| UtilityGrid.GapCount | crates/bevy_lunex_utility/src/code/grid.rs:869-873 | the gaps counted are the gaps there are or one fewer than the items, whichever is less |
| UtilityGrid.GapsBefore | crates/bevy_lunex_utility/src/code/grid.rs:898 | the gaps before an item are the gaps there are or its index, whichever is less |
| UtilityGrid.SegmentSizeIsLargest | crates/bevy_lunex_utility/src/code/grid.rs:842-854 | every cell fits across the segment, whose size is some cell's or 0, and 0 with no cells |
| UtilityGrid.ComputeSize | crates/bevy_lunex_utility/src/code/grid.rs:842-854 | the segment's size is the largest extent of its cells across it |
| UtilityGrid.ComputeLength | crates/bevy_lunex_utility/src/code/grid.rs:857-878 | the segment's length is its cells' extents along it, the gaps that count and both borders |
| UtilityGrid.SegmentLengths | crates/bevy_lunex_utility/src/code/grid.rs:574-599 | one length per segment |
| UtilityGrid.SegmentSizes | crates/bevy_lunex_utility/src/code/grid.rs:574-599 | one size per segment |
| UtilityGrid.GridSizeIsLargest | crates/bevy_lunex_utility/src/code/grid.rs:574-581 | every segment's length fits in the grid's size, which is some segment's length or 0 |
| UtilityGrid.GridComputeSize | crates/bevy_lunex_utility/src/code/grid.rs:574-581 | the grid's size is the longest of its segments |
| UtilityGrid.GridComputeLength | crates/bevy_lunex_utility/src/code/grid.rs:584-599 | the grid's length is its segments' sizes, the gaps that count and both borders |
| UtilityGrid.ScaledSumIsScaled | crates/bevy_lunex_utility/src/code/grid.rs:881-952 | scaling each entry is scaling the sum |
| UtilityGrid.OffsetNext | crates/bevy_lunex_utility/src/code/grid.rs:896-921 | each item starts where the one before ends, plus the gap between them if there is one |
| UtilityGrid.OffsetFills | crates/bevy_lunex_utility/src/code/grid.rs:881-952 | the last item, with the trailing border, ends at the scaled length: the items fill exactly the room they are scaled to |
| UtilityGrid.OffsetsInOrder | crates/bevy_lunex_utility/src/code/grid.rs:896-921 | with no negative extent, gap or scale, no item starts before the one before it ends |
| UtilityGrid.Normalise | crates/bevy_lunex_utility/src/code/grid.rs:884-888 | the two normalisations are the scale over the size across and the stretch over the length |
| UtilityGrid.SegmentCells | crates/bevy_lunex_utility/src/code/grid.rs:881-952 | one named window per cell |
| UtilityGrid.SegmentFillsStretch | crates/bevy_lunex_utility/src/code/grid.rs:881-952 | the cells fill the segment's stretch exactly: the last ends, with the trailing border, at the scale, 100 when unset |
| UtilityGrid.SegmentCellsAdjoin | crates/bevy_lunex_utility/src/code/grid.rs:896-921 | each cell starts where the one before ends, plus the scaled gap between them if there is one |
| UtilityGrid.SegmentCellsCentred | crates/bevy_lunex_utility/src/code/grid.rs:907-914 | every cell is centred across the segment |
| UtilityGrid.UnnamedNamesDistinct | crates/bevy_lunex_utility/src/code/grid.rs:900-903 | unnamed cells of one segment get different names |
| UtilityGrid.PartNamesDistinct | crates/bevy_lunex_utility/src/code/grid.rs:955-1026 | unnamed cells of different segments of a grid get different names: the '-' after the segment's digits keeps them apart |
| UtilityGrid.DashAfterDigits | crates/bevy_lunex_utility/src/code/grid.rs:955-1026 | two names made of digits, a '-' and more text are equal only when both parts are |
| UtilityGrid.FirstDash | crates/bevy_lunex_utility/src/code/grid.rs:955-1026 | in such a name the first '-' comes right after the digits |
| UtilityGrid.CreateCells | crates/bevy_lunex_utility/src/code/grid.rs:905-916 | a run that succeeds makes one widget per remaining cell |
| UtilityGrid.AfterNothing | crates/bevy_lunex_utility/src/code/grid.rs:905-916 | nothing made before a run changes nothing |
| UtilityGrid.CreateCellsStep | crates/bevy_lunex_utility/src/code/grid.rs:905-916 | one successful creation moves its widget from the rest of the run to what was made |
| UtilityGrid.CreateNext | crates/bevy_lunex_utility/src/code/grid.rs:905-916 | one iteration either makes its cell and leaves the rest of the run to do, or ends the whole run with its error |
| UtilityGrid.GapStep | crates/bevy_lunex_utility/src/code/grid.rs:898 | the gap added at the top of an iteration is the one before the item, if any |
| UtilityGrid.AddGap | crates/bevy_lunex_utility/src/code/grid.rs:898 | the scaled gaps so far grow by the gap before the item, if there is one |
| UtilityGrid.ExtentStep | crates/bevy_lunex_utility/src/code/grid.rs:918 | the lengths so far grow by the item's scaled length |
| UtilityGrid.PlaceCell | crates/bevy_lunex_utility/src/code/grid.rs:900-914 | the cell gets its name, the window `CellLayoutAt` gives it for the start it is placed at, and its length scaled along the segment |
| UtilityGrid.LayNext | crates/bevy_lunex_utility/src/code/grid.rs:896-919 | one iteration places its cell as specified and keeps both running sums |
| UtilityGrid.LayCells | crates/bevy_lunex_utility/src/code/grid.rs:881-952 | the cell loop lays out exactly the specified named windows |
| UtilityGrid.CreateRun | crates/bevy_lunex_utility/src/code/grid.rs:896-952 | the creation loop makes the cells in turn, the first failure ending it |
| UtilityGrid.BuildSegment | crates/bevy_lunex_utility/src/code/grid.rs:881-952 | building a segment is creating the specified named windows below the widget in order |
| UtilityGrid.GridRuns | crates/bevy_lunex_utility/src/code/grid.rs:603-635 | one run of cells per segment |
| UtilityGrid.CreateRuns | crates/bevy_lunex_utility/src/code/grid.rs:603-635 | a build that succeeds makes one list of widgets per remaining segment |
| UtilityGrid.SegmentsFillGrid | crates/bevy_lunex_utility/src/code/grid.rs:603-635 | the segments fill the grid's 100 percent: the last ends, with the trailing border, at 100 |
| UtilityGrid.SegmentsAdjoin | crates/bevy_lunex_utility/src/code/grid.rs:603-635 | each segment starts where the one before ends, plus the scaled gap between them if there is one |
| UtilityGrid.CreateRunsStep | crates/bevy_lunex_utility/src/code/grid.rs:603-635 | one successful run moves its widgets from the rest of the build to what was made |
| UtilityGrid.RunNext | crates/bevy_lunex_utility/src/code/grid.rs:603-635 | one iteration either makes its segment's cells or ends the whole build with the error |
| UtilityGrid.CreateAllRuns | crates/bevy_lunex_utility/src/code/grid.rs:603-635 | the creation loop makes each segment's cells in turn |
| UtilityGrid.GridNormalise | crates/bevy_lunex_utility/src/code/grid.rs:606-610 | the grid's normalisations are 100 over its size and 100 over its length |
| UtilityGrid.FrameOf | crates/bevy_lunex_utility/src/code/grid.rs:603-635 | the segment's frame lies after the scaled sizes and gaps so far |
| UtilityGrid.FrameNext | crates/bevy_lunex_utility/src/code/grid.rs:603-635 | one iteration adds the gap before the segment, places its frame and adds its size |
| UtilityGrid.LaySegmentNext | crates/bevy_lunex_utility/src/code/grid.rs:603-635 | one iteration gives the segment its frame and its cells their windows |
| UtilityGrid.PrefixNext | crates/bevy_lunex_utility/src/code/grid.rs:603-635 | a prefix grown by the next entry is the longer prefix |
| UtilityGrid.LayRuns | crates/bevy_lunex_utility/src/code/grid.rs:603-635 | the grid loop lays out exactly the specified runs |
| UtilityGrid.LayGrid | crates/bevy_lunex_utility/src/code/grid.rs:603-635 | laying out the grid uses its own normalisations |
| UtilityGrid.GridBuildIn | crates/bevy_lunex_utility/src/code/grid.rs:603-635 | building a grid is laying it out and creating every segment's cells in order |
| UtilityGrid.SolidContainer | crates/bevy_lunex_utility/src/code/grid.rs:641-676 | the container's width and height are the grid's size and length, swapped when vertical, and nothing else changes |
| UtilityGrid.WindowContainer | crates/bevy_lunex_utility/src/code/grid.rs:682-717 | the container's relative width and height are the grid's size and length, swapped when vertical, and nothing else changes |
| UtilityGrid.BuildInContainerOf | crates/bevy_lunex_utility/src/code/grid.rs:641-717 | a failure to make the container is reported and the grid is not built; on success the container is the widget made |
| UtilityGrid.BuildInContainer | crates/bevy_lunex_utility/src/code/grid.rs:641-717 | the container is made and then the grid inside it |
| UtilityGrid.BuildInSolid | crates/bevy_lunex_utility/src/code/grid.rs:641-676 | building in a solid container is building in the container the grid's size gives |
| UtilityGrid.BuildInWindow | crates/bevy_lunex_utility/src/code/grid.rs:682-717 | building in a window container is building in the container the grid's size gives |
| LegacyContainer.WindowNew | src/core/ui_container.rs:21-30 | a new window has every field 0, an empty box at the parent's corner |
| LegacyContainer.RelativeNew | src/core/ui_container.rs:54-61 | a new relative layout has both corners at the parent's corner |
| LegacyContainer.SolidNew | src/core/ui_container.rs:85-93 | a new solid has a 0 by 0 ratio, centred and fitted, which cannot be calculated until a dimension is set |
| LegacyContainer.WindowCalculate | src/core/ui_container.rs:34-42 | the window places like the bevy_lunex_core window layout with the same fields |
| LegacyContainer.RelativeCalculate | src/core/ui_container.rs:65-72 | each corner is the parent's corner plus its pixels and its percent of the parent |
| LegacyContainer.SolidCalculate | src/core/ui_container.rs:97-113 | the solid places like the bevy_lunex_core solid layout with the same, non-zero, dimensions |
| LegacyContainer.Resolve | src/core/ui_container.rs:246-270 | a relative box starts at its first corner and ends exactly at its second |
| LegacyContainer.DefaultLayout | src/core/ui_container.rs:200-202 | the default layout is a new relative box |
| LegacyContainer.ExpectWindow | src/core/ui_container.rs:135-183 | a window layout yields the window it holds; any other variant panics |
| LegacyContainer.ExpectRelative | src/core/ui_container.rs:142-190 | a relative layout yields what it holds; any other variant panics |
| LegacyContainer.ExpectSolid | src/core/ui_container.rs:149-197 | a solid layout yields what it holds; any other variant panics |
| LegacyContainer.InvertY | src/core/ui_container.rs:213-221 | both corners are mirrored on the x axis and the size and depth kept |
| LegacyContainer.GetPos | src/core/ui_container.rs:222-224 | 0 percent is the first corner and 100 percent the first corner plus the size |
| LegacyContainer.GetPosYInverted | src/core/ui_container.rs:225-227 | the y-inverted point is the point at the same relative x and the negated relative y |
| LegacyContainer.Cache | src/core/ui_container.rs:246-270 | the cached second corner is the first plus the size, the placement is cached as given and the depth kept |
| LegacyContainer.Container.constructor | src/core/ui_container.rs:240-245 | a new container caches the default position and holds the default layout |
| LegacyContainer.Container.Update | src/core/ui_container.rs:246-270 | the layout is kept and the cache becomes the resolved placement with its second corner derived from it |
| LegacyContainer.Container.PositionSet | src/core/ui_container.rs:271-273 | the cached position is overwritten and the layout kept |
| LegacyContainer.Container.PositionLayoutSet | src/core/ui_container.rs:280-282 | the layout is replaced and the cache kept |
| LegacyContainer.DefaultIsEmptyBox | src/core/ui_container.rs:21-61 | the default layout and a new window are both a zero-size box at the parent's corner |
| LegacyContainer.RelativeIsCoreRelative | src/core/ui_container.rs:65-72 | a relative box resolves like the bevy_lunex_core relative layout |
| LegacyContainer.SolidProperties | src/core/ui_container.rs:97-113 | the solid box keeps its ratio, fitting stays inside a non-negative parent and filling covers it |
| LegacyContainer.InvertYInvolution | src/core/ui_container.rs:213-221 | inverting y twice restores the position |
| LegacyCore.FromTree | src/core/ui_core.rs:133-149 | each failure of the newer branch maps to the variant of this generation's BranchError for the same cause: an empty name becomes BorrowNoName, a taken name NameInUse, a missing shortcut or id keeps its name or id, and AlreadyContainsPath never arises from a lookup |
| LegacyCore.Append | src/core/ui_core.rs:494-506 | the inserted branch gets the smallest id not yet in the inventory, and the inventory only gains that entry |
| LegacyCore.CreateSimple | src/core/ui_core.rs:508-535 | the new branch goes under the smallest free id, one level deeper and with the given name, and the returned key is "#" followed by that id; nothing else in the inventory changes |
| LegacyCore.CreateLinked | src/core/ui_core.rs:537-553 | a non-empty name that is taken fails with NameInUse and changes nothing; a free name creates the branch and records the name as a shortcut to its "#id" key; an empty name just creates a nameless branch |
| LegacyCore.RegisterPath | src/core/ui_core.rs:555-562 | fails with AlreadyContainsPath exactly when the name is taken, changing nothing; otherwise the name translates to the given path afterwards |
| LegacyCore.RegisterPathIsShortcutAdd | src/core/ui_core.rs:555-562 | register_path changes the branch exactly as the newer generation's shortcut_add and fails in the same cases, under a different error name |
| LegacyCore.TranslateSimple | src/core/ui_core.rs:564-570 | succeeds exactly for a registered name, giving its path; otherwise NoShortcut with that name |
| LegacyCore.BorrowSimpleChecked | src/core/ui_core.rs:583-597 | an empty name is BorrowNoName, a name starting with "#" is an id lookup, a name with no shortcut is NoShortcut; it succeeds exactly when the newer generation's lookup does |
| LegacyCore.BorrowLinkedChecked | src/core/ui_core.rs:599-608 | a path without "/" is one checked borrow; a path succeeds exactly when it resolves segment by segment, and then yields the branch it leads to |
| LegacyCore.CreateSimpleThenBorrow | src/core/ui_core.rs:508-608 | every key create_simple hands out borrows back the branch it created |
| LegacyCore.Merge | src/core/ui_core.rs:283-303 | succeeds exactly when no incoming shortcut name is taken; otherwise DuplicateName names a name present in both; the branch is never changed |
| LegacyWidget.Fetch | src/core/widget.rs:115-128 | succeeds exactly when the widget's path, extended by "/" and the sub-path when that is not empty, resolves from the root, yielding that branch; a failure is FetchError carrying the path tried and its cause |
| LegacyWidget.FetchIsFetchExt | src/core/widget.rs:115-128 | this generation's fetch is the newer fetch_ext with only the error translated |
| LegacyWidget.FetchDataSet | src/core/widget.rs:190-350 | a failed fetch changes nothing and reports that failure; otherwise the fetched branch's data gains the value |
| LegacyWidget.FetchDataSetThenRead | src/core/widget.rs:190-350 | a value set through a widget is read back through it under the same key and kind, and nothing else of that branch changes |
| LegacyWidget.CreateIn | src/core/widget.rs:382-483 | a missing parent is reported and changes nothing; otherwise the branch is created under the parent or its absolute target, and its name is registered on the parent, a taken name reporting AlreadyContainsPath; a returned widget is well formed |
| LegacyWidget.CreateInAgrees | src/core/widget.rs:382-483 | this create builds the same tree and widget as the newer generation's create, with the same failure under this generation's error names |
| LegacyWidget.CreateOf | src/core/widget.rs:382-483 | create yields the same tree as the newer create, and succeeds exactly when it does |
| LegacyWidget.Create | src/core/widget.rs:382-483 | the method's tree and widget are those of CreateOf |
| LegacyWidget.CreateHiddenIn | src/core/ui_widget.rs:183-265 | anywhere but the root this is the create of widget.rs; in the root it succeeds exactly when that create does, and a returned widget is well formed |
| LegacyWidget.CreateHiddenInRootIsHidden | src/core/ui_widget.rs:213-222 | a widget created in the root by this create is fetched back, and its branch is hidden |
| LegacyWidget.RootFetchSucceedsForPlainNames | src/core/ui_widget.rs:213-222 | the fetch that this create unwraps succeeds for a widget without a name and for a plain name |
| LegacyWidget.RootFetchFailsForLeadingSlash | src/core/ui_widget.rs:213-222 | a path such as "/Menu" is created in the root, but the fetch unwrapped afterwards fails, because its first segment is empty |
| LegacyWidget.CreateHiddenOf | src/core/ui_widget.rs:183-265 | outside the root this equals the create of widget.rs, and it succeeds exactly when that create does |
| LegacyWidget.CreateHidden | src/core/ui_widget.rs:183-265 | the method's tree and widget are those of CreateHiddenOf |
| LegacyWidget.SetVisibilitySameShape | src/core/ui_core.rs:223-230 | setting a branch's visibility changes no id, name or shortcut anywhere in its tree |
| LegacyWidget.CascadeSameShape | src/core/ui_core.rs:444-456 | the visibility cascade changes no id, name or shortcut anywhere in its tree |
| LegacyWidget.IsWithin | src/core/widget.rs:515-526 | reports a failed fetch; otherwise it is true exactly when the point lies strictly inside the fetched branch's rectangle |
| OldContainer.WrapWindow | src/ui_container.rs:30-32 | wrapping a window gives the window variant, from which expect_window gives the same window back |
| OldContainer.WrapRelative | src/ui_container.rs:61-63 | wrapping a relative layout gives the relative variant, from which expect_relative gives it back |
| OldContainer.WrapSolid | src/ui_container.rs:93-95 | wrapping a solid gives the solid variant, from which expect_solid gives it back |
| OldContainer.DefaultLayout | src/ui_container.rs:197-199 | the default layout is a relative one equal to a new relative layout, every field 0 |
| OldContainer.Container.constructor | src/ui_container.rs:221-226 | a new container holds the default position and the default layout |
| OldContainer.Container.Update | src/ui_container.rs:227-251 | the cached position takes the corner, width and height the layout computes in the parent, the second corner is the first plus the size, the depth and the layout are kept |
| OldContainer.Container.PositionSet | src/ui_container.rs:252-254 | the cached position is replaced and the layout kept |
| OldContainer.Container.PositionLayoutSet | src/ui_container.rs:261-263 | the layout is replaced and the cached position kept |
| OldContainer.NewContainerIsEmptyBox | src/ui_container.rs:197-251 | a fresh container updated in any parent is an empty box at the parent's corner, both corners equal |
| OldContainer.RelativeSpansCorners | src/ui_container.rs:236-242 | for a relative layout the cached corners are exactly the two corners its calculate returns |
| OldCore.NewBranch | src/ui_core.rs:238-253 | a new branch is unnamed, visible under a visible parent, not in focus, at the given depth, with no data, no children and an empty register |
| OldCore.GetDepth | src/ui_core.rs:113-115 | the depth, raised by half a step exactly while the branch is in focus |
| OldCore.CascadeVisibility | src/ui_core.rs:223-236 | the branch's parent visibility becomes the given flag and nothing else of it changes; both stores keep their slots |
| OldCore.CascadeVisibilityConsistent | src/ui_core.rs:223-236 | after a cascade every child's parent visibility is its parent's effective visibility, all the way down |
| OldCore.SetVisibility | src/ui_core.rs:126-133 | the flag is set; nothing else changes unless the effective visibility changed, and then the cascade starts at the branch itself with the new effective visibility |
| OldCore.CascadeChildren | src/ui_core.rs:223-236 | the part of the cascade below the branch: the branch itself keeps its fields and both stores keep their slots |
| OldCore.SetVisibilityCorrected | src/ui_core.rs:126-133 | the intended set_visibility: the flag is set, the branch's parent visibility is kept, its effective visibility is the flag and the parent's, and only a change is cascaded |
| OldCore.SetVisibilityCorrectedConsistent | src/ui_core.rs:126-133 | the corrected set_visibility keeps every parent and child in agreement |
| OldCore.HideThenShowCorrected | src/ui_core.rs:126-133 | with the correction, hiding and then showing a branch makes it exactly as visible as its parent allows |
| OldCore.HideThenShowCounterexample | src/ui_core.rs:126-133 | a new branch that is hidden and then shown stays invisible as written, and is visible again with the correction |
| OldCore.SetChild | src/ui_core.rs:343-376 | the child in the slot is replaced and nothing else changes; both stores keep their slots |
| OldCore.Replace | src/ui_core.rs:412-479 | writing back through a descent puts the new branch exactly where the descent leads |
| OldCore.NextFreeKey | src/ui_core.rs:263-267 | the counting loop stops at the smallest key the removable store does not use |
| OldCore.CreateSimple | src/ui_core.rs:255-273 | a permanent branch is pushed as "#p" and the old length; a removable one goes under the smallest unused key as "#r" and that key; the new branch is one deeper and holds the given layout, and nothing else changes |
| OldCore.CreateSimpleLoop | src/ui_core.rs:255-273 | the method with the counting loop computes the same branch and address as CreateSimple |
| OldCore.RegisterPath | src/ui_core.rs:289-291 | the key maps to the path afterwards, overwriting any earlier entry, and nothing else changes |
| OldCore.CreateSimpleChecked | src/ui_core.rs:274-287 | an empty key makes a permanent branch; a taken key is refused and creates nothing; any other key makes a removable branch, registers the key for its address and returns the key |
| OldCore.TranslateSimple | src/ui_core.rs:293-298 | succeeds exactly for a registered key, giving its path; otherwise the key is reported |
| OldCore.TranslateSimpleChecked | src/ui_core.rs:299-307 | an empty key is refused, an address starting with "#" is returned unchanged, and any other key is translated through the register |
| OldCore.BorrowSimple | src/ui_core.rs:343-376 | the second character picks the store and the rest must parse as a usize naming an existing slot; too short, a wrong store letter, a bad number and a missing slot each give their own error |
| OldCore.SlotPathParses | src/ui_core.rs:343-376 | the address of every existing slot borrows back that slot and contains no "/" |
| OldCore.Lookup | src/ui_core.rs:400-410 | a successful lookup is a non-empty descent that exists in the branch |
| OldCore.Segment | src/ui_core.rs:377-388 | a successful borrow of an address or name is a non-empty descent that exists in the branch |
| OldCore.BorrowChainChecked | src/ui_core.rs:400-410 | an empty path is refused; otherwise the borrow succeeds exactly when the path resolves, and yields the branch it leads to |
| OldCore.BorrowChain | src/ui_core.rs:389-399 | a successful borrow of a chain of addresses is a non-empty descent that exists in the branch |
| OldCore.ChainPathRoundTrip | src/ui_core.rs:389-410 | the address chain of any existing descent borrows back exactly that descent, both unchecked and checked |
| OldCore.CheckSimple | src/ui_core.rs:481-512 | true exactly when borrow_simple finds the address |
| OldCore.CheckChain | src/ui_core.rs:525-535 | true exactly when borrow_chain finds the chain |
| OldCore.CheckSimpleChecked | src/ui_core.rs:513-524 | true exactly when borrow_simple_checked finds the address or name |
| OldCore.CheckChainChecked | src/ui_core.rs:536-546 | true exactly when borrow_chain_checked finds the path |
| OldCore.TranslateChainChecked | src/ui_core.rs:325-341 | a path of one segment is translated without being borrowed; otherwise the head is translated, the branch it names borrowed, and the rest translated there |
| OldCore.TranslateAddressesUnchanged | src/ui_core.rs:325-341 | a chain of addresses that exists translates to itself |
| OldCore.TranslateNameToAddresses | src/ui_core.rs:325-341 | a name registered as a child's address translates to that address, a path below it to the full chain of addresses, and that chain borrows the same branch as the original path |
| OldCore.DestroySimple | src/ui_core.rs:548-570 | a "#p" address is refused; "#r" and a key present in the store removes exactly that child; only such an address succeeds |
| OldCore.DestroyChain | src/ui_core.rs:583-593 | a destruction changes only the children of the branch, never its own fields; through a chain the branch keeps all its keys, and a single address removes exactly one removable key |
| OldCore.DestroySimpleChecked | src/ui_core.rs:571-582 | an empty key is refused, an address is destroyed here, an unknown name is reported, and a registered name destroys along the chain it is registered as |
| OldCore.DestroyChainChecked | src/ui_core.rs:594-604 | a path without "/" is destroy_simple_checked |
| OldCore.RemoveSimpleChecked | src/ui_core.rs:606-618 | an unregistered key is refused; a failure changes nothing; on success the branch is destroyed and the key then unregistered |
| OldCore.CreateCheckedThenBorrow | src/ui_core.rs:274-410 | a branch created under a plain key is found by borrowing that key |
| OldCore.CreateCheckedThenRemove | src/ui_core.rs:274-618 | removing a branch by the key it was created under restores the branch exactly as before the creation |
| OldCore.PermanentIsPermanent | src/ui_core.rs:548-570 | destroying a permanent branch by its address is always refused |
| OldCore.CascadeUpdate | src/ui_core.rs:211-221 | the container is laid out in the given box and keeps its layout; the stores keep their slots and nothing else changes |
| OldCore.ChildrenInParentBox | src/ui_core.rs:211-221 | every child in both stores is laid out in the box its parent just computed |
| OldCore.RootBranch | src/ui_core.rs:21-34 | the root is a new branch at depth 0 whose layout spans the parent from 0 to 100 percent |
| OldCore.Hierarchy.constructor | src/ui_core.rs:21-34 | a new hierarchy has size 0 by 0 and the root branch |
| OldCore.Hierarchy.Update | src/ui_core.rs:35-37 | the whole tree is laid out from the origin in the hierarchy's size, and the size is kept |
| OldGrid.FirstUneven | src/utilities/ui_grid.rs:20-24 | the first column whose length differs from column 0's, with every column before it as long as column 0; none exactly when all columns are |
| OldGrid.CheckColumns | src/utilities/ui_grid.rs:20-24 | the validation loop finds exactly the first uneven column |
| OldGrid.EvenIsIndexable | src/utilities/ui_grid.rs:54-56 | a grid that passes the check can be read at every cell the creation loops visit |
| OldGrid.CreateCellsAppend | src/utilities/ui_grid.rs:54-69 | creating two runs of cells is creating the first and, only if it succeeded, the second |
| OldGrid.CreateOf | src/utilities/ui_grid.rs:16-71 | an uneven column is reported before anything is made, its message giving the number of columns where column 0's length is meant; success means the grid was even and the container was created at the path, and that container's widget is returned |
| OldGrid.CreateInsideOf | src/utilities/ui_grid.rs:72-117 | the same check, reporting column 0's own length; success means every cell was created below the widget, and an even grid always leaves the tree the cell creation leaves |
| OldGrid.UnevenReportsAgree | src/utilities/ui_grid.rs:16-117 | on an uneven grid both leave the tree unchanged and report the same column and length, differing only in the length quoted for column 0 |
| OldGrid.CreateColumn | src/utilities/ui_grid.rs:55-68 | the inner loop creates the column's cells row by row, as the cell creation specifies |
| OldGrid.CreateGridCells | src/utilities/ui_grid.rs:54-69 | the nested loops create exactly the cells of the grid, column by column, with the geometry as written; a grid without rows creates none |
| OldGrid.Create | src/utilities/ui_grid.rs:16-71 | the method's tree and result are those of CreateOf |
| OldGrid.CreateInside | src/utilities/ui_grid.rs:72-117 | the method's tree and result are those of CreateInsideOf |
| OldWidget.ShareOfContainer | src/ui_widget.rs:296-300 | the cells' share and the gaps' share of the container, each divided evenly, add back up to 100 percent |
| OldWidget.GeometryAsWritten | src/ui_widget.rs:270-300 | as written the container holds the cells and gaps, and the columns fill it across, but down the rows fill it only together with as many gaps as the horizontal padding implies |
| OldWidget.CellGeometry | src/ui_widget.rs:270-300 | the intended geometry: the container holds the cells and gaps, and the cells and gaps fill it both across and down |
| OldWidget.CellsEvenlySpaced | src/ui_widget.rs:305-307 | neighbouring cells are one cell and one gap apart, and the first starts after the padding gap when there is one |
| OldWidget.LastCellEnds | src/ui_widget.rs:305-307 | when the cells and gaps fill the axis, the last cell and the far padding end exactly at 100 percent |
| OldWidget.GridFillsContainer | src/ui_widget.rs:270-319 | with the intended geometry the last column and the last row end exactly at the container's far edge |
| OldWidget.GridAsWrittenFills | src/ui_widget.rs:270-319 | as written the last column ends at the container's far edge; when both axes are padded alike the written geometry is the intended one and the last row ends there too |
| OldWidget.LastRowCounterexample | src/ui_widget.rs:300 | one column of two rows padded across but not down, 10 percent cells and 1 percent gaps, ends short of the bottom edge as written and exactly at it when corrected |
| OldWidget.ContainerLayout | src/ui_widget.rs:286-291 | the container is a window at the given place, sized in percent to hold the cells and the gaps, with no absolute part |
| OldWidget.CellLayout | src/ui_widget.rs:304-312 | each cell is a window one cell in size, at its column and row offsets, with no absolute part |
| OldWidget.ColumnCells | src/ui_widget.rs:303-316 | the cells of a column, top to bottom, each named by its grid entry with its window |
| OldWidget.CellAt | src/ui_widget.rs:302-317 | every cell is created exactly once, after the columns before it and the cells above it |
| OldWidget.CellsFromLength | src/ui_widget.rs:302-317 | the loops create as many cells as columns times rows |
| OldWidget.LookupNeedsHead | src/ui_widget.rs:174-256 | a lookup only succeeds on a path whose first segment is not empty |
| OldWidget.LayoutParentIsPrefix | src/ui_widget.rs:176-200 | the parent path create reads is the start of the given path, up to a "/" |
| OldWidget.LayoutHasParent | src/ui_widget.rs:176-200 | a path of two or more segments with a non-empty first one has a parent path |
| OldWidget.EndHasParent | src/ui_widget.rs:265-267 | a name appended to a widget is created inside that widget's branch, never in the root |
| OldWidget.CreatedPathHasHead | src/ui_widget.rs:174-256 | every widget create hands out has a path whose first segment is not empty |
| OldWidget.CreateCellsAppend | src/ui_widget.rs:302-317 | creating two runs of cells is creating the first and, only if it succeeded, the second |
| OldWidget.GenerateGridOf | src/ui_widget.rs:270-319 | a failure to create the container is returned with its tree; success returns the container's widget after every cell below it was created with the geometry as written (a grid without rows makes only the container) |
| OldWidget.ComputeGeometry | src/ui_widget.rs:270-300 | the sizes computed before the loops are the geometry as written, the vertical gap divided by the row count plus the horizontal padding's sign |
| OldWidget.CellWindow | src/ui_widget.rs:304-312 | the window built for a cell is its cell layout |
| OldWidget.CreateColumn | src/ui_widget.rs:303-316 | the inner loop creates the column's cells top to bottom and stops at the first failure |
| OldWidget.CreateGridCells | src/ui_widget.rs:302-317 | the nested loops create every cell column by column, with the geometry as written, and stop at the first failure; a grid without rows creates none |
| OldWidget.GenerateGrid | src/ui_widget.rs:270-319 | the method's tree and result are those of GenerateGridOf |
| OldWidget.GenerateGridInside | src/ui_widget.rs:320-359 | below an existing widget, the cells are created exactly as generate_grid creates them |
| OldGeneral.VecConvert | src/general.rs:97-99 | the point measured from the offset with y pointing down, the same conversion as as_lunex |
| OldGeneral.Tween | src/general.rs:101-104 | a slide of 0 gives the first value and a slide of 1 the second; it agrees with the tween of src/core/util.rs |
| OldGeneral.IsAbsolute | src/general.rs:108-115 | true exactly for a non-empty path starting with "#" |
| OldGeneral.SplitLast | src/general.rs:117-126 | the text after the last delimiter, which holds none, and the text before it, which joined back with the delimiter gives the input; without a delimiter, an empty prefix and the whole input |
| LegacyGeneral.VecConvert | src/core/general.rs:25-27 | the point measured from the offset with y pointing down, the same conversion as as_lunex |
| LegacyGeneral.Tween | src/core/general.rs:29-32 | a slide of 0 gives the first value and a slide of 1 the second; it agrees with the tween of src/core/util.rs |
| LegacyGeneral.IsAbsolute | src/core/general.rs:38-45 | true exactly for a non-empty path starting with "#", the same test as is_numerical_id |
| LegacyGeneral.SplitLast | src/core/general.rs:47-56 | the text after the last delimiter, which holds none, and the text before it, which joined back with the delimiter gives the input; without a delimiter, an empty prefix and the whole input |
| CoreUtil.IsNumericalId | crates/bevy_lunex_core/src/code/util.rs:5-10 | true exactly for a non-empty text starting with "#" |
| CoreUtil.ExtractId | crates/bevy_lunex_core/src/code/util.rs:15-23 | the same result as extract_id of src/core/util.rs: an empty text is not a numeric path, and a text whose rest is not a usize is a syntax error quoting it |
| CoreUtil.ExtractIdSkipsFirst | crates/bevy_lunex_core/src/code/util.rs:15-23 | any single character followed by the digits of a usize extracts that number: the first character is never checked |
| UiConversion.AsLunex | crates/bevy_lunex_ui/src/code/conversion.rs:24-26 | the point measured from the offset with y pointing down, the same conversion as the other generations' as_lunex |
| UiConversion.InvertX | crates/bevy_lunex_ui/src/code/conversion.rs:48-51 | x changes sign and y is kept |
| UiConversion.InvertY | crates/bevy_lunex_ui/src/code/conversion.rs:54-57 | y changes sign and x is kept |
| UiConversion.InvertXY | crates/bevy_lunex_ui/src/code/conversion.rs:60-64 | both coordinates change sign |
| UiConversion.InversionLaws | crates/bevy_lunex_ui/src/code/conversion.rs:48-64 | each inversion undoes itself, and inverting both axes is inverting x and y one after the other, in either order |
| UiConversion.AsLunexInverse | crates/bevy_lunex_ui/src/code/conversion.rs:24-26 | flipping y back and adding the offset restores the original point |
| PathUtil.SplitLast | src/core/util.rs:179-192 | the string-building loop yields the prefix and last piece of SplitLastOf |
| PathUtil.SplitLastParts | src/core/util.rs:179-192 | the last piece holds no delimiter; with a delimiter present, prefix, delimiter and last piece make up the input; without one, the prefix is empty and the last piece is the whole input |
| PathUtil.IsNumericalId | src/core/util.rs:171-176 | true exactly for a non-empty text starting with "#" |
| PathUtil.ExtractId | src/core/util.rs:196-204 | an empty text fails; otherwise it succeeds exactly when the text after the first character parses as a usize, giving that number |
| PathUtil.ExtractIdOfGenerated | src/core/util.rs:171-204 | every generated numeric path, "#" and a number, is recognised as one and gives its number back |
| PathUtil.ExtractIdExamples | src/core/util.rs:196-204 | "#12" gives 12, while the empty text, a lone "#", a letter and a minus sign after it are rejected |
| PathUtil.Trunc | src/core/util.rs:55-62 | the integer nearest zero that is within one of the value |
| PathUtil.TruncBounds | src/core/util.rs:55-62 | the quotient rounded toward zero, times the divisor, lies within one divisor of the dividend on the side of zero |
| PathUtil.FMod | src/core/util.rs:55-62 | the remainder of a float division rounded toward zero: it has the sign of the dividend and is less than the period in size |
| PathUtil.FModPhase | src/core/util.rs:55-62 | the remainder differs from the dividend by whole periods |
| PathUtil.Periodical | src/core/util.rs:55-62 | the value lands in the range from 0 up to the period |
| PathUtil.PeriodicalPhase | src/core/util.rs:55-62 | periodical moves its argument by whole periods only |
| PathUtil.PeriodicalOfSamePhase | src/core/util.rs:55-62 | arguments a whole number of periods apart normalise to the same value |
| PathUtil.SamePhaseUnique | src/core/util.rs:55-62 | two values in the range from 0 up to the period that differ by whole periods are equal |
| PathUtil.RawDifference | src/core/util.rs:81 | the normalised difference lies strictly within one period of zero |
| PathUtil.RawDifferencePhase | src/core/util.rs:81 | the normalised difference is the true difference up to whole periods |
| PathUtil.DifferenceShort | src/core/util.rs:80-89 | the inner difference is at most half a period either way |
| PathUtil.DifferenceLong | src/core/util.rs:106-115 | as written the long difference lies within one period, but a negative raw difference is always wrapped forward, even when that gives the inner difference |
| PathUtil.DifferenceLongCorrected | src/core/util.rs:106-115 | the outer difference the documentation promises: at least half a period in size and within one period |
| PathUtil.DifferencesArePhases | src/core/util.rs:80-115 | every one of the differences added to the start reaches the end, up to whole periods |
| PathUtil.ShortAndLongComplement | src/core/util.rs:64-115 | the inner and the corrected outer difference are exactly one period apart, or equal at exactly half a period, so the two tweens go opposite ways round |
| PathUtil.PeriodicalExamples | src/core/util.rs:44-62 | the documented examples of periodical hold: -45 gives 315, 45 gives 45, 360 gives 0 and 450 gives 90 |
| PathUtil.DifferenceExamples | src/core/util.rs:64-105 | the documented examples of both differences hold for the code as written |
| PathUtil.DifferenceLongCorrectedExamples | src/core/util.rs:91-105 | the corrected long difference meets every documented example too |
| PathUtil.DifferenceLongCounterexample | src/core/util.rs:106-115 | from 300 to 0 degrees the long difference as written is +60, the inner angle, where the corrected one is the outer -300 |
| PathUtil.TweenShort | src/core/util.rs:117-123 | the result is normalised into the period |
| PathUtil.TweenLong | src/core/util.rs:125-129 | the result is normalised into the period |
| PathUtil.TweenEnds | src/core/util.rs:117-129 | both tweens start at the start value and end at the end value, normalised |
| PathUtil.Tween | src/core/util.rs:36-39 | a slide of 0 gives the first value, a slide of 1 the second, and a slide in between stays between them |
| PathUtil.AsLunex | src/core/util.rs:25-27 | flipping y back and adding the offset restores the original point |

## Left out

Across the whole model:
- Bevy ECS plumbing is not modelled: systems, queries, plugins, events, observers and `is_changed` guards. Only the per-entity step each system applies is modelled, as a function or a method.
- Floating point: `f32` is a real. NaN, infinities and rounding are not modelled.
- Where the source divides by a size, a ratio, a period or a length, a zero divisor is excluded by a precondition, except where a line below names a member that returns an error or keeps its old state instead. In `f32` such a division gives an infinity or NaN and the source carries on; the model does not follow it there.
- Panics: a `usize` underflow or an `unwrap` on a missing entry is modelled as an error or `None` result where it depends on input data, except for the members named in the lines below, which require that it does not happen. On those inputs the source panics and the model says nothing.
- `HashMap` iteration order is unspecified. No contract depends on the order of siblings, shortcuts or queue entries; a loop over a map goes through a fixed sequence of its keys.
- The following are display only and left out: `NiceDisplay`, `map`/`map_debug`, `cascade_map*`, the tree dumps, `get_map`, `collect_paths` and formatting through the `colored` crate.
- Colour math (`tween_color_rgba`, `tween_color_hsla`, `blend_color`, `LerpColor`, `set_ui_color`) relies on Bevy's `Color`, which is not part of this model. Where a colour is stored, it is an opaque value or a tuple of channels.
- The RNG text animations (`decryption_animation`, `scrambled_reveal_animation`) use the `rand` crate and are left out.
- Window, camera and gamepad positioning is input I/O and is left out. This covers the cursor move systems, `hide_native`, `get_single_mut` and the picking backends.
- The `_mut` variants of the borrow and fetch operations are the same lookups as the shared ones, and writing through the result is modelled by the write-back functions. Aliasing of `&mut` references is not modelled.
- Getters with no behaviour beyond returning a field are not modelled separately.

crates/lunex_engine and crates/bevy_lunex:
- `set_x`/`set_y` and the compound-assign operators on `UiValue` and `NodeSize` are modelled by the by-value function they apply. The types are `Copy`, so `a op= b` is `a = a op b`.
- The `Vec3`/`Vec4` variants of `UiValue` repeat the `Vec2` slot rules component by component and are not modelled separately. `YInvert` on `Vec3`/`Vec4` is modelled.
- The `UiLayout` constructors and bundles in crates/bevy_lunex/src/structs.rs are builders over the layout types and are not modelled.
- crates/lunex_engine/src/core/compute.rs refers to `Layout::Div` and `Rectangle3D::lerp`, which this snapshot does not define. The model resolves a `Div` layout to "no rectangle", which keeps the old rectangle as compute.rs does, and defines `lerp` component by component, as crate/src/layouts.rs does for `Rectangle2D`.
- The `NodeData` fields the pass reads (`layout_index`, `layout_tween`, `depth_bias`, `font_size`) are taken from their uses in compute.rs.
- EngineTraits.AddUiData, EngineTraits.TakeUiData, EngineTraits.ObtainUiData, EngineTraits.InsertUiData, EngineTraits.RemoveUiData, EngineTraits.BorrowUiData: require that the node they reach carries `NodeData` (`n.data.Some?`, or HasUiData along a path), because crates/lunex_engine/src/core/traits.rs:231-259 panics with "This UiNode is missing Ui data!" otherwise. The panic is reachable: a child made by `create_ui_node` has no `NodeData`.
- EngineCompute.ComputeAll: requires every node that carries data to have a layout under key 0, because the source's eager `unwrap_or(get(&0).unwrap())` panics otherwise.
- EngineCompute.Place, EngineCompute.Tweened: a solid whose evaluated size has a zero component that the aspect ratio divides by gives no rectangle, so the node keeps its old rectangle. The source's `f32` division in crates/lunex_engine/src/core/compute.rs:59-91 carries on with an infinity or NaN there.
- `compute_content` and `compute_stack` are commented out in compute.rs and are left out.
- `obtain_node_mut`, `borrow_node_mut`, `obtain_topdata`, `get_name`, `get_path`, `get_depth` and the tree display are left out. They are accessors for fields or descents that the model already has, or display.
- Window application is I/O and is left out.
- `UiStatePipe::new` and `SetUiStateTransition::new` only fill fields and are left out. The step rules they feed are modelled.
- The `UiSelected`, `UiClicked`, `UiIntro` and `UiOutro` `value()` accessors are left out. They read the same animation field as the hover state.
- The hover state of `on_hover_set_cursor` is read through `is_forward` of `UiAnimation`. The `UiAnimator<Hover>` type it names is not defined in this snapshot.
- The declarative `Window::pos`/`size` builders and `Solid` `align_x`/`align_y`/`cover` builders are not modelled. They only set one field.

crate/ (the newest generation):
- The `Rectangle2D` `with_*` builders and the layouts' builder setters are not modelled. They set one field.
- `observer_event_duplicator` and the `Color` default belong to the ECS glue and are left out.
- CrateTextAnim: the text is taken to be ASCII, so a character count equals the byte length the source slices by.

crates/bevy_lunex_core, bevy_lunex_utility and bevy_lunex_ui:
- The `CoreWidget` `fetch_*` accessors are descents the model already has, and are left out.
- The core `SolidLayout` `with_*` builders and `WindowLayout`/`RelativeLayout` `new`/`pack` only fill fields and are left out.
- The `UiBranch` getters other than CoreTree.GetDepth, CoreTree.GetPath and CoreTree.IsVisible, and the formatting, are left out.
- CoreTree.Lookup, CoreTree.Segment, CoreTree.DropLinked, CoreTree.DropSegment: follow at most as many shortcuts in one branch as the branch has (`|shortcuts|`) and report `ShortcutLoop` when that budget runs out. A chain without a cycle never needs more, so the budget runs out only on a cycle of shortcuts, where the source recurses without bound and does not terminate.
- CoreTree.MergeBranch, CoreTree.UiTree.Merge: require MergeReady, which has two parts. (1) The first segment of every shortcut of the merged branch is a numeric id present in its inventory; otherwise `extract_id(..).unwrap()` or `inventory.remove(&old_id).unwrap()` panics at crates/bevy_lunex_core/src/code/tree.rs:280-281 (a shortcut with a '/') and 305-306 (one without). (2) No two shortcuts start with the same id; otherwise the second one's `inventory.remove(&old_id).unwrap()` at tree.rs:281 or 306 panics, because the first one already removed that entry.
- `GridParams` and `grid_generate*` are commented out in grid.rs and are left out.
- The grid `with_*` builders, `ElementBundle::new` and the element `with_color`/`with_flip`/`with_style` setters only set fields and are left out.
- `with_width_rel`/`with_height_rel`, which grid.rs calls on the container layout, are not defined in this snapshot. They are modelled as setting the relative width and height.
- UtilityGrid.BuildSegment: lays out all cells first and then creates them, where the source computes each window just before creating the widget. The two are equivalent because no window depends on what was created.
- UtilityGrid.SegmentLength: requires at least one cell, because `len() - 1` underflows otherwise. The same holds for the grid's length and its segments.
- UiCursor.WithDefaultIndex: requires at least one sprite offset, because `len() - 1` underflows otherwise. The same holds for UiCursor.RequestIndex and for the class methods that wrap them.
- The `ui_cursor` location getters are left out.

src/ (the two oldest generations):
- `hierarchy_update` in src/ui_core.rs and src/core/ui_core.rs is window I/O and is left out.
- `destroy_*` and `remove_simple_checked` in src/core/ui_core.rs are commented out there. So are the widget `destroy`/`remove` in src/core/widget.rs and src/core/ui_widget.rs.
- `translate_chain` (the unchecked form) in src/ui_core.rs is left out; its checked form is modelled. `borrow_simple_mut` and the other `borrow_*_mut` functions are the same lookups, with the write-back done by rebuilding along the path.
- The `tween` in src/ui_core.rs is the same formula as `tween` in src/general.rs, which is modelled as OldGeneral.Tween.
- The `Data` struct's maps in src/ui_core.rs are left out.
- The `expect_*_ref`/`_mut` accessors and `position_get` in src/ui_container.rs are left out. The newer copies of the `expect_*` accessors are modelled.
- The debug systems in src/general.rs (`lunex_setup_debug` and the rest) and its `build` are left out.
- OldCore.Lookup, OldCore.Segment, OldCore.CheckChainChecked: follow at most as many shortcuts in one branch as its register has (`|register|`) and report `ShortcutLoop`, or false for OldCore.CheckChainChecked, when that budget runs out. A chain without a cycle never needs more, so the budget runs out only on a cycle of shortcuts, where the source recurses without bound and does not terminate.
- LegacyWidget.CreateHiddenIn, LegacyWidget.CreateHiddenOf, LegacyWidget.CreateHidden: require RootFetchSucceeds for a widget made in the root, because the `unwrap` at src/core/ui_widget.rs:213-222 panics when the new widget is not found again, as for the path "/Menu".
- OldWidget.GenerateGridOf, OldWidget.GenerateGrid: require RootFetchSucceeds for a grid made in the root, because the `unwrap` at src/ui_widget.rs:210 panics otherwise.
- OldWidget.GenerateGridOf, OldWidget.GenerateGrid, OldWidget.GenerateGridInside, OldWidget.CreateGridCells: require Indexable, a grid with a column and no column shorter than the first, because `grid[0]` on an empty grid and `grid[x][y]` past a short column panic.
- OldGrid.CreateOf, OldGrid.CreateInsideOf, OldGrid.Create, OldGrid.CreateInside: require a grid with at least one column, because `grid[0]` panics on an empty grid. Columns of differing lengths are checked first and give an error, as in the source.
- OldWidget.GenerateGridOf, OldWidget.GenerateGrid, OldWidget.GenerateGridInside, OldWidget.CreateGridCells, OldWidget.ComputeGeometry, OldGrid.CreateOf, OldGrid.CreateInsideOf, OldGrid.Create, OldGrid.CreateInside: require Computes (Divisible for OldWidget.ComputeGeometry, and through Computable for OldGrid's members), that the divisors of the cell sizes are not zero when the grid has rows. A grid of one column without width padding divides 0 by 0 (`1 + xi` with `xi = -1`), and the source goes on with NaN positions there.
- `split_last` takes a string delimiter. It is modelled with a single character, because every caller passes `"/"`.
- Address parsing in src/ui_core.rs and the parameter parser of the nesting prototype read characters where the source indexes bytes. The text is taken to be ASCII.

## Findings

Every cross-unit subtraction (`Ab(a) - Rl(b)`) and `NodeSize - NodeSize` negate a slot that only the right operand has. The `UiValue - UiValue` and `UiValue - Unit(x)` operators of three generations copy that slot unnegated, so their result is not the difference. The model keeps the written operators under their own names (`Sub`, `SubUnit`), proves what they compute, and uses the corrected ones (`SubCorrected`) where a difference is meant. `SubUnitIsSub` ties the single-unit form to the same flaw.

| source | as written | input that shows it | evidently intended | confidence | as-written member | corrected member |
|---|---|---|---|---|---|---|
| crates/lunex_engine/src/core/value.rs:78-89 | a slot present only on the right is copied into the difference unnegated, and `- Unit(x)` at lines 152-166 stores `+x` in an absent slot | `UiValue::new() - Rl(3.0)` holds `rl = 3` and evaluates to +3 percent of the parent | the slot holds `-3`, so the difference evaluates to the difference of the evaluations | not executed | EngineValue.SubUnnegatedCounterexample | EngineValue.EvaluateSubCorrected |
| crate/src/units.rs:374-385 | the same unnegated copy, and `- Unit(x)` at lines 475-489 stores `+x` in an absent slot | `UiValue::new() - Rl(3.0)` holds `rl = 3` | the slot holds `-3` | not executed | CrateUnits.SubUnnegatedCounterexample | CrateUnits.EvaluateSubCorrected |
| crates/lunex_engine/src/common/value.rs:76-87 | the same unnegated copy, and `- Unit(x)` at lines 148-162 stores `+x` in an absent slot | any right-only slot with a nonzero coefficient, such as `new() - Rl(3.0)` | the difference is the sum with the negation | not executed | EngineCommonValue.SubAgreesWhenLeftCovers | EngineCommonValue.SubCorrectedIsAddNeg |
| crates/lunex_engine/src/common/size.rs:491-529 | `NodeSize - Abs(x)` (and `Prc`, `Rem`, and `-=`) stores `+x` in an absent slot, where `NodeSize - NodeSize` negates | `NodeSize::new() - Abs(5.0)` holds `abs = 5` and evaluates to +5 | `abs = -5`, as `new() - from_abs(5.0)` gives | not executed | EngineSize.SubUnitCounterexample | EngineSize.EvaluateSubUnitCorrected |
| crates/lunex_engine/src/layout/layout.rs:217-220 | `new_centered_at` stores `pos - size * 0.5` with the unnegated subtraction, so an empty `pos` gets `+size/2` | `pos` empty and size `Ab(10, 10)` in a parent at the origin: the corner is at (5, 5) and the centre at (10, 10) | the corner at (-5, -5), so the window is centred on `pos` | not executed | EngineLayout.CenteredAtCounterexample | EngineLayout.CenteredAtCorrectedIsCentred |
| src/core/util.rs:106-115 | `periodical_difference_long` returns the short difference when that difference is negative and not beyond half a period | period 360 from 300 to 0 gives 60, the inner angle | -300, the outer angle, as the documented examples show for the other cases | not executed | PathUtil.DifferenceLongCounterexample | PathUtil.DifferenceLongCorrected |
| src/ui_core.rs:126-133 | `set_visibility` also overwrites the branch's own `parent_visible` with the new effective visibility | hide a fresh visible branch, then show it again: it stays invisible | only the children learn the new visibility, as in the newer generations, so showing it again makes it visible | not executed | OldCore.HideThenShowCounterexample | OldCore.SetVisibilityCorrected |
| src/ui_widget.rs:300 | the vertical gap is divided by the row count plus the horizontal padding flag (the same line is at src/ui_widget.rs:340 and src/utilities/ui_grid.rs:52 and 98). The grid operations of the model compute it as written (OldWidget.GeometryAsWritten) | one column of two rows, cells 10 percent square, gaps 1 percent, padded across but not down: the last row ends at 6100/63 instead of 100 | the vertical gap uses the vertical padding flag, so the rows fill the container | not executed | OldWidget.LastRowCounterexample | OldWidget.CellGeometry |
| examples/future_WIP/nesting/src/parameter.rs:55 | the list is sliced from 1 of the trimmed right side to two before its untrimmed length. With `(` right after `:` this cuts the last value's final character as well as the bracket. With one space before `(` the slice is exact, with two it keeps the `)`, and with three or more it is past the end and panics (NestingParameter.ComplexValuesAsWritten states when it is defined) | `name:(a,b)` parses to `Complex(name, [a])` | `Complex(name, [a, b])`, whatever the spacing | not executed | NestingParameter.ComplexDropsLastValue | NestingParameter.ComplexRoundTrip |
