# OpticC, modelled and verified in Dafny

OpticC is a C compiler written in Rust. This project models the algorithms between its parser and LLVM, and
the stores they work on, and proves what they are for. `dafny verify dfyconfig.toml` checks all of it.

## What is here

**Statements to basic blocks** (`CStatements`, `BlockMachine`, `LowerSpec`, `LowerFacts`, `Lowering`, `Shapes`,
`Simulation`, `Functions`, `WellFormedness`, `BranchTargets`, `BranchRange`, `SwitchDispatch`, `JumpTargets`,
`NamedLabels`, `NestedLabels`, `Settled`). Expressions are opaque: evaluating one may depend on everything
evaluated before, and an oracle stands for one program state. `CStatements` gives statements their meaning after
sections 6.8.2, 6.8.4, 6.8.5 and 6.8.6 of ISO/IEC 9899:1999, as a run with an outcome (normal, break, continue,
return) and a fuel that bounds loop iterations; a switch promotes its condition and jumps to a label at any
depth of its body. `BlockMachine` runs blocks, which, as in LLVM, are lists of instructions to which anything
can be appended, terminators included. Evaluating a silent expression, one that lowers to a constant or to
nothing, leaves a mark that is no instruction. The class `Lowering.StatementLowering` is the backend object with
its insertion point, its break and continue stacks and its label map; each of its methods is proved to leave
exactly the state that a function of `LowerSpec` gives, failing steps included, and the theorems are about those
functions. The main ones:

- `Functions.FunctionMeaning`: the emitted function, after the clean-up of blocks, halts with a result after a
  sequence of evaluations if and only if the C body does, when case labels are direct children of their switch
  body and fit its condition. No condition on dead code is needed: what is appended behind a terminator is never
  run.
- `NestedLabels.NestedLabelsIgnored`: with case labels further down, the emitted function does what C says of
  the body without them, which can be something else (`NestedLabelMissed`).
- `WellFormedness.FunctionWellFormed`: LLVM's rule of one terminator per block, at its end, is met if and only
  if no statement that emits an instruction follows a jump before the next label. `CodeAfterJump` shows a C body
  where it is not met. `CleanedUp` holds of every body: all blocks are terminated, no branch dangles, and
  exactly the blocks without code or use are gone.
- `Settled.FunctionSettled` and `ClosingIdle`: every block that lowering leaves is terminated, whatever the body, so
  only the current one can have code and be open, and the last loop of a switch finds nothing to close.
- `BranchTargets.StacksRestored`: the target stacks come back as they were if and only if no loop fails to lower
  in its test or increment; the early returns skip the pops, and `LeakedBreakTarget` shows one.
- `JumpTargets.JumpsAimed`: when no loop fails, each break and continue is lowered to a branch to the block its
  place in the statement says.
- `SwitchDispatch.Dispatch`, `SingleFaithful` and `RangeFaithful`: which block a switch reaches for each value,
  and exactly which labels and `case lo ... hi` ranges the backend lists as C, which promotes the condition,
  means them; `ShortRange`, `LongRange` and `PlainRange` spell it out for ranges.
- `NamedLabels.OneBlockPerName`: two gotos or labels share a block if and only if they share a name;
  `GotoArrives` and `LabelArrives` take the machine there.

**Types and layout** (`RecordLayout`, `TypeTable`, `RecordTable`, `TypeSystem`, `LlvmImage`). The layout loop
with its hidden bit-field state, against section 6.7.2.1 of ISO/IEC 9899:1999: what is placed where, and that no
other placement is better (`LayoutMeaning`, `LayoutOptimal`), where each member goes after the one before it
(`Successive`), and what that makes of the members handed back (`StructMembers`, `UnionMembers`). The table as a
class whose methods keep the signature cache in agreement (`AddType`, `SignaturesUnique`), resolve chains on
cyclic tables too (`ResolveTypedef`, `ResolvedIsFinal`) and keep every alignment a power of two that divides the
size (`AlignDivides`). What kind of LLVM type stands for each type (`ImageKind`), and that the second,
independent size computation over LLVM types agrees with the table (`ImageAgrees`).

**Bit-fields** (`MachineBits`, `BitFields`). Packing (`PackedInOrder`, `PackingSound`), and the emitted shifts
and masks on machine integers as bits: over every run of assignments the members of a struct behave like
independent variables (`BehavesLikeVariables`). Increments and decrements step the whole unit; `StepExact` says
exactly when that is a step of the member alone.

**Closures over the arena's syntax tree** (`Reachability`, `AstLinks`, `Provenance`, `CallGraph`). Depth-first
walks with one shared visited set over links that may dangle or go in circles, and the worklist that decides
which functions are emitted: each returns exactly what paths reach, and terminates. The names emitted are those
that chains of mentions lead to from functions that must be kept (`ComputeReachableFunctions`).

**Stores** (`Scopes`, `NodeBytes`, `Arena`, `Lexer`). The undo log of block scopes against a stack of maps; the
arena as one array of bytes, with nodes encoded to their 56 bytes, against a list of nodes and a map of blocks;
the byte lexer against a definition of tokens that does not scan.

`Arithmetic` and `Options` are helpers.

## Where the code does something unexpected

- A loop whose test or increment cannot be lowered leaves its targets on the stacks until the next function
  clears them (`BranchTargets.LeakedBreakTarget`).
- A case label narrower than the condition and with its top bit set is listed as a negative number, so its value
  goes to the default: every integer constant has 32 bits, so this happens to `case 3000000000:` under a 64-bit
  condition (`SwitchDispatch.ThreeBillionMissed`).
- A condition narrower than int is not promoted; the labels are cut to its width instead. So a label that
  promotion puts out of reach is taken at some other value: `case 200:` at -56 under a signed char, `case 256:`
  at 0 under an unsigned one (`SwitchDispatch.TwoHundredTaken`, `SwitchDispatch.TwoFiftySixTaken`).
- A case range that runs backwards or crosses zero, one that leaves the values of a condition narrower than int,
  one of negative values narrower than the condition, and one of more than 256 values can be expanded to the
  wrong values (`SwitchDispatch.Unfaithful`; `RangeFaithful` says when).
- Case labels below the direct children of a switch body are not jumped to (`NestedLabels.NestedLabelMissed`).
- `++` and `--` on a bit-field step the whole storage unit, so neighbours change when the member does not start
  at bit 0 or its step carries out of it, and the result is the whole unit (`BitFields.StepExact`).
- A signed bit-field is read without its sign unless it fills its unit: -1 in three bits reads back as 7
  (`BitFields.SignedReadBack`).
- A bit-field reached through a nested member or an array element is looked up by its position among the member
  names, not by its packing, and the whole unit there is accessed (src/backend/llvm.rs:3265-3330).
- An integer assigned to a wider ordinary member is always extended by its sign bit, unsigned ones too
  (`MachineBits.CastValue`).
- A value wider than the storage unit of the bit-field it is assigned to is handed to a widening conversion,
  which LLVM does not define there.
- The string region of the arena starts at slot `node_capacity + 1`, but the mapping ends one slot too early for
  that: filling the string pool completely writes past the mapping (`Arena.MissingSlot`).
- The look-ahead for three-byte punctuators is one byte too far. In a source of exactly 2^32 - 1 bytes it can
  wrap to the first byte, and then the position wraps as well and scanning never ends (`Lexer.TokenProgress`,
  `Lexer.NeverFinishes`).
- `->`, `<<`, `>>` and the digraphs are taken for two punctuators (`Lexer.PairsOfC`).
- A number that starts with 0 and an octal digit takes no suffix and no fraction: `017L` and `01.5` are cut in
  two (`Lexer.NumberMunch`).
- When LLVM has no constant for its size, a double in a record counts four bytes and a float by itself eight
  (`LlvmImage.FloatsAgree`).
- The LLVM type of long double has half the bits of its size in the type table (`LlvmImage.ImageKind`).
- A void function that returns an expression that cannot be lowered returns all the same
  (`Functions.ReturnAnyway`).
- CHAR and UCHAR are the same type under two ids (`TypeSystem.SignaturesUnique`).
- `get_affine_grade` never answers `Borrowed`, and `check_aliasing_conflict` depends on the pair only through
  `is_noalias` (`Provenance.AliasAnalyzer.CheckAliasingConflict`).
- The call branch of `collect_direct_callees` adds nothing that the identifier branch does not
  (`CallGraph.CollectDirectCallees`).

## How it is modelled

- A `&mut` argument that a recursive walk shares is passed in and handed back.
- The value of a switch condition is the one the emitted code computes, at the width it has there; a comparison
  counts as one bit without sign. C promotes that value.
- Hash maps are iterated in any order (`:|`), so results do not depend on it.
- Sizes and offsets of layout are unbounded integers; widths that matter (case patterns, 64-bit spans, array
  lengths, bit-field units, arena slots, lexer positions) are written out.
- Tree-shaped bodies and sibling chains, which the callee collector needs in order to end, are ghost parameters
  that say how the links unfold; the walks with a visited set need no such thing.
- The bytes of padding inside a node are written as zero; nothing reads them.
- I/O, the file behind the mapping and LLVM itself are not part of this model; deleting a block, asking for a
  terminator and asking for uses are.

## Model

| member | source | states |
|---|---|---|
| Simulation.Simulate | src/backend/llvm.rs:4589-5313 | From the insertion point at entry, the emitted blocks evaluate the same expressions in the same order as the C statement and end at the insertion point at exit, the innermost break target, the innermost continue target or a return, as its outcome says; a statement that runs on keeps the machine running. C here enters a switch at a label at any depth, and the statement has labels only as direct children of a switch body, each listed as C means it (SingleFaithful, RangeFaithful) |
| Simulation.SimulateList | src/backend/llvm.rs:4589-4603 | The same for a compound statement's children in order, with early outcomes cutting the rest off |
| Simulation.SimulateIf | src/backend/llvm.rs:4691-4762 | The same for if with and without else: exactly one arm runs and both meet in the merge block |
| Simulation.SimulateWhile | src/backend/llvm.rs:4764-4858 | The same for while and do-while; a continue in a do-while goes to the test |
| Simulation.SimulateFor | src/backend/llvm.rs:4860-4962 | The same for for; a continue goes to the increment, not to the test |
| Simulation.SimulateSwitch | src/backend/llvm.rs:4966-5182 | The same for switch: entry at the label C selects after promoting the condition and converting the labels to that type, fall-through from label to label, break to the end, and nothing at all when no label fits and there is no default |
| Simulation.SimulateBody | src/backend/llvm.rs:5115-5175 | Entering a switch body at the k-th label's block runs the children from that label on, whatever was lowered before it |
| Simulation.SimulateLoop | src/backend/llvm.rs:4816-4856 | One loop theorem for all three forms, by fuel: test, body, increment and back, with break, continue and return leaving as C says |
| Simulation.SimulateReturn | src/backend/llvm.rs:5573-5598 | A return evaluates its expression once and halts with the value, with nothing in a void function, or with zero |
| Simulation.SimulateSimple | src/backend/llvm.rs:5285-5313 | Break and continue go to the top of their stacks; expression statements evaluate once |
| Shapes.IfShape | src/backend/llvm.rs:4716-4761 | Which instructions of an if are in place in any later program, arm by arm, although later lowering keeps appending |
| Shapes.WhileShape | src/backend/llvm.rs:4797-4857 | The same for both forms of while: test block, body entry, back edge and exit |
| Shapes.ForShape | src/backend/llvm.rs:4899-4961 | The same for for, with its separate increment block |
| Shapes.SwitchShape | src/backend/llvm.rs:5009-5180 | The same for switch: the switch instruction, every label block, and the closing branches |
| Functions.Calls | src/backend/llvm.rs:4440-4541 | For a body whose case labels are direct children of their switch and fit its condition: a call that finishes within some fuel is matched by a halting run of the emitted function with the same evaluations and result; at any other fuel the machine is still running |
| Functions.FunctionMeaning | src/backend/llvm.rs:4440-4541 | For such a body, the emitted function halts with a result after a sequence of evaluations if and only if the C body returns that result after that sequence; so one runs forever exactly when the other does |
| NestedLabels.LowerStripped | src/backend/llvm.rs:4623-4631 | Lowering any statement, and the same statement with all labels emptied that are not direct children of a switch body, gives the same blocks |
| NestedLabels.NestedLabelsIgnored | src/backend/llvm.rs:4623-4631 | With labels anywhere, the emitted function halts with a result if and only if the C body without the nested labels returns it |
| NestedLabels.NestedLabelMissed | src/backend/llvm.rs:5120-5149 | A switch whose label lies in a block of its body: C goes on behind the label, the emitted function skips the switch |
| Functions.DeadInvisible | src/backend/llvm.rs:4527-4540 | Deleting the dead blocks changes no run that starts in a surviving block |
| Functions.Contained | src/backend/llvm.rs:5285-5313 | C semantics itself never lets a break or continue out of the construct that encloses it |
| LowerFacts.LowerKeeps | src/backend/llvm.rs:4605-4647 | Lowering any statement, failing or not, only appends, and only to the current block, to label blocks and to new blocks |
| LowerFacts.CloseAllKeeps | src/backend/llvm.rs:5169-5175 | Closing the label blocks of a switch touches no block outside it |
| Settled.LowerSettled | src/backend/llvm.rs:4605-4647 | Lowering any statement, failing or not, leaves no block for another one that is not terminated |
| Settled.ClosingIdle | src/backend/llvm.rs:5153-5180 | In every switch the last loop finds each label block terminated: closing the current block and a missing default is all there is to do |
| Settled.FunctionSettled | src/backend/llvm.rs:4440-4495 | At the end of every body each block but the current one is terminated or has no code |
| BranchRange.LowerProper | src/backend/llvm.rs:4605-4647 | Every branch that lowering any statement emits goes to a block that exists, and so does every target still on a stack |
| BranchTargets.StackDiscipline | src/backend/llvm.rs:4801-4854 | After any lowering the break and continue stacks are the old ones with exactly as many entries on top as loops failed in their test or increment |
| BranchTargets.ForDiscipline | src/backend/llvm.rs:4904-4958 | The same for for, whose initialiser, test and increment may each fail on their own |
| BranchTargets.StacksRestored | src/backend/llvm.rs:4801-4854 | Both stacks come back as they were if and only if no loop that lowering reaches failed in its test or increment |
| JumpTargets.JumpsAimed | src/backend/llvm.rs:4801-5313 | On every lowering without a failing loop each break branches to the end block of the innermost loop or switch around it and each continue to the test block (while, do) or increment block (for) of the innermost loop, and to nothing outside all of them |
| JumpTargets.BodyJumps | src/backend/llvm.rs:5112-5178 | In a switch body a break goes to the switch's end and a continue to the loop around the switch, whatever label it follows |
| BranchTargets.LeakedBreakTarget | src/backend/llvm.rs:4817-4819 | A concrete while loop whose test cannot be lowered: the early return leaves its two targets on the stacks for the rest of the function |
| SwitchDispatch.LabelPatternsMeaning | src/backend/llvm.rs:5039-5084 | A fitting label's bit patterns are those of exactly the values of the condition it covers, its operands converted to the condition's promoted type |
| SwitchDispatch.SingleFaithful | src/backend/llvm.rs:5039-5064 | A single label is listed as C means it if and only if, converted to the condition's promoted type, it is a value the condition can have, and it is as wide as the condition or keeps its value when its sign bit is extended |
| SwitchDispatch.SingleMissed | src/backend/llvm.rs:5045-5049 | For every other label the code takes a value of the condition that C does not, and C's own value, if the condition can have it, is not among those listed |
| SwitchDispatch.ThreeBillionMissed | src/backend/llvm.rs:5045-5049 | The label 3000000000, a 32-bit constant, under a 64-bit condition: the value 3000000000 is sent to the default block |
| SwitchDispatch.LabelMissed | src/backend/llvm.rs:5039-5064 | A switch whose only label does not fit: the code enters it at a value where C does not, and not at the one, if any, where C does |
| SwitchDispatch.TwoHundredTaken | src/backend/llvm.rs:5050-5051 | The label 200 under a condition of 8 bits with sign: C takes it at no value, the code at -56 |
| SwitchDispatch.TwoFiftySixTaken | src/backend/llvm.rs:5050-5051 | The label 256 under a condition of 8 bits without sign: C takes it at no value, the code at 0 |
| SwitchDispatch.RangeFaithful | src/backend/llvm.rs:5065-5084 | For operands of any value, width and order, under any condition: the expansion is what C means if and only if the range gets as many entries as it covers values of the condition after promotion, and either that is all of them or the first entry is the first of them |
| SwitchDispatch.Unfaithful | src/backend/llvm.rs:5075-5082 | For every other range, a value of the condition that is sent the wrong way |
| SwitchDispatch.StartExact | src/backend/llvm.rs:5075-5082 | Under a condition of 32 bits or more the first entry is the first value if and only if the range is as wide as the condition or does not start below zero |
| SwitchDispatch.ShortRange | src/backend/llvm.rs:5065-5084 | A range of at most 256 non-negative values that the condition can have is listed as C means it, whatever the widths: exactly lo to hi |
| SwitchDispatch.LongRange | src/backend/llvm.rs:5075-5082 | Of a longer range exactly the first 256 values are listed |
| SwitchDispatch.BackwardsRange | src/backend/llvm.rs:5075 | Of a range that runs backwards exactly its first operand is listed, though C gives it no value |
| SwitchDispatch.PlainRange | src/backend/llvm.rs:5065-5084 | For values of a condition of 32 bits or more: a range is listed as C means it if and only if it is forward, has at most 256 values and does not cross zero, nor start below it unless as wide as the condition; and for the one 64-bit range that wraps to nothing |
| SwitchDispatch.DedupSelects | src/backend/llvm.rs:5097-5104 | Dropping repeated values does not change which block any value is sent to |
| SwitchDispatch.DedupDistinct | src/backend/llvm.rs:5097-5104 | After it no value is listed twice, as the switch instruction demands |
| SwitchDispatch.Dispatch | src/backend/llvm.rs:5009-5110 | When all labels fit, the switch instruction sends each value of the condition to the block of the first label in source order that C, after the integer promotions, finds to cover it, else to the default block |
| SwitchDispatch.EntryExact | src/backend/llvm.rs:5022-5095 | The labels the code collects say where C enters the body if and only if C does not enter inside one of its children |
| SwitchDispatch.EnterAtLabel | src/backend/llvm.rs:5120-5149 | Entering a body at a child that is itself the label is running the children from there on |
| WellFormedness.CleanedUp | src/backend/llvm.rs:4495-4540 | For any body, gotos and failing statements included: every block left ends in a terminator, no branch goes to a deleted block, the entry block is there, and of the blocks lowering left exactly those without code or use are deleted |
| Functions.OpenEnd | src/backend/llvm.rs:4495-4525 | A block left open takes the machine nowhere after sealing, but for the entry, which returns |
| Functions.DeletedExactly | src/backend/llvm.rs:4527-4540 | Said of the blocks before sealing: deleted are exactly those but the entry that have no code and that no instruction names |
| Functions.FailedSkipped | src/backend/llvm.rs:4589-4603 | A statement whose expression cannot be lowered leaves no trace: the function is the one without it |
| Functions.ReturnAnyway | src/backend/llvm.rs:5573-5598 | A void function returns without evaluating an expression that failed; another function returns zero after one without a value |
| Functions.TestWithoutValue | src/backend/llvm.rs:4816-4834 | A loop test without a value is evaluated and counts as true |
| WellFormedness.FunctionWellFormed | src/backend/llvm.rs:4495-4540 | Every block left has exactly one terminator, at its end, if and only if no statement that emits an instruction follows a jump before the next label; an expression that lowers to a constant emits none |
| WellFormedness.Neat | src/backend/llvm.rs:4605-4647 | Statement by statement: lowering keeps all blocks free of instructions after a terminator if and only if the statement is tidy |
| WellFormedness.CodeAfterJump | src/backend/llvm.rs:5291-5300 | A loop body of a break and an expression leaves a block with code behind its terminator if and only if the expression emits code |
| NamedLabels.UsesAgree | src/backend/llvm.rs:5186-5282 | Lowering any statement only adds labels, keeps distinct names in distinct blocks, and every goto and label in it used the block its name has at the end |
| NamedLabels.OneBlockPerName | src/backend/llvm.rs:5186-5282 | Of all gotos and labels of a function, two use one block if and only if they have one name, whichever comes first |
| NamedLabels.GotoArrives | src/backend/llvm.rs:5186-5217 | A goto takes the machine in one step to the start of the block of its name |
| NamedLabels.LabelArrives | src/backend/llvm.rs:5232-5282 | Falling into a labelled statement takes the machine in one step to the start of the block of its name, and there the statement goes on |
| Lowering.StatementLowering.LowerStmt | src/backend/llvm.rs:4605-4647 | Dispatch on the kind; leaves exactly the state, success flag included, of the lowering function the theorems above are about |
| Lowering.StatementLowering.LowerCompound | src/backend/llvm.rs:4589-4603 | The children in order, a failing one skipped |
| Lowering.StatementLowering.LowerIfStmt | src/backend/llvm.rs:4691-4762 | Three blocks, the conditional branch, and branches to the merge block only from open ends |
| Lowering.StatementLowering.LowerWhileStmt | src/backend/llvm.rs:4764-4858 | Blocks, targets pushed and popped, and the early return that pops nothing |
| Lowering.StatementLowering.LowerForStmt | src/backend/llvm.rs:4860-4962 | The initialiser, then the loop, with early returns at test and increment |
| Lowering.StatementLowering.EnterFor | src/backend/llvm.rs:4898-4930 | The four blocks, the two targets and the test of a for loop |
| Lowering.StatementLowering.LowerIncrement | src/backend/llvm.rs:4934-4954 | The increment block and the back edge |
| Lowering.StatementLowering.LowerSwitchStmt | src/backend/llvm.rs:4966-5182 | Both passes over the body and the closing of its blocks |
| Lowering.StatementLowering.EnterSwitch | src/backend/llvm.rs:5006-5113 | End and default blocks, the case list without repetitions, the switch instruction and the break target, for an integer condition |
| Lowering.StatementLowering.CollectLabels | src/backend/llvm.rs:5009-5095 | Pass 1: a block for each case label in source order, the case list with narrower constants sign-extended and wider ones cut, and which child got which block |
| Lowering.StatementLowering.Deduplicate | src/backend/llvm.rs:5097-5104 | Keeps the first entry of each value, in order |
| Lowering.StatementLowering.LowerSwitchBody | src/backend/llvm.rs:5115-5151 | Pass 2: fall through into a label's block and go on there; everything else is lowered in place |
| Lowering.StatementLowering.ExitSwitch | src/backend/llvm.rs:5153-5180 | Closes what is open, drops the break target and goes on at the end block |
| Lowering.StatementLowering.CloseLabels | src/backend/llvm.rs:5169-5175 | Branches to the end from exactly the label blocks that are still open |
| Lowering.StatementLowering.LowerBreakContinue | src/backend/llvm.rs:5285-5313 | Branches to the top of the stack, or does nothing when it is empty |
| Lowering.StatementLowering.LowerReturnStmt | src/backend/llvm.rs:5573-5800 | Return with and without a value, in void functions and others; conversions of the value aside |
| Lowering.StatementLowering.LowerGotoStmt | src/backend/llvm.rs:5186-5217 | Branches to the name's block, made on first use; an empty name does nothing |
| Lowering.StatementLowering.LowerLabeledStmt | src/backend/llvm.rs:5232-5282 | Falls through into the name's block and lowers the statement there |
| Lowering.StatementLowering.LowerFuncDef | src/backend/llvm.rs:4236-4541 | A whole body: stacks and labels cleared, statements lowered, default return, clean-up; what survives is the program the function theorems are about |
| Lowering.StatementLowering.SealBlocks | src/backend/llvm.rs:4495-4525 | Gives each block without a terminator one: a return in the entry block, unreachable elsewhere |
| Lowering.StatementLowering.HasUse | src/backend/llvm.rs:4531-4533 | Whether any instruction of a block that is still there names the block |
| Lowering.StatementLowering.DeleteDeadBlocks | src/backend/llvm.rs:4527-4540 | Deleting in order while looking at the blocks that are left ends with exactly the unused blocks that start with unreachable gone |
| RecordLayout.AlignUpLeast | src/types/mod.rs:471 | Rounding up gives the least multiple of the alignment that is not below the offset |
| RecordLayout.PlaceOne | src/types/mod.rs:448-516 | One step of the bit-field state machine: the bits left in the unit are never negative, the member is aligned or joins the open unit |
| RecordLayout.LayoutMeaning | src/types/mod.rs:448-532 | Ordinary members and storage units lie in declaration order in disjoint bytes inside the record, each aligned to its type or to the type that opened it; bit-fields sharing a unit have disjoint bits inside it; the size is a multiple of the alignment |
| RecordLayout.Successive | src/types/mod.rs:448-520 | The whole layout without the loop's state: the first member at 0; a bit-field that fits into the rest of the open unit at the next bit of it; anything else at the first aligned byte behind; and where the record ends |
| RecordLayout.SizeMeaning | src/types/mod.rs:518-526 | The size is the least multiple of the largest alignment that reaches to the end |
| RecordLayout.LayoutOptimal | src/types/mod.rs:452-526 | No placement of bit-field-free members that C accepts puts a member earlier or needs fewer bytes at the record's alignment |
| RecordLayout.ArrayAligned | src/types/mod.rs:452-526 | With power-of-two alignments every ordinary member of every element of an array of the record is aligned |
| TypeTable.ResolvedIsFinal | src/types/mod.rs:367-385 | The result is neither a typedef nor qualified if and only if the chain ends at all |
| TypeTable.ResolveIdempotent | src/types/mod.rs:367-385 | Resolving the result again gives the result, on cyclic tables too |
| TypeTable.ResolvedSame | src/types/mod.rs:272-346 | On the tables the front end builds the result has the size, the alignment and the integer-ness of the original |
| RecordTable.AlignDivides | src/types/mod.rs:272-328 | In every table built from laid-out ids the alignment of a complete type is a power of two that divides its size |
| RecordTable.StructMembers | src/types/mod.rs:448-532 | Of the members handed back: in order they take bits behind each other and inside the size; all but bit-fields are aligned; names, types and widths are kept; the alignment is the largest |
| RecordTable.BitFieldsShare | src/types/mod.rs:463-487 | Of the members handed back: a bit-field takes the bits right after the bit-field before it if the unit, as large as the type that opened it, has room, and else starts a unit at the first aligned byte behind it |
| RecordTable.UnionMembers | src/types/mod.rs:417-446 | All members of a union at 0 and otherwise unchanged; the size is the least multiple of the largest alignment with room for each |
| RecordTable.RecordMembers | src/types/mod.rs:399-567 | The same for every laid-out record of the table |
| RecordTable.RecordArrayAligned | src/types/mod.rs:399-567 | In an array of any laid-out struct of such a table every ordinary member of every element is aligned |
| RecordTable.AppendOk | src/types/mod.rs:257-270 | Entering a type made of existing ids keeps the table so |
| RecordTable.LayoutOk | src/types/mod.rs:399-410 | Laying out a record keeps the table so, the layouts of all other records included |
| TypeSystem.SignatureMeaning | src/types/mod.rs:173-208 | Exactly the records have no signature, and a signature determines the type |
| TypeSystem.BuiltinsDistinct | src/types/mod.rs:226-249 | Of the sixteen built-in types only CHAR and UCHAR share a signature |
| TypeSystem.SignaturesUnique | src/types/mod.rs:223-270 | In every reachable table two ids share a signature if and only if they are CHAR and UCHAR |
| TypeSystem.TypeSystem.constructor | src/types/mod.rs:223-251 | The built-in table, with a cache that agrees with it |
| TypeSystem.TypeSystem.AddType | src/types/mod.rs:257-270 | The returned id holds the requested type, and for a non-record it is the only id but CHAR that does, so equal types get equal ids and plain char gets UCHAR; a type that is there and is not a record keeps its id and nothing changes; otherwise it is appended; the cache stays in agreement |
| TypeSystem.TypeSystem.ResolveTypedef | src/types/mod.rs:367-385 | Ends on every table, at the end of the chain or at the first id met twice |
| TypeSystem.TypeSystem.ComputeLayoutInfo | src/types/mod.rs:412-533 | Size, alignment and members are those of the layout the theorems above are about; in particular the members of a struct lie behind each other inside it, and those of a union at 0 with room for each |
| TypeSystem.TypeSystem.ComputeUnion | src/types/mod.rs:417-446 | Least multiple of the largest alignment with room for each member, all members at 0 |
| TypeSystem.TypeSystem.ComputeStruct | src/types/mod.rs:448-532 | The loop over members with its four mutable locals computes that layout: members behind each other, inside, aligned, nothing else about them changed |
| TypeSystem.TypeSystem.PlaceMember | src/types/mod.rs:452-516 | One turn of that loop, all three branches, without underflow of the remaining bits |
| TypeSystem.TypeSystem.UpdateStructLayout | src/types/mod.rs:535-567 | Changes one record's size, alignment and members and no other id |
| TypeSystem.TypeSystem.ComputeStructLayout | src/types/mod.rs:399-410 | Lays out a record that has no layout from its members, changes no other id, and does nothing the second time |
| LlvmImage.WalkAgrees | src/backend/llvm.rs:1800-1842 | Walking LLVM fields that have the members' sizes and alignments ends where the layout ends; with all alignments 1 it makes no difference whether the struct is packed |
| LlvmImage.ImageAgrees | src/backend/llvm.rs:672-726 | For laid-out types made of integers, pointers, enums, floats and doubles whose size LLVM answers, arrays and bit-field-free structs the image's size by either walk, and a struct's alignment, equal size_of and align_of |
| LlvmImage.FloatsAgree | src/backend/llvm.rs:1800-1842 | For which answers of LLVM each of the two walks gives floats and doubles the size, and the alignment, of the type table |
| LlvmImage.LongDoubleDiffers | src/backend/llvm.rs:672-726 | Double and long double have one image, so no answer gives both their sizes |
| LlvmImage.NestedArray | src/backend/llvm.rs:1814-1830 | In a record an array of arrays gets its size if and only if it is empty or its elements take four bytes |
| LlvmImage.ImageKind | src/backend/llvm.rs:672-726 | Through any chain of typedefs and qualifiers: integer images for exactly the integer types among scalars, floats for exactly the floating types, pointers for exactly the pointers, at eight bits a byte but for Bool (1), enums (32) and long double (half); arrays and structs element by element and member by member |
| LlvmImage.TypeLowering.ToLlvmType | src/backend/llvm.rs:672-726 | Cold or warm, the cache does not change the image of a type |
| LlvmImage.TypeLowering.BuildType | src/backend/llvm.rs:677-722 | The image of a type, case by case, whatever is cached |
| LlvmImage.TypeLowering.RecordSizeAlign | src/backend/llvm.rs:1800-1842 | The loop over the fields computes the size and alignment that ImageAgrees speaks about |
| LlvmImage.TypeLowering.FieldSizes | src/backend/llvm.rs:1805-1834 | Size and alignment of one field, arrays of structs and the fallback for floats included |
| LlvmImage.TypeLowering.LlvmTypeSizeBytes | src/backend/llvm.rs:7537-7552 | The size of a value of an LLVM type, with its own fallback for floats |
| BitFields.PackingSound | src/backend/llvm.rs:1512-1561 | Every member lies in an existing LLVM field and, if a bit-field, inside its bits; no two members overlap |
| BitFields.PackedInOrder | src/backend/llvm.rs:1512-1561 | The whole packing without the loop's state: a bit-field of the kind of the bit-field before it that fits behind it takes exactly the next bits of the same field; any other member opens the next field, from bit 0 |
| BitFields.UnitsMeaning | src/backend/llvm.rs:1512-1561 | Each member's field has the bits of its kind or, for an ordinary member, its own, and there are no others |
| BitFields.KindsAgree | src/backend/llvm.rs:1592-1620 | The two tables of node kinds agree on exactly the integer kinds, and give the declared type the size and the image it has in the type table |
| BitFields.RegisterMembers | src/backend/llvm.rs:1512-1561 | The loop over the declarations pushes the fields and notes for each name the place that packing gives it |
| BitFields.ReadWritten | src/backend/llvm.rs:7632-7714 | Reading a bit-field after writing a value gives the value modulo two to the width; an ordinary member gives the value as a signed number, as far as it fits |
| BitFields.SignedReadBack | src/backend/llvm.rs:7391-7410 | A number in the signed range of a bit-field reads back as itself, at the width of the unit, if and only if it is not negative or the bit-field fills its unit |
| BitFields.OthersUntouched | src/backend/llvm.rs:7667-7707 | Writing one member leaves what every other member reads as it was |
| BitFields.AssignIndependent | src/backend/llvm.rs:7632-7714 | Both together, for all members of a packed struct at once |
| BitFields.BehavesLikeVariables | src/backend/llvm.rs:1512-1561 | Over every run of assignments the members of a packed struct behave like independent variables |
| BitFields.StepExact | src/backend/llvm.rs:6283-6310 | Adding one to or taking one from the whole unit steps the bit-field at its own width and leaves all other bits alone if and only if it starts at bit 0 and has the unit for itself or is not at the end of its range |
| BitFields.StepIndependent | src/backend/llvm.rs:6283-6353 | Under that condition an increment or decrement changes that member of the struct by one and no other |
| BitFields.StructVariable.IncDec | src/backend/llvm.rs:6283-6354 | Increment and decrement load, step and store the whole field that holds the member, and hand back all of it |
| BitFields.StructVariable.MemberAccess | src/backend/llvm.rs:7383-7412 | The emitted load, shift and mask give the value of the unit divided by two to the bit offset, modulo two to the width; an ordinary member gives its field |
| BitFields.StructVariable.AssignExpr | src/backend/llvm.rs:7632-7714 | The emitted read-modify-write, compound operators included, writes a bit-field and hands back the assigned value modulo two to the width; an ordinary member gets the value cast to its width and hands that back |
| MachineBits.FromNatNot | src/backend/llvm.rs:7667-7670 | The bits of the complemented mask, taken in 64 bits and cut to the unit |
| MachineBits.LowBits | src/backend/llvm.rs:7403-7409 | Masking to the low bits is the remainder modulo a power of two |
| MachineBits.CastValue | src/backend/llvm.rs:7727-7735 | Cutting bits off or repeating the sign bit keeps the value as a signed number, as far as it fits |
| CallGraph.CollectDirectCallees | src/backend/llvm.rs:214-255 | On tree-shaped bodies: adds exactly the non-empty identifier names of the closure that do not start with __builtin_ |
| CallGraph.MentionsMeaning | src/backend/llvm.rs:239-247 | What that set is: a name is in it if and only if some identifier node of the closure spells it |
| CallGraph.AddCallee | src/backend/llvm.rs:226-237 | The call branch adds the callee's name, which is always one of those |
| CallGraph.FirstIdentMentioned | src/backend/llvm.rs:8896-8923 | The name a declarator leads to is a name of its forest |
| CallGraph.FindIdentName | src/backend/llvm.rs:8896-8923 | The first identifier a chain of declarators leads to; an identifier without a name ends the search |
| CallGraph.DeclaratorName | src/backend/llvm.rs:8896-8923 | A chain of pointer, array, function and init declarators leads to the name of its identifier |
| CallGraph.FindIdentNameIn | src/backend/llvm.rs:8951-8962 | The same from the node itself |
| CallGraph.CollectDefs | src/backend/llvm.rs:257-290 | The definitions by name; of several with one name the last one counts |
| CallGraph.CloseRoots | src/backend/llvm.rs:292-311 | Terminates, and returns exactly the defined names that some root reaches through defined callees, in whatever order names and callees are taken |
| CallGraph.Visit | src/backend/llvm.rs:302-308 | Visiting one name keeps the worklist invariant and either reaches something new or leaves the worklist one shorter |
| CallGraph.ComputeReachableFunctions | src/backend/llvm.rs:257-311 | The names to emit are exactly those of the last definitions that a chain of mentions leads to from one that is not static or has one of the eight attributes; so of a static one without them exactly when it is mentioned that way; determined by the translation unit alone |
| Provenance.AliasAnalyzer.TraceProvenance | src/analysis/alias.rs:80-151 | With a shared visited set, on any links: terminates and finds exactly what it newly visits, each live node once, the start first, nothing left open |
| Provenance.AliasAnalyzer.Trace | src/analysis/alias.rs:80-151 | From an empty visited set: exactly the live nodes reachable along the followed links |
| Provenance.AliasAnalyzer.IsNoalias | src/analysis/alias.rs:153-164 | True if and only if neither argument reaches another live node and they are not one live node; a symmetric condition |
| Provenance.AliasAnalyzer.GetAffineGrade | src/analysis/alias.rs:166-177 | Owned if no other live node is reached, else shared; never borrowed |
| Provenance.AliasAnalyzer.ComputePointerRelationship | src/analysis/alias.rs:316-331 | Owned if and only if the pointers are unaliased, else shared |
| Provenance.AliasAnalyzer.CheckAliasingConflict | src/analysis/alias.rs:366-373 | A conflict if and only if the pointers are not unaliased, whatever the grade |
| Provenance.AliasAnalyzer.DfsProvenanceWalk | src/analysis/alias.rs:333-338 | On any links: exactly the live nodes reachable by child and sibling, each once, all that a trace finds among them; on links that unfold to a forest it is the preorder listing if and only if no node occurs twice |
| Provenance.AliasAnalyzer.DfsRecursive | src/analysis/alias.rs:340-364 | One call of the walk pushes exactly what it newly visits onto the shared result |
| Provenance.ExploredExact | src/analysis/alias.rs:80-151 | A walk that leaves nothing open has found everything reachable |
| Provenance.TraceWithinWalk | src/analysis/alias.rs:80-151 | Whatever a trace reaches, a full walk reaches |
| Provenance.TraceByKind | src/analysis/alias.rs:108-131 | The edges of a trace by kind of node: assignments, pointer types, addresses and dereferences lead to their operand, every node to its sibling, and none to anything else |
| Scopes.RunAgrees | src/backend/llvm.rs:641-670 | Over every run of push, insert and pop the one map with its undo logs stays in step with a plain stack of maps |
| Scopes.VisibleIsInnermost | src/backend/llvm.rs:641-670 | After every run a name is bound to its innermost live declaration |
| Scopes.PopAfterInsert | src/backend/llvm.rs:660-670 | However often a name is declared again, the pop does not see it |
| Scopes.PopRestores | src/backend/llvm.rs:641-658 | A pop restores exactly the map and the logs held at the matching push |
| Scopes.ScopedVariables.PushScope | src/backend/llvm.rs:643-645 | Opens an empty log and leaves the variables alone |
| Scopes.ScopedVariables.PopScope | src/backend/llvm.rs:648-658 | Undoes the innermost log in any order; without an open scope it does nothing |
| Scopes.ScopedVariables.InsertScopedVariable | src/backend/llvm.rs:662-670 | Logs only the first declaration of a name in a scope, and nothing outside all scopes |
| NodeBytes.DecodeEncode | src/arena.rs:51-66 | A node written to its 56 bytes reads back, field by field |
| NodeBytes.NodeSize | src/arena.rs:51-66 | The fields with their padding take 56 bytes |
| NodeBytes.FieldOffset | src/arena.rs:51-66 | Every field lies where the compiler's own record layout puts it |
| NodeBytes.NodeLayout | src/arena.rs:51-66 | And so is the size: 56 bytes |
| NodeBytes.UnpackPack | src/arena.rs:51-66 | Fields packed at the C offsets unpack to the same values |
| Arena.MissingSlot | src/arena.rs:148-169 | Blocks start one slot behind the nodes though the mapping has no slot for it: an accepted block stays inside the mapping if and only if it leaves a slot unused |
| Arena.WriteNodeHeld | src/arena.rs:181-186 | Writing one node's slot leaves every other node readable as it was |
| Arena.WriteBlockHeld | src/arena.rs:229-244 | Writing a block at the first free slot stores it and leaves every other block as it was |
| Arena.Arena.constructor | src/arena.rs:148-170 | Sizes and starts of both regions; slot 0 holds no node |
| Arena.Arena.Create | src/arena.rs:143-171 | Fails for capacity 0 and only then |
| Arena.Arena.Alloc | src/arena.rs:174-189 | Appends the node at the next offset, or fails when the nodes are full; all else reads as before; all bytes in bounds |
| Arena.Arena.Get | src/arena.rs:192-202 | The node last written at the offset, for exactly the allocated offsets |
| Arena.Arena.Update | src/arena.rs:205-215 | A write through get_mut changes that node and nothing else |
| Arena.Arena.StoreString | src/arena.rs:217-247 | A stored string gets an offset of its own and leaves all else readable; the empty string is offset 0; a full pool changes nothing |
| Arena.Arena.StorePayload | src/arena.rs:276-307 | The same for payloads, with their length |
| Arena.Arena.GetString | src/arena.rs:249-274 | Reads back exactly what was stored; offsets outside the pool give nothing |
| Arena.Arena.GetPayload | src/arena.rs:309-338 | Reads back what was stored, and only for its own length |
| Arena.Arena.OffsetsApart | src/arena.rs:192-338 | No non-zero offset satisfies both a node getter and a block getter |
| Lexer.TokenProgress | src/frontend/lexer.rs:320-341 | Every scan before the end takes at least one byte and none past the end, if and only if it does not start two bytes before the end of a source of 2^32 - 1 bytes whose wrapped look-ahead completes a punctuator |
| Lexer.TokenUnique | src/frontend/lexer.rs:320-341 | What a token is, said without scanning, leaves no choice of kind or end |
| Lexer.Lossless | src/frontend/lexer.rs:320-345 | The token texts put together are the source, for every list of tokens that does not start one where the source wraps around |
| Lexer.TokensUnique | src/frontend/lexer.rs:320-341 | A source has one list of tokens |
| Lexer.NeverFinishes | src/frontend/lexer.rs:320-341 | A source that wraps around, and that scanning takes to the place where it does, has no list of tokens: scanning goes round for ever |
| Lexer.ThreeFits | src/frontend/lexer.rs:259-277 | The look-ahead for three-byte punctuators, which is one place too far, finds its byte inside the source but for that wrap-around |
| Lexer.ByteClasses | src/frontend/lexer.rs:82-202 | White space, digits, octal and hexadecimal digits, suffixes and quotes are the bytes C lists |
| Lexer.PairsOfC | src/frontend/lexer.rs:259-300 | Two bytes are one punctuator if and only if they are one in C and not among the missed ones, `->`, `<<`, `>>` and the digraphs |
| Lexer.TriplesOfC | src/frontend/lexer.rs:259-277 | The three-byte punctuators looked for are those of C |
| Lexer.PunctuatorMunch | src/frontend/lexer.rs:249-308 | A punctuator takes three bytes if and only if the byte behind the next two makes three of C's, else two if and only if the first two are one of C's that is not missed |
| Lexer.KindByStart | src/frontend/lexer.rs:320-341 | Of which kind a token is, by its first one or two bytes; none is a keyword |
| Lexer.NumberMunch | src/frontend/lexer.rs:107-180 | A number is the longest text of its form: after 0x hexadecimal digits, after 0 and an octal digit digits only, else digits with a point, an exponent or one suffix letter |
| Lexer.IdentifierBytes | src/frontend/lexer.rs:95-105 | The bytes of identifiers are those of C without universal character names |
| Lexer.OctalThenDigits | src/frontend/lexer.rs:134-146 | Reading octal digits first and 8 or 9 later takes the same bytes as reading all digits |
| Lexer.Lexer.ScanToken | src/frontend/lexer.rs:320-341 | Returns the token at the position and moves to its end |
| Lexer.Lexer.NextToken | src/frontend/lexer.rs:310-318 | The first token that is not white space; only white space is skipped |
| Lexer.Lexer.ScanAll | src/frontend/lexer.rs:320-345 | Repeated scanning ends and loses nothing, on every source but those that NeverFinishes speaks of |
| Lexer.Lexer.SkipWhitespace | src/frontend/lexer.rs:82-93 | The longest run of the six white space bytes |
| Lexer.Lexer.ReadIdentifier | src/frontend/lexer.rs:95-105 | The longest run of letters, digits and underscores |
| Lexer.Lexer.ReadNumeric | src/frontend/lexer.rs:107-180 | Hexadecimal, octal and decimal constants, as far as the lexer takes them |
| Lexer.Lexer.ReadDecimal | src/frontend/lexer.rs:149-177 | Digits, at most one point, then an exponent or one suffix letter |
| Lexer.Lexer.ReadStringLiteral | src/frontend/lexer.rs:182-202 | Ends with the first unescaped quote like its own, else with the input |
| Lexer.Lexer.ReadLineComment | src/frontend/lexer.rs:204-217 | Up to the newline |
| Lexer.Lexer.ReadBlockComment | src/frontend/lexer.rs:219-234 | Ends with the first star-slash after its opening, else with the input |
| Lexer.Lexer.ReadPreprocessor | src/frontend/lexer.rs:236-247 | Up to the newline, continuation lines not looked at |
| Lexer.Lexer.ReadPunctuator | src/frontend/lexer.rs:249-308 | One, two or three bytes, three only with the byte one place further on |

## Left out

- Simulation.Simulate: `goto` and labelled statements are outside the simulated statements; for them there are the one-block-per-name theorem and the steps that take the machine to their blocks (`NamedLabels.GotoArrives`, `NamedLabels.LabelArrives`), and the clean-up theorems cover bodies with them.
- Lowering.StatementLowering.EnterSwitch: a pointer condition counts as the 64-bit integer it is cast to; a condition of any other type, which C does not allow and the code replaces by 0, is not modelled.
- Lowering.StatementLowering.CollectLabels: labels without an expression, or whose expression is not an integer constant, are not modelled.
- Lowering.StatementLowering.LowerFuncDef: parameters, default returns of other types and the last pass that repairs mismatched returns are not modelled.
- Lowering.StatementLowering.LowerGotoStmt: computed goto is not modelled.
- Lowering.StatementLowering.LowerReturnStmt: the conversions of the returned value to the function's type, values of struct or array type, for which no return is emitted, and the last pass that repairs mismatched returns are not modelled; a default return of a struct, float or pointer counts as zero.
- NamedLabels.OneBlockPerName: the address-of-label expression, which uses the same map, and computed goto are not modelled.
- LlvmImage.TypeLowering.LlvmTypeSizeBytes: vector types are not modelled; what LLVM answers when asked for the size of a float is a parameter.
- LlvmImage.ImageAgrees: unions, empty structs, structs with bit-fields and lengths of 2^32 or more are left out; for some of them the two computations differ.
- RecordLayout.LayoutMeaning: sizes are unbounded integers, so overflow of 64 bits in huge records is not modelled.
- RecordTable.AlignDivides: flexible array members have size 0, as the code has it; nothing is said about the bytes behind them.
- BitFields.StructVariable.AssignExpr: a value wider than its unit assigned to a bit-field, and access through pointers, nested members and array elements, are not modelled; nor are members that are not integers.
- BitFields.StructVariable.IncDec: members of pointer and floating type are not modelled.
- BitFields.PackingSound: widths of 64 and widths above that of the unit, which the parser would have to refuse, are left out, and so are base kinds that are not integers.
- CallGraph.CollectDefs: name, storage class, attributes and body of a definition node are taken as read off the node; the readers themselves are not modelled.
- Arena.Arena.StoreString: as for payloads, lengths within 60 bytes of 2^32, where the slot count wraps, are excluded, and so are blocks that would fill the pool to its last slot (`Arena.MissingSlot` says which).
- Arena.Arena.Create: the errors of the file and of the mapping behind it are not modelled.
- Arena.Arena.StorePayload: as for strings.
- Arena.Arena.GetPayload: as for strings.
- Arena.Arena.GetString: looking up an offset inside a block, which reads a length from the middle of it, is excluded; the UTF-8 check, which text that was stored as such passes, is not modelled.
- Lexer.Lexer.ReadPunctuator: that three-byte punctuators are not recognised is modelled as the code has it; maximal munch is not claimed.
- Expression lowering: expressions are opaque, so short-circuit evaluation and the conditional operator are not modelled; a failing expression emits nothing.
- Macro expansion, GNU extensions, inline assembly, the preprocessor and the parser: not part of this model.
- The driver, the database, benchmarks and integration code: only I/O and reports.
- Taint marks and diagnostics of the alias analysis: single map writes.
- Name heuristics for SQLite in the backend and DWARF or vectorisation settings: no law to state.
