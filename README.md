# pyc39to38 code walker, modelled in Dafny

pyc39to38 downgrades Python 3.9 bytecode to Python 3.8 bytecode. Its code
walker, `walk_codes`, takes an assembler that holds every code unit of a module:
for each unit, a code object, a label table and a backpatch set. The backpatch
set holds the jump instructions whose operands were labels before the assembler
turned them into numbers. The walker converts the units one by one, in input
order. For each unit it:

1. copies the code object, the label table and the line table (`co_lnotab`);
2. copies every instruction. For each copy whose original is in the backpatch
   set, it turns the resolved number back into the label `L<absolute target>`
   (the "backpatch tag"). For a relative jump (an opcode in `JREL_OPS`), the
   absolute target is the displacement plus the instruction's offset plus its
   size. For any other jump, the target is the operand itself. Each restored
   copy goes into a new backpatch set;
3. hands the copies to the rewrite rules, the patcher and the assembler. These
   produce the unit's converted code object, which is appended to the output
   list.

At the end, the output list is reversed.

Files and modules:

- `instructions.dfy`, module `Instructions`: operands (`NoArg`, `Int(n)`,
  `Label(a)`, where `Label(a)` stands for the string `'L' + str(a)`), instruction
  values, and the mutable `Instruction` class with its copy constructor.
- `backpatch.dfy`, module `Backpatch`: tag restoration. The value-level
  specification `RestoreEntry`/`RestoreUnit`, its inverse `Resolve` (how the
  assembler turns a label target into an operand), the lemmas about them, and the
  imperative loop `RestoreBackpatchTags`, which is proved against `RestoreUnit`.
- `walk.dfy`, module `CodeWalker`: the copied dicts and code objects, the
  assembler, the per-unit preparation `PrepareUnit`, the loop `WalkCodes`, and
  its specification `Walked` with lemmas on order and failure.
- `results.dfy`, module `Results`: `Result` and `Traverse`. `Traverse` is the
  shape of both loops: append one converted item per input item, and stop at the
  first exception.
- `lists.dfy`, module `Lists`: `Reversed`, which models `list.reverse()`.

Parameters stand in for the collaborators:

- `op_size` is a function `int -> Size`, where `Size` is a positive int.
- `JREL_OPS` is a `set<int>` of opcodes.
- The rule applier, `fix_all`, `create_code` and `update_lists` together become
  one function `finish: (Unit, seq<C>) -> C`. It maps a prepared unit to its
  converted code object. Its second argument is the list of code objects
  converted before this unit, in input order. `create_code` receives the output
  assembler as it stands at that point, and that list is what the assembler
  holds by then.

Errors: a backpatched relative jump whose operand is not an int makes
`arg += …` raise Python's `TypeError`. The model reports this as
`Err((instruction index, AddToNonInt(arg)))`. The walk as a whole reports
`Err((unit index, that error))` for the first unit that raises. The docstring of
`walk_codes` says it returns `None` on failure, but the code never does: the
exception propagates to the caller. The model follows the code.

## Model

| member | source | states |
|---|---|---|
| `Instructions.Instruction.Copy` | pyc39to38/walk.py:41 | the copy is a new object whose opcode, offset and operand equal the original's |
| `CodeWalker.Dict.Copy` | pyc39to38/walk.py:35-38 | a copied label table or line table is a new object with the same entries |
| `CodeWalker.CodeObject.Copy` | pyc39to38/walk.py:34 | the shallow copy of a code object has the same name, and shares the instruction list and line table |
| `Backpatch.RestoreEntry` | pyc39to38/walk.py:43-49 | restoring one entry fails exactly for a backpatched relative jump with a non-int operand, and the error names that operand; an entry outside the backpatch set is kept unchanged; a restored entry keeps its opcode, offset and membership, and a backpatched one ends up holding a label |
| `Backpatch.RestoreUndoesResolve` | pyc39to38/walk.py:44-47 | restoring the tag of a jump resolved to target t gives back the label `L<t>`, for relative and absolute jumps |
| `Backpatch.ResolveUndoesRestore` | pyc39to38/walk.py:44-47 | every int operand restores to a label whose target resolves back to the same operand |
| `Backpatch.RelativeTargetPastInstruction` | pyc39to38/walk.py:45-46 | a relative jump with a non-negative displacement gets a target strictly after its own offset, because sizes are positive |
| `Backpatch.RestoreUnitFails` | pyc39to38/walk.py:40-47 | the unit loop succeeds if and only if no backpatched relative jump has a non-int operand; when it fails, it fails at the first such instruction, with that operand |
| `Backpatch.RestoreUnitAllOk` | pyc39to38/walk.py:40-50 | when every instruction restores, the unit loop gives exactly the restored entries in order |
| `Backpatch.RestoreUnitFirstErr` | pyc39to38/walk.py:40-47 | when instruction j is the first that raises, the unit loop fails at j with that instruction's error |
| `Backpatch.RestoreUnitShape` | pyc39to38/walk.py:39-50 | the new list has the unit's length and order; entry k keeps the opcode, offset and backpatch membership of instruction k; instructions outside the backpatch set are unchanged; backpatched ones hold labels |
| `Backpatch.RestoreUnitRelative` | pyc39to38/walk.py:45-47 | a backpatched relative jump gets the label `L<arg + offset + op_size(opcode)>` |
| `Backpatch.RestoreUnitAbsolute` | pyc39to38/walk.py:45-47 | a backpatched jump that is not relative gets the label of its operand as it was |
| `Backpatch.RestoreUnitExample` | pyc39to38/walk.py:39-50 | on a concrete three-instruction unit: a relative jump 10+2+4 becomes `L16`; an absolute jump to 30 becomes `L30`; an instruction outside the backpatch set is copied as is |
| `Backpatch.RestoreUnitExampleFails` | pyc39to38/walk.py:45-46 | a backpatched relative jump that still holds a label string makes the unit fail at that index |
| `Backpatch.CopyAndRestore` | pyc39to38/walk.py:41-47 | one loop iteration yields a fresh copy whose value is exactly `RestoreEntry` of the original, or `RestoreEntry`'s error |
| `Backpatch.RestoreBackpatchTags` | pyc39to38/walk.py:36-50 | the loop gives exactly `RestoreUnit` of the originals, or its error; it returns as many copies as there are originals, each fresh and distinct; copy k is in the new set exactly when original k was in the old set; the new set holds only copies, and each of them holds a label; the originals are not changed |
| `Results.TraverseSpec` | pyc39to38/walk.py:40-50 | a loop that appends one result per element succeeds only if every element converts, and then element k of the output is the result for element k given the results before it; otherwise it stops at the first element that raises, after the elements before it converted |
| `Results.TraverseAllOk` | pyc39to38/walk.py:40-42 | when every element converts, given the results before it, the loop returns exactly the element-wise results |
| `Results.TraverseFirstErr` | pyc39to38/walk.py:40-47 | when element j is the first one that raises, the loop fails at j with that error |
| `Results.TraversePrefix` | pyc39to38/walk.py:33-65 | when the loop succeeds, it also succeeds on every prefix of the input, and its results there are the prefix of its results |
| `Lists.ReversedAt` | pyc39to38/walk.py:68 | reversal keeps the length and moves element k to position n-1-k |
| `Lists.ReversedSuffix` | pyc39to38/walk.py:68 | after reversal, the elements following position i, reversed back, are the original elements before position n-1-i |
| `CodeWalker.Assembler.Empty` | pyc39to38/walk.py:30 | a new assembler holds no code objects, label tables, backpatch sets or converted code |
| `CodeWalker.Assembler.UnitsUpTo` | pyc39to38/walk.py:33-36 | the units are read in input order: unit k is made of code object k, label table k and backpatch set k |
| `CodeWalker.Prepare` | pyc39to38/walk.py:34-38 | preparing a unit changes only its instructions: the name, label table and line table are carried over unchanged |
| `CodeWalker.PrepareUnit` | pyc39to38/walk.py:34-50 | the prepared unit's value is exactly `Prepare` of the input unit, or its error; the new code object, label table, line table and instruction copies are all fresh objects, so patching them cannot reach the input's tables; having no modifies clause, it leaves the input unit as it was |
| `CodeWalker.ConvertUnit` | pyc39to38/walk.py:34-65 | one loop iteration gives `finish` of the prepared unit and of the code objects converted so far, or the unit's error |
| `CodeWalker.WalkedOrder` | pyc39to38/walk.py:33-68 | on success, the output has one converted unit per input unit, and element i is the conversion of unit n-1-i; that conversion was made when the output list held exactly the units before it, which end up after element i in reverse order |
| `CodeWalker.WalkedFails` | pyc39to38/walk.py:33-50 | the walk succeeds if and only if every unit prepares; otherwise it fails with the error of the first unit that raises |
| `CodeWalker.WalkCodes` | pyc39to38/walk.py:30-71 | the method returns a fresh assembler whose code list is exactly `Walked` of the input units, or `Walked`'s error |

## Left out

- `InPlacePatcher`, `patcher.fix_all()`, the rule applier, `create_code` and `Assembler.update_lists` (walk.py:53-65): their sources are not part of this model. Together they are the parameter `finish`, a pure function of the prepared unit's value and of the code objects converted before it. Their in-place changes to the copied code object, label table and backpatch set are not modelled.
- `update_lists` is assumed to append exactly one code object per unit, as the comment at walk.py:63-65 says.
- `op_size` and the opcode module `opc` (walk.py:12, 45): foreign lookups. They are the parameters `opSize` (positive sizes) and `jrel`.
- Label spelling: `f'L{…}'` is the tagged operand `Label(a)`, not a decimal string.
- `Instruction` fields other than opcode, offset and operand: `utils.Instruction` is not part of this model. Copies keep whatever else it holds; nothing in walk.py reads it.
- Code-object attributes other than the name, the instruction list and the line table: they are shared by the shallow copy, and walk.py does not touch them.
- `new_asm` is created at walk.py:30 and filled by `update_lists` as the loop runs. The model gathers the converted code objects in a local list, and stores that list in a fresh assembler after the loop, then reverses it in place. While the loop runs, the one reader of `new_asm` is `create_code` (walk.py:62), and `finish` is given the list gathered so far in its place.
- `CodeWalker.WalkCodes`: the returned assembler's `codes`, `labelTables` and `backpatch` lists are left empty. `update_lists` (walk.py:65) also appends each unit's code object, label table and backpatch set to them, and walk.py:68 does not reverse them. Its source is not part of this model, so what exactly it stores there is not modelled.
- `CodeWalker.WalkCodes`: `requires asm.Valid()` (the code, label and backpatch lists have equal lengths) is how assemblers are filled, not something walk_codes checks. With a shorter label or backpatch list, Python raises `IndexError` at walk.py:35-36. With a longer one, it ignores the extra entries.
- The label table given to `create_code` is assumed to name each restored jump target `t` as the label `L<t>`, as the assembler's own labels do. The model restores the tag `L<t>` and does not look the label up.
- `PrepareUnit` makes the instruction copies before it copies the code object and the tables. Python copies them first (walk.py:34-38), but these copies are independent of each other, so the order cannot be observed.
- Bookkeeping assignments `new_asm.size`, `new_asm.code` and `new_asm.finished` (walk.py:31, 59, 70): they have no behaviour to verify.
- Exceptions raised inside the collaborators: `finish` is total.
- `CodeWalker.WalkCodes`: the input assembler staying unchanged is not a separate postcondition. It follows from the method having no modifies clause, so it can change no object that existed before the call.
