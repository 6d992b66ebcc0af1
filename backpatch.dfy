/** Restoring the backpatch tags of one code unit: every instruction whose jump
    operand the assembler had already resolved to a number gets its symbolic
    label `L<absolute target>` back, on a copy of the instruction list. */
module Backpatch {
  import opened Results
  import opened Instructions

  /** Instruction sizes in bytes, as returned by the opcode table's `op_size`. */
  type Size = n: int | n > 0 witness 1

  /** Python's TypeError for `arg += <int>` on an operand that is not an int. */
  datatype TypeError = AddToNonInt(arg: Operand)

  /** One instruction of a unit together with whether it is in the unit's
      backpatch set. */
  datatype Entry = Entry(inst: Inst, backpatched: bool)

  /** The entries on which restoring the tag raises: a backpatched relative jump
      whose operand is not an integer. */
  predicate Rejects(e: Entry, jrel: set<int>)
  {
    e.backpatched && e.inst.opcode in jrel && !e.inst.arg.Int?
  }

  /** The copy of one instruction after the loop body has run on it. */
  function RestoreEntry(e: Entry, jrel: set<int>, opSize: int -> Size): (r: Result<Entry, TypeError>)
    ensures r.Err? <==> Rejects(e, jrel)
    ensures r.Err? ==> r.error == AddToNonInt(e.inst.arg)
    ensures !e.backpatched ==> r == Ok(e)
    ensures r.Ok? ==>
              r.value.backpatched == e.backpatched &&
              r.value.inst.opcode == e.inst.opcode &&
              r.value.inst.offset == e.inst.offset
    ensures r.Ok? && e.backpatched ==> r.value.inst.arg.Label?
  {
    if !e.backpatched then Ok(e)
    else if e.inst.opcode in jrel then
      match e.inst.arg
      case Int(n) => Ok(Entry(e.inst.(arg := Label(Int(n + e.inst.offset + opSize(e.inst.opcode)))), true))
      case _ => Err(AddToNonInt(e.inst.arg))
    else Ok(Entry(e.inst.(arg := Label(e.inst.arg)), true))
  }

  /** The loop body as a step of Traverse; it does not look at the copies made
      before it. */
  function RestoreStep(jrel: set<int>, opSize: int -> Size): (Entry, seq<Entry>) -> Result<Entry, TypeError>
  {
    (e, _) => RestoreEntry(e, jrel, opSize)
  }

  /** The loop over a whole unit: its entries restored in order, or the
      TypeError of the first entry that raises. */
  function RestoreUnit(es: seq<Entry>, jrel: set<int>, opSize: int -> Size): Result<seq<Entry>, (nat, TypeError)>
  {
    Traverse(es, RestoreStep(jrel, opSize))
  }

  /** The operand the assembler stores for a jump to byte offset `target`:
      a displacement from the end of the instruction for a relative jump, the
      offset itself for any other jump. Restoring the tag of a jump resolved to
      target t gives the label `L<t>` (`Label(Int(t))`). */
  function Resolve(i: Inst, target: int, jrel: set<int>, opSize: int -> Size): Inst
  {
    i.(arg := Int(if i.opcode in jrel then target - (i.offset + opSize(i.opcode)) else target))
  }

  /** Restoring the tag of a jump resolved to target t gives the label `L<t>`. */
  lemma RestoreUndoesResolve(i: Inst, target: int, jrel: set<int>, opSize: int -> Size)
    ensures RestoreEntry(Entry(Resolve(i, target, jrel, opSize), true), jrel, opSize)
            == Ok(Entry(i.(arg := Label(Int(target))), true))
  {
  }

  /** Every integer operand restores to a label whose target resolves back to it. */
  lemma ResolveUndoesRestore(i: Inst, jrel: set<int>, opSize: int -> Size)
    requires i.arg.Int?
    ensures var r := RestoreEntry(Entry(i, true), jrel, opSize);
            r.Ok? && r.value.inst.arg.Label? && r.value.inst.arg.of.Int? &&
            Resolve(r.value.inst, r.value.inst.arg.of.n, jrel, opSize) == i
  {
  }

  /** A forward relative jump (non-negative displacement) lands past its own start. */
  lemma RelativeTargetPastInstruction(e: Entry, jrel: set<int>, opSize: int -> Size)
    requires e.backpatched && e.inst.opcode in jrel && e.inst.arg.Int? && e.inst.arg.n >= 0
    ensures var r := RestoreEntry(e, jrel, opSize);
            r.Ok? && r.value.inst.arg.of.Int? && r.value.inst.arg.of.n > e.inst.offset
  {
  }

  /** The unit loop fails exactly when some entry raises, and then at the first such entry. */
  lemma RestoreUnitFails(es: seq<Entry>, jrel: set<int>, opSize: int -> Size)
    ensures RestoreUnit(es, jrel, opSize).Ok? <==> forall k :: 0 <= k < |es| ==> !Rejects(es[k], jrel)
    ensures RestoreUnit(es, jrel, opSize).Err? ==>
              var (j, err) := RestoreUnit(es, jrel, opSize).error;
              j < |es| && Rejects(es[j], jrel) && err == AddToNonInt(es[j].inst.arg) &&
              forall k :: 0 <= k < j ==> !Rejects(es[k], jrel)
  {
    var f := RestoreStep(jrel, opSize);
    TraverseSpec(es, f);
    if RestoreUnit(es, jrel, opSize).Err? {
      var j := RestoreUnit(es, jrel, opSize).error.0;
      TraverseSpec(es[..j], f);
      assert forall k :: 0 <= k < j ==> es[..j][k] == es[k];
    }
  }

  /** When every entry restores, the unit restores to exactly those entries. */
  lemma RestoreUnitAllOk(es: seq<Entry>, jrel: set<int>, opSize: int -> Size, out: seq<Entry>)
    requires |out| == |es|
    requires forall k :: 0 <= k < |es| ==> RestoreEntry(es[k], jrel, opSize) == Ok(out[k])
    ensures RestoreUnit(es, jrel, opSize) == Ok(out)
  {
    TraverseAllOk(es, RestoreStep(jrel, opSize), out);
  }

  /** When entry j is the first that raises, the unit fails at j with its error. */
  lemma RestoreUnitFirstErr(es: seq<Entry>, jrel: set<int>, opSize: int -> Size, j: nat)
    requires j < |es|
    requires forall k :: 0 <= k < j ==> RestoreEntry(es[k], jrel, opSize).Ok?
    requires RestoreEntry(es[j], jrel, opSize).Err?
    ensures RestoreUnit(es, jrel, opSize) == Err((j, RestoreEntry(es[j], jrel, opSize).error))
  {
    var done := seq(j, k requires 0 <= k < j => RestoreEntry(es[k], jrel, opSize).value);
    TraverseFirstErr(es, RestoreStep(jrel, opSize), j, done);
  }

  /** The restored list has the unit's length and order; entry k is the copy of
      instruction k, with the same opcode, offset and backpatch membership, and
      an instruction outside the backpatch set is copied unchanged. */
  lemma RestoreUnitShape(es: seq<Entry>, jrel: set<int>, opSize: int -> Size)
    requires RestoreUnit(es, jrel, opSize).Ok?
    ensures var out := RestoreUnit(es, jrel, opSize).value;
            |out| == |es| &&
            forall k :: 0 <= k < |es| ==>
              out[k].backpatched == es[k].backpatched &&
              out[k].inst.opcode == es[k].inst.opcode &&
              out[k].inst.offset == es[k].inst.offset &&
              (!es[k].backpatched ==> out[k] == es[k]) &&
              (es[k].backpatched ==> out[k].inst.arg.Label?)
  {
    TraverseSpec(es, RestoreStep(jrel, opSize));
  }

  /** A backpatched relative jump gets the label of its absolute target: the end
      of the instruction (offset plus size) plus its displacement. */
  lemma RestoreUnitRelative(es: seq<Entry>, jrel: set<int>, opSize: int -> Size, k: nat)
    requires RestoreUnit(es, jrel, opSize).Ok?
    requires k < |es| && es[k].backpatched && es[k].inst.opcode in jrel
    ensures es[k].inst.arg.Int?
    ensures k < |RestoreUnit(es, jrel, opSize).value|
    ensures RestoreUnit(es, jrel, opSize).value[k].inst.arg
            == Label(Int(es[k].inst.arg.n + es[k].inst.offset + opSize(es[k].inst.opcode)))
  {
    TraverseSpec(es, RestoreStep(jrel, opSize));
  }

  /** A backpatched jump that is not relative gets the label of its operand as is. */
  lemma RestoreUnitAbsolute(es: seq<Entry>, jrel: set<int>, opSize: int -> Size, k: nat)
    requires RestoreUnit(es, jrel, opSize).Ok?
    requires k < |es| && es[k].backpatched && es[k].inst.opcode !in jrel
    ensures k < |RestoreUnit(es, jrel, opSize).value|
    ensures RestoreUnit(es, jrel, opSize).value[k].inst.arg == Label(es[k].inst.arg)
  {
    TraverseSpec(es, RestoreStep(jrel, opSize));
  }

  /** A relative jump at offset 10 with displacement 4 and an absolute jump to 30,
      both backpatched, around an instruction outside the backpatch set; every
      instruction is two bytes long. */
  lemma RestoreUnitExample()
    ensures RestoreUnit([Entry(Inst(110, 10, Int(4)), true),
                         Entry(Inst(100, 12, Int(3)), false),
                         Entry(Inst(113, 14, Int(30)), true)], {110}, _ => 2)
            == Ok([Entry(Inst(110, 10, Label(Int(16))), true),
                   Entry(Inst(100, 12, Int(3)), false),
                   Entry(Inst(113, 14, Label(Int(30))), true)])
  {
    var es := [Entry(Inst(110, 10, Int(4)), true),
               Entry(Inst(100, 12, Int(3)), false),
               Entry(Inst(113, 14, Int(30)), true)];
    var out := [Entry(Inst(110, 10, Label(Int(16))), true),
                Entry(Inst(100, 12, Int(3)), false),
                Entry(Inst(113, 14, Label(Int(30))), true)];
    TraverseAllOk(es, RestoreStep({110}, _ => 2), out);
  }

  /** A backpatched relative jump whose operand is still a label string makes
      the unit fail at that instruction. */
  lemma RestoreUnitExampleFails()
    ensures RestoreUnit([Entry(Inst(100, 0, Int(1)), false),
                         Entry(Inst(110, 2, Label(Int(8))), true)], {110}, _ => 2)
            == Err((1, AddToNonInt(Label(Int(8)))))
  {
    var es := [Entry(Inst(100, 0, Int(1)), false), Entry(Inst(110, 2, Label(Int(8))), true)];
    TraverseFirstErr(es, RestoreStep({110}, _ => 2), 1, [es[0]]);
  }

  /** The entries of an instruction list, read off the heap. */
  function Entries(insts: seq<Instruction>, backpatch: set<Instruction>): seq<Entry>
    reads insts
  {
    seq(|insts|, k requires 0 <= k < |insts| reads insts => Entry(insts[k].Value(), insts[k] in backpatch))
  }

  /** Entry k is read off instruction k. */
  lemma EntriesAt(insts: seq<Instruction>, backpatch: set<Instruction>)
    ensures |Entries(insts, backpatch)| == |insts|
    ensures forall k :: 0 <= k < |insts| ==>
              Entries(insts, backpatch)[k] == Entry(insts[k].Value(), insts[k] in backpatch)
  {
  }

  /** The copied instruction list of a unit and its fresh backpatch set. */
  datatype Copies = Copies(insts: seq<Instruction>, backpatch: set<Instruction>)

  /** The loop body at walk.py:41-47 for one instruction: a fresh copy of `src`,
      whose operand is turned back into a label when `src` is backpatched. */
  method CopyAndRestore(src: Instruction, backpatched: bool, jrel: set<int>, opSize: int -> Size)
    returns (r: Result<Instruction, TypeError>)
    ensures r.Err? ==> RestoreEntry(Entry(src.Value(), backpatched), jrel, opSize) == Err(r.error)
    ensures r.Ok? ==> fresh(r.value) &&
                      RestoreEntry(Entry(src.Value(), backpatched), jrel, opSize) == Ok(Entry(r.value.Value(), backpatched))
  {
    var c := new Instruction.Copy(src);
    if backpatched {
      if c.opcode in jrel {
        match c.arg {
          case Int(n) =>
            c.arg := Int(n + c.offset + opSize(c.opcode));
          case _ =>
            return Err(AddToNonInt(c.arg));
        }
      }
      c.arg := Label(c.arg);
    }
    r := Ok(c);
  }

  /** The loop at walk.py:39-50: copies every instruction of `insts` in order,
      restores the tag of each copy whose original is in `backpatch`, and
      collects those copies in a new set; the originals are left untouched. */
  method RestoreBackpatchTags(insts: seq<Instruction>, backpatch: set<Instruction>,
                              jrel: set<int>, opSize: int -> Size)
    returns (r: Result<Copies, (nat, TypeError)>)
    ensures r.Err? ==> RestoreUnit(old(Entries(insts, backpatch)), jrel, opSize) == Err(r.error)
    ensures r.Ok? ==> RestoreUnit(old(Entries(insts, backpatch)), jrel, opSize)
                      == Ok(Entries(r.value.insts, r.value.backpatch))
    ensures r.Ok? ==> |r.value.insts| == |insts|
    ensures r.Ok? ==> forall x :: x in r.value.backpatch ==> x in r.value.insts && x.arg.Label?
    ensures r.Ok? ==> forall k :: 0 <= k < |insts| ==> (r.value.insts[k] in r.value.backpatch <==> insts[k] in backpatch)
    ensures r.Ok? ==> forall k :: 0 <= k < |r.value.insts| ==> fresh(r.value.insts[k])
    ensures r.Ok? ==> forall j, k :: 0 <= j < k < |r.value.insts| ==> r.value.insts[j] != r.value.insts[k]
    ensures Entries(insts, backpatch) == old(Entries(insts, backpatch))
  {
    ghost var es := Entries(insts, backpatch);
    EntriesAt(insts, backpatch);
    var copies: seq<Instruction> := [];
    var tagged: set<Instruction> := {};
    var i := 0;
    while i < |insts|
      invariant 0 <= i <= |insts| && |copies| == i
      invariant forall k :: 0 <= k < i ==> fresh(copies[k])
      invariant forall j, k :: 0 <= j < k < i ==> copies[j] != copies[k]
      invariant forall x :: x in tagged ==> x in copies
      invariant forall k :: 0 <= k < i ==> RestoreEntry(es[k], jrel, opSize) == Ok(Entry(copies[k].Value(), copies[k] in tagged))
    {
      var backpatched := insts[i] in backpatch;
      var copied := CopyAndRestore(insts[i], backpatched, jrel, opSize);
      if copied.Err? {
        RestoreUnitFirstErr(es, jrel, opSize, i);
        return Err((i, copied.error));
      }
      var c := copied.value;
      copies := copies + [c];
      if backpatched {
        tagged := tagged + {c};
      }
      i := i + 1;
    }
    EntriesAt(copies, tagged);
    RestoreUnitAllOk(es, jrel, opSize, Entries(copies, tagged));
    RestoreUnitShape(es, jrel, opSize);
    r := Ok(Copies(copies, tagged));
  }
}
