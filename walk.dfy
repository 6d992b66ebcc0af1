/** `walk_codes`: the per-unit copying around the tag restoration, the loop
    over the units of a module, and the final reversal of the output list. */
module CodeWalker {
  import opened Results
  import opened Lists
  import opened Instructions
  import opened Backpatch

  /** A Python dict the walker copies: a unit's label table (label name to byte
      offset) or its line table (byte offset to source line). */
  class Dict<K(==), V> {
    var entries: map<K, V>

    /** `copy(d)`: a new dict object with the same entries. */
    constructor Copy(d: Dict<K, V>)
      ensures entries == d.entries
    {
      entries := d.entries;
    }
  }

  /** A code object: its name, its instruction list and its line table. */
  class CodeObject {
    var name: string
    var instructions: seq<Instruction>
    var lnotab: Dict<int, int>

    /** `copy(code)`: a shallow copy that shares the instruction list and the
        line table with `c`. */
    constructor Copy(c: CodeObject)
      ensures name == c.name && instructions == c.instructions && lnotab == c.lnotab
    {
      name := c.name;
      instructions := c.instructions;
      lnotab := c.lnotab;
    }
  }

  /** The value of one code unit as the walker sees it: the code object's name,
      instructions and line table, the unit's label table, and which
      instructions are in its backpatch set. */
  datatype Unit = Unit(name: string, entries: seq<Entry>, labels: map<string, int>, lines: map<int, int>)

  function UnitOf(code: CodeObject, labelTable: Dict<string, int>, backpatch: set<Instruction>): Unit
    reads code, code.lnotab, labelTable, code.instructions
  {
    Unit(code.name, Entries(code.instructions, backpatch), labelTable.entries, code.lnotab.entries)
  }

  /** The assembler state walk_codes reads (`codes`, `label`, `backpatch`, one
      element per unit) and the output list it builds (`codeList`). */
  class Assembler<C> {
    var codes: seq<CodeObject>
    var labelTables: seq<Dict<string, int>>
    var backpatch: seq<set<Instruction>>
    var codeList: seq<C>

    constructor Empty()
      ensures codes == [] && labelTables == [] && backpatch == [] && codeList == []
    {
      codes, labelTables, backpatch, codeList := [], [], [], [];
    }

    predicate Valid()
      reads this
    {
      |labelTables| == |codes| && |backpatch| == |codes|
    }

    /** Every object the assembler's units are read from. */
    ghost function Footprint(): set<object>
      reads this, codes
    {
      var objects: set<object> := {this};
      objects + (set c | c in codes) + (set t | t in labelTables)
      + (set c | c in codes :: c.lnotab)
      + (set c, x | c in codes && x in c.instructions :: x)
    }

    /** The first `n` units of the assembler, in input order. */
    function UnitsUpTo(n: nat): (us: seq<Unit>)
      requires Valid() && n <= |codes|
      reads this, codes, Footprint()
      ensures |us| == n
      ensures forall k :: 0 <= k < n ==> us[k] == UnitOf(codes[k], labelTables[k], backpatch[k])
      decreases n
    {
      if n == 0 then []
      else
        var code := codes[n - 1];
        assert forall x :: x in code.instructions ==> x in Footprint();
        UnitsUpTo(n - 1) + [UnitOf(code, labelTables[n - 1], backpatch[n - 1])]
    }

    /** The units of the assembler, in input order. */
    function Units(): seq<Unit>
      requires Valid()
      reads this, codes, Footprint()
    {
      UnitsUpTo(|codes|)
    }
  }

  /** A unit after its tags are restored: only the instructions change; the
      name, label table and line table are carried over as they are. */
  function Prepare(u: Unit, jrel: set<int>, opSize: int -> Size): (r: Result<Unit, (nat, TypeError)>)
    ensures r.Ok? ==> r.value.name == u.name && r.value.labels == u.labels && r.value.lines == u.lines
    ensures r.Ok? ==> RestoreUnit(u.entries, jrel, opSize) == Ok(r.value.entries)
    ensures r.Err? ==> RestoreUnit(u.entries, jrel, opSize) == Err(r.error)
  {
    match RestoreUnit(u.entries, jrel, opSize)
    case Ok(es) => Ok(u.(entries := es))
    case Err(e) => Err(e)
  }

  /** One unit through the whole loop body; `finish` stands for the rewrite
      rules, the patcher's fix-up and the assembly into a code object, which
      also sees the code objects converted before this unit (`create_code` is
      given the output assembler as it stands). */
  function ConvertStep<C>(jrel: set<int>, opSize: int -> Size, finish: (Unit, seq<C>) -> C)
    : (Unit, seq<C>) -> Result<C, (nat, TypeError)>
  {
    (u, done) => match Prepare(u, jrel, opSize)
                 case Ok(p) => Ok(finish(p, done))
                 case Err(e) => Err(e)
  }

  /** What walk_codes returns for a list of units: the converted units, in
      reverse input order, or the error of the first unit that raises. */
  function Walked<C>(units: seq<Unit>, jrel: set<int>, opSize: int -> Size, finish: (Unit, seq<C>) -> C)
    : Result<seq<C>, (nat, (nat, TypeError))>
  {
    match Traverse(units, ConvertStep(jrel, opSize, finish))
    case Ok(cs) => Ok(Reversed(cs))
    case Err(e) => Err(e)
  }

  /** The output holds one converted unit per input unit, last input first:
      element i is the conversion of unit n-1-i, made when the units before it
      had been converted into what follows element i in the output, in reverse. */
  lemma WalkedOrder<C>(units: seq<Unit>, jrel: set<int>, opSize: int -> Size, finish: (Unit, seq<C>) -> C)
    requires Walked(units, jrel, opSize, finish).Ok?
    ensures var out := Walked(units, jrel, opSize, finish).value;
            |out| == |units| &&
            forall i :: 0 <= i < |units| ==>
              Prepare(units[|units| - 1 - i], jrel, opSize).Ok? &&
              out[i] == finish(Prepare(units[|units| - 1 - i], jrel, opSize).value, Reversed(out[i + 1..]))
  {
    var f := ConvertStep(jrel, opSize, finish);
    TraverseSpec(units, f);
    var cs := Traverse(units, f).value;
    var out := Reversed(cs);
    var n := |units|;
    assert Walked(units, jrel, opSize, finish) == Ok(out);
    if units != [] {
      ReversedAt(cs, 0);
    }
    forall i | 0 <= i < n
      ensures Prepare(units[n - 1 - i], jrel, opSize).Ok? &&
              out[i] == finish(Prepare(units[n - 1 - i], jrel, opSize).value, Reversed(out[i + 1..]))
    {
      ReversedAt(cs, i);
      ReversedSuffix(cs, i);
      assert f(units[n - 1 - i], cs[..n - 1 - i]) == Ok(cs[n - 1 - i]);
    }
  }

  /** The walk fails exactly when some unit raises, and then with the error of
      the first such unit. */
  lemma WalkedFails<C>(units: seq<Unit>, jrel: set<int>, opSize: int -> Size, finish: (Unit, seq<C>) -> C)
    ensures Walked(units, jrel, opSize, finish).Ok? <==>
            forall k :: 0 <= k < |units| ==> Prepare(units[k], jrel, opSize).Ok?
    ensures Walked(units, jrel, opSize, finish).Err? ==>
              var (u, err) := Walked(units, jrel, opSize, finish).error;
              u < |units| && Prepare(units[u], jrel, opSize) == Err(err) &&
              forall k :: 0 <= k < u ==> Prepare(units[k], jrel, opSize).Ok?
  {
    var f := ConvertStep(jrel, opSize, finish);
    TraverseSpec(units, f);
    if Traverse(units, f).Err? {
      var u := Traverse(units, f).error.0;
      TraverseSpec(units[..u], f);
      assert forall k :: 0 <= k < u ==> units[..u][k] == units[k];
    }
  }

  datatype Prepared = Prepared(code: CodeObject, labelTable: Dict<string, int>, backpatch: set<Instruction>)

  /** walk.py:34-50 for one unit: copies the code object, its label table and
      its line table, then restores the tags on a copy of the instructions. */
  method PrepareUnit(code: CodeObject, labelTable: Dict<string, int>, backpatch: set<Instruction>,
                     jrel: set<int>, opSize: int -> Size)
    returns (r: Result<Prepared, (nat, TypeError)>)
    ensures r.Err? ==> Prepare(old(UnitOf(code, labelTable, backpatch)), jrel, opSize) == Err(r.error)
    ensures r.Ok? ==> Prepare(old(UnitOf(code, labelTable, backpatch)), jrel, opSize)
                      == Ok(UnitOf(r.value.code, r.value.labelTable, r.value.backpatch))
    ensures r.Ok? ==> fresh(r.value.code) && fresh(r.value.labelTable) && fresh(r.value.code.lnotab)
    ensures r.Ok? ==> forall k :: 0 <= k < |r.value.code.instructions| ==> fresh(r.value.code.instructions[k])
  {
    // These copies are independent of each other, so their order cannot be
    // observed; the instruction copies come first.
    var restored := RestoreBackpatchTags(code.instructions, backpatch, jrel, opSize);
    if restored.Err? {
      return Err(restored.error);
    }
    var newCode := new CodeObject.Copy(code);
    var newLabel := new Dict.Copy(labelTable);
    newCode.lnotab := new Dict.Copy(code.lnotab);
    newCode.instructions := restored.value.insts;
    r := Ok(Prepared(newCode, newLabel, restored.value.backpatch));
  }

  /** The body of walk_codes' loop for one unit: prepare it, then hand the
      prepared copy to `finish`. */
  method ConvertUnit<C>(code: CodeObject, labelTable: Dict<string, int>, backpatch: set<Instruction>,
                        jrel: set<int>, opSize: int -> Size, finish: (Unit, seq<C>) -> C, done: seq<C>)
    returns (r: Result<C, (nat, TypeError)>)
    ensures r == ConvertStep(jrel, opSize, finish)(old(UnitOf(code, labelTable, backpatch)), done)
  {
    var p := PrepareUnit(code, labelTable, backpatch, jrel, opSize);
    if p.Err? {
      return Err(p.error);
    }
    r := Ok(finish(UnitOf(p.value.code, p.value.labelTable, p.value.backpatch), done));
  }

  /** walk_codes: converts the units in input order, collects the converted code
      objects in a list, and returns a fresh assembler holding that list after
      reversing it in place. Without a modifies clause it changes no
      object that existed before the call: the input assembler, its code objects,
      label tables, line tables and instructions stay as they were. */
  method WalkCodes<C>(asm: Assembler<C>, jrel: set<int>, opSize: int -> Size, finish: (Unit, seq<C>) -> C)
    returns (r: Result<Assembler<C>, (nat, (nat, TypeError))>)
    requires asm.Valid()
    ensures r.Err? ==> Walked(old(asm.Units()), jrel, opSize, finish) == Err(r.error)
    ensures r.Ok? ==> fresh(r.value) && Walked(old(asm.Units()), jrel, opSize, finish) == Ok(r.value.codeList)
  {
    ghost var units := asm.Units();
    ghost var f := ConvertStep(jrel, opSize, finish);
    var codeList: seq<C> := [];
    var i := 0;
    while i < |asm.codes|
      invariant 0 <= i <= |asm.codes| == |units|
      invariant forall k :: i <= k < |units| ==> UnitOf(asm.codes[k], asm.labelTables[k], asm.backpatch[k]) == units[k]
      invariant |codeList| == i
      invariant forall k :: 0 <= k < i ==> f(units[k], codeList[..k]) == Ok(codeList[k])
    {
      var converted := ConvertUnit(asm.codes[i], asm.labelTables[i], asm.backpatch[i], jrel, opSize, finish, codeList);
      if converted.Err? {
        TraverseFirstErr(units, f, i, codeList);
        return Err((i, converted.error));
      }
      assert forall k :: 0 <= k < i ==> (codeList + [converted.value])[..k] == codeList[..k];
      assert codeList == (codeList + [converted.value])[..i];
      codeList := codeList + [converted.value];
      i := i + 1;
    }
    TraverseAllOk(units, f, codeList);
    var out := new Assembler<C>.Empty();
    out.codeList := codeList;
    out.codeList := Reversed(out.codeList);
    r := Ok(out);
  }
}
