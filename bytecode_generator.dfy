/**
 * `BytecodeGenerator.cpp` (JavaScriptCore): the parts of bytecode
 * emission that keep state between calls. The model covers the instruction
 * stream with its labels and their jump patching, the fusion of a compare
 * with the conditional jump after it, register and label allocation with
 * reclamation, break and continue target search over label scopes, the
 * identifier and constant pools, the exception handlers `generate` emits
 * for try ranges, and the jump table of an immediate `switch`.
 *
 * `Label.h`, `LabelScope.h`, `RegisterID.h`, `VirtualRegister.h` and
 * `UnlinkedCodeBlock.h` are not part of this model: labels, label scopes
 * and registers are entries of the generator's vectors addressed by index,
 * a reference count is a field that the holders of `RefPtr`s maintain, and
 * the code block is reduced to the vectors the generator appends to.
 */
module JscBytecodeGenerator {
  import opened Wrappers
  import opened IntMath

  // ---------------------------------------------------------------------
  // Instructions
  // ---------------------------------------------------------------------

  /** The opcodes the model distinguishes; any other is `OtherOp`. */
  datatype OpcodeID =
    | OpEnd
    | OpLess | OpLessEq | OpGreater | OpGreaterEq
    | OpEqNull | OpNeqNull
    | OpJLess | OpJLessEq | OpJGreater | OpJGreaterEq
    | OpJEqNull | OpJNeqNull
    | OpJTrue | OpJmp
    | OpBitOr | OpBitAnd | OpBitXor | OpAdd | OpMul | OpSub | OpDiv
    | OtherOp(code: nat)

  /** An `UnlinkedInstruction`: an opcode or an operand. */
  datatype Word = OpcodeWord(opcode: OpcodeID) | OperandWord(operand: int)

  /** The compares `emitJumpIfTrue` fuses with the jump after them. */
  predicate IsBinaryCompare(op: OpcodeID)
  {
    op == OpLess || op == OpLessEq || op == OpGreater || op == OpGreaterEq
  }

  /** The null tests it fuses when the jump goes forward. */
  predicate IsNullTest(op: OpcodeID)
  {
    op == OpEqNull || op == OpNeqNull
  }

  /** The conditional jump a compare or null test fuses into. */
  function FusedJump(op: OpcodeID): OpcodeID
    requires IsBinaryCompare(op) || IsNullTest(op)
  {
    match op
    case OpLess => OpJLess
    case OpLessEq => OpJLessEq
    case OpGreater => OpJGreater
    case OpGreaterEq => OpJGreaterEq
    case OpEqNull => OpJEqNull
    case OpNeqNull => OpJNeqNull
  }

  /** The binary operations `emitBinaryOp` follows with an operand-types
      word. */
  predicate HasOperandTypes(op: OpcodeID)
  {
    op == OpBitOr || op == OpBitAnd || op == OpBitXor || op == OpAdd || op == OpMul || op == OpSub || op == OpDiv
  }

  // ---------------------------------------------------------------------
  // Labels
  // ---------------------------------------------------------------------

  /** A `Label`: its location once placed, the jumps waiting for it as
      (jump instruction, operand word) positions, and its reference count. */
  datatype Label = Label(location: Option<nat>, unresolvedJumps: seq<(nat, nat)>, refCount: nat)

  /** `Label::bind(opcode, offset)`: a placed label gives the distance from
      the jump instruction to it; a forward one gives 0 and remembers the
      jump. */
  function BindOperand(lbl: Label, opcode: nat): int
  {
    if lbl.location.Some? then lbl.location.value - opcode else 0
  }

  function AfterBind(lbl: Label, opcode: nat, offset: nat): Label
  {
    if lbl.location.Some? then lbl
    else lbl.(unresolvedJumps := lbl.unresolvedJumps + [(opcode, offset)])
  }

  /** The instruction stream once `location` is written, relative to its
      jump, into the operand word of every jump in `jumps`, in order. */
  function Patched(instructions: seq<Word>, jumps: seq<(nat, nat)>, location: nat): (r: seq<Word>)
    requires forall k :: 0 <= k < |jumps| ==> jumps[k].1 < |instructions|
    ensures |r| == |instructions|
  {
    if |jumps| == 0 then instructions
    else
      var last := jumps[|jumps| - 1];
      Patched(instructions, jumps[..|jumps| - 1], location)[last.1 := OperandWord(location - last.0)]
  }

  /** The jump at `opcode`, whose operand word is `offset`, lands on
      `location`: the operand is the distance between them. */
  predicate LandsOn(instructions: seq<Word>, opcode: nat, offset: nat, location: nat)
  {
    offset < |instructions| && instructions[offset] == OperandWord(location - opcode)
  }

  /** Where `emitJumpIfTrue` puts the jump's opcode in a stream of `n`
      words: over the rewound compare (four words back), over the rewound
      null test (three words back), or at the end. */
  predicate JumpPlaced(fusesCompare: bool, fusesNullTest: bool, n: int, opcode: int)
  {
    if fusesCompare then opcode == n - 4
    else if fusesNullTest then opcode == n - 3
    else opcode == n
  }

  /** Patching lands every jump whose operand word no later jump shares, and
      leaves every word no jump names as it was. */
  lemma {:induction false} PatchedLands(instructions: seq<Word>, jumps: seq<(nat, nat)>, location: nat)
    requires forall k :: 0 <= k < |jumps| ==> jumps[k].1 < |instructions|
    ensures forall k :: 0 <= k < |jumps| && (forall m :: k < m < |jumps| ==> jumps[m].1 != jumps[k].1) ==>
                          LandsOn(Patched(instructions, jumps, location), jumps[k].0, jumps[k].1, location)
    ensures forall w :: 0 <= w < |instructions| && (forall k :: 0 <= k < |jumps| ==> jumps[k].1 != w) ==>
                          Patched(instructions, jumps, location)[w] == instructions[w]
  {
    if |jumps| > 0 {
      var init := jumps[..|jumps| - 1];
      PatchedLands(instructions, init, location);
      forall k | 0 <= k < |jumps| - 1 && (forall m :: k < m < |jumps| ==> jumps[m].1 != jumps[k].1)
        ensures LandsOn(Patched(instructions, jumps, location), jumps[k].0, jumps[k].1, location)
      {
        assert init[k] == jumps[k];
        assert forall m :: k < m < |init| ==> init[m].1 != init[k].1 by {
          forall m | k < m < |init|
            ensures init[m].1 != init[k].1
          {
            assert init[m] == jumps[m];
          }
        }
      }
      forall w | 0 <= w < |instructions| && (forall k :: 0 <= k < |jumps| ==> jumps[k].1 != w)
        ensures Patched(instructions, jumps, location)[w] == instructions[w]
      {
        assert forall k :: 0 <= k < |init| ==> init[k].1 != w by {
          forall k | 0 <= k < |init|
            ensures init[k].1 != w
          {
            assert init[k] == jumps[k];
          }
        }
      }
    }
  }

  // ---------------------------------------------------------------------
  // Reclaiming freed entries
  // ---------------------------------------------------------------------

  /** The vector with its trailing unreferenced entries popped, as the
      reclaiming loops of `newTemporary`, `newLabel`, `newLabelScope`,
      `breakTarget` and `continueTarget` leave it. */
  function Reclaimed<T>(entries: seq<T>, refCount: T -> nat): seq<T>
  {
    if |entries| == 0 || refCount(entries[|entries| - 1]) != 0 then entries
    else Reclaimed(entries[..|entries| - 1], refCount)
  }

  /** Reclaiming keeps a prefix, ends on a referenced entry (or nothing),
      removes only unreferenced entries, and is idempotent. */
  lemma {:induction false} ReclaimedMeaning<T>(entries: seq<T>, refCount: T -> nat)
    ensures Reclaimed(entries, refCount) <= entries
    ensures |Reclaimed(entries, refCount)| > 0 ==>
      refCount(Reclaimed(entries, refCount)[|Reclaimed(entries, refCount)| - 1]) != 0
    ensures forall k :: |Reclaimed(entries, refCount)| <= k < |entries| ==> refCount(entries[k]) == 0
    ensures Reclaimed(Reclaimed(entries, refCount), refCount) == Reclaimed(entries, refCount)
  {
    if |entries| > 0 && refCount(entries[|entries| - 1]) == 0 {
      ReclaimedMeaning(entries[..|entries| - 1], refCount);
    }
  }

  /** The reclaiming loop. */
  method Reclaim<T>(entries: seq<T>, refCount: T -> nat) returns (kept: seq<T>)
    ensures kept == Reclaimed(entries, refCount)
  {
    kept := entries;
    while |kept| > 0 && refCount(kept[|kept| - 1]) == 0
      invariant Reclaimed(kept, refCount) == Reclaimed(entries, refCount)
    {
      kept := kept[..|kept| - 1];
    }
  }

  // ---------------------------------------------------------------------
  // Registers
  // ---------------------------------------------------------------------

  /** A callee `RegisterID`: its operand, whether it is a temporary, and its
      reference count. */
  datatype RegisterID = RegisterID(index: int, isTemporary: bool, refCount: nat)

  function RegisterRefCount(r: RegisterID): nat { r.refCount }
  function LabelRefCount(l: Label): nat { l.refCount }

  /** `virtualRegisterForLocal(i).offset()`: locals count down from -1. */
  function LocalOperand(local: nat): int
  {
    -1 - local
  }

  /** `WTF::roundUpToMultipleOf`. */
  function RoundUpToMultipleOf(divisor: nat, x: nat): (r: nat)
    requires divisor > 0
    ensures x <= r < x + divisor && r % divisor == 0
  {
    DivModSplit(x, divisor);
    if x % divisor == 0 then x
    else
      QuotRem(x + (divisor - x % divisor), divisor, x / divisor + 1, 0);
      x + (divisor - x % divisor)
  }

  // ---------------------------------------------------------------------
  // Label scopes
  // ---------------------------------------------------------------------

  /** `LabelScope::Type`. */
  datatype LabelScopeType = Loop | Switch | NamedLabel

  /** A `LabelScope`: its type, its label name if any, the scope depth it
      was opened at, the labels a `break` and (for a loop) a `continue`
      jump to, and its reference count. */
  datatype LabelScope = LabelScope(scopeType: LabelScopeType, name: Option<string>, scopeDepth: nat,
                                   breakTarget: nat, continueTarget: Option<nat>, refCount: nat)

  function LabelScopeRefCount(s: LabelScope): nat { s.refCount }

  /** The innermost scope satisfying a test, searching below `end`. */
  function Innermost(scopes: seq<LabelScope>, end: nat, test: LabelScope -> bool): (r: Option<nat>)
    requires end <= |scopes|
    ensures r.Some? ==> r.value < end && test(scopes[r.value])
    ensures r.Some? ==> forall k :: r.value < k < end ==> !test(scopes[k])
    ensures r.None? ==> forall k :: 0 <= k < end ==> !test(scopes[k])
  {
    if end == 0 then None
    else if test(scopes[end - 1]) then Some(end - 1)
    else Innermost(scopes, end - 1, test)
  }

  predicate Breakable(s: LabelScope) { s.scopeType != NamedLabel }
  predicate IsLoop(s: LabelScope) { s.scopeType == Loop }

  /** The scope a `break name` (or plain `break`) leaves: the innermost
      non-label scope, or the innermost one with that label. */
  function BreakTargetOf(scopes: seq<LabelScope>, name: string): Option<nat>
  {
    if name == "" then Innermost(scopes, |scopes|, Breakable)
    else Innermost(scopes, |scopes|, (s: LabelScope) => s.name == Some(name))
  }

  /** The outermost loop at or inside scope `j`, that is the one nearest to
      it: the lowest loop index from `j` up. */
  function NearestLoopFrom(scopes: seq<LabelScope>, j: nat): (r: Option<nat>)
    requires j <= |scopes|
    ensures r.Some? ==> j <= r.value < |scopes| && IsLoop(scopes[r.value])
    ensures r.Some? ==> forall k :: j <= k < r.value ==> !IsLoop(scopes[k])
    ensures r.None? ==> forall k :: j <= k < |scopes| ==> !IsLoop(scopes[k])
    decreases |scopes| - j
  {
    if j == |scopes| then None
    else if IsLoop(scopes[j]) then Some(j)
    else NearestLoopFrom(scopes, j + 1)
  }

  /** The scope a `continue name` (or plain `continue`) resumes: the
      innermost loop, or the loop nearest to the innermost scope with that
      label. */
  function ContinueTargetOf(scopes: seq<LabelScope>, name: string): Option<nat>
  {
    if name == "" then Innermost(scopes, |scopes|, IsLoop)
    else match Innermost(scopes, |scopes|, (s: LabelScope) => s.name == Some(name))
      case None => None
      case Some(j) => NearestLoopFrom(scopes, j)
  }

  // ---------------------------------------------------------------------
  // Constants, handlers and jump tables
  // ---------------------------------------------------------------------

  /** A `JSValue`; `JSValue::encode` is its bit pattern, and `JSValue()` is
      the empty value, which a hash table cannot hold as a key. */
  datatype JSValue = EmptyValue | Encoded(bits: int)

  /** `FirstConstantRegisterIndex`: constants are numbered from 2^30. */
  const FirstConstantRegisterIndex: int := 0x4000_0000

  /** A try block: the locations its start and end labels were placed at,
      the location of its handler and the scope depth to unwind to. */
  datatype TryRange = TryRange(start: int, end: int, target: int, targetScopeDepth: nat)

  /** `UnlinkedHandlerInfo`. */
  datatype UnlinkedHandlerInfo = UnlinkedHandlerInfo(start: int, end: int, target: int, scopeDepth: nat)

  /** The handlers `generate` emits: one per try range that is not empty, in
      order. */
  function HandlersFor(ranges: seq<TryRange>): (handlers: seq<UnlinkedHandlerInfo>)
  {
    if |ranges| == 0 then []
    else
      var r := ranges[|ranges| - 1];
      HandlersFor(ranges[..|ranges| - 1]) +
      (if r.end <= r.start then [] else [UnlinkedHandlerInfo(r.start, r.end, r.target, r.targetScopeDepth)])
  }

  /** Every handler covers a non-empty range, and every non-empty range has
      its handler. */
  lemma {:induction false} HandlersForMeaning(ranges: seq<TryRange>)
    ensures forall h :: h in HandlersFor(ranges) ==> h.start < h.end
    ensures forall k :: 0 <= k < |ranges| && ranges[k].start < ranges[k].end ==>
      UnlinkedHandlerInfo(ranges[k].start, ranges[k].end, ranges[k].target, ranges[k].targetScopeDepth) in HandlersFor(ranges)
    ensures forall h :: h in HandlersFor(ranges) ==>
      exists k :: 0 <= k < |ranges| && h == UnlinkedHandlerInfo(ranges[k].start, ranges[k].end, ranges[k].target, ranges[k].targetScopeDepth)
  {
    if |ranges| > 0 {
      var init := ranges[..|ranges| - 1];
      HandlersForMeaning(init);
      forall k | 0 <= k < |ranges| - 1
        ensures ranges[k] == init[k]
      {
      }
    }
  }

  /** The code block the generator fills. */
  class UnlinkedCodeBlock {
    /** `addIdentifier`'s vector. */
    var identifiers: seq<string>
    /** `addConstant`'s vector of constant values. */
    var constantRegisters: seq<JSValue>
    /** `m_numCalleeRegisters`. */
    var numCalleeRegisters: nat
    /** `addJumpTarget`'s vector. */
    var jumpTargets: seq<nat>
    /** `addExceptionHandler`'s vector. */
    var exceptionHandlers: seq<UnlinkedHandlerInfo>

    constructor ()
      ensures identifiers == [] && constantRegisters == [] && numCalleeRegisters == 0
      ensures jumpTargets == [] && exceptionHandlers == []
    {
      identifiers := [];
      constantRegisters := [];
      numCalleeRegisters := 0;
      jumpTargets := [];
      exceptionHandlers := [];
    }
  }

  /** `UnlinkedSimpleJumpTable`: offsets by key, keys counted from `min`. */
  class UnlinkedSimpleJumpTable {
    var min: int
    var branchOffsets: seq<int>

    constructor ()
      ensures min == 0 && branchOffsets == []
    {
      min := 0;
      branchOffsets := [];
    }

    /** `add`: the first offset stored for a key stays. */
    method Add(key: nat, offset: int)
      requires key < |branchOffsets|
      modifies this`branchOffsets
      ensures branchOffsets == old(AddedTo(branchOffsets, key, offset))
    {
      if branchOffsets[key] == 0 {
        branchOffsets := branchOffsets[key := offset];
      }
    }
  }

  function AddedTo(offsets: seq<int>, key: nat, offset: int): seq<int>
    requires key < |offsets|
  {
    if offsets[key] == 0 then offsets[key := offset] else offsets
  }

  /** A clause of an immediate `switch`: its case value and the location of
      its label. */
  datatype SwitchClause = SwitchClause(value: int, location: int)

  /** The table after the first `count` clauses were added. */
  function FilledTable(offsets: seq<int>, clauses: seq<SwitchClause>, min: int, switchAddress: int): (r: seq<int>)
    requires forall k :: 0 <= k < |clauses| ==> min <= clauses[k].value < min + |offsets|
    ensures |r| == |offsets|
  {
    if |clauses| == 0 then offsets
    else
      var c := clauses[|clauses| - 1];
      AddedTo(FilledTable(offsets, clauses[..|clauses| - 1], min, switchAddress), c.value - min, c.location - switchAddress)
  }

  /** The index of the first clause with a value, if any. */
  function FirstClause(clauses: seq<SwitchClause>, value: int): (r: Option<nat>)
    ensures r.Some? ==> r.value < |clauses| && clauses[r.value].value == value
    ensures r.Some? ==> forall k :: 0 <= k < r.value ==> clauses[k].value != value
    ensures r.None? ==> forall k :: 0 <= k < |clauses| ==> clauses[k].value != value
  {
    if |clauses| == 0 then None
    else match FirstClause(clauses[..|clauses| - 1], value)
      case Some(k) => Some(k)
      case None => if clauses[|clauses| - 1].value == value then Some(|clauses| - 1) else None
  }

  /** A table of `size` keys with no offsets yet. */
  function Zeroes(size: nat): (r: seq<int>)
    ensures |r| == size && forall key :: 0 <= key < size ==> r[key] == 0
  {
    seq(size, _ => 0)
  }

  /** The offset the first clause with `value` jumps by, or 0 for none. */
  function FirstClauseOffset(clauses: seq<SwitchClause>, value: int, switchAddress: int): int
  {
    match FirstClause(clauses, value)
    case None => 0
    case Some(k) => clauses[k].location - switchAddress
  }

  /** Every key of the table jumps by the offset of the first clause with
      its value. */
  predicate JumpsToFirstClause(table: seq<int>, clauses: seq<SwitchClause>, min: int, switchAddress: int)
  {
    forall key :: 0 <= key < |table| ==> table[key] == FirstClauseOffset(clauses, min + key, switchAddress)
  }

  /** A `switch` goes to its first clause with the value: filling a zeroed
      table leaves at each key the offset of the first clause with that
      value, and 0 for a value no clause has. Clause labels follow the
      switch instruction, so no offset is 0. */
  lemma {:induction false} FilledTableJumpsToFirstClause(size: nat, clauses: seq<SwitchClause>, min: int, switchAddress: int)
    requires forall k :: 0 <= k < |clauses| ==> min <= clauses[k].value < min + size
    requires forall k :: 0 <= k < |clauses| ==> clauses[k].location != switchAddress
    ensures JumpsToFirstClause(FilledTable(Zeroes(size), clauses, min, switchAddress), clauses, min, switchAddress)
  {
    if |clauses| > 0 {
      var init := clauses[..|clauses| - 1];
      var last := clauses[|clauses| - 1];
      assert forall k :: 0 <= k < |init| ==> init[k] == clauses[k];
      FilledTableJumpsToFirstClause(size, init, min, switchAddress);
      var before := FilledTable(Zeroes(size), init, min, switchAddress);
      var table := FilledTable(Zeroes(size), clauses, min, switchAddress);
      assert table == AddedTo(before, last.value - min, last.location - switchAddress);
      forall key | 0 <= key < size
        ensures table[key] == FirstClauseOffset(clauses, min + key, switchAddress)
      {
        assert before[key] == FirstClauseOffset(init, min + key, switchAddress);
        if key == last.value - min && before[key] == 0 {
          assert FirstClause(init, min + key).None?;
        }
      }
    }
  }

  // ---------------------------------------------------------------------
  // The generator
  // ---------------------------------------------------------------------

  class BytecodeGenerator {
    /** `m_instructions`. */
    var instructions: seq<Word>
    /** `m_lastOpcodeID`; `OpEnd` disables peephole fusion. */
    var lastOpcodeID: OpcodeID
    /** `m_labels`. */
    var labels: seq<Label>
    /** `m_calleeRegisters`. */
    var calleeRegisters: seq<RegisterID>
    /** `m_labelScopes`. */
    var labelScopes: seq<LabelScope>
    /** `m_identifierMap`: identifier to index in the code block. */
    var identifierMap: map<string, nat>
    /** `m_jsValueMap`: encoded value to constant offset. */
    var jsValueMap: map<int, nat>
    /** `m_constantPoolRegisters`: the register of each constant. */
    var constantPoolRegisters: seq<int>
    var nextConstantOffset: nat
    /** `m_emptyValueRegister`: the constant offset of `JSValue()` once
        added. */
    var emptyValueRegister: Option<nat>
    /** `m_tryRanges`. */
    var tryRanges: seq<TryRange>
    /** `stackAlignmentRegisters()`. */
    const stackAlignmentRegisters: nat
    /** `m_codeBlock`. */
    const codeBlock: UnlinkedCodeBlock

    /** The identifier map and the code block's identifiers are inverse:
        every identifier was added through the map at its own index. */
    ghost predicate IdentifiersValid()
      reads this, codeBlock
    {
      (forall id :: id in identifierMap ==>
         identifierMap[id] < |codeBlock.identifiers| && codeBlock.identifiers[identifierMap[id]] == id) &&
      (forall k :: 0 <= k < |codeBlock.identifiers| ==> codeBlock.identifiers[k] in identifierMap)
    }

    /** The constant pool: one register per constant, numbered from
        `FirstConstantRegisterIndex`; the value map and the empty-value
        register point at constants holding those values. */
    ghost predicate ConstantsValid()
      reads this, codeBlock
    {
      |constantPoolRegisters| == nextConstantOffset == |codeBlock.constantRegisters| &&
      (forall k :: 0 <= k < nextConstantOffset ==> constantPoolRegisters[k] == FirstConstantRegisterIndex + k) &&
      (forall bits :: bits in jsValueMap ==>
         jsValueMap[bits] < nextConstantOffset && codeBlock.constantRegisters[jsValueMap[bits]] == Encoded(bits)) &&
      (emptyValueRegister.Some? ==>
         emptyValueRegister.value < nextConstantOffset && codeBlock.constantRegisters[emptyValueRegister.value] == EmptyValue)
    }

    /** The last instruction emitted is complete: a compare is followed by
        its destination and two sources, a null test by its destination and
        source. */
    predicate LastInstructionComplete()
      reads this
    {
      var n := |instructions|;
      (IsBinaryCompare(lastOpcodeID) ==>
         n >= 4 && instructions[n - 4] == OpcodeWord(lastOpcodeID) && instructions[n - 3].OperandWord? &&
         instructions[n - 2].OperandWord? && instructions[n - 1].OperandWord?) &&
      (IsNullTest(lastOpcodeID) ==>
         n >= 3 && instructions[n - 3] == OpcodeWord(lastOpcodeID) && instructions[n - 2].OperandWord? &&
         instructions[n - 1].OperandWord?)
    }

    /** A generator with nothing emitted. */
    constructor (stackAlignmentRegisters: nat, codeBlock: UnlinkedCodeBlock)
      requires stackAlignmentRegisters > 0
      requires codeBlock.identifiers == [] && codeBlock.constantRegisters == []
      ensures IdentifiersValid() && ConstantsValid() && LastInstructionComplete()
      ensures this.stackAlignmentRegisters == stackAlignmentRegisters && this.codeBlock == codeBlock
      ensures instructions == [] && labels == [] && calleeRegisters == [] && labelScopes == [] && tryRanges == []
    {
      instructions := [];
      lastOpcodeID := OpEnd;
      labels := [];
      calleeRegisters := [];
      labelScopes := [];
      identifierMap := map[];
      jsValueMap := map[];
      constantPoolRegisters := [];
      nextConstantOffset := 0;
      emptyValueRegister := None;
      tryRanges := [];
      this.stackAlignmentRegisters := stackAlignmentRegisters;
      this.codeBlock := codeBlock;
    }

    // ----- Labels and jumps -----

    /** `Label::setLocation`: places the label and writes into every jump
        waiting for it the distance from that jump to the label. */
    method SetLocation(lbl: nat, location: nat)
      requires lbl < |labels|
      requires forall k :: 0 <= k < |labels[lbl].unresolvedJumps| ==> labels[lbl].unresolvedJumps[k].1 < |instructions|
      modifies this`labels, this`instructions
      ensures labels == old(labels[lbl := labels[lbl].(location := Some(location))])
      ensures instructions == old(Patched(instructions, labels[lbl].unresolvedJumps, location))
    {
      var jumps := labels[lbl].unresolvedJumps;
      labels := labels[lbl := labels[lbl].(location := Some(location))];
      for i := 0 to |jumps|
        invariant labels == old(labels[lbl := labels[lbl].(location := Some(location))])
        invariant instructions == Patched(old(instructions), jumps[..i], location)
      {
        assert jumps[..i + 1][..i] == jumps[..i];
        instructions := instructions[jumps[i].1 := OperandWord(location - jumps[i].0)];
      }
      assert jumps[..|jumps|] == jumps;
    }

    /** `Label::bind(opcode, offset)` on the label at `label`. */
    method Bind(lbl: nat, opcode: nat, offset: nat) returns (operand: int)
      requires lbl < |labels|
      modifies this`labels
      ensures operand == old(BindOperand(labels[lbl], opcode))
      ensures labels == old(labels[lbl := AfterBind(labels[lbl], opcode, offset)])
    {
      operand := BindOperand(labels[lbl], opcode);
      labels := labels[lbl := AfterBind(labels[lbl], opcode, offset)];
    }

    /** `emitOpcode`. */
    method EmitOpcode(op: OpcodeID)
      modifies this`instructions, this`lastOpcodeID
      ensures instructions == old(instructions) + [OpcodeWord(op)] && lastOpcodeID == op
    {
      instructions := instructions + [OpcodeWord(op)];
      lastOpcodeID := op;
    }

    /** `instructions().append(operand)`. */
    method AppendOperand(operand: int)
      modifies this`instructions
      ensures instructions == old(instructions) + [OperandWord(operand)]
    {
      instructions := instructions + [OperandWord(operand)];
    }

    /** `emitBinaryOp`: the opcode, destination and sources, and for the
        arithmetic and bitwise operations the operand types. */
    method EmitBinaryOp(op: OpcodeID, dst: RegisterID, src1: RegisterID, src2: RegisterID, types: int)
      returns (result: RegisterID)
      modifies this`instructions, this`lastOpcodeID
      ensures result == dst && lastOpcodeID == op
      ensures instructions == old(instructions) +
        [OpcodeWord(op), OperandWord(dst.index), OperandWord(src1.index), OperandWord(src2.index)] +
        (if HasOperandTypes(op) then [OperandWord(types)] else [])
      ensures IsBinaryCompare(op) ==> LastInstructionComplete()
    {
      EmitOpcode(op);
      AppendOperand(dst.index);
      AppendOperand(src1.index);
      AppendOperand(src2.index);
      if HasOperandTypes(op) {
        AppendOperand(types);
      }
      return dst;
    }

    /** The compare just emitted can be fused with a jump on `cond`: `cond`
        is its destination and a temporary nothing else refers to. */
    predicate FusesCompare(cond: RegisterID)
      requires LastInstructionComplete()
      reads this
    {
      IsBinaryCompare(lastOpcodeID) && cond.index == instructions[|instructions| - 3].operand &&
      cond.isTemporary && cond.refCount == 0
    }

    /** Likewise for a null test, which is fused only into a forward jump. */
    predicate FusesNullTest(cond: RegisterID, target: nat)
      requires LastInstructionComplete() && target < |labels|
      reads this
    {
      IsNullTest(lastOpcodeID) && labels[target].location.None? &&
      cond.index == instructions[|instructions| - 2].operand && cond.isTemporary && cond.refCount == 0
    }

    /** `emitJumpIfTrue`: a compare or null test whose result only this jump
        reads is rewound and replaced by the fused conditional jump on its
        sources; otherwise a `jtrue` on `cond` is appended. `opcode` and
        `offset` are where the jump and its target operand end up. */
    method EmitJumpIfTrue(cond: RegisterID, target: nat) returns (opcode: nat, offset: nat)
      requires LastInstructionComplete() && target < |labels|
      modifies this`instructions, this`lastOpcodeID, this`labels
      ensures |instructions| >= old(|instructions|)
      ensures offset == |instructions| - 1 && opcode < offset
      ensures instructions[opcode].OpcodeWord? && lastOpcodeID == instructions[opcode].opcode
      ensures labels == old(labels[target := AfterBind(labels[target], opcode, offset)])
      ensures instructions[offset] == OperandWord(old(BindOperand(labels[target], opcode)))
      ensures old(FusesCompare(cond)) ==>
        (var n := old(|instructions|);
         opcode == n - 4 &&
         instructions == old(instructions[..n - 4]) +
           [OpcodeWord(FusedJump(old(lastOpcodeID))), old(instructions[n - 2]), old(instructions[n - 1]), instructions[offset]])
      ensures !old(FusesCompare(cond)) && old(FusesNullTest(cond, target)) ==>
        (var n := old(|instructions|);
         opcode == n - 3 &&
         instructions == old(instructions[..n - 3]) + [OpcodeWord(FusedJump(old(lastOpcodeID))), old(instructions[n - 1]), instructions[offset]])
      ensures !old(FusesCompare(cond)) && !old(FusesNullTest(cond, target)) ==>
        opcode == old(|instructions|) &&
        instructions == old(instructions) + [OpcodeWord(OpJTrue), OperandWord(cond.index), instructions[offset]]
    {
      var n := |instructions|;
      if FusesCompare(cond) {
        var fused := FusedJump(lastOpcodeID);
        var src1Index, src2Index := instructions[n - 2].operand, instructions[n - 1].operand;
        // rewindBinaryOp
        instructions := instructions[..n - 4];
        lastOpcodeID := OpEnd;
        opcode := |instructions|;
        EmitOpcode(fused);
        AppendOperand(src1Index);
        AppendOperand(src2Index);
        offset := |instructions|;
        var operand := Bind(target, opcode, offset);
        AppendOperand(operand);
        return;
      }
      if FusesNullTest(cond, target) {
        var fused := FusedJump(lastOpcodeID);
        var srcIndex := instructions[n - 1].operand;
        // rewindUnaryOp
        instructions := instructions[..n - 3];
        lastOpcodeID := OpEnd;
        opcode := |instructions|;
        EmitOpcode(fused);
        AppendOperand(srcIndex);
        offset := |instructions|;
        var operand := Bind(target, opcode, offset);
        AppendOperand(operand);
        return;
      }
      opcode := |instructions|;
      EmitOpcode(OpJTrue);
      AppendOperand(cond.index);
      offset := |instructions|;
      var operand := Bind(target, opcode, offset);
      AppendOperand(operand);
    }

    /** `emitLabel`: places the label at the end of the stream and makes the
        location a jump target, which disables fusion across it; a location
        already recorded as the last jump target is not recorded twice. */
    method EmitLabel(lbl: nat)
      requires lbl < |labels|
      requires forall k :: 0 <= k < |labels[lbl].unresolvedJumps| ==> labels[lbl].unresolvedJumps[k].1 < |instructions|
      modifies this`labels, this`instructions, this`lastOpcodeID, codeBlock`jumpTargets
      ensures labels == old(labels[lbl := labels[lbl].(location := Some(|instructions|))])
      ensures instructions == old(Patched(instructions, labels[lbl].unresolvedJumps, |instructions|))
      ensures var targets := old(codeBlock.jumpTargets);
        if |targets| > 0 && targets[|targets| - 1] == old(|instructions|)
        then codeBlock.jumpTargets == targets && lastOpcodeID == old(lastOpcodeID)
        else codeBlock.jumpTargets == targets + [old(|instructions|)] && lastOpcodeID == OpEnd
    {
      var newLabelIndex := |instructions|;
      SetLocation(lbl, newLabelIndex);
      if |codeBlock.jumpTargets| > 0 {
        var lastLabelIndex := codeBlock.jumpTargets[|codeBlock.jumpTargets| - 1];
        if newLabelIndex == lastLabelIndex {
          // Peephole optimizations have already been disabled.
          return;
        }
      }
      codeBlock.jumpTargets := codeBlock.jumpTargets + [newLabelIndex];
      lastOpcodeID := OpEnd;
    }

    // ----- Registers and labels -----

    /** `newRegister`: appends the next local and grows the callee register
        count to cover it, rounded up to the stack alignment. */
    method NewRegister() returns (r: RegisterID)
      requires stackAlignmentRegisters > 0
      modifies this`calleeRegisters, codeBlock`numCalleeRegisters
      ensures calleeRegisters == old(calleeRegisters) + [RegisterID(LocalOperand(old(|calleeRegisters|)), false, 0)]
      ensures r == calleeRegisters[|calleeRegisters| - 1]
      ensures codeBlock.numCalleeRegisters ==
        RoundUpToMultipleOf(stackAlignmentRegisters,
                            if old(codeBlock.numCalleeRegisters) < |calleeRegisters| then |calleeRegisters|
                            else old(codeBlock.numCalleeRegisters))
    {
      calleeRegisters := calleeRegisters + [RegisterID(LocalOperand(|calleeRegisters|), false, 0)];
      var numCalleeRegisters := if codeBlock.numCalleeRegisters < |calleeRegisters| then |calleeRegisters|
                                else codeBlock.numCalleeRegisters;
      codeBlock.numCalleeRegisters := RoundUpToMultipleOf(stackAlignmentRegisters, numCalleeRegisters);
      r := calleeRegisters[|calleeRegisters| - 1];
    }

    /** `newTemporary`: pops the trailing unreferenced registers, then
        appends exactly one new temporary. */
    method NewTemporary() returns (r: RegisterID)
      requires stackAlignmentRegisters > 0
      modifies this`calleeRegisters, codeBlock`numCalleeRegisters
      ensures var kept := Reclaimed(old(calleeRegisters), RegisterRefCount);
        calleeRegisters == kept + [RegisterID(LocalOperand(|kept|), true, 0)]
      ensures r == calleeRegisters[|calleeRegisters| - 1]
      ensures codeBlock.numCalleeRegisters >= |calleeRegisters|
      ensures codeBlock.numCalleeRegisters >= old(codeBlock.numCalleeRegisters)
      ensures codeBlock.numCalleeRegisters % stackAlignmentRegisters == 0
    {
      var kept := Reclaim(calleeRegisters, RegisterRefCount);
      calleeRegisters := kept;
      r := NewRegister();
      // setTemporary
      calleeRegisters := calleeRegisters[|calleeRegisters| - 1 := calleeRegisters[|calleeRegisters| - 1].(isTemporary := true)];
      r := calleeRegisters[|calleeRegisters| - 1];
    }

    /** `newLabel`: pops the trailing unreferenced labels, then appends one
        unplaced label, held by the reference it returns. */
    method NewLabel() returns (lbl: nat)
      modifies this`labels
      ensures var kept := Reclaimed(old(labels), LabelRefCount);
        labels == kept + [Label(None, [], 1)] && lbl == |kept|
    {
      var kept := Reclaim(labels, LabelRefCount);
      labels := kept + [Label(None, [], 1)];
      lbl := |labels| - 1;
    }

    // ----- Label scopes -----

    /** `newLabelScope`: pops the trailing unreferenced scopes, then opens a
        scope with a new break label and, for a loop only, a new continue
        label; the scope is held by the reference it returns. */
    method NewLabelScope(scopeType: LabelScopeType, name: Option<string>, scopeDepth: nat) returns (scope: nat)
      modifies this`labels, this`labelScopes
      ensures var keptLabels := Reclaimed(old(labels), LabelRefCount);
        labels == keptLabels + [Label(None, [], 1)] + (if scopeType == Loop then [Label(None, [], 1)] else [])
      ensures var kept := Reclaimed(old(labelScopes), LabelScopeRefCount);
        var breakLabel := |Reclaimed(old(labels), LabelRefCount)|;
        scope == |kept| &&
        labelScopes == kept + [LabelScope(scopeType, name, scopeDepth, breakLabel,
                                          if scopeType == Loop then Some(breakLabel + 1) else None, 1)]
    {
      var kept := Reclaim(labelScopes, LabelScopeRefCount);
      labelScopes := kept;
      var breakLabel := NewLabel();
      var continueLabel: Option<nat> := None;
      if scopeType == Loop {
        ghost var held := labels;
        assert Reclaimed(held, LabelRefCount) == held;
        var l := NewLabel();
        continueLabel := Some(l);
      }
      labelScopes := labelScopes + [LabelScope(scopeType, name, scopeDepth, breakLabel, continueLabel, 1)];
      scope := |labelScopes| - 1;
    }

    /** `breakTarget`: reclaims unreferenced scopes, then finds the scope a
        `break` with that label (or none) leaves. */
    method BreakTarget(name: string) returns (target: Option<nat>)
      modifies this`labelScopes
      ensures labelScopes == Reclaimed(old(labelScopes), LabelScopeRefCount)
      ensures target == BreakTargetOf(labelScopes, name)
    {
      var kept := Reclaim(labelScopes, LabelScopeRefCount);
      labelScopes := kept;
      if |labelScopes| == 0 {
        return None;
      }
      var i: nat := |labelScopes|;
      if name == "" {
        while i > 0
          invariant i <= |labelScopes|
          invariant Innermost(labelScopes, |labelScopes|, Breakable) == Innermost(labelScopes, i, Breakable)
        {
          if labelScopes[i - 1].scopeType != NamedLabel {
            return Some(i - 1);
          }
          i := i - 1;
        }
        return None;
      }
      while i > 0
        invariant i <= |labelScopes|
        invariant BreakTargetOf(labelScopes, name) == Innermost(labelScopes, i, (s: LabelScope) => s.name == Some(name))
      {
        if labelScopes[i - 1].name == Some(name) {
          return Some(i - 1);
        }
        i := i - 1;
      }
      return None;
    }

    /** `continueTarget`: reclaims unreferenced scopes, then finds the loop a
        `continue` with that label (or none) resumes. */
    method ContinueTarget(name: string) returns (target: Option<nat>)
      modifies this`labelScopes
      ensures labelScopes == Reclaimed(old(labelScopes), LabelScopeRefCount)
      ensures target == ContinueTargetOf(labelScopes, name)
    {
      var kept := Reclaim(labelScopes, LabelScopeRefCount);
      labelScopes := kept;
      if |labelScopes| == 0 {
        return None;
      }
      if name == "" {
        target := InnermostLoop(labelScopes);
      } else {
        target := LoopNearestLabel(labelScopes, name);
      }
    }

    /** The search of a plain `continue`: the innermost loop. */
    method InnermostLoop(scopes: seq<LabelScope>) returns (target: Option<nat>)
      ensures target == Innermost(scopes, |scopes|, IsLoop)
    {
      var i: nat := |scopes|;
      while i > 0
        invariant i <= |scopes|
        invariant Innermost(scopes, |scopes|, IsLoop) == Innermost(scopes, i, IsLoop)
      {
        if scopes[i - 1].scopeType == Loop {
          return Some(i - 1);
        }
        i := i - 1;
      }
      return None;
    }

    /** The search of a labelled `continue`: the loop nested nearest to the
        innermost scope labelled `name`. */
    method LoopNearestLabel(scopes: seq<LabelScope>, name: string) returns (target: Option<nat>)
      requires name != ""
      ensures target == ContinueTargetOf(scopes, name)
    {
      var i: nat := |scopes|;
      var result: Option<nat> := None;
      while i > 0
        invariant i <= |scopes|
        invariant Innermost(scopes, |scopes|, (s: LabelScope) => s.name == Some(name))
               == Innermost(scopes, i, (s: LabelScope) => s.name == Some(name))
        invariant result == NearestLoopFrom(scopes, i)
      {
        if scopes[i - 1].scopeType == Loop {
          result := Some(i - 1);
        }
        if scopes[i - 1].name == Some(name) {
          return result;
        }
        i := i - 1;
      }
      return None;
    }

    // ----- Identifier and constant pools -----

    /** `addConstant`: the index of an identifier already in the map;
        otherwise the next index of the code block's identifiers, where it
        is appended. */
    method AddConstant(ident: string) returns (index: nat)
      requires IdentifiersValid()
      modifies this`identifierMap, codeBlock`identifiers
      ensures IdentifiersValid()
      ensures index < |codeBlock.identifiers| && codeBlock.identifiers[index] == ident
      ensures old(ident in identifierMap) ==>
        index == old(identifierMap[ident]) && identifierMap == old(identifierMap) &&
        codeBlock.identifiers == old(codeBlock.identifiers)
      ensures old(ident !in identifierMap) ==>
        index == old(|codeBlock.identifiers|) && codeBlock.identifiers == old(codeBlock.identifiers) + [ident] &&
        identifierMap == old(identifierMap)[ident := index]
    {
      if ident in identifierMap {
        return identifierMap[ident];
      }
      index := |codeBlock.identifiers|;
      identifierMap := identifierMap[ident := index];
      codeBlock.identifiers := codeBlock.identifiers + [ident];
    }

    /** `addConstantEmptyValue`: `JSValue()` cannot be a hash key, so its
        constant is cached in a register of its own, added once. */
    method AddConstantEmptyValue() returns (slot: nat)
      requires ConstantsValid()
      modifies this`constantPoolRegisters, this`nextConstantOffset, this`emptyValueRegister, codeBlock`constantRegisters
      ensures ConstantsValid()
      ensures slot < nextConstantOffset && codeBlock.constantRegisters[slot] == EmptyValue
      ensures constantPoolRegisters[slot] == FirstConstantRegisterIndex + slot
      ensures emptyValueRegister == Some(slot)
      ensures old(emptyValueRegister.Some?) ==>
        slot == old(emptyValueRegister.value) && nextConstantOffset == old(nextConstantOffset) &&
        codeBlock.constantRegisters == old(codeBlock.constantRegisters)
      ensures old(emptyValueRegister.None?) ==>
        slot == old(nextConstantOffset) && codeBlock.constantRegisters == old(codeBlock.constantRegisters) + [EmptyValue]
    {
      if emptyValueRegister.None? {
        var index := nextConstantOffset;
        constantPoolRegisters := constantPoolRegisters + [FirstConstantRegisterIndex + nextConstantOffset];
        nextConstantOffset := nextConstantOffset + 1;
        codeBlock.constantRegisters := codeBlock.constantRegisters + [EmptyValue];
        emptyValueRegister := Some(index);
      }
      slot := emptyValueRegister.value;
    }

    /** `addConstantValue`: the constant of a value already added (by its
        encoding), or a new one at the next offset; the empty value goes to
        its cached register. */
    method AddConstantValue(v: JSValue) returns (slot: nat)
      requires ConstantsValid()
      modifies this`constantPoolRegisters, this`nextConstantOffset, this`emptyValueRegister, this`jsValueMap,
               codeBlock`constantRegisters
      ensures ConstantsValid()
      ensures slot < nextConstantOffset && codeBlock.constantRegisters[slot] == v
      ensures constantPoolRegisters[slot] == FirstConstantRegisterIndex + slot
      ensures v.Encoded? && old(v.bits in jsValueMap) ==>
        slot == old(jsValueMap[v.bits]) && nextConstantOffset == old(nextConstantOffset) &&
        codeBlock.constantRegisters == old(codeBlock.constantRegisters)
      ensures v.Encoded? && old(v.bits !in jsValueMap) ==>
        slot == old(nextConstantOffset) && codeBlock.constantRegisters == old(codeBlock.constantRegisters) + [v]
      ensures v.Encoded? ==> jsValueMap == old(jsValueMap)[v.bits := slot]
    {
      if v.EmptyValue? {
        slot := AddConstantEmptyValue();
        return;
      }
      if v.bits in jsValueMap {
        return jsValueMap[v.bits];
      }
      slot := nextConstantOffset;
      jsValueMap := jsValueMap[v.bits := nextConstantOffset];
      constantPoolRegisters := constantPoolRegisters + [FirstConstantRegisterIndex + nextConstantOffset];
      nextConstantOffset := nextConstantOffset + 1;
      codeBlock.constantRegisters := codeBlock.constantRegisters + [v];
    }

    // ----- Exception handlers -----

    /** The try-range loop of `generate`: one exception handler per try
        range whose end lies after its start; empty ranges, which the
        runtime would never match, are dropped. */
    method AddExceptionHandlers()
      modifies codeBlock`exceptionHandlers
      ensures codeBlock.exceptionHandlers == old(codeBlock.exceptionHandlers) + HandlersFor(tryRanges)
    {
      for i := 0 to |tryRanges|
        invariant codeBlock.exceptionHandlers == old(codeBlock.exceptionHandlers) + HandlersFor(tryRanges[..i])
      {
        assert tryRanges[..i + 1][..i] == tryRanges[..i];
        var range := tryRanges[i];
        if range.end <= range.start {
          continue;
        }
        codeBlock.exceptionHandlers := codeBlock.exceptionHandlers +
          [UnlinkedHandlerInfo(range.start, range.end, range.target, range.targetScopeDepth)];
      }
      assert tryRanges[..|tryRanges|] == tryRanges;
    }
  }

  /** `prepareJumpTableForSwitch`: sets the table's minimum, sizes it to the
      key range filled with 0, and adds each clause's offset from the switch
      instruction at its key. */
  method PrepareJumpTableForSwitch(jumpTable: UnlinkedSimpleJumpTable, switchAddress: int,
                                   clauses: seq<SwitchClause>, min: int, max: int)
    requires min <= max
    requires forall k :: 0 <= k < |clauses| ==> min <= clauses[k].value <= max
    modifies jumpTable
    ensures jumpTable.min == min
    ensures jumpTable.branchOffsets == FilledTable(Zeroes(max - min + 1), clauses, min, switchAddress)
  {
    jumpTable.min := min;
    jumpTable.branchOffsets := Zeroes(max - min + 1);
    ghost var zeroed := jumpTable.branchOffsets;
    for i := 0 to |clauses|
      invariant jumpTable.min == min
      invariant jumpTable.branchOffsets == FilledTable(zeroed, clauses[..i], min, switchAddress)
    {
      assert clauses[..i + 1][..i] == clauses[..i];
      jumpTable.Add(clauses[i].value - min, clauses[i].location - switchAddress);
    }
    assert clauses[..|clauses|] == clauses;
  }

  /** `addConstant` twice with the same identifier gives the same index and
      adds it at most once. */
  method AddConstantTwice(g: BytecodeGenerator, ident: string) returns (first: nat, second: nat)
    requires g.IdentifiersValid()
    modifies g`identifierMap, g.codeBlock`identifiers
    ensures first == second
    ensures |g.codeBlock.identifiers| <= old(|g.codeBlock.identifiers|) + 1
  {
    first := g.AddConstant(ident);
    second := g.AddConstant(ident);
  }

  /** A jump emitted to a label not yet placed lands on it once it is
      placed with `emitLabel`, fused or not: the jump's opcode sits where
      the fusion put it, its operand is the last word of the stream, and
      the operand holds the distance to the label. */
  method ForwardJumpLands(g: BytecodeGenerator, cond: RegisterID, target: nat) returns (opcode: nat, offset: nat)
    requires g.LastInstructionComplete() && target < |g.labels| && g.labels[target].location.None?
    requires forall k :: 0 <= k < |g.labels[target].unresolvedJumps| ==> g.labels[target].unresolvedJumps[k].1 < |g.instructions|
    modifies g`instructions, g`lastOpcodeID, g`labels, g.codeBlock`jumpTargets
    ensures |g.labels| == old(|g.labels|) && g.labels[target].location.Some?
    ensures JumpPlaced(old(g.FusesCompare(cond)), old(g.FusesNullTest(cond, target)), old(|g.instructions|), opcode)
    ensures offset == |g.instructions| - 1
    ensures LandsOn(g.instructions, opcode, offset, g.labels[target].location.value)
  {
    opcode, offset := g.EmitJumpIfTrue(cond, target);
    ghost var jumps := g.labels[target].unresolvedJumps;
    ghost var emitted := g.instructions;
    assert jumps[|jumps| - 1] == (opcode, offset);
    g.EmitLabel(target);
    PatchedLands(emitted, jumps, g.labels[target].location.value);
  }

  /** A jump to a label already placed lands on it at once, from where the
      fusion put it. */
  method BackwardJumpLands(g: BytecodeGenerator, cond: RegisterID, target: nat) returns (opcode: nat, offset: nat)
    requires g.LastInstructionComplete() && target < |g.labels| && g.labels[target].location.Some?
    modifies g`instructions, g`lastOpcodeID, g`labels
    ensures g.labels == old(g.labels)
    ensures JumpPlaced(old(g.FusesCompare(cond)), old(g.FusesNullTest(cond, target)), old(|g.instructions|), opcode)
    ensures offset == |g.instructions| - 1
    ensures LandsOn(g.instructions, opcode, offset, g.labels[target].location.value)
  {
    opcode, offset := g.EmitJumpIfTrue(cond, target);
  }
}
