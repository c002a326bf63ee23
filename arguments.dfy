/**
 * `Arguments.h`: JavaScriptCore's `arguments` object and its slow-argument
 * table. An argument lives in the call frame's registers until the table
 * exists; the table then records, per argument, whether it is normal,
 * captured by the lexical environment or deleted, and which register holds
 * it.
 *
 * `CallFrame::argumentOffset` (CallFrame.h) is not part of this model: it
 * is the function `argumentOffset` the object is built with. `SlowArgument`
 * (SymbolTable.h) is reduced to its status and index. Register files are
 * maps, a register never written reading as the empty value.
 */
module JscArguments {
  /** A JavaScript value; `JSValue()` is `Empty`. */
  datatype JSValue = Empty | Value(bits: int)

  /** `SlowArgument::Status`. `Normal` is the zero a fresh table holds. */
  datatype SlowArgumentStatus = Normal | Captured | Deleted

  /** `SlowArgument`. */
  datatype SlowArgument = SlowArgument(status: SlowArgumentStatus, index: int)

  /** Where `argument(i)` finds an argument: a register of the call frame,
      or a register of the lexical environment. */
  datatype Storage = FrameRegister(frameIndex: int) | EnvironmentRegister(environmentIndex: int)

  /** The table `allocateSlowArguments` builds for n arguments: every entry
      normal, at the offset the call frame gives its argument. */
  ghost predicate FreshTable(table: seq<SlowArgument>, n: nat, argumentOffset: int -> int)
  {
    |table| == n && forall i :: 0 <= i < n ==> table[i] == SlowArgument(Normal, argumentOffset(i))
  }

  class Arguments {
    const numArguments: nat
    const argumentOffset: int -> int
    /** `m_lexicalEnvironment` is set. */
    const hasLexicalEnvironment: bool
    /** `m_slowArgumentData` is set. */
    var hasSlowData: bool
    /** `m_slowArgumentData->slowArguments()`. */
    var slowArguments: seq<SlowArgument>
    /** `m_slowArgumentData->bytecodeToMachineCaptureOffset()`. */
    var captureOffset: int
    /** `m_registers`. */
    var registers: map<int, JSValue>
    /** The lexical environment's registers. */
    var environment: map<int, JSValue>

    /** The table, once there is one, has an entry per argument. */
    ghost predicate Valid()
      reads this
    {
      hasSlowData ==> |slowArguments| == numArguments
    }

    /** Arguments without slow-argument data. */
    constructor (numArguments: nat, argumentOffset: int -> int, hasLexicalEnvironment: bool,
                 registers: map<int, JSValue>, environment: map<int, JSValue>)
      ensures Valid() && !hasSlowData
      ensures this.numArguments == numArguments && this.argumentOffset == argumentOffset
      ensures this.hasLexicalEnvironment == hasLexicalEnvironment
      ensures this.registers == registers && this.environment == environment
    {
      this.numArguments := numArguments;
      this.argumentOffset := argumentOffset;
      this.hasLexicalEnvironment := hasLexicalEnvironment;
      hasSlowData := false;
      slowArguments := [];
      captureOffset := 0;
      this.registers := registers;
      this.environment := environment;
    }

    /** `isArgument`: an index below the argument count that the table does
        not mark deleted. */
    function IsArgument(i: nat): (r: bool)
      requires Valid()
      reads this
      ensures r <==> i < numArguments && !(hasSlowData && slowArguments[i].status == Deleted)
    {
      if i >= numArguments then false
      else if hasSlowData && slowArguments[i].status == Deleted then false
      else true
    }

    /** `isDeletedArgument`: an index below the argument count that the
        table marks deleted; never true without a table. */
    function IsDeletedArgument(i: nat): (r: bool)
      requires Valid()
      reads this
      ensures !hasSlowData ==> !r
      ensures r <==> i < numArguments && hasSlowData && slowArguments[i].status == Deleted
    {
      if i >= numArguments then false
      else if !hasSlowData then false
      else if slowArguments[i].status != Deleted then false
      else true
    }

    /** `argument(i)`: the frame register at the argument's offset while
        there is no table; otherwise the entry's register, in the lexical
        environment (less the capture offset) when the entry is captured. */
    function ArgumentStorage(i: nat): (s: Storage)
      requires Valid() && IsArgument(i)
      reads this
      ensures !hasSlowData ==> s == FrameRegister(argumentOffset(i))
      ensures hasSlowData && slowArguments[i].status != Captured ==> s == FrameRegister(slowArguments[i].index)
      ensures hasSlowData && slowArguments[i].status == Captured ==>
        s == EnvironmentRegister(slowArguments[i].index - captureOffset)
    {
      if !hasSlowData then FrameRegister(argumentOffset(i))
      else if slowArguments[i].status != Captured then FrameRegister(slowArguments[i].index)
      else EnvironmentRegister(slowArguments[i].index - captureOffset)
    }

    /** `argument(i)` reaches the lexical environment only when there is
        one (its `RELEASE_ASSERT`). */
    predicate StorageReachable(i: nat)
      requires Valid()
      reads this
    {
      IsArgument(i) && ArgumentStorage(i).EnvironmentRegister? ==> hasLexicalEnvironment
    }

    /** The value held at a storage location. */
    function Load(s: Storage): JSValue
      reads this
    {
      match s
      case FrameRegister(k) => if k in registers then registers[k] else Empty
      case EnvironmentRegister(k) => if k in environment then environment[k] else Empty
    }

    /** `allocateSlowArguments`: builds the table once, every entry normal
        at its argument's offset, with capture offset 0; a second call
        leaves everything as it is. */
    method AllocateSlowArguments()
      requires Valid()
      modifies this`hasSlowData, this`slowArguments, this`captureOffset
      ensures Valid() && hasSlowData
      ensures old(hasSlowData) ==> slowArguments == old(slowArguments) && captureOffset == old(captureOffset)
      ensures !old(hasSlowData) ==> FreshTable(slowArguments, numArguments, argumentOffset) && captureOffset == 0
    {
      if hasSlowData {
        return;
      }
      var table := seq(numArguments, _ => SlowArgument(Normal, 0));
      for i := 0 to numArguments
        invariant |table| == numArguments
        invariant forall k :: 0 <= k < i ==> table[k] == SlowArgument(Normal, argumentOffset(k))
        invariant forall k :: i <= k < numArguments ==> table[k].status == Normal
      {
        table := table[i := table[i].(index := argumentOffset(i))];
      }
      hasSlowData, slowArguments, captureOffset := true, table, 0;
    }

    /** `tryDeleteArgument`: fails, changing nothing, for an index that is
        not an argument; otherwise builds the table if need be and marks the
        entry deleted, so that it is no longer an argument. */
    method TryDeleteArgument(i: nat) returns (deleted: bool)
      requires Valid()
      modifies this`hasSlowData, this`slowArguments, this`captureOffset
      ensures Valid()
      ensures deleted == old(IsArgument(i))
      ensures !deleted ==>
        hasSlowData == old(hasSlowData) && slowArguments == old(slowArguments) && captureOffset == old(captureOffset)
      ensures deleted ==> hasSlowData && !IsArgument(i) && IsDeletedArgument(i)
      ensures deleted ==> forall k :: 0 <= k < numArguments && k != i ==>
        slowArguments[k] == if old(hasSlowData) then old(slowArguments[k]) else SlowArgument(Normal, argumentOffset(k))
    {
      if !IsArgument(i) {
        return false;
      }
      AllocateSlowArguments();
      slowArguments := slowArguments[i := slowArguments[i].(status := Deleted)];
      return true;
    }

    /** `trySetArgument`: fails, writing nothing, for an index that is not
        an argument; otherwise stores the value where `argument(i)` points. */
    method TrySetArgument(i: nat, v: JSValue) returns (stored: bool)
      requires Valid() && StorageReachable(i)
      modifies this`registers, this`environment
      ensures stored == IsArgument(i)
      ensures !stored ==> registers == old(registers) && environment == old(environment)
      ensures stored && ArgumentStorage(i).FrameRegister? ==>
        registers == old(registers)[ArgumentStorage(i).frameIndex := v] && environment == old(environment)
      ensures stored && ArgumentStorage(i).EnvironmentRegister? ==>
        environment == old(environment)[ArgumentStorage(i).environmentIndex := v] && registers == old(registers)
      ensures stored ==> TryGetArgument(i) == v
    {
      if !IsArgument(i) {
        return false;
      }
      match ArgumentStorage(i) {
        case FrameRegister(k) => registers := registers[k := v];
        case EnvironmentRegister(k) => environment := environment[k := v];
      }
      return true;
    }

    /** `tryGetArgument`: the empty value for an index that is not an
        argument, otherwise the value `argument(i)` holds. */
    function TryGetArgument(i: nat): (v: JSValue)
      requires Valid() && StorageReachable(i)
      reads this
      ensures !IsArgument(i) ==> v == Empty
      ensures IsArgument(i) ==> v == Load(ArgumentStorage(i))
    {
      if !IsArgument(i) then Empty else Load(ArgumentStorage(i))
    }
  }

  /** Below the argument count an index is exactly one of an argument and
      a deleted argument. */
  lemma ArgumentOrDeleted(a: Arguments, i: nat)
    requires a.Valid() && i < a.numArguments
    ensures a.IsArgument(i) != a.IsDeletedArgument(i)
  {
  }

  /** Allocating the table twice is allocating it once. */
  method AllocateTwice(a: Arguments)
    requires a.Valid()
    modifies a`hasSlowData, a`slowArguments, a`captureOffset
    ensures a.Valid() && a.hasSlowData
    ensures !old(a.hasSlowData) ==> FreshTable(a.slowArguments, a.numArguments, a.argumentOffset)
  {
    a.AllocateSlowArguments();
    ghost var once := a.slowArguments;
    a.AllocateSlowArguments();
    assert a.slowArguments == once;
  }

  /** Building the table changes no argument's storage: each still lives
      at the register its offset names. */
  method AllocateKeepsStorage(a: Arguments, i: nat)
    requires a.Valid() && !a.hasSlowData && a.IsArgument(i)
    modifies a`hasSlowData, a`slowArguments, a`captureOffset
    ensures a.Valid() && a.IsArgument(i)
    ensures a.ArgumentStorage(i) == old(a.ArgumentStorage(i))
  {
    a.AllocateSlowArguments();
  }
}
