/** A value object backed by memory: it is created from an address and a type,
    picks its initial location from what the address resolves to, and on every
    recompute moves a file address to a load address once a process can
    resolve it, then either reports whether its location changed (aggregate
    types) or extracts its bytes (everything else). */
module ValueObjects {
  import opened Values

  /** lldb::ValueType: which kind of program entity a value object stands for. */
  datatype EntityType =
    | EntityInvalid | VariableGlobal | VariableStatic | VariableArgument
    | VariableLocal | Register | RegisterSet | ConstResult

  /** The type of the value (shared with other value objects and never
      changed by them); all the recompute needs of it is whether it is an
      aggregate. */
  class TypeDescriptor {
    const isAggregate: bool

    constructor (isAggregate: bool)
      ensures this.isAggregate == isAggregate
    {
      this.isAggregate := isAggregate;
    }
  }

  /** The fields of a value object that a recompute reads and writes. */
  datatype ObjectState = ObjectState(
    value: Value,
    valueIsValid: bool,
    error: Error,
    valueDidChange: bool,
    data: DataBuffer)

  /** The state after a recompute, and what the recompute returned. */
  datatype Outcome = Outcome(state: ObjectState, ok: bool)

  /** The object invariant: an address tag always carries a resolved address,
      this kind of object never sits at a host address, and the value is
      valid only when the last error is a success. */
  predicate Consistent(s: ObjectState)
  {
    && (s.value.valueType != Scalar ==> s.value.scalar != INVALID_ADDRESS)
    && s.value.valueType != HostAddress
    && (s.valueIsValid ==> s.error == Success)
  }

  /** The only moves a location tag can make: stay, or go from a file address
      to a load address. */
  predicate Advances(from: ValueType, to: ValueType)
  {
    to == from || (from == FileAddress && to == LoadAddress)
  }

  /** The initial location: the load address if the address resolves under
      the target, else its file address if it has one, else its raw offset
      held as a scalar. */
  function InitialValue(address: Address, target: Option<Target>, resolve: LoadResolver): (v: Value)
    ensures v.valueType == LoadAddress <==> resolve(address, target) != INVALID_ADDRESS
    ensures v.valueType == FileAddress <==>
              resolve(address, target) == INVALID_ADDRESS && address.fileAddress != INVALID_ADDRESS
    ensures v.valueType == Scalar <==>
              resolve(address, target) == INVALID_ADDRESS && address.fileAddress == INVALID_ADDRESS
    ensures v.valueType == LoadAddress ==> v.scalar == resolve(address, target)
    ensures v.valueType == FileAddress ==> v.scalar == address.fileAddress
    ensures v.valueType == Scalar ==> v.scalar == address.offset
    ensures Consistent(ObjectState(v, false, Success, false, DataBuffer(ByteOrderInvalid, 0, [])))
  {
    var loadAddress := resolve(address, target);
    if loadAddress != INVALID_ADDRESS then Value(LoadAddress, loadAddress)
    else if address.fileAddress != INVALID_ADDRESS then Value(FileAddress, address.fileAddress)
    else Value(Scalar, address.offset)
  }

  /** When a recompute moves the location: the address is valid, the object
      sits at a file address, a process is present and the address resolves
      to a load address. */
  predicate MovesToLoadAddress(v: Value, address: Address, ctx: ExecutionContext, resolve: LoadResolver)
  {
    address.isValid && v.valueType == FileAddress && ctx.hasProcess
    && resolve(address, ctx.target) != INVALID_ADDRESS
  }

  /** When a recompute takes the aggregate branch: the address is valid, the
      location is an address and the type is an aggregate. */
  predicate AggregatePath(v: Value, address: Address, isAggregate: bool)
  {
    address.isValid && v.valueType != Scalar && isAggregate
  }

  /** The buffer with the target's byte order and address size, when there
      is a target. */
  function WithTargetLayout(data: DataBuffer, ctx: ExecutionContext): DataBuffer
  {
    match ctx.target
    case Some(t) => data.(byteOrder := t.byteOrder, addressByteSize := t.addressByteSize)
    case None => data
  }

  /** Extraction of the object's current location into its buffer. */
  function ReadInto(s: ObjectState, read: DataReader): ObjectState
  {
    var e := read(s.value, s.data.byteOrder, s.data.addressByteSize);
    s.(error := e.error, data := s.data.(bytes := e.bytes))
  }

  /** One recompute of the object's state, step by step as UpdateValue does it. */
  function Recompute(s: ObjectState, address: Address, isAggregate: bool,
                     ctx: ExecutionContext, resolve: LoadResolver, read: DataReader): (r: Outcome)
    // The location moves from a file to a load address exactly when it can; otherwise it stays.
    ensures r.state.value ==
              if MovesToLoadAddress(s.value, address, ctx, resolve)
              then Value(LoadAddress, resolve(address, ctx.target))
              else s.value
    ensures Advances(s.value.valueType, r.state.value.valueType)
    // The buffer layout is the target's when there is one, and untouched otherwise.
    ensures ctx.target.Some? ==> r.state.data.byteOrder == ctx.target.value.byteOrder
                                 && r.state.data.addressByteSize == ctx.target.value.addressByteSize
    ensures ctx.target.None? ==> r.state.data.byteOrder == s.data.byteOrder
                                 && r.state.data.addressByteSize == s.data.addressByteSize
    // An invalid address: success with nothing valid and nothing else changed.
    ensures !address.isValid ==>
              && r.ok && r.state.error == Success && !r.state.valueIsValid
              && r.state.valueDidChange == s.valueDidChange && r.state.data.bytes == s.data.bytes
    // A valid address: the validity flag and the result both say whether the error is a success.
    ensures address.isValid ==> r.state.valueIsValid == r.ok && r.ok == (r.state.error == Success)
    // Aggregates read nothing, succeed, and are changed only if the address value moved.
    ensures AggregatePath(s.value, address, isAggregate) ==>
              && r.ok && r.state.data.bytes == s.data.bytes
              && r.state.valueDidChange == (r.state.value.scalar != s.value.scalar)
    // Everything else extracts its data from the new location and leaves the change flag alone.
    ensures address.isValid && !AggregatePath(s.value, address, isAggregate) ==>
              var e := read(r.state.value, r.state.data.byteOrder, r.state.data.addressByteSize);
              && r.state.error == e.error && r.state.data.bytes == e.bytes
              && r.state.valueDidChange == s.valueDidChange
    ensures Consistent(s) ==> Consistent(r.state)
  {
    var cleared := s.(valueIsValid := false, error := Success);
    var laidOut := cleared.(data := WithTargetLayout(cleared.data, ctx));
    var oldValue := laidOut.value;
    if !address.isValid then
      Outcome(laidOut, true)
    else
      var valueType := laidOut.value.valueType;
      var updated :=
        if valueType == Scalar then
          ReadInto(laidOut, read)
        else
          var moved :=
            if valueType == FileAddress && ctx.hasProcess && resolve(address, ctx.target) != INVALID_ADDRESS
            then laidOut.(value := Value(LoadAddress, resolve(address, ctx.target)))
            else laidOut;
          if isAggregate then
            moved.(valueDidChange := valueType != oldValue.valueType || moved.value.scalar != oldValue.scalar)
          else
            ReadInto(moved, read);
      Outcome(updated.(valueIsValid := updated.error == Success), updated.error == Success)
  }

  /** The world as one recompute sees it. */
  datatype Step = Step(ctx: ExecutionContext, resolve: LoadResolver, read: DataReader)

  /** The state after one recompute per step, in order. */
  function RecomputeAll(s: ObjectState, address: Address, isAggregate: bool, steps: seq<Step>): (r: ObjectState)
    ensures Advances(s.value.valueType, r.value.valueType)
    ensures s.value.valueType != FileAddress ==> r.value == s.value
    ensures Consistent(s) ==> Consistent(r)
    decreases |steps|
  {
    if steps == [] then s
    else
      var step := steps[0];
      RecomputeAll(Recompute(s, address, isAggregate, step.ctx, step.resolve, step.read).state,
                   address, isAggregate, steps[1..])
  }

  /** n recomputes in the same world. */
  function Repeat(step: Step, n: nat): (steps: seq<Step>)
    ensures |steps| == n
  {
    if n == 0 then [] else [step] + Repeat(step, n - 1)
  }

  /** A state after a recompute, as the next recompute in the same world
      leaves it: on the aggregate branch the change flag drops, as the
      location no longer moves. */
  function Settled(s: ObjectState, address: Address, isAggregate: bool): ObjectState
  {
    if AggregatePath(s.value, address, isAggregate) then s.(valueDidChange := false) else s
  }

  /** A second recompute in the same world leaves location, validity, error
      and buffer as the first left them, reports the same result, and clears
      the change flag of an aggregate; a third changes nothing at all. */
  lemma RecomputeAgain(s: ObjectState, address: Address, isAggregate: bool,
                       ctx: ExecutionContext, resolve: LoadResolver, read: DataReader)
    ensures var once := Recompute(s, address, isAggregate, ctx, resolve, read);
            var twice := Recompute(once.state, address, isAggregate, ctx, resolve, read);
            && twice.state == Settled(once.state, address, isAggregate)
            && twice.ok == once.ok
            && Recompute(twice.state, address, isAggregate, ctx, resolve, read).state == twice.state
  {
  }

  /** A state that one recompute leaves alone stays put under any number of them. */
  lemma {:induction false} RepeatFixedPoint(t: ObjectState, address: Address, isAggregate: bool, step: Step, n: nat)
    requires Recompute(t, address, isAggregate, step.ctx, step.resolve, step.read).state == t
    ensures RecomputeAll(t, address, isAggregate, Repeat(step, n)) == t
    decreases n
  {
    if n > 0 {
      assert Repeat(step, n)[0] == step;
      assert Repeat(step, n)[1..] == Repeat(step, n - 1);
      RepeatFixedPoint(t, address, isAggregate, step, n - 1);
    }
  }

  /** Recomputing n >= 2 times in the same world gives what one recompute
      gives, except that an aggregate's change flag has dropped. */
  lemma {:induction false} RepeatedRecompute(s: ObjectState, address: Address, isAggregate: bool, step: Step, n: nat)
    requires n >= 2
    ensures RecomputeAll(s, address, isAggregate, Repeat(step, n)) ==
            Settled(Recompute(s, address, isAggregate, step.ctx, step.resolve, step.read).state, address, isAggregate)
  {
    var once := Recompute(s, address, isAggregate, step.ctx, step.resolve, step.read);
    var twice := Recompute(once.state, address, isAggregate, step.ctx, step.resolve, step.read);
    RecomputeAgain(s, address, isAggregate, step.ctx, step.resolve, step.read);
    assert Repeat(step, n)[0] == step;
    assert Repeat(step, n)[1..] == Repeat(step, n - 1);
    assert Repeat(step, n - 1)[0] == step;
    assert Repeat(step, n - 1)[1..] == Repeat(step, n - 2);
    RepeatFixedPoint(twice.state, address, isAggregate, step, n - 2);
  }

  /** The change test compares the tag read before the move with the saved
      tag, so a move from a file address to a load address with the same
      numeric value is not reported as a change. */
  lemma TagOnlyMoveIsNotReported()
    ensures var address := Address(true, 0x1000, 0x1000);
            var s := ObjectState(Value(FileAddress, 0x1000), false, Success, false,
                                 DataBuffer(ByteOrderLittle, 8, []));
            var ctx := ExecutionContext(Some(Target(ByteOrderLittle, 8)), true);
            var r := Recompute(s, address, true, ctx, (a, t) => 0x1000, (v, o, n) => Extraction(Success, []));
            r.state.value == Value(LoadAddress, 0x1000) && !r.state.valueDidChange
  {
  }

  /** A memory-backed value object. */
  class ValueObjectMemory {
    const address: Address
    const typ: TypeDescriptor
    var name: string
    var valueType: ValueType
    var scalar: Addr
    var valueIsValid: bool
    var error: Error
    var valueDidChange: bool
    var data: DataBuffer

    /** The fields a recompute reads and writes, as one value. */
    function State(): ObjectState
      reads this
    {
      ObjectState(Value(valueType, scalar), valueIsValid, error, valueDidChange, data)
    }

    ghost predicate Valid()
      reads this
    {
      Consistent(State())
    }

    /** Creates the object for an address and a type, which must be present;
        the location is chosen under the target known at creation. */
    constructor (name: string, address: Address, typ: TypeDescriptor?,
                 target: Option<Target>, resolve: LoadResolver)
      requires typ != null
      ensures Valid()
      ensures this.name == name && this.address == address && this.typ == typ
      ensures Value(valueType, scalar) == InitialValue(address, target, resolve)
      ensures !valueIsValid && !valueDidChange && error == Success
      ensures data == DataBuffer(ByteOrderInvalid, 0, [])
    {
      this.address := address;
      this.typ := typ;
      this.name := name;
      valueIsValid, valueDidChange, error := false, false, Success;
      data := DataBuffer(ByteOrderInvalid, 0, []);
      var loadAddress := resolve(address, target);
      if loadAddress != INVALID_ADDRESS {
        valueType := LoadAddress;
        scalar := loadAddress;
      } else {
        var fileAddress := address.fileAddress;
        if fileAddress != INVALID_ADDRESS {
          valueType := FileAddress;
          scalar := fileAddress;
        } else {
          scalar := address.offset;
          valueType := Scalar;
        }
      }
    }

    /** What kind of program entity this object stands for: always a global. */
    function GetValueType(): (t: EntityType)
      ensures t == VariableGlobal
    {
      VariableGlobal
    }

    /** Whether the value is in scope: always. */
    function IsInScope(): (inScope: bool)
      ensures inScope
    {
      true
    }

    /** Recomputes the value in the given world and reports whether the last
        error is a success. */
    method UpdateValue(ctx: ExecutionContext, resolve: LoadResolver, read: DataReader) returns (ok: bool)
      requires Valid()
      modifies this
      ensures Valid()
      ensures name == old(name)
      ensures Outcome(State(), ok) == Recompute(old(State()), address, typ.isAggregate, ctx, resolve, read)
    {
      valueIsValid := false;
      error := Success;

      if ctx.target.Some? {
        data := data.(byteOrder := ctx.target.value.byteOrder);
        data := data.(addressByteSize := ctx.target.value.addressByteSize);
      }

      var oldValue := Value(valueType, scalar);
      if address.isValid {
        var kind := valueType;
        if kind == Scalar {
          // The value is the scalar itself: extract it straight into the buffer.
          var e := read(Value(valueType, scalar), data.byteOrder, data.addressByteSize);
          error := e.error;
          data := data.(bytes := e.bytes);
        } else {
          // A file, load or host address.
          if kind == FileAddress && ctx.hasProcess {
            var loadAddress := resolve(address, ctx.target);
            if loadAddress != INVALID_ADDRESS {
              valueType := LoadAddress;
              scalar := loadAddress;
            }
          }
          if typ.isAggregate {
            valueDidChange := kind != oldValue.valueType || scalar != oldValue.scalar;
          } else {
            var e := read(Value(valueType, scalar), data.byteOrder, data.addressByteSize);
            error := e.error;
            data := data.(bytes := e.bytes);
          }
        }
        valueIsValid := error == Success;
      }
      ok := error == Success;
    }
  }
}
