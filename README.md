# Memory-backed value object

A model of LLDB's `ValueObjectMemory`: the value object a debugger builds
for a value that lives at an `Address` and has a known type. The object
keeps a tagged location (`Value::ValueType` — `Scalar`, `FileAddress`,
`LoadAddress`, `HostAddress` — with a 64-bit scalar payload), a data
buffer with its byte order and address size, a validity flag, a "value did
change" flag and the last error.

- `values.dfy` (module `Values`): the collaborators — the tagged location,
  the address, the target and execution context, the error, the data buffer,
  and the two oracles the object calls: `LoadResolver`
  (`Address::GetLoadAddress`) and `DataReader` (`Value::GetValueAsData`).
- `value_object_memory.dfy` (module `ValueObjects`): the class
  `ValueObjectMemory` with its constructor and `UpdateValue`, the pure
  specification `Recompute` of one update (stated over `ObjectState`, the
  fields an update touches), `RecomputeAll` for a run of updates, and the
  lemmas about repeated updates.

The constructor chooses the initial location: the load address under the
creation-time target if it resolves, else the file address if it is valid,
else the raw offset held as a scalar. `UpdateValue` clears the flag and the
error, takes the target's byte order and address size when there is a
target, saves the old location and, if the address is valid, either
extracts a scalar directly or — for an address — first moves a file address
to a load address when a process is present and the address resolves, then
for an aggregate type only decides the change flag and for any other type
extracts the data. The validity flag and the result are "the error is a
success"; with an invalid address the result is success and the flag stays
false.

The change flag of the aggregate branch compares `value_type`, the tag read
before the file-to-load move, with the saved tag; the two are always equal,
so the flag reduces to "the payload differs". The model keeps this
(`TagOnlyMoveIsNotReported` exhibits a move whose tag changes but whose
payload does not, which is not reported as a change). The general design
of value objects describes the change as "tag or payload differs"; the code
is followed here.

External state is passed in: the execution context (target present,
process present, byte order and address size), the load-address resolver
and the data reader are arguments of each call. The constructor's fields
that the base value object initialises (validity, change flag, error, data
buffer) start as not valid, not changed, success and an empty buffer with
an invalid byte order; the base class is not part of this model.

## Model

| member | source | states |
|---|---|---|
| `ValueObjects.ValueObjectMemory.constructor` | source/Core/ValueObjectMemory.cpp:36-68 | requires a non-null type; the location is `InitialValue` of the address under the creation-time target; the object invariant holds |
| `ValueObjects.InitialValue` | source/Core/ValueObjectMemory.cpp:48-67 | load address with its value iff it resolves; otherwise file address with its value iff that is valid; otherwise scalar holding the offset; an address tag never carries the invalid address |
| `ValueObjects.ValueObjectMemory.UpdateValue` | source/Core/ValueObjectMemory.cpp:112-185 | the new fields and the returned flag are exactly `Recompute` of the old fields; the object invariant is preserved; the name is unchanged |
| `ValueObjects.Recompute` | source/Core/ValueObjectMemory.cpp:112-185 | the location moves to the resolved load address exactly when the address is valid, the tag is file address, a process is present and resolution succeeds, and is unchanged otherwise; tags only stay or go file→load; byte order and address size become the target's iff a target is present; an invalid address gives success, not valid, error cleared, nothing else changed; with a valid address validity == result == error is success; an aggregate at an address reads nothing, succeeds, and is changed iff the payload differs; anything else takes error and bytes from the reader at the new location and keeps the change flag; the invariant is preserved |
| `ValueObjects.RecomputeAll` | source/Core/ValueObjectMemory.cpp:126-180 | over any run of updates in any worlds the tag only stays or goes file→load (never back to a file address), and a location that is not a file address never changes; the invariant is preserved |
| `ValueObjects.RecomputeAgain` | source/Core/ValueObjectMemory.cpp:112-185 | a second update in the same world leaves location, validity, error, buffer and result as the first left them and clears an aggregate's change flag; a third update changes nothing |
| `ValueObjects.RepeatFixedPoint` | source/Core/ValueObjectMemory.cpp:112-185 | a state one update leaves alone is left alone by any number of updates |
| `ValueObjects.RepeatedRecompute` | source/Core/ValueObjectMemory.cpp:112-185 | n >= 2 updates in the same world equal one update with an aggregate's change flag cleared |
| `ValueObjects.TagOnlyMoveIsNotReported` | source/Core/ValueObjectMemory.cpp:125-169 | a file address 0x1000 that resolves to load address 0x1000 moves to the load tag, yet an aggregate is not reported as changed, since the tag test compares the pre-move tag |
| `ValueObjects.ValueObjectMemory.GetValueType` | source/Core/ValueObjectMemory.cpp:104-109 | the object always stands for a global variable |
| `ValueObjects.ValueObjectMemory.IsInScope` | source/Core/ValueObjectMemory.cpp:189-195 | the object is always in scope |

## Left out

- `GetClangType`, `GetClangAST`, `GetTypeName`, `CalculateNumChildren`, `GetByteSize`: one-line delegations to the external type; the type is modelled only by its aggregate bit.
- The destructor: it does nothing.
- The `default:` branch of the tag switch: the tag is a closed datatype, so no other tag exists.
- `Address::GetLoadAddress`, `GetFileAddress`, `GetOffset`, `IsValid`: section and load-list resolution are not part of this model; the address carries its validity, file address and offset, and load addresses come from a resolver argument.
- `Value::GetValueAsData`: memory reads and byte-order conversion are not part of this model; it is a reader argument giving an error and the bytes left in the buffer. It is taken to depend only on the location and the buffer's byte order and address size, and not to change that byte order and address size; whether a failed read writes partial bytes is whatever the reader returns.
- `ExecutionContext` construction from the scope: the context is an argument (target, process present).
- `SetName` and the value's type context (`SetContext`): the name is a field set once; the context carries no behaviour here.
- Child value objects and their offsets: not in this file.
- Concurrency: the object is used from one thread.
