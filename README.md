# Namespaced state lists over a Fabric world state

This project models the two state lists of the KSI Hyperledger Fabric
repository. A state list is a virtual table over the flat key-value world
state of one Fabric transaction. Each record is stored under a ledger key
built from the list's namespace and the record's own key. The list does not
store itself anywhere: it exists only as that common key prefix.

- `KsiLedgerApi` models `StateList` of the KSI ledger API. Its constructor
  checks its arguments. The full key is `namespace + "." + key`. `setState`
  is an unconditional put of the record's serialization. `getState` fetches
  the bytes and parses them into a record made by the list's
  `StateConstructor`, and sorts every failure into one of the source's
  exceptions.
- `LedgerApiImpl` models `StateListImpl` of the contract. Its constructor
  keeps its arguments unchecked. The ledger key is Fabric's composite key of
  the list name and the record's split key. `addState` and `updateState` are
  the same unconditional put. `getState` deserializes the stored bytes.
- `Fabric` holds the stub both lists write through: a class `Stub` with the
  world state as a `map<string, Bytes>` field, `getState` and `putState` on
  it, and `createCompositeKey` as a function-valued field.
- `Java` holds the Java values involved: signed bytes, references that may be
  null (`Nullable`), the exceptions (`Exc`), and how a call completes
  (`Outcome`: it returns or throws).

The `State` methods, `StateConstructor.make`, `StateDeserializer.deserialize`
and `createCompositeKey` belong to code outside the modelled files. Each one
is an arbitrary function value, so it is pure, total and deterministic: the
same argument always gives the same outcome. Their types fix what each may
do. `getKey` returns a key or null and never throws. `deserialize` returns
a state or throws, and never returns null. `serialize`, `parse`, `make`,
`getSplitKey`, `splitKey` and `createCompositeKey` may return (for
`serialize`, possibly null) or throw any exception. The lists receive them
as constructor arguments: `StateOps` for the KSI list, `StateCodec` for the
contract's list. The idempotence lemmas rely on this determinism: writing a
record twice stores the same bytes because `serialize` gives the same bytes
both times. Whether the store can be reached is the stub's `fault` field.
When that field is set, every read throws it, and so does every write of
non-null bytes. A write of null bytes throws `NullPointerException` first,
whether or not the field is set.

Each Java method that touches the store is a method of a Dafny class. Its
postcondition ties its result, and the new world state, to a function on
values: `SetEffect` and `GetResult` for the KSI list, and `AddEffect`,
`UpdateEffect` and `ReadResult` for the contract's list. The lemmas about
calls in sequence are stated over those functions. Those properties are
get-after-set, idempotence, isolation of other keys and namespaces, and add
equals update. A read method has no `modifies` clause, so a read provably
changes nothing.

The outcomes for missing data, as in the code:

- KSI: a key that holds nothing makes `getState` print the null bytes before
  its null test. So the result is a `LedgerApiException` whose cause is a
  `NullPointerException`, not a `LedgerApiNoDataException` (`GetAbsentKey`).
  Of the two missing-data cases, only zero-length data raises
  `LedgerApiNoDataException`, and that one is rethrown unwrapped
  (`GetEmptyPayload`). Both outcomes assume `make()` succeeds; a
  `LedgerApiNoDataException` thrown by `make()` or `parse()` is also
  rethrown unwrapped.
- Contract: a key that holds nothing raises `NullPointerException` when the
  bytes are printed. So the `return null` branch of `getState` is never
  reached (`ReadResult` ensures `r != Return(Null)`; the model's
  `deserialize` never returns null, so that clause shows only that this
  branch is unreachable).

Full keys are injective within one namespace (`FullKeyInjective`). They are
not injective across namespaces: `"a.b" + "." + "c"` equals
`"a" + "." + "b.c"` (`CrossNamespaceCollision`). Isolation between lists
holds when no namespace contains `.` (`NamespaceIsolation`,
`SetKeepsOtherNamespaces`). For the contract's list, isolation needs
`createCompositeKey` to be injective. That is stated as the hypothesis
`Injective` of `AddKeepsOtherReads`.

The KSI list's full keys are not injective across namespaces. The
contract's list's ledger keys are injective exactly when
`createCompositeKey` is. With a stub that reads an absent key as null,
neither list raises a dedicated not-found error for a missing entry.

## Model

| member | source | states |
|---|---|---|
| KsiLedgerApi.ConstructionError | ksi-hlf-ledgerapi/src/org/guardtime/ksi/hlf/ledgerapi/StateList.java:16-20 | construction succeeds iff ctx and construct are non-null and the namespace is non-null and non-empty; IllegalArgumentException exactly when ctx is present and the namespace is the empty string; every other failure is a NullPointerException carrying the message of the first failing check, in the order ctx, namespace, constructor |
| KsiLedgerApi.NewStateList | ksi-hlf-ledgerapi/src/org/guardtime/ksi/hlf/ledgerapi/StateList.java:16-25 | throws exactly the exception ConstructionError names; otherwise returns a fresh list holding the given stub, namespace (non-empty by type, const) and constructor |
| KsiLedgerApi.StateList.constructor | ksi-hlf-ledgerapi/src/org/guardtime/ksi/hlf/ledgerapi/StateList.java:22-24 | the fields are the arguments |
| KsiLedgerApi.FullKey | ksi-hlf-ledgerapi/src/org/guardtime/ksi/hlf/ledgerapi/StateList.java:27-31 | null key gives NullPointerException, empty key IllegalArgumentException; succeeds iff the key is non-null and non-empty, and then the result starts with namespace + "." , is longer than that prefix, and its rest is the key |
| KsiLedgerApi.FullKeyInjective | ksi-hlf-ledgerapi/src/org/guardtime/ksi/hlf/ledgerapi/StateList.java:30 | for a fixed namespace and any two keys, null, empty or not, the two FullKey outcomes (full key or exception) are equal iff the keys are equal |
| KsiLedgerApi.CrossNamespaceCollision | ksi-hlf-ledgerapi/src/org/guardtime/ksi/hlf/ledgerapi/StateList.java:30 | namespace "a.b" with key "c" and namespace "a" with key "b.c" give the same full key "a.b.c" |
| KsiLedgerApi.NamespaceIsolation | ksi-hlf-ledgerapi/src/org/guardtime/ksi/hlf/ledgerapi/StateList.java:30 | when neither namespace contains '.', equal full keys imply equal namespaces and equal keys |
| KsiLedgerApi.SetEffect | ksi-hlf-ledgerapi/src/org/guardtime/ksi/hlf/ledgerapi/StateList.java:33-49 | null record gives NullPointerException; an invalid key gives the FullKey exception unwrapped; success iff record and key are valid, serialize returns non-null bytes and the store is reachable, and then only the entry at the full key changes, to the serialized bytes; every failure leaves the world unchanged; a failure after the key is built is a LedgerApiException carrying "Unable to set data at key: <key>!" whose cause is the exception serialize threw, NullPointerException for null bytes, or the store's exception |
| KsiLedgerApi.StateList.SetState | ksi-hlf-ledgerapi/src/org/guardtime/ksi/hlf/ledgerapi/StateList.java:33-49 | result and new world state are those of SetEffect on the old world; writes only the stub's world field |
| KsiLedgerApi.SetIdempotent | ksi-hlf-ledgerapi/src/org/guardtime/ksi/hlf/ledgerapi/StateList.java:40-45 | setting the same record a second time returns the same outcome and leaves the same world as setting it once |
| KsiLedgerApi.SetKeepsOtherKeys | ksi-hlf-ledgerapi/src/org/guardtime/ksi/hlf/ledgerapi/StateList.java:35-44 | after setting a record, getState of any other key of the same list returns what it returned before |
| KsiLedgerApi.SetKeepsOtherNamespaces | ksi-hlf-ledgerapi/src/org/guardtime/ksi/hlf/ledgerapi/StateList.java:27-44 | with two distinct namespaces free of '.', a set through one list changes no getState result of the other |
| KsiLedgerApi.GetResult | ksi-hlf-ledgerapi/src/org/guardtime/ksi/hlf/ledgerapi/StateList.java:51-73 | an invalid key gives the FullKey exception unwrapped; a returned record is the parse, into the constructor's fresh record, of non-empty bytes stored at the full key of a reachable store; every other failure is LedgerApiNoDataException or a LedgerApiException carrying "Unable to get data from key: <key>!"; case by case: a failing make() or an unreachable store gives its exception through the catch clauses, an absent entry gives LedgerApiException wrapping the NullPointerException of printing null, zero-length data gives LedgerApiNoDataException, and non-empty data gives construct.make().parse(data) through the catch clauses |
| KsiLedgerApi.StateList.GetState | ksi-hlf-ledgerapi/src/org/guardtime/ksi/hlf/ledgerapi/StateList.java:51-73 | returns GetResult of the current world; modifies nothing |
| KsiLedgerApi.GetAbsentKey | ksi-hlf-ledgerapi/src/org/guardtime/ksi/hlf/ledgerapi/StateList.java:58-63 | when make() succeeds and the store is reachable, a key with no entry yields LedgerApiException wrapping the NullPointerException of printing null, not LedgerApiNoDataException |
| KsiLedgerApi.GetEmptyPayload | ksi-hlf-ledgerapi/src/org/guardtime/ksi/hlf/ledgerapi/StateList.java:63-69 | when make() succeeds and the store is reachable, an entry of zero-length bytes yields LedgerApiNoDataException "Key: <key> does not contain any data!", unwrapped |
| KsiLedgerApi.GetReadsOnlyItsEntry | ksi-hlf-ledgerapi/src/org/guardtime/ksi/hlf/ledgerapi/StateList.java:52-59 | two worlds that agree at the full key give the same getState result |
| KsiLedgerApi.GetAfterSet | ksi-hlf-ledgerapi/src/org/guardtime/ksi/hlf/ledgerapi/StateList.java:33-67 | after a successful setState(s) with non-empty bytes, getState(s.getKey()) is construct.make().parse(bytes) with getState's exception handling; with zero-length bytes, and when make() succeeds, it is LedgerApiNoDataException |
| Fabric.Stub.PutState | ksi-hlf-ledgerapi/src/org/guardtime/ksi/hlf/ledgerapi/StateList.java:44 | a null value throws and writes nothing; an unreachable store throws its fault and writes nothing; otherwise exactly the one entry is set |
| Fabric.Stub.GetState | ksi-hlf-ledgerapi/src/org/guardtime/ksi/hlf/ledgerapi/StateList.java:59 | the stored bytes, null for an absent key, or the store's fault; modifies nothing |
| LedgerApiImpl.StateListImpl.constructor | contract-guardtime/src/main/java/org/example/ledgerapi/impl/StateListImpl.java:35-39 | ctx, name and deserializer are stored exactly as given, nulls included |
| LedgerApiImpl.AddEffect | contract-guardtime/src/main/java/org/example/ledgerapi/impl/StateListImpl.java:47-67 | a null state gives NullPointerException; success iff the state is non-null, its split key and composite key are computed, serialization returns non-null bytes and the store is reachable, and then only the entry at the composite key changes, to those bytes; every failure leaves the world unchanged; the exception thrown is, in order, the one splitting or composing the key threw, the one serialize threw, NullPointerException for null bytes, or the store's exception, none of them wrapped |
| LedgerApiImpl.StateListImpl.AddState | contract-guardtime/src/main/java/org/example/ledgerapi/impl/StateListImpl.java:47-67 | a null ctx gives NullPointerException; otherwise the new world is AddEffect's and the result is this list on success, the exception otherwise |
| LedgerApiImpl.StateListImpl.UpdateState | contract-guardtime/src/main/java/org/example/ledgerapi/impl/StateListImpl.java:99-105 | a null ctx gives NullPointerException; otherwise the new world is UpdateEffect's and the result is this list on success, the exception otherwise |
| LedgerApiImpl.UpdateEffect | contract-guardtime/src/main/java/org/example/ledgerapi/impl/StateListImpl.java:99-105 | a null state gives NullPointerException; success iff the state is non-null, its split key and composite key are computed, serialization returns non-null bytes and the store is reachable, and then only the entry at the composite key changes, to those bytes; every failure leaves the world unchanged; the exception thrown is, in order, the one splitting or composing the key threw, the one serialize threw, NullPointerException for null bytes, or the store's exception, none of them wrapped |
| LedgerApiImpl.UpdateIsAdd | contract-guardtime/src/main/java/org/example/ledgerapi/impl/StateListImpl.java:99-105 | for every non-null split key, updateState has the same outcome and the same effect on the world as addState |
| LedgerApiImpl.AddIdempotent | contract-guardtime/src/main/java/org/example/ledgerapi/impl/StateListImpl.java:64 | adding the same state again returns the same outcome and leaves the same world |
| LedgerApiImpl.UpdateIdempotent | contract-guardtime/src/main/java/org/example/ledgerapi/impl/StateListImpl.java:102 | updating with the same state again returns the same outcome and leaves the same world |
| LedgerApiImpl.ReadResult | contract-guardtime/src/main/java/org/example/ledgerapi/impl/StateListImpl.java:75-90 | the `return null` branch is unreachable; a returned state is the deserialization of the bytes stored at the composite key of State.splitKey(key) in a reachable store, and conversely present data with a deserializer gives deserializer.deserialize(data); an absent key, or present data with a null deserializer, raises NullPointerException; a failing key computation or an unreachable store gives its exception |
| LedgerApiImpl.StateListImpl.GetState | contract-guardtime/src/main/java/org/example/ledgerapi/impl/StateListImpl.java:75-90 | a null ctx gives NullPointerException; otherwise the result is ReadResult of the current world; modifies nothing |
| LedgerApiImpl.ReadReadsOnlyItsEntry | contract-guardtime/src/main/java/org/example/ledgerapi/impl/StateListImpl.java:77-80 | two worlds that agree at the composite key give the same getState result |
| LedgerApiImpl.ReadAfterAdd | contract-guardtime/src/main/java/org/example/ledgerapi/impl/StateListImpl.java:84-86 | after a successful addState(s), getState(k) with State.splitKey(k) equal to s.getSplitKey() is deserialize(serialize(s)) |
| LedgerApiImpl.AddKeepsOtherReads | contract-guardtime/src/main/java/org/example/ledgerapi/impl/StateListImpl.java:54-64 | if createCompositeKey is injective, adding a state changes no read whose list name or split key differs from the state's |

## Left out

- Logging: `System.out.println` is left out. The one exception is printing fetched or serialized bytes, which throws on null (StateList.java:42 and :61, StateListImpl.java:62 and :82). Those stay as a NullPointerException.
- UTF-8 decoding: decoding bytes for printing is left out. It cannot fail on non-null bytes.
- Foreign code: the bodies of `State`, `StateConstructor`, `StateDeserializer` and Fabric's `createCompositeKey` (with its `toString()`) are not part of this model. They are pure, total, deterministic function values; nothing is assumed beyond their types. Injectivity of composite keys is only a hypothesis, used in `AddKeepsOtherReads`.
- KsiLedgerApi.StateList.SetState: `s.getKey()` is modelled as returning a possibly-null string without throwing. An exception from it is not modelled.
- LedgerApiImpl.StateListImpl.AddState: a null array from `getSplitKey()` and null array elements are not modelled. A split key is a `seq<string>`. The printing of the split key at StateListImpl.java:52 is also left out.
- LedgerApiImpl.UpdateIsAdd: holds for non-null split keys only. With a null array from `getSplitKey()`, `addState` throws NullPointerException when it prints the split key at StateListImpl.java:52, while `updateState` passes the null to `createCompositeKey` at line 100, whose behaviour is not modelled.
- KsiLedgerApi.GetResult: `StateConstructor.make()` and `State.parse()` returning null are not modelled, because their types here have no null. In the source, a null from `parse` is returned by `getState` at StateList.java:67. A null from `make()` gives a NullPointerException at line 67, which is wrapped as a LedgerApiException. That comes only after the fetch and the zero-length check, so an absent entry and zero-length data keep the outcomes modelled here.
- LedgerApiImpl.LedgerKey: `State.splitKey` and `createCompositeKey` returning null are not modelled, because their types here have no null. In the source, a null split-key array goes to `createCompositeKey`, whose behaviour with it is not part of this model. A null composite key makes `ledgerKey.toString()` throw a NullPointerException: at StateListImpl.java:78 in `getState`, and at line 102 in `updateState` (after `serialize`). In `addState` it is thrown at line 64, after `serialize` and the printing of the bytes, since printing a null key at line 56 is harmless.
- LedgerApiImpl.ReadResult: `StateDeserializer.deserialize` returning null is not modelled; the source would return that null from line 86.
- `Context.getStub()`: the context is collapsed into the stub it returns. A null context of the contract's list is modelled as a null stub reference.
- Fabric.Stub.PutState: Fabric's `putState` is not part of this model. Its behaviour with a null value is modelled as a NullPointerException before any write, the store's own key validation is left out, and store errors are one `fault` exception per stub. Only `updateState` passes a null value (when `State.serialize` returns null), and there `addState` throws the same exception at StateListImpl.java:62.
- Fabric.Stub.GetState: an absent key reads as null. A stub that answers with zero-length bytes instead would take the zero-length paths: `LedgerApiNoDataException` for the KSI list, and `deserialize` of empty bytes for the contract's list.
- Java errors: throwables that are not `Exception`s (`Error`s) are not modelled. The source's `catch (Exception e)` does not catch them.
- Concurrency and transactions: isolation between transactions and ordering of concurrent writers belong to the ledger. They are left out.
