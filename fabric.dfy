/** The part of Hyperledger Fabric's chaincode stub the state lists use:
    the world state as a map from ledger keys to bytes, point reads and
    writes on it, and `createCompositeKey`, which is not modelled beyond
    being some function of its arguments. */
module Fabric {
  import opened Java

  /** The world state: the value stored under each ledger key. */
  type World = map<string, Bytes>

  /** What a call that may write the world state returns, and the world
      state it leaves behind. */
  datatype Effect<+T> = Effect(result: Outcome<T>, world: World)

  /** `getState(key)`: the stored bytes, null when nothing is stored, or the
      store's own exception when it cannot be reached. */
  function Fetch(world: World, fault: Nullable<Exc>, key: string): Outcome<Nullable<Bytes>>
  {
    if fault.Ref? then Throw(fault.get)
    else if key in world then Return(Ref(world[key]))
    else Return(Null)
  }

  /** `putState(key, value)`: a null value is refused before anything is
      written; otherwise the entry at `key` is set, unless the store cannot
      be reached. */
  function Put(world: World, fault: Nullable<Exc>, key: string, value: Nullable<Bytes>): Effect<()>
  {
    if value.Null? then Effect(Throw(NullDeref), world)
    else if fault.Ref? then Effect(Throw(fault.get), world)
    else Effect(Return(()), world[key := value.get])
  }

  /** The stub of one transaction. `fault`, when set, is the exception every
      read and write raises because the peer cannot be reached. */
  class Stub {
    var world: World
    var fault: Nullable<Exc>
    const createCompositeKey: (Nullable<string>, seq<string>) -> Outcome<string>

    constructor (world: World, fault: Nullable<Exc>, createCompositeKey: (Nullable<string>, seq<string>) -> Outcome<string>)
      ensures this.world == world && this.fault == fault
      ensures this.createCompositeKey == createCompositeKey
    {
      this.world := world;
      this.fault := fault;
      this.createCompositeKey := createCompositeKey;
    }

    method GetState(key: string) returns (data: Outcome<Nullable<Bytes>>)
      ensures data == Fetch(world, fault, key)
    {
      if fault.Ref? {
        data := Throw(fault.get);
      } else if key in world {
        data := Return(Ref(world[key]));
      } else {
        data := Return(Null);
      }
    }

    method PutState(key: string, value: Nullable<Bytes>) returns (r: Outcome<()>)
      modifies this`world
      ensures Effect(r, world) == Put(old(world), fault, key, value)
    {
      if value.Null? {
        r := Throw(NullDeref);
      } else if fault.Ref? {
        r := Throw(fault.get);
      } else {
        world := world[key := value.get];
        r := Return(());
      }
    }
  }
}
