/** The contract's `StateListImpl`: a virtual container whose states live in
    the world state under the Fabric composite key made of the list's name
    and the state's split key. Adding and updating are the same
    unconditional put; a read deserializes the stored bytes. */
module LedgerApiImpl {
  import opened Java
  import opened Fabric

  /** The `State` methods the list calls: the instance method
      `getSplitKey()` and the static helpers `serialize` and `splitKey`. */
  datatype StateCodec<!S> = StateCodec(
    getSplitKey: S -> Outcome<seq<string>>,
    serialize: S -> Outcome<Nullable<Bytes>>,
    splitKey: Nullable<string> -> Outcome<seq<string>>)

  /** `StateDeserializer`: turns stored bytes into a state. */
  datatype StateDeserializer<S> = StateDeserializer(deserialize: Bytes -> Outcome<S>)

  /** `createCompositeKey(name, parts).toString()`, once the split key has
      been computed (or has thrown). */
  function LedgerKey(compose: (Nullable<string>, seq<string>) -> Outcome<string>, name: Nullable<string>,
                     parts: Outcome<seq<string>>): Outcome<string>
  {
    match parts
    case Throw(e) => Throw(e)
    case Return(p) => compose(name, p)
  }

  /** `addState(state)` on the world state `world` of a non-null context. */
  function AddEffect<S>(compose: (Nullable<string>, seq<string>) -> Outcome<string>, codec: StateCodec<S>,
                        name: Nullable<string>, world: World, fault: Nullable<Exc>, state: Nullable<S>): (e: Effect<()>)
    ensures state.Null? ==> e.result == Throw(NullDeref)
    ensures e.result.Return? <==>
              state.Ref? && LedgerKey(compose, name, codec.getSplitKey(state.get)).Return? && fault.Null? &&
              codec.serialize(state.get).Return? && codec.serialize(state.get).value.Ref?
    ensures e.result.Return? ==>
              e.world == world[LedgerKey(compose, name, codec.getSplitKey(state.get)).value := codec.serialize(state.get).value.get]
    ensures e.result.Throw? ==> e.world == world
    ensures state.Ref? ==>
              var ledgerKey := LedgerKey(compose, name, codec.getSplitKey(state.get));
              var data := codec.serialize(state.get);
              (ledgerKey.Throw? ==> e.result == Throw(ledgerKey.exc)) &&
              (ledgerKey.Return? && data.Throw? ==> e.result == Throw(data.exc)) &&
              (ledgerKey.Return? && data == Return(Null) ==> e.result == Throw(NullDeref)) &&
              (ledgerKey.Return? && data.Return? && data.value.Ref? && fault.Ref? ==> e.result == Throw(fault.get))
  {
    if state.Null? then Effect(Throw(NullDeref), world)
    else
      match LedgerKey(compose, name, codec.getSplitKey(state.get))
      case Throw(e) => Effect(Throw(e), world)
      case Return(ledgerKey) =>
        match codec.serialize(state.get)
        case Throw(e) => Effect(Throw(e), world)
        case Return(Null) => Effect(Throw(NullDeref), world)
        case Return(Ref(data)) => Put(world, fault, ledgerKey, Ref(data))
  }

  /** `updateState(state)` on the world state `world` of a non-null context:
      the bytes go to `putState` without being printed first. */
  function UpdateEffect<S>(compose: (Nullable<string>, seq<string>) -> Outcome<string>, codec: StateCodec<S>,
                           name: Nullable<string>, world: World, fault: Nullable<Exc>, state: Nullable<S>): (e: Effect<()>)
    ensures state.Null? ==> e.result == Throw(NullDeref)
    ensures e.result.Return? <==>
              state.Ref? && LedgerKey(compose, name, codec.getSplitKey(state.get)).Return? && fault.Null? &&
              codec.serialize(state.get).Return? && codec.serialize(state.get).value.Ref?
    ensures e.result.Return? ==>
              e.world == world[LedgerKey(compose, name, codec.getSplitKey(state.get)).value := codec.serialize(state.get).value.get]
    ensures e.result.Throw? ==> e.world == world
    ensures state.Ref? ==>
              var ledgerKey := LedgerKey(compose, name, codec.getSplitKey(state.get));
              var data := codec.serialize(state.get);
              (ledgerKey.Throw? ==> e.result == Throw(ledgerKey.exc)) &&
              (ledgerKey.Return? && data.Throw? ==> e.result == Throw(data.exc)) &&
              (ledgerKey.Return? && data == Return(Null) ==> e.result == Throw(NullDeref)) &&
              (ledgerKey.Return? && data.Return? && data.value.Ref? && fault.Ref? ==> e.result == Throw(fault.get))
  {
    if state.Null? then Effect(Throw(NullDeref), world)
    else
      match LedgerKey(compose, name, codec.getSplitKey(state.get))
      case Throw(e) => Effect(Throw(e), world)
      case Return(ledgerKey) =>
        match codec.serialize(state.get)
        case Throw(e) => Effect(Throw(e), world)
        case Return(data) => Put(world, fault, ledgerKey, data)
  }

  /** `getState(key)` on the world state `world` of a non-null context. */
  function ReadResult<S>(compose: (Nullable<string>, seq<string>) -> Outcome<string>, codec: StateCodec<S>,
                         deserializer: Nullable<StateDeserializer<S>>, name: Nullable<string>,
                         world: World, fault: Nullable<Exc>, key: Nullable<string>): (r: Outcome<Nullable<S>>)
    ensures r != Return(Null)
    ensures r.Return? ==>
              var ledgerKey := LedgerKey(compose, name, codec.splitKey(key));
              ledgerKey.Return? && fault.Null? && ledgerKey.value in world && deserializer.Ref? &&
              deserializer.get.deserialize(world[ledgerKey.value]) == Return(r.value.get)
    ensures var ledgerKey := LedgerKey(compose, name, codec.splitKey(key));
            ledgerKey.Return? && fault.Null? && ledgerKey.value !in world ==> r == Throw(NullDeref)
    ensures var ledgerKey := LedgerKey(compose, name, codec.splitKey(key));
            ledgerKey.Return? && fault.Null? && ledgerKey.value in world && deserializer.Ref? ==>
              r == AsNullable(deserializer.get.deserialize(world[ledgerKey.value]))
    ensures var ledgerKey := LedgerKey(compose, name, codec.splitKey(key));
            ledgerKey.Return? && fault.Null? && ledgerKey.value in world && deserializer.Null? ==> r == Throw(NullDeref)
    ensures var ledgerKey := LedgerKey(compose, name, codec.splitKey(key));
            ledgerKey.Throw? ==> r == Throw(ledgerKey.exc)
    ensures var ledgerKey := LedgerKey(compose, name, codec.splitKey(key));
            ledgerKey.Return? && fault.Ref? ==> r == Throw(fault.get)
  {
    match LedgerKey(compose, name, codec.splitKey(key))
    case Throw(e) => Throw(e)
    case Return(ledgerKey) =>
      match Fetch(world, fault, ledgerKey)
      case Throw(e) => Throw(e)
      case Return(Null) => Throw(NullDeref)
      case Return(Ref(data)) =>
        if deserializer.Null? then Throw(NullDeref)
        else
          match deserializer.get.deserialize(data)
          case Throw(e) => Throw(e)
          case Return(state) => Return(Ref(state))
  }

  /** A call's outcome seen as a possibly-null reference. */
  ghost function AsNullable<T>(o: Outcome<T>): Outcome<Nullable<T>>
  {
    match o
    case Throw(e) => Throw(e)
    case Return(v) => Return(Ref(v))
  }

  /** `updateState` and `addState` have the same outcome and the same effect
      on the world state, for every modelled input (split keys are never
      null arrays here). */
  lemma UpdateIsAdd<S>(compose: (Nullable<string>, seq<string>) -> Outcome<string>, codec: StateCodec<S>,
                       name: Nullable<string>, world: World, fault: Nullable<Exc>, state: Nullable<S>)
    ensures UpdateEffect(compose, codec, name, world, fault, state) == AddEffect(compose, codec, name, world, fault, state)
  {
  }

  /** Adding the same state twice leaves what adding it once leaves. */
  lemma AddIdempotent<S>(compose: (Nullable<string>, seq<string>) -> Outcome<string>, codec: StateCodec<S>,
                         name: Nullable<string>, world: World, fault: Nullable<Exc>, state: Nullable<S>)
    ensures var once := AddEffect(compose, codec, name, world, fault, state);
            AddEffect(compose, codec, name, once.world, fault, state) == once
  {
  }

  /** Updating the same state twice leaves what updating it once leaves. */
  lemma UpdateIdempotent<S>(compose: (Nullable<string>, seq<string>) -> Outcome<string>, codec: StateCodec<S>,
                            name: Nullable<string>, world: World, fault: Nullable<Exc>, state: Nullable<S>)
    ensures var once := UpdateEffect(compose, codec, name, world, fault, state);
            UpdateEffect(compose, codec, name, once.world, fault, state) == once
  {
    UpdateIsAdd(compose, codec, name, world, fault, state);
    var once := UpdateEffect(compose, codec, name, world, fault, state);
    UpdateIsAdd(compose, codec, name, once.world, fault, state);
    AddIdempotent(compose, codec, name, world, fault, state);
  }

  /** A read depends on the world state only through the entry at its
      composite key. */
  lemma ReadReadsOnlyItsEntry<S>(compose: (Nullable<string>, seq<string>) -> Outcome<string>, codec: StateCodec<S>,
                                 deserializer: Nullable<StateDeserializer<S>>, name: Nullable<string>,
                                 w1: World, w2: World, fault: Nullable<Exc>, key: Nullable<string>)
    requires var ledgerKey := LedgerKey(compose, name, codec.splitKey(key));
             ledgerKey.Return? ==>
               (ledgerKey.value in w1 <==> ledgerKey.value in w2) &&
               (ledgerKey.value in w1 ==> w1[ledgerKey.value] == w2[ledgerKey.value])
    ensures ReadResult(compose, codec, deserializer, name, w1, fault, key) ==
            ReadResult(compose, codec, deserializer, name, w2, fault, key)
  {
    var ledgerKey := LedgerKey(compose, name, codec.splitKey(key));
    if ledgerKey.Return? {
      assert Fetch(w1, fault, ledgerKey.value) == Fetch(w2, fault, ledgerKey.value);
    }
  }

  /** After a successful `addState(s)`, reading a key whose split key is the
      state's own returns the deserialized bytes just written. */
  lemma ReadAfterAdd<S>(compose: (Nullable<string>, seq<string>) -> Outcome<string>, codec: StateCodec<S>,
                        deserializer: StateDeserializer<S>, name: Nullable<string>,
                        world: World, fault: Nullable<Exc>, s: S, key: Nullable<string>)
    requires AddEffect(compose, codec, name, world, fault, Ref(s)).result.Return?
    requires codec.splitKey(key) == codec.getSplitKey(s)
    ensures ReadResult(compose, codec, Ref(deserializer), name, AddEffect(compose, codec, name, world, fault, Ref(s)).world, fault, key) ==
            AsNullable(deserializer.deserialize(codec.serialize(s).value.get))
  {
  }

  /** The composite keys `compose` makes are distinct for distinct list
      names or split keys. Fabric's `createCompositeKey` is not part of this
      model, so this is a hypothesis of the lemmas that need it. */
  ghost predicate Injective(compose: (Nullable<string>, seq<string>) -> Outcome<string>)
  {
    forall n1, p1, n2, p2 :: compose(n1, p1).Return? && compose(n1, p1) == compose(n2, p2) ==> n1 == n2 && p1 == p2
  }

  /** With injective composite keys, adding a state changes no read whose
      list name or split key differs from the state's. */
  lemma AddKeepsOtherReads<S, T>(compose: (Nullable<string>, seq<string>) -> Outcome<string>,
                                 codec: StateCodec<S>, name: Nullable<string>, world: World, fault: Nullable<Exc>, s: S,
                                 readCodec: StateCodec<T>, deserializer: Nullable<StateDeserializer<T>>,
                                 readName: Nullable<string>, key: Nullable<string>)
    requires Injective(compose)
    requires codec.getSplitKey(s).Return? && readCodec.splitKey(key).Return? ==>
               name != readName || codec.getSplitKey(s).value != readCodec.splitKey(key).value
    ensures ReadResult(compose, readCodec, deserializer, readName, AddEffect(compose, codec, name, world, fault, Ref(s)).world, fault, key) ==
            ReadResult(compose, readCodec, deserializer, readName, world, fault, key)
  {
    var after := AddEffect(compose, codec, name, world, fault, Ref(s)).world;
    var written := LedgerKey(compose, name, codec.getSplitKey(s));
    var read := LedgerKey(compose, readName, readCodec.splitKey(key));
    if written.Return? && read.Return? {
      assert written != read;
    }
    ReadReadsOnlyItsEntry(compose, readCodec, deserializer, readName, after, world, fault, key);
  }

  /** A list over the context of one transaction. The constructor keeps its
      arguments as given, checking none of them; `codec` is the `State` code
      of the states the list stores. */
  class StateListImpl<S> {
    const ctx: Stub?
    const name: Nullable<string>
    const deserializer: Nullable<StateDeserializer<S>>
    const codec: StateCodec<S>

    constructor (ctx: Stub?, listName: Nullable<string>, deserializer: Nullable<StateDeserializer<S>>, codec: StateCodec<S>)
      ensures this.ctx == ctx && this.name == listName && this.deserializer == deserializer && this.codec == codec
    {
      this.ctx := ctx;
      this.name := listName;
      this.deserializer := deserializer;
      this.codec := codec;
    }

    method AddState(state: Nullable<S>) returns (r: Outcome<StateListImpl<S>>)
      modifies ctx
      ensures ctx == null ==> r == Throw(NullDeref)
      ensures ctx != null ==> ctx.fault == old(ctx.fault)
      ensures ctx != null ==>
                var e := AddEffect(ctx.createCompositeKey, codec, name, old(ctx.world), ctx.fault, state);
                ctx.world == e.world && r == (if e.result.Return? then Return(this) else Throw(e.result.exc))
    {
      if ctx == null {
        return Throw(NullDeref);
      }
      if state.Null? {
        return Throw(NullDeref);
      }
      var splitKey := codec.getSplitKey(state.get);
      if splitKey.Throw? {
        return Throw(splitKey.exc);
      }
      var ledgerKey := ctx.createCompositeKey(name, splitKey.value);
      if ledgerKey.Throw? {
        return Throw(ledgerKey.exc);
      }
      var data := codec.serialize(state.get);
      if data.Throw? {
        return Throw(data.exc);
      }
      if data.value.Null? {
        return Throw(NullDeref);
      }
      var put := ctx.PutState(ledgerKey.value, data.value);
      if put.Throw? {
        return Throw(put.exc);
      }
      return Return(this);
    }

    method GetState(key: Nullable<string>) returns (r: Outcome<Nullable<S>>)
      ensures ctx == null ==> r == Throw(NullDeref)
      ensures ctx != null ==> r == ReadResult(ctx.createCompositeKey, codec, deserializer, name, ctx.world, ctx.fault, key)
    {
      if ctx == null {
        return Throw(NullDeref);
      }
      var splitKey := codec.splitKey(key);
      if splitKey.Throw? {
        return Throw(splitKey.exc);
      }
      var ledgerKey := ctx.createCompositeKey(name, splitKey.value);
      if ledgerKey.Throw? {
        return Throw(ledgerKey.exc);
      }
      var data := ctx.GetState(ledgerKey.value);
      if data.Throw? {
        return Throw(data.exc);
      }
      if data.value.Null? {
        return Throw(NullDeref);
      }
      if deserializer.Null? {
        return Throw(NullDeref);
      }
      var state := deserializer.get.deserialize(data.value.get);
      if state.Throw? {
        return Throw(state.exc);
      }
      return Return(Ref(state.value));
    }

    method UpdateState(state: Nullable<S>) returns (r: Outcome<StateListImpl<S>>)
      modifies ctx
      ensures ctx == null ==> r == Throw(NullDeref)
      ensures ctx != null ==> ctx.fault == old(ctx.fault)
      ensures ctx != null ==>
                var e := UpdateEffect(ctx.createCompositeKey, codec, name, old(ctx.world), ctx.fault, state);
                ctx.world == e.world && r == (if e.result.Return? then Return(this) else Throw(e.result.exc))
    {
      if ctx == null {
        return Throw(NullDeref);
      }
      if state.Null? {
        return Throw(NullDeref);
      }
      var splitKey := codec.getSplitKey(state.get);
      if splitKey.Throw? {
        return Throw(splitKey.exc);
      }
      var ledgerKey := ctx.createCompositeKey(name, splitKey.value);
      if ledgerKey.Throw? {
        return Throw(ledgerKey.exc);
      }
      var data := codec.serialize(state.get);
      if data.Throw? {
        return Throw(data.exc);
      }
      var put := ctx.PutState(ledgerKey.value, data.value);
      if put.Throw? {
        return Throw(put.exc);
      }
      return Return(this);
    }
  }
}
