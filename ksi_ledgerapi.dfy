/** The KSI ledger API's `StateList`: a virtual table whose records live in
    the world state under `namespace + "." + key`. Writes are unconditional
    puts of the record's serialization; reads fetch the bytes and parse them
    into a fresh record, and classify every failure. */
module KsiLedgerApi {
  import opened Java
  import opened Fabric

  type NonEmptyString = s: string | |s| > 0 witness "."

  /** The methods of the `State` interface the list calls on a record. */
  datatype StateOps<!S> = StateOps(
    getKey: S -> Nullable<string>,
    serialize: S -> Outcome<Nullable<Bytes>>,
    parse: (S, Bytes) -> Outcome<S>)

  /** `StateConstructor`: makes the empty record that a read parses into. */
  datatype StateConstructor<S> = StateConstructor(make: () -> Outcome<S>)

  const ContextNull := "StateList Context is null!"
  const NamespaceNull := "StateList namespace is null!"
  const NamespaceEmpty := "StateList namespace length is 0!"
  const ConstructNull := "StateList State constructor is null!"
  const KeyNull := "To constructing full key, input key must not be null!"
  const KeyEmpty := "To constructing full key, input key must not be empty string!"
  const StateNull := "Unable to set null State!"

  function SetFailure(ledgerKey: string): string { "Unable to set data at key: " + ledgerKey + "!" }
  function GetFailure(ledgerKey: string): string { "Unable to get data from key: " + ledgerKey + "!" }
  function NoDataMessage(ledgerKey: string): string { "Key: " + ledgerKey + " does not contain any data!" }

  /** The exception the constructor throws, checking its arguments in the
      order the source does; null when they are all acceptable. */
  function ConstructionError(ctxNull: bool, namespace: Nullable<string>, constructNull: bool): (e: Nullable<Exc>)
    ensures e.Null? <==> !ctxNull && namespace.Ref? && namespace.get != "" && !constructNull
    ensures e == Ref(IllegalArgument(NamespaceEmpty)) <==> !ctxNull && namespace == Ref("")
    ensures e.Ref? && e.get != IllegalArgument(NamespaceEmpty) ==> e.get.NullPointer? && e.get.detail.Ref?
    ensures ctxNull ==> e == Ref(NullPointer(Ref(ContextNull)))
    ensures !ctxNull && namespace.Null? ==> e == Ref(NullPointer(Ref(NamespaceNull)))
    ensures !ctxNull && namespace.Ref? && namespace.get != "" && constructNull ==> e == Ref(NullPointer(Ref(ConstructNull)))
  {
    if ctxNull then Ref(NullPointer(Ref(ContextNull)))
    else if namespace.Null? then Ref(NullPointer(Ref(NamespaceNull)))
    else if |namespace.get| == 0 then Ref(IllegalArgument(NamespaceEmpty))
    else if constructNull then Ref(NullPointer(Ref(ConstructNull)))
    else Null
  }

  /** `getFullKey(key)` of a list whose namespace is `nameSpace`. */
  function FullKey(nameSpace: string, key: Nullable<string>): (r: Outcome<string>)
    ensures key.Null? ==> r == Throw(NullPointer(Ref(KeyNull)))
    ensures key == Ref("") ==> r == Throw(IllegalArgument(KeyEmpty))
    ensures r.Return? <==> key.Ref? && key.get != ""
    ensures r.Return? ==> |r.value| > |nameSpace| + 1
    ensures r.Return? ==> r.value[..|nameSpace| + 1] == nameSpace + "." && r.value[|nameSpace| + 1..] == key.get
  {
    if key.Null? then Throw(NullPointer(Ref(KeyNull)))
    else if |key.get| == 0 then Throw(IllegalArgument(KeyEmpty))
    else Return(nameSpace + "." + key.get)
  }

  /** Within one namespace, distinct keys have distinct full keys. */
  lemma FullKeyInjective(nameSpace: string, k1: Nullable<string>, k2: Nullable<string>)
    ensures FullKey(nameSpace, k1) == FullKey(nameSpace, k2) <==> k1 == k2
  {
    if FullKey(nameSpace, k1) == FullKey(nameSpace, k2) && FullKey(nameSpace, k1).Return? {
      var full := FullKey(nameSpace, k1).value;
      assert k1.get == full[|nameSpace| + 1..] == k2.get;
    }
  }

  /** Across namespaces the full keys may collide: the source does not
      escape the separator. */
  lemma CrossNamespaceCollision()
    ensures FullKey("a.b", Ref("c")) == FullKey("a", Ref("b.c")) == Return("a.b.c")
  {
    assert "a.b" + "." + "c" == "a.b.c";
    assert "a" + "." + "b.c" == "a.b.c";
  }

  /** The index of the first '.' in `s`, or `|s|` when there is none. */
  ghost function FirstDot(s: string): (i: nat)
    ensures i <= |s|
    ensures forall j :: 0 <= j < i ==> s[j] != '.'
    ensures i < |s| ==> s[i] == '.'
  {
    if s == [] || s[0] == '.' then 0 else 1 + FirstDot(s[1..])
  }

  lemma {:induction false} FirstDotOfFullKey(nameSpace: string, key: string)
    requires '.' !in nameSpace
    ensures FirstDot(nameSpace + "." + key) == |nameSpace|
  {
    if nameSpace != [] {
      assert (nameSpace + "." + key)[1..] == nameSpace[1..] + "." + key;
      FirstDotOfFullKey(nameSpace[1..], key);
    }
  }

  /** When no namespace contains '.', a full key determines both its
      namespace and its key, so lists of different namespaces never share
      a ledger key. */
  lemma NamespaceIsolation(ns1: string, ns2: string, k1: Nullable<string>, k2: Nullable<string>)
    requires '.' !in ns1 && '.' !in ns2
    requires FullKey(ns1, k1).Return?
    ensures FullKey(ns1, k1) == FullKey(ns2, k2) ==> ns1 == ns2 && k1 == k2
  {
    if FullKey(ns1, k1) == FullKey(ns2, k2) {
      var full := FullKey(ns1, k1).value;
      FirstDotOfFullKey(ns1, k1.get);
      FirstDotOfFullKey(ns2, k2.get);
      assert |ns1| == |ns2|;
      assert ns1 == full[..|ns1|] == ns2;
      FullKeyInjective(ns1, k1, k2);
    }
  }

  /** The `catch (Exception e)` of `setState`: every exception becomes a
      `LedgerApiException` whose cause is the exception caught. */
  function WrapAll<T>(message: string, o: Outcome<T>): Outcome<T>
  {
    match o
    case Return(v) => Return(v)
    case Throw(e) => Throw(LedgerApi(message, e))
  }

  /** The two catch clauses of `getState`: a `LedgerApiNoDataException` is
      rethrown as it is and every other exception is wrapped. */
  function Rethrow(message: string, e: Exc): Exc
  {
    if e.LedgerApiNoData? then e else LedgerApi(message, e)
  }

  function WrapGet<T>(message: string, o: Outcome<T>): Outcome<T>
  {
    match o
    case Return(v) => Return(v)
    case Throw(e) => Throw(Rethrow(message, e))
  }

  /** The `try` block of `setState`: serialize, print the bytes (null cannot be
      printed), put. */
  function TrySet(serialized: Outcome<Nullable<Bytes>>, world: World, fault: Nullable<Exc>, ledgerKey: string): Effect<()>
  {
    match serialized
    case Throw(e) => Effect(Throw(e), world)
    case Return(Null) => Effect(Throw(NullDeref), world)
    case Return(Ref(data)) => Put(world, fault, ledgerKey, Ref(data))
  }

  /** `setState(s)` on the world state `world`. */
  function SetEffect<S>(nameSpace: string, ops: StateOps<S>, world: World, fault: Nullable<Exc>, s: Nullable<S>): (e: Effect<()>)
    ensures s.Null? ==> e.result == Throw(NullPointer(Ref(StateNull)))
    ensures s.Ref? && FullKey(nameSpace, ops.getKey(s.get)).Throw? ==>
              e.result == Throw(FullKey(nameSpace, ops.getKey(s.get)).exc)
    ensures e.result.Return? <==>
              s.Ref? && FullKey(nameSpace, ops.getKey(s.get)).Return? && fault.Null? &&
              ops.serialize(s.get).Return? && ops.serialize(s.get).value.Ref?
    ensures e.result.Return? ==>
              e.world == world[FullKey(nameSpace, ops.getKey(s.get)).value := ops.serialize(s.get).value.get]
    ensures e.result.Throw? ==> e.world == world
    ensures e.result.Throw? && s.Ref? && FullKey(nameSpace, ops.getKey(s.get)).Return? ==>
              e.result.exc.LedgerApi? && e.result.exc.message == SetFailure(FullKey(nameSpace, ops.getKey(s.get)).value)
    ensures s.Ref? && FullKey(nameSpace, ops.getKey(s.get)).Return? ==>
              var ledgerKey := FullKey(nameSpace, ops.getKey(s.get)).value;
              var data := ops.serialize(s.get);
              (data.Throw? ==> e.result == Throw(LedgerApi(SetFailure(ledgerKey), data.exc))) &&
              (data == Return(Null) ==> e.result == Throw(LedgerApi(SetFailure(ledgerKey), NullDeref))) &&
              (data.Return? && data.value.Ref? && fault.Ref? ==> e.result == Throw(LedgerApi(SetFailure(ledgerKey), fault.get)))
  {
    if s.Null? then Effect(Throw(NullPointer(Ref(StateNull))), world)
    else
      match FullKey(nameSpace, ops.getKey(s.get))
      case Throw(e) => Effect(Throw(e), world)
      case Return(ledgerKey) =>
        var tried := TrySet(ops.serialize(s.get), world, fault, ledgerKey);
        Effect(WrapAll(SetFailure(ledgerKey), tried.result), tried.world)
  }

  /** The `try` block of `getState`: make the empty record, fetch, print the
      bytes (null cannot be printed), refuse zero-length data, parse. */
  function TryGet<S>(construct: StateConstructor<S>, ops: StateOps<S>, world: World, fault: Nullable<Exc>, ledgerKey: string): Outcome<S>
  {
    match construct.make()
    case Throw(e) => Throw(e)
    case Return(tmp) =>
      match Fetch(world, fault, ledgerKey)
      case Throw(e) => Throw(e)
      case Return(Null) => Throw(NullDeref)
      case Return(Ref(data)) =>
        if |data| == 0 then Throw(LedgerApiNoData(NoDataMessage(ledgerKey)))
        else ops.parse(tmp, data)
  }

  /** `getState(key)` on the world state `world`. */
  function GetResult<S>(nameSpace: string, construct: StateConstructor<S>, ops: StateOps<S>,
                        world: World, fault: Nullable<Exc>, key: Nullable<string>): (r: Outcome<S>)
    ensures FullKey(nameSpace, key).Throw? ==> r == Throw(FullKey(nameSpace, key).exc)
    ensures r.Return? ==>
              var ledgerKey := FullKey(nameSpace, key).value;
              FullKey(nameSpace, key).Return? && fault.Null? && ledgerKey in world && |world[ledgerKey]| > 0 &&
              construct.make().Return? && ops.parse(construct.make().value, world[ledgerKey]) == r
    ensures r.Throw? && FullKey(nameSpace, key).Return? ==>
              r.exc.LedgerApiNoData? || (r.exc.LedgerApi? && r.exc.message == GetFailure(FullKey(nameSpace, key).value))
    ensures FullKey(nameSpace, key).Return? && construct.make().Throw? ==>
              r == Throw(Rethrow(GetFailure(FullKey(nameSpace, key).value), construct.make().exc))
    ensures FullKey(nameSpace, key).Return? && construct.make().Return? && fault.Ref? ==>
              r == Throw(Rethrow(GetFailure(FullKey(nameSpace, key).value), fault.get))
    ensures FullKey(nameSpace, key).Return? ==>
              var ledgerKey := FullKey(nameSpace, key).value;
              construct.make().Return? && fault.Null? && ledgerKey !in world ==>
                r == Throw(LedgerApi(GetFailure(ledgerKey), NullDeref))
    ensures FullKey(nameSpace, key).Return? ==>
              var ledgerKey := FullKey(nameSpace, key).value;
              construct.make().Return? && fault.Null? && ledgerKey in world && |world[ledgerKey]| == 0 ==>
                r == Throw(LedgerApiNoData(NoDataMessage(ledgerKey)))
    ensures FullKey(nameSpace, key).Return? ==>
              var ledgerKey := FullKey(nameSpace, key).value;
              fault.Null? && ledgerKey in world && |world[ledgerKey]| > 0 ==>
                r == WrapGet(GetFailure(ledgerKey), MakeAndParse(construct, ops, world[ledgerKey]))
  {
    match FullKey(nameSpace, key)
    case Throw(e) => Throw(e)
    case Return(ledgerKey) => WrapGet(GetFailure(ledgerKey), TryGet(construct, ops, world, fault, ledgerKey))
  }

  /** `construct.make().parse(data)`, with its exceptions. */
  ghost function MakeAndParse<S>(construct: StateConstructor<S>, ops: StateOps<S>, data: Bytes): Outcome<S>
  {
    match construct.make()
    case Throw(e) => Throw(e)
    case Return(tmp) => ops.parse(tmp, data)
  }

  /** A key that holds nothing does not raise `LedgerApiNoDataException`:
      printing the null bytes fails first, and that failure is wrapped. */
  lemma GetAbsentKey<S>(nameSpace: string, construct: StateConstructor<S>, ops: StateOps<S>, world: World, key: Nullable<string>)
    requires FullKey(nameSpace, key).Return? && FullKey(nameSpace, key).value !in world
    requires construct.make().Return?
    ensures GetResult(nameSpace, construct, ops, world, Null, key) ==
            Throw(LedgerApi(GetFailure(FullKey(nameSpace, key).value), NullDeref))
  {
  }

  /** A key that holds zero-length data raises `LedgerApiNoDataException`,
      which is rethrown unwrapped. */
  lemma GetEmptyPayload<S>(nameSpace: string, construct: StateConstructor<S>, ops: StateOps<S>, world: World, key: Nullable<string>)
    requires FullKey(nameSpace, key).Return?
    requires FullKey(nameSpace, key).value in world && world[FullKey(nameSpace, key).value] == []
    requires construct.make().Return?
    ensures GetResult(nameSpace, construct, ops, world, Null, key) ==
            Throw(LedgerApiNoData(NoDataMessage(FullKey(nameSpace, key).value)))
  {
  }

  /** A read depends on the world state only through the entry at its full key. */
  lemma GetReadsOnlyItsEntry<S>(nameSpace: string, construct: StateConstructor<S>, ops: StateOps<S>,
                                w1: World, w2: World, fault: Nullable<Exc>, key: Nullable<string>)
    requires FullKey(nameSpace, key).Return? ==>
               var ledgerKey := FullKey(nameSpace, key).value;
               (ledgerKey in w1 <==> ledgerKey in w2) && (ledgerKey in w1 ==> w1[ledgerKey] == w2[ledgerKey])
    ensures GetResult(nameSpace, construct, ops, w1, fault, key) == GetResult(nameSpace, construct, ops, w2, fault, key)
  {
    if FullKey(nameSpace, key).Return? {
      var ledgerKey := FullKey(nameSpace, key).value;
      assert Fetch(w1, fault, ledgerKey) == Fetch(w2, fault, ledgerKey);
    }
  }

  /** After a successful `setState(s)`, `getState(s.getKey())` parses the
      bytes just written into a fresh record; zero-length bytes read back
      as no data. */
  lemma GetAfterSet<S>(nameSpace: string, construct: StateConstructor<S>, ops: StateOps<S>,
                       world: World, fault: Nullable<Exc>, s: S)
    requires SetEffect(nameSpace, ops, world, fault, Ref(s)).result.Return?
    ensures var ledgerKey := FullKey(nameSpace, ops.getKey(s)).value;
            var data := ops.serialize(s).value.get;
            var r := GetResult(nameSpace, construct, ops, SetEffect(nameSpace, ops, world, fault, Ref(s)).world, fault, ops.getKey(s));
            (|data| > 0 ==> r == WrapGet(GetFailure(ledgerKey), MakeAndParse(construct, ops, data))) &&
            (|data| == 0 && construct.make().Return? ==> r == Throw(LedgerApiNoData(NoDataMessage(ledgerKey))))
  {
  }

  /** Setting the same record twice leaves what setting it once leaves. */
  lemma SetIdempotent<S>(nameSpace: string, ops: StateOps<S>, world: World, fault: Nullable<Exc>, s: Nullable<S>)
    ensures var once := SetEffect(nameSpace, ops, world, fault, s);
            SetEffect(nameSpace, ops, once.world, fault, s) == once
  {
  }

  /** Setting a record changes no read of another key of the same list. */
  lemma SetKeepsOtherKeys<S>(nameSpace: string, construct: StateConstructor<S>, ops: StateOps<S>,
                             world: World, fault: Nullable<Exc>, s: S, key: Nullable<string>)
    requires key != ops.getKey(s)
    ensures GetResult(nameSpace, construct, ops, SetEffect(nameSpace, ops, world, fault, Ref(s)).world, fault, key) ==
            GetResult(nameSpace, construct, ops, world, fault, key)
  {
    var after := SetEffect(nameSpace, ops, world, fault, Ref(s)).world;
    if FullKey(nameSpace, key).Return? && FullKey(nameSpace, ops.getKey(s)).Return? {
      FullKeyInjective(nameSpace, key, ops.getKey(s));
    }
    GetReadsOnlyItsEntry(nameSpace, construct, ops, after, world, fault, key);
  }

  /** Setting a record through one list changes no read through a list of
      another namespace, when neither namespace contains the separator. */
  lemma SetKeepsOtherNamespaces<S, T>(writer: string, ops: StateOps<S>, world: World, fault: Nullable<Exc>, s: S,
                                      reader: string, construct: StateConstructor<T>, readOps: StateOps<T>, key: Nullable<string>)
    requires '.' !in writer && '.' !in reader && writer != reader
    ensures GetResult(reader, construct, readOps, SetEffect(writer, ops, world, fault, Ref(s)).world, fault, key) ==
            GetResult(reader, construct, readOps, world, fault, key)
  {
    var after := SetEffect(writer, ops, world, fault, Ref(s)).world;
    if FullKey(writer, ops.getKey(s)).Return? {
      NamespaceIsolation(writer, reader, ops.getKey(s), key);
    }
    GetReadsOnlyItsEntry(reader, construct, readOps, after, world, fault, key);
  }

  /** `new StateList(ctx, namespace, construct)`: the constructor either
      throws the exception `ConstructionError` names or makes a list that
      keeps its arguments. */
  method NewStateList<S>(ctx: Stub?, namespace: Nullable<string>, construct: Nullable<StateConstructor<S>>, ops: StateOps<S>)
    returns (r: Outcome<StateList<S>>)
    ensures var e := ConstructionError(ctx == null, namespace, construct.Null?);
            (r.Throw? <==> e.Ref?) && (r.Throw? ==> r.exc == e.get)
    ensures r.Return? ==> fresh(r.value) && r.value.stub == ctx && r.value.nameSpace == namespace.get &&
                          r.value.construct == construct.get && r.value.ops == ops
  {
    if ctx == null {
      return Throw(NullPointer(Ref(ContextNull)));
    }
    if namespace.Null? {
      return Throw(NullPointer(Ref(NamespaceNull)));
    }
    if |namespace.get| == 0 {
      return Throw(IllegalArgument(NamespaceEmpty));
    }
    if construct.Null? {
      return Throw(NullPointer(Ref(ConstructNull)));
    }
    var list := new StateList(ctx, namespace.get, construct.get, ops);
    return Return(list);
  }

  /** A list over the stub of one transaction. The namespace is non-empty
      and fixed for the list's lifetime. `ops` are the `State` methods of
      the records the list stores. */
  class StateList<S> {
    const stub: Stub
    const nameSpace: NonEmptyString
    const construct: StateConstructor<S>
    const ops: StateOps<S>

    /** The field assignments of the source's constructor, reached once its
        checks have passed (see `NewStateList`). */
    constructor (stub: Stub, nameSpace: NonEmptyString, construct: StateConstructor<S>, ops: StateOps<S>)
      ensures this.stub == stub && this.nameSpace == nameSpace
      ensures this.construct == construct && this.ops == ops
    {
      this.stub := stub;
      this.nameSpace := nameSpace;
      this.construct := construct;
      this.ops := ops;
    }

    method SetState(s: Nullable<S>) returns (r: Outcome<()>)
      modifies stub`world
      ensures Effect(r, stub.world) == SetEffect(nameSpace, ops, old(stub.world), stub.fault, s)
    {
      if s.Null? {
        return Throw(NullPointer(Ref(StateNull)));
      }
      var fullKey := FullKey(nameSpace, ops.getKey(s.get));
      if fullKey.Throw? {
        return Throw(fullKey.exc);
      }
      var ledgerKey := fullKey.value;
      var data := ops.serialize(s.get);
      if data.Throw? {
        return Throw(LedgerApi(SetFailure(ledgerKey), data.exc));
      }
      if data.value.Null? {
        return Throw(LedgerApi(SetFailure(ledgerKey), NullDeref));
      }
      var put := stub.PutState(ledgerKey, data.value);
      if put.Throw? {
        return Throw(LedgerApi(SetFailure(ledgerKey), put.exc));
      }
      return Return(());
    }

    method GetState(key: Nullable<string>) returns (r: Outcome<S>)
      ensures r == GetResult(nameSpace, construct, ops, stub.world, stub.fault, key)
    {
      var fullKey := FullKey(nameSpace, key);
      if fullKey.Throw? {
        return Throw(fullKey.exc);
      }
      var ledgerKey := fullKey.value;
      var tmp := construct.make();
      if tmp.Throw? {
        return Throw(Rethrow(GetFailure(ledgerKey), tmp.exc));
      }
      var data := stub.GetState(ledgerKey);
      if data.Throw? {
        return Throw(Rethrow(GetFailure(ledgerKey), data.exc));
      }
      if data.value.Null? {
        return Throw(Rethrow(GetFailure(ledgerKey), NullDeref));
      }
      if |data.value.get| == 0 {
        return Throw(LedgerApiNoData(NoDataMessage(ledgerKey)));
      }
      var parsed := ops.parse(tmp.value, data.value.get);
      if parsed.Throw? {
        return Throw(Rethrow(GetFailure(ledgerKey), parsed.exc));
      }
      return parsed;
    }
  }
}
