/**
 * The service-resolution state machine of Nette\DI\Container, as pure
 * functions over the registry and the set of services under construction.
 *
 * A factory method `createService…()` is abstracted as a script: the
 * services it asks the container for, in order, and then what it does
 * itself (return a value or throw). The container class in container.dfy is
 * proved to behave exactly as `Resolve` says.
 */
module ServiceResolution {
  import opened Wrappers
  import opened PhpValues
  import opened ServiceNaming

  /** The exceptions the container throws, by cause. */
  datatype Error =
    | InvalidName(given: string)                       // InvalidArgumentException
    | DuplicateService(name: string)                   // InvalidStateException
    | NotAnObject(given: string)                       // InvalidArgumentException
    | CircularReference(chain: seq<string>)            // InvalidStateException
    | NotObjectReturned(name: string, factory: string)  // UnexpectedValueException
    | ServiceNotFound(name: string)                    // MissingServiceException
    | TypeNotFound(typeName: string)                   // MissingServiceException
    | MultipleOfType(typeName: string)                 // MissingServiceException
    | Raised(code: nat)                                // whatever a factory throws itself
  {
    /** The message the source attaches to the exception. */
    function Message(): string {
      match this
      case InvalidName(t) => "Service name must be a non-empty string, " + t + " given."
      case DuplicateService(n) => "Service '" + n + "' already exists."
      case NotAnObject(t) => "Service must be a object, " + t + " given."
      case CircularReference(c) => "Circular reference detected for services: " + Implode(c, ", ") + "."
      case NotObjectReturned(n, m) =>
        "Unable to create service '" + n + "', value returned by method " + m + "() is not object."
      case ServiceNotFound(n) => "Service '" + n + "' not found."
      case TypeNotFound(c) => "Service of type " + c + " not found."
      case MultipleOfType(c) => "Multiple services of type " + c + " found."
      case Raised(_) => ""
    }
  }

  /** What a factory method does once its requests have been served. */
  datatype FactoryResult = Returns(value: Value) | Throws(code: nat)

  /** A factory method: the services it requests, in order, then its result. */
  datatype Factory = Factory(requests: seq<string>, result: FactoryResult)

  /** The container's own factory methods, by exact (case-sensitive) name. */
  type FactoryTable = map<string, Factory>

  /** Cached service instances by name. */
  type Registry = map<string, Value>

  /** A call's result together with the registry it leaves behind. */
  datatype Step = Step(result: Result<Value, Error>, registry: Registry)

  predicate HoldsObjects(reg: Registry) {
    forall n :: n in reg ==> reg[n].Obj?
  }

  /** Every entry of `reg` is still in `reg'`, unchanged. */
  predicate Extends(reg: Registry, reg': Registry) {
    forall n :: n in reg ==> n in reg' && reg'[n] == reg[n]
  }

  function Elems(s: seq<string>): set<string> {
    set x | x in s
  }

  predicate Distinct(s: seq<string>) {
    forall i, j :: 0 <= i < j < |s| ==> s[i] != s[j]
  }

  /** `unset($creating[$name])`. */
  function Unset(s: seq<string>, x: string): (r: seq<string>)
    ensures x !in r
    ensures forall y :: y in r <==> y in s && y != x
  {
    if s == [] then []
    else (if s[0] == x then [] else [s[0]]) + Unset(s[1..], x)
  }

  lemma {:induction false} UnsetAppended(s: seq<string>, x: string)
    requires x !in s
    ensures Unset(s + [x], x) == s
  {
    if s != [] {
      assert (s + [x])[1..] == s[1..] + [x];
      UnsetAppended(s[1..], x);
    } else {
      assert [x][1..] == [];
    }
  }

  /** `hasService`: the name is cached or the container declares its factory. */
  predicate Provides(f: FactoryTable, reg: Registry, name: string) {
    name in reg || MethodName(name, true) in f
  }

  /** Every service name some factory requests. */
  ghost function Requested(f: FactoryTable): set<string> {
    set m, i | m in f && 0 <= i < |f[m].requests| :: f[m].requests[i]
  }

  /**
   * The names that may still enter the creation chain. It shrinks with each
   * nested creation, which is why resolution terminates.
   */
  ghost function Pending(f: FactoryTable, creating: seq<string>, extra: set<string>): nat {
    |(Requested(f) + extra) - Elems(creating)|
  }

  lemma PendingShrinks(f: FactoryTable, creating: seq<string>, name: string)
    requires name !in creating
    ensures Pending(f, creating + [name], {}) < Pending(f, creating, {name})
  {
    assert Elems(creating + [name]) == Elems(creating) + {name};
    RemovingOneMore(Requested(f), Elems(creating), name);
  }

  /** Moving a name from the remaining names to the removed ones leaves fewer remaining. */
  lemma RemovingOneMore(r: set<string>, e: set<string>, name: string)
    requires name !in e
    ensures |r - (e + {name})| < |(r + {name}) - e|
  {
    var before := (r + {name}) - e;
    assert r - (e + {name}) == before - {name};
  }

  lemma RequestIsPending(f: FactoryTable, creating: seq<string>, m: string, i: nat)
    requires m in f && i < |f[m].requests|
    ensures Pending(f, creating, {f[m].requests[i]}) == Pending(f, creating, {})
  {
    assert f[m].requests[i] in Requested(f);
    assert Requested(f) + {f[m].requests[i]} == Requested(f) + {};
  }

  /**
   * `getService($name)`: the cached instance, a circular-reference error
   * naming the whole creation chain in order, creation by the factory, or
   * a missing-service error.
   */
  function Resolve(f: FactoryTable, reg: Registry, creating: seq<string>, name: string): (s: Step)
    ensures Extends(reg, s.registry)
    ensures HoldsObjects(reg) ==> HoldsObjects(s.registry)
    ensures s.result.Ok? ==> name in s.registry && s.registry[name] == s.result.value
    ensures HoldsObjects(reg) && s.result.Ok? ==> s.result.value.Obj?
    decreases Pending(f, creating, {name}), 2, 0
  {
    if name in reg then Step(Ok(reg[name]), reg)
    else if name in creating then Step(Err(CircularReference(creating)), reg)
    else if MethodName(name, true) in f then Create(f, reg, creating, name)
    else Step(Err(ServiceNotFound(name)), reg)
  }

  /**
   * Creation by the factory: the name joins the chain while the factory
   * runs; a failure propagates unchanged; a non-object result is refused;
   * an object is cached.
   */
  function Create(f: FactoryTable, reg: Registry, creating: seq<string>, name: string): (s: Step)
    requires name !in reg && name !in creating && MethodName(name, true) in f
    ensures Extends(reg, s.registry)
    ensures HoldsObjects(reg) ==> HoldsObjects(s.registry)
    ensures s.result.Ok? ==> s.result.value.Obj? && name in s.registry && s.registry[name] == s.result.value
    decreases Pending(f, creating, {name}), 1, 0
  {
    var m := MethodName(name, true);
    PendingShrinks(f, creating, name);
    var made := Call(f, reg, creating + [name], m, 0);
    if made.result.Err? then made
    else if !made.result.value.Obj? then Step(Err(NotObjectReturned(name, m)), made.registry)
    else Step(made.result, made.registry[name := made.result.value])
  }

  /** `$this->$method()`: the factory's requests from the `i`-th on, then its own result. */
  function Call(f: FactoryTable, reg: Registry, creating: seq<string>, m: string, i: nat): (s: Step)
    requires m in f && i <= |f[m].requests|
    ensures Extends(reg, s.registry)
    ensures HoldsObjects(reg) ==> HoldsObjects(s.registry)
    decreases Pending(f, creating, {}), 3, |f[m].requests| - i
  {
    if i == |f[m].requests| then
      match f[m].result
      case Returns(v) => Step(Ok(v), reg)
      case Throws(c) => Step(Err(Raised(c)), reg)
    else
      RequestIsPending(f, creating, m, i);
      var got := Resolve(f, reg, creating, f[m].requests[i]);
      if got.result.Err? then got else Call(f, got.registry, creating, m, i + 1)
  }

  // ---------------------------------------------------------------------
  // Properties of resolution
  // ---------------------------------------------------------------------

  /** Singleton: once a call succeeds, every later call returns the same instance from the cache. */
  lemma SecondCallHitsCache(f: FactoryTable, reg: Registry, creating: seq<string>, later: seq<string>, name: string)
    requires Resolve(f, reg, creating, name).result.Ok?
    ensures var s := Resolve(f, reg, creating, name);
      Resolve(f, s.registry, later, name) == Step(s.result, s.registry)
  {
  }

  /** A cached name is returned without running any factory and without changing the registry. */
  lemma CachedReturnsInstance(f: FactoryTable, reg: Registry, creating: seq<string>, name: string)
    requires name in reg
    ensures Resolve(f, reg, creating, name) == Step(Ok(reg[name]), reg)
  {
  }

  /** A name on the creation chain is never cached by anything resolved meanwhile. */
  lemma {:induction false} ResolveLeavesChainUncached(f: FactoryTable, reg: Registry, creating: seq<string>, name: string, x: string)
    requires x in creating && x !in reg
    ensures x !in Resolve(f, reg, creating, name).registry
    decreases Pending(f, creating, {name}), 2, 0
  {
    if name !in reg && name !in creating && MethodName(name, true) in f {
      CreateLeavesChainUncached(f, reg, creating, name, x);
    }
  }

  lemma {:induction false} CreateLeavesChainUncached(f: FactoryTable, reg: Registry, creating: seq<string>, name: string, x: string)
    requires name !in reg && name !in creating && MethodName(name, true) in f
    requires x in creating && x !in reg
    ensures x !in Create(f, reg, creating, name).registry
    decreases Pending(f, creating, {name}), 1, 0
  {
    PendingShrinks(f, creating, name);
    CreateCachesOnlyName(f, reg, creating, name);
    CallLeavesChainUncached(f, reg, creating + [name], MethodName(name, true), 0, x);
  }

  /** Creation caches nothing beyond what the factory's requests cached, except the name itself. */
  lemma CreateCachesOnlyName(f: FactoryTable, reg: Registry, creating: seq<string>, name: string)
    requires name !in reg && name !in creating && MethodName(name, true) in f
    ensures Create(f, reg, creating, name).registry.Keys
      <= Call(f, reg, creating + [name], MethodName(name, true), 0).registry.Keys + {name}
  {
  }

  lemma {:induction false} CallLeavesChainUncached(f: FactoryTable, reg: Registry, creating: seq<string>, m: string, i: nat, x: string)
    requires m in f && i <= |f[m].requests|
    requires x in creating && x !in reg
    ensures x !in Call(f, reg, creating, m, i).registry
    decreases Pending(f, creating, {}), 3, |f[m].requests| - i
  {
    if i < |f[m].requests| {
      RequestIsPending(f, creating, m, i);
      ResolveLeavesChainUncached(f, reg, creating, f[m].requests[i], x);
      var got := Resolve(f, reg, creating, f[m].requests[i]);
      if got.result.Ok? {
        CallLeavesChainUncached(f, got.registry, creating, m, i + 1, x);
      }
    }
  }

  /**
   * A failed creation caches nothing under the name (whatever else the
   * factory's requests created stays cached), so the next call runs the
   * factory again instead of replaying the failure.
   */
  lemma {:induction false} FailureIsRetried(f: FactoryTable, reg: Registry, creating: seq<string>, name: string)
    requires name !in reg && name !in creating && MethodName(name, true) in f
    requires Resolve(f, reg, creating, name).result.Err?
    ensures var s := Resolve(f, reg, creating, name);
      name !in s.registry && Resolve(f, s.registry, creating, name) == Create(f, s.registry, creating, name)
  {
    PendingShrinks(f, creating, name);
    CallLeavesChainUncached(f, reg, creating + [name], MethodName(name, true), 0, name);
  }

  /** A factory that returns a non-object makes the call fail with UnexpectedValue and caches nothing. */
  lemma {:induction false} NonObjectIsRefused(f: FactoryTable, reg: Registry, creating: seq<string>, name: string)
    requires name !in reg && name !in creating && MethodName(name, true) in f
    requires var made := Call(f, reg, creating + [name], MethodName(name, true), 0);
      made.result.Ok? && !made.result.value.Obj?
    ensures var s := Resolve(f, reg, creating, name);
      s.result == Err(NotObjectReturned(name, MethodName(name, true))) && name !in s.registry
    ensures Resolve(f, reg, creating, name).result.error.Message() ==
      "Unable to create service '" + name + "', value returned by method " + MethodName(name, true) + "() is not object."
  {
    CallLeavesChainUncached(f, reg, creating + [name], MethodName(name, true), 0, name);
  }

  /** A service-not-found error raised inside resolution never names a service on the chain. */
  lemma {:induction false} NotFoundIsOffChain(f: FactoryTable, reg: Registry, creating: seq<string>, name: string, x: string)
    requires Resolve(f, reg, creating, name).result == Err(ServiceNotFound(x))
    ensures x !in creating
    ensures x == name ==> !Provides(f, reg, name)
    decreases Pending(f, creating, {name}), 2, 0
  {
    if name !in reg && name !in creating && MethodName(name, true) in f {
      PendingShrinks(f, creating, name);
      var made := Call(f, reg, creating + [name], MethodName(name, true), 0);
      assert made.result == Err(ServiceNotFound(x));
      CallNotFoundIsOffChain(f, reg, creating + [name], MethodName(name, true), 0, x);
    }
  }

  lemma {:induction false} CallNotFoundIsOffChain(f: FactoryTable, reg: Registry, creating: seq<string>, m: string, i: nat, x: string)
    requires m in f && i <= |f[m].requests|
    requires Call(f, reg, creating, m, i).result == Err(ServiceNotFound(x))
    ensures x !in creating
    decreases Pending(f, creating, {}), 3, |f[m].requests| - i
  {
    if i < |f[m].requests| {
      RequestIsPending(f, creating, m, i);
      var got := Resolve(f, reg, creating, f[m].requests[i]);
      if got.result.Err? {
        NotFoundIsOffChain(f, reg, creating, f[m].requests[i], x);
      } else {
        CallNotFoundIsOffChain(f, got.registry, creating, m, i + 1, x);
      }
    }
  }

  /**
   * `getService($name)` fails with "Service '$name' not found" exactly when
   * the name is neither cached nor creatable (and not already being created).
   */
  lemma {:induction false} NotFoundIff(f: FactoryTable, reg: Registry, creating: seq<string>, name: string)
    ensures Resolve(f, reg, creating, name).result == Err(ServiceNotFound(name))
        <==> !Provides(f, reg, name) && name !in creating
    ensures !Provides(f, reg, name) && name !in creating ==>
      Resolve(f, reg, creating, name).result.error.Message() == "Service '" + name + "' not found."
  {
    if Resolve(f, reg, creating, name).result == Err(ServiceNotFound(name)) {
      NotFoundIsOffChain(f, reg, creating, name, name);
    }
  }

  /**
   * Two services whose factories request each other: resolving `a` fails
   * naming the chain `a, b` in the order creation began, and neither is
   * cached. The message lists that chain.
   */
  lemma CycleIsDetected()
    ensures var f := map["createServiceA" := Factory(["b"], Returns(Obj(1))),
                         "createServiceB" := Factory(["a"], Returns(Obj(2)))];
      Resolve(f, map[], [], "a") == Step(Err(CircularReference(["a", "b"])), map[])
    ensures CircularReference(["a", "b"]).Message() == "Circular reference detected for services: a, b."
  {
    ChainMessage();
    var f := map["createServiceA" := Factory(["b"], Returns(Obj(1))),
                 "createServiceB" := Factory(["a"], Returns(Obj(2)))];
    var chain := Err(CircularReference(["a", "b"]));
    MethodNameShape("a", true);
    MethodNameShape("b", true);
    assert MethodName("a", true) == "createServiceA";
    assert MethodName("b", true) == "createServiceB";
    assert [] + ["a"] == ["a"] && ["a"] + ["b"] == ["a", "b"];
    assert Resolve(f, map[], ["a", "b"], "a") == Step(chain, map[]);
    assert Call(f, map[], ["a", "b"], "createServiceB", 0) == Step(chain, map[]);
    assert Create(f, map[], ["a"], "b") == Step(chain, map[]);
    assert Resolve(f, map[], ["a"], "b") == Step(chain, map[]);
    assert Call(f, map[], ["a"], "createServiceA", 0) == Step(chain, map[]);
    assert Create(f, map[], [], "a") == Step(chain, map[]);
  }

  lemma ChainMessage()
    ensures Implode(["a", "b"], ", ") == "a, b"
  {
    assert ["a", "b"][1..] == ["b"];
  }
}
