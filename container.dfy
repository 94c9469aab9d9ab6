/**
 * Nette\DI\Container: the registry of shared services, their metadata and
 * the circular-reference detector, as a class whose methods update those
 * fields in place. `getService` is proved to follow ServiceResolution.Resolve.
 */
module Container {
  import opened Wrappers
  import opened PhpValues
  import opened ServiceNaming
  import opened ServiceResolution

  /** An entry of the type index: the one service of that type, or FALSE when there are several. */
  datatype TypeEntry = Owner(service: string) | Ambiguous

  /** Container::TAGS, the metadata key holding a service's tags. */
  const Tags: string := "tags"

  /** ltrim($s, '\\'). */
  function TrimBackslashes(s: string): (r: string)
    ensures |r| <= |s| && r == s[|s| - |r|..]
    ensures forall j :: 0 <= j < |s| - |r| ==> s[j] == '\\'
    ensures r == [] || r[0] != '\\'
  {
    if s != [] && s[0] == '\\' then TrimBackslashes(s[1..]) else s
  }

  /** The type-index key for a class name: lower-cased, leading backslashes stripped. */
  function NormalizeType(t: string): (r: string)
    ensures r == [] || r[0] != '\\'
    ensures forall i :: 0 <= i < |r| ==> !IsUpperLetter(r[i])
  {
    LowerIsLower(t);
    TrimBackslashes(Lower(t))
  }

  /** Stripping leading backslashes from a string without upper-case letters keeps it so, and is idempotent. */
  lemma TrimLowered(l: string)
    requires Lower(l) == l
    ensures Lower(TrimBackslashes(l)) == TrimBackslashes(l)
    ensures TrimBackslashes(TrimBackslashes(l)) == TrimBackslashes(l)
  {
    var r := TrimBackslashes(l);
    assert r == l[|l| - |r|..];
    forall i | 0 <= i < |r| ensures LowerChar(r[i]) == r[i] {
      assert r[i] == l[|l| - |r| + i] == Lower(l)[|l| - |r| + i];
    }
  }

  lemma LowerQualified(t: string)
    ensures Lower("\\" + t) == "\\" + Lower(t)
  {
    var q := "\\" + t;
    assert forall i :: 0 <= i < |t| ==> q[i + 1] == t[i];
  }

  lemma LowerFixedHasNoUpper(r: string)
    requires Lower(r) == r
    ensures forall i :: 0 <= i < |r| ==> !IsUpperLetter(r[i])
  {
    forall i | 0 <= i < |r| ensures !IsUpperLetter(r[i]) {
      assert r[i] == Lower(r)[i] == LowerChar(r[i]);
    }
  }

  /**
   * A class name and its lower-cased or fully qualified (`\`-prefixed)
   * spellings reach the same index entry, and a key is its own key.
   */
  lemma NormalizeTypeSpellings(t: string)
    ensures NormalizeType(Lower(t)) == NormalizeType(t)
    ensures NormalizeType("\\" + t) == NormalizeType(t)
    ensures NormalizeType(NormalizeType(t)) == NormalizeType(t)
    ensures forall i :: 0 <= i < |NormalizeType(t)| ==> !IsUpperLetter(NormalizeType(t)[i])
  {
    LowerIsLower(t);
    var l := Lower(t);
    LowerQualified(t);
    assert ("\\" + l)[1..] == l;
    assert TrimBackslashes("\\" + l) == TrimBackslashes(l);
    TrimLowered(l);
    LowerFixedHasNoUpper(TrimBackslashes(l));
  }

  /** `$meta[TAGS][$tag]` when that is set (present and not NULL). */
  function TagValue(meta: Value, tag: string): (r: Option<Value>)
    ensures !meta.Arr? ==> r == None
    ensures r.Some? ==> !r.value.Null?
  {
    if meta.Arr? && Get(meta.entries, Tags).Some? && Get(meta.entries, Tags).value.Arr?
       && IsSet(Get(meta.entries, Tags).value.entries, tag)
    then Get(Get(meta.entries, Tags).value.entries, tag)
    else None
  }

  /**
   * The metadata entries after `$meta[TAGS][$tag] = $v`: a missing or NULL
   * tags slot becomes a new array, an array tags slot is assigned in place.
   */
  function WriteTag(entries: seq<Entry>, tag: string, v: Value): seq<Entry> {
    var slot := Get(entries, Tags);
    var tags := if slot.Some? && slot.value.Arr? then slot.value.entries else [];
    Put(entries, Tags, Arr(Put(tags, tag, v)))
  }

  /** The tags slot is absent, NULL or an array, so `$meta[TAGS][$tag] = $v` is an array write. */
  predicate TagsWritable(entries: seq<Entry>) {
    var slot := Get(entries, Tags);
    slot.None? || slot.value.Null? || slot.value.Arr?
  }

  /** Reading a tag back after writing it: the value written, unless it is NULL, which isset treats as absent. */
  lemma TagValueWrite(entries: seq<Entry>, tag: string, v: Value)
    requires TagsWritable(entries)
    ensures TagValue(Arr(WriteTag(entries, tag, v)), tag) == if v.Null? then None else Some(v)
  {
    var slot := Get(entries, Tags);
    var tags := if slot.Some? && slot.value.Arr? then slot.value.entries else [];
    GetPut(entries, Tags, Arr(Put(tags, tag, v)), Tags);
    GetPut(tags, tag, v, tag);
  }

  /** Writing one tag leaves every other tag's value as it was. */
  lemma TagValueWriteOther(entries: seq<Entry>, tag: string, v: Value, other: string)
    requires TagsWritable(entries) && other != tag
    ensures TagValue(Arr(WriteTag(entries, tag, v)), other) == TagValue(Arr(entries), other)
  {
    var slot := Get(entries, Tags);
    var tags := if slot.Some? && slot.value.Arr? then slot.value.entries else [];
    GetPut(entries, Tags, Arr(Put(tags, tag, v)), Tags);
    GetPut(tags, tag, v, other);
  }

  /** Writing another metadata key leaves every tag's value as it was. */
  lemma TagValueOtherKey(entries: seq<Entry>, k: string, w: Value, tag: string)
    requires k != Tags
    ensures TagValue(Arr(Put(entries, k, w)), tag) == TagValue(Arr(entries), tag)
  {
    GetPut(entries, k, w, Tags);
  }

  /** The services carrying `tag`, each with its tag value, in metadata order. */
  function Tagged(meta: seq<Entry>, tag: string): seq<Entry> {
    if meta == [] then []
    else
      var rest := Tagged(meta[1..], tag);
      match TagValue(meta[0].val, tag)
      case Some(v) => [Entry(meta[0].key, v)] + rest
      case None => rest
  }

  lemma {:induction false} TaggedKeys(meta: seq<Entry>, tag: string, n: string)
    ensures n in Keys(Tagged(meta, tag)) ==> n in Keys(meta)
  {
    if meta != [] {
      TaggedKeys(meta[1..], tag, n);
    }
  }

  lemma {:induction false} TaggedAppend(meta: seq<Entry>, e: Entry, tag: string)
    requires e.key !in Keys(meta)
    ensures Tagged(meta + [e], tag) ==
      match TagValue(e.val, tag)
      case Some(v) => Tagged(meta, tag) + [Entry(e.key, v)]
      case None => Tagged(meta, tag)
  {
    if meta == [] {
      assert [e][1..] == [];
    } else {
      assert (meta + [e])[1..] == meta[1..] + [e];
      TaggedAppend(meta[1..], e, tag);
    }
  }

  /**
   * findByTag returns exactly the services whose metadata sets the tag,
   * each mapped to that tag's value.
   */
  lemma {:induction false} TaggedMembers(meta: seq<Entry>, tag: string, n: string)
    requires DistinctKeys(meta)
    ensures Get(Tagged(meta, tag), n) ==
      if Get(meta, n).Some? then TagValue(Get(meta, n).value, tag) else None
  {
    if meta != [] {
      TaggedMembers(meta[1..], tag, n);
      if meta[0].key == n {
        assert n !in Keys(meta[1..]);
        TaggedKeys(meta[1..], tag, n);
      }
    }
  }

  /**
   * One iteration of findByTag: with distinct keys, the next service's
   * slot is new, so assigning it appends.
   */
  lemma TaggedPrefixNext(meta: seq<Entry>, i: nat, tag: string)
    requires DistinctKeys(meta) && i < |meta|
    ensures Tagged(meta[..i + 1], tag) ==
      match TagValue(meta[i].val, tag)
      case Some(v) => Put(Tagged(meta[..i], tag), meta[i].key, v)
      case None => Tagged(meta[..i], tag)
  {
    var e := meta[i];
    var before := meta[..i];
    assert forall j :: 0 <= j < |before| ==> Keys(before)[j] == meta[j].key;
    assert e.key !in Keys(before);
    assert meta[..i + 1] == before + [e];
    TaggedAppend(before, e, tag);
    TaggedKeys(before, tag, e.key);
    if TagValue(e.val, tag).Some? {
      PutNewKey(Tagged(before, tag), e.key, TagValue(e.val, tag).value);
    }
  }

  class Container {
    /** User parameters merged over the class's declared defaults. */
    const parameters: seq<Entry>
    /** The type index: lower-cased class name to its service. */
    const classes: map<string, TypeEntry>
    /** The factory methods the container class declares itself. */
    const factories: FactoryTable
    /** Shared service instances by name. */
    var registry: Registry
    /** Per-service metadata, in insertion order. */
    var meta: seq<Entry>
    /** The services under construction, in the order their creation began. */
    var creating: seq<string>

    ghost predicate Valid()
      reads this
    {
      HoldsObjects(registry) && DistinctKeys(meta) && Distinct(creating)
    }

    /**
     * `$this->parameters = $params + $this->parameters`: the caller's
     * parameters win over the declared `defaults`.
     */
    constructor (params: seq<Entry>, defaults: seq<Entry>, classes: map<string, TypeEntry>,
                 factories: FactoryTable, meta: seq<Entry>)
      requires DistinctKeys(meta)
      ensures Valid()
      ensures parameters == Union(params, defaults)
      ensures this.classes == classes && this.factories == factories
      ensures registry == map[] && this.meta == meta && creating == []
    {
      parameters := Union(params, defaults);
      this.classes := classes;
      this.factories := factories;
      registry := map[];
      this.meta := meta;
      creating := [];
    }

    /**
     * addService: rejects a non-string or falsy name ("" and "0"), a name
     * already registered, and a non-object; otherwise stores the instance
     * and its metadata and changes nothing else.
     */
    method AddService(name: Value, service: Value, serviceMeta: Value) returns (r: Outcome<Error>)
      requires Valid()
      requires !service.Str?
      requires serviceMeta.Null? || serviceMeta.Arr?
      modifies this`registry, this`meta
      ensures Valid()
      ensures !name.Str? || FalsyString(name.s) ==> r == Fail(InvalidName(TypeName(name)))
      ensures name.Str? && !FalsyString(name.s) && name.s in old(registry) ==> r == Fail(DuplicateService(name.s))
      ensures name.Str? && !FalsyString(name.s) && name.s !in old(registry) && !service.Obj? ==>
        r == Fail(NotAnObject(TypeName(service)))
      ensures r.Pass? <==> name.Str? && !FalsyString(name.s) && name.s !in old(registry) && service.Obj?
      ensures r.Fail? ==> registry == old(registry) && meta == old(meta)
      ensures r.Fail? && r.error.InvalidName? ==>
        r.error.Message() == "Service name must be a non-empty string, " + TypeName(name) + " given."
      ensures r.Fail? && r.error.DuplicateService? ==> r.error.Message() == "Service '" + name.s + "' already exists."
      ensures r.Fail? && r.error.NotAnObject? ==>
        r.error.Message() == "Service must be a object, " + TypeName(service) + " given."
      ensures r.Pass? ==> registry == old(registry)[name.s := service] && meta == Put(old(meta), name.s, serviceMeta)
    {
      if !name.Str? || FalsyString(name.s) {
        return Fail(InvalidName(TypeName(name)));
      } else if name.s in registry {
        return Fail(DuplicateService(name.s));
      }
      if !service.Obj? {
        return Fail(NotAnObject(TypeName(service)));
      }
      PutKeepsDistinct(meta, name.s, serviceMeta);
      registry := registry[name.s := service];
      meta := Put(meta, name.s, serviceMeta);
      return Pass;
    }

    /** removeService: forgets the instance and the metadata of `name`, if any. */
    method RemoveService(name: string)
      requires Valid()
      modifies this`registry, this`meta
      ensures Valid()
      ensures registry == old(registry) - {name}
      ensures meta == Remove(old(meta), name)
      ensures forall n :: n != name ==> Get(meta, n) == Get(old(meta), n)
      ensures name !in Keys(meta)
    {
      RemoveKeepsDistinct(meta, name);
      forall n | n != name ensures Get(Remove(meta, name), n) == Get(meta, n) {
        GetRemove(meta, name, n);
      }
      GetRemove(meta, name, name);
      registry := registry - {name};
      meta := Remove(meta, name);
    }

    /**
     * getService: behaves as Resolve says, and the creation chain is the
     * same after the call as before it, whether the call succeeded or threw.
     */
    method GetService(name: string) returns (r: Result<Value, Error>)
      requires Valid()
      modifies this`registry, this`creating
      ensures Valid()
      ensures creating == old(creating)
      ensures Step(r, registry) == Resolve(factories, old(registry), old(creating), name)
      decreases Pending(factories, creating, {name}), 0
    {
      if name in registry {
        return Ok(registry[name]);
      } else if name in creating {
        return Err(CircularReference(creating));
      }
      var m := MethodName(name, true);
      if m !in factories {
        return Err(ServiceNotFound(name));
      }
      PendingShrinks(factories, creating, name);
      UnsetAppended(creating, name);
      creating := creating + [name];
      var made := Invoke(m);
      if made.Err? {
        creating := Unset(creating, name);
        return made;
      }
      creating := Unset(creating, name);
      if !made.value.Obj? {
        return Err(NotObjectReturned(name, m));
      }
      registry := registry[name := made.value];
      return made;
    }

    /** `$this->$method()`: runs the factory's requests in order, then its own result. */
    method Invoke(m: string) returns (r: Result<Value, Error>)
      requires Valid() && m in factories
      modifies this`registry, this`creating
      ensures Valid()
      ensures creating == old(creating)
      ensures Step(r, registry) == Call(factories, old(registry), old(creating), m, 0)
      decreases Pending(factories, creating, {}), 1
    {
      var requests := factories[m].requests;
      var i := 0;
      while i < |requests|
        invariant 0 <= i <= |requests|
        invariant Valid() && creating == old(creating)
        invariant Call(factories, old(registry), creating, m, 0) == Call(factories, registry, creating, m, i)
      {
        RequestIsPending(factories, creating, m, i);
        var got := GetService(requests[i]);
        if got.Err? {
          return got;
        }
        i := i + 1;
      }
      match factories[m].result
      case Returns(v) => r := Ok(v);
      case Throws(c) => r := Err(Raised(c));
    }

    /** hasService: cached, or the container declares a factory with exactly the derived name. */
    predicate HasService(name: string)
      reads this
      ensures name !in creating ==>
        (HasService(name) <==> Resolve(factories, registry, creating, name).result != Err(ServiceNotFound(name)))
    {
      NotFoundIff(factories, registry, creating, name);
      Provides(factories, registry, name)
    }

    /**
     * isCreated: not-found when there is no such service; otherwise whether
     * a getService call would be served from the cache (true) or would run
     * the factory (false).
     */
    function IsCreated(name: string): (r: Result<bool, Error>)
      reads this
      ensures r.Err? <==> !HasService(name)
      ensures r.Err? ==> r.error == ServiceNotFound(name)
      ensures r == Ok(true) ==>
        name in registry && Resolve(factories, registry, creating, name) == Step(Ok(registry[name]), registry)
      ensures r == Ok(false) ==> name !in registry && MethodName(name, true) in factories
      ensures r == Ok(false) && name !in creating ==>
        Resolve(factories, registry, creating, name) == Create(factories, registry, creating, name)
    {
      if !HasService(name) then Err(ServiceNotFound(name)) else Ok(name in registry)
    }

    /**
     * getByType: an unknown type is an error only when `need` is set; an
     * ambiguous type is always an error; otherwise the owning service is
     * resolved by name.
     */
    method GetByType(typeName: string, need: bool) returns (r: Result<Option<Value>, Error>)
      requires Valid()
      modifies this`registry, this`creating
      ensures Valid()
      ensures creating == old(creating)
      ensures NormalizeType(typeName) !in classes ==>
        registry == old(registry) && r == if need then Err(TypeNotFound(typeName)) else Ok(None)
      ensures NormalizeType(typeName) !in classes && need ==>
        r.Err? && r.error.Message() == "Service of type " + typeName + " not found."
      ensures NormalizeType(typeName) in classes && classes[NormalizeType(typeName)].Ambiguous? ==>
        registry == old(registry) && r == Err(MultipleOfType(typeName))
      ensures NormalizeType(typeName) in classes && classes[NormalizeType(typeName)].Ambiguous? ==>
        r.Err? && r.error.Message() == "Multiple services of type " + typeName + " found."
      ensures NormalizeType(typeName) in classes && classes[NormalizeType(typeName)].Owner? ==>
        var s := Resolve(factories, old(registry), old(creating), classes[NormalizeType(typeName)].service);
        registry == s.registry && r == if s.result.Ok? then Ok(Some(s.result.value)) else Err(s.result.error)
    {
      var lower := NormalizeType(typeName);
      if lower !in classes {
        if need {
          return Err(TypeNotFound(typeName));
        }
        return Ok(None);
      } else if classes[lower].Ambiguous? {
        return Err(MultipleOfType(typeName));
      }
      var got := GetService(classes[lower].service);
      if got.Err? {
        return Err(got.error);
      }
      return Ok(Some(got.value));
    }

    /** findByTag: the services whose metadata sets `tag`, with the tag's value, in metadata order. */
    method FindByTag(tag: string) returns (found: seq<Entry>)
      requires Valid()
      ensures found == Tagged(meta, tag)
    {
      found := [];
      var i := 0;
      while i < |meta|
        invariant 0 <= i <= |meta|
        invariant found == Tagged(meta[..i], tag)
      {
        var e := meta[i];
        TaggedPrefixNext(meta, i, tag);
        var t := TagValue(e.val, tag);
        if t.Some? {
          found := Put(found, e.key, t.value);
        }
        i := i + 1;
      }
      assert meta[..i] == meta;
    }
  }
}
