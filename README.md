# Nette DI container and method reflection, modelled in Dafny

This project models two parts of the Nette Framework.

1. The service container `Nette\DI\Container`:
   - the registry of shared service instances, their metadata, and the creation chain that detects circular references;
   - `addService`, `removeService`, `getService`, `hasService`, `isCreated`, `getByType` and `findByTag`;
   - the naming rule `getMethodName`, which links a service name to its factory method;
   - the parameter union done by the constructor.
2. The argument binding of `Nette\Reflection\MethodReflection`:
   - `getAllowedParametersTypes`, which reads `@param` annotations as lists of allowed types;
   - `getDefaultParameters`;
   - the loop of `invokeNamedArgs` that turns named arguments into a positional argument list, with its validation and conversions.

Files:

| file | module | contents |
|---|---|---|
| `wrappers.dfy` | `Wrappers` | `Option`, `Result` and `Outcome` |
| `php_values.dfy` | `PhpValues` | See below. |
| `service_naming.dfy` | `ServiceNaming` | `getMethodName`, with its decoder and its shape |
| `resolution.dfy` | `ServiceResolution` | `getService` as a function over the registry and the creation chain, plus its properties |
| `container.dfy` | `Container` | The class `Container`, whose methods update `registry`, `meta` and `creating` in place |
| `method_reflection.dfy` | `MethodReflection` | Annotation types, default parameters, and named-argument binding |

`PhpValues` holds the PHP values the core handles:
- ordered arrays as a sequence of key/value slots (PHP assignment order, `+` union, `unset`);
- `gettype`, `explode` and `implode`;
- ASCII lower- and upper-casing;
- decimal integers and the test `(string)(int)$s === $s`.

Factory methods are modelled as a table keyed by exact method name, because the container looks them up with a case-sensitive name check. Each entry holds a `Factory`: the service names the method requests, in order, then its outcome. The outcome is an object, a non-object, or an exception the factory throws itself.

`getService` is specified by the function `ServiceResolution.Resolve`. It terminates because the set of names that can still join the creation chain shrinks with every nested creation. `Container.Container.GetService` is the imperative method, proved equal to `Resolve`.

## Model

| member | source | states |
|---|---|---|
| `PhpValues.GetUnion` | Nette/DI/Container.php:46 | `$params + $this->parameters`: a key the caller passes keeps the caller's value. Any other key takes the declared default. |
| `Container.Container.constructor` | Nette/DI/Container.php:44-47 | The parameters are the union of the caller's parameters over the defaults. The container starts with no cached service and an empty creation chain. |
| `Container.Container.AddService` | Nette/DI/Container.php:68-88 | Rejects a non-string or falsy name (`""` and `"0"`) with the name's gettype. Rejects a name already cached, then a non-object. Every failure leaves registry and metadata unchanged. It succeeds exactly when none of these apply, and then sets `registry[name]` and `meta[name]` and nothing else. Each failure carries the source's message text. |
| `Container.Container.RemoveService` | Nette/DI/Container.php:97-100 | Removes the name from the registry and the metadata. Every other name keeps its metadata, in order, and an absent name changes nothing. |
| `Container.Container.GetService` | Nette/DI/Container.php:109-135 | Result and new registry are those of `Resolve`. The creation chain after the call equals the chain before it, whether the call returned or threw. |
| `Container.Container.Invoke` | Nette/DI/Container.php:121 | Running a factory serves its requests in order; the first failure propagates. The result equals `Call`, and the creation chain is restored. |
| `ServiceResolution.Resolve` | Nette/DI/Container.php:109-135 | Resolution only adds entries to the registry and keeps it holding objects. A successful result is the instance cached under the name. |
| `ServiceResolution.Create` | Nette/DI/Container.php:118-130 | Creation by the factory returns only objects, and caches each one it returns under the name. |
| `ServiceResolution.Call` | Nette/DI/Container.php:121 | A factory's nested requests only add registry entries, all of them objects. |
| `ServiceResolution.Unset` | Nette/DI/Container.php:123-126 | `unset($this->creating[$name])` removes exactly that name. |
| `ServiceResolution.UnsetAppended` | Nette/DI/Container.php:119-126 | Removing the name just appended gives back the chain as it was. |
| `ServiceResolution.CachedReturnsInstance` | Nette/DI/Container.php:111-112 | A cached name returns its instance, with no factory run and the registry unchanged. |
| `ServiceResolution.SecondCallHitsCache` | Nette/DI/Container.php:111-130 | After one successful call, every later call returns the same instance from the cache, whatever the creation chain. |
| `ServiceResolution.ResolveLeavesChainUncached` | Nette/DI/Container.php:114-126 | A service still on the creation chain is never cached by a nested resolution. |
| `ServiceResolution.CreateLeavesChainUncached` | Nette/DI/Container.php:118-130 | The same for the creation of a service by its factory. |
| `ServiceResolution.CallLeavesChainUncached` | Nette/DI/Container.php:114-126 | The same for a factory's nested requests. |
| `ServiceResolution.FailureIsRetried` | Nette/DI/Container.php:119-126 | A failed creation caches nothing under the name, so the next call runs the factory again. |
| `ServiceResolution.NonObjectIsRefused` | Nette/DI/Container.php:127-128 | A factory that returns a non-object makes the call fail with the "not object" error naming the method. Nothing is cached under the name. The message is `Unable to create service '<name>', value returned by method <method>() is not object.` |
| `ServiceResolution.NotFoundIsOffChain` | Nette/DI/Container.php:111-133 | A not-found error never names a service on the creation chain. A not-found error for the requested name means the name is neither cached nor has a factory. |
| `ServiceResolution.CallNotFoundIsOffChain` | Nette/DI/Container.php:111-133 | The same for a factory's nested requests. |
| `ServiceResolution.NotFoundIff` | Nette/DI/Container.php:111-133 | "Service not found" for the requested name happens exactly when the name is neither cached nor creatable, and not being created. The message is then `Service '<name>' not found.` |
| `ServiceResolution.CycleIsDetected` | Nette/DI/Container.php:114-116 | Take two factories that request each other. Resolving `a` fails with the circular-reference error listing `a, b` in order, and nothing is cached. Its message is `Circular reference detected for services: a, b.` |
| `ServiceResolution.PendingShrinks` | Nette/DI/Container.php:119-121 | Adding a name to the creation chain shrinks the set of names that can still join it, so recursion ends. |
| `Container.Container.HasService` | Nette/DI/Container.php:144-148 | True when the name is cached or a factory has exactly the name `getMethodName(name)`; it reads the state and changes nothing. For a name not being created, it is false exactly when `getService` fails with "service not found" for that name. |
| `Container.Container.IsCreated` | Nette/DI/Container.php:144-163 | Fails with not-found exactly when `hasService` is false. `true` means the name is cached and `getService` serves it from the cache. `false` means a factory exists; when the name is not being created, `getService` would run it. |
| `Container.TrimBackslashes` | Nette/DI/Container.php:176 | `ltrim($s, '\\')` removes exactly the leading backslashes. |
| `Container.NormalizeType` | Nette/DI/Container.php:176 | `ltrim(strtolower($class), '\\')`: the index key has no upper-case letter and does not start with a backslash. |
| `Container.NormalizeTypeSpellings` | Nette/DI/Container.php:176-177 | Upper-case, lower-case and `\`-prefixed spellings of a class name reach the same index key. The key is lower-case and normalising it again does not change it. |
| `Container.Container.GetByType` | Nette/DI/Container.php:174-186 | Unknown type: not-found when `need` is set, otherwise NULL with nothing changed. Ambiguous type: "multiple services" whatever `need` is. Otherwise the result is `getService` of the owning service. The two errors carry the source's message texts. |
| `Container.TagValue` | Nette/DI/Container.php:199-200 | `isset($meta[TAGS][$tag])`: metadata that is not an array carries no tag, and a tag value found is never NULL. |
| `Container.TagValueWrite` | Nette/DI/Container.php:199-200 | After `$meta[TAGS][$tag] = $v` (the tags slot absent, NULL or an array), the tag reads back as `v`, or as absent when `v` is NULL. |
| `Container.TagValueWriteOther` | Nette/DI/Container.php:199-200 | Writing one tag leaves every other tag's value as it was. |
| `Container.TagValueOtherKey` | Nette/DI/Container.php:199-200 | Writing a metadata key other than `tags` leaves every tag's value as it was. |
| `Container.Container.FindByTag` | Nette/DI/Container.php:195-204 | The result is the services whose metadata sets the tag, each with the tag's value, in metadata order. |
| `Container.TaggedMembers` | Nette/DI/Container.php:197-203 | A name is in the result exactly when its metadata sets the tag, and it maps to that tag's value. |
| `Container.TaggedAppend` | Nette/DI/Container.php:198-201 | One more metadata entry adds its name at the end of the result exactly when it carries the tag. |
| `ServiceNaming.MethodName` | Nette/DI/Container.php:335-339 | The method name starts with `createService` or `create` and contains no dot. |
| `ServiceNaming.MethodNameShape` | Nette/DI/Container.php:335-339 | A name starting with a lower-case letter gets that letter upper-cased after the prefix. Any other name gets `__` after the prefix. In both cases every dot is written `__`. |
| `ServiceNaming.MethodNameRoundTrip` | Nette/DI/Container.php:335-339 | For a name without `_`, the method name can be decoded back to the service name. |
| `ServiceNaming.MethodNameInjective` | Nette/DI/Container.php:335-339 | Two names without `_` never share a factory method. |
| `ServiceNaming.MethodNameCollision` | Nette/DI/Container.php:335-339 | A dot and a double underscore in the same place give the same method name (`a.b` and `a__b` share a factory), so the rule is not injective when names may contain `_`. |
| `ServiceNaming.ReplaceDotsDotUnderscore` | Nette/DI/Container.php:338 | `str_replace('.', '__', ...)` writes a dot and a double underscore the same way. |
| `ServiceNaming.MethodNameExampleLower` | Nette/DI/Container.php:335-339 | `foo` gives `createServiceFoo`, or `createFoo` when `isService` is false. |
| `ServiceNaming.MethodNameExampleUpper` | Nette/DI/Container.php:335-339 | `Foo` gives `createService__Foo`. |
| `ServiceNaming.MethodNameExampleDotted` | Nette/DI/Container.php:335-339 | `foo.bar` gives `createServiceFoo__bar`. |
| `MethodReflection.FirstWord` | Nette/Reflection/MethodReflection.php:254 | The result is the longest space-free prefix of the annotation. |
| `MethodReflection.GetAllowedParametersTypes` | Nette/Reflection/MethodReflection.php:247-285 | One entry per `@param` annotation, in order; none without annotations. Each entry is the annotation's allowed types. |
| `MethodReflection.AlternativeFacts` | Nette/Reflection/MethodReflection.php:254-255 | Each alternative between bar characters in an annotation is lower-case and contains no bar character or space. |
| `MethodReflection.CanonicalTypeNameFacts` | Nette/Reflection/MethodReflection.php:257-269 | The result is never `int`, `bool` or `float`: it is `integer`, `boolean`, `double` or the name unchanged. `mixed` is not produced from another name, and renaming twice changes nothing. |
| `MethodReflection.AnnotationTypesCanonical` | Nette/Reflection/MethodReflection.php:254-269 | Each allowed type is lower-case and contains no bar character or space. None is `int`, `bool`, `float` or `mixed`, since those are renamed or drop the entry. |
| `MethodReflection.AnnotationCaseInsensitive` | Nette/Reflection/MethodReflection.php:255 | An annotation and its lower-cased form give the same types. |
| `MethodReflection.LowerFirstWord` | Nette/Reflection/MethodReflection.php:254-255 | Cutting at the first space and lower-casing can be done in either order. |
| `MethodReflection.AnnotationFirstWordOnly` | Nette/Reflection/MethodReflection.php:254 | Only the first word is read; the variable name and description after it do not matter. |
| `MethodReflection.AnnotationTypesRejoin` | Nette/Reflection/MethodReflection.php:255 | Joining the allowed types with the bar character and splitting again gives the same list. |
| `PhpValues.ImplodeExplode` | Nette/Reflection/MethodReflection.php:255 | `explode` loses nothing: joining its pieces with the separator gives back the string. |
| `PhpValues.ExplodeImplode` | Nette/Reflection/MethodReflection.php:255 | For one or more pieces that do not contain the separator, splitting the joined string gives back the pieces. (With no pieces the split gives `array('')`.) |
| `MethodReflection.GetDefaultParameters` | Nette/Reflection/MethodReflection.php:42-55 | The result is the array built by assigning each parameter's default under its name, in declaration order. |
| `MethodReflection.DefaultsInOrder` | Nette/Reflection/MethodReflection.php:42-55 | With distinct names: one slot per parameter, in declaration order. Each slot holds the declared default or NULL, made an array for array-typed parameters. |
| `MethodReflection.DefaultsKeys` | Nette/Reflection/MethodReflection.php:44-48 | The keys are exactly the parameter names. |
| `MethodReflection.DefaultsDistinct` | Nette/Reflection/MethodReflection.php:44-48 | No name has two slots, even when two parameters share a name. |
| `MethodReflection.AssignDefault` | Nette/Reflection/MethodReflection.php:46-52 | One iteration assigns the declared default, or NULL without one, under the parameter's name. For an array-typed parameter it is converted to an array. |
| `MethodReflection.ArrayParameterDefaults` | Nette/Reflection/MethodReflection.php:50-52 | An array-typed parameter defaults to an array. It is empty for no default or NULL, a one-element list for a scalar, and the default itself for an array. |
| `PhpValues.ParseCanonicalIff` | Nette/Reflection/MethodReflection.php:87 | `$value === (string)(int)$value` holds exactly when the string is the decimal rendering of a 64-bit integer. That integer is the converted value. |
| `MethodReflection.ValidateArgument` | Nette/Reflection/MethodReflection.php:80-122 | The inner validation loop tries the allowed types in order, with the argument's type taken once. The first type that does not reject decides. |
| `MethodReflection.CheckTypeSound` | Nette/Reflection/MethodReflection.php:84-118 | A type that accepts yields a value meeting it that stands for the argument: the argument itself, or the argument converted to that type. |
| `MethodReflection.CoerceSound` | Nette/Reflection/MethodReflection.php:84-120 | Whatever validation accepts meets one of the allowed types and stands for the argument. |
| `MethodReflection.ConformingNotRejected` | Nette/Reflection/MethodReflection.php:84-120 | An argument that already meets an allowed type is never rejected. |
| `MethodReflection.RejectedConformsToNothing` | Nette/Reflection/MethodReflection.php:116-121 | "Invalid value" is raised only for an argument that meets none of the allowed types. |
| `MethodReflection.CoerceExamples` | Nette/Reflection/MethodReflection.php:85-106 | `"42"` becomes 42 for `integer` and `"042"` is rejected. `"1"` becomes TRUE for `boolean` and `"0"` does not meet `true`. 7 becomes `"7"` for `string`, and FALSE meets `false`. |
| `MethodReflection.InvokeNamedArgs` | Nette/Reflection/MethodReflection.php:66-136 | The argument list, or the exception, is the binding of the parameters in order. The allowed types are read from the annotations only when validating. |
| `MethodReflection.BindFromShape` | Nette/Reflection/MethodReflection.php:76-133 | Binding from a position succeeds exactly when every later parameter binds. It then gives one value per parameter, in order. |
| `MethodReflection.BindShape` | Nette/Reflection/MethodReflection.php:76-133 | Binding succeeds exactly when every parameter binds. It then passes exactly one argument per declared parameter, in declaration order. |
| `MethodReflection.BindFromFirstError` | Nette/Reflection/MethodReflection.php:76-133 | A failed binding reports the error of the first parameter that does not bind. |
| `MethodReflection.BindFromErrorAt` | Nette/Reflection/MethodReflection.php:76-133 | The first parameter that does not bind decides the error. |
| `MethodReflection.ValidatedArgumentConforms` | Nette/Reflection/MethodReflection.php:80-123 | A validated argument that is passed meets one of its allowed types and stands for the caller's value. |
| `MethodReflection.RequiredRaised` | Nette/Reflection/MethodReflection.php:125-130 | "Parameter ... is required!" is raised for the first parameter that does not bind, when that parameter has no value, no default and no `null` in its allowed list. The message is `Parameter <name> is required!`. |
| `MethodReflection.InvalidValueRaised` | Nette/Reflection/MethodReflection.php:78-121 | "Invalid value" is raised for the first parameter that does not bind, when its given argument is validated and every allowed type rejects it. The argument then meets none of those types. The message is `Invalid value for parameter <name>. Expected ` followed by the types joined with ` or `. |
| `MethodReflection.RequiredOnlyWhenMissing` | Nette/Reflection/MethodReflection.php:125-130 | When that error is raised, the parameter it names has no value, no default, and an allowed list without `null`. |
| `MethodReflection.UnvalidatedBinding` | Nette/Reflection/MethodReflection.php:76-133 | Without validation, binding never fails. Each parameter gets the given argument, else its default, else NULL. |
| `MethodReflection.NullArgumentIsAbsent` | Nette/Reflection/MethodReflection.php:78 | Passing NULL for a name binds exactly as leaving the name out. |
| `MethodReflection.NoArgumentsGivesDefaults` | Nette/Reflection/MethodReflection.php:42-55 | With no arguments, no validation, no array-typed parameter and distinct parameter names, the argument list is `getDefaultParameters`' values in order. |
| `MethodReflection.DuplicateNamesDiverge` | Nette/Reflection/MethodReflection.php:42-55 | When two parameters share a name, as in `($a = 1, $a = 2)`, the argument list is `[1, 2]` but `getDefaultParameters` has the single slot `a => 2`. So the distinct-names condition above is needed. |

## Left out

- `Container.Container.AddService`: the deprecated branch that accepts a class name, a `Closure` or a `Nette\Callback` and builds the service from it (Nette/DI/Container.php:76-79). It needs dynamic `new` and `call_user_func`. The method requires a non-string service, and treats closures and callbacks as plain objects.
- `Container.Container.RemoveService`, `GetService`, `IsCreated` take names as strings. The source's behaviour for non-string names (PHP array-key coercion) is not modelled. Integer-like string keys stay strings in the model.
- The reflection calls (`method_exists`, `getReflection()->getMethod()`) are replaced by a lookup in the factory table by exact name.
- A factory is an abstract script: its requests, then a result. A factory that catches an exception from a nested `getService` and carries on is not modelled; the first failure always propagates.
- `createInstance`, `callMethod`, `callInjects` and `expand` (Nette/DI/Container.php:219-286) depend on `Helpers` and `Nette\Callback`, which are not part of this model.
- The magic accessors `__get`, `__set`, `__isset` and `__unset` are not modelled, nor `ObjectMixin` in MethodReflection.php. `getParameters` is a plain getter.
- `Container.TagValue`: tag metadata that is a string rather than an array is treated as not carrying the tag. PHP's string-offset `isset` is not modelled.
- `MethodReflection.ValidateArgument`, `MethodReflection.InvokeNamedArgs`: floating point is not modelled.
  - A string that is `is_numeric` meeting `double`, and an integer meeting `double`, end in `FloatArgument` instead of the float conversion.
  - `is_numeric` is a parameter.
  - The `double` branch of the type switch is absent because no value is a float.
- `MethodReflection.GetDefaultParameters`: `Value` has no floats, so a float default such as `$ratio = 0.5` cannot be represented. For the same reason, `InvokeNamedArgs` without validation cannot pass a float argument through.
- `MethodReflection.GetDefaultParameters` requires that no default is an object. PHP default values are constant expressions, so `settype` of an object is not modelled.
- `MethodReflection.GetAllowedParametersTypes` takes the `@param` values as strings, in order. The annotation parser that produces them is not part of this model.
- `Nette\Debug::barDump` (a debugging side effect) and the final `invokeArgs` call are left out. `InvokeNamedArgs` returns the argument list it would pass.
- `PhpValues.Lower`, `ServiceNaming.UpperFirst`: `strtolower` and `ucfirst` are modelled as in the C locale, changing only ASCII letters. Locale-dependent case mapping is not modelled.
- `PhpValues.ParseCanonical`: integers are 64-bit, as on a 64-bit PHP build. On a 32-bit build the bounds are -2^31 and 2^31-1, which the model does not cover.
- Concurrency: the container is single-threaded, so there is nothing concurrent to model.
