/**
 * The parts of Nette/Reflection/MethodReflection.php that give a method's
 * parameters their defaults and bind a named-argument array to them:
 * getAllowedParametersTypes (the `@param` annotations read as type lists),
 * getDefaultParameters, and the argument-list construction and validation
 * of invokeNamedArgs.
 */
module MethodReflection {
  import opened Wrappers
  import opened PhpValues

  /** A declared parameter of the reflected method, as PHP reflection reports it. */
  datatype Parameter = Parameter(name: string, hasDefault: bool, defaultValue: Value, isArray: bool)

  // ---------------------------------------------------------------------
  // getAllowedParametersTypes
  // ---------------------------------------------------------------------

  /** The text of an annotation up to its first space (all of it when there is none). */
  function FirstWord(s: string): (r: string)
    ensures r <= s
    ensures ' ' !in r
    ensures |r| < |s| ==> s[|r|] == ' '
  {
    if s == [] || s[0] == ' ' then [] else [s[0]] + FirstWord(s[1..])
  }

  /** The spellings the annotation may use for a type that gettype() names otherwise. */
  function CanonicalTypeName(t: string): string {
    if t == "int" then "integer"
    else if t == "bool" then "boolean"
    else if t == "float" then "double"
    else t
  }

  /** The `|`-separated alternatives of an annotation's type, lower-cased. */
  function Alternatives(annotation: string): seq<string> {
    Explode(Lower(FirstWord(annotation)), '|')
  }

  /**
   * The allowed types one `@param` annotation stands for: None when one of
   * the alternatives is `mixed` (any value goes), otherwise the alternatives
   * in order with `int`, `bool` and `float` spelled as gettype() does.
   */
  function AnnotationTypes(annotation: string): Option<seq<string>> {
    var alts := Alternatives(annotation);
    if "mixed" in alts then None
    else Some(seq(|alts|, k requires 0 <= k < |alts| => CanonicalTypeName(alts[k])))
  }

  /** The allowed types of every parameter, by position. */
  function AllowedTypes(annotations: seq<string>): seq<Option<seq<string>>> {
    seq(|annotations|, i requires 0 <= i < |annotations| => AnnotationTypes(annotations[i]))
  }

  /**
   * getAllowedParametersTypes: `annotations` are the method's `@param`
   * values in order (empty when there are none). Each is cut at its first
   * space, lower-cased and split at `|`; the alternatives are renamed in
   * place, and `mixed` drops the whole entry.
   */
  method GetAllowedParametersTypes(annotations: seq<string>) returns (types: seq<Option<seq<string>>>)
    ensures types == AllowedTypes(annotations)
  {
    types := [];
    var i := 0;
    while i < |annotations|
      invariant 0 <= i <= |annotations|
      invariant types == AllowedTypes(annotations[..i])
    {
      var value := FirstWord(annotations[i]);
      var alts := Explode(Lower(value), '|');
      var tmp: Option<seq<string>> := Some(alts);
      var k := 0;
      while k < |alts|
        invariant 0 <= k <= |alts|
        invariant tmp.Some? && |tmp.value| == |alts|
        invariant "mixed" !in alts[..k]
        invariant forall j :: 0 <= j < k ==> tmp.value[j] == CanonicalTypeName(alts[j])
        invariant forall j :: k <= j < |alts| ==> tmp.value[j] == alts[j]
      {
        var v := alts[k];
        if v == "mixed" {
          tmp := None;
          break;
        } else if v == "int" {
          tmp := Some(tmp.value[k := "integer"]);
        } else if v == "bool" {
          tmp := Some(tmp.value[k := "boolean"]);
        } else if v == "float" {
          tmp := Some(tmp.value[k := "double"]);
        }
        assert alts[..k + 1] == alts[..k] + [v];
        k := k + 1;
      }
      if tmp.Some? {
        assert alts[..k] == alts;
        assert tmp.value == seq(|alts|, j requires 0 <= j < |alts| => CanonicalTypeName(alts[j]));
      }
      assert tmp == AnnotationTypes(annotations[i]);
      assert annotations[..i + 1] == annotations[..i] + [annotations[i]];
      types := types + [tmp];
      i := i + 1;
    }
    assert annotations[..i] == annotations;
  }

  /** Every alternative is a lower-case piece of the first word: no `|`, no space, no upper-case letter. */
  lemma AlternativeFacts(annotation: string, k: int)
    requires 0 <= k < |Alternatives(annotation)|
    ensures '|' !in Alternatives(annotation)[k] && ' ' !in Alternatives(annotation)[k]
    ensures forall c :: c in Alternatives(annotation)[k] ==> !IsUpperLetter(c)
  {
    var w := FirstWord(annotation);
    LowerIsLower(w);
    ExplodePieceIn(Lower(w), '|', k);
    assert ' ' !in Lower(w) by {
      forall i | 0 <= i < |w| ensures Lower(w)[i] != ' ' {
        assert w[i] != ' ';
      }
    }
  }

  /** The renaming yields gettype() names and leaves every other alternative as it is. */
  lemma CanonicalTypeNameFacts(x: string)
    ensures CanonicalTypeName(x) in ["integer", "boolean", "double"] || CanonicalTypeName(x) == x
    ensures CanonicalTypeName(x) != "int" && CanonicalTypeName(x) != "bool" && CanonicalTypeName(x) != "float"
    ensures x != "mixed" ==> CanonicalTypeName(x) != "mixed"
    ensures CanonicalTypeName(CanonicalTypeName(x)) == CanonicalTypeName(x)
  {
  }

  /** The allowed types are in gettype()'s vocabulary: lower-case, single words, never an alias or `mixed`. */
  lemma AnnotationTypesCanonical(annotation: string, t: string)
    requires AnnotationTypes(annotation).Some?
    requires t in AnnotationTypes(annotation).value
    ensures t != "int" && t != "bool" && t != "float" && t != "mixed"
    ensures '|' !in t && ' ' !in t
    ensures forall c :: c in t ==> !IsUpperLetter(c)
    ensures CanonicalTypeName(t) == t
  {
    var alts := Alternatives(annotation);
    var k :| 0 <= k < |alts| && t == CanonicalTypeName(alts[k]);
    assert alts[k] != "mixed";
    AlternativeFacts(annotation, k);
    CanonicalTypeNameFacts(alts[k]);
    if t != alts[k] {
      assert t in ["integer", "boolean", "double"];
      assert forall c :: c in t ==> 'a' <= c <= 'z';
    }
  }

  /** A piece of explode() is a run of characters of the string. */
  lemma {:induction false} ExplodePieceIn(s: string, sep: char, k: int)
    requires 0 <= k < |Explode(s, sep)|
    ensures forall c :: c in Explode(s, sep)[k] ==> c in s
  {
    if s != [] {
      var rest := Explode(s[1..], sep);
      if s[0] == sep {
        if k > 0 {
          ExplodePieceIn(s[1..], sep, k - 1);
        }
      } else {
        ExplodePieceIn(s[1..], sep, k);
      }
    }
  }

  /** Annotations are read case-insensitively. */
  lemma AnnotationCaseInsensitive(annotation: string)
    ensures AnnotationTypes(Lower(annotation)) == AnnotationTypes(annotation)
  {
    LowerFirstWord(annotation);
    LowerIsLower(FirstWord(annotation));
  }

  /** Lower-casing and cutting at the first space commute (a space is not a letter). */
  lemma {:induction false} LowerFirstWord(s: string)
    ensures FirstWord(Lower(s)) == Lower(FirstWord(s))
  {
    if s != [] {
      assert s == [s[0]] + s[1..];
      LowerCons(s[0], s[1..]);
      if s[0] != ' ' {
        LowerFirstWord(s[1..]);
        LowerCons(s[0], FirstWord(s[1..]));
      }
    }
  }

  /** Only the first word of an annotation is read: the variable name and description after it do not matter. */
  lemma AnnotationFirstWordOnly(word: string, rest: string)
    requires ' ' !in word
    ensures AnnotationTypes(word + " " + rest) == AnnotationTypes(word)
  {
    var s := word + " " + rest;
    var r := FirstWord(s);
    assert s[|word|] == ' ';
    assert r == word;
    FirstWordNoSpace(word);
  }

  lemma {:induction false} FirstWordNoSpace(s: string)
    requires ' ' !in s
    ensures FirstWord(s) == s
  {
    if s != [] {
      FirstWordNoSpace(s[1..]);
      assert s == [s[0]] + s[1..];
    }
  }

  /** The allowed types, joined with `|`, split back into the same list. */
  lemma AnnotationTypesRejoin(annotation: string)
    requires AnnotationTypes(annotation).Some?
    ensures Explode(Implode(AnnotationTypes(annotation).value, "|"), '|') == AnnotationTypes(annotation).value
  {
    var ts := AnnotationTypes(annotation).value;
    forall i | 0 <= i < |ts| ensures '|' !in ts[i] {
      AnnotationTypesCanonical(annotation, ts[i]);
    }
    ExplodeImplode(ts, '|');
  }

  // ---------------------------------------------------------------------
  // getDefaultParameters
  // ---------------------------------------------------------------------

  /** PHP default values are constant expressions, so never objects. */
  predicate ConstantDefaults(params: seq<Parameter>) {
    forall i :: 0 <= i < |params| ==> !params[i].defaultValue.Obj?
  }

  predicate DistinctNames(params: seq<Parameter>) {
    forall i, j :: 0 <= i < j < |params| ==> params[i].name != params[j].name
  }

  /** settype($v, 'array') for a value other than an object. */
  function ToArray(v: Value): Value
    requires !v.Obj?
  {
    match v
    case Null => Arr([])
    case Arr(_) => v
    case _ => Arr([Entry("0", v)])
  }

  /** The default of one parameter: its declared default or NULL, made an array for an array-typed parameter. */
  function DefaultValue(p: Parameter): Value
    requires !p.defaultValue.Obj?
  {
    var v := if p.hasDefault then p.defaultValue else Null;
    if p.isArray then ToArray(v) else v
  }

  /** The array built by assigning the defaults of the first `n` parameters under their names, in declaration order. */
  function DefaultsUpTo(params: seq<Parameter>, n: nat): seq<Entry>
    requires ConstantDefaults(params) && n <= |params|
  {
    if n == 0 then []
    else Put(DefaultsUpTo(params, n - 1), params[n - 1].name, DefaultValue(params[n - 1]))
  }

  /** The array getDefaultParameters builds: every parameter's default assigned under its name. */
  function Defaults(params: seq<Parameter>): seq<Entry>
    requires ConstantDefaults(params)
  {
    DefaultsUpTo(params, |params|)
  }

  /** getDefaultParameters. */
  method GetDefaultParameters(params: seq<Parameter>) returns (res: seq<Entry>)
    requires ConstantDefaults(params)
    ensures res == Defaults(params)
  {
    res := [];
    var i := 0;
    while i < |params|
      invariant 0 <= i <= |params|
      invariant res == DefaultsUpTo(params, i)
    {
      DefaultsUpToNext(params, i);
      res := AssignDefault(res, params[i]);
      i := i + 1;
    }
  }

  /** One iteration of getDefaultParameters: assign the parameter's default, then make it an array for an array-typed parameter. */
  method AssignDefault(res: seq<Entry>, p: Parameter) returns (res': seq<Entry>)
    requires !p.defaultValue.Obj?
    ensures res' == Put(res, p.name, DefaultValue(p))
  {
    var v := if p.hasDefault then p.defaultValue else Null;
    if p.isArray {
      v := ToArray(v);
    }
    res' := Put(res, p.name, v);
  }

  lemma DefaultsUpToNext(params: seq<Parameter>, i: nat)
    requires ConstantDefaults(params) && i < |params|
    ensures !params[i].defaultValue.Obj?
    ensures DefaultsUpTo(params, i + 1) == Put(DefaultsUpTo(params, i), params[i].name, DefaultValue(params[i]))
  {
  }

  /** The parameter names, in declaration order. */
  function Names(params: seq<Parameter>): seq<string> {
    seq(|params|, i requires 0 <= i < |params| => params[i].name)
  }

  /** The first `n` defaults have a slot for exactly the first `n` names. */
  lemma {:induction false} DefaultsUpToKeys(params: seq<Parameter>, n: nat)
    requires ConstantDefaults(params) && n <= |params|
    ensures forall k :: k in Keys(DefaultsUpTo(params, n)) <==> k in Names(params)[..n]
  {
    if n > 0 {
      DefaultsUpToKeys(params, n - 1);
      assert Names(params)[..n] == Names(params)[..n - 1] + [params[n - 1].name];
    }
  }

  /** The defaults array has a slot for exactly the parameter names. */
  lemma DefaultsKeys(params: seq<Parameter>)
    requires ConstantDefaults(params)
    ensures forall k :: k in Keys(Defaults(params)) <==> k in Names(params)
  {
    DefaultsUpToKeys(params, |params|);
    assert Names(params)[..|params|] == Names(params);
  }

  /** One slot per parameter, in declaration order, holding its default. */
  function DefaultsList(params: seq<Parameter>): seq<Entry>
    requires ConstantDefaults(params)
  {
    seq(|params|, i requires 0 <= i < |params| => Entry(params[i].name, DefaultValue(params[i])))
  }

  /** With distinct names, the next parameter's name has no slot yet. */
  lemma NameIsNew(params: seq<Parameter>, n: nat)
    requires ConstantDefaults(params) && DistinctNames(params) && n < |params|
    ensures params[n].name !in Keys(DefaultsUpTo(params, n))
  {
    DefaultsUpToKeys(params, n);
    var before := Names(params)[..n];
    forall j | 0 <= j < |before|
      ensures before[j] != params[n].name
    {
      assert before[j] == params[j].name;
    }
  }

  /** With distinct names, each assignment adds a new slot at the end. */
  lemma {:induction false} DefaultsUpToInOrder(params: seq<Parameter>, n: nat)
    requires ConstantDefaults(params) && DistinctNames(params) && n <= |params|
    ensures DefaultsUpTo(params, n) == DefaultsList(params)[..n]
  {
    if n > 0 {
      var m := n - 1;
      DefaultsUpToNext(params, m);
      DefaultsUpToInOrder(params, m);
      NameIsNew(params, m);
      PutNewKey(DefaultsUpTo(params, m), params[m].name, DefaultValue(params[m]));
      DefaultsListStep(params, m);
    }
  }

  lemma DefaultsListStep(params: seq<Parameter>, m: nat)
    requires ConstantDefaults(params) && m < |params|
    ensures DefaultsList(params)[..m + 1] == DefaultsList(params)[..m] + [Entry(params[m].name, DefaultValue(params[m]))]
  {
    var l := DefaultsList(params);
    assert l[..m + 1] == l[..m] + [l[m]];
  }

  /**
   * With distinct parameter names, the defaults array has one slot per
   * parameter, in declaration order, keyed by its name and holding its default.
   */
  lemma DefaultsInOrder(params: seq<Parameter>)
    requires ConstantDefaults(params) && DistinctNames(params)
    ensures Defaults(params) == DefaultsList(params)
  {
    DefaultsUpToInOrder(params, |params|);
    assert DefaultsList(params)[..|params|] == DefaultsList(params);
  }

  /** No name has two slots. */
  lemma {:induction false} DefaultsUpToDistinct(params: seq<Parameter>, n: nat)
    requires ConstantDefaults(params) && n <= |params|
    ensures DistinctKeys(DefaultsUpTo(params, n))
  {
    if n > 0 {
      var m := n - 1;
      DefaultsUpToNext(params, m);
      DefaultsUpToDistinct(params, m);
      PutKeepsDistinct(DefaultsUpTo(params, m), params[m].name, DefaultValue(params[m]));
    }
  }

  /** No name has two slots in the defaults array. */
  lemma DefaultsDistinct(params: seq<Parameter>)
    requires ConstantDefaults(params)
    ensures DistinctKeys(Defaults(params))
  {
    DefaultsUpToDistinct(params, |params|);
  }

  /**
   * An array-typed parameter always defaults to an array: the empty array
   * when it has no default or defaults to NULL, a one-element list when the
   * default is a scalar, the default itself when it is an array.
   */
  lemma ArrayParameterDefaults(p: Parameter)
    requires !p.defaultValue.Obj? && p.isArray
    ensures DefaultValue(p).Arr?
    ensures !p.hasDefault || p.defaultValue.Null? ==> DefaultValue(p) == Arr([])
    ensures p.hasDefault && p.defaultValue.Arr? ==> DefaultValue(p) == p.defaultValue
    ensures p.hasDefault && !p.defaultValue.Arr? && !p.defaultValue.Null? ==>
      DefaultValue(p).entries == [Entry("0", p.defaultValue)]
  {
  }

  // ---------------------------------------------------------------------
  // invokeNamedArgs
  // ---------------------------------------------------------------------

  /** The exceptions invokeNamedArgs throws, and the float conversion the model does not follow. */
  datatype BindError =
    | InvalidValue(param: string, expected: seq<string>)
    | Required(param: string)
    | FloatArgument(param: string)
  {
    /** The exception message; FloatArgument is not an exception of the source. */
    function Message(): string
      requires !FloatArgument?
    {
      match this
      case InvalidValue(p, expected) => "Invalid value for parameter " + p + ". Expected " + Implode(expected, " or ")
      case Required(p) => "Parameter " + p + " is required!"
    }
  }

  /** What checking an argument against one allowed type gives. */
  datatype Check = Accept(value: Value) | Reject | NeedsFloat

  /**
   * One allowed type tried on an argument of the type gettype() reports:
   * a string may become an integer (when it is one written canonically),
   * a float, or a boolean ("1"/"0"); an integer may become a float or a
   * string; any value is kept when its type is the allowed one, and
   * TRUE/FALSE also meet `true`/`false`.
   */
  function CheckType(v: Value, a: string, isNumeric: string -> bool): Check {
    match v
    case Str(s) =>
      if a == "integer" && ParseCanonical(s).Some? then Accept(Int(ParseCanonical(s).value))
      else if a == "double" && isNumeric(s) then NeedsFloat
      else if a == "boolean" && (s == "1" || s == "0") then Accept(Bool(s == "1"))
      else if a == "true" && s == "1" then Accept(Bool(true))
      else if a == "false" && s == "0" then Accept(Bool(false))
      else if a == "string" then Accept(v)
      else Reject
    case Int(n) =>
      if a == "double" then NeedsFloat
      else if a == "string" then Accept(Str(Render(n)))
      else if a == "integer" then Accept(v)
      else Reject
    case _ =>
      if Meets(v, a) then Accept(v) else Reject
  }

  /** The allowed types from position j on are tried in order; the first that does not reject decides. */
  function CoerceFrom(v: Value, allowed: seq<string>, j: nat, isNumeric: string -> bool): Check
    requires j <= |allowed|
    decreases |allowed| - j
  {
    if j == |allowed| then Reject
    else
      match CheckType(v, allowed[j], isNumeric)
      case Reject => CoerceFrom(v, allowed, j + 1, isNumeric)
      case c => c
  }

  function Coerce(v: Value, allowed: seq<string>, isNumeric: string -> bool): Check {
    CoerceFrom(v, allowed, 0, isNumeric)
  }

  /** A value meets an allowed type: its gettype() name, or TRUE for `true` and FALSE for `false`. */
  predicate Meets(w: Value, a: string) {
    TypeName(w) == a || (a == "true" && w == Bool(true)) || (a == "false" && w == Bool(false))
  }

  predicate Conforms(w: Value, allowed: seq<string>) {
    exists k :: 0 <= k < |allowed| && Meets(w, allowed[k])
  }

  /**
   * `w` is `v` or `v` written as another type without loss: a canonical
   * decimal string and its integer, "1"/"0" and TRUE/FALSE, an integer and
   * its decimal string.
   */
  predicate Represents(v: Value, w: Value) {
    w == v
    || (v.Str? && w.Int? && Render(w.i) == v.s)
    || (v.Str? && w.Bool? && v.s == (if w.b then "1" else "0"))
    || (v.Int? && w == Str(Render(v.i)))
  }

  /**
   * A check that accepts gives a value of the allowed type which stands for
   * the argument: it is the argument, or the argument written as that type.
   */
  lemma CheckTypeSound(v: Value, a: string, isNumeric: string -> bool, w: Value)
    requires CheckType(v, a, isNumeric) == Accept(w)
    ensures Meets(w, a)
    ensures Represents(v, w)
  {
    if v.Str? && a == "integer" && ParseCanonical(v.s).Some? {
      ParseCanonicalIff(v.s, ParseCanonical(v.s).value);
    }
  }

  /** Whatever validation accepts meets one of the allowed types and stands for the argument. */
  lemma {:induction false} CoerceSound(v: Value, allowed: seq<string>, j: nat, isNumeric: string -> bool, w: Value)
    requires j <= |allowed|
    requires CoerceFrom(v, allowed, j, isNumeric) == Accept(w)
    ensures Conforms(w, allowed)
    ensures Represents(v, w)
    decreases |allowed| - j
  {
    if CheckType(v, allowed[j], isNumeric).Reject? {
      CoerceSound(v, allowed, j + 1, isNumeric, w);
    } else {
      CheckTypeSound(v, allowed[j], isNumeric, w);
    }
  }

  /** An argument that already meets one of the allowed types is never rejected (it may still be converted). */
  lemma {:induction false} ConformingNotRejected(v: Value, allowed: seq<string>, j: nat, k: nat, isNumeric: string -> bool)
    requires j <= k < |allowed|
    requires Meets(v, allowed[k])
    ensures !CoerceFrom(v, allowed, j, isNumeric).Reject?
    decreases k - j
  {
    if j < k && CheckType(v, allowed[j], isNumeric).Reject? {
      ConformingNotRejected(v, allowed, j + 1, k, isNumeric);
    }
  }

  /** Validation rejects an argument only when no allowed type takes it. */
  lemma RejectedConformsToNothing(v: Value, allowed: seq<string>, isNumeric: string -> bool)
    requires Coerce(v, allowed, isNumeric) == Reject
    ensures !Conforms(v, allowed)
  {
    if Conforms(v, allowed) {
      var k :| 0 <= k < |allowed| && Meets(v, allowed[k]);
      ConformingNotRejected(v, allowed, 0, k, isNumeric);
    }
  }

  /** How request strings and integers are converted, one allowed type at a time. */
  lemma CoerceExamples(isNumeric: string -> bool)
    ensures Coerce(Str("42"), ["integer"], isNumeric) == Accept(Int(42))
    ensures Coerce(Str("042"), ["integer"], isNumeric) == Reject
    ensures Coerce(Str("1"), ["boolean"], isNumeric) == Accept(Bool(true))
    ensures Coerce(Str("0"), ["true"], isNumeric) == Reject
    ensures Coerce(Int(7), ["string"], isNumeric) == Accept(Str("7"))
    ensures Coerce(Bool(false), ["false"], isNumeric) == Accept(Bool(false))
  {
    assert Digits(42) == Digits(4) + [DigitChar(2)];
    assert CanonicalDigits("42");
    assert DigitsValue("42") == 42 by {
      ParseCanonicalIff("42", 42);
    }
    assert !CanonicalDigits("042");
    assert Render(7) == "7";
  }

  /**
   * validation of one argument against its allowed types (the inner loop of
   * invokeNamedArgs); the gettype() name is taken once, before any conversion.
   */
  method ValidateArgument(value0: Value, allowed: seq<string>, isNumeric: string -> bool) returns (c: Check)
    ensures c == Coerce(value0, allowed, isNumeric)
  {
    var value := value0;
    var t := TypeName(value);
    var valid := false;
    var converted := false;
    var j := 0;
    while j < |allowed|
      invariant 0 <= j <= |allowed|
      invariant value == value0 && !valid && !converted
      invariant Coerce(value0, allowed, isNumeric) == CoerceFrom(value0, allowed, j, isNumeric)
    {
      var a := allowed[j];
      if t == "string" {
        var s := value.s;
        converted := true;
        if a == "integer" && ParseCanonical(s).Some? {
          value := Int(ParseCanonical(s).value);
        } else if a == "double" && isNumeric(s) {
          return NeedsFloat;
        } else if a == "boolean" && (s == "1" || s == "0") {
          value := Bool(s == "1");
        } else if a == "true" && s == "1" {
          value := Bool(true);
        } else if a == "false" && s == "0" {
          value := Bool(false);
        } else {
          converted := false;
        }
      } else if t == "integer" {
        converted := true;
        if a == "double" {
          return NeedsFloat;
        } else if a == "string" {
          value := Str(Render(value.i));
        } else {
          converted := false;
        }
      }
      if converted || t == a || (a == "true" && value == Bool(true)) || (a == "false" && value == Bool(false)) {
        valid := true;
        break;
      }
      j := j + 1;
    }
    c := if valid then Accept(value) else Reject;
  }

  /** Whether the argument array sets `name` (isset: present and not NULL). */
  predicate Given(args: map<string, Value>, name: string) {
    name in args && !args[name].Null?
  }

  /** Whether the parameter at position i has allowed types to validate against. */
  predicate Validated(validate: bool, types: seq<Option<seq<string>>>, i: nat) {
    validate && i < |types| && types[i].Some?
  }

  /** The argument passed for parameter `p` at position `i`, or the exception raised for it. */
  function BindParam(p: Parameter, i: nat, args: map<string, Value>, validate: bool,
                     types: seq<Option<seq<string>>>, isNumeric: string -> bool): Result<Value, BindError>
  {
    if Given(args, p.name) then
      if Validated(validate, types, i) then
        match Coerce(args[p.name], types[i].value, isNumeric)
        case Accept(w) => Ok(w)
        case Reject => Err(InvalidValue(p.name, types[i].value))
        case NeedsFloat => Err(FloatArgument(p.name))
      else Ok(args[p.name])
    else if p.hasDefault then Ok(p.defaultValue)
    else if Validated(validate, types, i) && "null" !in types[i].value then Err(Required(p.name))
    else Ok(Null)
  }

  function Prepend(prefix: seq<Value>, r: Result<seq<Value>, BindError>): Result<seq<Value>, BindError> {
    match r
    case Ok(vs) => Ok(prefix + vs)
    case Err(e) => Err(e)
  }

  lemma PrependNothing(r: Result<seq<Value>, BindError>)
    ensures Prepend([], r) == r
  {
    if r.Ok? {
      assert [] + r.value == r.value;
    }
  }

  lemma PrependTwice(a: seq<Value>, b: seq<Value>, r: Result<seq<Value>, BindError>)
    ensures Prepend(a, Prepend(b, r)) == Prepend(a + b, r)
  {
    if r.Ok? {
      assert a + (b + r.value) == (a + b) + r.value;
    }
  }

  /** The arguments for the parameters from position i on, or the first exception. */
  function BindFrom(params: seq<Parameter>, i: nat, args: map<string, Value>, validate: bool,
                    types: seq<Option<seq<string>>>, isNumeric: string -> bool): Result<seq<Value>, BindError>
    requires i <= |params|
    decreases |params| - i
  {
    if i == |params| then Ok([])
    else
      match BindParam(params[i], i, args, validate, types, isNumeric)
      case Err(e) => Err(e)
      case Ok(v) => Prepend([v], BindFrom(params, i + 1, args, validate, types, isNumeric))
  }

  function Bind(params: seq<Parameter>, args: map<string, Value>, validate: bool,
                types: seq<Option<seq<string>>>, isNumeric: string -> bool): Result<seq<Value>, BindError>
  {
    BindFrom(params, 0, args, validate, types, isNumeric)
  }

  /**
   * Binding succeeds exactly when every parameter binds, and then passes one
   * argument per parameter, in declaration order.
   */
  lemma {:induction false} BindFromShape(params: seq<Parameter>, i: nat, args: map<string, Value>, validate: bool,
                                         types: seq<Option<seq<string>>>, isNumeric: string -> bool)
    requires i <= |params|
    ensures BindFrom(params, i, args, validate, types, isNumeric).Ok? <==>
      forall j :: i <= j < |params| ==> BindParam(params[j], j, args, validate, types, isNumeric).Ok?
    ensures BindFrom(params, i, args, validate, types, isNumeric).Ok? ==>
      var vs := BindFrom(params, i, args, validate, types, isNumeric).value;
      |vs| == |params| - i &&
      forall j :: i <= j < |params| ==> vs[j - i] == BindParam(params[j], j, args, validate, types, isNumeric).value
    decreases |params| - i
  {
    if i < |params| {
      BindFromShape(params, i + 1, args, validate, types, isNumeric);
    }
  }

  lemma BindShape(params: seq<Parameter>, args: map<string, Value>, validate: bool,
                  types: seq<Option<seq<string>>>, isNumeric: string -> bool)
    ensures Bind(params, args, validate, types, isNumeric).Ok? <==>
      forall j :: 0 <= j < |params| ==> BindParam(params[j], j, args, validate, types, isNumeric).Ok?
    ensures Bind(params, args, validate, types, isNumeric).Ok? ==>
      var vs := Bind(params, args, validate, types, isNumeric).value;
      |vs| == |params| &&
      forall j :: 0 <= j < |params| ==> vs[j] == BindParam(params[j], j, args, validate, types, isNumeric).value
  {
    BindFromShape(params, 0, args, validate, types, isNumeric);
  }

  /** A failed binding reports the error of the first parameter that does not bind. */
  lemma {:induction false} BindFromFirstError(params: seq<Parameter>, i: nat, args: map<string, Value>, validate: bool,
                                              types: seq<Option<seq<string>>>, isNumeric: string -> bool, e: BindError)
    requires i <= |params|
    requires BindFrom(params, i, args, validate, types, isNumeric) == Err(e)
    ensures exists k :: (i <= k < |params| && BindParam(params[k], k, args, validate, types, isNumeric) == Err(e) &&
                         forall j :: i <= j < k ==> BindParam(params[j], j, args, validate, types, isNumeric).Ok?)
    decreases |params| - i
  {
    if BindParam(params[i], i, args, validate, types, isNumeric).Ok? {
      BindFromFirstError(params, i + 1, args, validate, types, isNumeric, e);
      var k :| i + 1 <= k < |params| && BindParam(params[k], k, args, validate, types, isNumeric) == Err(e) &&
        forall j :: i + 1 <= j < k ==> BindParam(params[j], j, args, validate, types, isNumeric).Ok?;
      assert forall j :: i <= j < k ==> BindParam(params[j], j, args, validate, types, isNumeric).Ok?;
    }
  }

  /** Conversely, the first parameter that does not bind decides the error. */
  lemma {:induction false} BindFromErrorAt(params: seq<Parameter>, i: nat, k: nat, args: map<string, Value>, validate: bool,
                                           types: seq<Option<seq<string>>>, isNumeric: string -> bool)
    requires i <= k < |params|
    requires forall j :: i <= j < k ==> BindParam(params[j], j, args, validate, types, isNumeric).Ok?
    requires BindParam(params[k], k, args, validate, types, isNumeric).Err?
    ensures BindFrom(params, i, args, validate, types, isNumeric)
      == Err(BindParam(params[k], k, args, validate, types, isNumeric).error)
    decreases k - i
  {
    if i < k {
      BindFromErrorAt(params, i + 1, k, args, validate, types, isNumeric);
    }
  }

  /**
   * A validated argument that is passed meets one of its parameter's allowed
   * types and stands for the value the caller gave.
   */
  lemma ValidatedArgumentConforms(params: seq<Parameter>, args: map<string, Value>,
                                  types: seq<Option<seq<string>>>, isNumeric: string -> bool, i: nat)
    requires Bind(params, args, true, types, isNumeric).Ok?
    requires i < |params| && Given(args, params[i].name) && Validated(true, types, i)
    ensures |Bind(params, args, true, types, isNumeric).value| == |params|
    ensures Conforms(Bind(params, args, true, types, isNumeric).value[i], types[i].value)
    ensures Represents(args[params[i].name], Bind(params, args, true, types, isNumeric).value[i])
  {
    BindShape(params, args, true, types, isNumeric);
    var w := Bind(params, args, true, types, isNumeric).value[i];
    CoerceSound(args[params[i].name], types[i].value, 0, isNumeric, w);
  }

  /** The conditions under which invokeNamedArgs demands a value for the parameter at position k. */
  predicate MissingRequired(params: seq<Parameter>, args: map<string, Value>, validate: bool,
                            types: seq<Option<seq<string>>>, k: nat)
    requires k < |params|
  {
    !Given(args, params[k].name) && !params[k].hasDefault &&
    Validated(validate, types, k) && "null" !in types[k].value
  }

  /**
   * "Parameter ... is required!" is raised for the first parameter that is
   * given no value, has no default and does not allow `null`, when the
   * parameters before it bind.
   */
  lemma RequiredRaised(params: seq<Parameter>, args: map<string, Value>, validate: bool,
                       types: seq<Option<seq<string>>>, isNumeric: string -> bool, k: nat)
    requires k < |params|
    requires forall j :: 0 <= j < k ==> BindParam(params[j], j, args, validate, types, isNumeric).Ok?
    requires MissingRequired(params, args, validate, types, k)
    ensures Bind(params, args, validate, types, isNumeric) == Err(Required(params[k].name))
    ensures Bind(params, args, validate, types, isNumeric).error.Message() == "Parameter " + params[k].name + " is required!"
  {
    BindFromErrorAt(params, 0, k, args, validate, types, isNumeric);
  }

  /**
   * "Invalid value" is raised for the first parameter that does not bind
   * when its argument is given, validated and rejected by every allowed
   * type; the message lists those types joined by " or ".
   */
  lemma InvalidValueRaised(params: seq<Parameter>, args: map<string, Value>,
                           types: seq<Option<seq<string>>>, isNumeric: string -> bool, k: nat)
    requires k < |params|
    requires forall j :: 0 <= j < k ==> BindParam(params[j], j, args, true, types, isNumeric).Ok?
    requires Given(args, params[k].name) && Validated(true, types, k)
    requires Coerce(args[params[k].name], types[k].value, isNumeric) == Reject
    ensures Bind(params, args, true, types, isNumeric) == Err(InvalidValue(params[k].name, types[k].value))
    ensures !Conforms(args[params[k].name], types[k].value)
    ensures Bind(params, args, true, types, isNumeric).error.Message() ==
      "Invalid value for parameter " + params[k].name + ". Expected " + Implode(types[k].value, " or ")
  {
    BindFromErrorAt(params, 0, k, args, true, types, isNumeric);
    RejectedConformsToNothing(args[params[k].name], types[k].value, isNumeric);
  }

  /** ... and only then: the parameter it names is missing a required value. */
  lemma RequiredOnlyWhenMissing(params: seq<Parameter>, args: map<string, Value>, validate: bool,
                                types: seq<Option<seq<string>>>, isNumeric: string -> bool, n: string)
    requires Bind(params, args, validate, types, isNumeric) == Err(Required(n))
    ensures exists k :: 0 <= k < |params| && params[k].name == n && MissingRequired(params, args, validate, types, k)
  {
    BindFromFirstError(params, 0, args, validate, types, isNumeric, Required(n));
    var k :| 0 <= k < |params| && BindParam(params[k], k, args, validate, types, isNumeric) == Err(Required(n));
    assert MissingRequired(params, args, validate, types, k);
  }

  /** Without validation binding never fails: a given argument, else the default, else NULL. */
  lemma UnvalidatedBinding(params: seq<Parameter>, args: map<string, Value>,
                           types: seq<Option<seq<string>>>, isNumeric: string -> bool)
    ensures Bind(params, args, false, types, isNumeric).Ok?
    ensures |Bind(params, args, false, types, isNumeric).value| == |params|
    ensures forall i :: 0 <= i < |params| ==>
      Bind(params, args, false, types, isNumeric).value[i] ==
        if Given(args, params[i].name) then args[params[i].name]
        else if params[i].hasDefault then params[i].defaultValue
        else Null
  {
    BindShape(params, args, false, types, isNumeric);
  }

  /** A NULL argument is treated as no argument at all. */
  lemma {:induction false} NullArgumentIsAbsent(params: seq<Parameter>, i: nat, args: map<string, Value>, validate: bool,
                                                types: seq<Option<seq<string>>>, isNumeric: string -> bool, k: string)
    requires i <= |params|
    requires k in args && args[k] == Null
    ensures BindFrom(params, i, args, validate, types, isNumeric)
      == BindFrom(params, i, args - {k}, validate, types, isNumeric)
    decreases |params| - i
  {
    if i < |params| {
      assert Given(args, params[i].name) == Given(args - {k}, params[i].name);
      NullArgumentIsAbsent(params, i + 1, args, validate, types, isNumeric, k);
    }
  }

  /**
   * Called without arguments and without validation, a method whose
   * parameters are not array-typed receives exactly the values
   * getDefaultParameters reports, in order.
   */
  lemma NoArgumentsGivesDefaults(params: seq<Parameter>, types: seq<Option<seq<string>>>, isNumeric: string -> bool)
    requires ConstantDefaults(params) && DistinctNames(params)
    requires forall i :: 0 <= i < |params| ==> !params[i].isArray
    ensures Bind(params, map[], false, types, isNumeric).Ok?
    ensures |Bind(params, map[], false, types, isNumeric).value| == |params| == |Defaults(params)|
    ensures forall i :: 0 <= i < |params| ==>
      Bind(params, map[], false, types, isNumeric).value[i] == Defaults(params)[i].val
  {
    UnvalidatedBinding(params, map[], types, isNumeric);
    BindShape(params, map[], false, types, isNumeric);
    DefaultsInOrder(params);
    assert |DefaultsList(params)| == |params|;
  }

  /**
   * Two parameters sharing a name (`($a = u, $a = w)`) both get an argument,
   * but getDefaultParameters keeps one slot, the later default: the list of
   * defaults and the argument list part ways.
   */
  lemma DuplicateNamesDiverge(n: string, u: Value, w: Value, types: seq<Option<seq<string>>>,
                              isNumeric: string -> bool)
    requires !u.Obj? && !w.Obj?
    ensures var params := [Parameter(n, true, u, false), Parameter(n, true, w, false)];
      Bind(params, map[], false, types, isNumeric) == Ok([u, w]) && Defaults(params) == [Entry(n, w)]
  {
    var params := [Parameter(n, true, u, false), Parameter(n, true, w, false)];
    assert !Given(map[], n);
    assert BindFrom(params, 2, map[], false, types, isNumeric) == Ok([]);
    assert [w] + [] == [w] && [u] + [w] == [u, w];
    assert BindFrom(params, 1, map[], false, types, isNumeric) == Ok([w]);
    assert DefaultsUpTo(params, 1) == [Entry(n, u)];
  }

  /**
   * invokeNamedArgs up to the call itself: the positional argument list
   * built from the named arguments, or the exception thrown. `isNumeric`
   * stands for PHP's is_numeric().
   */
  method InvokeNamedArgs(params: seq<Parameter>, args: map<string, Value>, validate: bool,
                         annotations: seq<string>, isNumeric: string -> bool)
    returns (r: Result<seq<Value>, BindError>)
    ensures r == Bind(params, args, validate, if validate then AllowedTypes(annotations) else [], isNumeric)
  {
    var types: seq<Option<seq<string>>> := [];
    if validate {
      types := GetAllowedParametersTypes(annotations);
    }
    var res: seq<Value> := [];
    PrependNothing(Bind(params, args, validate, types, isNumeric));
    var i := 0;
    while i < |params|
      invariant 0 <= i <= |params|
      invariant Bind(params, args, validate, types, isNumeric)
        == Prepend(res, BindFrom(params, i, args, validate, types, isNumeric))
    {
      var p := params[i];
      var name := p.name;
      var next := BindFrom(params, i + 1, args, validate, types, isNumeric);
      if name in args && !args[name].Null? {
        var value := args[name];
        if validate && i < |types| && types[i].Some? {
          var c := ValidateArgument(value, types[i].value, isNumeric);
          match c
          case Reject =>
            return Err(InvalidValue(name, types[i].value));
          case NeedsFloat =>
            return Err(FloatArgument(name));
          case Accept(w) =>
            value := w;
        }
        PrependTwice(res, [value], next);
        res := res + [value];
      } else if p.hasDefault {
        PrependTwice(res, [p.defaultValue], next);
        res := res + [p.defaultValue];
      } else if validate && i < |types| && types[i].Some? && "null" !in types[i].value {
        return Err(Required(name));
      } else {
        PrependTwice(res, [Null], next);
        res := res + [Null];
      }
      i := i + 1;
    }
    assert res + [] == res;
    r := Ok(res);
  }
}
