/**
 * The naming convention that links a service name to the container method
 * that creates it (Container::getMethodName in Nette/DI/Container.php).
 */
module ServiceNaming {
  import opened Wrappers
  import opened PhpValues

  /** ucfirst(): only the first character is upper-cased. */
  function UpperFirst(s: string): string {
    if s == [] then s else [UpperChar(s[0])] + s[1..]
  }

  /** str_replace('.', '__', s). */
  function ReplaceDots(s: string): (r: string)
    ensures '.' !in r
    ensures |r| >= |s|
  {
    if s == [] then []
    else (if s[0] == '.' then "__" else [s[0]]) + ReplaceDots(s[1..])
  }

  function Prefix(isService: bool): string {
    if isService then "createService" else "create"
  }

  /**
   * The factory method name for service `name`: the prefix, then `__` when
   * ucfirst leaves the name as it is, then the ucfirst'ed name with every
   * dot written as `__`.
   */
  function MethodName(name: string, isService: bool): (r: string)
    ensures Prefix(isService) <= r
    ensures '.' !in r
  {
    var uname := UpperFirst(name);
    Prefix(isService) + (if name == uname then "__" else "") + ReplaceDots(uname)
  }

  /**
   * The two shapes a method name takes: a name that starts with a
   * lower-case letter gets that letter upper-cased right after the prefix;
   * every other name (empty, upper-case first, digit, dot, underscore) gets
   * the `__` separator after the prefix and keeps its first character.
   */
  lemma {:induction false} MethodNameShape(name: string, isService: bool)
    ensures name != [] && IsLowerLetter(name[0]) ==>
      MethodName(name, isService) == Prefix(isService) + [UpperChar(name[0])] + ReplaceDots(name[1..])
    ensures name == [] || !IsLowerLetter(name[0]) ==>
      MethodName(name, isService) == Prefix(isService) + "__" + ReplaceDots(name)
  {
    if name != [] && IsLowerLetter(name[0]) {
      UpperFirstLower(name);
    } else {
      UpperFirstOther(name);
    }
  }

  lemma UpperFirstLower(name: string)
    requires name != [] && IsLowerLetter(name[0])
    ensures UpperFirst(name) != name
    ensures ReplaceDots(UpperFirst(name)) == [UpperChar(name[0])] + ReplaceDots(name[1..])
  {
    var u := UpperFirst(name);
    assert u[0] != name[0];
    assert u[1..] == name[1..];
  }

  lemma UpperFirstOther(name: string)
    requires name == [] || !IsLowerLetter(name[0])
    ensures UpperFirst(name) == name
  {
    if name != [] {
      assert [name[0]] + name[1..] == name;
    }
  }

  /** The reverse of ReplaceDots: every `__`, read left to right, becomes a dot. */
  function RestoreDots(s: string): string {
    if |s| >= 2 && s[0] == '_' && s[1] == '_' then "." + RestoreDots(s[2..])
    else if s == [] then []
    else [s[0]] + RestoreDots(s[1..])
  }

  lemma {:induction false} RestoreReplaceDots(s: string)
    requires '_' !in s
    ensures RestoreDots(ReplaceDots(s)) == s
  {
    if s != [] {
      RestoreReplaceDots(s[1..]);
      if s[0] == '.' {
        assert ReplaceDots(s) == "__" + ReplaceDots(s[1..]);
        assert ("__" + ReplaceDots(s[1..]))[2..] == ReplaceDots(s[1..]);
      } else {
        assert ReplaceDots(s) == [s[0]] + ReplaceDots(s[1..]);
        assert ([s[0]] + ReplaceDots(s[1..]))[1..] == ReplaceDots(s[1..]);
      }
    }
  }

  /** The service name the part after the prefix stands for, when there is one. */
  function DecodeRest(rest: string): Option<string> {
    if |rest| >= 2 && rest[0] == '_' && rest[1] == '_' then Some(RestoreDots(rest[2..]))
    else if rest != [] && IsUpperLetter(rest[0]) then Some([LowerChar(rest[0])] + RestoreDots(rest[1..]))
    else None
  }

  /** The service name a factory method name stands for, when there is one. */
  function ServiceNameOf(m: string, isService: bool): Option<string> {
    var p := Prefix(isService);
    if p <= m then DecodeRest(m[|p|..]) else None
  }

  lemma ServiceNameOfPrefixed(rest: string, isService: bool)
    ensures ServiceNameOf(Prefix(isService) + rest, isService) == DecodeRest(rest)
  {
    var p := Prefix(isService);
    assert (p + rest)[|p|..] == rest;
  }

  /** A lower-case first letter comes back from its upper-cased form. */
  lemma UpperLowerChar(c: char)
    requires IsLowerLetter(c)
    ensures IsUpperLetter(UpperChar(c)) && LowerChar(UpperChar(c)) == c
  {
  }

  /** The part after the prefix for a lower-case first letter decodes back. */
  lemma DecodeRestLower(c: char, t: string)
    requires IsLowerLetter(c) && '_' !in t
    ensures DecodeRest([UpperChar(c)] + ReplaceDots(t)) == Some([c] + t)
  {
    var rest := [UpperChar(c)] + ReplaceDots(t);
    UpperLowerChar(c);
    assert rest[1..] == ReplaceDots(t);
    RestoreReplaceDots(t);
  }

  /** The part after the prefix for a separated name decodes back. */
  lemma DecodeRestSeparated(t: string)
    requires '_' !in t
    ensures DecodeRest("__" + ReplaceDots(t)) == Some(t)
  {
    assert ("__" + ReplaceDots(t))[2..] == ReplaceDots(t);
    RestoreReplaceDots(t);
  }

  /** Undoing the method name of a name that starts with a lower-case letter. */
  lemma {:induction false} RoundTripLower(name: string, isService: bool)
    requires '_' !in name && name != [] && IsLowerLetter(name[0])
    ensures ServiceNameOf(MethodName(name, isService), isService) == Some(name)
  {
    MethodNameShape(name, isService);
    ServiceNameOfPrefixed([UpperChar(name[0])] + ReplaceDots(name[1..]), isService);
    assert '_' !in name[1..];
    DecodeRestLower(name[0], name[1..]);
    assert [name[0]] + name[1..] == name;
  }

  /** Undoing the method name of a name that gets the `__` separator. */
  lemma {:induction false} RoundTripSeparated(name: string, isService: bool)
    requires '_' !in name && (name == [] || !IsLowerLetter(name[0]))
    ensures ServiceNameOf(MethodName(name, isService), isService) == Some(name)
  {
    MethodNameShape(name, isService);
    ServiceNameOfPrefixed("__" + ReplaceDots(name), isService);
    DecodeRestSeparated(name);
  }

  /**
   * For names without an underscore the naming convention can be undone:
   * the method name determines the service name.
   */
  lemma {:induction false} MethodNameRoundTrip(name: string, isService: bool)
    requires '_' !in name
    ensures ServiceNameOf(MethodName(name, isService), isService) == Some(name)
  {
    if name != [] && IsLowerLetter(name[0]) {
      RoundTripLower(name, isService);
    } else {
      RoundTripSeparated(name, isService);
    }
  }

  /** Consequently two underscore-free names never share a factory method. */
  lemma {:induction false} MethodNameInjective(a: string, b: string, isService: bool)
    requires '_' !in a && '_' !in b
    requires MethodName(a, isService) == MethodName(b, isService)
    ensures a == b
  {
    MethodNameRoundTrip(a, isService);
    MethodNameRoundTrip(b, isService);
  }

  /** A dot and a double underscore are written the same way. */
  lemma {:induction false} ReplaceDotsDotUnderscore(a: string, b: string)
    ensures ReplaceDots(a + "." + b) == ReplaceDots(a + "__" + b)
  {
    if a == [] {
      assert ("." + b)[1..] == b;
      assert ("__" + b)[1..] == "_" + b;
      assert ("_" + b)[1..] == b;
    } else {
      ReplaceDotsDotUnderscore(a[1..], b);
      assert (a + "." + b)[1..] == a[1..] + "." + b;
      assert (a + "__" + b)[1..] == a[1..] + "__" + b;
    }
  }

  /**
   * With underscores the convention is not injective: a dot anywhere in a
   * name and a double underscore in its place (`a.b` and `a__b`) are served
   * by the same factory method.
   */
  lemma MethodNameCollision(p: string, q: string, isService: bool)
    ensures MethodName(p + "." + q, isService) == MethodName(p + "__" + q, isService)
  {
    if p == [] {
      assert p + "." + q == "." + q;
      assert p + "__" + q == "__" + q;
      UpperFirstOther("." + q);
      UpperFirstOther("__" + q);
      ReplaceDotsDotUnderscore(p, q);
    } else {
      CollisionNonEmpty(p, ".", q);
      CollisionNonEmpty(p, "__", q);
      ReplaceDotsDotUnderscore(UpperFirst(p), q);
    }
  }

  /** Behind a non-empty prefix, the method name depends on the prefix only through its first character and ucfirst. */
  lemma CollisionNonEmpty(p: string, mid: string, q: string)
    requires p != []
    ensures UpperFirst(p + mid + q) == UpperFirst(p) + mid + q
    ensures (p + mid + q == UpperFirst(p + mid + q)) == (UpperChar(p[0]) == p[0])
  {
    var x := p + mid + q;
    assert x == p + (mid + q);
    UpperFirstAppend(p, mid + q);
    assert x[0] == p[0];
    UpperFirstFixed(x);
  }

  /** ucfirst() only looks at the first character. */
  lemma UpperFirstAppend(p: string, r: string)
    requires p != []
    ensures UpperFirst(p + r) == UpperFirst(p) + r
  {
    assert (p + r)[1..] == p[1..] + r;
  }

  /** ucfirst() leaves a non-empty string as it is exactly when it leaves its first character as it is. */
  lemma UpperFirstFixed(s: string)
    requires s != []
    ensures (UpperFirst(s) == s) == (UpperChar(s[0]) == s[0])
  {
    if UpperChar(s[0]) == s[0] {
      assert UpperFirst(s) == [s[0]] + s[1..] == s;
    } else {
      assert UpperFirst(s)[0] != s[0];
    }
  }

  /** A lower-case name gets its first letter upper-cased and no separator. */
  lemma MethodNameExampleLower()
    ensures MethodName("foo", true) == "createServiceFoo"
    ensures MethodName("foo", false) == "createFoo"
  {
    MethodNameShape("foo", true);
    MethodNameShape("foo", false);
    assert ReplaceDots("o") == "o";
    assert ReplaceDots("oo") == "o" + ReplaceDots("o");
  }

  /** An already capitalised name gets the `__` separator. */
  lemma MethodNameExampleUpper()
    ensures MethodName("Foo", true) == "createService__Foo"
  {
    MethodNameShape("Foo", true);
    assert ReplaceDots("o") == "o";
    assert ReplaceDots("oo") == "o" + ReplaceDots("o");
    assert ReplaceDots("Foo") == "F" + ReplaceDots("oo");
  }

  lemma ReplaceDotsExample()
    ensures ReplaceDots("oo.bar") == "oo__bar"
  {
    assert ReplaceDots("r") == "r";
    assert ReplaceDots("ar") == "a" + ReplaceDots("r");
    assert ReplaceDots("bar") == "b" + ReplaceDots("ar");
    assert ReplaceDots(".bar") == "__" + ReplaceDots("bar");
    assert ReplaceDots("o.bar") == "o" + ReplaceDots(".bar");
    assert ReplaceDots("oo.bar") == "o" + ReplaceDots("o.bar");
  }

  /** A dot becomes `__`; only the first character is upper-cased. */
  lemma MethodNameExampleDotted()
    ensures MethodName("foo.bar", true) == "createServiceFoo__bar"
  {
    MethodNameShape("foo.bar", true);
    assert "foo.bar"[1..] == "oo.bar";
    ReplaceDotsExample();
  }
}
