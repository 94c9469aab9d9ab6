/**
 * The fragment of PHP's value model that the container and the method
 * reflection inspect: dynamically typed values, ordered arrays, ASCII case
 * mapping and the decimal rendering of integers.
 */
module PhpValues {
  import opened Wrappers

  /**
   * A PHP value. Floats and resources are not modelled; an object is known
   * only by its identity.
   */
  datatype Value =
    | Null
    | Bool(b: bool)
    | Int(i: int)
    | Str(s: string)
    | Arr(entries: seq<Entry>)
    | Obj(id: nat)

  /**
   * One slot of an ordered PHP array. Keys are kept in their string form:
   * PHP stores "7" under the integer key 7, which is the same slot.
   */
  datatype Entry = Entry(key: string, val: Value)

  /** The range of a 64-bit PHP integer. */
  const IntMin: int := -0x8000_0000_0000_0000
  const IntMax: int := 0x7FFF_FFFF_FFFF_FFFF

  /** PHP's gettype(). */
  function TypeName(v: Value): string {
    match v
    case Null => "NULL"
    case Bool(_) => "boolean"
    case Int(_) => "integer"
    case Str(_) => "string"
    case Arr(_) => "array"
    case Obj(_) => "object"
  }

  /** The strings PHP reads as FALSE in a boolean context. */
  predicate FalsyString(s: string) {
    s == "" || s == "0"
  }

  // ---------------------------------------------------------------------
  // Ordered arrays
  // ---------------------------------------------------------------------

  function Keys(a: seq<Entry>): (ks: seq<string>)
    ensures |ks| == |a| && forall i :: 0 <= i < |a| ==> ks[i] == a[i].key
  {
    if a == [] then [] else [a[0].key] + Keys(a[1..])
  }

  predicate DistinctKeys(a: seq<Entry>) {
    forall i, j :: 0 <= i < j < |a| ==> a[i].key != a[j].key
  }

  /** `$a[$k]` when the slot exists (the first slot with that key). */
  function Get(a: seq<Entry>, k: string): (r: Option<Value>)
    ensures r.Some? <==> k in Keys(a)
  {
    if a == [] then None
    else if a[0].key == k then Some(a[0].val)
    else Get(a[1..], k)
  }

  /** `isset($a[$k])`: the slot exists and does not hold NULL. */
  predicate IsSet(a: seq<Entry>, k: string) {
    Get(a, k).Some? && !Get(a, k).value.Null?
  }

  /**
   * `$a[$k] = $v`: an existing slot is overwritten where it stands, a new
   * one is appended at the end.
   */
  function Put(a: seq<Entry>, k: string, v: Value): (r: seq<Entry>)
    ensures k in Keys(a) ==> Keys(r) == Keys(a)
    ensures k !in Keys(a) ==> Keys(r) == Keys(a) + [k]
  {
    if a == [] then [Entry(k, v)]
    else if a[0].key == k then [Entry(k, v)] + a[1..]
    else [a[0]] + Put(a[1..], k, v)
  }

  /** After `$a[$k] = $v`, slot `k` holds `v` and every other slot is as it was. */
  lemma {:induction false} GetPut(a: seq<Entry>, k: string, v: Value, k': string)
    ensures Get(Put(a, k, v), k') == if k' == k then Some(v) else Get(a, k')
  {
    if a != [] && a[0].key != k {
      GetPut(a[1..], k, v, k');
    }
  }

  /** `unset($a[$k])`: the slot goes, the others keep their order. */
  function Remove(a: seq<Entry>, k: string): (r: seq<Entry>)
    ensures k !in Keys(a) ==> r == a
    ensures |r| <= |a|
  {
    if a == [] then []
    else if a[0].key == k then Remove(a[1..], k)
    else [a[0]] + Remove(a[1..], k)
  }

  /** After `unset($a[$k])`, slot `k` is gone and every other slot is as it was. */
  lemma {:induction false} GetRemove(a: seq<Entry>, k: string, k': string)
    ensures Get(Remove(a, k), k') == if k' == k then None else Get(a, k')
  {
    if a != [] {
      GetRemove(a[1..], k, k');
    }
  }

  lemma {:induction false} RemoveKeys(a: seq<Entry>, k: string, k': string)
    ensures k' in Keys(Remove(a, k)) <==> k' != k && k' in Keys(a)
  {
    GetRemove(a, k, k');
  }

  lemma {:induction false} PutKeepsDistinct(a: seq<Entry>, k: string, v: Value)
    requires DistinctKeys(a)
    ensures DistinctKeys(Put(a, k, v))
  {
    var r := Put(a, k, v);
    forall i, j | 0 <= i < j < |r| ensures r[i].key != r[j].key {
      assert Keys(r)[i] == r[i].key && Keys(r)[j] == r[j].key;
    }
  }

  lemma {:induction false} RemoveKeepsDistinct(a: seq<Entry>, k: string)
    requires DistinctKeys(a)
    ensures DistinctKeys(Remove(a, k))
  {
    if a != [] {
      RemoveKeepsDistinct(a[1..], k);
      var rest := Remove(a[1..], k);
      if a[0].key != k {
        assert a[0].key !in Keys(a[1..]);
        RemoveKeys(a[1..], k, a[0].key);
        forall j | 0 < j < |[a[0]] + rest| ensures ([a[0]] + rest)[j].key != a[0].key {
          assert Keys(rest)[j - 1] == rest[j - 1].key;
        }
      }
    }
  }

  /** Assigning a new key appends a slot. */
  lemma {:induction false} PutNewKey(a: seq<Entry>, k: string, v: Value)
    requires k !in Keys(a)
    ensures Put(a, k, v) == a + [Entry(k, v)]
  {
    if a != [] {
      PutNewKey(a[1..], k, v);
    }
  }

  lemma {:induction false} GetAppend(a: seq<Entry>, e: Entry, k: string)
    ensures Get(a + [e], k) == if k in Keys(a) then Get(a, k) else if e.key == k then Some(e.val) else None
  {
    if a == [] {
      assert [e][1..] == [];
    } else {
      assert (a + [e])[1..] == a[1..] + [e];
      GetAppend(a[1..], e, k);
    }
  }

  /**
   * PHP's array union `$a + $b`: every slot of `a`, in order, then the slots
   * of `b` whose keys `a` does not have, in `b`'s order.
   */
  function Union(a: seq<Entry>, b: seq<Entry>): (r: seq<Entry>)
    ensures a <= r
    decreases |b|
  {
    if b == [] then a
    else if b[0].key in Keys(a) then Union(a, b[1..])
    else Union(a + [b[0]], b[1..])
  }

  /** In `$a + $b` the left operand wins on a shared key. */
  lemma {:induction false} GetUnion(a: seq<Entry>, b: seq<Entry>, k: string)
    ensures Get(Union(a, b), k) == if k in Keys(a) then Get(a, k) else Get(b, k)
    decreases |b|
  {
    if b != [] {
      var e := b[0];
      GetFirst(b, k);
      if e.key in Keys(a) {
        GetUnion(a, b[1..], k);
      } else {
        GetUnion(a + [e], b[1..], k);
        GetAppend(a, e, k);
        KeysAppend(a, e, k);
      }
    }
  }

  lemma GetFirst(b: seq<Entry>, k: string)
    requires b != []
    ensures Get(b, k) == if b[0].key == k then Some(b[0].val) else Get(b[1..], k)
  {
  }

  lemma KeysAppend(a: seq<Entry>, e: Entry, k: string)
    ensures k in Keys(a + [e]) <==> k in Keys(a) || k == e.key
  {
    assert Keys(a + [e]) == Keys(a) + [e.key];
  }

  /** implode(): the parts with `sep` between each two of them. */
  function Implode(parts: seq<string>, sep: string): string {
    if parts == [] then ""
    else if |parts| == 1 then parts[0]
    else parts[0] + sep + Implode(parts[1..], sep)
  }

  /** explode(): the pieces of `s` between occurrences of `sep`; always at least one. */
  function Explode(s: string, sep: char): (parts: seq<string>)
    ensures |parts| >= 1
    ensures forall i :: 0 <= i < |parts| ==> sep !in parts[i]
  {
    if s == [] then [""]
    else
      var rest := Explode(s[1..], sep);
      if s[0] == sep then [""] + rest else [[s[0]] + rest[0]] + rest[1..]
  }

  /** Joining the pieces with the separator gives back the string. */
  lemma {:induction false} ImplodeExplode(s: string, sep: char)
    ensures Implode(Explode(s, sep), [sep]) == s
  {
    if s != [] {
      ImplodeExplode(s[1..], sep);
      var rest := Explode(s[1..], sep);
      if s[0] == sep {
        assert ([""] + rest)[1..] == rest;
      } else {
        var ps := [[s[0]] + rest[0]] + rest[1..];
        if |rest| == 1 {
          assert Implode(ps, [sep]) == [s[0]] + rest[0];
        } else {
          assert ps[1..] == rest[1..];
          assert Implode(rest, [sep]) == rest[0] + [sep] + Implode(rest[1..], [sep]);
        }
      }
    }
  }

  lemma {:induction false} ExplodeNoSep(x: string, sep: char)
    requires sep !in x
    ensures Explode(x, sep) == [x]
  {
    if x != [] {
      assert sep !in x[1..] && x[0] != sep;
      ExplodeNoSep(x[1..], sep);
      assert x == [x[0]] + x[1..];
    }
  }

  lemma {:induction false} ExplodeJoined(x: string, y: string, sep: char)
    requires sep !in x
    ensures Explode(x + [sep] + y, sep) == [x] + Explode(y, sep)
  {
    if x == [] {
      assert ([sep] + y)[1..] == y;
    } else {
      var z := x + [sep] + y;
      assert z[0] == x[0] != sep;
      assert z[1..] == x[1..] + [sep] + y;
      assert sep !in x[1..];
      ExplodeJoined(x[1..], y, sep);
      assert Explode(z, sep) == [[x[0]] + x[1..]] + Explode(y, sep);
      assert x == [x[0]] + x[1..];
    }
  }

  /** Splitting pieces that do not contain the separator after joining them gives back the pieces. */
  lemma {:induction false} ExplodeImplode(parts: seq<string>, sep: char)
    requires |parts| >= 1
    requires forall i :: 0 <= i < |parts| ==> sep !in parts[i]
    ensures Explode(Implode(parts, [sep]), sep) == parts
  {
    if |parts| == 1 {
      ExplodeNoSep(parts[0], sep);
    } else {
      ExplodeImplode(parts[1..], sep);
      ExplodeJoined(parts[0], Implode(parts[1..], [sep]), sep);
      assert parts == [parts[0]] + parts[1..];
    }
  }

  // ---------------------------------------------------------------------
  // ASCII case mapping (strtolower, ucfirst in the C locale)
  // ---------------------------------------------------------------------

  predicate IsLowerLetter(c: char) { 'a' <= c <= 'z' }

  predicate IsUpperLetter(c: char) { 'A' <= c <= 'Z' }

  function LowerChar(c: char): char {
    if IsUpperLetter(c) then (c as int + 32) as char else c
  }

  function UpperChar(c: char): char {
    if IsLowerLetter(c) then (c as int - 32) as char else c
  }

  /** strtolower(). */
  function Lower(s: string): string {
    seq(|s|, i requires 0 <= i < |s| => LowerChar(s[i]))
  }

  lemma LowerCons(c: char, t: string)
    ensures Lower([c] + t) == [LowerChar(c)] + Lower(t)
  {
  }

  /** strtolower() leaves no upper-case letter and is idempotent. */
  lemma LowerIsLower(s: string)
    ensures forall i :: 0 <= i < |Lower(s)| ==> !IsUpperLetter(Lower(s)[i])
    ensures Lower(Lower(s)) == Lower(s)
  {
  }

  // ---------------------------------------------------------------------
  // Decimal integers: `(string) $int` and the strings it can produce
  // ---------------------------------------------------------------------

  predicate IsDigit(c: char) { '0' <= c <= '9' }

  function DigitChar(d: nat): char
    requires d < 10
  {
    ('0' as int + d) as char
  }

  /** The decimal digits of `n`, most significant first, no leading zero. */
  function Digits(n: nat): string
    decreases n
  {
    if n < 10 then [DigitChar(n)] else Digits(n / 10) + [DigitChar(n % 10)]
  }

  /** `(string) $n` for a PHP integer. */
  function Render(n: int): string {
    if n < 0 then "-" + Digits(-n) else Digits(n)
  }

  predicate AllDigits(s: string) {
    forall i :: 0 <= i < |s| ==> IsDigit(s[i])
  }

  /** A digit string as `(string)` writes one: non-empty, no leading zero. */
  predicate CanonicalDigits(s: string) {
    |s| >= 1 && AllDigits(s) && (s[0] == '0' ==> |s| == 1)
  }

  function DigitsValue(s: string): nat
    requires AllDigits(s)
    decreases |s|
  {
    if s == [] then 0
    else DigitsValue(s[..|s| - 1]) * 10 + (s[|s| - 1] as int - '0' as int)
  }

  /**
   * The integer whose rendering is exactly `s`, if there is one in the
   * 64-bit range; this is the test `$s === (string)(int)$s`.
   */
  function ParseCanonical(s: string): Option<int> {
    if |s| >= 1 && s[0] == '-' then
      if CanonicalDigits(s[1..]) && s[1..] != "0" then
        var n: int := 0 - DigitsValue(s[1..]);
        if IntMin <= n then Some(n) else None
      else None
    else if CanonicalDigits(s) && DigitsValue(s) <= IntMax then Some(DigitsValue(s))
    else None
  }

  lemma {:induction false} DigitsRoundTrip(n: nat)
    ensures CanonicalDigits(Digits(n)) && DigitsValue(Digits(n)) == n
    decreases n
  {
    if n >= 10 {
      DigitsRoundTrip(n / 10);
      var d := Digits(n);
      assert d[..|d| - 1] == Digits(n / 10);
    }
  }

  lemma {:induction false} LeadingNonZero(s: string)
    requires |s| >= 1 && AllDigits(s) && s[0] != '0'
    ensures DigitsValue(s) >= 1
    decreases |s|
  {
    if |s| > 1 {
      LeadingNonZero(s[..|s| - 1]);
    }
  }

  lemma {:induction false} ValueRoundTrip(s: string)
    requires CanonicalDigits(s)
    ensures Digits(DigitsValue(s)) == s
    decreases |s|
  {
    if |s| > 1 {
      var p := s[..|s| - 1];
      LeadingNonZero(p);
      ValueRoundTrip(p);
      assert s == p + [s[|s| - 1]];
    }
  }

  /** Reading a canonical string back: it is the rendering of what it parses to. */
  lemma {:induction false} ParseCanonicalSound(s: string, n: int)
    requires ParseCanonical(s) == Some(n)
    ensures IntMin <= n <= IntMax && Render(n) == s
  {
    if |s| >= 1 && s[0] == '-' {
      var d := s[1..];
      assert d[0] != '0';
      LeadingNonZero(d);
      ValueRoundTrip(d);
      assert n == 0 - DigitsValue(d) && n < 0;
      assert Render(n) == "-" + d;
      assert s == "-" + d;
    } else {
      ValueRoundTrip(s);
    }
  }

  /** Every 64-bit integer's rendering parses back to it. */
  lemma {:induction false} ParseRender(n: int)
    requires IntMin <= n <= IntMax
    ensures ParseCanonical(Render(n)) == Some(n)
  {
    var s := Render(n);
    if n < 0 {
      DigitsRoundTrip(-n);
      assert s[1..] == Digits(-n);
      assert s[1..] != "0";
    } else {
      DigitsRoundTrip(n);
      assert IsDigit(s[0]);
    }
  }

  /**
   * `ParseCanonical` and `Render` are inverse: a string passes the test
   * `$s === (string)(int)$s` exactly when it is the rendering of an integer
   * in the 64-bit range, and that integer is what `(int)$s` yields.
   */
  lemma {:induction false} ParseCanonicalIff(s: string, n: int)
    ensures ParseCanonical(s) == Some(n) <==> IntMin <= n <= IntMax && Render(n) == s
  {
    if ParseCanonical(s) == Some(n) {
      ParseCanonicalSound(s, n);
    }
    if IntMin <= n <= IntMax && Render(n) == s {
      ParseRender(n);
    }
  }
}
