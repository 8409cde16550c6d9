/** The PHP values the sanitizer is handed, with what PHP reflection would
    report about an object given as plain data: its methods (with visibility,
    parameters and the outcome of invoking them without arguments), whether
    its class is Traversable and what it yields, and the three probes of the
    depth-exhausted summary (`getId`, `__toString`, DateTime formatting). */
module PhpValues {
  import opened PhpArrays

  /** A declared parameter; `optional` is ReflectionParameter::isOptional:
      the parameter has a default value or is variadic. */
  datatype Param = Param(name: string, optional: bool)

  /** What `$method->invoke($value)` does: return a value or throw an Exception. */
  datatype Outcome =
    | Returns(value: Value)
    | Throws(exceptionClass: string, message: string)

  datatype Method = Method(name: string, isPublic: bool, params: seq<Param>, outcome: Outcome)

  /** What the `getId` probe finds: no such method, one that needs arguments,
      or the string form of what it returns (None when it returns null). */
  datatype IdProbe =
    | NoGetId
    | GetIdNeedsArguments
    | GetIdReturned(id: Option<string>)

  /** What `(string) $value` does for an object: no `__toString`, a text, or a throw. */
  datatype StringCast = NoToString | Cast(text: string) | CastThrows

  datatype Object = Object(
    className: string,                        // ReflectionClass::getName
    shortName: string,                        // ReflectionClass::getShortName
    traversal: Option<seq<(Key, Value)>>,     // Some(what foreach yields) iff the class is Traversable
    methods: seq<Method>,                     // ReflectionClass::getMethods, in its order
    idProbe: IdProbe,
    cast: StringCast,
    dateText: Option<string>)                 // Some(format('Y-m-d H:i:s')) iff a DateTime

  /** A PHP value. `Float` carries PHP's own rendering of the number;
      `Invoker` is an InvokerException carrying its message. */
  datatype Value =
    | Str(s: string)
    | Int(n: int)
    | Float(text: string)
    | Bool(b: bool)
    | Null
    | Resource
    | Arr(entries: seq<(Key, Value)>)
    | Invoker(message: string)
    | Obj(obj: Object)

  predicate IsPrimitive(v: Value)
  {
    v.Str? || v.Int? || v.Float? || v.Bool? || v.Null?
  }

  /** ReflectionFunctionAbstract::getNumberOfRequiredParameters: the parameters
      up to and including the last one that is not optional (neither
      defaulted nor variadic). */
  function RequiredCount(ps: seq<Param>): (n: nat)
    ensures n <= |ps|
    ensures n == 0 <==> forall i :: 0 <= i < |ps| ==> ps[i].optional
    ensures n > 0 ==> !ps[n - 1].optional
  {
    if ps == [] then 0
    else if !ps[|ps| - 1].optional then |ps|
    else
      assert forall i :: 0 <= i < |ps| - 1 ==> ps[i] == ps[..|ps| - 1][i];
      RequiredCount(ps[..|ps| - 1])
  }

  // ---- PHP's integer-to-string conversion ----

  function DigitChar(d: nat): (c: char)
    requires d < 10
    ensures '0' <= c <= '9'
  {
    "0123456789"[d]
  }

  function DigitValue(c: char): nat
  {
    if '0' <= c <= '9' then (c as int - '0' as int) as nat else 0
  }

  /** Decimal digits of `n`, most significant first, without leading zeros. */
  function NatText(n: nat): (r: string)
    ensures |r| >= 1 && (n >= 10 ==> |r| >= 2)
    ensures forall i :: 0 <= i < |r| ==> '0' <= r[i] <= '9'
    ensures n > 0 ==> r[0] != '0'
    ensures |r| == 1 || r[0] != '0'
  {
    if n < 10 then [DigitChar(n)] else NatText(n / 10) + [DigitChar(n % 10)]
  }

  /** The number a string of decimal digits denotes. */
  function DigitsValue(s: string): nat
  {
    if s == [] then 0 else DigitsValue(s[..|s| - 1]) * 10 + DigitValue(s[|s| - 1])
  }

  /** `(string) $n` for a PHP int. */
  function IntText(n: int): (r: string)
    ensures r != [] && (r[0] == '-' <==> n < 0)
    ensures forall i :: 0 < i < |r| ==> '0' <= r[i] <= '9'
  {
    if n < 0 then "-" + NatText(-n) else NatText(n)
  }

  lemma {:induction false} NatTextRoundTrip(n: nat)
    ensures DigitsValue(NatText(n)) == n
  {
    var r := NatText(n);
    if n < 10 {
      DigitRoundTrip(n);
      assert r[..0] == [];
    } else {
      var q, d := n / 10, n % 10;
      NatTextRoundTrip(q);
      DigitRoundTrip(d);
      assert r == NatText(q) + [DigitChar(d)];
      assert r[..|r| - 1] == NatText(q);
      assert DigitsValue(r) == q * 10 + d;
    }
  }

  lemma DigitRoundTrip(d: nat)
    requires d < 10
    ensures DigitValue(DigitChar(d)) == d
  {
  }

  /** Only a negative number's text starts with '-'. */
  lemma IntTextSign(n: int)
    ensures IntText(n)[0] == '-' <==> n < 0
  {
    if n >= 0 {
      assert IntText(n)[0] == NatText(n)[0];
    }
  }

  /** Distinct integers print differently. */
  lemma IntTextInjective(a: int, b: int)
    requires IntText(a) == IntText(b)
    ensures a == b
  {
    IntTextSign(a);
    IntTextSign(b);
    var na := if a < 0 then -a else a;
    var nb := if b < 0 then -b else b;
    var ta, tb := NatText(na), NatText(nb);
    if a < 0 {
      assert ta == IntText(a)[1..] && tb == IntText(b)[1..];
    }
    assert ta == tb;
    NatTextRoundTrip(na);
    NatTextRoundTrip(nb);
  }
}
