/** The `dumpy` Twig filter: a depth-limited sanitizer that turns any PHP value
    into a tree of strings and arrays, ready for the YAML encoder.

    The functions below are the specification, one per branch structure of the
    PHP code; the methods after them follow the PHP statements and loops and
    are proved to compute exactly what the functions say. Termination rests on
    the recursion budget `maxDepth - depth`, as in the source: every recursive
    sanitize call is one level deeper, and the only same-depth call (an
    iterable object handed to the walker) drops from rank 2 to rank 1. */
module DumpyTwigFilter {
  import opened PhpArrays
  import opened PhpValues

  /** Default `inline` level of the YAML encoder. */
  const Inline := 3
  /** Default recursion depth of `dumpy`. */
  const MaxDepth := 1
  /** Entries the walker sanitizes before it appends its trailer. */
  const Cap := 20
  /** Appended to an exhausted object's summary when `__toString` throws. */
  const CastNote := "(string) casting throws Exception, please report or fix"

  /** What sanitize returns: a string or a PHP array of sanitized entries. */
  datatype Out = S(text: string) | Map(entries: seq<(Key, Out)>)

  /** Levels of recursion left. */
  function Budget(maxDepth: int, depth: int): nat
  {
    if depth < maxDepth then maxDepth - depth else 0
  }

  // ---- Wrappers ----

  /** `pre`: wraps a text in a `<pre>` block. */
  function Pre(text: string): (r: string)
    ensures |r| == |text| + 11
    ensures r[..5] == "<pre>" && r[|r| - 6..] == "</pre>"
    ensures r[5..|r| - 6] == text
  {
    "<pre>" + text + "</pre>"
  }

  /** The `inline` level `yamlDump` hands the encoder for a depth. */
  function InlineLevel(depth: int): (r: int)
    ensures r % 2 == 1 && r > 2 * depth
  {
    depth * 2 + 1
  }

  /** `preYamlDump`: sanitize from depth 0, encode (a foreign call, given as a
      parameter) at the matching inline level, wrap in `<pre>`. */
  function PreYamlDump(v: Value, depth: int, encode: (Out, int) -> string): (r: string)
    ensures |r| >= 11 && r[5..|r| - 6] == encode(Sanitize(v, depth, 0), 2 * depth + 1)
  {
    Pre(encode(Sanitize(v, depth, 0), InlineLevel(depth)))
  }

  // ---- Accessor discovery ----

  function Lower(c: char): char
  {
    if 'A' <= c <= 'Z' then (c as int - 'A' as int + 'a' as int) as char else c
  }

  /** `s` starts with the lower-case word `p`, ignoring ASCII case. */
  predicate StartsWithIgnoringCase(s: string, p: string)
  {
    |p| <= |s| && forall i :: 0 <= i < |p| ==> Lower(s[i]) == p[i]
  }

  /** METHOD_IS_ACCESSOR_REGEX, `#^(get|has|is)#i`. */
  predicate IsAccessorName(name: string)
  {
    StartsWithIgnoringCase(name, "get") || StartsWithIgnoringCase(name, "has")
    || StartsWithIgnoringCase(name, "is")
  }

  /** Methods the accessor loop lists: public, with an accessor name. */
  predicate IsListed(m: Method)
  {
    m.isPublic && IsAccessorName(m.name)
  }

  /** Parameter names as `$a, $b`. */
  function ParamList(ps: seq<Param>): (r: string)
    ensures r == [] <==> ps == []
    ensures ps != [] ==> r[0] == '$' && ps[0].name <= r[1..]
  {
    if ps == [] then ""
    else if |ps| == 1 then "$" + ps[0].name
    else ParamList(ps[..|ps| - 1]) + ", $" + ps[|ps| - 1].name
  }

  /** The accessor signature `name($a, $b)`, or `name()`. */
  function Signature(m: Method): (r: string)
    ensures m.name + "(" <= r && r[|r| - 1] == ')'
  {
    m.name + "(" + ParamList(m.params) + ")"
  }

  /** The message of the InvokerException that replaces a thrown Exception. */
  function FaultMessage(exceptionClass: string, message: string): string
  {
    "Couldn't invoke method: Exception \"" + exceptionClass + "\" with message \"" + message + "\""
  }

  // ---- Object summaries ----

  /** The `<span>` label stored under `class`. */
  function ClassLabel(o: Object): string
  {
    "<span title=\"" + o.className + "\">" + o.shortName + "</span>"
  }

  function IdSuffix(p: IdProbe): string
  {
    match p
    case NoGetId => ""
    case GetIdNeedsArguments => ""
    case GetIdReturned(None) => " (no id)"
    case GetIdReturned(Some(id)) => " #" + id
  }

  function CastSuffix(c: StringCast): string
  {
    match c
    case NoToString => ""
    case Cast(t) => " " + t
    case CastThrows => CastNote
  }

  function DateSuffix(d: Option<string>): string
  {
    match d
    case None => ""
    case Some(t) => " : " + t
  }

  /** The one-line summary of an object once the depth budget is used up. */
  function ClassInfo(o: Object): (r: string)
    ensures o.className <= r
    ensures o.idProbe == GetIdReturned(None) ==> o.className + " (no id)" <= r
    ensures o.idProbe.GetIdReturned? && o.idProbe.id.Some? ==>
              o.className + " #" + o.idProbe.id.value <= r
    ensures o.idProbe == NoGetId || o.idProbe == GetIdNeedsArguments ==>
              o.className + CastSuffix(o.cast) <= r
  {
    o.className + IdSuffix(o.idProbe) + CastSuffix(o.cast) + DateSuffix(o.dateText)
  }

  /** The walker's trailer once `emitted` of `total` elements are out. */
  function Trailer(total: int, emitted: int): string
  {
    "... and " + IntText(total - emitted) + " more ..."
  }

  // ---- The sanitizer, as functions ----

  /** `sanitize($value, $maxDepth, $depth)`. */
  function Sanitize(v: Value, maxDepth: int, depth: int): Out
    decreases Budget(maxDepth, depth), 2, 0
  {
    match v
    case Resource => S("Resource")
    case Arr(es) => Walk(es, "array", maxDepth, depth)
    case Invoker(msg) => S(msg)
    case Obj(o) =>
      if depth >= maxDepth then S(ClassInfo(o))
      else
        var body := match o.traversal
          case Some(es) => (StrKey("iterateable"), Walk(es, "object", maxDepth, depth))
          case None => (StrKey("accessors"), Map(Accessors(o.methods, maxDepth, depth)));
        Map([(StrKey("class"), S(ClassLabel(o))), body])
    case Str(s) => S("(string) " + s)
    case Int(n) => S("(int) " + IntText(n))
    case Float(t) => S("(float) " + t)
    case Null => S("null")
    case Bool(b) => S(if b then "(bool) true" else "(bool) false")
  }

  /** `sanitizeIterateable`: within budget the first `Cap` elements, sanitized
      one level deeper, plus the trailer once `Cap` are reached; otherwise a
      count summary using `gettype` of the container. */
  function Walk(es: seq<(Key, Value)>, typeName: string, maxDepth: int, depth: int): Out
    decreases Budget(maxDepth, depth), 1, 0
  {
    if depth < maxDepth then
      if |es| < Cap then Map(Fill(es, maxDepth, depth))
      else Map(Push(Fill(es[..Cap], maxDepth, depth), S(Trailer(|es|, Cap))))
    else
      S(if |es| > 0 then typeName + " of " + IntText(|es|) else "empty " + typeName)
  }

  /** `$r[$k] = sanitize($v, ...)` for every element, in order. */
  function Fill(es: seq<(Key, Value)>, maxDepth: int, depth: int): seq<(Key, Out)>
    requires depth < maxDepth
    decreases Budget(maxDepth, depth), 0, |es|
  {
    if es == [] then []
    else
      var last := es[|es| - 1];
      Set(Fill(es[..|es| - 1], maxDepth, depth), last.0, Sanitize(last.1, maxDepth, depth + 1))
  }

  /** What an accessor invocation contributes, sanitized one level deeper;
      a thrown Exception becomes an InvokerException. */
  function Invoked(out: Outcome, maxDepth: int, depth: int): Out
    requires depth < maxDepth
    decreases Budget(maxDepth, depth), 0, 0
  {
    match out
    case Returns(x) => Sanitize(x, maxDepth, depth + 1)
    case Throws(c, msg) => Sanitize(Invoker(FaultMessage(c, msg)), maxDepth, depth + 1)
  }

  /** `$data['accessors']` after the loop over `getMethods()`. */
  function Accessors(ms: seq<Method>, maxDepth: int, depth: int): seq<(Key, Out)>
    requires depth < maxDepth
    decreases Budget(maxDepth, depth), 1, |ms|
  {
    if ms == [] then []
    else
      var acc := Accessors(ms[..|ms| - 1], maxDepth, depth);
      var m := ms[|ms| - 1];
      if !IsListed(m) then acc
      else if RequiredCount(m.params) == 0 then
        Set(acc, StrKey(Signature(m)), Invoked(m.outcome, maxDepth, depth))
      else
        Push(acc, S(Signature(m)))
  }

  // ---- The sanitizer, as the PHP statements ----

  /** `sanitize`. */
  method SanitizeValue(v: Value, maxDepth: int, depth: int) returns (r: Out)
    ensures r == Sanitize(v, maxDepth, depth)
    decreases Budget(maxDepth, depth), 2, 0
  {
    if v.Resource? {
      return S("Resource");
    }
    if v.Arr? {
      r := SanitizeIterable(v.entries, "array", maxDepth, depth);
      return;
    }
    if v.Invoker? {
      return S(v.message);
    }
    if v.Obj? {
      var o := v.obj;
      if depth >= maxDepth {
        var info := BuildClassInfo(o);
        return S(info);
      }
      var data: seq<(Key, Out)> := [];
      data := Set(data, StrKey("class"), S(ClassLabel(o)));
      if o.traversal.Some? {
        var it := SanitizeIterable(o.traversal.value, "object", maxDepth, depth);
        data := Set(data, StrKey("iterateable"), it);
      } else {
        var acc := CollectAccessors(o.methods, maxDepth, depth);
        data := Set(data, StrKey("accessors"), Map(acc));
      }
      return Map(data);
    }
    var text: string;
    if v.Str? {
      text := "(string) " + v.s;
    } else if v.Int? {
      text := "(int) " + IntText(v.n);
    } else if v.Float? {
      text := "(float) " + v.text;
    } else if v.Null? {
      text := "null";
    } else {
      if v.b {
        text := "(bool) true";
      } else {
        text := "(bool) false";
      }
    }
    r := S(text);
  }

  /** The depth-exhausted branch of `sanitize`, appending to `$classInfo`. */
  method BuildClassInfo(o: Object) returns (info: string)
    ensures info == ClassInfo(o)
  {
    info := o.className;
    if o.idProbe.GetIdReturned? {
      if o.idProbe.id.Some? {
        info := info + (" #" + o.idProbe.id.value);
      } else {
        info := info + " (no id)";
      }
    }
    assert info == o.className + IdSuffix(o.idProbe);
    if o.cast.Cast? {
      info := info + (" " + o.cast.text);
    } else if o.cast.CastThrows? {
      info := info + CastNote;
    }
    assert info == o.className + IdSuffix(o.idProbe) + CastSuffix(o.cast);
    if o.dateText.Some? {
      info := info + (" : " + o.dateText.value);
    }
  }

  /** `sanitizeIterateable`: the `foreach` with its counter and early break. */
  method SanitizeIterable(es: seq<(Key, Value)>, typeName: string, maxDepth: int, depth: int)
    returns (r: Out)
    ensures r == Walk(es, typeName, maxDepth, depth)
    decreases Budget(maxDepth, depth), 1, 0
  {
    if depth < maxDepth {
      var acc: seq<(Key, Out)> := [];
      var arrayCount := |es|;
      var count := 0;  // also the position of the foreach
      while count < |es|
        invariant count <= |es| && count < Cap
        invariant acc == Fill(es[..count], maxDepth, depth)
      {
        var (k, x) := es[count];
        var sx := SanitizeValue(x, maxDepth, depth + 1);
        assert es[..count + 1][..count] == es[..count];
        acc := Set(acc, k, sx);
        count := count + 1;
        if count >= Cap {
          assert es[..count] == es[..Cap];
          WalkCapped(es, typeName, maxDepth, depth, acc);
          acc := Push(acc, S(Trailer(arrayCount, count)));
          break;
        }
      }
      if count < Cap {
        assert es[..count] == es;
      }
      r := Map(acc);
    } else {
      var c := |es|;
      r := S(if c > 0 then typeName + " of " + IntText(c) else "empty " + typeName);
    }
  }

  /** Within budget, the walker's result once `Cap` elements are in `acc`. */
  lemma WalkCapped(es: seq<(Key, Value)>, typeName: string, maxDepth: int, depth: int,
                   acc: seq<(Key, Out)>)
    requires depth < maxDepth && |es| >= Cap
    requires acc == Fill(es[..Cap], maxDepth, depth)
    ensures Walk(es, typeName, maxDepth, depth) == Map(Push(acc, S(Trailer(|es|, Cap))))
  {
  }

  /** `$methodInfo` built parameter by parameter, then trimmed of `", "`. */
  method BuildSignature(m: Method) returns (info: string)
    ensures info == Signature(m)
  {
    info := m.name + "(";
    var i := 0;
    while i < |m.params|
      invariant i <= |m.params|
      invariant info == m.name + "(" + ParamsWithCommas(m.params[..i])
    {
      assert m.params[..i + 1][..i] == m.params[..i];
      info := info + "$" + m.params[i].name + ", ";
      i := i + 1;
    }
    assert m.params[..i] == m.params;
    if |m.params| > 0 {
      ParamsWithCommasSplit(m.params);
      info := info[..|info| - 2];
    }
    info := info + ")";
  }

  /** Every parameter as `$p, `, as the inner loop leaves them. */
  function ParamsWithCommas(ps: seq<Param>): string
  {
    if ps == [] then "" else ParamsWithCommas(ps[..|ps| - 1]) + "$" + ps[|ps| - 1].name + ", "
  }

  lemma {:induction false} ParamsWithCommasSplit(ps: seq<Param>)
    requires ps != []
    ensures ParamsWithCommas(ps) == ParamList(ps) + ", "
  {
    if |ps| > 1 {
      ParamsWithCommasSplit(ps[..|ps| - 1]);
    } else {
      assert ps[..0] == [];
    }
  }

  /** The loop over `getMethods()` that fills `$data['accessors']`. */
  method CollectAccessors(ms: seq<Method>, maxDepth: int, depth: int) returns (acc: seq<(Key, Out)>)
    requires depth < maxDepth
    ensures acc == Accessors(ms, maxDepth, depth)
    decreases Budget(maxDepth, depth), 1, 0
  {
    acc := [];
    for i := 0 to |ms|
      invariant acc == Accessors(ms[..i], maxDepth, depth)
    {
      assert ms[..i + 1][..i] == ms[..i];
      var m := ms[i];
      if m.isPublic && IsAccessorName(m.name) {
        var sig := BuildSignature(m);
        if RequiredCount(m.params) == 0 {
          var value: Out;
          match m.outcome {
            case Returns(x) =>
              value := SanitizeValue(x, maxDepth, depth + 1);
            case Throws(c, msg) =>
              value := SanitizeValue(Invoker(FaultMessage(c, msg)), maxDepth, depth + 1);
          }
          acc := Set(acc, StrKey(sig), value);
        } else {
          acc := Push(acc, S(sig));
        }
      }
    }
    assert ms[..|ms|] == ms;
  }
}
