/** What the sanitizer promises, proved about the functions of DumpyTwigFilter. */
module DumpyProperties {
  import opened PhpArrays
  import opened PhpValues
  import opened DumpyTwigFilter

  // ---- Primitives, resources, invoker exceptions ----

  /** Primitives come out as tagged strings, whatever the depth. */
  lemma PrimitiveTagging(s: string, n: int, t: string, maxDepth: int, depth: int)
    ensures Sanitize(Str(s), maxDepth, depth) == S("(string) " + s)
    ensures Sanitize(Int(n), maxDepth, depth) == S("(int) " + IntText(n))
    ensures Sanitize(Float(t), maxDepth, depth) == S("(float) " + t)
    ensures Sanitize(Null, maxDepth, depth) == S("null")
    ensures Sanitize(Bool(true), maxDepth, depth) == S("(bool) true")
    ensures Sanitize(Bool(false), maxDepth, depth) == S("(bool) false")
  {
  }

  /** A resource is `Resource` and an InvokerException its message, before
      and regardless of the depth test. */
  lemma ResourceAndInvoker(msg: string, maxDepth: int, depth: int)
    ensures Sanitize(Resource, maxDepth, depth) == S("Resource")
    ensures Sanitize(Invoker(msg), maxDepth, depth) == S(msg)
  {
  }

  /** The tags keep primitives apart: two primitives that sanitize alike,
      at any depths, are the same value. */
  lemma PrimitiveTagsDistinct(p: Value, q: Value, m1: int, d1: int, m2: int, d2: int)
    requires IsPrimitive(p) && IsPrimitive(q)
    requires Sanitize(p, m1, d1) == Sanitize(q, m2, d2)
    ensures p == q
  {
    var a, b := Sanitize(p, m1, d1).text, Sanitize(q, m2, d2).text;
    // the first two characters name the type: "(s", "(i", "(f", "(b" or "nu"
    assert a[0] == b[0] && a[1] == b[1];
    if p.Str? && q.Str? {
      assert p.s == a[9..] == b[9..] == q.s;
    } else if p.Int? && q.Int? {
      assert IntText(p.n) == a[6..] == b[6..] == IntText(q.n);
      IntTextInjective(p.n, q.n);
    } else if p.Float? && q.Float? {
      assert p.text == a[8..] == b[8..] == q.text;
    } else if p.Bool? && q.Bool? {
      assert a[8] == b[8];
    }
  }

  // ---- Depth bound ----

  /** Nesting of arrays in a sanitized tree: 0 for a string. */
  function Height(o: Out): nat
    decreases o, 1
  {
    match o
    case S(_) => 0
    case Map(es) => 1 + MaxHeight(es)
  }

  function Max(hs: seq<nat>): nat
  {
    if hs == [] then 0
    else
      var t := Max(hs[1..]);
      if hs[0] > t then hs[0] else t
  }

  /** The largest height among the entries. */
  function MaxHeight(es: seq<(Key, Out)>): nat
    decreases Map(es), 0
  {
    Max(seq(|es|, i requires 0 <= i < |es| => Height(es[i].1)))
  }

  /** Every entry of `es` nests at most `h` deep. */
  predicate AllAtMost(es: seq<(Key, Out)>, h: int)
  {
    forall i :: 0 <= i < |es| ==> Height(es[i].1) <= h
  }

  lemma {:induction false} MaxBound(hs: seq<nat>, h: nat)
    requires forall i :: 0 <= i < |hs| ==> hs[i] <= h
    ensures Max(hs) <= h
  {
    if hs != [] {
      assert forall i :: 0 <= i < |hs| - 1 ==> hs[1..][i] == hs[i + 1];
      MaxBound(hs[1..], h);
    }
  }

  lemma MaxHeightBound(es: seq<(Key, Out)>, h: nat)
    requires AllAtMost(es, h)
    ensures MaxHeight(es) <= h
  {
    MaxBound(seq(|es|, i requires 0 <= i < |es| => Height(es[i].1)), h);
  }

  /** `$a[$k] = $v` and `$a[] = $v` keep a height bound on the entries. */
  lemma SetAllAtMost(a: seq<(Key, Out)>, k: Key, v: Out, h: int)
    requires AllAtMost(a, h) && Height(v) <= h
    ensures AllAtMost(Set(a, k, v), h)
  {
    SetEntries(a, k, v);
  }

  lemma PushAllAtMost(a: seq<(Key, Out)>, v: Out, h: int)
    requires AllAtMost(a, h) && Height(v) <= h
    ensures AllAtMost(Push(a, v), h)
  {
    var r := Push(a, v);
    forall i | 0 <= i < |r| ensures Height(r[i].1) <= h {
      if i < |a| {
        assert r[i] == r[..|a|][i];
      }
    }
  }

  /** Each level of budget adds at most two levels of nesting (an object's
      map and its `accessors` or `iterateable` map); with no budget left the
      result is a single string. */
  lemma {:induction false} SanitizeHeight(v: Value, maxDepth: int, depth: int)
    ensures Height(Sanitize(v, maxDepth, depth)) <= 2 * Budget(maxDepth, depth)
    ensures depth >= maxDepth ==> Sanitize(v, maxDepth, depth).S?
    decreases Budget(maxDepth, depth), 2, 0
  {
    match v
    case Arr(es) =>
      WalkHeight(es, "array", maxDepth, depth);
    case Obj(o) =>
      if depth < maxDepth {
        var body := Sanitize(v, maxDepth, depth).entries[1].1;
        match o.traversal {
          case Some(es) =>
            WalkHeight(es, "object", maxDepth, depth);
          case None =>
            AccessorsHeight(o.methods, maxDepth, depth);
            MaxHeightBound(Accessors(o.methods, maxDepth, depth), 2 * Budget(maxDepth, depth + 1));
        }
        MaxHeightBound(Sanitize(v, maxDepth, depth).entries, Height(body));
      }
    case _ =>
  }

  lemma {:induction false} WalkHeight(es: seq<(Key, Value)>, typeName: string, maxDepth: int, depth: int)
    ensures depth >= maxDepth ==> Walk(es, typeName, maxDepth, depth).S?
    ensures depth < maxDepth ==> Height(Walk(es, typeName, maxDepth, depth)) < 2 * Budget(maxDepth, depth)
    decreases Budget(maxDepth, depth), 1, 0
  {
    if depth < maxDepth {
      var h := 2 * Budget(maxDepth, depth + 1);
      if |es| < Cap {
        FillHeight(es, maxDepth, depth);
        MaxHeightBound(Fill(es, maxDepth, depth), h);
      } else {
        FillHeight(es[..Cap], maxDepth, depth);
        var body := Fill(es[..Cap], maxDepth, depth);
        PushAllAtMost(body, S(Trailer(|es|, Cap)), h);
        MaxHeightBound(Push(body, S(Trailer(|es|, Cap))), h);
      }
    }
  }

  lemma {:induction false} FillHeight(es: seq<(Key, Value)>, maxDepth: int, depth: int)
    requires depth < maxDepth
    ensures AllAtMost(Fill(es, maxDepth, depth), 2 * Budget(maxDepth, depth + 1))
    decreases Budget(maxDepth, depth), 0, |es|
  {
    if es != [] {
      var last := es[|es| - 1];
      FillHeight(es[..|es| - 1], maxDepth, depth);
      SanitizeHeight(last.1, maxDepth, depth + 1);
      SetAllAtMost(Fill(es[..|es| - 1], maxDepth, depth), last.0,
        Sanitize(last.1, maxDepth, depth + 1), 2 * Budget(maxDepth, depth + 1));
    }
  }

  lemma {:induction false} AccessorsHeight(ms: seq<Method>, maxDepth: int, depth: int)
    requires depth < maxDepth
    ensures AllAtMost(Accessors(ms, maxDepth, depth), 2 * Budget(maxDepth, depth + 1))
    decreases Budget(maxDepth, depth), 1, |ms|
  {
    if ms != [] {
      var h := 2 * Budget(maxDepth, depth + 1);
      var acc := Accessors(ms[..|ms| - 1], maxDepth, depth);
      var m := ms[|ms| - 1];
      AccessorsHeight(ms[..|ms| - 1], maxDepth, depth);
      if IsListed(m) {
        if RequiredCount(m.params) == 0 {
          match m.outcome {
            case Returns(x) => SanitizeHeight(x, maxDepth, depth + 1);
            case Throws(c, msg) => SanitizeHeight(Invoker(FaultMessage(c, msg)), maxDepth, depth + 1);
          }
          SetAllAtMost(acc, StrKey(Signature(m)), Invoked(m.outcome, maxDepth, depth), h);
        } else {
          PushAllAtMost(acc, S(Signature(m)), h);
        }
      }
    }
  }

  // ---- Depth-exhausted summaries ----

  /** Out of budget, an array is counted and an object summarised. */
  lemma ExhaustedSummaries(es: seq<(Key, Value)>, o: Object, maxDepth: int, depth: int)
    requires depth >= maxDepth
    ensures Sanitize(Arr(es), maxDepth, depth)
              == S(if |es| > 0 then "array of " + IntText(|es|) else "empty array")
    ensures Sanitize(Obj(o), maxDepth, depth) == S(ClassInfo(o))
  {
    assert Sanitize(Arr(es), maxDepth, depth) == Walk(es, "array", maxDepth, depth);
    assert "array" + " of " == "array of ";
    assert "empty " + "array" == "empty array";
    if |es| > 0 {
      assert "array" + " of " + IntText(|es|) == "array of " + IntText(|es|);
    }
  }

  /** Out of budget, an object is its class name, then its id, then its
      string form, then its date; a throwing `__toString` leaves a fixed
      note, with no leading space. */
  lemma ExhaustedObject(o: Object, maxDepth: int, depth: int)
    requires depth >= maxDepth
    ensures o.dateText.None? && o.cast == NoToString && o.idProbe == GetIdReturned(Some("42")) ==>
              Sanitize(Obj(o), maxDepth, depth) == S(o.className + " #42")
    ensures o.dateText.None? && o.cast == NoToString && o.idProbe == GetIdReturned(None) ==>
              Sanitize(Obj(o), maxDepth, depth) == S(o.className + " (no id)")
    ensures o.dateText.None? && o.cast == NoToString && o.idProbe == GetIdNeedsArguments ==>
              Sanitize(Obj(o), maxDepth, depth) == S(o.className)
    ensures o.dateText.None? && o.cast == CastThrows && o.idProbe == NoGetId ==>
              Sanitize(Obj(o), maxDepth, depth)
                == S(o.className + "(string) casting throws Exception, please report or fix")
    ensures o.dateText.None? && o.cast.Cast? && o.idProbe == NoGetId ==>
              Sanitize(Obj(o), maxDepth, depth) == S(o.className + " " + o.cast.text)
    ensures o.idProbe.GetIdReturned? && o.idProbe.id.Some? && o.cast.Cast? && o.dateText.Some? ==>
              Sanitize(Obj(o), maxDepth, depth)
                == S(o.className + " #" + o.idProbe.id.value + " " + o.cast.text + " : " + o.dateText.value)
  {
  }

  // ---- The container walker ----

  /** `Fill` never adds more entries than it is given elements. */
  lemma {:induction false} FillLength(es: seq<(Key, Value)>, maxDepth: int, depth: int)
    requires depth < maxDepth
    ensures |Fill(es, maxDepth, depth)| <= |es|
  {
    if es != [] {
      FillLength(es[..|es| - 1], maxDepth, depth);
    }
  }

  /** On distinct keys (every PHP array), each element is sanitized one level
      deeper, in input order and under its own key. */
  lemma {:induction false} FillInOrder(es: seq<(Key, Value)>, maxDepth: int, depth: int)
    requires depth < maxDepth && UniqueKeys(es)
    ensures |Fill(es, maxDepth, depth)| == |es|
    ensures forall i :: 0 <= i < |es| ==>
              Fill(es, maxDepth, depth)[i] == (es[i].0, Sanitize(es[i].1, maxDepth, depth + 1))
  {
    if es != [] {
      var init, last := es[..|es| - 1], es[|es| - 1];
      assert UniqueKeys(init);
      FillInOrder(init, maxDepth, depth);
      var acc := Fill(init, maxDepth, depth);
      assert forall j :: 0 <= j < |acc| ==> acc[j].0 == init[j].0 == es[j].0;
      assert Fill(es, maxDepth, depth) == acc + [(last.0, Sanitize(last.1, maxDepth, depth + 1))];
    }
  }

  /** The next free index depends on the keys alone. */
  lemma {:induction false} NextFreeSameKeys<V, W>(a: seq<(Key, V)>, b: seq<(Key, W)>)
    requires |a| == |b| && forall i :: 0 <= i < |a| ==> a[i].0 == b[i].0
    ensures NextFree(a) == NextFree(b)
  {
    if a != [] {
      NextFreeSameKeys(a[..|a| - 1], b[..|b| - 1]);
    }
  }

  /** Whatever the keys (a Traversable may repeat them), the walker emits at
      most `Cap` sanitized entries, and once it reaches `Cap` elements its last
      entry is the trailer counting the elements left out. */
  lemma ContainerCap(es: seq<(Key, Value)>, typeName: string, maxDepth: int, depth: int)
    requires depth < maxDepth
    ensures Walk(es, typeName, maxDepth, depth).Map?
    ensures |Walk(es, typeName, maxDepth, depth).entries| <= Cap + 1
    ensures |es| < Cap ==> |Walk(es, typeName, maxDepth, depth).entries| <= |es|
    ensures |es| >= Cap ==>
              var r := Walk(es, typeName, maxDepth, depth).entries;
              r[|r| - 1].1 == S(Trailer(|es|, Cap))
  {
    if |es| < Cap {
      var acc := Fill(es, maxDepth, depth);
      assert Walk(es, typeName, maxDepth, depth) == Map(acc);
      FillLength(es, maxDepth, depth);
    } else {
      var acc := Fill(es[..Cap], maxDepth, depth);
      var r := Push(acc, S(Trailer(|es|, Cap)));
      assert Walk(es, typeName, maxDepth, depth) == Map(r);
      FillLength(es[..Cap], maxDepth, depth);
    }
  }

  /** On distinct keys within budget: the first `Cap` elements in order
      under their own keys, then, from exactly `Cap` elements on (even when
      none is left out), the trailer under the next free integer key. */
  lemma WalkInOrder(es: seq<(Key, Value)>, typeName: string, maxDepth: int, depth: int)
    requires depth < maxDepth && UniqueKeys(es)
    ensures Walk(es, typeName, maxDepth, depth).Map?
    ensures var r := Walk(es, typeName, maxDepth, depth).entries;
            && |r| == (if |es| < Cap then |es| else Cap + 1)
            && (forall i :: 0 <= i < |es| && i < Cap ==>
                  r[i] == (es[i].0, Sanitize(es[i].1, maxDepth, depth + 1)))
            && (|es| >= Cap ==>
                  r[Cap] == (IntKey(NextFree(es[..Cap])), S(Trailer(|es|, Cap))))
  {
    if |es| < Cap {
      var acc := Fill(es, maxDepth, depth);
      assert Walk(es, typeName, maxDepth, depth) == Map(acc);
      FillInOrder(es, maxDepth, depth);
    } else {
      var head := es[..Cap];
      var acc := Fill(head, maxDepth, depth);
      var r := Push(acc, S(Trailer(|es|, Cap)));
      assert Walk(es, typeName, maxDepth, depth) == Map(r);
      assert UniqueKeys(head);
      FillInOrder(head, maxDepth, depth);
      NextFreeSameKeys(acc, head);
      assert r[..Cap] == acc;
      forall i | 0 <= i < Cap
        ensures r[i] == (es[i].0, Sanitize(es[i].1, maxDepth, depth + 1))
      {
        assert r[i] == acc[i] && head[i] == es[i];
      }
    }
  }

  /** On distinct keys within budget the walker emits every element up to
      `Cap`, plus the trailer from `Cap` elements on. */
  lemma WalkLength(es: seq<(Key, Value)>, typeName: string, maxDepth: int, depth: int)
    requires depth < maxDepth && UniqueKeys(es)
    ensures Walk(es, typeName, maxDepth, depth).Map?
    ensures |Walk(es, typeName, maxDepth, depth).entries| == if |es| < Cap then |es| else Cap + 1
  {
    if |es| < Cap {
      FillInOrder(es, maxDepth, depth);
    } else {
      assert UniqueKeys(es[..Cap]);
      FillInOrder(es[..Cap], maxDepth, depth);
    }
  }

  /** Twenty-five elements give twenty entries and `... and 5 more ...`;
      exactly twenty give the trailer `... and 0 more ...`. */
  lemma TrailerExamples(es: seq<(Key, Value)>, typeName: string, maxDepth: int, depth: int)
    requires depth < maxDepth && UniqueKeys(es)
    ensures Walk(es, typeName, maxDepth, depth).Map?
    ensures |es| == 25 ==>
              var r := Walk(es, typeName, maxDepth, depth).entries;
              |r| == 21 && r[20].1 == S("... and 5 more ...")
    ensures |es| == 20 ==>
              var r := Walk(es, typeName, maxDepth, depth).entries;
              |r| == 21 && r[20].1 == S("... and 0 more ...")
  {
    WalkLength(es, typeName, maxDepth, depth);
    ContainerCap(es, typeName, maxDepth, depth);
    if |es| == 25 {
      assert IntText(|es| - Cap) == "5";
    } else if |es| == 20 {
      assert IntText(|es| - Cap) == "0";
    }
  }

  // ---- Objects within budget ----

  /** An object within budget is a map: `class` first, then exactly one of
      `iterateable` (the walker over what it yields, at the same depth) or
      `accessors`. */
  lemma ObjectWithinBudget(o: Object, maxDepth: int, depth: int)
    requires depth < maxDepth
    ensures var r := Sanitize(Obj(o), maxDepth, depth);
            && r.Map? && |r.entries| == 2
            && r.entries[0] == (StrKey("class"), S(ClassLabel(o)))
            && r.entries[1] == (match o.traversal
                 case Some(es) => (StrKey("iterateable"), Walk(es, "object", maxDepth, depth))
                 case None => (StrKey("accessors"), Map(Accessors(o.methods, maxDepth, depth))))
            && (o.traversal.Some? ==> r.entries[1].1.Map?)
  {
  }
}

module DumpyAccessors {
  import opened PhpArrays
  import opened PhpValues
  import opened DumpyTwigFilter

  /** The methods the accessor loop lists, in reflection order. */
  function Listed(ms: seq<Method>): (r: seq<Method>)
    ensures |r| <= |ms|
    ensures forall i :: 0 <= i < |r| ==> IsListed(r[i]) && r[i] in ms
    ensures forall x :: x in ms && IsListed(x) ==> x in r
  {
    if ms == [] then []
    else
      var init, last := ms[..|ms| - 1], ms[|ms| - 1];
      assert forall x :: x in ms ==> x in init || x == last;
      Listed(init) + (if IsListed(last) then [last] else [])
  }

  /** How many of the first `n` methods of `ls` need arguments: the list
      slot the next such method takes. */
  function Pushed(ls: seq<Method>, n: nat): (r: nat)
    requires n <= |ls|
    ensures r <= n
  {
    if n == 0 then 0
    else Pushed(ls, n - 1) + (if RequiredCount(ls[n - 1].params) > 0 then 1 else 0)
  }

  /** The count over a prefix does not look past it. */
  lemma {:induction false} PushedPrefix(ls: seq<Method>, ls': seq<Method>, n: nat)
    requires n <= |ls| <= |ls'| && ls'[..|ls|] == ls
    ensures Pushed(ls, n) == Pushed(ls', n)
  {
    if n > 0 {
      PushedPrefix(ls, ls', n - 1);
      assert ls[n - 1] == ls'[..|ls|][n - 1];
    }
  }

  /** A PHP class: method names are distinct identifiers (no parenthesis). */
  predicate WellFormedMethods(ms: seq<Method>)
  {
    && (forall i, j :: 0 <= i < j < |ms| ==> ms[i].name != ms[j].name)
    && (forall i, k :: 0 <= i < |ms| && 0 <= k < |ms[i].name| ==> ms[i].name[k] != '(')
  }

  /** The entry a listed method contributes: invoked under its signature when
      nothing is required, else its signature pushed at the given slot. */
  function AccessorEntry(l: Method, slot: nat, maxDepth: int, depth: int): (Key, Out)
    requires depth < maxDepth
  {
    if RequiredCount(l.params) == 0 then (StrKey(Signature(l)), Invoked(l.outcome, maxDepth, depth))
    else (IntKey(slot), S(Signature(l)))
  }

  /** Names without a parenthesis have distinct signatures when distinct. */
  lemma SignatureInjective(a: Method, b: Method)
    requires forall k :: 0 <= k < |a.name| ==> a.name[k] != '('
    requires forall k :: 0 <= k < |b.name| ==> b.name[k] != '('
    requires Signature(a) == Signature(b)
    ensures a.name == b.name
  {
    var s := Signature(a);
    assert a.name + "(" <= s && b.name + "(" <= s;
    ParenthesisAt(a.name, b.name, s);
    ParenthesisAt(b.name, a.name, s);
    assert a.name == s[..|a.name|] == b.name;
  }

  /** A name followed by `(` cannot be a proper prefix of another such name. */
  lemma ParenthesisAt(x: string, y: string, s: string)
    requires x + "(" <= s && y + "(" <= s
    requires forall k :: 0 <= k < |y| ==> y[k] != '('
    ensures |y| <= |x|
  {
    var n := |x|;
    assert s[n] == (x + "(")[n];
  }

  lemma NextFreeAppend<V>(a: seq<(Key, V)>, x: (Key, V))
    ensures NextFree(a + [x]) == if KeyNext(x.0) > NextFree(a) then KeyNext(x.0) else NextFree(a)
  {
    assert (a + [x])[..|a|] == a;
  }

  /** `acc` holds one entry per method of `ls`, in order, as `AccessorEntry`
      says, and its next free list slot is the number pushed so far. */
  predicate InOrder(acc: seq<(Key, Out)>, ls: seq<Method>, maxDepth: int, depth: int)
    requires depth < maxDepth
  {
    && |acc| == |ls|
    && (forall i :: 0 <= i < |ls| ==> acc[i] == AccessorEntry(ls[i], Pushed(ls, i), maxDepth, depth))
    && NextFree(acc) == Pushed(ls, |ls|)
  }

  /** Appending the entry of one more listed method keeps `InOrder`. */
  lemma InOrderAppend(acc: seq<(Key, Out)>, ls: seq<Method>, l: Method, maxDepth: int, depth: int)
    requires depth < maxDepth && InOrder(acc, ls, maxDepth, depth)
    ensures InOrder(acc + [AccessorEntry(l, Pushed(ls, |ls|), maxDepth, depth)], ls + [l], maxDepth, depth)
  {
    var n := |ls|;
    var e := AccessorEntry(l, Pushed(ls, n), maxDepth, depth);
    var acc', ls' := acc + [e], ls + [l];
    assert ls'[..n] == ls;
    forall i: nat | i < |ls'|
      ensures acc'[i] == AccessorEntry(ls'[i], Pushed(ls', i), maxDepth, depth)
    {
      if i < n {
        PushedPrefix(ls, ls', i);
      } else {
        PushedPrefix(ls, ls', n);
      }
    }
    PushedPrefix(ls, ls', n);
    assert Pushed(ls', n + 1) == Pushed(ls, n) + (if RequiredCount(l.params) > 0 then 1 else 0);
    NextFreeAppend(acc, e);
  }


  /** For a PHP class, the accessors map holds one entry per listed method,
      in reflection order, each as `AccessorEntry` says; the methods needing
      arguments take the list slots 0, 1, 2, ... */
  lemma {:induction false} AccessorsInOrder(ms: seq<Method>, maxDepth: int, depth: int)
    requires depth < maxDepth && WellFormedMethods(ms)
    ensures InOrder(Accessors(ms, maxDepth, depth), Listed(ms), maxDepth, depth)
  {
    if ms != [] {
      var init, last := ms[..|ms| - 1], ms[|ms| - 1];
      assert WellFormedMethods(init);
      AccessorsInOrder(init, maxDepth, depth);
      var acc0, ls0 := Accessors(init, maxDepth, depth), Listed(init);
      if IsListed(last) {
        assert Listed(ms) == ls0 + [last];
        var e := AccessorEntry(last, Pushed(ls0, |ls0|), maxDepth, depth);
        if RequiredCount(last.params) == 0 {
          NoSignatureClash(init, last, acc0, maxDepth, depth);
        }
        assert Accessors(ms, maxDepth, depth) == acc0 + [e];
        InOrderAppend(acc0, ls0, last, maxDepth, depth);
      } else {
        assert Listed(ms) == ls0;
      }
    }
  }

  /** A method's signature is not yet a key of the accessors built from the
      methods before it. */
  lemma NoSignatureClash(init: seq<Method>, last: Method, acc0: seq<(Key, Out)>, maxDepth: int, depth: int)
    requires depth < maxDepth && WellFormedMethods(init + [last])
    requires acc0 == Accessors(init, maxDepth, depth)
    requires InOrder(acc0, Listed(init), maxDepth, depth)
    ensures forall i :: 0 <= i < |acc0| ==> acc0[i].0 != StrKey(Signature(last))
  {
    var ms, ls0 := init + [last], Listed(init);
    forall i | 0 <= i < |acc0| ensures acc0[i].0 != StrKey(Signature(last)) {
      var l := ls0[i];
      if RequiredCount(l.params) == 0 && Signature(l) == Signature(last) {
        var j :| 0 <= j < |init| && init[j] == l;
        assert ms[j] == l && ms[|ms| - 1] == last;
        SignatureInjective(l, last);
        assert false;
      }
    }
  }

  /** An accessor that throws yields the fault text under its signature;
      the throw touches no other entry and no entry is lost. */
  lemma FaultIsolation(ms: seq<Method>, maxDepth: int, depth: int, i: int, c: string, msg: string)
    requires depth < maxDepth && WellFormedMethods(ms)
    requires 0 <= i < |Listed(ms)|
    requires RequiredCount(Listed(ms)[i].params) == 0 && Listed(ms)[i].outcome == Throws(c, msg)
    ensures var acc := Accessors(ms, maxDepth, depth);
            && |acc| == |Listed(ms)|
            && acc[i] == (StrKey(Signature(Listed(ms)[i])), S(FaultMessage(c, msg)))
  {
    AccessorsInOrder(ms, maxDepth, depth);
    var acc, ls := Accessors(ms, maxDepth, depth), Listed(ms);
    var l := ls[i];
    assert acc[i] == AccessorEntry(l, Pushed(ls, i), maxDepth, depth);
    ThrownOutcome(c, msg, maxDepth, depth);
  }

  /** A thrown Exception becomes its fault text, whatever the depth left. */
  lemma ThrownOutcome(c: string, msg: string, maxDepth: int, depth: int)
    requires depth < maxDepth
    ensures Invoked(Throws(c, msg), maxDepth, depth) == S(FaultMessage(c, msg))
  {
  }
}

module DumpyExamples {
  import opened PhpArrays
  import opened PhpValues
  import opened DumpyTwigFilter
  import opened DumpyProperties

  /** A name whose `i`-th letter differs from the prefix's does not start with it. */
  lemma MismatchAt(s: string, p: string, i: nat)
    requires i < |p| && i < |s| && Lower(s[i]) != p[i]
    ensures !StartsWithIgnoringCase(s, p)
  {
  }

  /** `#^(get|has|is)#i` matches at the start, in any letter case. */
  lemma AccessorNamesMatched()
    ensures IsAccessorName("getId") && IsAccessorName("IsEnabled")
    ensures IsAccessorName("HASChildren") && IsAccessorName("issue") && IsAccessorName("get")
  {
    assert StartsWithIgnoringCase("getId", "get");
    assert StartsWithIgnoringCase("IsEnabled", "is");
    assert StartsWithIgnoringCase("HASChildren", "has");
    assert StartsWithIgnoringCase("issue", "is");
    assert StartsWithIgnoringCase("get", "get");
  }

  /** ... and nowhere else. */
  lemma AccessorNamesRejected()
    ensures !IsAccessorName("toString") && !IsAccessorName("__get")
    ensures !IsAccessorName("g") && !IsAccessorName("hs") && !IsAccessorName("forgetIt")
  {
    RejectedByFirstLetter("toString");
    RejectedByFirstLetter("__get");
    RejectedByFirstLetter("forgetIt");
    assert !StartsWithIgnoringCase("g", "get") && !StartsWithIgnoringCase("g", "has");
    MismatchAt("g", "is", 0);
    MismatchAt("hs", "get", 0);
    MismatchAt("hs", "has", 1);
    MismatchAt("hs", "is", 0);
  }

  lemma RejectedByFirstLetter(s: string)
    requires s != [] && Lower(s[0]) != 'g' && Lower(s[0]) != 'h' && Lower(s[0]) != 'i'
    ensures !IsAccessorName(s)
  {
    MismatchAt(s, "get", 0);
    MismatchAt(s, "has", 0);
    MismatchAt(s, "is", 0);
  }

  /** The stub shows every parameter, optional or not, with its `$`. */
  lemma SignatureExamples(o: Outcome)
    ensures Signature(Method("getName", true, [], o)) == "getName()"
    ensures Signature(Method("getPart", true, [Param("from", false), Param("to", true)], o))
              == "getPart($from, $to)"
  {
    assert ParamList([Param("from", false), Param("to", true)]) == "$from, $to" by {
      assert [Param("from", false), Param("to", true)][..1] == [Param("from", false)];
    }
  }

  /** The filter's default depth expands the YAML exactly as deep as `INLINE`. */
  lemma DefaultInline()
    ensures InlineLevel(MaxDepth) == Inline
  {
  }

  /** The array of the class comment, `array('a' => array('b' => array('c', 'd')))`. */
  function Foo(): Value
  {
    Arr([(StrKey("a"), Arr(B()))])
  }

  function Cd(): seq<(Key, Value)> { [(IntKey(0), Str("c")), (IntKey(1), Str("d"))] }
  function B(): seq<(Key, Value)> { [(StrKey("b"), Arr(Cd()))] }

  /** `dumpy(0)`: the outer array is only counted. */
  lemma DumpyZero()
    ensures Sanitize(Foo(), 0, 0) == S("array of 1")
  {
    ExhaustedSummaries([(StrKey("a"), Arr(B()))], Object("", "", None, [], NoGetId, NoToString, None), 0, 0);
    assert IntText(1) == "1";
  }

  /** `dumpy(2)`: the innermost array is counted at depth 2. */
  lemma DumpyTwo()
    ensures Sanitize(Foo(), 2, 0) == Map([(StrKey("a"), Map([(StrKey("b"), S("array of 2"))]))])
  {
    ExhaustedSummaries(Cd(), Object("", "", None, [], NoGetId, NoToString, None), 2, 2);
    assert |Cd()| == 2 && IntText(2) == "2";
    assert Sanitize(Arr(Cd()), 2, 2) == S("array of 2");
    SingleEntry(B(), 2, 1);
    SingleEntry([(StrKey("a"), Arr(B()))], 2, 0);
  }

  /** `dumpy(3)`: the strings are reached, tagged as the code tags them. */
  lemma DumpyThree()
    ensures Sanitize(Foo(), 3, 0)
              == Map([(StrKey("a"), Map([(StrKey("b"),
                   Map([(IntKey(0), S("(string) c")), (IntKey(1), S("(string) d"))]))]))])
  {
    var cd := Cd();
    assert Sanitize(Str("c"), 3, 3) == S("(string) c");
    assert Sanitize(Str("d"), 3, 3) == S("(string) d");
    assert cd[..1] == [(IntKey(0), Str("c"))] && cd[..1][..0] == [];
    var one := Fill(cd[..1], 3, 2);
    assert one == Set([], IntKey(0), S("(string) c")) == [(IntKey(0), S("(string) c"))];
    assert Fill(cd, 3, 2) == Set(one, IntKey(1), S("(string) d"));
    assert Fill(cd, 3, 2) == [(IntKey(0), S("(string) c")), (IntKey(1), S("(string) d"))];
    assert Sanitize(Arr(cd), 3, 2) == Walk(cd, "array", 3, 2) == Map(Fill(cd, 3, 2));
    SingleEntry(B(), 3, 1);
    SingleEntry([(StrKey("a"), Arr(B()))], 3, 0);
  }

  /** A one-element array within budget sanitizes to that one entry. */
  lemma SingleEntry(es: seq<(Key, Value)>, maxDepth: int, depth: int)
    requires depth < maxDepth && |es| == 1
    ensures Sanitize(Arr(es), maxDepth, depth)
              == Map([(es[0].0, Sanitize(es[0].1, maxDepth, depth + 1))])
  {
    assert es[..0] == [];
    assert Fill(es, maxDepth, depth) == Set([], es[0].0, Sanitize(es[0].1, maxDepth, depth + 1));
    assert Sanitize(Arr(es), maxDepth, depth) == Walk(es, "array", maxDepth, depth);
  }
}
