/** PHP's ordered arrays, as far as the sanitizer builds them: a sequence of
    key/value entries in insertion order, where `$a[$k] = $v` overwrites an
    existing key in place and appends a new one, and `$a[] = $v` appends
    under the next free integer key. */
module PhpArrays {

  datatype Option<+T> = None | Some(value: T)

  /** A key as PHP stores it after its own key normalisation. */
  datatype Key = IntKey(i: int) | StrKey(s: string)

  /** No key occurs twice: true of every array PHP itself builds. */
  predicate UniqueKeys<V>(a: seq<(Key, V)>)
  {
    forall i, j :: 0 <= i < j < |a| ==> a[i].0 != a[j].0
  }

  /** Position of key `k`, or -1 when `k` is absent. */
  function IndexOf<V>(a: seq<(Key, V)>, k: Key): (r: int)
    ensures -1 <= r < |a|
    ensures r == -1 ==> forall j :: 0 <= j < |a| ==> a[j].0 != k
    ensures r >= 0 ==> a[r].0 == k && forall j :: 0 <= j < r ==> a[j].0 != k
  {
    if a == [] then -1
    else if a[0].0 == k then 0
    else
      var r := IndexOf(a[1..], k);
      assert forall j :: 1 <= j < |a| ==> a[j] == a[1..][j - 1];
      if r == -1 then -1 else r + 1
  }

  /** `$a[$k]`, or None when the key is absent. */
  function Lookup<V>(a: seq<(Key, V)>, k: Key): (r: Option<V>)
    ensures r.Some? <==> exists j :: 0 <= j < |a| && a[j].0 == k
  {
    var i := IndexOf(a, k);
    if i < 0 then None else Some(a[i].1)
  }

  /** `$a[$k] = $v`: an existing key keeps its place, a new key goes last. */
  function Set<V>(a: seq<(Key, V)>, k: Key, v: V): (r: seq<(Key, V)>)
    ensures |a| <= |r| <= |a| + 1
    ensures forall j :: 0 <= j < |a| ==> r[j].0 == a[j].0
    ensures (forall j :: 0 <= j < |a| ==> a[j].0 != k) ==> r == a + [(k, v)]
  {
    var i := IndexOf(a, k);
    if i < 0 then a + [(k, v)] else a[i := (k, v)]
  }

  /** After `$a[$k] = $v`, `$a[$k]` is `$v` and every other key reads as before. */
  lemma SetLookup<V>(a: seq<(Key, V)>, k: Key, v: V)
    ensures Lookup(Set(a, k, v), k) == Some(v)
    ensures forall k' :: k' != k ==> Lookup(Set(a, k, v), k') == Lookup(a, k')
  {
    var i := IndexOf(a, k);
    var r := Set(a, k, v);
    IndexOfAt(r, k, if i < 0 then |a| else i);
    forall k' | k' != k ensures Lookup(r, k') == Lookup(a, k') {
      IndexOfPrefixKeys(a, r, k');
    }
  }

  /** `$a[$k] = $v` keeps keys unique, and every entry is old or the new one. */
  lemma SetEntries<V>(a: seq<(Key, V)>, k: Key, v: V)
    ensures forall j :: 0 <= j < |Set(a, k, v)| ==> Set(a, k, v)[j] == (k, v) || Set(a, k, v)[j] in a
    ensures UniqueKeys(a) ==> UniqueKeys(Set(a, k, v))
  {
  }

  /** The index of a key is its first position. */
  lemma IndexOfAt<V>(a: seq<(Key, V)>, k: Key, i: int)
    requires 0 <= i < |a| && a[i].0 == k
    requires forall j :: 0 <= j < i ==> a[j].0 != k
    ensures IndexOf(a, k) == i
  {
  }

  /** Extending an array by entries that do not carry `k` keeps the index of `k`. */
  lemma IndexOfPrefixKeys<V>(a: seq<(Key, V)>, b: seq<(Key, V)>, k: Key)
    requires |a| <= |b|
    requires forall j :: 0 <= j < |a| ==> a[j].0 == b[j].0
    requires forall j :: |a| <= j < |b| ==> b[j].0 != k
    ensures IndexOf(a, k) == IndexOf(b, k)
  {
    var i := IndexOf(a, k);
    if i >= 0 {
      IndexOfAt(b, k, i);
    }
  }

  /** The next free index a key leaves behind: one past an integer key. */
  function KeyNext(k: Key): int
  {
    match k
    case IntKey(i) => i + 1
    case StrKey(_) => 0
  }

  /** The index `$a[] = $v` uses: one past the largest integer key, and never
      below 0 (PHP before 8.3). */
  function NextFree<V>(a: seq<(Key, V)>): (n: int)
    ensures n >= 0
    ensures forall j :: 0 <= j < |a| && a[j].0.IntKey? ==> a[j].0.i < n
    ensures n == 0 || exists j :: 0 <= j < |a| && a[j].0 == IntKey(n - 1)
  {
    if a == [] then 0
    else
      var n := NextFree(a[..|a| - 1]);
      var kn := KeyNext(a[|a| - 1].0);
      assert forall j :: 0 <= j < |a| - 1 ==> a[j] == a[..|a| - 1][j];
      if kn > n then kn else n
  }

  /** `$a[] = $v`. */
  function Push<V>(a: seq<(Key, V)>, v: V): (r: seq<(Key, V)>)
    ensures |r| == |a| + 1 && r[..|a|] == a && r[|a|].1 == v
    ensures r[|a|].0.IntKey? && r[|a|].0.i >= 0
    ensures forall j :: 0 <= j < |a| ==> a[j].0 != r[|a|].0
    ensures UniqueKeys(a) ==> UniqueKeys(r)
  {
    a + [(IntKey(NextFree(a)), v)]
  }
}
