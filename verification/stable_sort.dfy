/** Stable sorting by a two-part key. Each display comparator of the source
    orders records lexicographically by such a key, and
    `Array.prototype.sort` is stable, so the sorted array is the unique
    stable ordering by that key; this module computes it by insertion sort. */
module StableSort {
  import opened Seqs

  /** A sort key, compared major part first. */
  datatype Key = Key(major: int, minor: int)

  predicate KeyLe(a: Key, b: Key) {
    a.major < b.major || (a.major == b.major && a.minor <= b.minor)
  }

  predicate KeyLt(a: Key, b: Key) {
    a.major < b.major || (a.major == b.major && a.minor < b.minor)
  }

  /** Every element's key is at most every later element's key. */
  ghost predicate SortedBy<T>(s: seq<T>, key: T -> Key) {
    forall i, j :: 0 <= i < j < |s| ==> KeyLe(key(s[i]), key(s[j]))
  }

  /** `x => key(x) == k`: the elements of one equivalence class. */
  function HasKey<T>(key: T -> Key, k: Key): T -> bool {
    x => key(x) == k
  }

  /** Inserts `x` in front of the first element whose key is not smaller,
      so that `x` precedes the elements it ties with. */
  function Insert<T>(x: T, s: seq<T>, key: T -> Key): (r: seq<T>)
    requires SortedBy(s, key)
    ensures SortedBy(r, key)
    ensures multiset(r) == multiset(s) + multiset{x}
    ensures |r| == |s| + 1
    ensures forall i :: 0 <= i < |r| ==> r[i] == x || r[i] in s
  {
    if |s| == 0 || KeyLe(key(x), key(s[0])) then
      [x] + s
    else
      var t := Insert(x, s[1..], key);
      assert s == [s[0]] + s[1..];
      assert forall i :: 0 <= i < |t| ==> KeyLe(key(s[0]), key(t[i])) by {
        forall i | 0 <= i < |t|
          ensures KeyLe(key(s[0]), key(t[i]))
        {
          if t[i] != x {
            var j :| 0 <= j < |s[1..]| && s[1..][j] == t[i];
            assert s[j + 1] == t[i];
          }
        }
      }
      [s[0]] + t
  }

  /** The stable sort of `s` by `key`. */
  function SortByKey<T>(s: seq<T>, key: T -> Key): (r: seq<T>)
    ensures SortedBy(r, key)
    ensures multiset(r) == multiset(s)
    ensures |r| == |s|
  {
    if |s| == 0 then []
    else
      assert s == [s[0]] + s[1..];
      Insert(s[0], SortByKey(s[1..], key), key)
  }

  /** Inserting `x` adds it at the front of its own key class and leaves the
      other classes as they were. */
  lemma {:induction false} InsertKeepsClasses<T>(x: T, s: seq<T>, key: T -> Key, k: Key)
    requires SortedBy(s, key)
    ensures Filter(Insert(x, s, key), HasKey(key, k)) ==
            (if key(x) == k then [x] else []) + Filter(s, HasKey(key, k))
  {
    if |s| == 0 || KeyLe(key(x), key(s[0])) {
      assert Insert(x, s, key) == [x] + s;
      assert ([x] + s)[1..] == s;
    } else {
      InsertKeepsClasses(x, s[1..], key, k);
      var t := Insert(x, s[1..], key);
      assert Insert(x, s, key) == [s[0]] + t;
      assert ([s[0]] + t)[1..] == t;
    }
  }

  /** Stability: within every key class the sorted sequence keeps the input order. */
  lemma {:induction false} SortIsStable<T>(s: seq<T>, key: T -> Key, k: Key)
    ensures Filter(SortByKey(s, key), HasKey(key, k)) == Filter(s, HasKey(key, k))
  {
    if |s| > 0 {
      SortIsStable(s[1..], key, k);
      InsertKeepsClasses(s[0], SortByKey(s[1..], key), key, k);
    }
  }

  /** A comparator `cmp` "agrees with" `key` when its sign is the sign of the
      key comparison: negative, zero and positive for less, equal and greater. */
  ghost predicate AgreesWithKey<T(!new)>(cmp: (T, T) -> int, key: T -> Key) {
    forall a, b ::
      && (cmp(a, b) < 0 <==> KeyLt(key(a), key(b)))
      && (cmp(a, b) > 0 <==> KeyLt(key(b), key(a)))
  }

  /** The ECMAScript "consistent comparator" conditions for
      `Array.prototype.sort`: the comparator induces a strict weak order whose
      incomparability is an equivalence. Only then is the result determined. */
  ghost predicate ConsistentComparator<T(!new)>(cmp: (T, T) -> int) {
    && (forall a :: cmp(a, a) == 0)
    && (forall a, b :: cmp(a, b) < 0 <==> cmp(b, a) > 0)
    && (forall a, b, c :: cmp(a, b) < 0 && cmp(b, c) < 0 ==> cmp(a, c) < 0)
    && (forall a, b, c :: cmp(a, b) == 0 && cmp(b, c) == 0 ==> cmp(a, c) == 0)
  }

  /** A comparator that agrees with a key is consistent. */
  lemma AgreeingComparatorIsConsistent<T(!new)>(cmp: (T, T) -> int, key: T -> Key)
    requires AgreesWithKey(cmp, key)
    ensures ConsistentComparator(cmp)
  {
    forall a, b, c | cmp(a, b) == 0 && cmp(b, c) == 0
      ensures cmp(a, c) == 0
    {
      assert key(a) == key(b) && key(b) == key(c);
    }
  }
}
