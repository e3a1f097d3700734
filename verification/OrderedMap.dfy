/** `std::map<std::string, V>` as the sequence of its entries in iteration order. */
module OrderedMap {
  import opened Text

  datatype Entry<+V> = Entry(key: string, value: V)

  /** The order of `std::string`: character by character, a prefix first. */
  predicate Less(a: string, b: string) {
    b != "" && (a == "" || a[0] < b[0] || (a[0] == b[0] && Less(a[1..], b[1..])))
  }

  lemma LessIrreflexive(a: string)
    ensures !Less(a, a)
  {
  }

  lemma LessTransitive(a: string, b: string, c: string)
    requires Less(a, b) && Less(b, c)
    ensures Less(a, c)
  {
  }

  lemma {:induction false} LessConnected(a: string, b: string)
    requires a != b && !Less(a, b)
    ensures Less(b, a)
  {
    if a != "" && b != "" && a[0] == b[0] {
      assert a == [a[0]] + a[1..] && b == [b[0]] + b[1..];
      LessConnected(a[1..], b[1..]);
    }
  }

  /** The texts are equal up to `n`, where the first one ends or has the smaller character. */
  predicate DiffersAt(a: string, b: string, n: nat) {
    n <= |a| && n < |b| && a[..n] == b[..n] && (n == |a| || a[n] < b[n])
  }

  lemma {:induction false} LessExactly(a: string, b: string)
    ensures Less(a, b) <==> exists n: nat :: DiffersAt(a, b, n)
  {
    if b == "" || a == "" || a[0] != b[0] {
      assert Less(a, b) ==> DiffersAt(a, b, 0);
    } else {
      LessExactly(a[1..], b[1..]);
      if Less(a, b) {
        var n: nat :| DiffersAt(a[1..], b[1..], n);
        DiffersLater(a, b, n + 1);
      }
      forall n: nat | DiffersAt(a, b, n) ensures Less(a, b) {
        assert n > 0;
        DiffersLater(a, b, n);
      }
    }
  }

  lemma DiffersLater(a: string, b: string, n: nat)
    requires a != "" && b != "" && a[0] == b[0] && n > 0
    ensures DiffersAt(a, b, n) <==> DiffersAt(a[1..], b[1..], n - 1)
  {
    if n <= |a| && n < |b| {
      assert a[..n] == [a[0]] + a[1..][..n - 1] && b[..n] == [b[0]] + b[1..][..n - 1];
      assert a[1..][..n - 1] == a[..n][1..] && b[1..][..n - 1] == b[..n][1..];
    }
  }

  ghost predicate Ordered<V>(m: seq<Entry<V>>) {
    forall i, j :: 0 <= i < j < |m| ==> Less(m[i].key, m[j].key)
  }

  /** `m[k] = v`. */
  function Put<V>(m: seq<Entry<V>>, k: string, v: V): seq<Entry<V>> {
    if m == [] then [Entry(k, v)]
    else if m[0].key == k then [Entry(k, v)] + m[1..]
    else if Less(k, m[0].key) then [Entry(k, v)] + m
    else [m[0]] + Put(m[1..], k, v)
  }

  function Find<V>(m: seq<Entry<V>>, k: string): Option<V> {
    if m == [] then None
    else if m[0].key == k then Some(m[0].value)
    else Find(m[1..], k)
  }

  predicate Has<V>(m: seq<Entry<V>>, k: string) {
    Find(m, k).Some?
  }

  lemma {:induction false} PutKeys<V>(m: seq<Entry<V>>, k: string, v: V)
    ensures forall e :: e in Put(m, k, v) ==> e == Entry(k, v) || e in m
    ensures |Put(m, k, v)| >= 1
  {
    if m != [] {
      PutKeys(m[1..], k, v);
    }
  }

  lemma {:induction false} PutOrdered<V>(m: seq<Entry<V>>, k: string, v: V)
    requires Ordered(m)
    ensures Ordered(Put(m, k, v))
  {
    if m != [] && m[0].key != k {
      if Less(k, m[0].key) {
        forall j | 1 <= j < |m| ensures Less(k, m[j].key) {
          LessTransitive(k, m[0].key, m[j].key);
        }
      } else {
        LessConnected(k, m[0].key);
        PutOrdered(m[1..], k, v);
        PutKeys(m[1..], k, v);
        var tail := Put(m[1..], k, v);
        forall j | 0 <= j < |tail| ensures Less(m[0].key, tail[j].key) {
          assert tail[j] in tail;
        }
      }
    }
  }

  lemma {:induction false} FindPut<V>(m: seq<Entry<V>>, k: string, v: V, q: string)
    ensures Find(Put(m, k, v), q) == if q == k then Some(v) else Find(m, q)
  {
    if m != [] {
      FindPut(m[1..], k, v, q);
    }
  }

  /** Putting a key greater than all others appends it. */
  lemma {:induction false} PutLast<V>(m: seq<Entry<V>>, k: string, v: V)
    requires forall i :: 0 <= i < |m| ==> Less(m[i].key, k)
    ensures Put(m, k, v) == m + [Entry(k, v)]
  {
    if m != [] {
      LessIrreflexive(k);
      if Less(k, m[0].key) {
        LessTransitive(k, m[0].key, k);
      }
      PutLast(m[1..], k, v);
    }
  }

  lemma {:induction false} FindMember<V>(m: seq<Entry<V>>, i: nat)
    requires Ordered(m) && i < |m|
    ensures Find(m, m[i].key) == Some(m[i].value)
  {
    if i > 0 {
      LessIrreflexive(m[i].key);
      assert m[0].key != m[i].key;
      FindMember(m[1..], i - 1);
    }
  }

  lemma {:induction false} FindSome<V>(m: seq<Entry<V>>, k: string)
    requires Find(m, k).Some?
    ensures Entry(k, Find(m, k).value) in m
  {
    if m[0].key != k {
      FindSome(m[1..], k);
    }
  }

  /** All keys of the first map come before all keys of the second. */
  ghost predicate Before<V>(a: seq<Entry<V>>, b: seq<Entry<V>>) {
    forall i, j :: 0 <= i < |a| && 0 <= j < |b| ==> Less(a[i].key, b[j].key)
  }

  /** Moving the first key of the second map over to the end of the first. */
  lemma MoveFirst<V>(a: seq<Entry<V>>, b: seq<Entry<V>>, v: V)
    requires b != [] && Ordered(b) && Before(a, b)
    ensures Put(a, b[0].key, v) == a + [Entry(b[0].key, v)]
    ensures Ordered(b[1..]) && Before(a + [Entry(b[0].key, v)], b[1..])
  {
    PutLast(a, b[0].key, v);
    var c := a + [Entry(b[0].key, v)];
    forall i, j | 0 <= i < |c| && 0 <= j < |b[1..]| ensures Less(c[i].key, b[1..][j].key) {
      assert b[1..][j] == b[j + 1];
    }
  }

  /** `m[e.key] = e.value` for one entry after the other. */
  function PutAll<V>(m: seq<Entry<V>>, es: seq<Entry<V>>): seq<Entry<V>>
    decreases |es|
  {
    if es == [] then m else PutAll(Put(m, es[0].key, es[0].value), es[1..])
  }

  lemma {:induction false} FindAbsent<V>(m: seq<Entry<V>>, k: string)
    requires forall i :: 0 <= i < |m| ==> Less(k, m[i].key)
    ensures Find(m, k) == None
  {
    if m != [] {
      LessIrreflexive(k);
      FindAbsent(m[1..], k);
    }
  }

  lemma {:induction false} FindPutAll<V>(m: seq<Entry<V>>, es: seq<Entry<V>>, q: string)
    requires Ordered(es)
    ensures Find(PutAll(m, es), q) == if Find(es, q).Some? then Find(es, q) else Find(m, q)
    decreases |es|
  {
    if es != [] {
      FindPutAll(Put(m, es[0].key, es[0].value), es[1..], q);
      FindPut(m, es[0].key, es[0].value, q);
      FindAbsent(es[1..], es[0].key);
    }
  }

  lemma {:induction false} PutAllOrdered<V>(m: seq<Entry<V>>, es: seq<Entry<V>>)
    requires Ordered(m)
    ensures Ordered(PutAll(m, es))
    decreases |es|
  {
    if es != [] {
      PutOrdered(m, es[0].key, es[0].value);
      PutAllOrdered(Put(m, es[0].key, es[0].value), es[1..]);
    }
  }

  ghost predicate SameFinds<V>(a: seq<Entry<V>>, b: seq<Entry<V>>) {
    forall q :: Find(a, q) == Find(b, q)
  }

  lemma FirstIsLeast<V>(a: seq<Entry<V>>, b: seq<Entry<V>>)
    requires Ordered(a) && Ordered(b) && SameFinds(a, b) && a != [] && b != []
    ensures !Less(a[0].key, b[0].key)
  {
    assert Find(a, a[0].key) == Find(b, a[0].key);
    if Less(a[0].key, b[0].key) {
      forall i | 0 <= i < |b| ensures Less(a[0].key, b[i].key) {
        if i > 0 {
          LessTransitive(a[0].key, b[0].key, b[i].key);
        }
      }
      FindAbsent(b, a[0].key);
    }
  }

  /** A map is what it finds. */
  lemma {:induction false} Extensional<V>(a: seq<Entry<V>>, b: seq<Entry<V>>)
    requires Ordered(a) && Ordered(b) && SameFinds(a, b)
    ensures a == b
  {
    if a != [] {
      assert Find(b, a[0].key) == Find(a, a[0].key);
    }
    if b != [] {
      assert Find(a, b[0].key) == Find(b, b[0].key);
    }
    if a != [] && b != [] {
      var k := a[0].key;
      FirstIsLeast(a, b);
      FirstIsLeast(b, a);
      if k != b[0].key {
        LessConnected(k, b[0].key);
      }
      FindAbsent(a[1..], k);
      FindAbsent(b[1..], k);
      forall q ensures Find(a[1..], q) == Find(b[1..], q) {
        assert Find(a, q) == Find(b, q);
      }
      assert Find(a, k) == Find(b, k);
      Extensional(a[1..], b[1..]);
      assert a == [a[0]] + a[1..] && b == [b[0]] + b[1..];
    }
  }
}
