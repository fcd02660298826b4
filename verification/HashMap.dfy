/** The allocator-independent hash map: an array of buckets, each an array of entries. */
module HashMap {
  import opened Options

  /** `slot` is the hash modulo the number of buckets. */
  datatype Entry<K, V> = Entry(slot: nat, key: K, value: V)

  /** Lengths are 64-bit words; a build with overflow checks stops where they wrap around. */
  const USIZE := 0x1_0000_0000_0000_0000

  function Up(n: nat): nat {
    if n + 1 == USIZE then 0 else n + 1
  }

  function Down(n: nat): nat {
    if n == 0 then USIZE - 1 else n - 1
  }

  type Buckets<K, V> = seq<seq<Entry<K, V>>>

  function Home<K>(hash: K -> nat, capacity: nat, k: K): nat
    requires capacity > 0
  {
    hash(k) % capacity
  }

  ghost predicate HasKey<K, V>(bucket: seq<Entry<K, V>>, k: K) {
    exists x :: 0 <= x < |bucket| && bucket[x].key == k
  }

  ghost predicate OnceEach<K, V>(bucket: seq<Entry<K, V>>) {
    forall x, y :: 0 <= x < y < |bucket| ==> bucket[x].key != bucket[y].key
  }

  ghost predicate InPlace<K, V>(hash: K -> nat, capacity: nat, b: nat, bucket: seq<Entry<K, V>>, m: map<K, V>)
    requires capacity > 0
  {
    forall x :: 0 <= x < |bucket| ==>
      && bucket[x].slot == b == Home(hash, capacity, bucket[x].key)
      && bucket[x].key in m && m[bucket[x].key] == bucket[x].value
  }

  /** The buckets hold exactly the map: each key once, in the bucket of its hash. */
  ghost predicate Holds<K, V>(hash: K -> nat, t: Buckets<K, V>, m: map<K, V>) {
    && |t| > 0
    && (forall b :: 0 <= b < |t| ==> OnceEach(t[b]) && InPlace(hash, |t|, b, t[b], m))
    && (forall k :: k in m ==> HasKey(t[Home(hash, |t|, k)], k))
  }

  lemma PushHolds<K, V>(hash: K -> nat, t: Buckets<K, V>, m: map<K, V>, k: K, v: V)
    requires Holds(hash, t, m) && k !in m
    ensures var h := Home(hash, |t|, k);
            Holds(hash, t[h := t[h] + [Entry(h, k, v)]], m[k := v])
  {
    var h := Home(hash, |t|, k);
    var bucket := t[h] + [Entry(h, k, v)];
    var t' := t[h := bucket];
    forall q | q in m[k := v] ensures HasKey(t'[Home(hash, |t'|, q)], q) {
      if q == k {
        assert bucket[|t[h]|].key == k;
      } else {
        var seen := t[Home(hash, |t|, q)];
        var x :| 0 <= x < |seen| && seen[x].key == q;
        assert t'[Home(hash, |t|, q)][x].key == q;
      }
    }
  }

  /** Changing the value of an entry in place. */
  lemma SetHolds<K, V>(hash: K -> nat, t: Buckets<K, V>, m: map<K, V>, h: nat, x: nat, v: V)
    requires Holds(hash, t, m) && h < |t| && x < |t[h]|
    ensures Holds(hash, t[h := t[h][x := t[h][x].(value := v)]], m[t[h][x].key := v])
  {
    var k := t[h][x].key;
    assert h == Home(hash, |t|, k);
    var bucket := t[h][x := t[h][x].(value := v)];
    assert forall y :: 0 <= y < |bucket| ==> bucket[y].key == t[h][y].key;
    var t' := t[h := bucket];
    forall q | q in m[k := v] ensures HasKey(t'[Home(hash, |t'|, q)], q) {
      var seen := t[Home(hash, |t|, q)];
      var y :| 0 <= y < |seen| && seen[y].key == q;
      assert t'[Home(hash, |t|, q)][y].key == q;
    }
  }

  /** Taking an entry out of its bucket. */
  lemma CutHolds<K, V>(hash: K -> nat, t: Buckets<K, V>, m: map<K, V>, h: nat, x: nat)
    requires Holds(hash, t, m) && h < |t| && x < |t[h]|
    ensures Holds(hash, t[h := t[h][..x] + t[h][x + 1..]], m - {t[h][x].key})
  {
    var k := t[h][x].key;
    assert h == Home(hash, |t|, k);
    var bucket := t[h][..x] + t[h][x + 1..];
    assert forall y :: 0 <= y < |bucket| ==> bucket[y] == t[h][if y < x then y else y + 1];
    var t' := t[h := bucket];
    forall q | q in m - {k} ensures HasKey(t'[Home(hash, |t'|, q)], q) {
      var seen := t[Home(hash, |t|, q)];
      var y :| 0 <= y < |seen| && seen[y].key == q;
      if Home(hash, |t|, q) == h {
        assert bucket[if y < x then y else y - 1].key == q;
      } else {
        assert t'[Home(hash, |t|, q)][y].key == q;
      }
    }
  }

  /** What a search of a bucket finds, and what it does not find is not in the map. */
  lemma FoundOrAbsent<K, V>(hash: K -> nat, t: Buckets<K, V>, m: map<K, V>, k: K)
    requires Holds(hash, t, m)
    ensures var bucket := t[Home(hash, |t|, k)];
            && (k in m <==> HasKey(bucket, k))
            && (forall x :: 0 <= x < |bucket| && bucket[x].key == k ==> m[k] == bucket[x].value)
  {
    assert InPlace(hash, |t|, Home(hash, |t|, k), t[Home(hash, |t|, k)], m);
  }

  /** How many buckets hold something. */
  function Used<K, V>(t: Buckets<K, V>): nat {
    if t == [] then 0 else (if t[0] == [] then 0 else 1) + Used(t[1..])
  }

  lemma {:induction false} UsedUpdate<K, V>(t: Buckets<K, V>, h: nat, bucket: seq<Entry<K, V>>)
    requires h < |t|
    ensures Used(t[h := bucket]) - (if bucket == [] then 0 else 1) == Used(t) - (if t[h] == [] then 0 else 1)
  {
    if h == 0 {
      assert t[h := bucket][1..] == t[1..];
    } else {
      assert t[h := bucket][1..] == t[1..][h - 1 := bucket];
      UsedUpdate(t[1..], h - 1, bucket);
    }
  }

  lemma {:induction false} UsedNone<K, V>(t: Buckets<K, V>)
    requires forall b | 0 <= b < |t| :: t[b] == []
    ensures Used(t) == 0
  {
    if t != [] {
      UsedNone(t[1..]);
    }
  }

  lemma BelowHalf(used: nat, len: nat)
    requires len > 0
    ensures used as real / len as real < 0.5 <==> 2 * used < len
  {
    HalfOf(used as real, len as real, used as real / len as real);
  }

  lemma HalfOf(used: real, len: real, spread: real)
    requires len > 0.0 && spread * len == used
    ensures spread < 0.5 <==> 2.0 * used < len
  {
    if spread < 0.5 {
      assert spread * len < 0.5 * len;
    } else {
      assert spread * len >= 0.5 * len;
    }
  }

  // ---- growable arrays -------------------------------------------------------------------

  /** `Array::remove`: pops down to the element, drops it, and pushes the rest back. */
  method ArrayRemove<T>(a: seq<T>, index: nat) returns (r: Option<T>, a': seq<T>)
    ensures if index >= |a| then r == None && a' == a else r == Some(a[index]) && a' == a[..index] + a[index + 1..]
  {
    a' := a;
    if index >= |a| {
      return None, a;
    }
    var saved := [];
    for i := 0 to |a| - index - 1
      invariant a' == a[..|a| - i] && |saved| == i && forall j | 0 <= j < i :: saved[j] == a[|a| - 1 - j]
    {
      saved := saved + [a'[|a'| - 1]];
      a' := a'[..|a'| - 1];
    }
    r := Some(a'[|a'| - 1]);
    a' := a'[..|a'| - 1];
    var n := |saved|;
    for i := 0 to n
      invariant a' == a[..index] + a[index + 1..index + 1 + i]
    {
      a' := a' + [saved[n - 1 - i]];
    }
    assert a[index + 1..index + 1 + n] == a[index + 1..];
  }

  // ---- the map ---------------------------------------------------------------------------

  class HashMap<K(==), V> {
    const hash: K -> nat
    var buckets: Buckets<K, V>
    var containersUsed: nat
    var len: nat
    ghost var contents: map<K, V>

    ghost predicate Valid()
      reads this
    {
      Holds(hash, buckets, contents)
    }

    /** `len` counts insertions, so it is at least the number of keys. */
    ghost predicate Counted()
      reads this
    {
      |contents| <= len
    }

    /** How far `len` is above the number of keys. */
    ghost function Excess(): int
      reads this
    {
      len - |contents|
    }

    /** How many buckets `containers_used` counts that hold nothing any more. */
    ghost function Emptied(): int
      reads this
    {
      containersUsed - Used(buckets)
    }

    constructor (hash: K -> nat, capacity: nat)
      requires capacity > 0
      ensures Valid() && Counted() && contents == map[] && len == 0 && |buckets| == capacity && Emptied() == 0
    {
      this.hash := hash;
      buckets, containersUsed, len, contents := seq(capacity, _ => []), 0, 0, map[];
      new;
      UsedNone(buckets);
    }

    /** The last index of the key in its bucket. */
    method Search(k: K) returns (h: nat, found: Option<nat>)
      requires Valid()
      ensures h == Home(hash, |buckets|, k)
      ensures if k in contents
              then found.Some? && found.value < |buckets[h]| && buckets[h][found.value].key == k
                   && buckets[h][found.value].value == contents[k]
              else found == None
    {
      h := Home(hash, |buckets|, k);
      found := None;
      for i := 0 to |buckets[h]|
        invariant found.None? ==> forall x | 0 <= x < i :: buckets[h][x].key != k
        invariant found.Some? ==> found.value < i && buckets[h][found.value].key == k
      {
        if buckets[h][i].key == k {
          found := Some(i);
        }
      }
      FoundOrAbsent(hash, buckets, contents, k);
    }

    /** Without any entry the spread is not a number and compares false. */
    predicate MustGrow()
      reads this
      ensures MustGrow() <==>
              (len >= |buckets| / 2 && 2 * containersUsed < len) || len == |buckets| - 1
    {
      if len > 0 then BelowHalf(containersUsed, len); GrowthDue() else GrowthDue()
    }

    predicate GrowthDue()
      reads this
    {
      || (len >= |buckets| / 2 && len > 0 && containersUsed as real / len as real < 0.5)
      || len == |buckets| - 1
    }

    method Grow()
      requires Valid()
      modifies this`buckets, this`containersUsed
      ensures Valid() && |buckets| == 2 * old(|buckets|) + 1 && Emptied() == 0
    {
      var before := buckets;
      var capacity := 2 * |buckets| + 1;
      buckets := seq(capacity, _ => []);
      containersUsed := 0;
      UsedNone(buckets);
      ghost var moved: map<K, V> := map[];
      for i := 0 to |before|
        invariant Holds(hash, buckets, moved) && |buckets| == capacity && Emptied() == 0
        invariant forall k :: k in moved ==> k in contents && contents[k] == moved[k]
        invariant forall k :: k in contents ==> (k in moved <==> Home(hash, |before|, k) < i)
      {
        moved := MoveBucket(before, i, moved);
      }
      assert moved == contents;
    }

    /** The inner loop: every entry of one old bucket goes to its new home. */
    method MoveBucket(before: Buckets<K, V>, i: nat, ghost moved: map<K, V>) returns (ghost moved': map<K, V>)
      requires Holds(hash, before, contents) && i < |before| && Holds(hash, buckets, moved)
      requires forall k :: k in moved ==> k in contents && contents[k] == moved[k]
      requires forall k :: k in contents ==> (k in moved <==> Home(hash, |before|, k) < i)
      modifies this`buckets, this`containersUsed
      ensures Holds(hash, buckets, moved') && |buckets| == old(|buckets|) && Emptied() == old(Emptied())
      ensures forall k :: k in moved' ==> k in contents && contents[k] == moved'[k]
      ensures forall k :: k in contents ==> (k in moved' <==> Home(hash, |before|, k) < i + 1)
    {
      moved' := moved;
      var bucket := before[i];
      for j := 0 to |bucket|
        invariant Holds(hash, buckets, moved') && |buckets| == old(|buckets|) && Emptied() == old(Emptied())
        invariant forall k :: k in moved' <==> k in moved || HasKey(bucket[..j], k)
        invariant forall k :: k in moved' ==> k in contents && contents[k] == moved'[k]
      {
        var e := bucket[j];
        assert InPlace(hash, |before|, i, bucket, contents) && OnceEach(bucket);
        assert e.key !in moved';
        Rehash(e, moved');
        moved' := moved'[e.key := e.value];
        HasKeyNext(bucket, j);
      }
      assert bucket[..|bucket|] == bucket;
      BucketMoved(hash, before, contents, i, moved, moved');
    }

    /** One entry goes to its new home. */
    method Rehash(e: Entry<K, V>, ghost moved: map<K, V>)
      requires Holds(hash, buckets, moved) && e.key !in moved
      modifies this`buckets, this`containersUsed
      ensures Holds(hash, buckets, moved[e.key := e.value])
      ensures |buckets| == old(|buckets|) && Emptied() == old(Emptied())
    {
      var h := Home(hash, |buckets|, e.key);
      PushHolds(hash, buckets, moved, e.key, e.value);
      UsedUpdate(buckets, h, buckets[h] + [Entry(h, e.key, e.value)]);
      if buckets[h] == [] {
        containersUsed := containersUsed + 1;
      }
      buckets := buckets[h := buckets[h] + [Entry(h, e.key, e.value)]];
    }

    method Insert(key: K, value: V) returns (r: Option<V>)
      requires Valid()
      modifies this
      ensures Valid() && contents == old(contents)[key := value]
      ensures r == if key in old(contents) then Some(old(contents)[key]) else None
      ensures len == Up(old(len)) && (old(Counted()) && old(len) + 1 < USIZE ==> Counted())
      ensures old(len) + 1 < USIZE ==> Excess() == old(Excess()) + (if key in old(contents) then 1 else 0)
      ensures old(len) == |old(contents)| && old(len) + 1 < USIZE ==> (len == |contents| <==> key !in old(contents))
      ensures |buckets| == if old(MustGrow()) then 2 * old(|buckets|) + 1 else old(|buckets|)
      ensures Emptied() == if old(MustGrow()) then 0 else old(Emptied())
      ensures old(len) < old(|buckets|) ==> len < |buckets|
    {
      if MustGrow() {
        Grow();
      }
      r := Put(key, value);
    }

    /** The insertion once there is room. */
    method Put(key: K, value: V) returns (r: Option<V>)
      requires Valid()
      modifies this
      ensures Valid() && contents == old(contents)[key := value]
      ensures r == if key in old(contents) then Some(old(contents)[key]) else None
      ensures len == Up(old(len)) && |buckets| == old(|buckets|) && Emptied() == old(Emptied())
      ensures |contents| == |old(contents)| + if key in old(contents) then 0 else 1
    {
      var h, found := Search(key);
      if buckets[h] == [] {
        containersUsed := containersUsed + 1;
      }
      len := Up(len);
      SizeOfUpdate(contents, key, value);
      if found == None {
        PushHolds(hash, buckets, contents, key, value);
        UsedUpdate(buckets, h, buckets[h] + [Entry(h, key, value)]);
        buckets := buckets[h := buckets[h] + [Entry(h, key, value)]];
        contents := contents[key := value];
        r := None;
      } else {
        r := SetValue(h, found.value, value);
      }
    }

    /** Changes the value of an entry in place. */
    method SetValue(h: nat, x: nat, value: V) returns (r: Option<V>)
      requires Valid() && h < |buckets| && x < |buckets[h]|
      modifies this`buckets, this`contents
      ensures Valid() && contents == old(contents)[old(buckets)[h][x].key := value]
      ensures r == Some(old(buckets)[h][x].value) && |buckets| == old(|buckets|) && Emptied() == old(Emptied())
    {
      r := Some(buckets[h][x].value);
      SetHolds(hash, buckets, contents, h, x, value);
      UsedUpdate(buckets, h, buckets[h][x := buckets[h][x].(value := value)]);
      contents := contents[buckets[h][x].key := value];
      buckets := buckets[h := buckets[h][x := buckets[h][x].(value := value)]];
    }

    /** Changes the value of a key that is present, and refuses the others. */
    method Replace(key: K, value: V) returns (r: Option<V>)
      requires Valid()
      modifies this
      ensures Valid() && len == old(len) && Excess() == old(Excess())
      ensures |buckets| == old(|buckets|) && Emptied() == old(Emptied())
      ensures contents == if key in old(contents) then old(contents)[key := value] else old(contents)
      ensures r == if key in old(contents) then Some(old(contents)[key]) else None
      ensures old(Counted()) ==> Counted()
    {
      var h, found := Search(key);
      if found == None {
        return None;
      }
      SizeOfUpdate(contents, key, value);
      r := SetValue(h, found.value, value);
    }

    method Get(key: K) returns (r: Option<V>)
      requires Valid()
      ensures r == if key in contents then Some(contents[key]) else None
    {
      var bucket := buckets[Home(hash, |buckets|, key)];
      FoundOrAbsent(hash, buckets, contents, key);
      for i := 0 to |bucket|
        invariant forall x | 0 <= x < i :: bucket[x].key != key
      {
        if bucket[i].key == key {
          return Some(bucket[i].value);
        }
      }
      return None;
    }

    method Contains(key: K) returns (r: bool)
      requires Valid()
      ensures r <==> key in contents
    {
      var found := Get(key);
      r := found.Some?;
    }

    /** `len` is decremented whether or not the key was present; while it counts the keys,
        removing a present one does not take it below zero. */
    method Remove(key: K) returns (r: Option<V>)
      requires Valid()
      modifies this
      ensures Valid() && contents == old(contents) - {key} && len == Down(old(len))
      ensures r == if key in old(contents) then Some(old(contents)[key]) else None
      ensures old(Counted()) && key in old(contents) ==> old(len) > 0 && Counted()
      ensures old(len) > 0 ==> Excess() == old(Excess()) - (if key in old(contents) then 0 else 1)
      ensures old(len) == |old(contents)| < USIZE ==> (len == |contents| <==> key in old(contents))
      ensures var h := Home(hash, old(|buckets|), key);
              && |buckets| == old(|buckets|)
              && Emptied() - old(Emptied()) == if old(buckets)[h] != [] && buckets[h] == [] then 1 else 0
    {
      var h, found := Search(key);
      len := Down(len);
      if found == None {
        assert contents - {key} == contents;
        return None;
      }
      r := Cut(h, found.value);
      SizeOfRemoval(old(contents), key);
    }

    /** Takes an entry out of its bucket. */
    method Cut(h: nat, x: nat) returns (r: Option<V>)
      requires Valid() && h < |buckets| && x < |buckets[h]|
      modifies this`buckets, this`contents
      ensures Valid() && contents == old(contents) - {old(buckets)[h][x].key}
      ensures r == Some(old(buckets)[h][x].value) && |buckets| == old(|buckets|)
      ensures Emptied() - old(Emptied()) == if buckets[h] == [] then 1 else 0
    {
      CutHolds(hash, buckets, contents, h, x);
      var entry, bucket := ArrayRemove(buckets[h], x);
      r := Some(entry.value.value);
      UsedUpdate(buckets, h, bucket);
      contents := contents - {buckets[h][x].key};
      buckets := buckets[h := bucket];
    }

    /** `entry(key).or_insert(value)`; the look-up after an insertion always succeeds. */
    method OrInsert(key: K, value: V) returns (r: V)
      requires Valid()
      modifies this
      ensures Valid() && key in contents && r == contents[key]
      ensures contents == if key in old(contents) then old(contents) else old(contents)[key := value]
      ensures old(Counted()) && old(len) + 1 < USIZE ==> Counted()
      ensures old(len) + 1 < USIZE ==> Excess() == old(Excess())
    {
      var h, found := Search(key);
      if found.Some? {
        return buckets[h][found.value].value;
      }
      var _ := Insert(key, value);
      var got := Get(key);
      r := got.value;
    }
  }

  lemma BucketMoved<K, V>(
      hash: K -> nat, t: Buckets<K, V>, m: map<K, V>, i: nat, moved: map<K, V>, moved': map<K, V>)
    requires Holds(hash, t, m) && i < |t|
    requires forall k :: k in m ==> (k in moved <==> Home(hash, |t|, k) < i)
    requires forall k :: k in moved' <==> k in moved || HasKey(t[i], k)
    ensures forall k :: k in m ==> (k in moved' <==> Home(hash, |t|, k) < i + 1)
  {
    forall k | k in m ensures k in moved' <==> Home(hash, |t|, k) < i + 1 {
      FoundOrAbsent(hash, t, m, k);
      assert InPlace(hash, |t|, i, t[i], m);
    }
  }

  lemma HasKeyNext<K, V>(bucket: seq<Entry<K, V>>, j: nat)
    requires j < |bucket|
    ensures forall k :: HasKey(bucket[..j + 1], k) <==> HasKey(bucket[..j], k) || k == bucket[j].key
  {
    forall k ensures HasKey(bucket[..j + 1], k) <==> HasKey(bucket[..j], k) || k == bucket[j].key {
      assert bucket[..j + 1][j] == bucket[j];
      if HasKey(bucket[..j], k) {
        var x :| 0 <= x < j && bucket[..j][x].key == k;
        assert bucket[..j + 1][x].key == k;
      }
      if HasKey(bucket[..j + 1], k) && k != bucket[j].key {
        var x :| 0 <= x < j + 1 && bucket[..j + 1][x].key == k;
        assert bucket[..j][x].key == k;
      }
    }
  }

  lemma SizeOfRemoval<K, V>(m: map<K, V>, k: K)
    requires k in m
    ensures |m - {k}| == |m| - 1
  {
    assert (m - {k}).Keys == m.Keys - {k};
    assert |(m - {k}).Keys| == |m.Keys| - 1;
  }

  lemma SizeOfUpdate<K, V>(m: map<K, V>, k: K, v: V)
    ensures |m[k := v]| == |m| + (if k in m then 0 else 1)
  {
    assert m[k := v].Keys == m.Keys + {k};
    assert k in m ==> m[k := v].Keys == m.Keys;
    assert |m[k := v].Keys| == |m.Keys| + (if k in m then 0 else 1);
  }

  // ---- when the length is the number of keys ----------------------------------------------

  /** The operations that change the length. */
  datatype Op<K, V> = Put(k: K, v: V) | Drop(k: K)

  function Applied<K, V>(m: map<K, V>, op: Op<K, V>): map<K, V> {
    match op
    case Put(k, v) => m[k := v]
    case Drop(k) => m - {k}
  }

  function After<K, V>(m: map<K, V>, ops: seq<Op<K, V>>): map<K, V>
    decreases |ops|
  {
    if ops == [] then m else After(Applied(m, ops[0]), ops[1..])
  }

  /** The length counts up and down whatever the keys. */
  function Length<K, V>(n: int, ops: seq<Op<K, V>>): int
    decreases |ops|
  {
    if ops == [] then n else Length(if ops[0].Put? then n + 1 else n - 1, ops[1..])
  }

  /** Insertions of keys that are present, and removals of keys that are not. */
  function Again<K, V>(m: map<K, V>, ops: seq<Op<K, V>>): nat
    decreases |ops|
  {
    if ops == [] then 0
    else (if ops[0].Put? && ops[0].k in m then 1 else 0) + Again(Applied(m, ops[0]), ops[1..])
  }

  function Missed<K, V>(m: map<K, V>, ops: seq<Op<K, V>>): nat
    decreases |ops|
  {
    if ops == [] then 0
    else (if ops[0].Drop? && ops[0].k !in m then 1 else 0) + Missed(Applied(m, ops[0]), ops[1..])
  }

  lemma {:induction false} LengthDrifts<K, V>(m: map<K, V>, n: int, ops: seq<Op<K, V>>)
    ensures Length(n, ops) - |After(m, ops)| == n - |m| + Again(m, ops) - Missed(m, ops)
    decreases |ops|
  {
    if ops != [] {
      match ops[0] {
        case Put(k, v) => SizeOfUpdate(m, k, v);
        case Drop(k) =>
          if k in m {
            SizeOfRemoval(m, k);
          } else {
            assert m - {k} == m;
          }
      }
      LengthDrifts(Applied(m, ops[0]), if ops[0].Put? then n + 1 else n - 1, ops[1..]);
    }
  }

  /** From the empty map the length ends up as the number of keys if and only if insertions of
      present keys and removals of absent ones balance. */
  lemma LengthIffBalanced<K, V>(ops: seq<Op<K, V>>)
    ensures Length(0, ops) == |After(map[], ops)| <==>
            Again<K, V>(map[], ops) == Missed<K, V>(map[], ops)
  {
    LengthDrifts(map[], 0, ops);
  }

  /** One key inserted twice has length two. */
  method InsertedTwice(hash: int -> nat) returns (m: HashMap<int, int>)
    ensures fresh(m) && m.Valid() && m.contents == map[7 := 2] && m.len == 2 != |m.contents|
  {
    m := new HashMap(hash, 11);
    var first := m.Insert(7, 1);
    assert m.contents == map[7 := 1];
    var second := m.Insert(7, 2);
    assert m.contents == map[7 := 2];
  }

  /** One key, and an absent one removed, has length zero. */
  method RemovedAbsent(hash: int -> nat) returns (m: HashMap<int, int>)
    ensures fresh(m) && m.Valid() && m.contents == map[7 := 1] && m.len == 0 != |m.contents|
  {
    m := new HashMap(hash, 11);
    var first := m.Insert(7, 1);
    assert m.contents == map[7 := 1];
    var gone := m.Remove(8);
    assert m.contents == map[7 := 1];
  }
}
