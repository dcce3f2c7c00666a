/** The hash table: open addressing with linear probing, growth by rehashing, no deletion. */
module Table {
  import opened Ir

  // ----- hashing -----

  /** 32-bit FNV-1a. */
  function HashString(s: string): (h: bv32) {
    if s == [] then 0x811c9dc5
    else (HashString(s[..|s| - 1]) ^ ((s[|s| - 1] as int % 256) as bv32)) * 0x01000193
  }

  /** Thomas Wang's bit mix of the number's 32-bit pattern. */
  function HashNumber(n: int): bv32 {
    var h0 := (n % 0x1_0000_0000) as bv32;
    var h1 := !h0 + (h0 << 15);
    var h2 := h1 ^ (h1 >> 12);
    var h3 := h2 + (h2 << 2);
    var h4 := h3 ^ (h3 >> 4);
    var h5 := h4 * 2057;
    h5 ^ (h5 >> 16)
  }

  function Hash(key: Key): nat {
    match key
    case Num(n) => HashNumber(n) as nat
    case Str(s) => HashString(s) as nat
  }

  // ----- slots -----

  /** An entry: a key with its stored hash, and a value, absent where the C program has a null pointer. */
  datatype Slot<V> = Slot(key: Key, hash: nat, value: Option<V>)

  /** Keys of equal type and content; the stored hashes of strings are compared first. */
  predicate KeysEqual(k: Key, h: nat, l: Key, g: nat) {
    match (k, l)
    case (Num(m), Num(n)) => m == n
    case (Str(s), Str(t)) => h == g && s == t
    case _ => false
  }

  predicate Filled<V>(s: Slot<V>) {
    s.value.Some?
  }

  /** `j` is met when walking cyclically from `h` up to but not including `i`. */
  predicate Between(h: nat, i: nat, j: nat) {
    if h <= i then h <= j < i else j >= h || j < i
  }

  function Home(key: Key, n: nat): nat
    requires n > 0
  {
    Hash(key) % n
  }

  /** Every key sits where probing from its home finds it, once, with its hash. */
  ghost predicate Probing<V>(s: seq<Slot<V>>) {
    |s| > 0 &&
    (forall i :: 0 <= i < |s| && Filled(s[i]) ==> s[i].hash == Hash(s[i].key)) &&
    (forall i, j :: 0 <= i < |s| && 0 <= j < |s| && Filled(s[i]) && Between(Home(s[i].key, |s|), i, j)
       ==> Filled(s[j])) &&
    (forall i, j :: 0 <= i < |s| && 0 <= j < |s| && Filled(s[i]) && Filled(s[j]) && s[i].key == s[j].key ==> i == j)
  }

  /** The slots hold exactly the bindings of `m`. */
  ghost predicate Holds<V>(s: seq<Slot<V>>, m: map<Key, V>) {
    (forall k :: k in m ==> exists i :: 0 <= i < |s| && Filled(s[i]) && s[i].key == k && s[i].value.get == m[k]) &&
    (forall i :: 0 <= i < |s| && Filled(s[i]) ==> s[i].key in m && m[s[i].key] == s[i].value.get)
  }

  /** The slot that probing for `key` stops at: its own, or the first empty one on its path. */
  ghost predicate Found<V>(s: seq<Slot<V>>, key: Key, i: nat) {
    |s| > 0 && i < |s| &&
    (Filled(s[i]) ==> s[i].key == key) &&
    (forall j :: 0 <= j < |s| && Between(Home(key, |s|), i, j) ==> Filled(s[j]) && s[j].key != key)
  }

  /** Of two places one is on the way to the other. */
  lemma OnePath(h: nat, i: nat, k: nat)
    ensures k == i || Between(h, i, k) || Between(h, k, i)
  {
  }

  /** An empty stop means that the key is absent. */
  lemma FoundEmpty<V>(s: seq<Slot<V>>, m: map<Key, V>, key: Key, i: nat)
    requires Probing(s) && Holds(s, m) && Found(s, key, i)
    ensures Filled(s[i]) <==> key in m
    ensures Filled(s[i]) ==> s[i].value.get == m[key]
  {
    hide Hash, Home;
    forall k | 0 <= k < |s| && Filled(s[k]) && s[k].key == key ensures k == i {
      OnePath(Home(key, |s|), i, k);
    }
  }

  /** Writing a value where probing stopped keeps the table a table, for the updated map. */
  lemma Written<V>(s: seq<Slot<V>>, m: map<Key, V>, key: Key, i: nat, v: V)
    requires Probing(s) && Holds(s, m) && Found(s, key, i)
    ensures var t := s[i := Slot(key, Hash(key), Some(v))]; Probing(t) && Holds(t, m[key := v])
  {
    hide Hash;
    FoundEmpty(s, m, key, i);
    WrittenProbing(s, m, key, i, v);
    WrittenHolds(s, m, key, i, v);
  }

  lemma WrittenProbing<V>(s: seq<Slot<V>>, m: map<Key, V>, key: Key, i: nat, v: V)
    requires Probing(s) && Holds(s, m) && Found(s, key, i) && (Filled(s[i]) <==> key in m)
    ensures Probing(s[i := Slot(key, Hash(key), Some(v))])
  {
    hide Hash, Home;
    var t := s[i := Slot(key, Hash(key), Some(v))];
    forall a, b | 0 <= a < |t| && 0 <= b < |t| && Filled(t[a]) && Between(Home(t[a].key, |t|), a, b)
      ensures Filled(t[b])
    {
      if a == i && b != i {
        assert Filled(s[b]);
      }
    }
    forall a, b | 0 <= a < |t| && 0 <= b < |t| && Filled(t[a]) && Filled(t[b]) && t[a].key == t[b].key
      ensures a == b
    {
      if a == i && b != i {
        assert s[b].key in m;
      } else if b == i && a != i {
        assert s[a].key in m;
      }
    }
  }

  lemma WrittenHolds<V>(s: seq<Slot<V>>, m: map<Key, V>, key: Key, i: nat, v: V)
    requires Probing(s) && Holds(s, m) && Found(s, key, i) && (Filled(s[i]) <==> key in m)
    ensures Holds(s[i := Slot(key, Hash(key), Some(v))], m[key := v])
  {
    hide Hash, Home, Between;
    var t := s[i := Slot(key, Hash(key), Some(v))];
    var n := m[key := v];
    forall k | k in n
      ensures exists a :: 0 <= a < |t| && Filled(t[a]) && t[a].key == k && t[a].value.get == n[k]
    {
      if k == key {
        assert Filled(t[i]);
      } else {
        var a :| 0 <= a < |s| && Filled(s[a]) && s[a].key == k && s[a].value.get == m[k];
        assert a != i;
        assert Filled(t[a]);
      }
    }
    forall a | 0 <= a < |t| && Filled(t[a])
      ensures t[a].key in n && n[t[a].key] == t[a].value.get
    {
      if a != i {
        assert s[a].key in m;
      }
    }
  }

  // ----- how full a table is -----

  function Count<V>(s: seq<Slot<V>>): (n: nat)
    ensures n <= |s|
  {
    if s == [] then 0 else Count(s[..|s| - 1]) + if Filled(s[|s| - 1]) then 1 else 0
  }

  /** A table that is not full has an empty slot. */
  lemma {:induction false} SomeEmpty<V>(s: seq<Slot<V>>) returns (e: nat)
    requires Count(s) < |s|
    ensures e < |s| && !Filled(s[e])
  {
    if Filled(s[|s| - 1]) {
      e := SomeEmpty(s[..|s| - 1]);
    } else {
      e := |s| - 1;
    }
  }

  lemma {:induction false} CountWritten<V>(s: seq<Slot<V>>, i: nat, x: Slot<V>)
    requires i < |s| && Filled(x)
    ensures Count(s[i := x]) == Count(s) + if Filled(s[i]) then 0 else 1
  {
    var t := s[i := x];
    if i == |s| - 1 {
      assert t[..|s| - 1] == s[..|s| - 1];
    } else {
      assert t[..|s| - 1] == s[..|s| - 1][i := x];
      CountWritten(s[..|s| - 1], i, x);
    }
  }

  lemma {:induction false} CountEmpty<V>(s: seq<Slot<V>>)
    requires forall i :: 0 <= i < |s| ==> !Filled(s[i])
    ensures Count(s) == 0
  {
    if s != [] {
      CountEmpty(s[..|s| - 1]);
    }
  }

  // ----- the table -----

  /** Cyclic distance from `i` to `e`. */
  function Distance(n: nat, i: nat, e: nat): nat
    requires i < n && e < n
  {
    if i <= e then e - i else e + n - i
  }

  class Table<V> {
    var values: array<Slot<V>>
    var size: nat
    var capacity: nat
    /** The bindings, keyed by type and content. */
    ghost var M: map<Key, V>

    /** Whatever the load: the counts, the probing invariant and the bindings. */
    ghost predicate Sound()
      reads this, values
    {
      && capacity == values.Length
      && size == |M| == Count(values[..])
      && (if capacity > 0 then Probing(values[..]) && Holds(values[..], M) else M == map[])
    }

    /** At most three quarters of the slots are filled, so there is an empty one. */
    ghost predicate Valid()
      reads this, values
    {
      Sound() && 4 * size <= 3 * capacity
    }

    constructor ()
      ensures Valid() && fresh(values) && M == map[]
    {
      values := new Slot<V>[0];
      size, capacity := 0, 0;
      M := map[];
    }

    /** Probes from the key's home until its slot or an empty one; an empty slot bounds the walk. */
    static method FindSlot(values: array<Slot<V>>, capacity: nat, key: Key, hash: nat) returns (idx: nat)
      requires capacity == values.Length && Probing(values[..]) && Count(values[..]) < capacity && hash == Hash(key)
      ensures Found(values[..], key, idx)
    {
      hide Hash;
      ghost var s := values[..];
      ghost var e := SomeEmpty(s);
      idx := hash % capacity;
      ghost var home := idx;
      while values[idx].value.Some?
        invariant idx < capacity
        invariant forall j :: 0 <= j < capacity && Between(home, idx, j) ==> Filled(s[j]) && s[j].key != key
        decreases Distance(capacity, idx, e)
      {
        if KeysEqual(key, hash, values[idx].key, values[idx].hash) {
          break;
        }
        assert s[idx].key != key;
        assert !Between(home, idx, e);
        idx := if idx + 1 == capacity then 0 else idx + 1;
      }
    }

    /** Doubles the capacity and inserts every binding anew, even those of a full table. */
    method GrowCapacity()
      requires Sound()
      modifies this
      ensures Sound() && fresh(values)
      ensures M == old(M) && size == old(size) && capacity == if old(capacity) == 0 then 64 else 2 * old(capacity)
      ensures unchanged(old(values))
    {
      hide Hash, Probing, Holds, Found, Count, MovedOnly;
      var oldCapacity := capacity;
      var newCapacity := if oldCapacity == 0 then 64 else 2 * capacity;
      var grown := new Slot<V>[newCapacity](_ => Slot(Num(0), 0, None));
      ghost var was := values[..];
      ghost var moved: map<Key, V> := map[];
      EmptyTable(grown[..]);
      NothingMoved(was, M);
      var i := 0;
      while i < oldCapacity
        invariant i <= oldCapacity == |was| == values.Length && values == old(values) && values[..] == was
        invariant fresh(grown)
        invariant M == old(M) && size == old(size) && capacity == oldCapacity
        invariant grown.Length == newCapacity && Probing(grown[..]) && Holds(grown[..], moved)
        invariant Count(grown[..]) == Count(was[..i]) && MovedOnly(was, i, moved, M)
      {
        var src := values[i];
        CountNext(was, i);
        if src.value.Some? {
          NotMoved(was, i, moved, M);
          var dst := FindSlot(grown, newCapacity, src.key, src.hash);
          Stored(grown[..], moved, src.key, dst, src.value.get);
          ghost var next := grown[..][dst := src];
          grown[dst] := src;
          assert grown[..] == next;
          MovedMore(was, i, moved, M);
          moved := moved[src.key := src.value.get];
        } else {
          MovedSame(was, i, moved, M);
        }
        i := i + 1;
      }
      assert was[..oldCapacity] == was;
      MovedAll(was, moved, M);
      values := grown;
      capacity := newCapacity;
    }

    /** Binds `key` to `value`; true exactly when the key is new. */
    method Set(key: Key, value: V) returns (newAdded: bool)
      requires Valid()
      modifies this, values
      ensures Valid() && (values == old(values) || fresh(values))
      ensures M == old(M)[key := value]
      ensures newAdded == (key !in old(M))
    {
      hide Hash, Probing, Holds, Found, Count;
      if 4 * (size + 1) > 3 * capacity {
        GrowCapacity();
      }
      var hash := Hash(key);
      var slot := FindSlot(values, capacity, key, hash);
      Stored(values[..], M, key, slot, value);
      ghost var next := values[..][slot := Slot(key, hash, Some(value))];
      newAdded := values[slot].value.None?;
      if newAdded {
        size := size + 1;
        values[slot] := Slot(key, hash, Some(value));
      } else {
        values[slot] := values[slot].(value := Some(value));
      }
      assert values[..] == next;
      M := M[key := value];
    }

    /** The value bound to `key`, if there is one. */
    method Get(key: Key) returns (r: Option<V>)
      requires Valid()
      ensures r == if key in M then Some(M[key]) else None
    {
      hide Hash, Home, Between;
      if size == 0 {
        return None;
      }
      var hash := Hash(key);
      var slot := FindSlot(values, capacity, key, hash);
      FoundEmpty(values[..], M, key, slot);
      r := values[slot].value;
    }
  }

  lemma EmptyTable<V>(s: seq<Slot<V>>)
    requires |s| > 0 && forall i :: 0 <= i < |s| ==> !Filled(s[i])
    ensures Probing(s) && Holds(s, map[]) && Count(s) == 0
  {
    CountEmpty(s);
  }

  /** Everything about a write to the place where probing stopped. */
  lemma Stored<V>(s: seq<Slot<V>>, m: map<Key, V>, key: Key, i: nat, v: V)
    requires Probing(s) && Holds(s, m) && Found(s, key, i)
    ensures i < |s| && (Filled(s[i]) <==> key in m)
    ensures Filled(s[i]) ==> s[i].key == key && s[i].hash == Hash(key)
    ensures var t := s[i := Slot(key, Hash(key), Some(v))];
            Probing(t) && Holds(t, m[key := v]) && Count(t) == Count(s) + if key in m then 0 else 1
  {
    hide Hash, Home, Between;
    FoundEmpty(s, m, key, i);
    Written(s, m, key, i, v);
    CountWritten(s, i, Slot(key, Hash(key), Some(v)));
  }

  /** `moved` holds the bindings of the first `i` slots of `was`. */
  ghost predicate MovedOnly<V>(was: seq<Slot<V>>, i: nat, moved: map<Key, V>, m: map<Key, V>)
    requires i <= |was|
  {
    && (forall k :: k in moved
          ==> k in m && moved[k] == m[k] && exists j :: 0 <= j < i && Filled(was[j]) && was[j].key == k)
    && (forall j :: 0 <= j < i && Filled(was[j]) ==> was[j].key in moved)
  }

  lemma NotMoved<V>(was: seq<Slot<V>>, i: nat, moved: map<Key, V>, m: map<Key, V>)
    requires i < |was| && MovedOnly(was, i, moved, m) && Probing(was) && was[i].value.Some?
    ensures was[i].key !in moved && was[i].hash == Hash(was[i].key)
  {
    hide Hash, Home, Between;
  }

  lemma MovedMore<V>(was: seq<Slot<V>>, i: nat, moved: map<Key, V>, m: map<Key, V>)
    requires i < |was| && MovedOnly(was, i, moved, m) && Holds(was, m) && was[i].value.Some?
    ensures MovedOnly(was, i + 1, moved[was[i].key := was[i].value.get], m)
  {
  }

  lemma MovedSame<V>(was: seq<Slot<V>>, i: nat, moved: map<Key, V>, m: map<Key, V>)
    requires i < |was| && MovedOnly(was, i, moved, m) && was[i].value.None?
    ensures MovedOnly(was, i + 1, moved, m)
  {
  }

  lemma MovedAll<V>(was: seq<Slot<V>>, moved: map<Key, V>, m: map<Key, V>)
    requires MovedOnly(was, |was|, moved, m) && (Holds(was, m) || (was == [] && m == map[]))
    ensures moved == m
  {
    forall k | k in m ensures k in moved {
      var i :| 0 <= i < |was| && Filled(was[i]) && was[i].key == k && was[i].value.get == m[k];
    }
  }

  lemma NothingMoved<V>(was: seq<Slot<V>>, m: map<Key, V>)
    ensures MovedOnly(was, 0, map[], m)
  {
  }

  lemma CountNext<V>(s: seq<Slot<V>>, i: nat)
    requires i < |s|
    ensures Count(s[..i + 1]) == Count(s[..i]) + (if s[i].value.Some? then 1 else 0) && Count(s[..i]) <= i
  {
    assert s[..i + 1][..i] == s[..i];
  }
}
