/** Building the constant pool: entries are appended while a table maps keys to their 1-based indices. */
module ConstantPool {
  import opened Words
  import opened Ir
  import opened Constants

  const SUPER_CLASS_NAME := "java/lang/Object"
  const SUPER_CLASS := "super_class"
  const THIS_CLASS_NAME := "RvRuntime"
  const THIS_CLASS := "this_class"
  const THREAD_LOCAL := "java/lang/ThreadLocal"
  const THREAD_LOCAL_CLASS := "thread_local"
  const LONG_ARRAY_DESCRIPTOR := "[J"
  const LONG_ARRAY_CLASS := "long_array_class"
  const STRING_ARRAY_DESCRIPTOR := "[Ljava/lang/String;"
  const STRING_ARRAY_CLASS := "string_array_class"
  const REGISTERS_FIELD_NAME := "registers"
  const REGISTERS_FIELD_DESCRIPTOR := "Ljava/lang/ThreadLocal;"
  const REGISTERS_FIELD_SIGNATURE := "Ljava/lang/ThreadLocal<[J>;"
  const REGISTERS_FIELD := "registers_field"
  const MEMORY_FIELD_NAME := "memory"
  const MEMORY_FIELD := "memory_field"
  const SIGNATURE := "Signature"
  const INIT_METHOD_NAME := "<init>"
  const CLINIT_METHOD_NAME := "<clinit>"
  const MAIN_METHOD_NAME := "main"
  const MAIN_METHOD_DESCRIPTOR := "([Ljava/lang/String;)V"
  const NO_ARGS_VOID_DESCRIPTOR := "()V"
  const CODE := "Code"
  const STACK_MAP_TABLE := "StackMapTable"
  const INIT_METHOD_NAMEANDTYPE := "init_method_nameandtype"
  const THREAD_LOCAL_INIT_METHODREF := "thread_local_init_methodref"
  const THREAD_LOCAL_SET_METHOD_NAME := "set"
  const THREAD_LOCAL_SET_METHOD_DESCRIPTOR := "(Ljava/lang/Object;)V"
  const THREAD_LOCAL_SET_METHOD_NAMEANDTYPE := "thread_local_set_method_nameandtype"
  const THREAD_LOCAL_SET_METHODREF := "thread_local_set_methodref"
  const THREAD_LOCAL_GET_METHOD_NAME := "get"
  const THREAD_LOCAL_GET_METHOD_DESCRIPTOR := "()Ljava/lang/Object;"
  const THREAD_LOCAL_GET_METHOD_NAMEANDTYPE := "thread_local_get_method_nameandtype"
  const THREAD_LOCAL_GET_METHODREF := "thread_local_get_methodref"
  const REGISTERS_FIELD_NAMEANDTYPE := "registers_nameandtype"
  const REGISTERS_FIELDREF := "registers_fieldref"
  const MEMORY_FIELD_NAMEANDTYPE := "memory_nameandtype"
  const MEMORY_FIELDREF := "memory_fieldref"

  // ----- the add functions -----

  /** The entries written so far and the index table. */
  datatype Build = Build(entries: seq<Entry>, index: map<Key, u16>)
  {
    function Append(e: Entry): Build {
      this.(entries := entries + [e])
    }

    /** The index of a new key is one more than the number of keys. */
    function AddKey(key: Key): Build {
      if key in index then this else this.(index := index[key := ToU16(|index| + 1)])
    }
  }

  function AddUtf8(b: Build, s: string): Build {
    if Str(s) in b.index then b else b.AddKey(Str(s)).Append(Utf8(s))
  }

  function Utf8Index(b: Build, s: string): u16 {
    if Str(s) in b.index then b.index[Str(s)] else ToU16(|AddUtf8(b, s).index|)
  }

  function AddClass(b: Build, name: string, key: string): Build {
    AddUtf8(b, name).Append(Class(Utf8Index(b, name))).AddKey(Str(key))
  }

  function AddNameAndType(b: Build, key: string, name: string, descriptor: string): Build {
    var b1 := AddUtf8(b, name);
    AddUtf8(b1, descriptor).Append(NameAndType(Utf8Index(b, name), Utf8Index(b1, descriptor))).AddKey(Str(key))
  }

  function AddMethodref(b: Build, classKey: string, key: string, natKey: string, name: string,
                        descriptor: string): Build
    requires Str(classKey) in AddNameAndType(b, natKey, name, descriptor).index
  {
    var b1 := AddNameAndType(b, natKey, name, descriptor);
    b1.Append(Methodref(b1.index[Str(classKey)], ToU16(|b1.index|))).AddKey(Str(key))
  }

  function AddFieldref(b: Build, classKey: string, key: string, natKey: string, name: string, descriptor: string): Build
    requires Str(classKey) in AddNameAndType(b, natKey, name, descriptor).index
  {
    var b1 := AddNameAndType(b, natKey, name, descriptor);
    b1.Append(Fieldref(b1.index[Str(classKey)], ToU16(|b1.index|))).AddKey(Str(key))
  }

  function AddNumber(b: Build, v: Int32): Build {
    if Num(v) in b.index then b else b.AddKey(Num(v)).Append(Integer(v))
  }

  // ----- the fixed part -----

  /** The keys in the order in which they first get an index. */
  function NameAt(i: nat): string
    requires i < 38
  {
    match i
    case 0 => SUPER_CLASS_NAME case 1 => SUPER_CLASS case 2 => THIS_CLASS_NAME case 3 => THIS_CLASS
    case 4 => THREAD_LOCAL case 5 => THREAD_LOCAL_CLASS case 6 => LONG_ARRAY_DESCRIPTOR
    case 7 => LONG_ARRAY_CLASS case 8 => STRING_ARRAY_DESCRIPTOR case 9 => STRING_ARRAY_CLASS
    case 10 => REGISTERS_FIELD_NAME case 11 => REGISTERS_FIELD_DESCRIPTOR case 12 => REGISTERS_FIELD_SIGNATURE
    case 13 => REGISTERS_FIELD case 14 => MEMORY_FIELD_NAME case 15 => MEMORY_FIELD case 16 => SIGNATURE
    case 17 => INIT_METHOD_NAME case 18 => CLINIT_METHOD_NAME case 19 => MAIN_METHOD_NAME
    case 20 => MAIN_METHOD_DESCRIPTOR case 21 => NO_ARGS_VOID_DESCRIPTOR case 22 => CODE
    case 23 => STACK_MAP_TABLE case 24 => INIT_METHOD_NAMEANDTYPE case 25 => THREAD_LOCAL_INIT_METHODREF
    case 26 => THREAD_LOCAL_SET_METHOD_NAME case 27 => THREAD_LOCAL_SET_METHOD_DESCRIPTOR
    case 28 => THREAD_LOCAL_SET_METHOD_NAMEANDTYPE case 29 => THREAD_LOCAL_SET_METHODREF
    case 30 => THREAD_LOCAL_GET_METHOD_NAME case 31 => THREAD_LOCAL_GET_METHOD_DESCRIPTOR
    case 32 => THREAD_LOCAL_GET_METHOD_NAMEANDTYPE case 33 => THREAD_LOCAL_GET_METHODREF
    case 34 => REGISTERS_FIELD_NAMEANDTYPE case 35 => REGISTERS_FIELDREF case 36 => MEMORY_FIELD_NAMEANDTYPE
    case _ => MEMORY_FIELDREF
  }

  /** The keys have pairwise different (length, first character, character 13): a number for each. */
  function Rank(s: string): int {
    var n, c := |s|, if |s| > 0 then s[0] else ' ';
    var d := if |s| > 13 then s[13] else ' ';
    if n == 2 then 6 else if n == 6 then (if c == 'm' then 14 else 17) else if n == 8 then 18
    else if n == 3 then (if c == '(' then 21 else if c == 's' then 26 else 30)
    else if n == 4 then (if c == 'm' then 19 else 22)
    else if n == 9 then (if c == 'R' then 2 else if c == 'r' then 10 else 16)
    else if n == 10 then 3 else if n == 11 then 1 else if n == 12 then (if c == 't' then 5 else 15)
    else if n == 13 then 23 else if n == 15 then (if c == 'r' then 13 else 37)
    else if n == 16 then (if c == 'j' then 0 else 7)
    else if n == 18 then (if c == 's' then 9 else if c == 'r' then 35 else 36)
    else if n == 19 then 8 else if n == 20 then 31
    else if n == 21 then (if c == 'j' then 4 else if c == '(' then 27 else 34)
    else if n == 22 then 20 else if n == 23 then (if c == 'L' then 11 else 24)
    else if n == 26 then (if d == 's' then 29 else 33)
    else if n == 27 then (if c == 'L' then 12 else 25)
    else if d == 's' then 28 else 32
  }

  lemma Ranks0(i: nat)
    requires 0 <= i < 6
    ensures Rank(NameAt(i)) == i
  {
    assert i == 0 || i == 1 || i == 2 || i == 3 || i == 4 || i == 5;
  }

  lemma Ranks6(i: nat)
    requires 6 <= i < 12
    ensures Rank(NameAt(i)) == i
  {
    assert i == 6 || i == 7 || i == 8 || i == 9 || i == 10 || i == 11;
  }

  lemma Ranks12(i: nat)
    requires 12 <= i < 17
    ensures Rank(NameAt(i)) == i
  {
    assert i == 12 || i == 13 || i == 14 || i == 15 || i == 16;
  }

  lemma Ranks17(i: nat)
    requires 17 <= i < 22
    ensures Rank(NameAt(i)) == i
  {
    assert i == 17 || i == 18 || i == 19 || i == 20 || i == 21;
  }

  lemma Ranks22(i: nat)
    requires 22 <= i < 26
    ensures Rank(NameAt(i)) == i
  {
    assert i == 22 || i == 23 || i == 24 || i == 25;
  }

  lemma Ranks26(i: nat)
    requires 26 <= i < 29
    ensures Rank(NameAt(i)) == i
  {
    assert i == 26 || i == 27 || i == 28;
  }

  lemma Ranks29(i: nat)
    requires 29 <= i < 32
    ensures Rank(NameAt(i)) == i
  {
    assert i == 29 || i == 30 || i == 31;
  }

  lemma Ranks32(i: nat)
    requires 32 <= i < 35
    ensures Rank(NameAt(i)) == i
  {
    assert i == 32 || i == 33 || i == 34;
  }

  lemma Ranks35(i: nat)
    requires 35 <= i < 38
    ensures Rank(NameAt(i)) == i
  {
    assert i == 35 || i == 36 || i == 37;
  }

  lemma RankOf(i: nat)
    requires i < 38
    ensures Rank(NameAt(i)) == i
  {
    hide Rank, NameAt;
    if i < 6 { Ranks0(i); } else if i < 12 { Ranks6(i); } else if i < 17 { Ranks12(i); } else if i < 22 { Ranks17(i); }
    else if i < 26 { Ranks22(i); } else if i < 29 { Ranks26(i); } else if i < 32 { Ranks29(i); }
    else if i < 35 { Ranks32(i); } else { Ranks35(i); }
  }

  /** No two keys of the fixed part are the same string. */
  lemma NamesDiffer(i: nat, j: nat)
    requires i < 38 && j < 38 && NameAt(i) == NameAt(j)
    ensures i == j
  {
    hide Rank, NameAt;
    RankOf(i);
    RankOf(j);
  }

  /** The entry at the 0-based place `i`. */
  function EntryAt(i: nat): Entry
    requires i < 38
  {
    match i
    case 1 => Class(1) case 3 => Class(3) case 5 => Class(5) case 7 => Class(7) case 9 => Class(9)
    case 24 => NameAndType(18, 22) case 25 => Methodref(6, 25)
    case 28 => NameAndType(27, 28) case 29 => Methodref(6, 29)
    case 32 => NameAndType(31, 32) case 33 => Methodref(6, 33)
    case 34 => NameAndType(11, 12) case 35 => Fieldref(4, 35)
    case 36 => NameAndType(15, 7) case 37 => Fieldref(4, 37)
    case _ => Utf8(NameAt(i))
  }

  function EntriesTo(r: nat): (es: seq<Entry>)
    requires r <= 38
    ensures |es| == r
    ensures forall i :: 0 <= i < r ==> es[i] == EntryAt(i)
  {
    seq(r, i requires 0 <= i < r => EntryAt(i))
  }

  function FixedIndex(r: nat): map<Key, u16>
    requires r <= 38
  {
    if r == 0 then map[] else FixedIndex(r - 1)[Str(NameAt(r - 1)) := r]
  }

  /** The pool once its first `r` entries are there. */
  function FixedTo(r: nat): Build
    requires r <= 38
  {
    Build(EntriesTo(r), FixedIndex(r))
  }

  lemma {:induction false} FixedIndexIs(r: nat, i: nat)
    requires r <= 38 && i < 38
    ensures |FixedIndex(r)| == r
    ensures if i < r then Str(NameAt(i)) in FixedIndex(r) && FixedIndex(r)[Str(NameAt(i))] == i + 1
            else Str(NameAt(i)) !in FixedIndex(r)
  {
    hide NameAt;
    if r > 0 {
      FixedIndexIs(r - 1, i);
      FixedIndexIs(r - 1, r - 1);
      if NameAt(i) == NameAt(r - 1) {
        NamesDiffer(i, r - 1);
      }
    }
  }

  lemma {:induction false} FixedKeys(r: nat, k: Key)
    requires r <= 38 && k in FixedIndex(r)
    ensures exists i :: 0 <= i < r && k == Str(NameAt(i))
  {
    hide NameAt;
    if k != Str(NameAt(r - 1)) {
      FixedKeys(r - 1, k);
    }
  }

  // ----- each add function continues the fixed part -----

  lemma FixedGrows(r: nat)
    requires r < 38
    ensures FixedTo(r).Append(EntryAt(r)).AddKey(Str(NameAt(r))) == FixedTo(r + 1)
    ensures FixedTo(r).AddKey(Str(NameAt(r))).Append(EntryAt(r)) == FixedTo(r + 1)
  {
    hide NameAt, EntryAt, EntriesTo;
    FixedIndexIs(r, r);
    assert EntriesTo(r) + [EntryAt(r)] == EntriesTo(r + 1);
  }

  lemma Utf8New(r: nat)
    requires r < 38 && EntryAt(r) == Utf8(NameAt(r))
    ensures AddUtf8(FixedTo(r), NameAt(r)) == FixedTo(r + 1) && Utf8Index(FixedTo(r), NameAt(r)) == r + 1
  {
    hide NameAt, EntryAt, EntriesTo;
    FixedGrows(r);
    FixedIndexIs(r, r);
    FixedIndexIs(r + 1, r);
  }

  lemma Utf8Known(r: nat, i: nat)
    requires i < r <= 38
    ensures AddUtf8(FixedTo(r), NameAt(i)) == FixedTo(r) && Utf8Index(FixedTo(r), NameAt(i)) == i + 1
  {
    hide NameAt, EntryAt, EntriesTo;
    FixedIndexIs(r, i);
  }

  lemma ClassStep(r: nat)
    requires r < 37 && EntryAt(r) == Utf8(NameAt(r)) && EntryAt(r + 1) == Class(r + 1)
    ensures AddClass(FixedTo(r), NameAt(r), NameAt(r + 1)) == FixedTo(r + 2)
  {
    hide NameAt, EntryAt, EntriesTo;
    Utf8New(r);
    FixedGrows(r + 1);
  }

  /** The index of a name: its place if it is there, else the next one. */
  predicate Placed(r: nat, i: nat) {
    i < r <= 38 || (i == r < 38 && EntryAt(r) == Utf8(NameAt(r)))
  }

  lemma Utf8Step(r: nat, i: nat)
    requires Placed(r, i)
    ensures AddUtf8(FixedTo(r), NameAt(i)) == FixedTo(if i == r then r + 1 else r)
    ensures Utf8Index(FixedTo(r), NameAt(i)) == i + 1
  {
    hide NameAt, EntryAt, EntriesTo, AddUtf8, Utf8Index, FixedTo;
    if i == r {
      Utf8New(r);
    } else {
      Utf8Known(r, i);
    }
  }

  /** Names `i` and `j`, new or known, then the name-and-type pair. */
  lemma NameAndTypeStep(r: nat, i: nat, j: nat)
    requires Placed(r, i)
    requires var r1 := if i == r then r + 1 else r;
             && Placed(r1, j)
             && var r2 := if j == r1 then r1 + 1 else r1;
                r2 < 38 && EntryAt(r2) == NameAndType(i + 1, j + 1)
    ensures var r1 := if i == r then r + 1 else r;
            var r2 := if j == r1 then r1 + 1 else r1;
            AddNameAndType(FixedTo(r), NameAt(r2), NameAt(i), NameAt(j)) == FixedTo(r2 + 1)
  {
    hide NameAt, EntryAt, AddUtf8, Utf8Index, FixedTo;
    var r1 := if i == r then r + 1 else r;
    var r2 := if j == r1 then r1 + 1 else r1;
    Utf8Step(r, i);
    Utf8Step(r1, j);
    FixedGrows(r2);
  }

  /** A member reference: its class is known, its name-and-type pair comes right before it. */
  lemma RefStep(b: Build, r: nat, natKey: string, name: string, descriptor: string, cls: nat)
    requires cls < r < 37 && AddNameAndType(b, natKey, name, descriptor) == FixedTo(r + 1)
    ensures Str(NameAt(cls)) in AddNameAndType(b, natKey, name, descriptor).index
    ensures EntryAt(r + 1) == Methodref(cls + 1, r + 1) ==>
              AddMethodref(b, NameAt(cls), NameAt(r + 1), natKey, name, descriptor) == FixedTo(r + 2)
    ensures EntryAt(r + 1) == Fieldref(cls + 1, r + 1) ==>
              AddFieldref(b, NameAt(cls), NameAt(r + 1), natKey, name, descriptor) == FixedTo(r + 2)
  {
    hide NameAt, EntryAt, EntriesTo, AddNameAndType;
    FixedIndexIs(r + 1, cls);
    FixedGrows(r + 1);
  }

  // ----- what the fixed indices stand for -----

  function MeaningAt(i: nat): Meaning
    requires i < 38
  {
    match i
    case 1 => ClassOf(NameAt(0)) case 3 => ClassOf(NameAt(2)) case 5 => ClassOf(NameAt(4))
    case 7 => ClassOf(NameAt(6)) case 9 => ClassOf(NameAt(8))
    case 24 => Member(NameAt(17), NameAt(21)) case 25 => Method(NameAt(4), NameAt(17), NameAt(21))
    case 28 => Member(NameAt(26), NameAt(27)) case 29 => Method(NameAt(4), NameAt(26), NameAt(27))
    case 32 => Member(NameAt(30), NameAt(31)) case 33 => Method(NameAt(4), NameAt(30), NameAt(31))
    case 34 => Member(NameAt(10), NameAt(11)) case 35 => Field(NameAt(2), NameAt(10), NameAt(11))
    case 36 => Member(NameAt(14), NameAt(6)) case 37 => Field(NameAt(2), NameAt(14), NameAt(6))
    case _ => Text(NameAt(i))
  }

  lemma EntryKnown(i: nat)
    requires i < 38
    ensures EntriesTo(38)[i] == EntryAt(i)
  {
    hide EntryAt;
  }

  lemma ClassMeans(i: nat)
    requires i < 38 && EntryAt(i).Class?
    ensures Resolve(EntriesTo(38), i + 1) == MeaningAt(i)
  {
    hide EntriesTo, NameAt;
    EntryKnown(i);
    EntryKnown(i - 1);
  }

  lemma PairMeans(i: nat)
    requires i < 38 && EntryAt(i).NameAndType?
    ensures Resolve(EntriesTo(38), i + 1) == MeaningAt(i)
  {
    hide EntriesTo, NameAt;
    EntryKnown(i);
    EntryKnown(EntryAt(i).name - 1);
    EntryKnown(EntryAt(i).descriptor - 1);
  }

  lemma RefMeans(i: nat)
    requires i < 38 && (EntryAt(i).Fieldref? || EntryAt(i).Methodref?)
    ensures Resolve(EntriesTo(38), i + 1) == MeaningAt(i)
  {
    hide EntriesTo, NameAt;
    var cls, nat_ := EntryAt(i).cls - 1, EntryAt(i).nameAndType - 1;
    EntryKnown(i);
    EntryKnown(cls);
    EntryKnown(cls - 1);
    EntryKnown(nat_);
    EntryKnown(EntryAt(nat_).name - 1);
    EntryKnown(EntryAt(nat_).descriptor - 1);
  }

  /** Every fixed index stands for what its key was meant for. */
  lemma FixedMeans(i: nat)
    requires i < 38
    ensures Resolve(EntriesTo(38), i + 1) == MeaningAt(i)
  {
    hide EntriesTo, NameAt;
    match EntryAt(i)
    case Class(_) => ClassMeans(i);
    case NameAndType(_, _) => PairMeans(i);
    case Fieldref(_, _) => RefMeans(i);
    case Methodref(_, _) => RefMeans(i);
    case _ => EntryKnown(i);
  }

  // ----- agreement of the table with the entries -----

  /** The table and the entries agree: as many keys as entries, each key at an entry of its own, the fixed
      names and every number at an entry with the intended meaning. */
  ghost predicate Agrees(b: Build, r: nat) {
    && r <= 38
    && OneToOne(b)
    && (forall i :: 0 <= i < r ==> IsFixed(b, i))
    && (forall k :: k in b.index ==> if k.Num? then IsNumber(b, k.n) else exists i :: 0 <= i < r && k == Str(NameAt(i)))
  }

  ghost predicate OneToOne(b: Build) {
    && |b.index| == |b.entries|
    && (forall k :: k in b.index ==> 1 <= b.index[k] <= |b.entries|)
    && (forall k, l :: k in b.index && l in b.index && b.index[k] == b.index[l] ==> k == l)
  }

  ghost predicate IsFixed(b: Build, i: nat)
    requires i < 38
  {
    && Str(NameAt(i)) in b.index && b.index[Str(NameAt(i))] == i + 1 <= |b.entries|
    && Resolve(b.entries, i + 1) == MeaningAt(i)
  }

  ghost predicate IsNumber(b: Build, v: int) {
    && -0x8000_0000 <= v < 0x8000_0000
    && Num(v) in b.index && Resolve(b.entries, b.index[Num(v)]) == Number(v)
  }

  /** After any number of fixed entries the table and the entries agree. */
  lemma FixedAgrees(r: nat)
    requires r <= 38
    ensures Agrees(FixedTo(r), r)
  {
    hide Resolve, NameAt, MeaningAt, EntriesTo;
    FixedSize(r);
    forall i | 0 <= i < r ensures IsFixed(FixedTo(r), i) {
      FixedIndexIs(r, i);
      FixedMeans(i);
      EntriesSplit(r);
      ResolveStable(EntriesTo(r), EntriesTo(38)[r..], i + 1);
    }
    forall k | k in FixedIndex(r)
      ensures k.Str? && exists i :: 0 <= i < r && k == Str(NameAt(i)) && FixedIndex(r)[k] == i + 1 {
      FixedKeys(r, k);
      var i :| 0 <= i < r && k == Str(NameAt(i));
      FixedIndexIs(r, i);
    }
  }

  lemma FixedSize(r: nat)
    requires r <= 38
    ensures |FixedIndex(r)| == r
  {
    FixedIndexIs(r, 0);
  }

  lemma EntriesSplit(r: nat)
    requires r <= 38
    ensures EntriesTo(r) + EntriesTo(38)[r..] == EntriesTo(38)
  {
    hide EntriesTo, EntryAt;
  }

  /** Adding a number keeps the agreement while the index fits 16 bits. */
  lemma AddNumberAgrees(b: Build, v: Int32)
    requires Agrees(b, 38) && |b.entries| < 65535 && Num(v) !in b.index
    ensures Agrees(AddNumber(b, v), 38) && IsNumber(AddNumber(b, v), v)
  {
    hide NameAt, MeaningAt, Resolve, IsFixed, IsNumber, OneToOne;
    var c := AddNumber(b, v);
    OneToOneKept(b, v);
    NumberAdded(b, v);
    forall i | 0 <= i < 38 ensures IsFixed(c, i) {
      FixedKept(b, v, i);
    }
    forall k | k in c.index && k.Num? ensures IsNumber(c, k.n) {
      if k != Num(v) { NumberKept(b, v, k.n); }
    }
  }

  lemma OneToOneKept(b: Build, v: Int32)
    requires OneToOne(b) && |b.entries| < 65535 && Num(v) !in b.index
    ensures OneToOne(AddNumber(b, v))
    ensures |b.index| == |b.entries| && forall k :: k in b.index ==> 1 <= b.index[k] <= |b.entries|
  {
    var c := AddNumber(b, v);
    assert c.index == b.index[Num(v) := ToU16(|b.index| + 1)] && ToU16(|b.index| + 1) == |b.entries| + 1;
  }

  lemma NumberAdded(b: Build, v: Int32)
    requires |b.index| == |b.entries| < 65535 && Num(v) !in b.index
    ensures IsNumber(AddNumber(b, v), v)
  {
    hide Resolve;
    LastNumber(b.entries, v);
  }

  lemma FixedKept(b: Build, v: Int32, i: nat)
    requires i < 38 && IsFixed(b, i)
    ensures IsFixed(AddNumber(b, v), i)
  {
    hide Resolve, NameAt, MeaningAt;
    ResolveStable(b.entries, [Integer(v)], i + 1);
  }

  lemma NumberKept(b: Build, v: Int32, u: int)
    requires IsNumber(b, u) && 1 <= b.index[Num(u)] <= |b.entries|
    ensures IsNumber(AddNumber(b, v), u)
  {
    hide Resolve;
    ResolveStable(b.entries, [Integer(v)], b.index[Num(u)]);
  }

  lemma LastNumber(es: seq<Entry>, v: Int32)
    ensures Resolve(es + [Integer(v)], |es| + 1) == Number(v)
  {
  }

  // ----- the numbers of a program -----

  /** R1 and R2 instructions put a number into the pool; with a label operand the C program leaves the number
      unset, so it is `junk`. */
  predicate HasNumber(e: Element) {
    e.Instr? && (e.ins.R1? || e.ins.R2?)
  }

  function NumberOf(e: Element, junk: Int32): Int32
    requires HasNumber(e)
  {
    match e.ins
    case R1(_, _, UImm(v)) => v
    case R2(_, _, _, Imm(v)) => v
    case _ => junk
  }

  type Junk = nat -> Int32

  /** The pool with the numbers of the first `n` elements. */
  function PoolTo(ir: seq<Element>, junk: Junk, n: nat): Build
    requires n <= |ir|
  {
    if n == 0 then FixedTo(38)
    else if HasNumber(ir[n - 1]) then AddNumber(PoolTo(ir, junk, n - 1), NumberOf(ir[n - 1], junk(n - 1)))
    else PoolTo(ir, junk, n - 1)
  }

  lemma {:induction false} PoolSize(ir: seq<Element>, junk: Junk, n: nat)
    requires n <= |ir|
    ensures 38 <= |PoolTo(ir, junk, n).entries| <= 38 + n
  {
    hide EntriesTo, FixedIndex;
    if n > 0 {
      PoolSize(ir, junk, n - 1);
    }
  }

  lemma {:induction false} PoolGrows(ir: seq<Element>, junk: Junk, m: nat, n: nat)
    requires m <= n <= |ir|
    ensures PoolTo(ir, junk, m).entries <= PoolTo(ir, junk, n).entries
    ensures forall k :: k in PoolTo(ir, junk, m).index ==>
              k in PoolTo(ir, junk, n).index && PoolTo(ir, junk, n).index[k] == PoolTo(ir, junk, m).index[k]
    decreases n
  {
    hide EntriesTo, FixedIndex, HasNumber, NumberOf;
    if m < n {
      PoolGrows(ir, junk, m, n - 1);
    }
  }

  /** Constant pool agreement: whatever the unset numbers are, as long as the count fits 16 bits. */
  lemma {:induction false} PoolAgrees(ir: seq<Element>, junk: Junk, n: nat)
    requires n <= |ir| && |PoolTo(ir, junk, n).entries| <= 65535
    ensures Agrees(PoolTo(ir, junk, n), 38)
    ensures forall j :: 0 <= j < n && HasNumber(ir[j]) ==> IsNumber(PoolTo(ir, junk, n), NumberOf(ir[j], junk(j)))
  {
    hide Agrees, IsNumber, HasNumber, NumberOf, FixedTo;
    if n == 0 {
      FixedAgrees(38);
    } else {
      PoolGrows(ir, junk, n - 1, n);
      PoolAgrees(ir, junk, n - 1);
      if HasNumber(ir[n - 1]) {
        var b, v := PoolTo(ir, junk, n - 1), NumberOf(ir[n - 1], junk(n - 1));
        AddNumberLimit(b, v);
        forall j | 0 <= j < n - 1 && HasNumber(ir[j])
          ensures IsNumber(AddNumber(b, v), NumberOf(ir[j], junk(j)))
        {
          NumberIndex(b, NumberOf(ir[j], junk(j)));
          NumberKept(b, v, NumberOf(ir[j], junk(j)));
        }
      }
    }
  }

  lemma AddNumberLimit(b: Build, v: Int32)
    requires Agrees(b, 38) && |AddNumber(b, v).entries| <= 65535
    ensures Agrees(AddNumber(b, v), 38) && IsNumber(AddNumber(b, v), v)
  {
    hide Agrees;
    if Num(v) in b.index {
      KnownNumber(b, v);
    } else {
      AddNumberAgrees(b, v);
    }
  }

  lemma NumberIndex(b: Build, u: int)
    requires Agrees(b, 38) && IsNumber(b, u)
    ensures Num(u) in b.index && 1 <= b.index[Num(u)] <= |b.entries|
  {
  }

  lemma KnownNumber(b: Build, v: Int32)
    requires Agrees(b, 38) && Num(v) in b.index
    ensures IsNumber(b, v)
  {
  }

  /** Instruction `j` puts `v` into the pool: its immediate, or what was there when it has a label. */
  predicate Puts(ir: seq<Element>, junk: Junk, j: nat, v: int)
    requires j < |ir|
  {
    match ir[j]
    case Instr(R1(_, _, UImm(w))) => v == w
    case Instr(R2(_, _, _, Imm(w))) => v == w
    case Instr(R1(_, _, ULabel(_))) => v == junk(j)
    case Instr(R2(_, _, _, Label(_))) => v == junk(j)
    case _ => false
  }

  /** The numbers in the pool are exactly those that some R1 or R2 instruction puts there. */
  lemma {:induction false} NumbersAre(ir: seq<Element>, junk: Junk, n: nat, v: int)
    requires n <= |ir|
    ensures Num(v) in PoolTo(ir, junk, n).index <==> exists j :: 0 <= j < n && Puts(ir, junk, j, v)
  {
    hide FixedIndex, EntriesTo, Puts;
    if n == 0 {
      if Num(v) in FixedIndex(38) {
        FixedKeys(38, Num(v));
      }
    } else {
      NumbersAre(ir, junk, n - 1, v);
      OneNumber(ir, junk, n, v);
    }
  }

  lemma OneNumber(ir: seq<Element>, junk: Junk, n: nat, v: int)
    requires 0 < n <= |ir|
    ensures Num(v) in PoolTo(ir, junk, n).index
       <==> Num(v) in PoolTo(ir, junk, n - 1).index || Puts(ir, junk, n - 1, v)
  {
    hide FixedIndex, EntriesTo;
  }
}
