/** The class file format (chapter 4 of the JVM Specification SE8): a writer, a reader, and the proof that
    the reader takes in exactly what the writer put out. */
module ClassFile {
  import opened Words
  import opened Constants

  datatype Attribute = Attribute(name: u16, info: seq<byte>)
  datatype MemberInfo = MemberInfo(access: u16, name: u16, descriptor: u16, attributes: seq<Attribute>)
  /** The part of a class file after its constant pool. */
  datatype Body = Body(
    access: u16, this_: u16, super_: u16, interfaces: seq<u16>,
    fields: seq<MemberInfo>, methods: seq<MemberInfo>, attributes: seq<Attribute>)
  datatype Class_ = Class_(minor: u16, major: u16, pool: seq<Entry>, body: Body)

  /** The content of a Code attribute (section 4.7.3). */
  datatype CodeInfo = CodeInfo(maxStack: u16, maxLocals: u16, code: seq<byte>, handlers: seq<seq<byte>>,
                               attributes: seq<Attribute>)

  /** Verification types that the generator writes (section 4.7.4). */
  datatype TypeInfo = LongType | ObjectType(cls: u16)

  /** A stack map frame: same_frame_extended, or append_frame with its new locals. */
  datatype Frame = SameExtended(delta: u16) | AppendFrame(delta: u16, locals: seq<TypeInfo>)

  datatype Parsed<+T> = Got(value: T, rest: seq<byte>) | Bad
  {
    predicate IsFailure() {
      Bad?
    }

    function PropagateFailure<U>(): Parsed<U>
      requires Bad?
    {
      Bad
    }

    function Extract(): (T, seq<byte>)
      requires Got?
    {
      (value, rest)
    }
  }

  const MAGIC := 0xCAFEBABE

  // ----- writing -----

  function Chars(s: string): (bs: seq<byte>)
    ensures |bs| == |s|
  {
    seq(|s|, i requires 0 <= i < |s| => s[i] as int % 256)
  }

  function WriteEntry(e: Entry): seq<byte> {
    match e
    case Utf8(s) => [1] + BigEndian(|s|, 2) + Chars(s)
    case Integer(v) => [3] + BigEndian(v, 4)
    case Class(n) => [7] + BigEndian(n, 2)
    case Fieldref(c, n) => [9] + BigEndian(c, 2) + BigEndian(n, 2)
    case Methodref(c, n) => [10] + BigEndian(c, 2) + BigEndian(n, 2)
    case NameAndType(n, d) => [12] + BigEndian(n, 2) + BigEndian(d, 2)
  }

  function WriteEntries(es: seq<Entry>): seq<byte> {
    if es == [] then [] else WriteEntries(es[..|es| - 1]) + WriteEntry(es[|es| - 1])
  }

  function WriteAttribute(a: Attribute): seq<byte> {
    BigEndian(a.name, 2) + BigEndian(|a.info|, 4) + a.info
  }

  function WriteAttributes(attrs: seq<Attribute>): seq<byte> {
    if attrs == [] then [] else WriteAttribute(attrs[0]) + WriteAttributes(attrs[1..])
  }

  function WriteMember(m: MemberInfo): seq<byte> {
    BigEndian(m.access, 2) + BigEndian(m.name, 2) + BigEndian(m.descriptor, 2)
    + BigEndian(|m.attributes|, 2) + WriteAttributes(m.attributes)
  }

  function WriteMembers(ms: seq<MemberInfo>): seq<byte> {
    if ms == [] then [] else WriteMember(ms[0]) + WriteMembers(ms[1..])
  }

  function WriteIndices(xs: seq<u16>): seq<byte> {
    if xs == [] then [] else BigEndian(xs[0], 2) + WriteIndices(xs[1..])
  }

  function WriteBody(b: Body): seq<byte> {
    BigEndian(b.access, 2) + (BigEndian(b.this_, 2) + (BigEndian(b.super_, 2)
    + (BigEndian(|b.interfaces|, 2) + (WriteIndices(b.interfaces)
    + (BigEndian(|b.fields|, 2) + (WriteMembers(b.fields)
    + (BigEndian(|b.methods|, 2) + (WriteMembers(b.methods)
    + (BigEndian(|b.attributes|, 2) + WriteAttributes(b.attributes))))))))))
  }

  function WriteClass(c: Class_): seq<byte> {
    BigEndian(MAGIC, 4) + (BigEndian(c.minor, 2) + (BigEndian(c.major, 2)
    + (BigEndian(|c.pool| + 1, 2) + (WriteEntries(c.pool) + WriteBody(c.body)))))
  }

  function WriteBlocks(bs: seq<seq<byte>>): seq<byte> {
    if bs == [] then [] else bs[0] + WriteBlocks(bs[1..])
  }

  function WriteCode(c: CodeInfo): seq<byte> {
    BigEndian(c.maxStack, 2) + (BigEndian(c.maxLocals, 2) + (BigEndian(|c.code|, 4) + (c.code
    + (BigEndian(|c.handlers|, 2) + (WriteBlocks(c.handlers)
    + (BigEndian(|c.attributes|, 2) + WriteAttributes(c.attributes)))))))
  }

  function WriteType(t: TypeInfo): seq<byte> {
    match t
    case LongType => [4]
    case ObjectType(c) => [7] + BigEndian(c, 2)
  }

  function WriteTypes(ts: seq<TypeInfo>): seq<byte> {
    if ts == [] then [] else WriteType(ts[0]) + WriteTypes(ts[1..])
  }

  function WriteFrame(f: Frame): seq<byte> {
    match f
    case SameExtended(d) => [251] + BigEndian(d, 2)
    case AppendFrame(d, ts) => [(251 + |ts|) % 256] + BigEndian(d, 2) + WriteTypes(ts)
  }

  function WriteFrames(fs: seq<Frame>): seq<byte> {
    if fs == [] then [] else WriteFrames(fs[..|fs| - 1]) + WriteFrame(fs[|fs| - 1])
  }

  function WriteStackMap(fs: seq<Frame>): seq<byte> {
    BigEndian(|fs|, 2) + WriteFrames(fs)
  }

  // ----- reading -----

  function ReadUnsigned(bs: seq<byte>, n: nat): Parsed<nat> {
    if |bs| < n then Bad else Got(Unsigned(bs[..n]), bs[n..])
  }

  function ReadIndex(bs: seq<byte>): Parsed<u16> {
    var (v, rest) :- ReadUnsigned(bs, 2);
    Got(v % 65536, rest)
  }

  function ReadBytes(bs: seq<byte>, n: nat): Parsed<seq<byte>> {
    if |bs| < n then Bad else Got(bs[..n], bs[n..])
  }

  function AsText(bs: seq<byte>): (s: string)
    ensures |s| == |bs|
  {
    seq(|bs|, i requires 0 <= i < |bs| => bs[i] as char)
  }

  function ReadPair(bs: seq<byte>): Parsed<(u16, u16)> {
    var (a, rest) :- ReadIndex(bs);
    var (b, rest) :- ReadIndex(rest);
    Got((a, b), rest)
  }

  function ReadEntry(bs: seq<byte>): Parsed<Entry> {
    if bs == [] then Bad
    else if bs[0] == 1 then
      var (n, rest) :- ReadIndex(bs[1..]);
      var (text, rest) :- ReadBytes(rest, n);
      Got(Utf8(AsText(text)), rest)
    else if bs[0] == 3 then
      var (v, rest) :- ReadBytes(bs[1..], 4);
      Got(Integer(Wrap32(Signed(v))), rest)
    else if bs[0] == 7 then
      var (n, rest) :- ReadIndex(bs[1..]);
      Got(Class(n), rest)
    else if bs[0] == 9 then
      var ((c, n), rest) :- ReadPair(bs[1..]);
      Got(Fieldref(c, n), rest)
    else if bs[0] == 10 then
      var ((c, n), rest) :- ReadPair(bs[1..]);
      Got(Methodref(c, n), rest)
    else if bs[0] == 12 then
      var ((n, d), rest) :- ReadPair(bs[1..]);
      Got(NameAndType(n, d), rest)
    else Bad
  }

  function ReadEntries(bs: seq<byte>, n: nat): Parsed<seq<Entry>> {
    if n == 0 then Got([], bs) else
    var (es, rest) :- ReadEntries(bs, n - 1);
    var (e, rest) :- ReadEntry(rest);
    Got(es + [e], rest)
  }

  function ReadAttribute(bs: seq<byte>): Parsed<Attribute> {
    var (name, rest) :- ReadIndex(bs);
    var (n, rest) :- ReadUnsigned(rest, 4);
    var (info, rest) :- ReadBytes(rest, n);
    Got(Attribute(name, info), rest)
  }

  function ReadAttributes(bs: seq<byte>, n: nat): Parsed<seq<Attribute>>
    decreases n
  {
    if n == 0 then Got([], bs) else
    var (a, rest) :- ReadAttribute(bs);
    var (attrs, rest) :- ReadAttributes(rest, n - 1);
    Got([a] + attrs, rest)
  }

  function ReadMember(bs: seq<byte>): Parsed<MemberInfo> {
    var (access, rest) :- ReadIndex(bs);
    var ((name, descriptor), rest) :- ReadPair(rest);
    var (n, rest) :- ReadIndex(rest);
    var (attrs, rest) :- ReadAttributes(rest, n);
    Got(MemberInfo(access, name, descriptor, attrs), rest)
  }

  function ReadMembers(bs: seq<byte>, n: nat): Parsed<seq<MemberInfo>>
    decreases n
  {
    if n == 0 then Got([], bs) else
    var (m, rest) :- ReadMember(bs);
    var (ms, rest) :- ReadMembers(rest, n - 1);
    Got([m] + ms, rest)
  }

  function ReadIndices(bs: seq<byte>, n: nat): Parsed<seq<u16>>
    decreases n
  {
    if n == 0 then Got([], bs) else
    var (x, rest) :- ReadIndex(bs);
    var (xs, rest) :- ReadIndices(rest, n - 1);
    Got([x] + xs, rest)
  }

  function ReadBody(bs: seq<byte>): Parsed<Body> {
    var (access, rest) :- ReadIndex(bs);
    var ((this_, super_), rest) :- ReadPair(rest);
    var (n, rest) :- ReadIndex(rest);
    var (interfaces, rest) :- ReadIndices(rest, n);
    var (n, rest) :- ReadIndex(rest);
    var (fields, rest) :- ReadMembers(rest, n);
    var (n, rest) :- ReadIndex(rest);
    var (methods, rest) :- ReadMembers(rest, n);
    var (n, rest) :- ReadIndex(rest);
    var (attributes, rest) :- ReadAttributes(rest, n);
    Got(Body(access, this_, super_, interfaces, fields, methods, attributes), rest)
  }

  /** A class file: everything must be taken in. */
  function ReadClass(bs: seq<byte>): Parsed<Class_> {
    var (magic, rest) :- ReadUnsigned(bs, 4);
    var ((minor, major), rest) :- ReadPair(rest);
    var (count, rest) :- ReadIndex(rest);
    if magic != 0xCAFE_BABE || count == 0 then Bad else
    var (pool, rest) :- ReadEntries(rest, count - 1);
    var (b, rest) :- ReadBody(rest);
    if rest != [] then Bad else
    Got(Class_(minor, major, pool, b), rest)
  }

  function ReadBlocks(bs: seq<byte>, n: nat): Parsed<seq<seq<byte>>>
    decreases n
  {
    if n == 0 then Got([], bs) else
    var (b, rest) :- ReadBytes(bs, 8);
    var (more, rest) :- ReadBlocks(rest, n - 1);
    Got([b] + more, rest)
  }

  function ReadCode(bs: seq<byte>): Parsed<CodeInfo> {
    var ((maxStack, maxLocals), rest) :- ReadPair(bs);
    var (n, rest) :- ReadUnsigned(rest, 4);
    var (code, rest) :- ReadBytes(rest, n);
    var (n, rest) :- ReadIndex(rest);
    var (handlers, rest) :- ReadBlocks(rest, n);
    var (n, rest) :- ReadIndex(rest);
    var (attrs, rest) :- ReadAttributes(rest, n);
    if rest != [] then Bad else Got(CodeInfo(maxStack, maxLocals, code, handlers, attrs), rest)
  }

  function ReadType(bs: seq<byte>): Parsed<TypeInfo> {
    if bs == [] then Bad
    else if bs[0] == 4 then Got(LongType, bs[1..])
    else if bs[0] == 7 then
      var (c, rest) :- ReadIndex(bs[1..]);
      Got(ObjectType(c), rest)
    else Bad
  }

  function ReadTypes(bs: seq<byte>, n: nat): Parsed<seq<TypeInfo>>
    decreases n
  {
    if n == 0 then Got([], bs) else
    var (t, rest) :- ReadType(bs);
    var (ts, rest) :- ReadTypes(rest, n - 1);
    Got([t] + ts, rest)
  }

  function ReadFrame(bs: seq<byte>): Parsed<Frame> {
    if bs == [] || !(251 <= bs[0] <= 254) then Bad else
    var (d, rest) :- ReadIndex(bs[1..]);
    if bs[0] == 251 then Got(SameExtended(d), rest) else
    var (ts, rest) :- ReadTypes(rest, bs[0] - 251);
    Got(AppendFrame(d, ts), rest)
  }

  function ReadFrames(bs: seq<byte>, n: nat): Parsed<seq<Frame>> {
    if n == 0 then Got([], bs) else
    var (fs, rest) :- ReadFrames(bs, n - 1);
    var (f, rest) :- ReadFrame(rest);
    Got(fs + [f], rest)
  }

  function ReadStackMap(bs: seq<byte>): Parsed<seq<Frame>> {
    var (n, rest) :- ReadIndex(bs);
    var (fs, rest) :- ReadFrames(rest, n);
    if rest != [] then Bad else Got(fs, rest)
  }

  // ----- round trips -----

  lemma Cut(a: seq<byte>, rest: seq<byte>)
    ensures (a + rest)[..|a|] == a && (a + rest)[|a|..] == rest
  {
  }

  lemma IndexTrip(v: u16, rest: seq<byte>)
    ensures ReadIndex(BigEndian(v, 2) + rest) == Got(v, rest)
  {
    hide BigEndian, Unsigned;
    Cut(BigEndian(v, 2), rest);
    Unsigned16(v);
  }

  lemma Unsigned4Trip(v: nat, rest: seq<byte>)
    requires v < 0x1_0000_0000
    ensures ReadUnsigned(BigEndian(v, 4) + rest, 4) == Got(v, rest)
  {
    hide BigEndian, Unsigned;
    Cut(BigEndian(v, 4), rest);
    Unsigned32(v);
  }

  lemma BytesTrip(bs: seq<byte>, rest: seq<byte>)
    ensures ReadBytes(bs + rest, |bs|) == Got(bs, rest)
  {
    Cut(bs, rest);
  }

  lemma PairTrip(a: u16, b: u16, rest: seq<byte>)
    ensures ReadPair(BigEndian(a, 2) + BigEndian(b, 2) + rest) == Got((a, b), rest)
    ensures ReadPair(BigEndian(a, 2) + (BigEndian(b, 2) + rest)) == Got((a, b), rest)
  {
    hide ReadIndex, BigEndian;
    assert BigEndian(a, 2) + BigEndian(b, 2) + rest == BigEndian(a, 2) + (BigEndian(b, 2) + rest);
    IndexTrip(a, BigEndian(b, 2) + rest);
    IndexTrip(b, rest);
  }

  predicate Ascii(s: string) {
    forall i :: 0 <= i < |s| ==> s[i] < 128 as char
  }

  predicate GoodEntry(e: Entry) {
    e.Utf8? ==> |e.text| < 65536 && Ascii(e.text)
  }

  lemma Utf8Trip(s: string, rest: seq<byte>)
    requires |s| < 65536 && Ascii(s)
    ensures ReadEntry(WriteEntry(Utf8(s)) + rest) == Got(Utf8(s), rest)
  {
    hide BigEndian, ReadIndex, ReadPair, ReadBytes, Signed, Chars, AsText;
    Tagged(1, BigEndian(|s|, 2) + Chars(s), rest);
    assert [1] + (BigEndian(|s|, 2) + Chars(s)) == WriteEntry(Utf8(s));
    assert BigEndian(|s|, 2) + Chars(s) + rest == BigEndian(|s|, 2) + (Chars(s) + rest);
    IndexTrip(|s|, Chars(s) + rest);
    BytesTrip(Chars(s), rest);
    CharsTrip(s);
  }

  lemma CharsTrip(s: string)
    requires Ascii(s)
    ensures AsText(Chars(s)) == s
  {
  }

  lemma EntryTrip(e: Entry, rest: seq<byte>)
    requires GoodEntry(e)
    ensures ReadEntry(WriteEntry(e) + rest) == Got(e, rest)
  {
    hide BigEndian, ReadIndex, ReadPair, ReadBytes, Signed;
    match e
    case Utf8(s) => Utf8Trip(s, rest);
    case Integer(v) =>
      Tagged(3, BigEndian(v, 4), rest);
      BytesTrip(BigEndian(v, 4), rest);
      Signed32(v);
    case Class(n) =>
      Tagged(7, BigEndian(n, 2), rest);
      IndexTrip(n, rest);
    case Fieldref(c, n) => TaggedPair(9, c, n, rest);
    case Methodref(c, n) => TaggedPair(10, c, n, rest);
    case NameAndType(c, n) => TaggedPair(12, c, n, rest);
  }

  lemma Tagged(tag: byte, bs: seq<byte>, rest: seq<byte>)
    ensures ([tag] + bs + rest)[0] == tag && ([tag] + bs + rest)[1..] == bs + rest
  {
  }

  lemma TaggedPair(tag: byte, a: u16, b: u16, rest: seq<byte>)
    ensures var bs := [tag] + BigEndian(a, 2) + BigEndian(b, 2) + rest;
            bs[0] == tag && ReadPair(bs[1..]) == Got((a, b), rest)
  {
    hide BigEndian, ReadPair;
    Tagged(tag, BigEndian(a, 2) + BigEndian(b, 2), rest);
    assert [tag] + (BigEndian(a, 2) + BigEndian(b, 2)) == [tag] + BigEndian(a, 2) + BigEndian(b, 2);
    PairTrip(a, b, rest);
  }

  /** The pool bytes decode to exactly the entries written. */
  lemma {:induction false} EntriesTrip(es: seq<Entry>, rest: seq<byte>)
    requires forall i :: 0 <= i < |es| ==> GoodEntry(es[i])
    ensures ReadEntries(WriteEntries(es) + rest, |es|) == Got(es, rest)
  {
    hide ReadEntry, WriteEntry, GoodEntry;
    if es != [] {
      var fs, e := es[..|es| - 1], es[|es| - 1];
      EntriesTrip(fs, WriteEntry(e) + rest);
      EntryTrip(e, rest);
      assert WriteEntries(es) + rest == WriteEntries(fs) + (WriteEntry(e) + rest);
      assert fs + [e] == es;
    }
  }

  lemma AttributeTrip(a: Attribute, rest: seq<byte>)
    requires |a.info| < 0x1_0000_0000
    ensures ReadAttribute(WriteAttribute(a) + rest) == Got(a, rest)
  {
    hide BigEndian, ReadIndex, ReadUnsigned, ReadBytes;
    assert WriteAttribute(a) + rest == BigEndian(a.name, 2) + (BigEndian(|a.info|, 4) + (a.info + rest));
    IndexTrip(a.name, BigEndian(|a.info|, 4) + (a.info + rest));
    Unsigned4Trip(|a.info|, a.info + rest);
    BytesTrip(a.info, rest);
  }

  ghost predicate GoodAttributes(attrs: seq<Attribute>) {
    |attrs| < 65536 && forall i :: 0 <= i < |attrs| ==> |attrs[i].info| < 0x1_0000_0000
  }

  lemma {:induction false} AttributesTrip(attrs: seq<Attribute>, rest: seq<byte>)
    requires GoodAttributes(attrs)
    ensures ReadAttributes(WriteAttributes(attrs) + rest, |attrs|) == Got(attrs, rest)
  {
    hide ReadAttribute, WriteAttribute;
    if attrs == [] {
      assert [] + rest == rest;
    } else {
      AttributeTrip(attrs[0], WriteAttributes(attrs[1..]) + rest);
      AttributesTrip(attrs[1..], rest);
      assert [attrs[0]] + attrs[1..] == attrs;
      assert WriteAttributes(attrs) + rest == WriteAttribute(attrs[0]) + (WriteAttributes(attrs[1..]) + rest);
    }
  }

  lemma CountedAttributes(attrs: seq<Attribute>, rest: seq<byte>)
    requires GoodAttributes(attrs)
    ensures ReadIndex(BigEndian(|attrs|, 2) + (WriteAttributes(attrs) + rest))
            == Got(|attrs|, WriteAttributes(attrs) + rest)
    ensures ReadAttributes(WriteAttributes(attrs) + rest, |attrs|) == Got(attrs, rest)
  {
    hide *;
    GoodCount(attrs);
    IndexTrip(|attrs|, WriteAttributes(attrs) + rest);
    AttributesTrip(attrs, rest);
  }

  lemma GoodCount(attrs: seq<Attribute>)
    requires GoodAttributes(attrs)
    ensures |attrs| < 65536
  {
  }

  ghost predicate GoodMember(m: MemberInfo) {
    GoodAttributes(m.attributes)
  }

  lemma MemberTrip(m: MemberInfo, rest: seq<byte>)
    requires GoodMember(m)
    ensures ReadMember(WriteMember(m) + rest) == Got(m, rest)
  {
    hide BigEndian, ReadIndex, ReadPair, ReadAttributes, WriteAttributes, GoodAttributes;
    GoodCount(m.attributes);
    var r3 := WriteAttributes(m.attributes) + rest;
    var r2 := BigEndian(|m.attributes|, 2) + r3;
    var r1 := BigEndian(m.name, 2) + (BigEndian(m.descriptor, 2) + r2);
    assert WriteMember(m) + rest == BigEndian(m.access, 2) + r1;
    IndexTrip(m.access, r1);
    PairTrip(m.name, m.descriptor, r2);
    CountedAttributes(m.attributes, rest);
  }

  lemma {:induction false} MembersTrip(ms: seq<MemberInfo>, rest: seq<byte>)
    requires forall i :: 0 <= i < |ms| ==> GoodMember(ms[i])
    ensures ReadMembers(WriteMembers(ms) + rest, |ms|) == Got(ms, rest)
  {
    hide ReadMember, WriteMember, GoodMember;
    if ms == [] {
      assert [] + rest == rest;
    } else {
      MemberTrip(ms[0], WriteMembers(ms[1..]) + rest);
      MembersTrip(ms[1..], rest);
      assert [ms[0]] + ms[1..] == ms;
      assert WriteMembers(ms) + rest == WriteMember(ms[0]) + (WriteMembers(ms[1..]) + rest);
    }
  }

  lemma {:induction false} IndicesTrip(xs: seq<u16>, rest: seq<byte>)
    ensures ReadIndices(WriteIndices(xs) + rest, |xs|) == Got(xs, rest)
  {
    hide ReadIndex, BigEndian;
    if xs == [] {
      assert [] + rest == rest;
    } else {
      IndexTrip(xs[0], WriteIndices(xs[1..]) + rest);
      IndicesTrip(xs[1..], rest);
      assert [xs[0]] + xs[1..] == xs;
      assert WriteIndices(xs) + rest == BigEndian(xs[0], 2) + (WriteIndices(xs[1..]) + rest);
    }
  }

  ghost predicate GoodMembers(ms: seq<MemberInfo>) {
    |ms| < 65536 && forall i :: 0 <= i < |ms| ==> GoodMember(ms[i])
  }

  lemma CountedMembers(ms: seq<MemberInfo>, rest: seq<byte>)
    requires GoodMembers(ms)
    ensures |ms| < 65536
    ensures ReadIndex(BigEndian(|ms|, 2) + (WriteMembers(ms) + rest)) == Got(|ms|, WriteMembers(ms) + rest)
    ensures ReadMembers(WriteMembers(ms) + rest, |ms|) == Got(ms, rest)
  {
    hide ReadIndex, ReadMembers, WriteMembers, BigEndian, GoodMember;
    IndexTrip(|ms|, WriteMembers(ms) + rest);
    MembersTrip(ms, rest);
  }

  lemma CountedIndices(xs: seq<u16>, rest: seq<byte>)
    requires |xs| < 65536
    ensures ReadIndex(BigEndian(|xs|, 2) + (WriteIndices(xs) + rest)) == Got(|xs|, WriteIndices(xs) + rest)
    ensures ReadIndices(WriteIndices(xs) + rest, |xs|) == Got(xs, rest)
  {
    hide ReadIndex, ReadIndices, WriteIndices, BigEndian;
    IndexTrip(|xs|, WriteIndices(xs) + rest);
    IndicesTrip(xs, rest);
  }

  ghost predicate GoodBody(b: Body) {
    |b.interfaces| < 65536 && GoodMembers(b.fields) && GoodMembers(b.methods) && GoodAttributes(b.attributes)
  }

  lemma BodyTrip(b: Body)
    requires GoodBody(b)
    ensures ReadBody(WriteBody(b)) == Got(b, [])
  {
    hide ReadIndex, ReadPair, ReadIndices, ReadMembers, ReadAttributes, BigEndian, WriteIndices, WriteMembers;
    hide WriteAttributes;
    hide GoodMembers, GoodAttributes;
    var r4 := WriteAttributes(b.attributes) + [];
    assert r4 == WriteAttributes(b.attributes);
    var w4 := BigEndian(|b.attributes|, 2) + r4;
    var w3 := BigEndian(|b.methods|, 2) + (WriteMembers(b.methods) + w4);
    var w2 := BigEndian(|b.fields|, 2) + (WriteMembers(b.fields) + w3);
    var w1 := BigEndian(|b.interfaces|, 2) + (WriteIndices(b.interfaces) + w2);
    CountedAttributes(b.attributes, []);
    CountedMembers(b.methods, w4);
    CountedMembers(b.fields, w3);
    CountedIndices(b.interfaces, w2);
    PairTrip(b.this_, b.super_, w1);
    IndexTrip(b.access, BigEndian(b.this_, 2) + (BigEndian(b.super_, 2) + w1));
  }

  ghost predicate GoodClass(c: Class_) {
    && |c.pool| + 1 < 65536 && (forall i :: 0 <= i < |c.pool| ==> GoodEntry(c.pool[i]))
    && GoodBody(c.body)
  }

  /** The reader takes in every byte of a written class and gives the class back. */
  lemma ClassTrip(c: Class_)
    requires GoodClass(c)
    ensures ReadClass(WriteClass(c)) == Got(c, [])
  {
    hide ReadIndex, ReadPair, ReadUnsigned, ReadEntries, ReadBody, BigEndian, WriteEntries, WriteBody, GoodEntry;
    hide GoodBody;
    var r := WriteEntries(c.pool) + WriteBody(c.body);
    var w := BigEndian(|c.pool| + 1, 2) + r;
    BodyTrip(c.body);
    EntriesTrip(c.pool, WriteBody(c.body));
    IndexTrip(|c.pool| + 1, r);
    PairTrip(c.minor, c.major, w);
    Unsigned4Trip(MAGIC, BigEndian(c.minor, 2) + (BigEndian(c.major, 2) + w));
  }

  // ----- the reader is canonical -----

  lemma IndexBack(bs: seq<byte>)
    requires ReadIndex(bs).Got?
    ensures var Got(v, rest) := ReadIndex(bs); bs == BigEndian(v, 2) + rest
  {
    hide BigEndian, Unsigned;
    BigEndianUnsigned(bs[..2]);
    UnsignedBound(bs[..2]);
    Pow256Values();
    assert bs == bs[..2] + bs[2..];
  }

  lemma Unsigned4Back(bs: seq<byte>)
    requires ReadUnsigned(bs, 4).Got?
    ensures var Got(v, rest) := ReadUnsigned(bs, 4); bs == BigEndian(v, 4) + rest
  {
    hide BigEndian, Unsigned;
    BigEndianUnsigned(bs[..4]);
    assert bs == bs[..4] + bs[4..];
  }

  lemma BytesBack(bs: seq<byte>, n: nat)
    requires ReadBytes(bs, n).Got?
    ensures var Got(v, rest) := ReadBytes(bs, n); |v| == n && bs == v + rest
  {
  }

  lemma PairBack(bs: seq<byte>)
    requires ReadPair(bs).Got?
    ensures var Got((a, b), rest) := ReadPair(bs); bs == BigEndian(a, 2) + (BigEndian(b, 2) + rest)
  {
    hide BigEndian, ReadIndex;
    IndexBack(bs);
    IndexBack(ReadIndex(bs).rest);
  }

  lemma TextBack(bs: seq<byte>)
    ensures Chars(AsText(bs)) == bs
  {
  }

  lemma Utf8Back(bs: seq<byte>)
    requires ReadEntry(bs).Got? && bs[0] == 1
    ensures var Got(e, rest) := ReadEntry(bs); bs == WriteEntry(e) + rest
  {
    hide BigEndian, ReadIndex, ReadPair, ReadBytes, Chars, AsText, Signed;
    var Got(n, r1) := ReadIndex(bs[1..]);
    var Got(text, r2) := ReadBytes(r1, n);
    IndexBack(bs[1..]);
    BytesBack(r1, n);
    TextBack(text);
    assert bs == [bs[0]] + bs[1..];
    assert [bs[0]] + (BigEndian(n, 2) + (text + r2)) == [1] + BigEndian(n, 2) + text + r2;
  }

  lemma IntegerBack(bs: seq<byte>)
    requires ReadEntry(bs).Got? && bs[0] == 3
    ensures var Got(e, rest) := ReadEntry(bs); bs == WriteEntry(e) + rest
  {
    hide BigEndian, ReadIndex, ReadPair, ReadBytes, Chars, AsText, Signed;
    var Got(v, rest) := ReadBytes(bs[1..], 4);
    BytesBack(bs[1..], 4);
    BigEndianSigned(v);
    SignedBound(v);
    assert bs == [bs[0]] + bs[1..];
    assert [bs[0]] + (v + rest) == [3] + v + rest;
  }

  lemma SignedBound(bs: seq<byte>)
    requires |bs| == 4
    ensures -0x8000_0000 <= Signed(bs) < 0x8000_0000
  {
    UnsignedBound(bs);
    Pow256Values();
  }

  lemma PairEntryBack(bs: seq<byte>)
    requires ReadEntry(bs).Got? && bs[0] != 1 && bs[0] != 3
    ensures var Got(e, rest) := ReadEntry(bs); bs == WriteEntry(e) + rest
  {
    hide BigEndian, ReadIndex, ReadPair, ReadBytes, Chars, AsText, Signed;
    assert bs == [bs[0]] + bs[1..];
    if bs[0] == 7 {
      IndexBack(bs[1..]);
      var Got(n, rest) := ReadIndex(bs[1..]);
      assert [bs[0]] + (BigEndian(n, 2) + rest) == [7] + BigEndian(n, 2) + rest;
    } else {
      PairBack(bs[1..]);
      var Got((a, b), rest) := ReadPair(bs[1..]);
      assert [bs[0]] + (BigEndian(a, 2) + (BigEndian(b, 2) + rest))
             == [bs[0]] + BigEndian(a, 2) + BigEndian(b, 2) + rest;
    }
  }

  lemma EntryBack(bs: seq<byte>)
    requires ReadEntry(bs).Got?
    ensures var Got(e, rest) := ReadEntry(bs); bs == WriteEntry(e) + rest
  {
    hide WriteEntry, ReadIndex, ReadPair, ReadBytes;
    if bs[0] == 1 {
      Utf8Back(bs);
    } else if bs[0] == 3 {
      IntegerBack(bs);
    } else {
      PairEntryBack(bs);
    }
  }

  lemma {:induction false} EntriesBack(bs: seq<byte>, n: nat)
    requires ReadEntries(bs, n).Got?
    ensures var Got(es, rest) := ReadEntries(bs, n); |es| == n && bs == WriteEntries(es) + rest
  {
    hide ReadEntry, WriteEntry;
    if n == 0 {
      assert [] + bs == bs;
    } else {
      EntriesBack(bs, n - 1);
      var Got(es, r1) := ReadEntries(bs, n - 1);
      var Got(e, r2) := ReadEntry(r1);
      EntryBack(r1);
      assert (es + [e])[..n - 1] == es;
      assert WriteEntries(es) + (WriteEntry(e) + r2) == WriteEntries(es) + WriteEntry(e) + r2;
    }
  }

  lemma AttributeBack(bs: seq<byte>)
    requires ReadAttribute(bs).Got?
    ensures var Got(a, rest) := ReadAttribute(bs); bs == WriteAttribute(a) + rest
  {
    hide BigEndian, ReadIndex, ReadUnsigned, ReadBytes;
    var Got(name, r1) := ReadIndex(bs);
    var Got(n, r2) := ReadUnsigned(r1, 4);
    var Got(info, r3) := ReadBytes(r2, n);
    IndexBack(bs);
    Unsigned4Back(r1);
    BytesBack(r2, n);
    assert BigEndian(name, 2) + (BigEndian(n, 4) + (info + r3)) == BigEndian(name, 2) + BigEndian(n, 4) + info + r3;
  }

  lemma {:induction false} AttributesBack(bs: seq<byte>, n: nat)
    requires ReadAttributes(bs, n).Got?
    ensures var Got(attrs, rest) := ReadAttributes(bs, n); |attrs| == n && bs == WriteAttributes(attrs) + rest
    decreases n
  {
    hide ReadAttribute, WriteAttribute;
    if n == 0 {
      assert [] + bs == bs;
    } else {
      AttributeBack(bs);
      var Got(a, r1) := ReadAttribute(bs);
      AttributesBack(r1, n - 1);
      var Got(attrs, r2) := ReadAttributes(r1, n - 1);
      assert ([a] + attrs)[1..] == attrs;
      assert WriteAttribute(a) + (WriteAttributes(attrs) + r2) == WriteAttribute(a) + WriteAttributes(attrs) + r2;
    }
  }

  /** A count and so many attributes. */
  lemma CountedAttributesBack(bs: seq<byte>)
    requires ReadIndex(bs).Got? && ReadAttributes(ReadIndex(bs).rest, ReadIndex(bs).value).Got?
    ensures var Got(attrs, rest) := ReadAttributes(ReadIndex(bs).rest, ReadIndex(bs).value);
            bs == BigEndian(|attrs|, 2) + (WriteAttributes(attrs) + rest)
  {
    hide BigEndian, ReadIndex, ReadAttributes, WriteAttributes;
    IndexBack(bs);
    AttributesBack(ReadIndex(bs).rest, ReadIndex(bs).value);
  }

  lemma MemberBack(bs: seq<byte>)
    requires ReadMember(bs).Got?
    ensures var Got(m, rest) := ReadMember(bs); bs == WriteMember(m) + rest
  {
    hide BigEndian, ReadIndex, ReadPair, ReadAttributes, WriteAttributes;
    var Got(access, r1) := ReadIndex(bs);
    var Got((name, descriptor), r2) := ReadPair(r1);
    var Got(n, r3) := ReadIndex(r2);
    var Got(attrs, r4) := ReadAttributes(r3, n);
    IndexBack(bs);
    PairBack(r1);
    CountedAttributesBack(r2);
    MemberJoined(BigEndian(access, 2), BigEndian(name, 2), BigEndian(descriptor, 2), BigEndian(|attrs|, 2),
                 WriteAttributes(attrs), r4);
  }

  lemma MemberJoined(a: seq<byte>, b: seq<byte>, c: seq<byte>, d: seq<byte>, e: seq<byte>, rest: seq<byte>)
    ensures a + (b + (c + (d + (e + rest)))) == a + b + c + d + e + rest
  {
  }

  lemma {:induction false} MembersBack(bs: seq<byte>, n: nat)
    requires ReadMembers(bs, n).Got?
    ensures var Got(ms, rest) := ReadMembers(bs, n); |ms| == n && bs == WriteMembers(ms) + rest
    decreases n
  {
    hide ReadMember, WriteMember;
    if n == 0 {
      assert [] + bs == bs;
    } else {
      MemberBack(bs);
      var Got(m, r1) := ReadMember(bs);
      MembersBack(r1, n - 1);
      var Got(ms, r2) := ReadMembers(r1, n - 1);
      assert ([m] + ms)[1..] == ms;
      assert WriteMember(m) + (WriteMembers(ms) + r2) == WriteMember(m) + WriteMembers(ms) + r2;
    }
  }

  lemma {:induction false} IndicesBack(bs: seq<byte>, n: nat)
    requires ReadIndices(bs, n).Got?
    ensures var Got(xs, rest) := ReadIndices(bs, n); |xs| == n && bs == WriteIndices(xs) + rest
    decreases n
  {
    hide ReadIndex, BigEndian;
    if n == 0 {
      assert [] + bs == bs;
    } else {
      IndexBack(bs);
      var Got(x, r1) := ReadIndex(bs);
      IndicesBack(r1, n - 1);
      var Got(xs, r2) := ReadIndices(r1, n - 1);
      assert ([x] + xs)[1..] == xs;
      assert BigEndian(x, 2) + (WriteIndices(xs) + r2) == BigEndian(x, 2) + WriteIndices(xs) + r2;
    }
  }

  lemma CountedMembersBack(bs: seq<byte>)
    requires ReadIndex(bs).Got? && ReadMembers(ReadIndex(bs).rest, ReadIndex(bs).value).Got?
    ensures var Got(ms, rest) := ReadMembers(ReadIndex(bs).rest, ReadIndex(bs).value);
            bs == BigEndian(|ms|, 2) + (WriteMembers(ms) + rest)
  {
    hide BigEndian, ReadIndex, ReadMembers, WriteMembers;
    IndexBack(bs);
    MembersBack(ReadIndex(bs).rest, ReadIndex(bs).value);
  }

  lemma CountedIndicesBack(bs: seq<byte>)
    requires ReadIndex(bs).Got? && ReadIndices(ReadIndex(bs).rest, ReadIndex(bs).value).Got?
    ensures var Got(xs, rest) := ReadIndices(ReadIndex(bs).rest, ReadIndex(bs).value);
            bs == BigEndian(|xs|, 2) + (WriteIndices(xs) + rest)
  {
    hide BigEndian, ReadIndex, ReadIndices, WriteIndices;
    IndexBack(bs);
    IndicesBack(ReadIndex(bs).rest, ReadIndex(bs).value);
  }

  lemma BodyBack(bs: seq<byte>)
    requires ReadBody(bs).Got? && ReadBody(bs).rest == []
    ensures bs == WriteBody(ReadBody(bs).value)
  {
    hide BigEndian, ReadIndex, ReadPair, ReadIndices, ReadMembers, ReadAttributes, WriteIndices, WriteMembers;
    hide WriteAttributes;
    var r1 := ReadIndex(bs).rest;
    var r2 := ReadPair(r1).rest;
    var r3 := ReadIndices(ReadIndex(r2).rest, ReadIndex(r2).value).rest;
    var r4 := ReadMembers(ReadIndex(r3).rest, ReadIndex(r3).value).rest;
    var r5 := ReadMembers(ReadIndex(r4).rest, ReadIndex(r4).value).rest;
    var attrs := ReadAttributes(ReadIndex(r5).rest, ReadIndex(r5).value).value;
    IndexBack(bs);
    PairBack(r1);
    CountedIndicesBack(r2);
    CountedMembersBack(r3);
    CountedMembersBack(r4);
    CountedAttributesBack(r5);
    assert WriteAttributes(attrs) + [] == WriteAttributes(attrs);
  }

  /** Bytes that read as a class are that class written: no two files read as the same class. */
  lemma ClassBack(bs: seq<byte>)
    requires ReadClass(bs).Got?
    ensures WriteClass(ReadClass(bs).value) == bs
  {
    hide BigEndian, ReadIndex, ReadPair, ReadUnsigned, ReadEntries, ReadBody, WriteEntries, WriteBody;
    var r1 := ReadUnsigned(bs, 4).rest;
    var r2 := ReadPair(r1).rest;
    var Got(count, r3) := ReadIndex(r2);
    var r4 := ReadEntries(r3, count - 1).rest;
    Unsigned4Back(bs);
    PairBack(r1);
    IndexBack(r2);
    EntriesBack(r3, count - 1);
    BodyBack(r4);
  }

  lemma {:induction false} BlocksTrip(bs: seq<seq<byte>>, rest: seq<byte>)
    requires forall i :: 0 <= i < |bs| ==> |bs[i]| == 8
    ensures ReadBlocks(WriteBlocks(bs) + rest, |bs|) == Got(bs, rest)
  {
    hide ReadBytes;
    if bs == [] {
      assert [] + rest == rest;
    } else {
      BytesTrip(bs[0], WriteBlocks(bs[1..]) + rest);
      BlocksTrip(bs[1..], rest);
      assert [bs[0]] + bs[1..] == bs;
      assert WriteBlocks(bs) + rest == bs[0] + (WriteBlocks(bs[1..]) + rest);
    }
  }

  ghost predicate GoodCode(c: CodeInfo) {
    && |c.code| < 0x1_0000_0000 && |c.handlers| < 65536 && (forall i :: 0 <= i < |c.handlers| ==> |c.handlers[i]| == 8)
    && GoodAttributes(c.attributes)
  }

  lemma CodeTrip(c: CodeInfo)
    requires GoodCode(c)
    ensures ReadCode(WriteCode(c)) == Got(c, [])
  {
    hide ReadIndex, ReadPair, ReadUnsigned, ReadBytes, ReadBlocks, ReadAttributes, BigEndian, WriteBlocks;
    hide WriteAttributes, GoodAttributes;
    var r := WriteAttributes(c.attributes) + [];
    assert r == WriteAttributes(c.attributes);
    var w3 := BigEndian(|c.attributes|, 2) + r;
    var w2 := BigEndian(|c.handlers|, 2) + (WriteBlocks(c.handlers) + w3);
    var w1 := BigEndian(|c.code|, 4) + (c.code + w2);
    CountedAttributes(c.attributes, []);
    BlocksTrip(c.handlers, w3);
    IndexTrip(|c.handlers|, WriteBlocks(c.handlers) + w3);
    BytesTrip(c.code, w2);
    Unsigned4Trip(|c.code|, c.code + w2);
    PairTrip(c.maxStack, c.maxLocals, w1);
  }

  lemma TypeTrip(t: TypeInfo, rest: seq<byte>)
    ensures ReadType(WriteType(t) + rest) == Got(t, rest)
  {
    hide BigEndian, ReadIndex;
    match t
    case LongType => Tagged(4, [], rest);
    case ObjectType(c) =>
      Tagged(7, BigEndian(c, 2), rest);
      IndexTrip(c, rest);
  }

  lemma {:induction false} TypesTrip(ts: seq<TypeInfo>, rest: seq<byte>)
    ensures ReadTypes(WriteTypes(ts) + rest, |ts|) == Got(ts, rest)
  {
    hide ReadType, WriteType;
    if ts == [] {
      assert [] + rest == rest;
    } else {
      TypeTrip(ts[0], WriteTypes(ts[1..]) + rest);
      TypesTrip(ts[1..], rest);
      assert [ts[0]] + ts[1..] == ts;
      assert WriteTypes(ts) + rest == WriteType(ts[0]) + (WriteTypes(ts[1..]) + rest);
    }
  }

  predicate GoodFrame(f: Frame) {
    f.AppendFrame? ==> 1 <= |f.locals| <= 3
  }

  lemma FrameTrip(f: Frame, rest: seq<byte>)
    requires GoodFrame(f)
    ensures ReadFrame(WriteFrame(f) + rest) == Got(f, rest)
  {
    hide BigEndian, ReadIndex, ReadTypes, WriteTypes;
    match f
    case SameExtended(d) =>
      Tagged(251, BigEndian(d, 2), rest);
      IndexTrip(d, rest);
    case AppendFrame(d, ts) =>
      Tagged(251 + |ts|, BigEndian(d, 2) + WriteTypes(ts), rest);
      assert [251 + |ts|] + (BigEndian(d, 2) + WriteTypes(ts)) == WriteFrame(f);
      assert BigEndian(d, 2) + WriteTypes(ts) + rest == BigEndian(d, 2) + (WriteTypes(ts) + rest);
      IndexTrip(d, WriteTypes(ts) + rest);
      TypesTrip(ts, rest);
  }

  lemma {:induction false} FramesTrip(fs: seq<Frame>, rest: seq<byte>)
    requires forall i :: 0 <= i < |fs| ==> GoodFrame(fs[i])
    ensures ReadFrames(WriteFrames(fs) + rest, |fs|) == Got(fs, rest)
  {
    hide ReadFrame, WriteFrame, GoodFrame;
    if fs == [] {
      assert [] + rest == rest;
    } else {
      var gs, f := fs[..|fs| - 1], fs[|fs| - 1];
      FramesTrip(gs, WriteFrame(f) + rest);
      FrameTrip(f, rest);
      assert WriteFrames(fs) + rest == WriteFrames(gs) + (WriteFrame(f) + rest);
      assert gs + [f] == fs;
    }
  }

  lemma StackMapTrip(fs: seq<Frame>)
    requires |fs| < 65536 && forall i :: 0 <= i < |fs| ==> GoodFrame(fs[i])
    ensures ReadStackMap(WriteStackMap(fs)) == Got(fs, [])
  {
    hide BigEndian, ReadIndex, ReadFrames, WriteFrames, GoodFrame;
    assert WriteFrames(fs) + [] == WriteFrames(fs);
    IndexTrip(|fs|, WriteFrames(fs));
    FramesTrip(fs, []);
  }
}
