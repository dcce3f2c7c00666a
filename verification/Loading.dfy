/** What a JVM looks for in a class file before it runs main: the class, its static fields, its initializer and main,
    by the names, descriptors and flags of the JVM Specification SE8 (sections 2.9, 4.1, 4.5, 4.6, 4.7 and 5.2). */
module Loading {
  import opened Words
  import opened Ir
  import opened Constants
  import opened ClassFile

  // ----- access flags -----

  predicate IsPublic(access: u16) {
    access % 2 == 1
  }

  predicate IsStatic(access: u16) {
    access / 0x8 % 2 == 1
  }

  /** Neither an interface nor abstract. */
  predicate IsConcrete(access: u16) {
    access / 0x200 % 2 == 0 && access / 0x400 % 2 == 0
  }

  // ----- the class -----

  predicate Names(pool: seq<Entry>, m: MemberInfo, name: string, descriptor: string) {
    Resolve(pool, m.name) == Text(name) && Resolve(pool, m.descriptor) == Text(descriptor)
  }

  ghost predicate HasStatic(c: Class_, name: string, descriptor: string) {
    exists i :: 0 <= i < |c.body.fields| && Names(c.pool, c.body.fields[i], name, descriptor)
             && IsStatic(c.body.fields[i].access)
  }

  /** A public class RvRuntime, of a version that is type checked, with the two static fields the code uses. */
  ghost predicate Linked(c: Class_) {
    && 50 <= c.major <= 52 && IsPublic(c.body.access) && IsConcrete(c.body.access)
    && Resolve(c.pool, c.body.this_) == ClassOf("RvRuntime")
    && Resolve(c.pool, c.body.super_) == ClassOf("java/lang/Object")
    && HasStatic(c, "registers", "Ljava/lang/ThreadLocal;") && HasStatic(c, "memory", "[J")
  }

  // ----- a method -----

  /** The static method of that name and descriptor. */
  function FindMethod(pool: seq<Entry>, ms: seq<MemberInfo>, name: string, descriptor: string): Option<MemberInfo> {
    if ms == [] then None
    else if Names(pool, ms[0], name, descriptor) && IsStatic(ms[0].access) then Some(ms[0])
    else FindMethod(pool, ms[1..], name, descriptor)
  }

  function FindAttribute(pool: seq<Entry>, attrs: seq<Attribute>, name: string): Option<seq<byte>> {
    if attrs == [] then None
    else if Resolve(pool, attrs[0].name) == Text(name) then Some(attrs[0].info)
    else FindAttribute(pool, attrs[1..], name)
  }

  datatype Loaded = Loaded(pool: seq<Entry>, access: u16, code: CodeInfo, frames: seq<Frame>) | NotLoaded

  /** The code of a method with its stack map frames. */
  function LoadMethod(c: Class_, name: string, descriptor: string): Loaded {
    match FindMethod(c.pool, c.body.methods, name, descriptor)
    case None => NotLoaded
    case Some(m) =>
      match FindAttribute(c.pool, m.attributes, "Code")
      case None => NotLoaded
      case Some(info) => LoadCode(c.pool, m.access, info)
  }

  function LoadCode(pool: seq<Entry>, access: u16, info: seq<byte>): Loaded {
    match ReadCode(info)
    case Bad => NotLoaded
    case Got(code, _) =>
      match FindAttribute(pool, code.attributes, "StackMapTable")
      case None => Loaded(pool, access, code, [])
      case Some(frames) =>
        match ReadStackMap(frames)
        case Bad => NotLoaded
        case Got(fs, _) => Loaded(pool, access, code, fs)
  }

  /** main(String[]) of the class, which must be public. */
  ghost function LoadMain(bytes: seq<byte>): Loaded {
    match ReadClass(bytes)
    case Bad => NotLoaded
    case Got(c, _) =>
      var m := LoadMethod(c, "main", "([Ljava/lang/String;)V");
      if Linked(c) && m.Loaded? && IsPublic(m.access) then m else NotLoaded
  }

  /** The class initializer, which the JVM runs before main. */
  ghost function LoadInitializer(bytes: seq<byte>): Loaded {
    match ReadClass(bytes)
    case Bad => NotLoaded
    case Got(c, _) => if Linked(c) then LoadMethod(c, "<clinit>", "()V") else NotLoaded
  }
}
