/** Constant pool entries and what they stand for (section 4.4 of the JVM Specification SE8). */
module Constants {
  import opened Words

  datatype Entry =
    | Utf8(text: string)
    | Integer(value: Int32)
    | Class(name: u16)
    | NameAndType(name: u16, descriptor: u16)
    | Fieldref(cls: u16, nameAndType: u16)
    | Methodref(cls: u16, nameAndType: u16)

  /** An entry with its cross-references followed. */
  datatype Meaning =
    | Text(text: string)
    | Number(value: Int32)
    | ClassOf(name: string)
    | Member(name: string, descriptor: string)
    | Field(cls: string, name: string, descriptor: string)
    | Method(cls: string, name: string, descriptor: string)
    | Meaningless

  /** The text at index `i`, which must come before index `limit`. */
  function TextAt(es: seq<Entry>, i: int, limit: int): Meaning {
    if 1 <= i < limit <= |es| + 1 && es[i - 1].Utf8? then Text(es[i - 1].text) else Meaningless
  }

  function ClassAt(es: seq<Entry>, i: int, limit: int): Meaning {
    if 1 <= i < limit <= |es| + 1 && es[i - 1].Class? && TextAt(es, es[i - 1].name, i).Text? then
      ClassOf(TextAt(es, es[i - 1].name, i).text)
    else Meaningless
  }

  function MemberAt(es: seq<Entry>, i: int, limit: int): Meaning {
    if && 1 <= i < limit <= |es| + 1 && es[i - 1].NameAndType?
       && TextAt(es, es[i - 1].name, i).Text? && TextAt(es, es[i - 1].descriptor, i).Text?
    then Member(TextAt(es, es[i - 1].name, i).text, TextAt(es, es[i - 1].descriptor, i).text)
    else Meaningless
  }

  /** What index `i` of the pool stands for; every cross-reference must go to an earlier entry of the right kind. */
  function Resolve(es: seq<Entry>, i: int): Meaning {
    if !(1 <= i <= |es|) then Meaningless else
    match es[i - 1]
    case Utf8(s) => Text(s)
    case Integer(v) => Number(v)
    case Class(_) => ClassAt(es, i, |es| + 1)
    case NameAndType(_, _) => MemberAt(es, i, |es| + 1)
    case Fieldref(c, n) =>
      var cls, member := ClassAt(es, c, i), MemberAt(es, n, i);
      if cls.ClassOf? && member.Member? then Field(cls.name, member.name, member.descriptor) else Meaningless
    case Methodref(c, n) =>
      var cls, member := ClassAt(es, c, i), MemberAt(es, n, i);
      if cls.ClassOf? && member.Member? then Method(cls.name, member.name, member.descriptor) else Meaningless
  }

  /** Appending entries does not change what an index stands for. */
  lemma ResolveStable(es: seq<Entry>, more: seq<Entry>, i: int)
    requires 1 <= i <= |es|
    ensures Resolve(es + more, i) == Resolve(es, i)
  {
    assert forall j :: 0 <= j < |es| ==> (es + more)[j] == es[j];
  }
}
