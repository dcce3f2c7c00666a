/** The semantic check: labels are declared once, and every label operand is declared. */
module Seman {
  import opened Ir
  import opened Table

  /** `ir[j]` declares `name` a second time, and no label before `j` is declared twice. */
  ghost predicate FirstDuplicate(ir: seq<Element>, j: nat, name: string) {
    && j < |ir| && ir[j] == LabelDecl(name) && Declared(ir[..j], name) && UniqueLabels(ir[..j])
  }

  /** `ir[i]` refers to an undeclared `name`, and every reference before `i` is declared. */
  ghost predicate FirstUnknown(ir: seq<Element>, i: nat, name: string) {
    && i < |ir| && Refers(ir[i], name) && !Declared(ir, name)
    && forall j, l :: 0 <= j < i && Refers(ir[j], l) ==> Declared(ir, l)
  }

  lemma UniqueNext(ir: seq<Element>, i: nat)
    requires i < |ir| && UniqueLabels(ir[..i])
    ensures UniqueLabels(ir[..i + 1]) <==> (ir[i].LabelDecl? ==> !Declared(ir[..i], ir[i].name))
  {
    var t := ir[..i + 1];
    assert t[..i] == ir[..i];
    if ir[i].LabelDecl? && Declared(ir[..i], ir[i].name) {
      var k :| 0 <= k < i && ir[..i][k] == LabelDecl(ir[i].name);
      assert t[k].LabelDecl? && t[i].LabelDecl? && t[k].name == t[i].name;
    } else {
      forall a, b | 0 <= a < b < |t| && t[a].LabelDecl? && t[b].LabelDecl? ensures t[a].name != t[b].name {
        if b == i {
          assert t[a] in ir[..i];
        } else {
          assert t[a] == ir[..i][a] && t[b] == ir[..i][b];
        }
      }
    }
  }

  lemma DeclaredNext(ir: seq<Element>, i: nat)
    requires i < |ir|
    ensures forall name :: Declared(ir[..i + 1], name) <==> Declared(ir[..i], name) || ir[i] == LabelDecl(name)
  {
    assert ir[..i + 1] == ir[..i] + [ir[i]];
  }

  lemma NoneDeclared(ir: seq<Element>)
    ensures UniqueLabels(ir[..0]) && forall name :: !Declared(ir[..0], name)
  {
  }

  lemma NotUnique(ir: seq<Element>, j: nat, name: string)
    requires FirstDuplicate(ir, j, name)
    ensures !UniqueLabels(ir)
  {
    var k :| 0 <= k < j && ir[..j][k] == LabelDecl(name);
    assert ir[k].name == ir[j].name;
  }

  /** The label operand of an element, if it has one. */
  function LabelOperand(e: Element): (r: Option<string>)
    ensures forall l :: Refers(e, l) <==> r == Some(l)
  {
    match e
    case Instr(R2(_, _, _, Label(name))) => Some(name)
    case Instr(R1(_, _, ULabel(name))) => Some(name)
    case _ => None
  }

  /** Declares every label in a table, then looks every label operand up in it. */
  method ReferencedLabelsExist(ir: seq<Element>) returns (r: Result<()>)
    ensures r.Ok? <==> UniqueLabels(ir) && ClosedLabels(ir)
    ensures r.Err? && r.error.DuplicateLabel? ==> exists j :: FirstDuplicate(ir, j, r.error.name)
    ensures r.Err? && !r.error.DuplicateLabel? ==>
              r.error.UnknownLabel? && UniqueLabels(ir) && exists i :: FirstUnknown(ir, i, r.error.name)
  {
    hide Probing, Holds, Count, Table.Valid, Refers, LabelOperand, UniqueLabels, Declared;
    var declaredLabels := new Table<nat>();
    NoneDeclared(ir);
    var i := 0;
    while i < |ir|
      invariant i <= |ir| && declaredLabels.Valid() && fresh(declaredLabels) && fresh(declaredLabels.values)
      invariant UniqueLabels(ir[..i])
      invariant forall k :: k in declaredLabels.M <==> k.Str? && Declared(ir[..i], k.s)
    {
      UniqueNext(ir, i);
      DeclaredNext(ir, i);
      if ir[i].LabelDecl? {
        var isNew := declaredLabels.Set(Str(ir[i].name), i);
        if !isNew {
          assert FirstDuplicate(ir, i, ir[i].name);
          NotUnique(ir, i, ir[i].name);
          return Err(DuplicateLabel(ir[i].name));
        }
      }
      i := i + 1;
    }
    assert ir[..|ir|] == ir;
    i := 0;
    while i < |ir|
      invariant i <= |ir| && declaredLabels.Valid()
      invariant forall k :: k in declaredLabels.M <==> k.Str? && Declared(ir, k.s)
      invariant forall j, l :: 0 <= j < i && Refers(ir[j], l) ==> Declared(ir, l)
    {
      var operand := LabelOperand(ir[i]);
      if operand.Some? {
        var found := declaredLabels.Get(Str(operand.get));
        if found.None? {
          assert FirstUnknown(ir, i, operand.get);
          return Err(UnknownLabel(operand.get));
        }
      }
      i := i + 1;
    }
    return Ok(());
  }
}
