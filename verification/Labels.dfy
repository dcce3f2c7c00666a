/** The label tables of the generator: the offset of each label and the places that refer to it. */
module Labels {
  import opened Words
  import opened Ir
  import opened Emission
  import opened Table

  /** The reference list of one label; the table holds it by reference and it grows in place. */
  class LabelReferences {
    var items: seq<Ref>

    constructor ()
      ensures items == []
    {
      items := [];
    }
  }

  class LabelTables {
    const codeLabelOffsets: Table<u16>
    const labelReferences: Table<LabelReferences>
    /** The objects that adding labels and references may change. */
    ghost var Repr: set<object>

    ghost predicate Valid()
      reads this, Repr
      ensures Valid() ==> this in Repr
    {
      && this in Repr && codeLabelOffsets in Repr && labelReferences in Repr
      && codeLabelOffsets.values in Repr && labelReferences.values in Repr
      && codeLabelOffsets as object != labelReferences && codeLabelOffsets.values as object != labelReferences.values
      && codeLabelOffsets.Valid() && labelReferences.Valid()
      && (forall k :: k in labelReferences.M ==> labelReferences.M[k] in Repr)
      && (forall k, l :: k in labelReferences.M && l in labelReferences.M && k != l
            ==> labelReferences.M[k] != labelReferences.M[l])
    }

    ghost function Offsets(): map<Key, u16>
      requires Valid()
      reads this, Repr
    {
      codeLabelOffsets.M
    }

    ghost function References(): map<Key, seq<Ref>>
      requires Valid()
      reads this, Repr
    {
      map k | k in labelReferences.M :: labelReferences.M[k].items
    }

    constructor ()
      ensures Valid() && fresh(Repr)
      ensures Offsets() == map[] && References() == map[]
    {
      hide Table.Valid;
      codeLabelOffsets := new Table<u16>();
      labelReferences := new Table<LabelReferences>();
      new;
      Repr := {this, codeLabelOffsets, codeLabelOffsets.values, labelReferences, labelReferences.values};
    }

    method SetCodeLabelOffset(name: string, offset: nat)
      requires Valid()
      modifies Repr
      ensures Valid() && fresh(Repr - old(Repr))
      ensures Offsets() == old(Offsets())[Str(name) := ToU16(offset)] && References() == old(References())
    {
      hide Table.Valid;
      var isNew := codeLabelOffsets.Set(Str(name), ToU16(offset));
      Repr := Repr + {codeLabelOffsets.values};
    }

    method GetCodeLabelOffset(name: string) returns (r: Result<u16>)
      requires Valid()
      ensures r == if Str(name) in Offsets() then Ok(Offsets()[Str(name)]) else Err(MissingOffset(name))
    {
      hide Table.Valid;
      var v := codeLabelOffsets.Get(Str(name));
      r := match v
           case None => Err(MissingOffset(name))
           case Some(offset) => Ok(offset);
    }

    method GetLabelReferences(name: string) returns (r: Option<LabelReferences>)
      requires Valid()
      ensures r == if Str(name) in labelReferences.M then Some(labelReferences.M[Str(name)]) else None
      ensures r.None? <==> Str(name) !in References()
      ensures r.Some? ==> r.get in Repr && r.get.items == References()[Str(name)]
    {
      hide Table.Valid;
      r := labelReferences.Get(Str(name));
    }

    /** A list for a new label. */
    method CreateLabelReferences(name: string) returns (references: LabelReferences)
      requires Valid() && Str(name) !in References()
      modifies Repr
      ensures Valid() && fresh(Repr - old(Repr))
      ensures Offsets() == old(Offsets()) && References() == old(References())[Str(name) := []]
      ensures Str(name) in labelReferences.M && labelReferences.M[Str(name)] == references
    {
      hide Table.Valid;
      references := new LabelReferences();
      var isNew := labelReferences.Set(Str(name), references);
      Repr := Repr + {labelReferences.values, references};
    }

    /** Appends to a label's list in place. */
    method AppendReference(name: string, references: LabelReferences, r: Ref)
      requires Valid() && Str(name) in labelReferences.M && labelReferences.M[Str(name)] == references
      modifies references
      ensures Valid() && Repr == old(Repr) && Offsets() == old(Offsets())
      ensures References() == old(References())[Str(name) := old(References())[Str(name)] + [r]]
    {
      hide Table.Valid;
      references.items := references.items + [r];
    }

    /** Appends to the label's list, which is created when the label is new. */
    method AddLabelReference(name: string, opcodeOffset: nat, branchOffset: nat)
      requires Valid()
      modifies Repr
      ensures Valid() && fresh(Repr - old(Repr))
      ensures Offsets() == old(Offsets())
      ensures References() == old(References())[Str(name) :=
                (if Str(name) in old(References()) then old(References())[Str(name)] else [])
                    + [Ref(ToU16(opcodeOffset), ToU16(branchOffset))]]
    {
      hide Table.Valid;
      var found := GetLabelReferences(name);
      var references: LabelReferences;
      if found.None? {
        references := CreateLabelReferences(name);
      } else {
        references := found.get;
      }
      AppendReference(name, references, Ref(ToU16(opcodeOffset), ToU16(branchOffset)));
    }
  }
}
