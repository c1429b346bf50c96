/** The materials tab of the administrator's screen: the catalogue table with
    its section column and dash placeholders, the create form and the edit
    dialog. Creating and saving go through callbacks of the parent, which
    appear here as the values the methods hand over. */
module MaterialsTab {
  import opened Common

  /** A material as the tab receives it; `sectionId` may be unset. */
  datatype TabMaterial = TabMaterial(
    id: int,
    name: string,
    size: string,
    color: string,
    quantity: int,
    materialType: string,
    imageUrl: string,
    sectionId: Option<int>)

  datatype TabSection = TabSection(id: int, name: string, description: string)

  // ---------------------------------------------------------------------------
  // Table cells

  /** `value || '—'`: an empty text shows as a dash. */
  function Dash(s: string): (r: string)
    ensures s == "" ==> r == "—"
    ensures s != "" ==> r == s
  {
    if s == "" then "—" else s
  }

  /** The section column: the name of the first section whose id is the
      material's section id; a dash when the id is unset, when no section
      has it, or when that section's name is empty. */
  function SectionLabel(sections: seq<TabSection>, sectionId: Option<int>): (r: string)
    ensures sectionId.None? ==> r == "—"
    ensures (forall s :: s in sections ==> Some(s.id) != sectionId) ==> r == "—"
    ensures r != "—" ==>
      exists k :: 0 <= k < |sections| && Some(sections[k].id) == sectionId && sections[k].name == r
        && forall j :: 0 <= j < k ==> Some(sections[j].id) != sectionId
    ensures forall k :: 0 <= k < |sections| && Some(sections[k].id) == sectionId &&
                        (forall j :: 0 <= j < k ==> Some(sections[j].id) != sectionId) ==>
                          r == Dash(sections[k].name)
  {
    var matches := (s: TabSection) => Some(s.id) == sectionId;
    var found := FindFirst(sections, matches);
    assert forall k :: 0 <= k < |sections| && matches(sections[k]) &&
                       (forall j :: 0 <= j < k ==> !matches(sections[j])) ==>
                         found == Some(sections[k]) by {
      forall k | 0 <= k < |sections| && matches(sections[k]) && (forall j :: 0 <= j < k ==> !matches(sections[j]))
        ensures found == Some(sections[k])
      {
        assert sections[k] in sections;
        var i :| 0 <= i < |sections| && sections[i] == found.value
          && forall j :: 0 <= j < i ==> !matches(sections[j]);
        assert i == k;
      }
    }
    if found.None? then "—" else Dash(found.value.name)
  }

  /** With unique section ids the label is the name of the one section with
      that id, or a dash when that name is empty. */
  lemma SectionLabelOfUniqueIds(sections: seq<TabSection>, k: int)
    requires 0 <= k < |sections|
    requires forall i, j :: 0 <= i < j < |sections| ==> sections[i].id != sections[j].id
    ensures SectionLabel(sections, Some(sections[k].id)) == Dash(sections[k].name)
  {
  }

  // ---------------------------------------------------------------------------
  // Form edits

  /** One `onChange` of a form input: the spread copies every other field. */
  datatype FieldEdit =
    | SetName(name: string)
    | SetMaterialType(materialType: string)
    | SetSize(size: string)
    | SetColor(color: string)
    | SetQuantity(quantity: int)
    | SetSection(sectionId: int)
    | SetImageUrl(imageUrl: string)

  function Edited(m: TabMaterial, e: FieldEdit): (r: TabMaterial)
    ensures r.id == m.id
    ensures e.SetName? ==> r == m.(name := e.name)
    ensures e.SetMaterialType? ==> r == m.(materialType := e.materialType)
    ensures e.SetSize? ==> r == m.(size := e.size)
    ensures e.SetColor? ==> r == m.(color := e.color)
    ensures e.SetQuantity? ==> r == m.(quantity := e.quantity)
    ensures e.SetSection? ==> r == m.(sectionId := Some(e.sectionId))
    ensures e.SetImageUrl? ==> r == m.(imageUrl := e.imageUrl)
  {
    match e
    case SetName(v) => m.(name := v)
    case SetMaterialType(v) => m.(materialType := v)
    case SetSize(v) => m.(size := v)
    case SetColor(v) => m.(color := v)
    case SetQuantity(v) => m.(quantity := v)
    case SetSection(v) => m.(sectionId := Some(v))
    case SetImageUrl(v) => m.(imageUrl := v)
  }

  /** The create form: a material without an id yet. Its id field is unused
      and stays 0. */
  const EmptyNewMaterial := TabMaterial(0, "", "", "", 0, "", "", None)

  /** How the parent's awaited callback settles: a rejection throws out of
      the handler before it closes or resets anything. */
  datatype Settled = Resolved | Rejected

  // ---------------------------------------------------------------------------
  // The component state

  class TabState {
    /** The list the parent passes in; this component never writes it. */
    const materials: seq<TabMaterial>
    var newMaterial: TabMaterial
    var materialDialogOpen: bool
    var editingMaterial: Option<TabMaterial>
    var editDialogOpen: bool

    constructor(materials: seq<TabMaterial>)
      ensures this.materials == materials
      ensures newMaterial == EmptyNewMaterial && editingMaterial.None?
      ensures !materialDialogOpen && !editDialogOpen
    {
      this.materials := materials;
      newMaterial, editingMaterial := EmptyNewMaterial, None;
      materialDialogOpen, editDialogOpen := false, false;
    }

    /** An input of the create form. */
    method EditNew(e: FieldEdit)
      modifies this
      ensures newMaterial == Edited(old(newMaterial), e)
      ensures editingMaterial == old(editingMaterial) && editDialogOpen == old(editDialogOpen)
      ensures materialDialogOpen == old(materialDialogOpen)
    {
      newMaterial := Edited(newMaterial, e);
    }

    /** `handleCreateMaterial`: hands the form to the parent as it is, with
        no check of its own, and once that has resolved closes the dialog
        and resets the form. */
    method HandleCreateMaterial(outcome: Settled) returns (created: TabMaterial)
      modifies this
      ensures created == old(newMaterial)
      ensures outcome == Resolved ==> newMaterial == EmptyNewMaterial && !materialDialogOpen
      ensures outcome == Rejected ==>
        newMaterial == old(newMaterial) && materialDialogOpen == old(materialDialogOpen)
      ensures editingMaterial == old(editingMaterial) && editDialogOpen == old(editDialogOpen)
    {
      created := newMaterial;
      if outcome == Resolved {
        materialDialogOpen := false;
        newMaterial := EmptyNewMaterial;
      }
    }

    /** `openEditDialog`: the dialog edits a copy of the row. */
    method OpenEditDialog(m: TabMaterial)
      modifies this
      ensures editingMaterial == Some(m) && editDialogOpen
      ensures newMaterial == old(newMaterial) && materialDialogOpen == old(materialDialogOpen)
    {
      editingMaterial := Some(m);
      editDialogOpen := true;
    }

    /** An input of the edit dialog, which is shown only while a copy is
        being edited. The parent's list is a `const` and stays as it was. */
    method EditCopy(e: FieldEdit)
      requires editingMaterial.Some?
      modifies this
      ensures editingMaterial == Some(Edited(old(editingMaterial).value, e))
      ensures editDialogOpen == old(editDialogOpen)
      ensures newMaterial == old(newMaterial) && materialDialogOpen == old(materialDialogOpen)
    {
      editingMaterial := Some(Edited(editingMaterial.value, e));
    }

    /** `handleUpdateMaterial`: with a copy under edit, hands it to the
        parent and, once that has resolved, clears the edit state; without a
        copy it does nothing. */
    method HandleUpdateMaterial(outcome: Settled) returns (saved: Option<TabMaterial>)
      modifies this
      ensures saved == old(editingMaterial)
      ensures saved.Some? && outcome == Resolved ==> editingMaterial.None? && !editDialogOpen
      ensures saved.None? || outcome == Rejected ==>
        editingMaterial == old(editingMaterial) && editDialogOpen == old(editDialogOpen)
      ensures newMaterial == old(newMaterial) && materialDialogOpen == old(materialDialogOpen)
    {
      saved := editingMaterial;
      if editingMaterial.Some? && outcome == Resolved {
        editDialogOpen := false;
        editingMaterial := None;
      }
    }
  }
}
