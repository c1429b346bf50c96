/** Rows of the `material_sections` table and the pure parts of the sections
    handler. The handler itself is `Backend.Database.HandleSections`. */
module Sections {
  import opened Common

  datatype Section = Section(id: int, name: Option<string>, description: string, createdAt: nat)

  /** The JSON body of a POST or DELETE; `None` is an absent key. */
  datatype SectionBody = SectionBody(id: Option<int>, name: Option<string>, description: Option<string>)

  /** POST: one new section; an absent description becomes the empty string. */
  function NewSection(body: SectionBody, id: int, createdAt: nat): (s: Section)
    ensures s.id == id && s.name == body.name && s.createdAt == createdAt
    ensures body.description.None? ==> s.description == ""
    ensures body.description.Some? ==> s.description == body.description.value
  {
    Section(id, body.name, GetOr(body.description, ""), createdAt)
  }

  /** GET: every section with all its columns, newest first. */
  function Listing(rows: seq<Section>): (r: seq<Section>)
    ensures |r| == |rows|
    ensures forall i :: 0 <= i < |rows| ==> r[i] == rows[|rows| - 1 - i]
  {
    Reverse(rows)
  }

  /** `DELETE FROM material_sections WHERE id`: only sections are removed. */
  function Without(rows: seq<Section>, id: Option<int>): (r: seq<Section>)
    ensures forall s :: s in r <==> s in rows && Some(s.id) != id
    ensures IsSubsequence(r, rows)
    ensures id.None? ==> r == rows
  {
    FilterIsSubsequence(rows, (s: Section) => Some(s.id) != id);
    if id.None? then FilterAll(rows, (s: Section) => Some(s.id) != id); FilterBy(rows, (s: Section) => Some(s.id) != id)
    else FilterBy(rows, (s: Section) => Some(s.id) != id)
  }
}
