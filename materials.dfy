/** Rows of the `materials` table and of its audit log `material_inventory`,
    and the pure parts of the materials handler: the GET listing, the stock
    delta, the full overwrite and the delete. The handler itself is
    `Backend.Database.HandleMaterials`. */
module Materials {
  import opened Common

  /** A row of `materials`. A NULL `quantity` stays NULL under a delta. */
  datatype Material = Material(
    id: int,
    name: Option<string>,
    size: string,
    color: string,
    quantity: Option<int>,
    materialType: string,
    imageUrl: string,
    sectionId: Option<int>,
    createdAt: nat)

  /** A row of `material_inventory`: one logged stock delta. */
  datatype InventoryEntry = InventoryEntry(
    id: int,
    materialId: Option<int>,
    quantityChange: int,
    updatedBy: Option<int>)

  /** The JSON body of a POST or PUT; `None` is an absent key. */
  datatype MaterialBody = MaterialBody(
    id: Option<int>,
    name: Option<string>,
    size: Option<string>,
    color: Option<string>,
    quantity: Option<int>,
    materialType: Option<string>,
    imageUrl: Option<string>,
    sectionId: Option<int>,
    quantityChange: Option<int>,
    updatedBy: Option<int>)

  /** A material as GET reports it. */
  datatype MaterialView = MaterialView(
    id: int,
    name: Option<string>,
    size: string,
    color: string,
    quantity: int,
    materialType: string,
    imageUrl: string,
    sectionId: Option<int>,
    createdAt: nat)

  /** `float(q) if q else 0`: a NULL stored quantity is reported as 0. */
  function ReportedQuantity(q: Option<int>): (r: int)
    ensures q.None? ==> r == 0
    ensures q.Some? ==> r == q.value
  {
    if q.Some? && q.value != 0 then q.value else 0
  }

  function ViewOf(m: Material): MaterialView
  {
    MaterialView(m.id, m.name, m.size, m.color, ReportedQuantity(m.quantity),
                 m.materialType, m.imageUrl, m.sectionId, m.createdAt)
  }

  /** GET: every material, newest first, its quantity reported as a number. */
  function Listing(rows: seq<Material>): (r: seq<MaterialView>)
    ensures |r| == |rows|
    ensures forall i :: 0 <= i < |rows| ==> r[i] == ViewOf(rows[|rows| - 1 - i])
  {
    var newest := Reverse(rows);
    seq(|rows|, i requires 0 <= i < |rows| => ViewOf(newest[i]))
  }

  /** Every listed quantity is a number: 0 where the column is NULL or 0,
      the stored value otherwise; all other columns are passed through. */
  lemma ListingReportsQuantity(rows: seq<Material>, i: int)
    requires 0 <= i < |rows|
    ensures var v := Listing(rows)[i]; var m := rows[|rows| - 1 - i];
      && v.id == m.id && v.name == m.name && v.sectionId == m.sectionId
      && (m.quantity == None || m.quantity == Some(0) ==> v.quantity == 0)
      && (m.quantity.Some? ==> v.quantity == m.quantity.value)
  {
  }

  /** POST: a new row with the handler's defaults for absent keys. */
  function NewMaterial(body: MaterialBody, id: int, createdAt: nat): (m: Material)
    ensures m.id == id && m.name == body.name && m.sectionId == body.sectionId
    ensures m.size == GetOr(body.size, "") && m.color == GetOr(body.color, "")
    ensures m.materialType == GetOr(body.materialType, "") && m.imageUrl == GetOr(body.imageUrl, "")
    ensures m.quantity == Some(GetOr(body.quantity, 0))
    ensures m.createdAt == createdAt
  {
    Material(id, body.name, GetOr(body.size, ""), GetOr(body.color, ""), Some(GetOr(body.quantity, 0)),
             GetOr(body.materialType, ""), GetOr(body.imageUrl, ""), body.sectionId, createdAt)
  }

  /** `quantity + delta`: NULL stays NULL, anything else moves by exactly `delta`. */
  function Shifted(q: Option<int>, delta: int): (r: Option<int>)
    ensures q.None? ==> r.None?
    ensures q.Some? ==> r == Some(q.value + delta)
  {
    if q.Some? then Some(q.value + delta) else None
  }

  /** `UPDATE materials SET quantity = quantity + delta WHERE id`. */
  function AddStock(rows: seq<Material>, id: Option<int>, delta: int): (r: seq<Material>)
    ensures |r| == |rows|
    ensures forall i :: 0 <= i < |rows| && Some(rows[i].id) == id ==>
      r[i] == rows[i].(quantity := Shifted(rows[i].quantity, delta))
    ensures forall i :: 0 <= i < |rows| && Some(rows[i].id) != id ==> r[i] == rows[i]
  {
    UpdateWhere(rows, (m: Material) => Some(m.id) == id,
                (m: Material) => m.(quantity := Shifted(m.quantity, delta)))
  }

  /** The stock is not guarded: a delta may take a quantity below zero. */
  lemma AddStockMayGoNegative(rows: seq<Material>, id: Option<int>, delta: int, i: int)
    requires 0 <= i < |rows| && Some(rows[i].id) == id
    requires rows[i].quantity.Some? && rows[i].quantity.value + delta < 0
    ensures AddStock(rows, id, delta)[i].quantity == Some(rows[i].quantity.value + delta)
    ensures AddStock(rows, id, delta)[i].quantity.value < 0
  {
  }

  /** Two deltas on one material add up. */
  lemma AddStockCompose(rows: seq<Material>, id: Option<int>, a: int, b: int)
    ensures AddStock(AddStock(rows, id, a), id, b) == AddStock(rows, id, a + b)
  {
    var lhs := AddStock(AddStock(rows, id, a), id, b);
    var rhs := AddStock(rows, id, a + b);
    forall i | 0 <= i < |rows| ensures lhs[i] == rhs[i] {
      if Some(rows[i].id) == id && rows[i].quantity.Some? {
        assert lhs[i].quantity == Some(rows[i].quantity.value + a + b);
      }
    }
  }

  /** Deducting what was added restores the table. */
  lemma AddStockUndo(rows: seq<Material>, id: Option<int>, delta: int)
    ensures AddStock(AddStock(rows, id, delta), id, -delta) == rows
  {
    AddStockCompose(rows, id, delta, -delta);
    var r := AddStock(rows, id, 0);
    forall i | 0 <= i < |rows| ensures r[i] == rows[i] {
    }
  }

  /** The sum of the logged deltas for one material id. */
  function LoggedTotal(log: seq<InventoryEntry>, id: int): int
  {
    if log == [] then 0
    else LoggedTotal(log[..|log| - 1], id)
         + (if log[|log| - 1].materialId == Some(id) then log[|log| - 1].quantityChange else 0)
  }

  /** The stock after applying, in order, the delta of every log entry. */
  function Replay(rows: seq<Material>, log: seq<InventoryEntry>): (r: seq<Material>)
    ensures |r| == |rows|
  {
    if log == [] then rows
    else var e := log[|log| - 1]; AddStock(Replay(rows, log[..|log| - 1]), e.materialId, e.quantityChange)
  }

  /** The ledger explains the stock: after a run of delta PUTs, each
      non-NULL quantity has moved by exactly the sum its log rows record,
      and nothing else about any row has changed. */
  lemma {:induction false} ReplayMatchesLog(rows: seq<Material>, log: seq<InventoryEntry>, i: int)
    requires 0 <= i < |rows|
    ensures Replay(rows, log)[i] ==
      rows[i].(quantity := Shifted(rows[i].quantity, LoggedTotal(log, rows[i].id)))
  {
    if log != [] {
      ReplayMatchesLog(rows, log[..|log| - 1], i);
    }
  }

  /** The full-overwrite PUT: all seven editable columns from the body, with
      the POST defaults for absent keys (an absent quantity resets it to 0). */
  function Overwritten(m: Material, body: MaterialBody): (r: Material)
    ensures r == NewMaterial(body, m.id, m.createdAt)
  {
    m.(name := body.name, size := GetOr(body.size, ""), color := GetOr(body.color, ""),
       quantity := Some(GetOr(body.quantity, 0)), materialType := GetOr(body.materialType, ""),
       imageUrl := GetOr(body.imageUrl, ""), sectionId := body.sectionId)
  }

  function Overwrite(rows: seq<Material>, id: Option<int>, body: MaterialBody): (r: seq<Material>)
    ensures |r| == |rows|
    ensures forall i :: 0 <= i < |rows| && Some(rows[i].id) == id ==> r[i] == Overwritten(rows[i], body)
    ensures forall i :: 0 <= i < |rows| && Some(rows[i].id) != id ==> r[i] == rows[i]
  {
    UpdateWhere(rows, (m: Material) => Some(m.id) == id, (m: Material) => Overwritten(m, body))
  }

  /** `DELETE FROM materials WHERE id`: exactly the rows with that id go. */
  function RemoveId(rows: seq<Material>, id: int): (r: seq<Material>)
    ensures forall m :: m in r <==> m in rows && m.id != id
    ensures IsSubsequence(r, rows)
  {
    FilterIsSubsequence(rows, (m: Material) => m.id != id);
    FilterBy(rows, (m: Material) => m.id != id)
  }
}
