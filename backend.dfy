/** The six tables the HTTP handlers share, as one in-memory database, and
    one method per handler. Each handler dispatches on the HTTP verb, answers
    a preflight with 200 and an unknown verb with 405, and changes only the
    tables its SQL names. Serial ids come from `nextId`; `clock` stands for
    `created_at` and advances with every insert. */
module Backend {
  import opened Common
  import Orders
  import Materials
  import Schedule
  import Users
  import Sections
  import Auth

  function MaterialId(m: Materials.Material): int { m.id }
  function MaterialCreated(m: Materials.Material): int { m.createdAt }
  function InventoryId(e: Materials.InventoryEntry): int { e.id }
  function UserId(u: Users.User): int { u.id }
  function UserCreated(u: Users.User): int { u.createdAt }
  function SectionId(s: Sections.Section): int { s.id }
  function SectionCreated(s: Sections.Section): int { s.createdAt }

  class Database {
    var orders: seq<Orders.Order>
    var materials: seq<Materials.Material>
    var inventory: seq<Materials.InventoryEntry>
    var schedule: seq<Schedule.Entry>
    var users: seq<Users.User>
    var sections: seq<Sections.Section>
    var nextId: nat
    var clock: nat

    /** The column defaults of `orders.status` and
        `orders.completed_quantity`, which the handler never supplies. */
    const defaultStatus: string
    const defaultCompleted: int

    /** Ids are serial and rows are kept in insertion order; the schedule
        holds one row per (user_id, work_date). */
    predicate Valid()
      reads this
    {
      && StampedBelow(orders, Orders.IdOf, nextId) && StampedBelow(orders, Orders.CreatedAt, clock)
      && StampedBelow(materials, MaterialId, nextId) && StampedBelow(materials, MaterialCreated, clock)
      && StampedBelow(inventory, InventoryId, nextId)
      && StampedBelow(schedule, Schedule.IdOf, nextId) && Schedule.UniqueKeys(schedule)
      && StampedBelow(users, UserId, nextId) && StampedBelow(users, UserCreated, clock)
      && StampedBelow(sections, SectionId, nextId) && StampedBelow(sections, SectionCreated, clock)
    }

    constructor(defaultStatus: string, defaultCompleted: int)
      ensures Valid()
      ensures orders == [] && materials == [] && inventory == [] && schedule == []
      ensures users == [] && sections == []
      ensures this.defaultStatus == defaultStatus && this.defaultCompleted == defaultCompleted
    {
      orders, materials, inventory, schedule, users, sections := [], [], [], [], [], [];
      nextId, clock := 0, 0;
      this.defaultStatus, this.defaultCompleted := defaultStatus, defaultCompleted;
    }

    // -------------------------------------------------------------------------
    // backend/orders

    /** GET lists, POST inserts, PUT updates progress or status; DELETE is
        not handled. Only the `orders` table ever changes. */
    method HandleOrders(m: Method, statusParam: Option<string>, body: Orders.OrderBody)
      returns (resp: Response<seq<Orders.Order>>)
      requires Valid()
      modifies this
      ensures Valid()
      ensures materials == old(materials) && inventory == old(inventory) && schedule == old(schedule)
      ensures users == old(users) && sections == old(sections)
      ensures m != Post && m != Put ==> orders == old(orders)
      ensures m != Post ==> nextId == old(nextId) && clock == old(clock)
      ensures m == Options ==> resp == Preflight()
      ensures m == Get ==> resp == Response(200, Data(Orders.Listing(orders, statusParam)))
      ensures m == Post ==>
        && resp == Response(201, SuccessId(old(nextId)))
        && orders == old(orders) + [Orders.NewOrder(body, old(nextId), old(clock), defaultStatus, defaultCompleted)]
        && nextId == old(nextId) + 1 && clock == old(clock) + 1
      ensures m == Put ==>
        match Orders.Put(old(orders), body)
        case Applied(rows) => resp == Response(200, Success) && orders == rows
        case Failed(f) => resp == Response(500, Error(f)) && orders == old(orders)
      ensures m !in {Options, Get, Post, Put} ==> resp == NotSupported()
    {
      match m
      case Options =>
        resp := Preflight();
      case Get =>
        resp := Response(200, Data(Orders.Listing(orders, statusParam)));
      case Post =>
        var o := Orders.NewOrder(body, nextId, clock, defaultStatus, defaultCompleted);
        StampedAppend(orders, o, Orders.IdOf, nextId);
        StampedAppend(orders, o, Orders.CreatedAt, clock);
        StampedKept(materials, materials, MaterialId, nextId, nextId + 1);
        StampedKept(inventory, inventory, InventoryId, nextId, nextId + 1);
        StampedKept(schedule, schedule, Schedule.IdOf, nextId, nextId + 1);
        StampedKept(users, users, UserId, nextId, nextId + 1);
        StampedKept(sections, sections, SectionId, nextId, nextId + 1);
        StampedKept(materials, materials, MaterialCreated, clock, clock + 1);
        StampedKept(users, users, UserCreated, clock, clock + 1);
        StampedKept(sections, sections, SectionCreated, clock, clock + 1);
        orders := orders + [o];
        resp := Response(201, SuccessId(nextId));
        nextId, clock := nextId + 1, clock + 1;
      case Put =>
        var outcome := Orders.Put(orders, body);
        if outcome.Applied? {
          StampedKept(orders, outcome.rows, Orders.IdOf, nextId, nextId);
          StampedKept(orders, outcome.rows, Orders.CreatedAt, clock, clock);
          orders := outcome.rows;
          resp := Response(200, Success);
        } else {
          resp := Response(500, Error(outcome.failure));
        }
      case _ =>
        resp := NotSupported();
    }

    // -------------------------------------------------------------------------
    // backend/materials

    /** GET lists, POST inserts, PUT applies a stock delta and logs it or
        overwrites the row, DELETE removes by the `id` query parameter. */
    method HandleMaterials(m: Method, idParam: Option<int>, body: Materials.MaterialBody)
      returns (resp: Response<seq<Materials.MaterialView>>)
      requires Valid()
      modifies this
      ensures Valid()
      ensures orders == old(orders) && schedule == old(schedule) && users == old(users) && sections == old(sections)
      ensures m in {Options, Get} ==> materials == old(materials) && inventory == old(inventory)
      ensures m == Options ==> resp == Preflight()
      ensures m == Get ==> resp == Response(200, Data(Materials.Listing(materials)))
      ensures m == Post ==>
        && resp == Response(201, SuccessId(old(nextId)))
        && materials == old(materials) + [Materials.NewMaterial(body, old(nextId), old(clock))]
        && inventory == old(inventory)
        && nextId == old(nextId) + 1 && clock == old(clock) + 1
      ensures m == Put && body.quantityChange.Some? ==>
        && resp == Response(200, Success)
        && materials == Materials.AddStock(old(materials), body.id, body.quantityChange.value)
        && inventory == old(inventory)
             + [Materials.InventoryEntry(old(nextId), body.id, body.quantityChange.value, body.updatedBy)]
        && nextId == old(nextId) + 1 && clock == old(clock)
      ensures m == Put && body.quantityChange.None? ==>
        && resp == Response(200, Success)
        && materials == Materials.Overwrite(old(materials), body.id, body)
        && inventory == old(inventory)
      ensures m == Delete && idParam.None? ==>
        resp == Response(400, Error(MaterialIdRequired)) && materials == old(materials) && inventory == old(inventory)
      ensures m == Delete && idParam.Some? ==>
        && resp == Response(200, Success)
        && materials == Materials.RemoveId(old(materials), idParam.value)
        && inventory == old(inventory)
      ensures m !in {Options, Get, Post, Put, Delete} ==>
        resp == NotSupported() && materials == old(materials) && inventory == old(inventory)
      ensures !(m == Post || (m == Put && body.quantityChange.Some?)) ==> nextId == old(nextId)
      ensures m != Post ==> clock == old(clock)
    {
      match m
      case Options =>
        resp := Preflight();
      case Get =>
        resp := Response(200, Data(Materials.Listing(materials)));
      case Post =>
        resp := InsertMaterial(body);
      case Put =>
        if body.quantityChange.Some? {
          ApplyStockDelta(body.id, body.quantityChange.value, body.updatedBy);
        } else {
          var rows := Materials.Overwrite(materials, body.id, body);
          StampedKept(materials, rows, MaterialId, nextId, nextId);
          StampedKept(materials, rows, MaterialCreated, clock, clock);
          materials := rows;
        }
        resp := Response(200, Success);
      case Delete =>
        if idParam.None? {
          resp := Response(400, Error(MaterialIdRequired));
        } else {
          var rows := Materials.RemoveId(materials, idParam.value);
          StampedSubsequence(rows, materials, MaterialId, nextId);
          StampedSubsequence(rows, materials, MaterialCreated, clock);
          materials := rows;
          resp := Response(200, Success);
        }
      case _ =>
        resp := NotSupported();
    }

    /** The POST of the materials handler: one new row, stamped with the
        counters. */
    method InsertMaterial(body: Materials.MaterialBody) returns (resp: Response<seq<Materials.MaterialView>>)
      requires Valid()
      modifies this
      ensures Valid()
      ensures orders == old(orders) && schedule == old(schedule) && users == old(users) && sections == old(sections)
      ensures resp == Response(201, SuccessId(old(nextId)))
      ensures materials == old(materials) + [Materials.NewMaterial(body, old(nextId), old(clock))]
      ensures inventory == old(inventory)
      ensures nextId == old(nextId) + 1 && clock == old(clock) + 1
    {
      var row := Materials.NewMaterial(body, nextId, clock);
      StampedAppend(materials, row, MaterialId, nextId);
      StampedAppend(materials, row, MaterialCreated, clock);
      StampedKept(orders, orders, Orders.IdOf, nextId, nextId + 1);
      StampedKept(inventory, inventory, InventoryId, nextId, nextId + 1);
      StampedKept(schedule, schedule, Schedule.IdOf, nextId, nextId + 1);
      StampedKept(users, users, UserId, nextId, nextId + 1);
      StampedKept(sections, sections, SectionId, nextId, nextId + 1);
      StampedKept(orders, orders, Orders.CreatedAt, clock, clock + 1);
      StampedKept(users, users, UserCreated, clock, clock + 1);
      StampedKept(sections, sections, SectionCreated, clock, clock + 1);
      materials := materials + [row];
      resp := Response(201, SuccessId(nextId));
      nextId, clock := nextId + 1, clock + 1;
    }

    /** The stock-delta PUT of the materials handler: the delta moves the
        matching rows and one ledger row records it. */
    method ApplyStockDelta(id: Option<int>, delta: int, updatedBy: Option<int>)
      requires Valid()
      modifies this
      ensures Valid()
      ensures orders == old(orders) && schedule == old(schedule) && users == old(users) && sections == old(sections)
      ensures materials == Materials.AddStock(old(materials), id, delta)
      ensures inventory == old(inventory) + [Materials.InventoryEntry(old(nextId), id, delta, updatedBy)]
      ensures nextId == old(nextId) + 1 && clock == old(clock)
    {
      var rows := Materials.AddStock(materials, id, delta);
      var logged := Materials.InventoryEntry(nextId, id, delta, updatedBy);
      StampedKept(materials, rows, MaterialId, nextId, nextId + 1);
      StampedKept(materials, rows, MaterialCreated, clock, clock);
      StampedAppend(inventory, logged, InventoryId, nextId);
      StampedKept(orders, orders, Orders.IdOf, nextId, nextId + 1);
      StampedKept(schedule, schedule, Schedule.IdOf, nextId, nextId + 1);
      StampedKept(users, users, UserId, nextId, nextId + 1);
      StampedKept(sections, sections, SectionId, nextId, nextId + 1);
      materials := rows;
      inventory := inventory + [logged];
      nextId := nextId + 1;
    }

    // -------------------------------------------------------------------------
    // backend/schedule

    /** GET lists a month and the roster, POST upserts on (user_id,
        work_date), PUT sets the hours of one row. Omitted hours are 0. */
    method HandleSchedule(m: Method, year: Option<int>, month: Option<int>, today: Date, body: Schedule.ScheduleBody)
      returns (resp: Response<Schedule.MonthView>)
      requires Valid()
      modifies this
      ensures Valid()
      ensures orders == old(orders) && materials == old(materials) && inventory == old(inventory)
      ensures users == old(users) && sections == old(sections) && clock == old(clock)
      ensures m != Post ==> nextId == old(nextId)
      ensures m != Post && m != Put ==> schedule == old(schedule)
      ensures m == Options ==> resp == Preflight()
      ensures m == Get ==> resp == Response(200, Data(Schedule.Month(schedule, users, year, month, today)))
      ensures m == Post ==>
        var hours := GetOr(body.hours, 0.0);
        && resp == Response(201, SuccessId(Schedule.UpsertedId(old(schedule), body.userId, body.workDate, old(nextId))))
        && schedule == Schedule.Upserted(old(schedule), body.userId, body.workDate, hours, old(nextId))
        && nextId == old(nextId) + 1
      ensures m == Put ==>
        resp == Response(200, Success) && schedule == Schedule.SetHours(old(schedule), body.id, GetOr(body.hours, 0.0))
      ensures m !in {Options, Get, Post, Put} ==> resp == NotSupported()
    {
      match m
      case Options =>
        resp := Preflight();
      case Get =>
        resp := Response(200, Data(Schedule.Month(schedule, users, year, month, today)));
      case Post =>
        var hours := GetOr(body.hours, 0.0);
        var rows := Schedule.Upserted(schedule, body.userId, body.workDate, hours, nextId);
        Schedule.UpsertKeepsKeysUnique(schedule, body.userId, body.workDate, hours, nextId);
        Schedule.UpsertKeepsIdsSerial(schedule, body.userId, body.workDate, hours, nextId);
        StampedKept(orders, orders, Orders.IdOf, nextId, nextId + 1);
        StampedKept(materials, materials, MaterialId, nextId, nextId + 1);
        StampedKept(inventory, inventory, InventoryId, nextId, nextId + 1);
        StampedKept(users, users, UserId, nextId, nextId + 1);
        StampedKept(sections, sections, SectionId, nextId, nextId + 1);
        resp := Response(201, SuccessId(Schedule.UpsertedId(schedule, body.userId, body.workDate, nextId)));
        schedule := rows;
        nextId := nextId + 1;
      case Put =>
        var rows := Schedule.SetHours(schedule, body.id, GetOr(body.hours, 0.0));
        Schedule.SetHoursKeepsKeysUnique(schedule, body.id, GetOr(body.hours, 0.0));
        StampedKept(schedule, rows, Schedule.IdOf, nextId, nextId);
        schedule := rows;
        resp := Response(200, Success);
      case _ =>
        resp := NotSupported();
    }

    // -------------------------------------------------------------------------
    // backend/users

    /** GET lists without passwords, POST inserts, DELETE removes by the body
        id; no other table changes, not even the schedule rows of a deleted
        user. */
    method HandleUsers(m: Method, body: Users.UserBody) returns (resp: Response<seq<Users.UserInfo>>)
      requires Valid()
      modifies this
      ensures Valid()
      ensures orders == old(orders) && materials == old(materials) && inventory == old(inventory)
      ensures schedule == old(schedule) && sections == old(sections)
      ensures m != Post ==> nextId == old(nextId) && clock == old(clock)
      ensures m != Post && m != Delete ==> users == old(users)
      ensures m == Options ==> resp == Preflight()
      ensures m == Get ==> resp == Response(200, Data(Users.Listing(users)))
      ensures m == Post ==>
        && resp == Response(201, SuccessId(old(nextId)))
        && users == old(users) + [Users.NewUser(body, old(nextId), old(clock))]
        && nextId == old(nextId) + 1 && clock == old(clock) + 1
      ensures m == Delete ==> resp == Response(200, Success) && users == Users.Without(old(users), body.id)
      ensures m !in {Options, Get, Post, Delete} ==> resp == NotSupported()
    {
      match m
      case Options =>
        resp := Preflight();
      case Get =>
        resp := Response(200, Data(Users.Listing(users)));
      case Post =>
        var u := Users.NewUser(body, nextId, clock);
        StampedAppend(users, u, UserId, nextId);
        StampedAppend(users, u, UserCreated, clock);
        StampedKept(orders, orders, Orders.IdOf, nextId, nextId + 1);
        StampedKept(materials, materials, MaterialId, nextId, nextId + 1);
        StampedKept(inventory, inventory, InventoryId, nextId, nextId + 1);
        StampedKept(schedule, schedule, Schedule.IdOf, nextId, nextId + 1);
        StampedKept(sections, sections, SectionId, nextId, nextId + 1);
        StampedKept(orders, orders, Orders.CreatedAt, clock, clock + 1);
        StampedKept(materials, materials, MaterialCreated, clock, clock + 1);
        StampedKept(sections, sections, SectionCreated, clock, clock + 1);
        users := users + [u];
        resp := Response(201, SuccessId(nextId));
        nextId, clock := nextId + 1, clock + 1;
      case Delete =>
        var rows := Users.Without(users, body.id);
        StampedSubsequence(rows, users, UserId, nextId);
        StampedSubsequence(rows, users, UserCreated, clock);
        users := rows;
        resp := Response(200, Success);
      case _ =>
        resp := NotSupported();
    }

    // -------------------------------------------------------------------------
    // backend/auth

    /** The authentication handler only reads `users`: it changes no table
        and no counter, and answers as `Auth.Handle` does. */
    method HandleAuth(m: Method, c: Auth.Credentials, userId: Option<int>) returns (resp: Response<Auth.Payload>)
      requires Valid()
      ensures m == Options ==> resp == Preflight()
      ensures m == Post ==> resp == Auth.SignIn(users, c)
      ensures m == Get ==> resp == Auth.Lookup(users, userId)
      ensures m !in {Options, Post, Get} ==> resp == NotSupported()
    {
      resp := Auth.Handle(users, m, c, userId);
    }

    // -------------------------------------------------------------------------
    // backend/sections

    /** GET lists, POST inserts, DELETE removes by the body id. Materials
        that referred to a deleted section keep their `section_id`. */
    method HandleSections(m: Method, body: Sections.SectionBody) returns (resp: Response<seq<Sections.Section>>)
      requires Valid()
      modifies this
      ensures Valid()
      ensures orders == old(orders) && materials == old(materials) && inventory == old(inventory)
      ensures schedule == old(schedule) && users == old(users)
      ensures m != Post ==> nextId == old(nextId) && clock == old(clock)
      ensures m != Post && m != Delete ==> sections == old(sections)
      ensures m == Options ==> resp == Preflight()
      ensures m == Get ==> resp == Response(200, Data(Sections.Listing(sections)))
      ensures m == Post ==>
        && resp == Response(201, SuccessId(old(nextId)))
        && sections == old(sections) + [Sections.NewSection(body, old(nextId), old(clock))]
        && nextId == old(nextId) + 1 && clock == old(clock) + 1
      ensures m == Delete ==> resp == Response(200, Success) && sections == Sections.Without(old(sections), body.id)
      ensures m !in {Options, Get, Post, Delete} ==> resp == NotSupported()
    {
      match m
      case Options =>
        resp := Preflight();
      case Get =>
        resp := Response(200, Data(Sections.Listing(sections)));
      case Post =>
        var s := Sections.NewSection(body, nextId, clock);
        StampedAppend(sections, s, SectionId, nextId);
        StampedAppend(sections, s, SectionCreated, clock);
        StampedKept(orders, orders, Orders.IdOf, nextId, nextId + 1);
        StampedKept(materials, materials, MaterialId, nextId, nextId + 1);
        StampedKept(inventory, inventory, InventoryId, nextId, nextId + 1);
        StampedKept(schedule, schedule, Schedule.IdOf, nextId, nextId + 1);
        StampedKept(users, users, UserId, nextId, nextId + 1);
        StampedKept(orders, orders, Orders.CreatedAt, clock, clock + 1);
        StampedKept(materials, materials, MaterialCreated, clock, clock + 1);
        StampedKept(users, users, UserCreated, clock, clock + 1);
        sections := sections + [s];
        resp := Response(201, SuccessId(nextId));
        nextId, clock := nextId + 1, clock + 1;
      case Delete =>
        var rows := Sections.Without(sections, body.id);
        StampedSubsequence(rows, sections, SectionId, nextId);
        StampedSubsequence(rows, sections, SectionCreated, clock);
        sections := rows;
        resp := Response(200, Success);
      case _ =>
        resp := NotSupported();
    }
  }
}
