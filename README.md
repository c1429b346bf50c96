# Order management for a manufacturing shop, in Dafny

This project models the core of a small production-management application.
Managers create production orders. Workers record how many items they have
finished. A stock ledger tracks materials. A monthly schedule records the
hours each employee worked. An administrator manages users, materials and
material sections.

The model has two halves.

- **The server.** Six HTTP handlers run SQL against six tables: `orders`,
  `materials`, `material_inventory` (the stock ledger), `schedule`, `users`
  and `material_sections`. `Backend.Database` holds the tables as sequences
  in insertion order and has one method per handler. The auth handler only
  reads `users`: `Database.HandleAuth` changes nothing and answers with the
  function `Auth.Handle`. Each method dispatches
  on the HTTP verb and returns a status code with a payload. Its contract
  states the new contents of every table. The table modules (`Orders`,
  `Materials`, `Schedule`, `Users`, `Sections`, `Auth`) hold the pure parts:
  - the status an order derives from its completed count;
  - the stock delta and its ledger row;
  - the upsert on (user, date);
  - the month listing with its roster;
  - the exact-match login.
- **The screens.** The React components' validators, filters, counts, label
  lookups, row actions, month navigation and routing are functions. Their
  dialog and session state are classes. Each class method states the request
  it hands over and the state it leaves behind.

Representation choices:

- `created_at` is a counter (`Database.clock`) that advances with each
  insert, so `ORDER BY created_at DESC` is the reverse of insertion order.
- Serial ids come from one counter, `Database.nextId`.
- `Database.Valid` keeps ids and timestamps strictly increasing and below
  those counters. It also keeps at most one schedule row per (user, date).
  Every table-writing handler preserves `Valid`, and `HandleAuth` writes
  nothing.
- An absent JSON key is `None`. A nullable column is `Option`.
- Hours are exact rationals (`real`). The current date and the outcome of a
  `fetch` are parameters.

## Model

| member | source | states |
|---|---|---|
| `Orders.DerivedStatus` | backend/orders/index.py:114-119 | 'completed' iff completed ≥ quantity, 'in_progress' iff 0 < completed < quantity, 'created' otherwise; the prior status plays no part |
| `Orders.DerivedStatusMonotone` | backend/orders/index.py:114-119 | a larger completed count never derives an earlier status |
| `Orders.WithStatus` | backend/orders/index.py:38-42 | `WHERE status = %s` keeps exactly the rows with that status |
| `Orders.Listing` | backend/orders/index.py:34-47 | a non-empty status parameter lists exactly the rows with that status, newest first (the reverse of the filtered table); otherwise all rows, newest first |
| `Orders.ListingNewestFirst` | backend/orders/index.py:40-45 | on a table in insertion order, the listing's `created_at` strictly decreases |
| `Orders.SetProgress` | backend/orders/index.py:121-124 | rows with the id get the count and status; every other row is unchanged |
| `Orders.SetStatus` | backend/orders/index.py:126-131 | rows with the id get the given status string; the count and all other rows are unchanged |
| `Orders.RowWithId` | backend/orders/index.py:111-112 | the row the quantity lookup finds has the id; there is none exactly when no row has it |
| `Orders.NewOrder` | backend/orders/index.py:76-89 | POST stores the supplied keys, with size and color defaulting to ''; status and count come from the column defaults |
| `Orders.Put` | backend/orders/index.py:104-144 | fails exactly when completed_quantity is present and the row or its quantity is missing; otherwise stores the count unbounded with the derived status, or the raw status, or changes nothing; other ids are untouched |
| `Orders.PutProgressUsesOwnQuantity` | backend/orders/index.py:108-124 | with unique ids, the status is derived from the updated row's own quantity |
| `Orders.PutProgressWins` | backend/orders/index.py:108-131 | with both keys present the supplied status is ignored |
| `Orders.PutOverridesShipped` | backend/orders/index.py:108-124 | with unique ids, a count that reaches the row's quantity is stored as given and makes the row 'completed', whatever its prior status, 'shipped' included |
| `Orders.PutStatusUnguarded` | backend/orders/index.py:126-131 | a status-only PUT writes any string and keeps the completed count |
| `Materials.ReportedQuantity` | backend/materials/index.py:45 | a NULL quantity is reported as 0, any other as stored |
| `Materials.Listing` | backend/materials/index.py:34-50 | GET lists every material once, newest first |
| `Materials.ListingReportsQuantity` | backend/materials/index.py:40-50 | each listed row carries its material's id, name and section, with a NULL or zero quantity shown as 0 |
| `Materials.NewMaterial` | backend/materials/index.py:64-91 | POST stores the id, stamp, name and section as given; size, color, type and image default to '', quantity to 0 |
| `Materials.Shifted` | backend/materials/index.py:101-104 | `quantity + delta`: NULL stays NULL, otherwise the value moves by exactly the delta |
| `Materials.AddStock` | backend/materials/index.py:101-104 | the rows with the id move by the delta, unclamped; all other rows are unchanged |
| `Materials.AddStockMayGoNegative` | backend/materials/index.py:101-104 | a delta larger than the stock is stored unclamped, leaving a negative quantity |
| `Materials.AddStockCompose` | backend/materials/index.py:101-104 | two deltas on one material add up |
| `Materials.AddStockUndo` | backend/materials/index.py:101-104 | deducting what was added restores the table |
| `Materials.ReplayMatchesLog` | backend/materials/index.py:97-109 | replaying the ledger moves each quantity by the sum of its logged deltas and changes nothing else |
| `Materials.Overwritten` | backend/materials/index.py:110-122 | the full update writes all seven editable columns with the POST defaults, so an absent quantity becomes 0 |
| `Materials.Overwrite` | backend/materials/index.py:110-122 | only the rows with the id are overwritten |
| `Materials.RemoveId` | backend/materials/index.py:149 | exactly the rows with that id are removed; the rest keep their order |
| `Users.InfoOf` | backend/users/index.py:40-46 | a listed user has id, login, role, full name and created_at, and no password |
| `Users.NewUser` | backend/users/index.py:60-72 | POST stores the four supplied fields |
| `Users.Listing` | backend/users/index.py:34-46 | GET lists every user, newest first, without passwords |
| `Users.Without` | backend/users/index.py:86-91 | DELETE removes exactly the rows with the body id; an absent id removes nothing |
| `Sections.NewSection` | backend/sections/index.py:59-69 | POST stores the name, with the description defaulting to '' |
| `Sections.Listing` | backend/sections/index.py:34-45 | GET lists every section, newest first |
| `Sections.Without` | backend/sections/index.py:83-88 | DELETE removes exactly the sections with that id; an absent id removes nothing |
| `Auth.IdentityOf` | backend/auth/index.py:46-53 | the returned user has id, login, role and full name, and no password |
| `Auth.SignIn` | backend/auth/index.py:34-77 | 200 with a matching user iff some row has exactly the login and password (absent keys read as ''), else 401 |
| `Auth.Lookup` | backend/auth/index.py:79-119 | 200 with the user iff the user_id is given and some row has it, else 404 |
| `Auth.Handle` | backend/auth/index.py:12-128 | preflight 200, POST signs in, GET looks up, any other verb 405; the table is only read |
| `Schedule.Conflict` | backend/schedule/index.py:95-102 | finds a row with the same (user_id, work_date), or shows there is none; a NULL key part never conflicts |
| `Schedule.Upserted` | backend/schedule/index.py:95-102 | a conflicting row gets the new hours, otherwise one row is appended; nothing else changes |
| `Schedule.UpsertedId` | backend/schedule/index.py:101-104 | the returned id is the updated row's or the new one |
| `Schedule.UpsertKeepsKeysUnique` | backend/schedule/index.py:95-102 | the upsert keeps at most one row per (user_id, work_date) |
| `Schedule.UpsertStoresHours` | backend/schedule/index.py:89-104 | afterwards exactly one row has the key, holding the given hours and the returned id |
| `Schedule.UpsertKeepsIdsSerial` | backend/schedule/index.py:95-104 | an update keeps every id and an insert takes the next one |
| `Schedule.UpsertTwice` | backend/schedule/index.py:95-102 | two upserts on one key equal one upsert with the later hours |
| `Schedule.SetHours` | backend/schedule/index.py:119-128 | PUT changes only the hours of the row with the id; user and date stay |
| `Schedule.SetHoursKeepsKeysUnique` | backend/schedule/index.py:119-128 | the hours update keeps the keys unique |
| `Schedule.RequestedMonth` | backend/schedule/index.py:36-43 | if year or month is missing, both come from the current date |
| `Schedule.JoinOne` | backend/schedule/index.py:45-52 | a dated row joins with every user whose id is its user_id, one record per such user; an undated row joins with none |
| `Schedule.JoinOneOnUniqueUserIds` | backend/schedule/index.py:45-52 | with unique user ids, a dated row whose user exists yields exactly one record |
| `Schedule.Join` | backend/schedule/index.py:45-52 | the inner join holds exactly the pairs of a dated row and its user |
| `Schedule.JoinOncePerRow` | backend/schedule/index.py:45-52 | with unique schedule and user ids, one record per joinable row, in table order, so none repeats |
| `Schedule.RecordLeTotalPreorder` | backend/schedule/index.py:53 | ordering by date, then full name, is a total preorder |
| `Schedule.NameLeTotalPreorder` | backend/schedule/index.py:67-75 | ordering by full name, NULLs last, is a total preorder |
| `Schedule.MonthRecordsSpec` | backend/schedule/index.py:45-64 | GET lists exactly the month's rows whose user exists, sorted by date, then full name, and is a permutation of the join |
| `Schedule.MonthRecordsOncePerRow` | backend/schedule/index.py:45-64 | with unique ids, each in-month row whose user exists is listed exactly once |
| `Schedule.RosterEntries` | backend/schedule/index.py:67-75 | one entry per worker or manager, in table order, carrying that user's id, name and login |
| `Schedule.RosterSpec` | backend/schedule/index.py:67-75 | the roster is exactly the workers and managers, sorted by full name, a permutation of their entries with one per eligible user |
| `Schedule.RosterOncePerUser` | backend/schedule/index.py:67-75 | with unique user ids, no roster entry appears twice |
| `Backend.Database.HandleOrders` | backend/orders/index.py:12-153 | preflight, listing, POST appending one row with 201 and the new id, PUT applying `Orders.Put` (200) or failing with 500 and nothing changed, 405 otherwise (DELETE included); only `orders` changes; `Valid` kept |
| `Backend.Database.HandleMaterials` | backend/materials/index.py:12-171 | a delta PUT moves the stock and appends exactly one ledger row; the overwrite PUT runs only without a delta; DELETE without an id is 400 with nothing changed; 405 otherwise; `Valid` kept |
| `Backend.Database.InsertMaterial` | backend/materials/index.py:64-91 | POST appends exactly the new material stamped with the counters, advances both, and keeps `Valid` |
| `Backend.Database.ApplyStockDelta` | backend/materials/index.py:97-110 | the delta moves the matching rows and exactly one ledger row with the next id records it; `Valid` kept |
| `Backend.Database.HandleSchedule` | backend/schedule/index.py:13-150 | GET returns the month and the roster; POST upserts with hours defaulting to 0 and returns the row's id; PUT sets hours (default 0); 405 otherwise; `Valid` kept |
| `Backend.Database.HandleUsers` | backend/users/index.py:12-112 | GET without passwords, POST appends one row with 201, DELETE by body id with 200 even when nothing matched, OPTIONS touches nothing, 405 otherwise |
| `Backend.Database.HandleSections` | backend/sections/index.py:12-109 | GET, POST with the default description, DELETE of the section only (materials keep their section_id), 405 otherwise |
| `Backend.Database.HandleAuth` | backend/auth/index.py:12-128 | the auth handler writes no table and no counter; preflight, POST signs in, GET looks up, 405 otherwise |
| `StatusLabels.StatusColor` | src/components/manager/utils.ts:6-14 | each known status has its colour class; exactly the unknown strings get 'bg-gray-500' |
| `StatusLabels.StatusText` | src/components/manager/utils.ts:16-24 | each known status has its Russian label; any other string is shown as is |
| `StatusLabels.ColorsDistinct` | src/components/manager/utils.ts:7-12 | the four known statuses get pairwise distinct colours |
| `StatusLabels.TextsDistinct` | src/components/manager/utils.ts:17-22 | the four known statuses get pairwise distinct labels, none of them a status name |
| `StatusLabels.TextCollides` | src/components/manager/utils.ts:23 | each known status's label differs from the status, and an unknown status spelled like that label shows the same |
| `OrderViews.TabFilter` | src/components/WorkerPanel.tsx:160-163 | 'all' keeps every order; any other tab keeps exactly the orders with that status, in order |
| `OrderViews.SectionFilter` | src/components/manager/OrdersSection.tsx:70-77 | each of the four status tabs keeps exactly its orders, as an order-preserving subsequence |
| `OrderViews.SectionFilterKeepsAll` | src/components/manager/OrdersSection.tsx:71-76 | 'all' and any unrecognised tab keep every order |
| `OrderViews.SectionFilterMatchesTabFilter` | src/components/manager/OrdersSection.tsx:70-77 | on the five named tabs the section filters like the generic filter |
| `OrderViews.FiltersDisagreeOffTabs` | src/components/manager/OrdersSection.tsx:76 | on a tab that is neither 'all' nor a status, the section shows every order while the generic filter drops each order of another status |
| `OrderViews.SectionFilterIdempotent` | src/components/manager/OrdersSection.tsx:70-77 | filtering twice by a tab is filtering once |
| `OrderViews.StatusCounts` | src/components/worker/OrdersTab.tsx:64-69 | `all` is the number of orders; created, in progress and completed are the lengths of those status tabs |
| `OrderViews.CountsFit` | src/components/worker/OrdersTab.tsx:64-69 | the per-status counts, shipped included, add up to at most the number of orders |
| `OrderViews.CardsFit` | src/components/worker/OrdersTab.tsx:64-69 | the three cards plus the uncounted shipped orders never exceed `all` |
| `OrderViews.Count` | src/components/worker/OrdersTab.tsx:64-69 | at most the number of orders, and 0 exactly when no order has the status |
| `OrderViews.CountIsTabLength` | src/components/worker/OrdersTab.tsx:50-69 | a status count is the length of that status tab |
| `OrderViews.WorkerPanelAction` | src/components/WorkerPanel.tsx:278-329 | ship iff 'completed', progress entry iff neither 'completed' nor 'shipped', nothing iff 'shipped' |
| `OrderViews.OrdersTabActions` | src/components/worker/OrdersTab.tsx:158-228 | progress iff not shipped and short of the quantity; ship iff not progress and 'completed'; delete always |
| `OrderViews.ActionsAgreeOnDerivedStatus` | src/components/WorkerPanel.tsx:278-329 | when the status is the derived one, both screens offer ship and progress alike |
| `OrderViews.ActionsDisagreeOnHandSetStatus` | src/components/worker/OrdersTab.tsx:158-221 | a hand-set 'completed' short of the quantity is shipped in one screen and offered progress in the other |
| `OrderViews.OrdersSectionActions` | src/components/manager/OrdersSection.tsx:237-251 | print and delete are offered for every order |
| `OrderViews.StockDelta` | src/components/WorkerPanel.tsx:364-377 | nothing for a cancelled or empty prompt; +amount to add, −amount to deduct |
| `OrderViews.DeductUndoesAdd` | src/components/ManagerPanel.tsx:441-454 | deducting the amount just added restores the stock |
| `WorkerPanel.ProgressRequest` | src/components/WorkerPanel.tsx:83-99 | a request iff an order is selected, the amount is positive and completed + amount ≤ quantity; it carries the cumulative total |
| `WorkerPanel.ProgressRequestStatus` | src/components/WorkerPanel.tsx:88-99 | the server then derives 'completed' iff the total reaches the quantity, else 'in_progress' |
| `WorkerPanel.AsOrderBody` | src/components/WorkerPanel.tsx:99 | the body has the id and completed_quantity and no status |
| `WorkerPanel.ProgressRequestApplies` | src/components/WorkerPanel.tsx:95-100 | the request stores the new total and its derived status in the order's row |
| `WorkerPanel.ProgressDialog.constructor` | src/components/WorkerPanel.tsx:50-52 | nothing selected, amount 0, dialog closed |
| `WorkerPanel.ProgressDialog.Select` | src/components/WorkerPanel.tsx:295 | the row's order becomes the selection |
| `WorkerPanel.ProgressDialog.OnOpenChange` | src/components/WorkerPanel.tsx:287-290 | closing clears the selection and keeps the amount |
| `WorkerPanel.ProgressDialog.UpdateOrderProgress` | src/components/WorkerPanel.tsx:82-110 | sends exactly `ProgressRequest`; resets once the fetch resolved, and leaves the state on a rejected check or a network error |
| `OrdersTab.ProgressDialog.constructor` | src/components/worker/OrdersTab.tsx:46-48 | nothing selected, amount 0, dialog closed |
| `OrdersTab.ProgressDialog.Select` | src/components/worker/OrdersTab.tsx:169-172 | selects the order and opens the dialog |
| `OrdersTab.ProgressDialog.OnOpenChange` | src/components/worker/OrdersTab.tsx:159-164 | closing clears both the selection and the amount |
| `OrdersTab.ProgressDialog.HandleUpdateProgress` | src/components/worker/OrdersTab.tsx:55-62 | with a selection, forwards it with the raw increment and resets; without one, does nothing |
| `ManagerPanel.CreateOrderRequest` | src/components/ManagerPanel.tsx:88-99 | a request iff order number and material are non-empty and quantity > 0; it carries the form and created_by |
| `ManagerPanel.CreateOrderStoresForm` | src/components/ManagerPanel.tsx:96-100 | the inserted order holds the form's fields and the manager's id |
| `ManagerPanel.CreateOrderDialog.constructor` | src/components/ManagerPanel.tsx:51-61 | empty form, dialog closed, not loading |
| `ManagerPanel.CreateOrderDialog.CreateOrder` | src/components/ManagerPanel.tsx:88-114 | the form resets and the dialog closes only on an ok response; loading ends after any send |
| `ScheduleTab.UserRecords` | src/components/worker/ScheduleTab.tsx:149 | exactly the records with the user's id |
| `ScheduleTab.TotalHoursIsHoursOf` | src/components/worker/ScheduleTab.tsx:149-150 | the shown total is the sum of hours over the records with the user's id |
| `ScheduleTab.HoursOfAppend` | src/components/worker/ScheduleTab.tsx:150 | totals add up over any split of the records |
| `ScheduleTab.OthersDoNotCount` | src/components/worker/ScheduleTab.tsx:149-150 | other users' records never change a user's total |
| `ScheduleTab.NoRecordsNoHours` | src/components/worker/ScheduleTab.tsx:149-165 | a user without records shows 0 and no day cells |
| `ScheduleTab.DayCellsSpec` | src/components/worker/ScheduleTab.tsx:167 | the day cells are the user's records, each once, in ascending date order |
| `ScheduleTab.Render` | src/components/worker/ScheduleTab.tsx:142-167 | placeholder iff the roster is empty; otherwise one block per roster user, in order |
| `ScheduleTab.MonthAt` | src/components/worker/ScheduleTab.tsx:68-82 | `new Date(year, month)` normalises the month into 0..11 and keeps the month count, after reading a year of 0..99 as 1900 plus that year |
| `ScheduleTab.PrevMonth` | src/components/worker/ScheduleTab.tsx:68 | month − 1, January rolling to December of the year before; a year of 0..99 is read in the 1900s |
| `ScheduleTab.NextMonth` | src/components/worker/ScheduleTab.tsx:82 | month + 1, December rolling to January of the next year; a year of 0..99 is read in the 1900s |
| `ScheduleTab.PrevNextInverse` | src/components/worker/ScheduleTab.tsx:68-82 | the two buttons undo each other for every year outside −1..100 |
| `ScheduleTab.TwoDigitYearBreaksInverse` | src/components/worker/ScheduleTab.tsx:68-82 | next from December 99 gives January 2000 and back gives December 1999; back from January 0 gives December 1899 |
| `ScheduleTab.HoursDialog.constructor` | src/components/worker/ScheduleTab.tsx:40-43 | user 0, empty date, 0 hours, closed |
| `ScheduleTab.HoursDialog.HandleSave` | src/components/worker/ScheduleTab.tsx:45-51 | forwards (user, date, hours) unchecked and resets to 0, '' and 0 |
| `AdminPanel.CreateUserRequest` | src/components/AdminPanel.tsx:86-97 | a request iff login, password and full name are non-empty; the role is not checked |
| `AdminPanel.CreateUserStoresForm` | src/components/AdminPanel.tsx:94-97 | the inserted user holds the four form fields |
| `AdminPanel.CreateMaterialRequest` | src/components/AdminPanel.tsx:129-140 | only an empty name is refused; the quantity goes out as typed |
| `AdminPanel.CreateMaterialStoresForm` | src/components/AdminPanel.tsx:137-140 | the inserted material holds the form as typed and has no section |
| `AdminPanel.RoleName` | src/components/AdminPanel.tsx:156-163 | the three roles get their labels; anything else is shown as is |
| `AdminPanel.RoleNamesDistinct` | src/components/AdminPanel.tsx:157-161 | the three labels differ and none is a role name |
| `AdminPanel.RoleNameCollides` | src/components/AdminPanel.tsx:162 | each role's label differs from the role, and a stored role spelled like that label shows the same |
| `AdminPanel.DeleteDisabled` | src/components/AdminPanel.tsx:290 | disabled exactly on the signed-in user's own row |
| `AdminPanel.DeleteKeepsSelf` | src/components/AdminPanel.tsx:290 | a delete sent from an enabled button never removes the signed-in user |
| `AdminPanel.Dialogs.constructor` | src/components/AdminPanel.tsx:41-59 | empty forms with role 'worker', dialogs closed, not loading |
| `AdminPanel.Dialogs.CreateUser` | src/components/AdminPanel.tsx:86-111 | sends exactly `CreateUserRequest`; the form resets to role 'worker' and the dialog closes only on an ok response; loading ends after any send |
| `AdminPanel.Dialogs.CreateMaterial` | src/components/AdminPanel.tsx:129-154 | sends exactly `CreateMaterialRequest`; resets only on an ok response; loading ends after any send |
| `MaterialsTab.Dash` | src/components/admin/MaterialsTab.tsx:195-197 | an empty text shows as '—' |
| `MaterialsTab.SectionLabel` | src/components/admin/MaterialsTab.tsx:200 | exactly `Dash` of the first matching section's name; '—' for an unset id or no match |
| `MaterialsTab.SectionLabelOfUniqueIds` | src/components/admin/MaterialsTab.tsx:200 | with unique ids, the label is that section's name or '—' |
| `MaterialsTab.Edited` | src/components/admin/MaterialsTab.tsx:238-293 | one input changes its own field and keeps the id and all other fields |
| `MaterialsTab.TabState.constructor` | src/components/admin/MaterialsTab.tsx:46-58 | empty create form, no copy under edit, dialogs closed |
| `MaterialsTab.TabState.EditNew` | src/components/admin/MaterialsTab.tsx:106-166 | an input of the create form changes only that form |
| `MaterialsTab.TabState.HandleCreateMaterial` | src/components/admin/MaterialsTab.tsx:60-64 | hands over the form unchecked; closes and resets to empty strings, 0 and no section only once the callback resolves, and leaves both as they were when it rejects |
| `MaterialsTab.TabState.OpenEditDialog` | src/components/admin/MaterialsTab.tsx:74-77 | the dialog edits a copy of the row |
| `MaterialsTab.TabState.EditCopy` | src/components/admin/MaterialsTab.tsx:238-293 | an edit changes only the copy; the parent's list is never written |
| `MaterialsTab.TabState.HandleUpdateMaterial` | src/components/admin/MaterialsTab.tsx:66-72 | hands over the edited copy, if any; clears the copy and closes only once the callback resolves, and leaves both as they were when it rejects or there is no copy |
| `IndexPage.Route` | src/pages/Index.tsx:34-46 | login page iff no user; 'admin' and 'manager' get their panels; any other role the worker panel |
| `IndexPage.Session.constructor` | src/pages/Index.tsx:15 | the page starts signed out |
| `IndexPage.Session.Mount` | src/pages/Index.tsx:17-22 | a saved user is restored; otherwise the page stays signed out |
| `IndexPage.Session.Login` | src/pages/Index.tsx:24-27 | the user becomes current and is saved under 'user' |
| `IndexPage.Session.Logout` | src/pages/Index.tsx:29-32 | the user is cleared and the 'user' key removed |
| `IndexPage.ReloadAfterLogin` | src/pages/Index.tsx:17-27 | a reload after login restores the same user and screen |
| `IndexPage.ReloadAfterLogout` | src/pages/Index.tsx:17-32 | a reload after logout shows the login page |

## Left out

- CORS headers, JSON encoding, connections and cursors are not modelled. Responses carry a status code and a payload datatype.
- Only the two 500 failures the order PUT can reach are modelled: a missing row and a NULL quantity. Other database exceptions are not modelled, for example a NOT NULL or foreign-key violation, a type error, or a lost connection.
- Schema constraints other than the schedule's unique (user_id, work_date) are not modelled. The schema is not part of this model.
- JSON `null` in a request body is not modelled. A key is either absent or carries a value of its type.
- Query parameters that are not numbers are not modelled. Neither are `Number()` of non-numeric text (NaN) in the prompts and inputs.
- `Orders.NewOrder`: the default status and completed count are constructor parameters of `Backend.Database`, because the schema is not part of this model.
- `Auth.SignIn`: when several rows match, `fetchone` may return any of them. The model returns the first in table order and states only that a matching user is returned.
- Text order for `ORDER BY full_name` is code-point order with NULLs last. Database collations are not modelled. Rows with equal keys have no fixed order in SQL; the model keeps them stable.
- Per-table serial sequences are modelled as one shared counter. A schedule POST that updates an existing row still uses up an id, as a PostgreSQL sequence does for `ON CONFLICT`.
- `updated_at` and `CURRENT_TIMESTAMP` are not modelled.
- Floating point is modelled as exact rationals (`real`). Not modelled: `float(...)` on the server, `toFixed(1)`, and the progress percentage bars.
- The front end's loading of lists, polling, toasts, the notification sound, printing (`printOrder`, `printInventory`), the `confirm` before a delete, and the "today" button of the schedule tab are not modelled. They are I/O or do not change modelled state.
- JavaScript `Record` lookups of inherited keys (such as `"toString"`) are not modelled. The labels assume plain strings.
- The calling code's `onSaveSchedule`, `onUpdateProgress`, `onCreateMaterial` and `onUpdateMaterial` are not part of this model. The methods return the values they hand over. How an awaited callback settles is a parameter of the material handlers.
- `ScheduleTab.MonthAt`, `PrevMonth`, `NextMonth` and `PrevNextInverse`: years past the range of `Date` (about ±275760), where `new Date` gives an invalid date, are not modelled; months are unbounded integers.
- The login page component is not part of this model. `IndexPage.Session.Login` takes the user it hands over.
- `IndexPage.Session`: storage holds user values, and a stored user reads back as written. JSON parsing of a corrupt stored value is not modelled.
