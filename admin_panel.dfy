/** The administrator's screen: the create-user and create-material dialogs,
    the role labels of the user table and the rule that keeps the signed-in
    administrator from deleting their own account. */
module AdminPanel {
  import opened Common
  import Users
  import Materials

  // ---------------------------------------------------------------------------
  // Creating users

  /** The `newUser` form. */
  datatype UserForm = UserForm(login: string, password: string, role: string, fullName: string)

  /** The form starts, and is reset to, empty fields and the worker role. */
  const EmptyUserForm := UserForm("", "", "worker", "")

  /** `createUser`'s check and body: nothing is sent unless login, password
      and full name are all filled in; the role is sent as chosen, unchecked. */
  function CreateUserRequest(form: UserForm): (r: Option<Users.UserBody>)
    ensures r.Some? <==> form.login != "" && form.password != "" && form.fullName != ""
    ensures r.Some? ==> r.value == Users.UserBody(None, Some(form.login), Some(form.password),
      Some(form.role), Some(form.fullName))
  {
    if form.login == "" || form.password == "" || form.fullName == "" then None
    else Some(Users.UserBody(None, Some(form.login), Some(form.password), Some(form.role), Some(form.fullName)))
  }

  /** The row the users handler inserts for the request carries the form's
      four fields, all present and the three required ones non-empty. */
  lemma CreateUserStoresForm(form: UserForm, id: int, t: nat)
    requires CreateUserRequest(form).Some?
    ensures var u := Users.NewUser(CreateUserRequest(form).value, id, t);
      && u.login == Some(form.login) && u.password == Some(form.password)
      && u.role == Some(form.role) && u.fullName == Some(form.fullName)
      && form.login != "" && form.password != "" && form.fullName != ""
  {
  }

  // ---------------------------------------------------------------------------
  // Creating materials

  /** The `newMaterial` form; it has no section. */
  datatype MaterialForm = MaterialForm(name: string, size: string, color: string, quantity: int,
                                       materialType: string, imageUrl: string)

  const EmptyMaterialForm := MaterialForm("", "", "", 0, "", "")

  /** `createMaterial`'s check and body: only an empty name is refused; the
      quantity goes out as typed, zero or negative included. */
  function CreateMaterialRequest(form: MaterialForm): (r: Option<Materials.MaterialBody>)
    ensures r.Some? <==> form.name != ""
    ensures r.Some? ==> r.value == Materials.MaterialBody(None, Some(form.name), Some(form.size),
      Some(form.color), Some(form.quantity), Some(form.materialType), Some(form.imageUrl), None, None, None)
  {
    if form.name == "" then None
    else Some(Materials.MaterialBody(None, Some(form.name), Some(form.size), Some(form.color),
                                     Some(form.quantity), Some(form.materialType), Some(form.imageUrl),
                                     None, None, None))
  }

  /** The material the handler inserts holds the form as typed and belongs
      to no section. */
  lemma CreateMaterialStoresForm(form: MaterialForm, id: int, t: nat)
    requires CreateMaterialRequest(form).Some?
    ensures var m := Materials.NewMaterial(CreateMaterialRequest(form).value, id, t);
      && m.name == Some(form.name) && m.size == form.size && m.color == form.color
      && m.quantity == Some(form.quantity) && m.materialType == form.materialType
      && m.imageUrl == form.imageUrl && m.sectionId.None?
  {
  }

  // ---------------------------------------------------------------------------
  // The user table

  /** `getRoleName`: the three roles by their Russian names, anything else
      as it is. */
  function RoleName(role: string): (n: string)
    ensures role == "admin" ==> n == "Администратор"
    ensures role == "manager" ==> n == "Руководитель"
    ensures role == "worker" ==> n == "Работник"
    ensures role != "admin" && role != "manager" && role != "worker" ==> n == role
  {
    if role == "admin" then "Администратор"
    else if role == "manager" then "Руководитель"
    else if role == "worker" then "Работник"
    else role
  }

  /** The three roles get three different labels, none of which is itself a
      role name. */
  lemma RoleNamesDistinct()
    ensures RoleName("admin") != RoleName("manager") && RoleName("manager") != RoleName("worker")
    ensures RoleName("admin") != RoleName("worker")
    ensures forall r :: r in {"admin", "manager", "worker"} ==> RoleName(r) !in {"admin", "manager", "worker"}
  {
  }

  /** A stored role that happens to be a label shows the same as the role it
      names: the label alone does not tell them apart. */
  lemma RoleNameCollides(role: string)
    requires role == "admin" || role == "manager" || role == "worker"
    ensures RoleName(role) != role
    ensures RoleName(RoleName(role)) == RoleName(role)
  {
  }

  /** The delete button of a row is disabled exactly on the signed-in user's
      own row. */
  function DeleteDisabled(rowId: int, currentId: int): (d: bool)
    ensures d <==> rowId == currentId
  {
    rowId == currentId
  }

  /** So a delete sent from the table never removes the signed-in user. */
  lemma DeleteKeepsSelf(rows: seq<Users.User>, rowId: int, me: Users.User)
    requires me in rows && !DeleteDisabled(rowId, me.id)
    ensures me in Users.Without(rows, Some(rowId))
  {
  }

  // ---------------------------------------------------------------------------
  // The component state

  class Dialogs {
    var newUser: UserForm
    var userDialogOpen: bool
    var newMaterial: MaterialForm
    var materialDialogOpen: bool
    var loading: bool

    constructor()
      ensures newUser == EmptyUserForm && newMaterial == EmptyMaterialForm
      ensures !userDialogOpen && !materialDialogOpen && !loading
    {
      newUser, newMaterial := EmptyUserForm, EmptyMaterialForm;
      userDialogOpen, materialDialogOpen, loading := false, false, false;
    }

    /** `createUser`: returns the body it posts, if any. The form resets and
        the dialog closes only on an ok response; loading ends either way.
        The material dialog is untouched. */
    method CreateUser(fetch: FetchResult) returns (sent: Option<Users.UserBody>)
      modifies this
      ensures sent == CreateUserRequest(old(newUser))
      ensures sent.Some? && fetch == Answered(true) ==> newUser == EmptyUserForm && !userDialogOpen
      ensures sent.None? || fetch != Answered(true) ==>
        newUser == old(newUser) && userDialogOpen == old(userDialogOpen)
      ensures sent.Some? ==> !loading
      ensures sent.None? ==> loading == old(loading)
      ensures newMaterial == old(newMaterial) && materialDialogOpen == old(materialDialogOpen)
    {
      sent := CreateUserRequest(newUser);
      if sent.Some? {
        loading := true;
        if fetch == Answered(true) {
          userDialogOpen, newUser := false, EmptyUserForm;
        }
        loading := false;
      }
    }

    /** `createMaterial`: the same shape, refusing only an empty name. */
    method CreateMaterial(fetch: FetchResult) returns (sent: Option<Materials.MaterialBody>)
      modifies this
      ensures sent == CreateMaterialRequest(old(newMaterial))
      ensures sent.Some? && fetch == Answered(true) ==> newMaterial == EmptyMaterialForm && !materialDialogOpen
      ensures sent.None? || fetch != Answered(true) ==>
        newMaterial == old(newMaterial) && materialDialogOpen == old(materialDialogOpen)
      ensures sent.Some? ==> !loading
      ensures sent.None? ==> loading == old(loading)
      ensures newUser == old(newUser) && userDialogOpen == old(userDialogOpen)
    {
      sent := CreateMaterialRequest(newMaterial);
      if sent.Some? {
        loading := true;
        if fetch == Answered(true) {
          materialDialogOpen, newMaterial := false, EmptyMaterialForm;
        }
        loading := false;
      }
    }
  }
}
