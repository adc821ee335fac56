/** The user-management component: four pieces of state and the handlers that
    change them. Every HTTP call is replaced by its outcome, passed in as a
    `Response` parameter, so the server stays abstract. */
module Frontend {
  import opened UserList

  datatype Option<T> = None | Some(value: T)

  /** The form's edit buffer. */
  datatype FormData = FormData(name: string, email: string)

  const EmptyForm := FormData("", "")

  /** The outcome of one request: the response body, or a caught error. */
  datatype Response<T> = Ok(data: T) | Failed

  /** What the submit handler sends: POST /users or PUT /users/{id}. */
  datatype Request = Post(body: FormData) | Put(id: int, body: FormData)

  /** The form's two modes. */
  datatype Mode = Creating | Editing(id: int)

  /** JavaScript truthiness of `editingId: number | null`: both null and 0 are
      falsy, so an edit target of 0 behaves as "no edit target". */
  predicate Truthy(editingId: Option<int>)
  {
    editingId.Some? && editingId.value != 0
  }

  class UserManager {
    var users: seq<User>
    var formData: FormData
    var editingId: Option<int>
    var loading: bool

    /** The mode the form shows and submits in. */
    function Mode(): (m: Mode)
      reads this
      ensures m.Editing? <==> Truthy(editingId)
      ensures m.Editing? ==> m.id == editingId.value && m.id != 0
    {
      if Truthy(editingId) then Editing(editingId.value) else Creating
    }

    /** The initial state: no users, an empty form, create mode, idle. */
    constructor ()
      ensures users == [] && formData == EmptyForm && editingId == None && !loading
      ensures Mode() == Creating
    {
      users := [];
      formData := EmptyForm;
      editingId := None;
      loading := false;
    }

    /** GET /users. A response body that is null or undefined (`None`) counts
        as the empty list; a failure leaves the list as it was. */
    method FetchUsers(resp: Response<Option<seq<User>>>)
      modifies this
      ensures resp.Ok? && resp.data.Some? ==> users == resp.data.value
      ensures resp.Ok? && resp.data.None? ==> users == []
      ensures resp.Failed? ==> users == old(users)
      ensures formData == old(formData) && editingId == old(editingId)
      ensures !loading
    {
      loading := true;
      match resp {
        case Ok(data) =>
          users := if data.Some? then data.value else [];
        case Failed =>
      }
      loading := false;
    }

    /** Form submit. An empty name or email returns before anything happens and
        `sent` is `None`. Otherwise the handler sends PUT when the edit target
        is truthy and POST when it is null or 0, and `sent` is that request. */
    method HandleSubmit(resp: Response<User>) returns (sent: Option<Request>)
      modifies this
      // validation
      ensures sent.None? <==> old(formData).name == "" || old(formData).email == ""
      ensures sent.None? ==>
                users == old(users) && formData == old(formData) &&
                editingId == old(editingId) && loading == old(loading)
      // which request goes out
      ensures sent.Some? && Truthy(old(editingId)) ==>
                sent.value == Put(old(editingId).value, old(formData))
      ensures sent.Some? && !Truthy(old(editingId)) ==> sent.value == Post(old(formData))
      ensures sent.Some? ==> !loading
      // success
      ensures sent.Some? && resp.Ok? ==> formData == EmptyForm && Mode() == Creating
      ensures sent.Some? && resp.Ok? && sent.value.Put? ==>
                users == ReplaceById(old(users), sent.value.id, resp.data) && editingId == None
      ensures sent.Some? && resp.Ok? && sent.value.Post? ==>
                users == old(users) + [resp.data] && editingId == old(editingId)
      // failure
      ensures resp.Failed? ==>
                users == old(users) && formData == old(formData) && editingId == old(editingId)
      // the ids stay unique when the server keeps its primary key
      ensures UniqueIds(old(users)) && sent.Some? && resp.Ok? &&
              (if sent.value.Put? then resp.data.id == sent.value.id
               else CountId(old(users), resp.data.id) == 0) ==>
                UniqueIds(users)
    {
      if formData.name == "" || formData.email == "" {
        return None;
      }
      loading := true;
      if Truthy(editingId) {
        var id := editingId.value;
        sent := Some(Put(id, formData));
        if resp.Ok? {
          if UniqueIds(users) && resp.data.id == id {
            ReplaceKeepsUnique(users, id, resp.data);
          }
          users := ReplaceById(users, id, resp.data);
          editingId := None;
          formData := EmptyForm;
        }
      } else {
        sent := Some(Post(formData));
        if resp.Ok? {
          if UniqueIds(users) && CountId(users, resp.data.id) == 0 {
            AppendKeepsUnique(users, resp.data);
          }
          users := users + [resp.data];
          formData := EmptyForm;
        }
      }
      loading := false;
    }

    /** Edit click: load the user into the form and make it the edit target.
        A user whose id is 0 is loaded but leaves the form in create mode. */
    method HandleEdit(user: User)
      modifies this
      ensures formData == FormData(user.name, user.email) && editingId == Some(user.id)
      ensures users == old(users) && loading == old(loading)
      ensures Mode() == if user.id != 0 then Editing(user.id) else Creating
    {
      formData := FormData(user.name, user.email);
      editingId := Some(user.id);
    }

    /** DELETE /users/{id}: on success drop every record with that id. The edit
        target is not touched, even when it is the deleted user. */
    method HandleDelete(id: int, resp: Response<()>)
      modifies this
      ensures resp.Ok? ==> users == RemoveById(old(users), id)
      ensures resp.Failed? ==> users == old(users)
      ensures formData == old(formData) && editingId == old(editingId)
      ensures !loading
      ensures UniqueIds(old(users)) ==> UniqueIds(users)
    {
      loading := true;
      if resp.Ok? {
        if UniqueIds(users) {
          RemoveKeepsUnique(users, id);
        }
        users := RemoveById(users, id);
      }
      loading := false;
    }

    /** Cancel click: back to create mode with an empty form. */
    method CancelEdit()
      modifies this
      ensures editingId == None && formData == EmptyForm && Mode() == Creating
      ensures users == old(users) && loading == old(loading)
    {
      editingId := None;
      formData := EmptyForm;
    }

    /** Typing in the name field. */
    method ChangeName(name: string)
      modifies this
      ensures formData == FormData(name, old(formData).email)
      ensures users == old(users) && editingId == old(editingId) && loading == old(loading)
    {
      formData := formData.(name := name);
    }

    /** Typing in the email field. */
    method ChangeEmail(email: string)
      modifies this
      ensures formData == FormData(old(formData).name, email)
      ensures users == old(users) && editingId == old(editingId) && loading == old(loading)
    {
      formData := formData.(email := email);
    }
  }

  /** A session driven through the handlers' contracts alone: load one user,
      edit it, and save the new values. */
  method UpdateScenario()
  {
    var m := new UserManager();
    var a := User(1, "A", "a@x.com");
    m.FetchUsers(Ok(Some([a])));
    m.HandleEdit(a);
    assert m.Mode() == Editing(1);
    m.ChangeName("B");
    m.ChangeEmail("b@x.com");
    var b := User(1, "B", "b@x.com");
    var sent := m.HandleSubmit(Ok(b));
    assert sent == Some(Put(1, FormData("B", "b@x.com")));
    assert m.users == [b];
    assert m.Mode() == Creating && m.formData == EmptyForm && !m.loading;
  }

  /** Deleting the user being edited leaves the edit target pointing at an id
      that is no longer in the list; a later submit still sends PUT for it. */
  method DeleteWhileEditingScenario()
  {
    var m := new UserManager();
    var a := User(7, "A", "a@x.com");
    m.FetchUsers(Ok(Some([a])));
    m.HandleEdit(a);
    m.HandleDelete(7, Ok(()));
    assert m.users == [];
    assert m.Mode() == Editing(7);
    var sent := m.HandleSubmit(Failed);
    assert sent == Some(Put(7, FormData("A", "a@x.com")));
    assert m.Mode() == Editing(7) && m.formData == FormData("A", "a@x.com");
  }
}
