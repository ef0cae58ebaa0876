/**
 * The `App` component's state and handlers. Each handler runs as one atomic
 * transition from the current state snapshot; the React setters become
 * assignments to the five fields.
 */
module App {
  import opened Wrappers
  import opened Records
  import opened Validation

  /** JavaScript truthiness of `editId: number | null`: present and not zero. */
  predicate Truthy(editId: Option<int>)
    ensures Truthy(editId) ==> editId.Some?
    ensures editId == Some(0) ==> !Truthy(editId)
  {
    editId.Some? && editId.value != 0
  }

  /** Under the store's invariant `if (editId)` is the same test as "editing". */
  lemma TruthyIsPresence(editId: Option<int>)
    requires editId.Some? ==> editId.value >= 1
    ensures Truthy(editId) <==> editId.Some?
  {
  }

  /** Every stored record once passed the gate: records only enter through a successful submit. */
  predicate AllAcceptable(data: seq<Record>) {
    forall x :: x in data ==> Acceptable(x.name, x.phone)
  }

  /** Delete, update and append with an accepted candidate keep every stored record acceptable. */
  lemma AcceptedStayAccepted(data: seq<Record>, id: int, name: string, phone: Option<int>)
    requires AllAcceptable(data)
    requires Acceptable(name, phone)
    ensures AllAcceptable(WithoutId(data, id))
    ensures AllAcceptable(UpdatedWhere(data, id, name, phone))
    ensures AllAcceptable(Appended(data, name, phone))
  {
  }

  class UserForm {
    /** The records, in display order. */
    var data: seq<Record>
    /** The candidate name being typed. */
    var userName: string
    /** The candidate phone being typed; `None` when the field is empty. */
    var userPhone: Option<int>
    /** The id of the record being edited; `None` while composing a new one. */
    var editId: Option<int>
    /** The message of the last failed submit; `None` after a successful one. */
    var formError: Option<string>

    /**
     * Every id in the store and the id being edited are at least 1: the
     * store only assigns `length + 1` and edit only copies ids from the store.
     * Every stored record passed the gate when it was submitted.
     */
    ghost predicate Valid()
      reads this
    {
      IdsPositive(data) && (editId.Some? ==> editId.value >= 1) && AllAcceptable(data)
    }

    /** The initial state: no records, empty candidates, composing, no error. */
    constructor ()
      ensures Valid()
      ensures data == [] && userName == "" && userPhone == None
      ensures editId == None && formError == None
    {
      data := [];
      userName := "";
      userPhone := None;
      editId := None;
      formError := None;
    }

    /** Typing in the name field. */
    method OnNameInput(value: string)
      requires Valid()
      modifies this
      ensures Valid()
      ensures userName == value
      ensures data == old(data) && userPhone == old(userPhone)
      ensures editId == old(editId) && formError == old(formError)
    {
      userName := value;
    }

    /** Typing in the phone field; an empty field is `None`. */
    method OnPhoneInput(value: Option<int>)
      requires Valid()
      modifies this
      ensures Valid()
      ensures userPhone == value
      ensures data == old(data) && userName == old(userName)
      ensures editId == old(editId) && formError == old(formError)
    {
      userPhone := value;
    }

    /**
     * `onDeleteHandle`: drops every record with that id, keeps the others in
     * order, and touches nothing else (an edit id may be left dangling).
     */
    method OnDelete(id: int)
      requires Valid()
      modifies this
      ensures Valid()
      ensures data == WithoutId(old(data), id)
      ensures forall x :: x in data <==> x in old(data) && x.id != id
      ensures userName == old(userName) && userPhone == old(userPhone)
      ensures editId == old(editId) && formError == old(formError)
    {
      IdsStayPositive(data, id, userName, userPhone);
      data := WithoutId(data, id);
    }

    /**
     * `onEditHandle`: copies a displayed record into the candidate fields and
     * starts editing it; the store and the error are unchanged.
     */
    method OnEdit(item: Record)
      requires Valid()
      requires item in data
      modifies this
      ensures Valid()
      ensures editId == Some(item.id)
      ensures userName == item.name && userPhone == item.phone
      ensures data == old(data) && formError == old(formError)
    {
      editId := Some(item.id);
      userName := item.name;
      userPhone := item.phone;
    }

    /**
     * `onSubmitHandle`. A rejected candidate changes only the error, which is
     * then non-empty. An accepted one updates the edited record (keeping its
     * id and place) or appends a record with id `length + 1`, then resets the
     * candidates, leaves editing and clears the error.
     */
    method OnSubmit()
      requires Valid()
      modifies this
      ensures Valid()
      ensures !Acceptable(old(userName), old(userPhone)) ==>
        data == old(data) && userName == old(userName) && userPhone == old(userPhone) &&
        editId == old(editId) && formError.Some? && formError.value != ""
      ensures Acceptable(old(userName), old(userPhone)) ==>
        userName == "" && userPhone == None && editId == None && formError == None
      ensures Acceptable(old(userName), old(userPhone)) && old(editId).Some? ==>
        data == UpdatedWhere(old(data), old(editId).value, old(userName), old(userPhone))
      ensures Acceptable(old(userName), old(userPhone)) && old(editId) == None ==>
        |data| == |old(data)| + 1 && data[..|old(data)|] == old(data) &&
        data[|old(data)|] == Record(|old(data)| + 1, old(userName), old(userPhone))
    {
      var settled := Gate(userName, userPhone);
      match settled
      case Resolved =>
        IdsStayPositive(data, if editId.Some? then editId.value else 0, userName, userPhone);
        AcceptedStayAccepted(data, if editId.Some? then editId.value else 0, userName, userPhone);
        TruthyIsPresence(editId);
        if Truthy(editId) {
          data := UpdatedWhere(data, editId.value, userName, userPhone);
          userName := "";
          userPhone := None;
          editId := None;
        } else {
          data := Appended(data, userName, userPhone);
          userName := "";
          userPhone := None;
        }
        formError := None;
      case Rejected(reason) =>
        formError := Some(CaughtMessage(reason));
    }
  }

  /**
   * Editing a stored record and submitting it unchanged: the record passes the
   * gate again, the store keeps its length and the record, the form is back to
   * composing with no error, and with unique ids the store is unchanged.
   */
  method EditThenResubmit(form: UserForm, k: nat)
    requires form.Valid()
    requires k < |form.data|
    modifies form
    ensures form.Valid()
    ensures |form.data| == |old(form.data)| && form.data[k] == old(form.data)[k]
    ensures IdsUnique(old(form.data)) ==> form.data == old(form.data)
    ensures form.userName == "" && form.userPhone == None
    ensures form.editId == None && form.formError == None
  {
    var item := form.data[k];
    ResubmitOwnFields(form.data, k);
    form.OnEdit(item);
    form.OnSubmit();
  }

  /**
   * Deleting the record being edited leaves the edit id dangling: editing
   * stays on an id no record carries, and a later accepted submit updates
   * nothing and only resets the form.
   */
  method EditThenDelete(form: UserForm, item: Record)
    requires form.Valid()
    requires item in form.data
    modifies form
    ensures form.Valid()
    ensures form.editId == Some(item.id)
    ensures forall x :: x in form.data ==> x.id != item.id
    ensures form.data == WithoutId(old(form.data), item.id)
    ensures form.userName == item.name && form.userPhone == item.phone
    ensures form.formError == old(form.formError)
  {
    form.OnEdit(item);
    form.OnDelete(item.id);
  }

  /**
   * Submitting after the edited record was deleted: the stored record's fields
   * pass the gate again, the update matches nothing, so the store stays the
   * filtered list and the form returns to composing with no error.
   */
  method EditDeleteThenSubmit(form: UserForm, item: Record)
    requires form.Valid()
    requires item in form.data
    modifies form
    ensures form.Valid()
    ensures form.data == WithoutId(old(form.data), item.id)
    ensures form.editId == None && form.userName == "" && form.userPhone == None
    ensures form.formError == None
  {
    EditThenDelete(form, item);
    DeleteEditedDangles(old(form.data), item.id, form.userName, form.userPhone);
    form.OnSubmit();
  }
}
