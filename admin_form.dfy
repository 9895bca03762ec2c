/** The form that creates or edits an administrator account: the client-side uniqueness
    checks of user name, e-mail and phone against the loaded list of administrators, the
    per-field errors they leave, and the payload handed on when none fails. */
module AdminForm {
  import opened JsValue
  import opened ApiEnvelope

  /** One administrator of the loaded list (`account.getList`), with the properties the
      checks compare. */
  datatype AdminRow = AdminRow(id: Value, username: Value, email: Value, phone: Value)

  /** The messages of the three checks; their translated text is not modelled. */
  const USERNAME_EXISTED: string := "usernameExisted"
  const EMAIL_EXISTED: string := "emailExisted"
  const PHONE_EXISTED: string := "phoneExisted"

  /** `admins?.find(item => item.username === username)` finds something. */
  predicate UsernameTaken(admins: Option<seq<AdminRow>>, username: Value) {
    admins.Some? && exists a :: a in admins.value && StrictEquals(a.username, username)
  }

  /** `admins?.find(item => item.email === email && item.id !== selfId)` finds something. */
  predicate EmailConflict(admins: Option<seq<AdminRow>>, email: Value, selfId: Value) {
    admins.Some? && exists a :: a in admins.value && StrictEquals(a.email, email) && !StrictEquals(a.id, selfId)
  }

  /** `admins?.find(item => item.phone === phone && item.id !== selfId)` finds something. */
  predicate PhoneConflict(admins: Option<seq<AdminRow>>, phone: Value, selfId: Value) {
    admins.Some? && exists a :: a in admins.value && StrictEquals(a.phone, phone) && !StrictEquals(a.id, selfId)
  }

  /** An administrator being edited may keep its own e-mail and phone: rows that share them
      but carry the edited id are no conflict. */
  lemma OwnContactsNoConflict(admins: seq<AdminRow>, self: AdminRow)
    requires !self.id.Arr? && !self.id.Obj?
    requires forall a :: a in admins && (StrictEquals(a.email, self.email) || StrictEquals(a.phone, self.phone)) ==> a.id == self.id
    ensures !EmailConflict(Some(admins), self.email, self.id)
    ensures !PhoneConflict(Some(admins), self.phone, self.id)
  {
  }

  /** When creating, nothing is excluded: any row with the same e-mail conflicts as long as
      its id is set. */
  lemma CreatingConflictsWithAnyRow(admins: seq<AdminRow>, email: Value)
    ensures EmailConflict(Some(admins), email, Undefined) <==>
      exists a :: a in admins && StrictEquals(a.email, email) && a.id != Undefined
  {
  }

  /** The payload: the form values with the uploaded avatar path and the birthday, formatted
      (`formatted` is what the date library prints) or `null`. */
  function SubmitPayload(values: Value, imageUrl: Value, formatted: string): (payload: Value)
    ensures payload.Obj?
    ensures Get(payload, "avatar") == imageUrl
    ensures Truthy(Get(values, "birthday")) ==> Get(payload, "birthday") == Str(formatted)
    ensures !Truthy(Get(values, "birthday")) ==> Get(payload, "birthday") == Null
    ensures forall k :: k != "avatar" && k != "birthday" ==> Get(payload, k) == Get(values, k)
  {
    var birthday := if Truthy(Get(values, "birthday")) then Str(formatted) else Null;
    Assign(Assign(values, "avatar", imageUrl), "birthday", birthday)
  }

  /** The fields whose errors the checks write. */
  datatype CheckedField = UsernameField | EmailField | PhoneField

  /** The errors written for one check: its message on a conflict, none otherwise. */
  function CheckErrors(conflict: bool, message: string): (errs: seq<string>)
    ensures conflict <==> errs != []
    ensures conflict ==> errs == [message]
  {
    if conflict then [message] else []
  }

  class AdminFormState {
    const isEditing: bool
    var imageUrl: Value
    var errors: map<CheckedField, seq<string>>   // the errors `form.setFields` last wrote per field
    var changed: bool
    var notices: seq<Notice>

    constructor (isEditing: bool)
      ensures this.isEditing == isEditing
      ensures imageUrl == Null && errors == map[] && !changed && notices == []
    {
      this.isEditing := isEditing;
      imageUrl := Null;
      errors := map[];
      changed := false;
      notices := [];
    }

    /** The effect run when the record to edit arrives: the avatar shown is its `avatar`. */
    method LoadDetail(detail: Value)
      modifies this
      ensures imageUrl == Get(detail, "avatar")
      ensures errors == old(errors) && changed == old(changed) && notices == old(notices)
    {
      imageUrl := Get(detail, "avatar");
    }

    /** `uploadFile`: only an upload answered with `result === true` replaces the avatar path
        (`filePath` is the `data.filePath` of that answer) and marks the form changed. */
    method UploadAvatar(outcome: CallOutcome, filePath: Value)
      modifies this
      ensures Succeeded(outcome) ==> imageUrl == filePath && changed
      ensures !Succeeded(outcome) ==> imageUrl == old(imageUrl) && changed == old(changed)
      ensures errors == old(errors) && notices == old(notices)
    {
      if outcome.Completed? && outcome.response.result == Bool(true) {
        imageUrl := filePath;
        changed := true;
      }
    }

    /** `handleSubmit(values)`: all checks run, each sets or clears its own field's error
        (the user name only when creating), and any conflict stops the submission with one
        error message; otherwise the payload is handed on. `selfId` is `dataDetail?.id`. */
    method HandleSubmit(values: Value, admins: Option<seq<AdminRow>>, selfId: Value, formatted: string)
      returns (submitted: Option<Value>)
      modifies this
      ensures EmailField in errors && PhoneField in errors
      ensures !isEditing ==> UsernameField in errors && errors[UsernameField] == CheckErrors(UsernameTaken(admins, Get(values, "username")), USERNAME_EXISTED)
      ensures isEditing ==> (UsernameField in errors <==> UsernameField in old(errors))
      ensures isEditing && UsernameField in old(errors) ==> errors[UsernameField] == old(errors)[UsernameField]
      ensures errors[EmailField] == CheckErrors(EmailConflict(admins, Get(values, "email"), selfId), EMAIL_EXISTED)
      ensures errors[PhoneField] == CheckErrors(PhoneConflict(admins, Get(values, "phone"), selfId), PHONE_EXISTED)
      ensures submitted.None? <==> (!isEditing && UsernameField in errors && errors[UsernameField] != []) || errors[EmailField] != [] || errors[PhoneField] != []
      ensures submitted.None? ==> notices == old(notices) + [ErrorNotice("Thông tin đã tồn tại!")]
      ensures submitted.Some? ==> notices == old(notices) && submitted.value == SubmitPayload(values, imageUrl, formatted)
      ensures imageUrl == old(imageUrl) && changed == old(changed)
    {
      var hasError := false;
      if !isEditing {
        var taken := UsernameTaken(admins, Get(values, "username"));
        errors := errors[UsernameField := CheckErrors(taken, USERNAME_EXISTED)];
        hasError := taken;
      }
      var emailConflict := EmailConflict(admins, Get(values, "email"), selfId);
      errors := errors[EmailField := CheckErrors(emailConflict, EMAIL_EXISTED)];
      hasError := hasError || emailConflict;
      var phoneConflict := PhoneConflict(admins, Get(values, "phone"), selfId);
      errors := errors[PhoneField := CheckErrors(phoneConflict, PHONE_EXISTED)];
      hasError := hasError || phoneConflict;
      if hasError {
        notices := notices + [ErrorNotice("Thông tin đã tồn tại!")];
        return None;
      }
      submitted := Some(SubmitPayload(values, imageUrl, formatted));
    }
  }
}
