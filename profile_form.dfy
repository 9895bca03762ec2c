/** The signed-in user's own profile form: the values it starts from and the payload it
    sends, which differs between administrators and the other users because their
    endpoints name the full-name and password properties differently. */
module ProfileForm {
  import opened JsValue
  import opened MasterData

  /** The effect run when the profile arrives: the profile's own properties, with the avatar
      taken from `avatar` or else `avatarPath` and the birthday as the date picker holds it
      (`birthday` is the parsed date, the date library itself is not modelled). */
  function InitialValues(detail: Value, birthday: Value): (values: Value)
    ensures values.Obj?
    ensures Get(values, "avatar") == Or(Get(detail, "avatar"), Get(detail, "avatarPath"))
    ensures Truthy(Get(detail, "birthday")) ==> Get(values, "birthday") == birthday
    ensures !Truthy(Get(detail, "birthday")) ==> Get(values, "birthday") == Null
    ensures forall k :: k != "avatar" && k != "birthday" ==> Get(values, k) == Get(detail, k)
  {
    var withName := Assign(detail, "fullName", Get(detail, "fullName"));
    var withAvatar := Assign(withName, "avatar", Or(Get(detail, "avatar"), Get(detail, "avatarPath")));
    Assign(withAvatar, "birthday", if Truthy(Get(detail, "birthday")) then birthday else Null)
  }

  /** The properties `handleFinish` sets or removes; every other one passes through. */
  const PayloadKeys: set<string> := {"id", "avatarPath", "birthday", "fullName", "oldPassword", "password", "fullname",
                                     "avatar", "newPassword", "confirmPassword"}

  /** `handleFinish(values)`: the payload built from the form values. `detailId` is
      `dataDetail?.id` and `formatted` is what the date library prints for the chosen
      birthday. */
  method HandleFinish(values: Value, detailId: Value, role: Role, formatted: string) returns (payload: Value)
    ensures payload.Obj?
    ensures Get(payload, "id") == detailId
    ensures Get(payload, "avatarPath") == Get(values, "avatar")
    ensures Truthy(Get(values, "birthday")) ==> Get(payload, "birthday") == Str(formatted)
    ensures !Truthy(Get(values, "birthday")) ==> Get(payload, "birthday") == Null
    ensures role == Admin ==> Get(payload, "fullName") == Get(values, "fullName")
    ensures role == Admin ==> Get(payload, "oldPassword") == Get(values, "oldPassword")
    ensures role == Admin ==> Get(payload, "password") == Get(values, "newPassword")
    ensures role != Admin ==> Get(payload, "fullname") == Get(values, "fullName")
    ensures role != Admin ==> !HasKey(payload.fields, "fullName")
    ensures role == Admin ==> Get(payload, "fullname") == Get(values, "fullname")
    ensures role != Admin ==> Get(payload, "oldPassword") == Get(values, "oldPassword")
    ensures role != Admin ==> Get(payload, "password") == Get(values, "password")
    ensures !HasKey(payload.fields, "avatar") && !HasKey(payload.fields, "newPassword") && !HasKey(payload.fields, "confirmPassword")
    ensures forall k :: k !in PayloadKeys ==> Get(payload, k) == Get(values, k)
  {
    var base := BasePayload(values, detailId, formatted);
    if role == Admin {
      payload := AdminPayload(base, values);
    } else {
      payload := UserPayload(base, values);
    }
    forall k | k !in PayloadKeys ensures Get(payload, k) == Get(values, k) {
      assert k != "avatar" && k != "newPassword" && k != "confirmPassword";
      assert k != "fullName" && k != "fullname" && k != "oldPassword" && k != "password";
      assert Get(payload, k) == Get(base, k);
    }
  }

  /** What the administrator endpoint receives, built on the spread values. */
  method AdminPayload(base: Value, values: Value) returns (payload: Value)
    requires base.Obj?
    ensures payload.Obj?
    ensures Get(payload, "fullName") == Get(values, "fullName")
    ensures Get(payload, "oldPassword") == Get(values, "oldPassword")
    ensures Get(payload, "password") == Get(values, "newPassword")
    ensures !HasKey(payload.fields, "avatar") && !HasKey(payload.fields, "newPassword") && !HasKey(payload.fields, "confirmPassword")
    ensures forall k :: k != "fullName" && k != "oldPassword" && k != "password" && k != "avatar" && k != "newPassword" && k != "confirmPassword" ==>
      Get(payload, k) == Get(base, k)
  {
    var named := AdminFields(base, values);
    payload := DropFormOnly(named);
    assert Get(payload, "fullName") == Get(named, "fullName");
    assert Get(payload, "oldPassword") == Get(named, "oldPassword");
    assert Get(payload, "password") == Get(named, "password");
  }

  /** What the student and educator endpoint receives, built on the spread values. */
  method UserPayload(base: Value, values: Value) returns (payload: Value)
    requires base.Obj?
    ensures payload.Obj?
    ensures Get(payload, "fullname") == Get(values, "fullName")
    ensures !HasKey(payload.fields, "fullName")
    ensures !HasKey(payload.fields, "avatar") && !HasKey(payload.fields, "newPassword") && !HasKey(payload.fields, "confirmPassword")
    ensures forall k :: k != "fullName" && k != "fullname" && k != "avatar" && k != "newPassword" && k != "confirmPassword" ==>
      Get(payload, k) == Get(base, k)
  {
    var named := UserFields(base, values);
    payload := DropFormOnly(named);
    assert Get(payload, "fullname") == Get(named, "fullname");
  }

  /** The object literal spreading the form values and setting `id`, `avatarPath` and
      `birthday`, written one property after the other. */
  method BasePayload(values: Value, detailId: Value, formatted: string) returns (payload: Value)
    ensures payload.Obj?
    ensures Get(payload, "id") == detailId
    ensures Get(payload, "avatarPath") == Get(values, "avatar")
    ensures Truthy(Get(values, "birthday")) ==> Get(payload, "birthday") == Str(formatted)
    ensures !Truthy(Get(values, "birthday")) ==> Get(payload, "birthday") == Null
    ensures forall k :: k != "id" && k != "avatarPath" && k != "birthday" ==> Get(payload, k) == Get(values, k)
  {
    var spread := Assign(values, "id", detailId);
    var withAvatar := SetProperty(spread, "avatarPath", Get(values, "avatar"));
    payload := SetProperty(withAvatar, "birthday", if Truthy(Get(values, "birthday")) then Str(formatted) else Null);
  }

  /** The administrator endpoint: `fullName`, `oldPassword`, and `password` from the new
      password. */
  method AdminFields(base: Value, values: Value) returns (payload: Value)
    requires base.Obj?
    ensures payload.Obj?
    ensures Get(payload, "fullName") == Get(values, "fullName")
    ensures Get(payload, "oldPassword") == Get(values, "oldPassword")
    ensures Get(payload, "password") == Get(values, "newPassword")
    ensures forall k :: k != "fullName" && k != "oldPassword" && k != "password" ==> Get(payload, k) == Get(base, k)
  {
    var withName := SetProperty(base, "fullName", Get(values, "fullName"));
    var withOld := SetProperty(withName, "oldPassword", Get(values, "oldPassword"));
    payload := SetProperty(withOld, "password", Get(values, "newPassword"));
  }

  /** The student and educator endpoint: the full name under `fullname`, and no `fullName`. */
  method UserFields(base: Value, values: Value) returns (payload: Value)
    requires base.Obj?
    ensures payload.Obj?
    ensures Get(payload, "fullname") == Get(values, "fullName")
    ensures !HasKey(payload.fields, "fullName") && Get(payload, "fullName") == Undefined
    ensures forall k :: k != "fullName" && k != "fullname" ==> Get(payload, k) == Get(base, k)
  {
    var renamed := SetProperty(base, "fullname", Get(values, "fullName"));
    payload := DeleteProperty(renamed, "fullName");
  }

  /** Removes the properties that exist only for the form's own fields. */
  method DropFormOnly(named: Value) returns (payload: Value)
    requires named.Obj?
    ensures payload.Obj?
    ensures !HasKey(payload.fields, "avatar") && !HasKey(payload.fields, "newPassword") && !HasKey(payload.fields, "confirmPassword")
    ensures forall k :: k != "avatar" && k != "newPassword" && k != "confirmPassword" ==> Get(payload, k) == Get(named, k)
    ensures forall k :: k != "avatar" && k != "newPassword" && k != "confirmPassword" ==> (HasKey(payload.fields, k) <==> HasKey(named.fields, k))
  {
    payload := DeleteProperty(named, "avatar");
    payload := DeleteProperty(payload, "newPassword");
    payload := DeleteProperty(payload, "confirmPassword");
  }
}
