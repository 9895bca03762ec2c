/** The administrators' list of educator accounts: approving or rejecting a sign-up, and
    the in-place update of the account status that a successful decision makes. */
module EducatorList {
  import opened JsValue
  import opened ApiEnvelope

  // Account statuses of an educator (the page's own constants).
  const ACCOUNT_ACTIVE: int := 1
  const ACCOUNT_WAITING_APPROVE: int := 2
  const ACCOUNT_REJECT: int := -2

  /** One row: the educator's id, whether it is the super administrator, and the nested
      `account` object (possibly absent) that holds `status`, `fullName`, `email`, ... */
  datatype EducatorRow = EducatorRow(id: int, isSuperAdmin: bool, account: Value)

  /** `record.account?.status` */
  function AccountStatus(row: EducatorRow): Value {
    Get(row.account, "status")
  }

  /** The permission codes the action column asks about. */
  datatype Permissions = Permissions(update: bool, delete: bool, approve: bool, reject: bool)

  datatype Action = Edit | Delete | Approve | Reject

  predicate WaitingApproval(row: EducatorRow) {
    StrictEquals(AccountStatus(row), Num(ACCOUNT_WAITING_APPROVE))
  }

  /** The buttons a row shows: the column guards, combined with the approve and reject
      buttons' own status test. */
  function OfferedActions(row: EducatorRow, perms: Permissions): (acts: set<Action>)
    ensures Approve in acts <==> AccountStatus(row) == Num(ACCOUNT_WAITING_APPROVE) && perms.approve
    ensures Reject in acts <==> AccountStatus(row) == Num(ACCOUNT_WAITING_APPROVE) && perms.reject
    ensures Delete in acts <==> perms.delete && !row.isSuperAdmin
    ensures row.isSuperAdmin ==> Delete !in acts
    ensures Edit in acts <==> perms.update
  {
    (if perms.update then {Edit} else {})
    + (if perms.delete && !row.isSuperAdmin then {Delete} else {})
    + (if WaitingApproval(row) && perms.approve then {Approve} else {})
    + (if WaitingApproval(row) && perms.reject then {Reject} else {})
  }

  /** `data.map(item => item.id === id ? {...item, account: {...item.account, status}} : item)` */
  function WithAccountStatus(rows: seq<EducatorRow>, id: int, status: int): (r: seq<EducatorRow>)
    ensures |r| == |rows|
    ensures forall i :: 0 <= i < |rows| && rows[i].id != id ==> r[i] == rows[i]
    ensures forall i :: 0 <= i < |rows| && rows[i].id == id ==> AccountStatus(r[i]) == Num(status)
    // The rest of the account, and the rest of the row, are kept.
    ensures forall i, k :: 0 <= i < |rows| && k != "status" ==> Get(r[i].account, k) == Get(rows[i].account, k)
    ensures forall i :: 0 <= i < |rows| ==> r[i].(account := rows[i].account) == rows[i]
  {
    seq(|rows|, i requires 0 <= i < |rows| =>
      if rows[i].id == id then rows[i].(account := Assign(rows[i].account, "status", Num(status))) else rows[i])
  }

  /** After a successful decision the affected rows no longer wait for one, so neither
      approve nor reject is offered on them again. */
  lemma DecisionIsFinal(rows: seq<EducatorRow>, id: int, status: int, perms: Permissions, i: int)
    requires status == ACCOUNT_ACTIVE || status == ACCOUNT_REJECT
    requires 0 <= i < |rows| && rows[i].id == id
    ensures OfferedActions(WithAccountStatus(rows, id, status)[i], perms) * {Approve, Reject} == {}
  {
    var acts := OfferedActions(WithAccountStatus(rows, id, status)[i], perms);
    assert Approve !in acts && Reject !in acts;
  }

  /** `null` or `undefined` id. */
  const NO_ID: int := 0

  datatype Request = ApproveRequest(id: int) | RejectRequest(id: int)

  class EducatorListPage {
    const objectName: string   // the translated word for an educator used in messages
    var data: seq<EducatorRow>
    var notices: seq<Notice>

    constructor (objectName: string, data: seq<EducatorRow>)
      ensures this.objectName == objectName && this.data == data && notices == []
    {
      this.objectName := objectName;
      this.data := data;
      notices := [];
    }

    /** `handleApprove(id)`: nothing for a missing id or a declined confirmation; a success
        activates the account of the rows with that id in place. */
    method HandleApprove(id: int, confirmed: bool, outcome: CallOutcome) returns (sent: Option<Request>)
      modifies this
      ensures id == NO_ID || !confirmed ==> sent == None && unchanged(this)
      ensures id != NO_ID && confirmed ==>
        && sent == Some(ApproveRequest(id))
        && data == (if Succeeded(outcome) then WithAccountStatus(old(data), id, ACCOUNT_ACTIVE) else old(data))
        && notices == old(notices) + [Settle(outcome,
             "Phê duyệt " + objectName + " thành công",
             "Phê duyệt " + objectName + " thất bại",
             "Có lỗi xảy ra khi phê duyệt")]
    {
      if id == NO_ID || !confirmed {
        return None;
      }
      sent := Some(ApproveRequest(id));
      notices := notices + [Settle(outcome,
        "Phê duyệt " + objectName + " thành công",
        "Phê duyệt " + objectName + " thất bại",
        "Có lỗi xảy ra khi phê duyệt")];
      if Succeeded(outcome) {
        data := WithAccountStatus(data, id, ACCOUNT_ACTIVE);
      }
    }

    /** `handleReject(id)`: the same steps; a success marks the account rejected. */
    method HandleReject(id: int, confirmed: bool, outcome: CallOutcome) returns (sent: Option<Request>)
      modifies this
      ensures id == NO_ID || !confirmed ==> sent == None && unchanged(this)
      ensures id != NO_ID && confirmed ==>
        && sent == Some(RejectRequest(id))
        && data == (if Succeeded(outcome) then WithAccountStatus(old(data), id, ACCOUNT_REJECT) else old(data))
        && notices == old(notices) + [Settle(outcome,
             "Từ chối " + objectName + " thành công",
             "Từ chối " + objectName + " thất bại",
             "Có lỗi xảy ra khi từ chối")]
    {
      if id == NO_ID || !confirmed {
        return None;
      }
      sent := Some(RejectRequest(id));
      notices := notices + [Settle(outcome,
        "Từ chối " + objectName + " thành công",
        "Từ chối " + objectName + " thất bại",
        "Có lỗi xảy ra khi từ chối")];
      if Succeeded(outcome) {
        data := WithAccountStatus(data, id, ACCOUNT_REJECT);
      }
    }
  }
}
