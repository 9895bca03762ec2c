/** The simulation list page: which moderation actions a row offers to an administrator
    or to an educator, and how each finished action changes the page's in-memory list. */
module SimulationList {
  import opened Text
  import opened JsValue
  import opened ApiEnvelope
  import opened MasterData

  /** The permission codes that the action column asks about. */
  datatype Permissions = Permissions(
    update: bool,            // simulation.update
    educatorTaskList: bool,  // task.educatorList
    taskList: bool,          // task.getList
    educatorDelete: bool,    // simulation.educatorDelete
    requestDelete: bool)     // simulation.requestDelete

  datatype Action =
    | Edit | Tasks
    | Approve | Reject | ApproveDelete | RejectDelete
    | RequestDelete | EducatorDelete

  const AllActions: set<Action> :=
    {Edit, Tasks, Approve, Reject, ApproveDelete, RejectDelete, RequestDelete, EducatorDelete}

  /** One row of the list. */
  datatype SimRow = SimRow(id: int, title: string, level: int, status: int, notice: string)

  /** Whether the button factory of the role's branch draws a button for the action at all.
      Each branch draws only its own role's moderation buttons, and an educator is drawn no
      delete button while a deletion waits for approval. */
  function ButtonDrawn(role: Role, a: Action, status: int): (drawn: bool)
    ensures drawn && a in {Approve, Reject, ApproveDelete, RejectDelete} ==> !IsEducator(role)
    ensures drawn && a in {EducatorDelete, RequestDelete} ==> IsEducator(role) && status != STATUS_WAITING_APPROVE_DELETE
    ensures a in {Edit, Tasks} ==> drawn
  {
    match a
    case Edit => true
    case Tasks => true
    case EducatorDelete => IsEducator(role) && status == STATUS_WAITING_APPROVE
    case RequestDelete =>
      IsEducator(role) && status != STATUS_WAITING_APPROVE && status != STATUS_WAITING_APPROVE_DELETE
    case Approve => !IsEducator(role) && status == STATUS_WAITING_APPROVE
    case Reject => !IsEducator(role) && status == STATUS_WAITING_APPROVE
    case ApproveDelete => !IsEducator(role) && status == STATUS_WAITING_APPROVE_DELETE
    case RejectDelete => !IsEducator(role) && status == STATUS_WAITING_APPROVE_DELETE
  }

  /** The action column's guard for the action; an action the role's guard table does not
      name is not shown, so the educator's table never allows a moderation action and the
      administrator's table never allows an educator's delete. */
  function ColumnAllows(role: Role, a: Action, status: int, perms: Permissions): (allowed: bool)
    ensures allowed && a in {Approve, Reject, ApproveDelete, RejectDelete} ==> !IsEducator(role)
    ensures allowed && a in {EducatorDelete, RequestDelete} ==> IsEducator(role)
    ensures allowed && a == Edit && IsEducator(role) ==> status != STATUS_WAITING_APPROVE_DELETE
  {
    if IsEducator(role) then
      match a
      case Edit => status != STATUS_WAITING_APPROVE_DELETE && perms.update
      case Tasks => perms.educatorTaskList
      case EducatorDelete => status == STATUS_WAITING_APPROVE && perms.educatorDelete
      case RequestDelete =>
        status != STATUS_WAITING_APPROVE && status != STATUS_WAITING_APPROVE_DELETE && perms.requestDelete
      case _ => false
    else
      match a
      case Edit => perms.update
      case Tasks => perms.taskList
      case Approve => status == STATUS_WAITING_APPROVE
      case Reject => status == STATUS_WAITING_APPROVE
      case ApproveDelete => status == STATUS_WAITING_APPROVE_DELETE
      case RejectDelete => status == STATUS_WAITING_APPROVE_DELETE
      case _ => false
  }

  /** The buttons a row shows: those the column guard allows and the factory draws. */
  function OfferedActions(role: Role, status: int, perms: Permissions): (acts: set<Action>)
    // Admin moderation follows the status.
    ensures Approve in acts <==> !IsEducator(role) && status == STATUS_WAITING_APPROVE
    ensures Reject in acts <==> !IsEducator(role) && status == STATUS_WAITING_APPROVE
    ensures ApproveDelete in acts <==> !IsEducator(role) && status == STATUS_WAITING_APPROVE_DELETE
    ensures RejectDelete in acts <==> !IsEducator(role) && status == STATUS_WAITING_APPROVE_DELETE
    // An educator is offered at most one way to delete, and none while a deletion waits.
    ensures !(EducatorDelete in acts && RequestDelete in acts)
    ensures status == STATUS_WAITING_APPROVE_DELETE ==> EducatorDelete !in acts && RequestDelete !in acts
    ensures EducatorDelete in acts <==> IsEducator(role) && status == STATUS_WAITING_APPROVE && perms.educatorDelete
    ensures RequestDelete in acts <==>
      IsEducator(role) && status != STATUS_WAITING_APPROVE && status != STATUS_WAITING_APPROVE_DELETE && perms.requestDelete
    // An educator with the update permission loses edit exactly while a deletion waits.
    ensures IsEducator(role) && perms.update ==> (Edit in acts <==> status != STATUS_WAITING_APPROVE_DELETE)
    ensures !IsEducator(role) ==> (Edit in acts <==> perms.update)
  {
    set a | a in AllActions && ButtonDrawn(role, a, status) && ColumnAllows(role, a, status, perms)
  }

  /** `data.map(item => item.id === id ? {...item, status} : item)`. */
  function WithStatus(rows: seq<SimRow>, id: int, status: int): (r: seq<SimRow>)
    ensures |r| == |rows|
    ensures forall i :: 0 <= i < |rows| && rows[i].id == id ==> r[i].status == status
    ensures forall i :: 0 <= i < |rows| && rows[i].id != id ==> r[i] == rows[i]
    ensures forall i :: 0 <= i < |rows| ==> r[i].(status := rows[i].status) == rows[i]
  {
    seq(|rows|, i requires 0 <= i < |rows| => if rows[i].id == id then rows[i].(status := status) else rows[i])
  }

  function CountId(rows: seq<SimRow>, id: int): nat {
    if rows == [] then 0 else (if rows[0].id == id then 1 else 0) + CountId(rows[1..], id)
  }

  /** `data.filter(item => item.id !== id)`. */
  function WithoutId(rows: seq<SimRow>, id: int): (r: seq<SimRow>)
    ensures forall x :: x in r <==> x in rows && x.id != id
    ensures |r| == |rows| - CountId(rows, id)
  {
    if rows == [] then []
    else (if rows[0].id != id then [rows[0]] else []) + WithoutId(rows[1..], id)
  }

  /** Removal keeps the rest in order: it works piece by piece over a split list. */
  lemma {:induction false} WithoutIdKeepsOrder(a: seq<SimRow>, b: seq<SimRow>, id: int)
    ensures WithoutId(a + b, id) == WithoutId(a, id) + WithoutId(b, id)
  {
    if a == [] {
      assert a + b == b;
    } else {
      var head := if a[0].id != id then [a[0]] else [];
      var ab := a + b;
      assert ab[0] == a[0] && ab[1..] == a[1..] + b;
      assert WithoutId(ab, id) == head + WithoutId(a[1..] + b, id);
      WithoutIdKeepsOrder(a[1..], b, id);
      assert WithoutId(a, id) == head + WithoutId(a[1..], id);
    }
  }

  /** Removing an id no row carries changes nothing. */
  lemma {:induction false} WithoutAbsentId(rows: seq<SimRow>, id: int)
    requires forall x :: x in rows ==> x.id != id
    ensures WithoutId(rows, id) == rows
  {
    if rows != [] {
      WithoutAbsentId(rows[1..], id);
      assert [rows[0]] + rows[1..] == rows;
    }
  }

  /** After a successful request-delete an educator is offered neither delete nor edit on the
      affected rows, while an administrator now sees approve-delete and reject-delete there. */
  lemma RequestDeleteHandsOver(rows: seq<SimRow>, id: int, perms: Permissions, i: int)
    requires 0 <= i < |rows| && rows[i].id == id
    ensures OfferedActions(Educator, WithStatus(rows, id, STATUS_WAITING_APPROVE_DELETE)[i].status, perms)
      * {Edit, EducatorDelete, RequestDelete} == {}
    ensures {ApproveDelete, RejectDelete} <=
      OfferedActions(Admin, WithStatus(rows, id, STATUS_WAITING_APPROVE_DELETE)[i].status, perms)
  {
    var acts := OfferedActions(Educator, STATUS_WAITING_APPROVE_DELETE, perms);
    assert Edit !in acts && EducatorDelete !in acts && RequestDelete !in acts;
  }

  /** After a successful reject-delete the row is active again: no moderation action is
      pending for the administrator, and an educator who may request deletion can do so. */
  lemma RejectDeleteRestores(rows: seq<SimRow>, id: int, perms: Permissions, i: int)
    requires 0 <= i < |rows| && rows[i].id == id
    ensures OfferedActions(Admin, WithStatus(rows, id, STATUS_ACTIVE)[i].status, perms)
      * {Approve, Reject, ApproveDelete, RejectDelete} == {}
    ensures perms.requestDelete ==>
      RequestDelete in OfferedActions(Educator, WithStatus(rows, id, STATUS_ACTIVE)[i].status, perms)
  {
    var acts := OfferedActions(Admin, STATUS_ACTIVE, perms);
    assert Approve !in acts && Reject !in acts && ApproveDelete !in acts && RejectDelete !in acts;
  }

  /** The text sent with an approval or a rejection: the trimmed notice, or a single space
      when nothing is left, so the server never receives an empty notice. */
  function NoticeToSend(noticeText: string): (n: string)
    ensures n != ""
    ensures !AllSpace(noticeText) ==> n == Trim(noticeText)
    ensures AllSpace(noticeText) ==> n == " "
  {
    TrimEmptyIffBlank(noticeText);
    var t := Trim(noticeText);
    if t != "" then t else " "
  }

  /** The calls the page sends. */
  datatype Request =
    | ApproveRequest(id: int, notice: string)
    | RejectRequest(id: int, notice: string)
    | ApproveDeleteRequest(id: int)
    | RejectDeleteRequest(id: int)
    | RequestDeleteRequest(id: int)
    | EducatorDeleteRequest(id: int)

  /** `null` or `undefined` record id; every id the server hands out is positive. */
  const NO_RECORD: int := 0

  /** The page state that the moderation handlers step. `reloads` counts how often the list
      was asked to refetch; `notices` are the notifications shown, oldest first. */
  class SimulationListPage {
    const role: Role
    const objectName: string   // the translated word for a simulation used in messages
    var data: seq<SimRow>
    var currentRecordId: int
    var noticeText: string
    var approveModalOpen: bool
    var rejectModalOpen: bool
    var reloads: nat
    var notices: seq<Notice>

    constructor (role: Role, objectName: string, data: seq<SimRow>)
      ensures this.role == role && this.objectName == objectName && this.data == data
      ensures currentRecordId == NO_RECORD && noticeText == ""
      ensures !approveModalOpen && !rejectModalOpen
      ensures reloads == 0 && notices == []
    {
      this.role := role;
      this.objectName := objectName;
      this.data := data;
      currentRecordId := NO_RECORD;
      noticeText := "";
      approveModalOpen := false;
      rejectModalOpen := false;
      reloads := 0;
      notices := [];
    }

    /** `showApproveModal(id)`: remember the row, clear the notice, open the approve dialog. */
    method ShowApproveModal(id: int)
      requires !IsEducator(role)
      modifies this
      ensures currentRecordId == id && noticeText == "" && approveModalOpen
      ensures data == old(data) && rejectModalOpen == old(rejectModalOpen)
      ensures reloads == old(reloads) && notices == old(notices)
    {
      currentRecordId := id;
      noticeText := "";
      approveModalOpen := true;
    }

    /** `showRejectModal(id)`: remember the row, clear the notice, open the reject dialog. */
    method ShowRejectModal(id: int)
      requires !IsEducator(role)
      modifies this
      ensures currentRecordId == id && noticeText == "" && rejectModalOpen
      ensures data == old(data) && approveModalOpen == old(approveModalOpen)
      ensures reloads == old(reloads) && notices == old(notices)
    {
      currentRecordId := id;
      noticeText := "";
      rejectModalOpen := true;
    }

    /** Typing into either dialog's text area. */
    method EditNotice(text: string)
      modifies this
      ensures noticeText == text
      ensures data == old(data) && currentRecordId == old(currentRecordId)
      ensures approveModalOpen == old(approveModalOpen) && rejectModalOpen == old(rejectModalOpen)
      ensures reloads == old(reloads) && notices == old(notices)
    {
      noticeText := text;
    }

    /** Cancelling the approve dialog forgets the row and the notice. */
    method CancelApproveModal()
      modifies this
      ensures !approveModalOpen && noticeText == "" && currentRecordId == NO_RECORD
      ensures data == old(data) && rejectModalOpen == old(rejectModalOpen)
      ensures reloads == old(reloads) && notices == old(notices)
    {
      approveModalOpen := false;
      noticeText := "";
      currentRecordId := NO_RECORD;
    }

    /** Cancelling the reject dialog forgets the row and the notice. */
    method CancelRejectModal()
      modifies this
      ensures !rejectModalOpen && noticeText == "" && currentRecordId == NO_RECORD
      ensures data == old(data) && approveModalOpen == old(approveModalOpen)
      ensures reloads == old(reloads) && notices == old(notices)
    {
      rejectModalOpen := false;
      noticeText := "";
      currentRecordId := NO_RECORD;
    }

    /** `handleApprove`, run to completion with the given outcome of the call. Without a
        remembered row nothing happens. Otherwise the dialog closes, the normalised notice is
        sent, the list is refetched on success and left alone either way, and the dialog
        state is reset. */
    method HandleApprove(outcome: CallOutcome) returns (sent: Option<Request>)
      requires !IsEducator(role)
      modifies this
      ensures old(currentRecordId) == NO_RECORD ==> sent == None && unchanged(this)
      ensures old(currentRecordId) != NO_RECORD ==>
        && sent == Some(ApproveRequest(old(currentRecordId), NoticeToSend(old(noticeText))))
        && data == old(data)
        && reloads == old(reloads) + (if Succeeded(outcome) then 1 else 0)
        && notices == old(notices) + [Settle(outcome,
             "Phê duyệt " + objectName + " thành công",
             "Phê duyệt " + objectName + " thất bại",
             "Có lỗi xảy ra khi phê duyệt")]
        && !approveModalOpen && rejectModalOpen == old(rejectModalOpen)
        && currentRecordId == NO_RECORD && noticeText == ""
    {
      if currentRecordId == NO_RECORD {
        return None;
      }
      approveModalOpen := false;
      sent := Some(ApproveRequest(currentRecordId, NoticeToSend(noticeText)));
      notices := notices + [Settle(outcome,
        "Phê duyệt " + objectName + " thành công",
        "Phê duyệt " + objectName + " thất bại",
        "Có lỗi xảy ra khi phê duyệt")];
      if Succeeded(outcome) {
        reloads := reloads + 1;
      }
      currentRecordId := NO_RECORD;
      noticeText := "";
    }

    /** `handleReject`: the same steps as an approval, against the reject endpoint. */
    method HandleReject(outcome: CallOutcome) returns (sent: Option<Request>)
      requires !IsEducator(role)
      modifies this
      ensures old(currentRecordId) == NO_RECORD ==> sent == None && unchanged(this)
      ensures old(currentRecordId) != NO_RECORD ==>
        && sent == Some(RejectRequest(old(currentRecordId), NoticeToSend(old(noticeText))))
        && data == old(data)
        && reloads == old(reloads) + (if Succeeded(outcome) then 1 else 0)
        && notices == old(notices) + [Settle(outcome,
             "Từ chối " + objectName + " thành công",
             "Từ chối " + objectName + " thất bại",
             "Có lỗi xảy ra khi từ chối")]
        && !rejectModalOpen && approveModalOpen == old(approveModalOpen)
        && currentRecordId == NO_RECORD && noticeText == ""
    {
      if currentRecordId == NO_RECORD {
        return None;
      }
      rejectModalOpen := false;
      sent := Some(RejectRequest(currentRecordId, NoticeToSend(noticeText)));
      notices := notices + [Settle(outcome,
        "Từ chối " + objectName + " thành công",
        "Từ chối " + objectName + " thất bại",
        "Có lỗi xảy ra khi từ chối")];
      if Succeeded(outcome) {
        reloads := reloads + 1;
      }
      currentRecordId := NO_RECORD;
      noticeText := "";
    }

    /** `handleApproveDelete(id)`: nothing for a missing id or a declined confirmation;
        otherwise the call is sent and a success refetches the list. */
    method HandleApproveDelete(id: int, confirmed: bool, outcome: CallOutcome) returns (sent: Option<Request>)
      requires !IsEducator(role)
      modifies this
      ensures id == NO_RECORD || !confirmed ==> sent == None && unchanged(this)
      ensures id != NO_RECORD && confirmed ==>
        && sent == Some(ApproveDeleteRequest(id))
        && data == old(data)
        && reloads == old(reloads) + (if Succeeded(outcome) then 1 else 0)
        && notices == old(notices) + [Settle(outcome,
             "Phê duyệt xoá " + objectName + " thành công",
             "Phê duyệt xoá " + objectName + " thất bại",
             "Có lỗi xảy ra khi phê duyệt xoá")]
      ensures currentRecordId == old(currentRecordId) && noticeText == old(noticeText)
      ensures approveModalOpen == old(approveModalOpen) && rejectModalOpen == old(rejectModalOpen)
    {
      if id == NO_RECORD || !confirmed {
        return None;
      }
      sent := Some(ApproveDeleteRequest(id));
      notices := notices + [Settle(outcome,
        "Phê duyệt xoá " + objectName + " thành công",
        "Phê duyệt xoá " + objectName + " thất bại",
        "Có lỗi xảy ra khi phê duyệt xoá")];
      if Succeeded(outcome) {
        reloads := reloads + 1;
      }
    }

    /** `handleRejectDelete(id)`: no id check; after confirmation a success returns the rows
        with that id to ACTIVE in place, without a refetch. */
    method HandleRejectDelete(id: int, confirmed: bool, outcome: CallOutcome) returns (sent: Option<Request>)
      requires !IsEducator(role)
      modifies this
      ensures !confirmed ==> sent == None && unchanged(this)
      ensures confirmed ==>
        && sent == Some(RejectDeleteRequest(id))
        && data == (if Succeeded(outcome) then WithStatus(old(data), id, STATUS_ACTIVE) else old(data))
        && notices == old(notices) + [Settle(outcome,
             "Từ chối xoá " + objectName + " thành công",
             "Từ chối xoá " + objectName + " thất bại",
             "Có lỗi xảy ra khi từ chối xoá")]
      ensures reloads == old(reloads)
      ensures currentRecordId == old(currentRecordId) && noticeText == old(noticeText)
      ensures approveModalOpen == old(approveModalOpen) && rejectModalOpen == old(rejectModalOpen)
    {
      if !confirmed {
        return None;
      }
      sent := Some(RejectDeleteRequest(id));
      notices := notices + [Settle(outcome,
        "Từ chối xoá " + objectName + " thành công",
        "Từ chối xoá " + objectName + " thất bại",
        "Có lỗi xảy ra khi từ chối xoá")];
      if Succeeded(outcome) {
        data := WithStatus(data, id, STATUS_ACTIVE);
      }
    }

    /** `handleRequestDelete(id)`: sent without confirmation; a success marks the rows with
        that id as waiting for deletion approval. */
    method HandleRequestDelete(id: int, outcome: CallOutcome) returns (sent: Request)
      requires IsEducator(role)
      modifies this
      ensures sent == RequestDeleteRequest(id)
      ensures data == (if Succeeded(outcome) then WithStatus(old(data), id, STATUS_WAITING_APPROVE_DELETE) else old(data))
      ensures notices == old(notices) + [Settle(outcome,
        "Yêu cầu xoá " + objectName + " thành công",
        "Yêu cầu xoá " + objectName + " thất bại",
        "Có lỗi xảy ra khi yêu cầu xoá")]
      ensures reloads == old(reloads)
      ensures currentRecordId == old(currentRecordId) && noticeText == old(noticeText)
      ensures approveModalOpen == old(approveModalOpen) && rejectModalOpen == old(rejectModalOpen)
    {
      sent := RequestDeleteRequest(id);
      notices := notices + [Settle(outcome,
        "Yêu cầu xoá " + objectName + " thành công",
        "Yêu cầu xoá " + objectName + " thất bại",
        "Có lỗi xảy ra khi yêu cầu xoá")];
      if Succeeded(outcome) {
        data := WithStatus(data, id, STATUS_WAITING_APPROVE_DELETE);
      }
    }

    /** `handleEducatorDelete(id)`: after confirmation a success drops the rows with that id. */
    method HandleEducatorDelete(id: int, confirmed: bool, outcome: CallOutcome) returns (sent: Option<Request>)
      requires IsEducator(role)
      modifies this
      ensures !confirmed ==> sent == None && unchanged(this)
      ensures confirmed ==>
        && sent == Some(EducatorDeleteRequest(id))
        && data == (if Succeeded(outcome) then WithoutId(old(data), id) else old(data))
        && notices == old(notices) + [Settle(outcome,
             "Xóa " + objectName + " thành công",
             "Xóa " + objectName + " thất bại",
             "Có lỗi xảy ra khi xóa")]
      ensures reloads == old(reloads)
      ensures currentRecordId == old(currentRecordId) && noticeText == old(noticeText)
      ensures approveModalOpen == old(approveModalOpen) && rejectModalOpen == old(rejectModalOpen)
    {
      if !confirmed {
        return None;
      }
      sent := Some(EducatorDeleteRequest(id));
      notices := notices + [Settle(outcome,
        "Xóa " + objectName + " thành công",
        "Xóa " + objectName + " thất bại",
        "Có lỗi xảy ra khi xóa")];
      if Succeeded(outcome) {
        data := WithoutId(data, id);
      }
    }
  }
}
