/** `/api/admin/requests`: the administrator lists pending purchase requests and approves
    or rejects them. */
module AdminRequests {
  import opened Common
  import opened Models
  import opened Seqs
  import opened Store

  /** A request with its `userId` reference resolved (`populate("userId")`); a dangling
      or missing reference resolves to nothing. */
  datatype Populated = Populated(request: PurchaseRequest, user: Option<User>)

  /** The user a reference designates, if it exists. */
  function UserRef(db: Db, id: Option<Id>): Option<User> {
    match FindUserById(db, id)
    case None => None
    case Some(i) => Some(db.users[i])
  }

  function IsPending(q: PurchaseRequest): bool { q.status == Pending }

  /** The requests of a listing, without their users. */
  function RequestsOf(ps: seq<Populated>): (r: seq<PurchaseRequest>)
    ensures |r| == |ps| && forall k :: 0 <= k < |ps| ==> r[k] == ps[k].request
  {
    seq(|ps|, k requires 0 <= k < |ps| => ps[k].request)
  }

  /** Attach to each request the user its reference resolves to. */
  function Populate(db: Db, qs: seq<PurchaseRequest>): (r: seq<Populated>)
    ensures RequestsOf(r) == qs
    ensures forall k :: 0 <= k < |r| ==> r[k].user == UserRef(db, r[k].request.userId)
  {
    var r := seq(|qs|, k requires 0 <= k < |qs| => Populated(qs[k], UserRef(db, qs[k].userId)));
    assert RequestsOf(r) == qs;
    r
  }

  /** `GET`: exactly the pending requests, in store order, each with its user. */
  function Get(db: Db): (r: seq<Populated>)
    ensures forall q :: q in RequestsOf(r) <==> q in db.requests && q.status == Pending
    ensures forall k :: 0 <= k < |r| ==> r[k].user == UserRef(db, r[k].request.userId)
  {
    Populate(db, Filter(db.requests, IsPending))
  }

  /** The user after approval: status `ACTIVE`, and each of name, phone and company filled
      from the request only where the user's own value is empty. */
  function ApprovedUser(u: User, q: PurchaseRequest): (a: User)
    ensures a.status == Active
    ensures a.id == u.id && a.email == u.email && a.passwordHash == u.passwordHash
    ensures a.role == u.role && a.city == u.city
    ensures Truthy(u.fullName) ==> a.fullName == u.fullName
    ensures !Truthy(u.fullName) ==> a.fullName == if q.fullName != "" then Some(q.fullName) else u.fullName
    ensures Truthy(u.phone) ==> a.phone == u.phone
    ensures !Truthy(u.phone) ==> a.phone == if q.phone != "" then Some(q.phone) else u.phone
    ensures Truthy(u.companyName) ==> a.companyName == u.companyName
    ensures !Truthy(u.companyName) ==> a.companyName == if Truthy(q.farmName) then q.farmName else u.companyName
  {
    var fullName := if !Truthy(u.fullName) && q.fullName != "" then Some(q.fullName) else u.fullName;
    var phone := if !Truthy(u.phone) && q.phone != "" then Some(q.phone) else u.phone;
    var company := if !Truthy(u.companyName) && Truthy(q.farmName) then q.farmName else u.companyName;
    u.(fullName := fullName, phone := phone, companyName := company, status := Active)
  }

  /** `POST { requestId, action }`. Both lookups happen before the action is examined; a
      refused call leaves the store as it was. `approve` marks the request `APPROVED` and
      activates its user; `reject` deletes both documents. */
  function Post(db: Db, requestId: Id, action: string): (r: Reply)
    ensures FindRequest(db, requestId).None? ==> r == Refuse(db, 404, "Request not found")
    ensures FindRequest(db, requestId).Some? ==>
      var k := FindRequest(db, requestId).value;
      var q := db.requests[k];
      && (FindUserById(db, q.userId).None? ==> r == Refuse(db, 404, "User not found"))
      && (FindUserById(db, q.userId).Some? ==>
            var i := FindUserById(db, q.userId).value;
            && (action == "approve" ==>
                  && r.response == Response(200, Success)
                  && r.db == db.(requests := db.requests[k := q.(status := Approved)],
                                 users := db.users[i := ApprovedUser(db.users[i], q)]))
            && (action == "reject" ==>
                  && r.response == Response(200, Success)
                  && r.db == db.(requests := RemoveAt(db.requests, k), users := RemoveAt(db.users, i)))
            && (action != "approve" && action != "reject" ==> r == Refuse(db, 400, "Invalid action")))
  {
    match FindRequest(db, requestId)
    case None => Refuse(db, 404, "Request not found")
    case Some(k) =>
      var q := db.requests[k];
      match FindUserById(db, q.userId)
      case None => Refuse(db, 404, "User not found")
      case Some(i) =>
        if action == "approve" then
          Reply(Response(200, Success),
                db.(requests := db.requests[k := q.(status := Approved)],
                    users := db.users[i := ApprovedUser(db.users[i], q)]))
        else if action == "reject" then
          Reply(Response(200, Success),
                db.(requests := RemoveAt(db.requests, k), users := RemoveAt(db.users, i)))
        else
          Refuse(db, 400, "Invalid action")
  }

  /** The handler never assigns `REJECTED`: every rejected request afterwards was stored,
      already rejected, before the call. */
  lemma NeverRejects(db: Db, requestId: Id, action: string)
    ensures forall q :: q in Post(db, requestId, action).db.requests && q.status == Rejected ==> q in db.requests
  {
    var requests := Post(db, requestId, action).db.requests;
    forall x | x in requests && x.status == Rejected ensures x in db.requests {
      var j :| 0 <= j < |requests| && requests[j] == x;
      match FindRequest(db, requestId)
      case None =>
      case Some(k) =>
        var q := db.requests[k];
        if FindUserById(db, q.userId).Some? && action == "approve" {
          assert j != k && x == db.requests[j];
        } else if FindUserById(db, q.userId).Some? && action == "reject" {
          assert x == db.requests[if j < k then j else j + 1];
        }
    }
  }

  /** Approving an already approved user with the same request data changes nothing. */
  lemma ApprovedUserStable(u: User, q: PurchaseRequest, q': PurchaseRequest)
    requires q'.fullName == q.fullName && q'.phone == q.phone && q'.farmName == q.farmName
    ensures ApprovedUser(ApprovedUser(u, q), q') == ApprovedUser(u, q)
  {
  }

  /** Approving a second time changes nothing more than approving once. */
  lemma ApproveIdempotent(db: Db, requestId: Id)
    ensures Post(Post(db, requestId, "approve").db, requestId, "approve").db == Post(db, requestId, "approve").db
  {
    match FindRequest(db, requestId)
    case None =>
    case Some(k) =>
      var q := db.requests[k];
      match FindUserById(db, q.userId)
      case None =>
      case Some(i) =>
        var q' := q.(status := Approved);
        var u' := ApprovedUser(db.users[i], q);
        var once := db.(requests := db.requests[k := q'], users := db.users[i := u']);
        assert Post(db, requestId, "approve").db == once;
        IndexOfUpdate(db.requests, RequestId, k, q', requestId);
        assert FindRequest(once, requestId) == Some(k);
        assert once.requests[k] == q';
        IndexOfUpdate(db.users, UserId, i, u', q.userId.value);
        assert FindUserById(once, q'.userId) == Some(i);
        ApprovedUserStable(db.users[i], q, q');
        assert once.users[i := ApprovedUser(once.users[i], q')] == once.users;
        assert once.requests[k := q'.(status := Approved)] == once.requests;
  }

  /** Rejecting under the store's guarantees removes every trace of the request and of its
      user, and touches no other request or user. */
  lemma RejectRemovesBoth(db: Db, requestId: Id)
    requires Valid(db)
    requires Post(db, requestId, "reject").response.status == 200
    ensures var r := Post(db, requestId, "reject").db;
      var q := db.requests[FindRequest(db, requestId).value];
      && (forall x :: x in r.requests <==> x in db.requests && x.id != requestId)
      && (forall u :: u in r.users <==> u in db.users && Some(u.id) != q.userId)
  {
    var k := FindRequest(db, requestId).value;
    var q := db.requests[k];
    var i := FindUserById(db, q.userId).value;
    RemoveAtKey(db.requests, RequestId, k);
    RemoveAtKey(db.users, UserId, i);
  }

  /** Approving or rejecting keeps the store's guarantees. */
  lemma PostValid(db: Db, requestId: Id, action: string)
    requires Valid(db)
    ensures Valid(Post(db, requestId, action).db)
  {
    match FindRequest(db, requestId)
    case None =>
    case Some(k) =>
      var q := db.requests[k];
      match FindUserById(db, q.userId)
      case None =>
      case Some(i) =>
        if action == "approve" {
          DistinctUpdate(db.requests, RequestId, k, q.(status := Approved));
          DistinctUpdate(db.users, UserEmail, i, ApprovedUser(db.users[i], q));
          DistinctUpdate(db.users, UserId, i, ApprovedUser(db.users[i], q));
        } else if action == "reject" {
          DistinctRemove(db.requests, RequestId, k);
          DistinctRemove(db.users, UserEmail, i);
          DistinctRemove(db.users, UserId, i);
        }
  }
}
