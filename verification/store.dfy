/** The document store the route handlers share, and the replies they send. */
module Store {
  import opened Common
  import opened Models
  import opened Seqs

  /** The four collections, each in insertion order, and the next fresh identifier. */
  datatype Db = Db(
    users: seq<User>,
    requests: seq<PurchaseRequest>,
    farms: seq<Farm>,
    zones: seq<Zone>,
    nextId: Id)

  /** What the User and PurchaseRequest schemas and the store guarantee of every stored
      document: required user and request strings are non-empty, user emails are unique,
      identifiers are unique and were handed out before `nextId`. Farm and zone names are
      checked only when a document is created (an update skips validation), so they are
      not part of this invariant. */
  predicate Valid(db: Db) {
    && (forall i :: 0 <= i < |db.users| ==> db.users[i].email != "" && db.users[i].id < db.nextId)
    && DistinctKeys(db.users, UserEmail)
    && DistinctKeys(db.users, UserId)
    && (forall i :: 0 <= i < |db.requests| ==>
          && db.requests[i].fullName != "" && db.requests[i].email != ""
          && db.requests[i].phone != "" && db.requests[i].id < db.nextId)
    && DistinctKeys(db.requests, RequestId)
    && (forall i :: 0 <= i < |db.farms| ==> db.farms[i].id < db.nextId)
    && DistinctKeys(db.farms, FarmId)
    && (forall i :: 0 <= i < |db.zones| ==> db.zones[i].id < db.nextId)
  }

  /** `User.findOne({ email })`: position of the first user with that email. */
  function FindUserByEmail(db: Db, email: string): Option<nat> {
    IndexOf(db.users, UserEmail, email)
  }

  /** `User.findById(id)`; an absent reference finds nothing. */
  function FindUserById(db: Db, id: Option<Id>): Option<nat> {
    if id.None? then None else IndexOf(db.users, UserId, id.value)
  }

  /** `PurchaseRequest.findById(id)`. */
  function FindRequest(db: Db, id: Id): Option<nat> {
    IndexOf(db.requests, RequestId, id)
  }

  /** `Farm.findById(id)`. */
  function FindFarm(db: Db, id: Id): Option<nat> {
    IndexOf(db.farms, FarmId, id)
  }

  /** Some user has this email. */
  predicate HasUser(db: Db, email: string) {
    exists i :: 0 <= i < |db.users| && db.users[i].email == email
  }

  /** The body of a JSON reply. */
  datatype Body =
    | Error(message: string)
    | Success
    | LoggedIn(email: string, role: Role, status: UserStatus, fullName: Option<string>, id: Id)
    | FarmDoc(farm: Option<Farm>)
    | ServerError  // the framework's reply to an exception the handler does not catch

  /** An HTTP reply: status code and JSON body. */
  datatype Response = Response(status: nat, body: Body)

  /** What one request does: the reply sent and the store afterwards. */
  datatype Reply = Reply(response: Response, db: Db)

  /** A reply that leaves the store as it was. */
  function Refuse(db: Db, status: nat, message: string): (r: Reply)
    ensures r.db == db && r.response.status == status && r.response.body == Error(message)
  {
    Reply(Response(status, Error(message)), db)
  }
}
