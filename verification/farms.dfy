/** `/api/dashboard/farms`: an owner's farms, scoped by the session's user id. The session
    cookie is already decoded: `None` stands for a missing, malformed or empty session. */
module FarmsApi {
  import opened Common
  import opened Models
  import opened Seqs
  import opened Store

  function OwnedBy(owner: Id): Farm -> bool {
    (f: Farm) => f.ownerId == owner
  }

  /** `GET`: the session user's farms in store order; nobody's without a session. */
  function Get(db: Db, session: Option<Id>): (r: seq<Farm>)
    ensures session.None? ==> r == []
    ensures session.Some? ==> forall f :: f in r <==> f in db.farms && f.ownerId == session.value
    ensures |r| <= |db.farms|
  {
    if session.None? then [] else Filter(db.farms, OwnedBy(session.value))
  }

  /** The JSON body of a `POST`; `ownerId` is whatever owner the client claims. */
  datatype NewFarm = NewFarm(
    name: Option<string>,
    location: Option<string>,
    longueur: Option<real>,
    largeur: Option<real>,
    ownerId: Option<Id>)

  /** The body carries every field the Farm schema requires. */
  predicate Complete(body: NewFarm) {
    Truthy(body.name) && body.longueur.Some? && body.largeur.Some?
  }

  /** `POST`: create a farm owned by the session user. The body's owner is never read.
      A body missing a required field makes the store's validation throw, which the
      handler does not catch: the framework answers 500 and nothing is stored. */
  function Post(db: Db, session: Option<Id>, body: NewFarm): (r: Reply)
    ensures session.None? ==> r == Refuse(db, 401, "Not authenticated")
    ensures session.Some? && !Complete(body) ==> r == Reply(Response(500, ServerError), db)
    ensures session.Some? && Complete(body) ==>
      && |r.db.farms| == |db.farms| + 1 && r.db.farms[..|db.farms|] == db.farms
      && var f := r.db.farms[|db.farms|];
      && f.ownerId == session.value
      && f.id == db.nextId && f.name == Some(body.name.value) && f.location == body.location
      && f.longueur == body.longueur.value && f.largeur == body.largeur.value
      && r.response == Response(200, FarmDoc(Some(f)))
      && r.db == db.(farms := r.db.farms, nextId := db.nextId + 1)
  {
    if session.None? then Refuse(db, 401, "Not authenticated")
    else if !Complete(body) then Reply(Response(500, ServerError), db)
    else
      var f := Farm(db.nextId, session.value, Some(body.name.value), body.location,
                    body.longueur.value, body.largeur.value);
      var farms := db.farms + [f];
      assert farms[..|db.farms|] == db.farms;
      Reply(Response(200, FarmDoc(Some(f))), db.(farms := farms, nextId := db.nextId + 1))
  }

  /** `PUT`: rename or relocate a farm by id, for any caller (no ownership check). Fields
      left out of the body are left alone, and an explicit `null` is written; `area_hectare` and `cropType` are not schema
      fields and are dropped. Replies with the updated farm, or `null` if there is none. */
  function Put(db: Db, farmId: Id, name: Field<string>, location: Field<string>): (r: Reply)
    ensures FindFarm(db, farmId).None? ==> r.db == db && r.response == Response(200, FarmDoc(None))
    ensures FindFarm(db, farmId).Some? ==>
      var i := FindFarm(db, farmId).value;
      && |r.db.farms| == |db.farms|
      && var f := r.db.farms[i];
      && (forall j :: 0 <= j < |db.farms| && j != i ==> r.db.farms[j] == db.farms[j])
      && f.id == farmId && f.ownerId == db.farms[i].ownerId
      && f.longueur == db.farms[i].longueur && f.largeur == db.farms[i].largeur
      && (name.Missing? ==> f.name == db.farms[i].name)
      && (name.Null? ==> f.name == None)
      && (name.Given? ==> f.name == Some(name.value))
      && (location.Missing? ==> f.location == db.farms[i].location)
      && (location.Null? ==> f.location == None)
      && (location.Given? ==> f.location == Some(location.value))
      && r.response == Response(200, FarmDoc(Some(f)))
      && r.db == db.(farms := r.db.farms)
  {
    match FindFarm(db, farmId)
    case None => Reply(Response(200, FarmDoc(None)), db)
    case Some(i) =>
      var prev := db.farms[i];
      var f := prev.(name := Patched(name, prev.name), location := Patched(location, prev.location));
      Reply(Response(200, FarmDoc(Some(f))), db.(farms := db.farms[i := f]))
  }

  /** `DELETE`: remove the farm with this id, for any caller (no ownership check). Its
      zones are not deleted. Always replies success. */
  function Delete(db: Db, farmId: Id): (r: Reply)
    ensures r.response == Response(200, Success)
    ensures r.db.users == db.users && r.db.requests == db.requests
    ensures r.db.zones == db.zones && r.db.nextId == db.nextId
    ensures FindFarm(db, farmId).None? ==> r.db == db
    ensures FindFarm(db, farmId).Some? ==> r.db.farms == RemoveAt(db.farms, FindFarm(db, farmId).value)
  {
    match FindFarm(db, farmId)
    case None => Reply(Response(200, Success), db)
    case Some(i) => Reply(Response(200, Success), db.(farms := RemoveAt(db.farms, i)))
  }

  /** Under unique farm ids, deleting removes exactly the named farm and keeps the rest. */
  lemma DeleteExactlyOne(db: Db, farmId: Id)
    requires Valid(db)
    ensures forall f :: f in Delete(db, farmId).db.farms <==> f in db.farms && f.id != farmId
  {
    match FindFarm(db, farmId)
    case None =>
    case Some(i) => RemoveAtKey(db.farms, FarmId, i);
  }

  /** A farm created for a session is listed for that session and for no other. */
  lemma CreatedFarmIsScoped(db: Db, owner: Id, body: NewFarm, other: Id)
    requires Complete(body) && other != owner
    ensures var r := Post(db, Some(owner), body).db;
      var f := r.farms[|db.farms|];
      f in Get(r, Some(owner)) && f !in Get(r, Some(other))
  {
  }

  /** An update that names no field changes nothing, and replies with the farm if it exists. */
  lemma EmptyPutChangesNothing(db: Db, farmId: Id)
    ensures Put(db, farmId, Missing, Missing).db == db
    ensures Put(db, farmId, Missing, Missing).response ==
      Response(200, FarmDoc(if FindFarm(db, farmId).Some? then Some(db.farms[FindFarm(db, farmId).value]) else None))
  {
    if FindFarm(db, farmId).Some? {
      var i := FindFarm(db, farmId).value;
      assert db.farms[i := db.farms[i]] == db.farms;
    }
  }

  /** Every farm operation keeps the store's guarantees. */
  lemma FarmOpsValid(db: Db, session: Option<Id>, body: NewFarm, farmId: Id, name: Field<string>, location: Field<string>)
    requires Valid(db)
    ensures Valid(Post(db, session, body).db)
    ensures Valid(Put(db, farmId, name, location).db)
    ensures Valid(Delete(db, farmId).db)
  {
    if session.Some? && Complete(body) {
      var r := Post(db, session, body).db;
      assert r.farms == db.farms + [r.farms[|db.farms|]];
      DistinctAppend(db.farms, FarmId, r.farms[|db.farms|]);
    }
    match FindFarm(db, farmId)
    case None =>
    case Some(i) =>
      DistinctUpdate(db.farms, FarmId, i, Put(db, farmId, name, location).db.farms[i]);
      DistinctRemove(db.farms, FarmId, i);
  }
}
