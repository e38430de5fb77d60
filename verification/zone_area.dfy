/** Zone area admission (`checkZoneArea`): a new zone is accepted only while the summed
    area of the farm's zones stays within the farm's own area. */
module ZoneArea {
  import opened Common
  import opened Models
  import opened Seqs
  import opened Store

  /** Surface of a zone. */
  function Area(z: Zone): real {
    z.width * z.length
  }

  /** Surface of a farm. */
  function FarmArea(f: Farm): real {
    f.longueur * f.largeur
  }

  /** The zone belongs to the farm `farmId`. */
  function InFarm(farmId: Id): Zone -> bool {
    (z: Zone) => z.farmId == farmId
  }

  /** `Zone.find({ farm_id })`. */
  function ZonesOf(zones: seq<Zone>, farmId: Id): seq<Zone> {
    Filter(zones, InFarm(farmId))
  }

  /** The running-sum `reduce` over a list of zones, folding from the left. */
  function SumAreas(zs: seq<Zone>): real
    decreases |zs|
  {
    if |zs| == 0 then 0.0 else SumAreas(zs[..|zs| - 1]) + Area(zs[|zs| - 1])
  }

  /** Area already taken in the farm, computed as the handler does: query, then reduce. */
  function UsedArea(zones: seq<Zone>, farmId: Id): real {
    SumAreas(ZonesOf(zones, farmId))
  }

  /** Reference definition of the area taken in a farm: every stored zone contributes its
      area if it belongs to the farm and nothing otherwise. */
  function Occupied(zones: seq<Zone>, farmId: Id): real
    decreases |zones|
  {
    if |zones| == 0 then 0.0
    else (if zones[0].farmId == farmId then Area(zones[0]) else 0.0) + Occupied(zones[1..], farmId)
  }

  /** `checkZoneArea(farmId, newZoneArea)`: "Farm not found" for an unknown farm, otherwise
      whether the occupied area plus the candidate stays within the farm's area. */
  function CheckZoneArea(db: Db, farmId: Id, newZoneArea: real): (r: Result<bool>)
    ensures r.Err? <==> FindFarm(db, farmId).None?
    ensures r.Err? ==> r.error == "Farm not found"
    ensures r.Ok? ==> (r.value <==>
      Occupied(db.zones, farmId) + newZoneArea <= FarmArea(db.farms[FindFarm(db, farmId).value]))
  {
    match FindFarm(db, farmId)
    case None => Err("Farm not found")
    case Some(i) =>
      var farmArea := FarmArea(db.farms[i]);
      var usedArea := UsedArea(db.zones, farmId);
      UsedAreaIsOccupied(db.zones, farmId);
      if usedArea + newZoneArea > farmArea then Ok(false) else Ok(true)
  }

  /** The left fold of a concatenation is the sum of the two folds. */
  lemma {:induction false} SumAreasConcat(a: seq<Zone>, b: seq<Zone>)
    ensures SumAreas(a + b) == SumAreas(a) + SumAreas(b)
    decreases |b|
  {
    if |b| == 0 {
      assert a + b == a;
    } else {
      var n := |b| - 1;
      assert (a + b)[..|a + b| - 1] == a + b[..n];
      SumAreasConcat(a, b[..n]);
    }
  }

  /** Prepending one zone adds its area to the fold. */
  lemma SumAreasCons(z: Zone, rest: seq<Zone>)
    ensures SumAreas([z] + rest) == Area(z) + SumAreas(rest)
  {
    SumAreasConcat([z], rest);
    assert [z][..0] == [];
  }

  /** The handler's query-then-reduce computes the reference occupied area. */
  lemma {:induction false} UsedAreaIsOccupied(zones: seq<Zone>, farmId: Id)
    ensures UsedArea(zones, farmId) == Occupied(zones, farmId)
    decreases |zones|
  {
    if |zones| > 0 {
      var z, rest := zones[0], zones[1..];
      var p := InFarm(farmId);
      assert ZonesOf(zones, farmId) == if z.farmId == farmId then [z] + Filter(rest, p) else Filter(rest, p);
      if z.farmId == farmId {
        SumAreasCons(z, Filter(rest, p));
      }
      UsedAreaIsOccupied(rest, farmId);
    }
  }

  /** Appending one zone adds its area to the fold. */
  lemma SumAreasSnoc(pre: seq<Zone>, x: Zone)
    ensures SumAreas(pre + [x]) == SumAreas(pre) + Area(x)
  {
    assert (pre + [x])[..|pre|] == pre;
  }

  /** Taking one zone out of a list lowers the fold by exactly that zone's area. */
  lemma {:induction false} SumAreasRemove(b: seq<Zone>, i: nat)
    requires i < |b|
    ensures SumAreas(b) == SumAreas(b[..i] + b[i + 1..]) + Area(b[i])
    decreases |b|
  {
    var n := |b| - 1;
    var front := b[..n];
    assert b == front + [b[n]];
    SumAreasSnoc(front, b[n]);
    if i == n {
      assert b[..i] + b[i + 1..] == front;
    } else {
      SumAreasRemove(front, i);
      var rest := front[..i] + front[i + 1..];
      assert b[..i] + b[i + 1..] == rest + [b[n]];
      SumAreasSnoc(rest, b[n]);
    }
  }

  /** Removing the same element from two permutations of each other leaves permutations. */
  lemma RemovePermutation(a: seq<Zone>, b: seq<Zone>, i: nat)
    requires |a| > 0 && i < |b| && b[i] == a[|a| - 1]
    requires multiset(a) == multiset(b)
    ensures multiset(a[..|a| - 1]) == multiset(b[..i] + b[i + 1..])
  {
    var n, x := |a| - 1, b[i];
    assert a == a[..n] + [x];
    assert b == b[..i] + [x] + b[i + 1..];
    assert multiset(a[..n]) == multiset(a) - multiset{x};
    assert multiset(b[..i] + b[i + 1..]) == multiset(b) - multiset{x};
  }

  /** The fold does not depend on the order of the zones. */
  lemma {:induction false} SumAreasPermutation(a: seq<Zone>, b: seq<Zone>)
    requires multiset(a) == multiset(b)
    ensures SumAreas(a) == SumAreas(b)
    decreases |a|
  {
    if |a| == 0 {
      assert |b| == |multiset(b)| == 0;
    } else {
      var n := |a| - 1;
      assert a[n] in multiset(b);
      var i :| 0 <= i < |b| && b[i] == a[n];
      RemovePermutation(a, b, i);
      SumAreasPermutation(a[..n], b[..i] + b[i + 1..]);
      SumAreasRemove(b, i);
    }
  }

  /** Listing the same zones in another order gives the same admission decision. */
  lemma ZoneOrderIrrelevant(db: Db, zones: seq<Zone>, farmId: Id, newZoneArea: real)
    requires multiset(zones) == multiset(db.zones)
    ensures CheckZoneArea(db.(zones := zones), farmId, newZoneArea) == CheckZoneArea(db, farmId, newZoneArea)
  {
    var p := InFarm(farmId);
    var a, b := Filter(zones, p), Filter(db.zones, p);
    forall x ensures multiset(a)[x] == multiset(b)[x] {
      FilterMultiset(zones, p, x);
      FilterMultiset(db.zones, p, x);
    }
    assert multiset(a) == multiset(b);
    SumAreasPermutation(a, b);
    UsedAreaIsOccupied(zones, farmId);
    UsedAreaIsOccupied(db.zones, farmId);
  }

  /** The occupied area of a concatenation is the sum of the two parts' occupied areas. */
  lemma {:induction false} OccupiedConcat(a: seq<Zone>, b: seq<Zone>, farmId: Id)
    ensures Occupied(a + b, farmId) == Occupied(a, farmId) + Occupied(b, farmId)
    decreases |a|
  {
    if |a| == 0 {
      assert a + b == b;
    } else {
      assert (a + b)[1..] == a[1..] + b;
      OccupiedConcat(a[1..], b, farmId);
    }
  }

  /** A zone of another farm, stored anywhere in the list, has no effect on the decision. */
  lemma ForeignZoneIrrelevant(db: Db, k: nat, z: Zone, farmId: Id, newZoneArea: real)
    requires k <= |db.zones|
    requires z.farmId != farmId
    ensures CheckZoneArea(db.(zones := db.zones[..k] + [z] + db.zones[k..]), farmId, newZoneArea)
         == CheckZoneArea(db, farmId, newZoneArea)
  {
    var a, b := db.zones[..k], db.zones[k..];
    assert db.zones == a + b;
    OccupiedConcat(a + [z], b, farmId);
    OccupiedConcat(a, [z], farmId);
    OccupiedConcat(a, b, farmId);
    assert Occupied([z], farmId) == 0.0 by {
      assert [z][1..] == [];
    }
  }

  /** Admission is monotone in the candidate area: a refused area stays refused when it grows. */
  lemma AdmissionMonotone(db: Db, farmId: Id, smaller: real, larger: real)
    requires smaller <= larger
    requires CheckZoneArea(db, farmId, smaller) == Ok(false)
    ensures CheckZoneArea(db, farmId, larger) == Ok(false)
  {
  }

  /** A farm without zones admits exactly the candidates no larger than the farm itself. */
  lemma EmptyFarmAdmission(db: Db, i: nat, newZoneArea: real)
    requires i < |db.farms|
    requires FindFarm(db, db.farms[i].id) == Some(i)
    requires forall j :: 0 <= j < |db.zones| ==> db.zones[j].farmId != db.farms[i].id
    ensures CheckZoneArea(db, db.farms[i].id, newZoneArea) == Ok(newZoneArea <= FarmArea(db.farms[i]))
  {
    OccupiedNone(db.zones, db.farms[i].id);
  }

  /** No zone of the farm: nothing is occupied. */
  lemma {:induction false} OccupiedNone(zones: seq<Zone>, farmId: Id)
    requires forall j :: 0 <= j < |zones| ==> zones[j].farmId != farmId
    ensures Occupied(zones, farmId) == 0.0
    decreases |zones|
  {
    if |zones| > 0 {
      OccupiedNone(zones[1..], farmId);
    }
  }

  /** Creating a zone only after it was admitted keeps the farm's zones within its area. */
  lemma AdmittedZoneFits(db: Db, z: Zone, i: nat)
    requires FindFarm(db, z.farmId) == Some(i)
    requires CheckZoneArea(db, z.farmId, Area(z)) == Ok(true)
    ensures Occupied(db.zones + [z], z.farmId) <= FarmArea(db.farms[i])
  {
    OccupiedConcat(db.zones, [z], z.farmId);
    assert Occupied([z], z.farmId) == Area(z) by {
      assert [z][1..] == [];
    }
  }
}
