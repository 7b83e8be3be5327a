/**
 * The procurement-award endpoints (backend/api/procurement_award_router.py).
 * The table allows several awards per project; `create_award` refuses a second
 * one, and no other endpoint can move an award to another project, so the
 * router keeps at most one award per project.
 */
module ProcurementAwardRouter {
  import opened Common
  import opened Models

  const AwardNotFound := HttpError(404, "Award not found")
  const ProjectHasAward := HttpError(400, "This project already has an award")

  /** `ProcurementAwardCreate`; `performanceFlag` is None when the client left it out. */
  datatype AwardCreate = AwardCreate(
    projectId: int,
    contractorId: int,
    tenderId: Option<string>,
    procurementMethod: Option<string>,
    contractValue: Option<real>,
    awardDate: Option<Timestamp>,
    contractorShareHint: Option<real>,
    performanceFlag: Option<bool>,
    performanceFlagReason: Option<string>)

  /**
   * `ProcurementAwardUpdate` as `model_dump(exclude_unset=True)` sees it. It has
   * no `project_id`. A `contractor_id` sent as null is kept (the schema allows
   * it) and then refused by the NOT NULL column.
   */
  datatype AwardUpdate = AwardUpdate(
    contractorId: Patch<Option<int>>,
    tenderId: Patch<Option<string>>,
    procurementMethod: Patch<Option<string>>,
    contractValue: Patch<Option<real>>,
    awardDate: Patch<Option<Timestamp>>,
    contractorShareHint: Patch<Option<real>>,
    performanceFlag: Patch<Option<bool>>,
    performanceFlagReason: Patch<Option<string>>)

  // ---------------------------------------------------------------------------
  // list_awards, get_award

  /** `select(ProcurementAward).order_by(ProcurementAward.id)`. */
  function ListAwards(awards: map<int, Award>, next: int): (r: seq<Award>)
    requires AwardsValid(awards, next)
    ensures forall i, j :: 0 <= i < j < |r| ==> r[i].id < r[j].id
    ensures forall i :: 0 <= i < |r| ==> r[i].id in awards && awards[r[i].id] == r[i]
    ensures forall k :: k in awards ==> awards[k] in r
  {
    forall k | k in awards
      ensures awards[k] in ValuesAsc(awards, 1, next)
    {
      ValuesAscComplete(awards, 1, next, k);
    }
    ValuesAsc(awards, 1, next)
  }

  function GetAward(awards: map<int, Award>, id: int): (r: Result<Award, HttpError>)
    ensures r.Ok? <==> id in awards
    ensures r.Ok? ==> r.value == awards[id]
    ensures r.Err? ==> r.error == AwardNotFound
  {
    if id in awards then Ok(awards[id]) else Err(AwardNotFound)
  }

  // ---------------------------------------------------------------------------
  // create_award

  /** `ProcurementAward(**payload.model_dump())` with its id and creation time. */
  function NewAward(id: int, b: AwardCreate, now: Timestamp): (a: Award)
    ensures a.id == id && a.createdAt == now
    ensures a.tenderId == b.tenderId && a.procurementMethod == b.procurementMethod
    ensures a.contractValue == b.contractValue && a.awardDate == b.awardDate
    ensures a.contractorShareHint == b.contractorShareHint && a.performanceFlagReason == b.performanceFlagReason
  {
    var flag := if b.performanceFlag.Some? then b.performanceFlag.value else false;
    Award(id, b.projectId, b.contractorId, b.tenderId, b.procurementMethod, b.contractValue, b.awardDate,
      b.contractorShareHint, Some(flag), b.performanceFlagReason, now)
  }

  /** A created award copies the body; a flag left out is stored as false. */
  lemma NewAwardFlag(id: int, b: AwardCreate, now: Timestamp)
    ensures NewAward(id, b, now).projectId == b.projectId && NewAward(id, b, now).contractorId == b.contractorId
    ensures b.performanceFlag.None? ==> NewAward(id, b, now).performanceFlag == Some(false)
    ensures b.performanceFlag.Some? ==> NewAward(id, b, now).performanceFlag == b.performanceFlag
  {
  }

  /** `select(...).where(project_id == p).first()`. */
  function AwardOfProject(awards: map<int, Award>, next: int, projectId: int): (r: Option<int>)
    ensures r.Some? ==> r.value in awards && awards[r.value].projectId == projectId
    ensures r.None? && IdsBelow(awards, next) ==> forall k :: k in awards ==> awards[k].projectId != projectId
  {
    FirstWhere(awards, (a: Award) => a.projectId == projectId, 1, next)
  }

  method CreateAward(db: Db, b: AwardCreate, now: Timestamp) returns (r: Result<Award, HttpError>)
    requires AwardsValid(db.awards, db.nextAwardId) && OneAwardPerProject(db.awards)
    modifies db`awards, db`nextAwardId
    ensures AwardsValid(db.awards, db.nextAwardId) && OneAwardPerProject(db.awards)
    ensures (exists k :: k in old(db.awards) && old(db.awards)[k].projectId == b.projectId) ==>
      r == Err(ProjectHasAward) && db.awards == old(db.awards) && db.nextAwardId == old(db.nextAwardId)
    ensures (forall k :: k in old(db.awards) ==> old(db.awards)[k].projectId != b.projectId) ==>
      var a := NewAward(old(db.nextAwardId), b, now);
      && r == Ok(a)
      && db.awards == old(db.awards)[a.id := a]
      && db.nextAwardId == old(db.nextAwardId) + 1
  {
    if AwardOfProject(db.awards, db.nextAwardId, b.projectId).Some? {
      return Err(ProjectHasAward);
    }
    var a := NewAward(db.nextAwardId, b, now);
    db.awards := db.awards[a.id := a];
    db.nextAwardId := db.nextAwardId + 1;
    r := Ok(a);
  }

  // ---------------------------------------------------------------------------
  // update_award

  /** The `setattr` loop over the sent fields; None when `contractor_id` is set to null. */
  function Updated(a: Award, u: AwardUpdate): (r: Option<Award>)
    ensures r.None? <==> u.contractorId == Set(None)
    ensures r.Some? ==> r.value.id == a.id && r.value.projectId == a.projectId && r.value.createdAt == a.createdAt
    ensures r.Some? && u.contractorId.Unset? ==> r.value.contractorId == a.contractorId
    ensures u.contractorId.Set? && u.contractorId.value.Some? ==>
      r.Some? && r.value.contractorId == u.contractorId.value.value
    ensures r.Some? ==>
      && r.value.tenderId == Apply(u.tenderId, a.tenderId)
      && r.value.procurementMethod == Apply(u.procurementMethod, a.procurementMethod)
      && r.value.contractValue == Apply(u.contractValue, a.contractValue)
      && r.value.awardDate == Apply(u.awardDate, a.awardDate)
      && r.value.contractorShareHint == Apply(u.contractorShareHint, a.contractorShareHint)
      && r.value.performanceFlag == Apply(u.performanceFlag, a.performanceFlag)
      && r.value.performanceFlagReason == Apply(u.performanceFlagReason, a.performanceFlagReason)
  {
    match u.contractorId
    case Unset => Some(Patched(a, a.contractorId, u))
    case Set(c) =>
      match c
      case None => None
      case Some(v) => Some(Patched(a, v, u))
  }

  /** `a` with contractor `contractor` and the other sent fields of `u`. */
  function Patched(a: Award, contractor: int, u: AwardUpdate): Award
  {
    Award(a.id, a.projectId, contractor, Apply(u.tenderId, a.tenderId),
      Apply(u.procurementMethod, a.procurementMethod), Apply(u.contractValue, a.contractValue),
      Apply(u.awardDate, a.awardDate), Apply(u.contractorShareHint, a.contractorShareHint),
      Apply(u.performanceFlag, a.performanceFlag), Apply(u.performanceFlagReason, a.performanceFlagReason),
      a.createdAt)
  }

  /** An accepted update leaves every project's award where it was, so the one-per-project rule holds. */
  lemma UpdateKeepsOnePerProject(awards: map<int, Award>, id: int, u: AwardUpdate)
    requires OneAwardPerProject(awards) && id in awards && Updated(awards[id], u).Some?
    ensures OneAwardPerProject(awards[id := Updated(awards[id], u).value])
  {
  }

  method UpdateAward(db: Db, id: int, u: AwardUpdate) returns (r: Result<Award, HttpError>)
    requires AwardsValid(db.awards, db.nextAwardId) && OneAwardPerProject(db.awards)
    modifies db`awards
    ensures AwardsValid(db.awards, db.nextAwardId) && OneAwardPerProject(db.awards)
    ensures id !in old(db.awards) ==> r == Err(AwardNotFound) && db.awards == old(db.awards)
    ensures id in old(db.awards) && Updated(old(db.awards)[id], u).None? ==>
      r == Err(InternalError) && db.awards == old(db.awards)
    ensures id in old(db.awards) && Updated(old(db.awards)[id], u).Some? ==>
      && r == Ok(Updated(old(db.awards)[id], u).value)
      && db.awards == old(db.awards)[id := Updated(old(db.awards)[id], u).value]
  {
    if id !in db.awards {
      return Err(AwardNotFound);
    }
    var a := Updated(db.awards[id], u);
    if a.None? {
      return Err(InternalError);
    }
    UpdateKeepsOnePerProject(db.awards, id, u);
    db.awards := db.awards[id := a.value];
    r := Ok(a.value);
  }

  // ---------------------------------------------------------------------------
  // delete_award

  const AwardDeleted := "Award deleted"

  method DeleteAward(db: Db, id: int) returns (r: Result<string, HttpError>)
    requires AwardsValid(db.awards, db.nextAwardId) && OneAwardPerProject(db.awards)
    modifies db`awards
    ensures AwardsValid(db.awards, db.nextAwardId) && OneAwardPerProject(db.awards)
    ensures id !in old(db.awards) ==> r == Err(AwardNotFound) && db.awards == old(db.awards)
    ensures id in old(db.awards) ==> r == Ok(AwardDeleted) && db.awards == old(db.awards) - {id}
  {
    if id !in db.awards {
      return Err(AwardNotFound);
    }
    db.awards := db.awards - {id};
    r := Ok(AwardDeleted);
  }
}
