/** The contractor endpoints (backend/api/contractor_router.py). */
module ContractorRouter {
  import opened Common
  import opened Models

  const ContractorNotFound := HttpError(404, "Contractor not found")

  /** `ContractorCreate`: `name` is required, the rest optional. */
  datatype ContractorCreate = ContractorCreate(
    name: string,
    phone: Option<string>,
    email: Option<string>,
    registrationNo: Option<string>,
    address: Option<string>)

  /**
   * `ContractorUpdate` as `model_dump(exclude_unset=True)` sees it. A `name`
   * sent as null passes the schema and is then refused by the NOT NULL column.
   */
  datatype ContractorUpdate = ContractorUpdate(
    name: Patch<Option<string>>,
    phone: Patch<Option<string>>,
    email: Patch<Option<string>>,
    registrationNo: Patch<Option<string>>,
    address: Patch<Option<string>>)

  /** `select(Contractor).order_by(Contractor.id)`. */
  function ListContractors(contractors: map<int, Contractor>, next: int): (r: seq<Contractor>)
    requires ContractorsValid(contractors, next)
    ensures forall i, j :: 0 <= i < j < |r| ==> r[i].id < r[j].id
    ensures forall i :: 0 <= i < |r| ==> r[i].id in contractors && contractors[r[i].id] == r[i]
    ensures forall k :: k in contractors ==> contractors[k] in r
  {
    forall k | k in contractors
      ensures contractors[k] in ValuesAsc(contractors, 1, next)
    {
      ValuesAscComplete(contractors, 1, next, k);
    }
    ValuesAsc(contractors, 1, next)
  }

  function GetContractor(contractors: map<int, Contractor>, id: int): (r: Result<Contractor, HttpError>)
    ensures r.Ok? <==> id in contractors
    ensures r.Ok? ==> r.value == contractors[id]
    ensures r.Err? ==> r.error == ContractorNotFound
  {
    if id in contractors then Ok(contractors[id]) else Err(ContractorNotFound)
  }

  /** The row `create_contractor` builds: exactly the five body fields, a fresh id and the time. */
  function NewContractor(id: int, b: ContractorCreate, now: Timestamp): (c: Contractor)
    ensures c.id == id && c.createdAt == now
    ensures c.name == b.name && c.phone == b.phone && c.email == b.email
    ensures c.registrationNo == b.registrationNo && c.address == b.address
  {
    Contractor(id, b.name, b.phone, b.email, b.registrationNo, b.address, now)
  }

  method CreateContractor(db: Db, b: ContractorCreate, now: Timestamp) returns (c: Contractor)
    requires ContractorsValid(db.contractors, db.nextContractorId)
    modifies db`contractors, db`nextContractorId
    ensures ContractorsValid(db.contractors, db.nextContractorId)
    ensures c == NewContractor(old(db.nextContractorId), b, now)
    ensures db.contractors == old(db.contractors)[c.id := c]
    ensures db.nextContractorId == old(db.nextContractorId) + 1
  {
    c := NewContractor(db.nextContractorId, b, now);
    db.contractors := db.contractors[c.id := c];
    db.nextContractorId := db.nextContractorId + 1;
  }

  /** The `setattr` loop over the sent fields; None when `name` is set to null. */
  function Updated(c: Contractor, u: ContractorUpdate): (r: Option<Contractor>)
    ensures r.None? <==> u.name == Set(None)
    ensures r.Some? ==> r.value.id == c.id && r.value.createdAt == c.createdAt
    ensures r.Some? && u.name.Unset? ==> r.value.name == c.name
    ensures u.name.Set? && u.name.value.Some? ==> r.Some? && r.value.name == u.name.value.value
    ensures r.Some? ==> r.value.phone == Apply(u.phone, c.phone) && r.value.email == Apply(u.email, c.email)
    ensures r.Some? ==> r.value.registrationNo == Apply(u.registrationNo, c.registrationNo)
    ensures r.Some? ==> r.value.address == Apply(u.address, c.address)
  {
    match u.name
    case Unset => Some(Patched(c, c.name, u))
    case Set(n) =>
      match n
      case None => None
      case Some(v) => Some(Patched(c, v, u))
  }

  function Patched(c: Contractor, name: string, u: ContractorUpdate): Contractor
  {
    Contractor(c.id, name, Apply(u.phone, c.phone), Apply(u.email, c.email),
      Apply(u.registrationNo, c.registrationNo), Apply(u.address, c.address), c.createdAt)
  }

  /** An update that sends nothing changes nothing. */
  lemma EmptyUpdateIsIdentity(c: Contractor)
    ensures Updated(c, ContractorUpdate(Unset, Unset, Unset, Unset, Unset)) == Some(c)
  {
  }

  method UpdateContractor(db: Db, id: int, u: ContractorUpdate) returns (r: Result<Contractor, HttpError>)
    requires ContractorsValid(db.contractors, db.nextContractorId)
    modifies db`contractors
    ensures ContractorsValid(db.contractors, db.nextContractorId)
    ensures id !in old(db.contractors) ==> r == Err(ContractorNotFound) && db.contractors == old(db.contractors)
    ensures id in old(db.contractors) && Updated(old(db.contractors)[id], u).None? ==>
      r == Err(InternalError) && db.contractors == old(db.contractors)
    ensures id in old(db.contractors) && Updated(old(db.contractors)[id], u).Some? ==>
      && r == Ok(Updated(old(db.contractors)[id], u).value)
      && db.contractors == old(db.contractors)[id := Updated(old(db.contractors)[id], u).value]
  {
    if id !in db.contractors {
      return Err(ContractorNotFound);
    }
    var c := Updated(db.contractors[id], u);
    if c.None? {
      return Err(InternalError);
    }
    db.contractors := db.contractors[id := c.value];
    r := Ok(c.value);
  }

  /**
   * `delete_contractor`. The contractor's awards are loaded through
   * `Contractor.awards` and their NOT NULL `contractor_id` is set to NULL, so
   * the commit fails with nothing deleted when any award refers to it.
   */
  method DeleteContractor(db: Db, id: int) returns (r: Result<(), HttpError>)
    requires ContractorsValid(db.contractors, db.nextContractorId)
    modifies db`contractors
    ensures ContractorsValid(db.contractors, db.nextContractorId)
    ensures id !in old(db.contractors) ==> r == Err(ContractorNotFound) && db.contractors == old(db.contractors)
    ensures id in old(db.contractors) && AwardOfContractorExists(db.awards, id) ==>
      r == Err(InternalError) && db.contractors == old(db.contractors)
    ensures id in old(db.contractors) && !AwardOfContractorExists(db.awards, id) ==>
      r == Ok(()) && db.contractors == old(db.contractors) - {id}
  {
    if id !in db.contractors {
      return Err(ContractorNotFound);
    }
    if AwardOfContractorExists(db.awards, id) {
      return Err(InternalError);
    }
    db.contractors := db.contractors - {id};
    r := Ok(());
  }
}
