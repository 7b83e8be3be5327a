/**
 * The project endpoints (backend/api/project_router.py): create, the filtered
 * and sorted listing joined with constituency, award and contractor, the
 * single-project read, the partial update and delete.
 */
module ProjectRouter {
  import opened Common
  import opened Models

  const ProjectNotFound := HttpError(404, "Project not found")
  const ConstituencyNotFound := HttpError(404, "Constituency not found")
  /** FastAPI's answer to a query parameter outside its declared bounds (the detail is its error list). */
  const QueryInvalid := HttpError(422, "Unprocessable Entity")

  // ---------------------------------------------------------------------------
  // create_project

  /** The row `create_project` stores for body `p`: a fresh id and `last_updated` now. */
  function Created(p: Project, id: int, now: Timestamp): Project
  {
    p.(id := id, lastUpdated := now)
  }

  method CreateProject(db: Db, p: Project, now: Timestamp) returns (r: Result<Project, HttpError>)
    requires ProjectsValid(db.projects, db.nextProjectId)
    modifies db`projects, db`nextProjectId
    ensures ProjectsValid(db.projects, db.nextProjectId)
    ensures FindConstituency(db.constituencies, p.constituencyCode).None? ==>
      r == Err(ConstituencyNotFound) && db.projects == old(db.projects) && db.nextProjectId == old(db.nextProjectId)
    ensures FindConstituency(db.constituencies, p.constituencyCode).Some? ==>
      var stored := Created(p, old(db.nextProjectId), now);
      && r == Ok(stored)
      && db.projects == old(db.projects)[stored.id := stored]
      && db.nextProjectId == old(db.nextProjectId) + 1
  {
    if FindConstituency(db.constituencies, p.constituencyCode).None? {
      return Err(ConstituencyNotFound);
    }
    var stored := Created(p, db.nextProjectId, now);
    db.projects := db.projects[stored.id := stored];
    db.nextProjectId := db.nextProjectId + 1;
    r := Ok(stored);
  }

  // ---------------------------------------------------------------------------
  // The joined rows of read_projects and read_project

  /** The tables the project queries read. */
  datatype Tables = Tables(
    projects: map<int, Project>,
    nextProjectId: int,
    constituencies: seq<Constituency>,
    awards: map<int, Award>,
    nextAwardId: int,
    contractors: map<int, Contractor>)

  /** One row of `Project JOIN Constituency LEFT JOIN ProcurementAward LEFT JOIN Contractor`. */
  datatype Joined = Joined(project: Project, constituency: Constituency, award: Option<Award>, contractor: Option<Contractor>)

  /** The awards among `ids` that belong to project `pid`, in the order of `ids`. */
  function AwardsFor(awards: map<int, Award>, ids: seq<int>, pid: int): (r: seq<Award>)
    ensures forall i :: 0 <= i < |r| ==> r[i].projectId == pid
    ensures forall i :: 0 <= i < |r| ==> r[i] in awards.Values
    ensures forall k :: k in ids && k in awards && awards[k].projectId == pid ==> awards[k] in r
  {
    if ids == [] then []
    else
      var rest := AwardsFor(awards, ids[1..], pid);
      if ids[0] in awards && awards[ids[0]].projectId == pid then [awards[ids[0]]] + rest else rest
  }

  /** `LEFT JOIN Contractor ON Contractor.id == award.contractor_id`. */
  function ContractorOf(contractors: map<int, Contractor>, a: Award): (r: Option<Contractor>)
    ensures r.Some? <==> a.contractorId in contractors
    ensures r.Some? ==> r.value == contractors[a.contractorId]
  {
    if a.contractorId in contractors then Some(contractors[a.contractorId]) else None
  }

  /** The joined rows of one project: one per award of the project, or one without an award. */
  function JoinProject(t: Tables, p: Project, c: Constituency): (r: seq<Joined>)
    ensures |r| >= 1
    ensures forall i :: 0 <= i < |r| ==> r[i].project == p && r[i].constituency == c
    ensures forall i :: 0 <= i < |r| && r[i].award.None? ==> r[i].contractor.None?
    ensures forall i :: 0 <= i < |r| && r[i].award.Some? ==>
      r[i].award.value.projectId == p.id && r[i].award.value in t.awards.Values
      && r[i].contractor == ContractorOf(t.contractors, r[i].award.value)
  {
    var own := AwardsFor(t.awards, KeysAsc(t.awards, 1, t.nextAwardId), p.id);
    if own == [] then [Joined(p, c, None, None)]
    else seq(|own|, i requires 0 <= i < |own| => Joined(p, c, Some(own[i]), ContractorOf(t.contractors, own[i])))
  }

  /** A project without an award yields exactly one row, with no award and no contractor. */
  lemma JoinWithoutAward(t: Tables, p: Project, c: Constituency)
    requires AwardsValid(t.awards, t.nextAwardId)
    requires forall k :: k in t.awards ==> t.awards[k].projectId != p.id
    ensures JoinProject(t, p, c) == [Joined(p, c, None, None)]
  {
    AwardsForNone(t.awards, KeysAsc(t.awards, 1, t.nextAwardId), p.id);
  }

  lemma {:induction false} AwardsForNone(awards: map<int, Award>, ids: seq<int>, pid: int)
    requires forall k :: k in ids && k in awards ==> awards[k].projectId != pid
    ensures AwardsFor(awards, ids, pid) == []
  {
    if ids != [] {
      var k := ids[0];
      assert k in ids;
      if k in awards {
        assert awards[k].projectId != pid;
      }
      assert forall j :: j in ids[1..] ==> j in ids;
      AwardsForNone(awards, ids[1..], pid);
    }
  }

  lemma {:induction false} AwardsForAtMostOne(awards: map<int, Award>, ids: seq<int>, pid: int)
    requires OneAwardPerProject(awards)
    requires forall i, j :: 0 <= i < j < |ids| ==> ids[i] < ids[j]
    ensures |AwardsFor(awards, ids, pid)| <= 1
  {
    if ids != [] {
      if ids[0] in awards && awards[ids[0]].projectId == pid {
        AwardsForNone(awards, ids[1..], pid);
      } else {
        AwardsForAtMostOne(awards, ids[1..], pid);
      }
    }
  }

  /** While the award router keeps one award per project, every project yields exactly one joined row. */
  lemma JoinOneRow(t: Tables, p: Project, c: Constituency)
    requires OneAwardPerProject(t.awards)
    ensures |JoinProject(t, p, c)| == 1
  {
    AwardsForAtMostOne(t.awards, KeysAsc(t.awards, 1, t.nextAwardId), p.id);
  }

  /** The list filters: each one given narrows the result, and they combine with AND. */
  datatype Filters = Filters(constituencyCode: Option<string>, category: Option<Category>, status: Option<ProjectStatus>)

  /** The `where` clauses: an absent or empty code, or an absent enum, adds no condition. */
  predicate Matches(f: Filters, p: Project)
  {
    && (f.constituencyCode.None? || f.constituencyCode.value == [] || p.constituencyCode == f.constituencyCode.value)
    && (f.category.None? || p.category == f.category.value)
    && (f.status.None? || p.status == f.status.value)
  }

  /** The project with id `k` takes part in the inner join and passes the filters. */
  predicate Listed(t: Tables, f: Filters, k: int)
  {
    k in t.projects && Matches(f, t.projects[k]) && FindConstituency(t.constituencies, t.projects[k].constituencyCode).Some?
  }

  /** The joined rows of the projects `ids` (in that order) that pass the filters. */
  function JoinAll(t: Tables, f: Filters, ids: seq<int>): (r: seq<Joined>)
    ensures forall i :: 0 <= i < |r| ==> r[i].project in t.projects.Values && Matches(f, r[i].project)
  {
    if ids == [] then []
    else
      var rest := JoinAll(t, f, ids[1..]);
      if Listed(t, f, ids[0]) then
        var p := t.projects[ids[0]];
        var c := t.constituencies[FindConstituency(t.constituencies, p.constituencyCode).value];
        JoinProject(t, p, c) + rest
      else rest
  }

  /** Every listed project among `ids` contributes a row. */
  lemma {:induction false} JoinAllComplete(t: Tables, f: Filters, ids: seq<int>, k: int)
    requires k in ids && Listed(t, f, k)
    ensures exists i :: 0 <= i < |JoinAll(t, f, ids)| && JoinAll(t, f, ids)[i].project == t.projects[k]
  {
    var rest := JoinAll(t, f, ids[1..]);
    if ids[0] == k {
      var p := t.projects[k];
      var c := t.constituencies[FindConstituency(t.constituencies, p.constituencyCode).value];
      assert JoinAll(t, f, ids)[0] == JoinProject(t, p, c)[0];
    } else {
      JoinAllComplete(t, f, ids[1..], k);
      var i :| 0 <= i < |rest| && rest[i].project == t.projects[k];
      var prefix := JoinAll(t, f, ids)[..|JoinAll(t, f, ids)| - |rest|];
      assert JoinAll(t, f, ids) == prefix + rest;
      assert JoinAll(t, f, ids)[|prefix| + i] == rest[i];
    }
  }

  /** Every row carries its project's own constituency. */
  lemma {:induction false} JoinAllConstituency(t: Tables, f: Filters, ids: seq<int>, i: int)
    requires 0 <= i < |JoinAll(t, f, ids)|
    ensures var j := JoinAll(t, f, ids)[i];
      FindConstituency(t.constituencies, j.project.constituencyCode).Some?
      && j.constituency == t.constituencies[FindConstituency(t.constituencies, j.project.constituencyCode).value]
  {
    var rest := JoinAll(t, f, ids[1..]);
    if Listed(t, f, ids[0]) {
      var p := t.projects[ids[0]];
      var c := t.constituencies[FindConstituency(t.constituencies, p.constituencyCode).value];
      var head := JoinProject(t, p, c);
      if i >= |head| {
        JoinAllConstituency(t, f, ids[1..], i - |head|);
        assert JoinAll(t, f, ids)[i] == rest[i - |head|];
      }
    } else {
      JoinAllConstituency(t, f, ids[1..], i);
    }
  }

  // ---------------------------------------------------------------------------
  // Sorting

  datatype SortKey = IdAsc | IdDesc | TitleAsc | TitleDesc | UpdatedAsc | UpdatedDesc

  /** The `sort` query string: five names are recognised, every other string is `last_updated` descending. */
  function SortKeyOf(s: string): (k: SortKey)
    ensures s == "id_asc" <==> k == IdAsc
    ensures s == "id_desc" <==> k == IdDesc
    ensures s == "title_asc" <==> k == TitleAsc
    ensures s == "title_desc" <==> k == TitleDesc
    ensures s == "last_updated_asc" <==> k == UpdatedAsc
    ensures k == UpdatedDesc <==> s !in ["id_asc", "id_desc", "title_asc", "title_desc", "last_updated_asc"]
  {
    if s == "id_asc" then IdAsc
    else if s == "id_desc" then IdDesc
    else if s == "title_asc" then TitleAsc
    else if s == "title_desc" then TitleDesc
    else if s == "last_updated_asc" then UpdatedAsc
    else UpdatedDesc
  }

  /** `a` may precede `b` under `ORDER BY` key `k`. */
  predicate Before(k: SortKey, a: Project, b: Project)
  {
    match k
    case IdAsc => a.id <= b.id
    case IdDesc => a.id >= b.id
    case TitleAsc => StrLe(a.title, b.title)
    case TitleDesc => StrLe(b.title, a.title)
    case UpdatedAsc => a.lastUpdated <= b.lastUpdated
    case UpdatedDesc => a.lastUpdated >= b.lastUpdated
  }

  lemma BeforeTotal(k: SortKey, a: Project, b: Project)
    ensures Before(k, a, b) || Before(k, b, a)
  {
    if k.TitleAsc? || k.TitleDesc? {
      StrLeTotal(a.title, b.title);
    }
  }

  lemma BeforeTrans(k: SortKey, a: Project, b: Project, c: Project)
    requires Before(k, a, b) && Before(k, b, c)
    ensures Before(k, a, c)
  {
    if k.TitleAsc? {
      StrLeTrans(a.title, b.title, c.title);
    } else if k.TitleDesc? {
      StrLeTrans(c.title, b.title, a.title);
    }
  }

  predicate SortedBy(k: SortKey, rows: seq<Joined>)
  {
    forall i, j :: 0 <= i < j < |rows| ==> Before(k, rows[i].project, rows[j].project)
  }

  function Insert(k: SortKey, x: Joined, rows: seq<Joined>): (r: seq<Joined>)
    ensures multiset(r) == multiset(rows) + multiset{x}
  {
    if rows == [] then [x]
    else if Before(k, x.project, rows[0].project) then [x] + rows
    else
      assert rows == [rows[0]] + rows[1..];
      [rows[0]] + Insert(k, x, rows[1..])
  }

  /** `ORDER BY` on the chosen key (rows with equal keys in an order of the model's choosing). */
  function SortRows(k: SortKey, rows: seq<Joined>): (r: seq<Joined>)
    ensures multiset(r) == multiset(rows)
  {
    if rows == [] then []
    else
      assert rows == [rows[0]] + rows[1..];
      Insert(k, rows[0], SortRows(k, rows[1..]))
  }

  /** A row that may precede every row of a sorted sequence can be put in front of it. */
  lemma ConsSorted(k: SortKey, h: Joined, rows: seq<Joined>)
    requires SortedBy(k, rows)
    requires forall j :: 0 <= j < |rows| ==> Before(k, h.project, rows[j].project)
    ensures SortedBy(k, [h] + rows)
  {
    var r := [h] + rows;
    forall i, j | 0 <= i < j < |r|
      ensures Before(k, r[i].project, r[j].project)
    {
      if i > 0 {
        assert r[i] == rows[i - 1] && r[j] == rows[j - 1];
      }
    }
  }

  /** The head of a sorted sequence may precede everything inserting `x` into its tail yields. */
  lemma HeadBeforeInsert(k: SortKey, x: Joined, rows: seq<Joined>)
    requires rows != [] && SortedBy(k, rows) && Before(k, rows[0].project, x.project)
    ensures forall j :: 0 <= j < |Insert(k, x, rows[1..])| ==> Before(k, rows[0].project, Insert(k, x, rows[1..])[j].project)
  {
    var tail := Insert(k, x, rows[1..]);
    forall j | 0 <= j < |tail|
      ensures Before(k, rows[0].project, tail[j].project)
    {
      assert tail[j] in multiset(rows[1..]) + multiset{x};
      if tail[j] != x {
        var m :| 0 <= m < |rows[1..]| && rows[1..][m] == tail[j];
        assert rows[m + 1] == tail[j];
      }
    }
  }

  lemma {:induction false} InsertSorted(k: SortKey, x: Joined, rows: seq<Joined>)
    requires SortedBy(k, rows)
    ensures SortedBy(k, Insert(k, x, rows))
  {
    if rows == [] {
    } else if Before(k, x.project, rows[0].project) {
      forall j | 0 <= j < |rows|
        ensures Before(k, x.project, rows[j].project)
      {
        if j > 0 {
          BeforeTrans(k, x.project, rows[0].project, rows[j].project);
        }
      }
      ConsSorted(k, x, rows);
    } else {
      BeforeTotal(k, x.project, rows[0].project);
      InsertSorted(k, x, rows[1..]);
      HeadBeforeInsert(k, x, rows);
      ConsSorted(k, rows[0], Insert(k, x, rows[1..]));
    }
  }

  lemma {:induction false} SortRowsSorted(k: SortKey, rows: seq<Joined>)
    ensures SortedBy(k, SortRows(k, rows))
  {
    if rows != [] {
      SortRowsSorted(k, rows[1..]);
      InsertSorted(k, rows[0], SortRows(k, rows[1..]));
    }
  }

  // ---------------------------------------------------------------------------
  // Pagination and flattening

  /** `.offset(offset).limit(limit)`. */
  function Page<T>(rows: seq<T>, offset: nat, limit: nat): (r: seq<T>)
    ensures |r| <= limit
    ensures |r| == if offset >= |rows| then 0 else Min(limit, |rows| - offset)
    ensures forall i :: 0 <= i < |r| ==> r[i] == rows[offset + i]
  {
    if offset >= |rows| then []
    else rows[offset..offset + Min(limit, |rows| - offset)]
  }

  function Min(a: int, b: int): int { if a <= b then a else b }

  /** `ProjectReadWithConstituency`: the project with its constituency and award columns. */
  datatype ProjectRead = ProjectRead(
    project: Project,
    constituencyName: string,
    county: string,
    mpName: string,
    contractorName: Option<string>,
    tenderId: Option<string>,
    procurementMethod: Option<string>,
    contractValue: Option<real>,
    awardDate: Option<Timestamp>)

  /** One joined row as the dict the handlers build from it. */
  function Flatten(j: Joined): (r: ProjectRead)
    ensures r.project == j.project
    ensures r.constituencyName == j.constituency.name && r.county == j.constituency.county
    ensures r.mpName == j.constituency.mpName
    ensures j.award.None? ==>
      r.tenderId.None? && r.procurementMethod.None? && r.contractValue.None? && r.awardDate.None?
    ensures j.contractor.None? ==> r.contractorName.None?
    ensures j.award.Some? ==> r.tenderId == j.award.value.tenderId && r.awardDate == j.award.value.awardDate
    ensures j.award.Some? ==>
      r.procurementMethod == j.award.value.procurementMethod && r.contractValue == j.award.value.contractValue
    ensures j.contractor.Some? ==> r.contractorName == Some(j.contractor.value.name)
  {
    var c := j.constituency;
    var name := if j.contractor.Some? then Some(j.contractor.value.name) else None;
    match j.award
    case None => ProjectRead(j.project, c.name, c.county, c.mpName, name, None, None, None, None)
    case Some(a) =>
      ProjectRead(j.project, c.name, c.county, c.mpName, name, a.tenderId, a.procurementMethod, a.contractValue, a.awardDate)
  }

  // ---------------------------------------------------------------------------
  // read_projects

  datatype ProjectQuery = ProjectQuery(filters: Filters, sort: string, offset: int, limit: int)

  /** The query-parameter bounds `offset >= 0` and `1 <= limit <= 100`. */
  predicate QueryInBounds(q: ProjectQuery)
  {
    0 <= q.offset && 1 <= q.limit <= 100
  }

  /** The rows `read_projects` fetches: joined, filtered, sorted, then paged. */
  function Selected(t: Tables, q: ProjectQuery): (r: seq<Joined>)
    requires QueryInBounds(q)
    ensures |r| <= q.limit
  {
    Page(SortRows(SortKeyOf(q.sort), JoinAll(t, q.filters, KeysAsc(t.projects, 1, t.nextProjectId))), q.offset, q.limit)
  }

  /** The list of dicts the handler's loop builds from `rows`. */
  function FlattenAll(rows: seq<Joined>): (r: seq<ProjectRead>)
    ensures |r| == |rows|
    ensures forall i :: 0 <= i < |r| ==> r[i] == Flatten(rows[i])
  {
    seq(|rows|, i requires 0 <= i < |rows| => Flatten(rows[i]))
  }

  method ReadProjects(db: Db, q: ProjectQuery) returns (r: Result<seq<ProjectRead>, HttpError>)
    ensures !QueryInBounds(q) ==> r == Err(QueryInvalid)
    ensures QueryInBounds(q) ==> r == Ok(FlattenAll(Selected(Tables(db.projects, db.nextProjectId,
      db.constituencies, db.awards, db.nextAwardId, db.contractors), q)))
  {
    if !QueryInBounds(q) {
      return Err(QueryInvalid);
    }
    var t := Tables(db.projects, db.nextProjectId, db.constituencies, db.awards, db.nextAwardId, db.contractors);
    var projects := FlattenRows(Selected(t, q));
    r := Ok(projects);
  }

  /** The handler's loop: one flattened dict appended per fetched row. */
  method FlattenRows(results: seq<Joined>) returns (projects: seq<ProjectRead>)
    ensures projects == FlattenAll(results)
  {
    projects := [];
    for i := 0 to |results|
      invariant |projects| == i
      invariant forall m :: 0 <= m < i ==> projects[m] == Flatten(results[m])
    {
      projects := projects + [Flatten(results[i])];
    }
  }

  /** Every listed row passes all the filters, and carries its own constituency's columns. */
  lemma ListingRowFacts(t: Tables, q: ProjectQuery, i: int)
    requires QueryInBounds(q) && 0 <= i < |FlattenAll(Selected(t, q))|
    ensures var row := FlattenAll(Selected(t, q))[i];
      && Matches(q.filters, row.project)
      && row.project in t.projects.Values
      && FindConstituency(t.constituencies, row.project.constituencyCode).Some?
      && var c := t.constituencies[FindConstituency(t.constituencies, row.project.constituencyCode).value];
         row.constituencyName == c.name && row.county == c.county && row.mpName == c.mpName
  {
    var ids := KeysAsc(t.projects, 1, t.nextProjectId);
    var joined := JoinAll(t, q.filters, ids);
    var sorted := SortRows(SortKeyOf(q.sort), joined);
    var sel := Selected(t, q);
    assert sel[i] == sorted[q.offset + i];
    assert sorted[q.offset + i] in multiset(joined);
    var n :| 0 <= n < |joined| && joined[n] == sel[i];
    JoinAllConstituency(t, q.filters, ids, n);
  }

  /** The listing respects the requested order. */
  lemma ListingSorted(t: Tables, q: ProjectQuery, i: int, j: int)
    requires QueryInBounds(q) && 0 <= i < j < |FlattenAll(Selected(t, q))|
    ensures Before(SortKeyOf(q.sort), FlattenAll(Selected(t, q))[i].project, FlattenAll(Selected(t, q))[j].project)
  {
    var joined := JoinAll(t, q.filters, KeysAsc(t.projects, 1, t.nextProjectId));
    SortRowsSorted(SortKeyOf(q.sort), joined);
    var sorted := SortRows(SortKeyOf(q.sort), joined);
    assert Selected(t, q)[i] == sorted[q.offset + i];
    assert Selected(t, q)[j] == sorted[q.offset + j];
  }

  /** Before paging, every project that passes the filters appears. */
  lemma ListingComplete(t: Tables, q: ProjectQuery, k: int)
    requires Listed(t, q.filters, k) && IdsBelow(t.projects, t.nextProjectId)
    ensures exists row :: row in SortRows(SortKeyOf(q.sort), JoinAll(t, q.filters, KeysAsc(t.projects, 1, t.nextProjectId)))
                       && row.project == t.projects[k]
  {
    var ids := KeysAsc(t.projects, 1, t.nextProjectId);
    var joined := JoinAll(t, q.filters, ids);
    JoinAllComplete(t, q.filters, ids, k);
    var i :| 0 <= i < |joined| && joined[i].project == t.projects[k];
    assert joined[i] in multiset(SortRows(SortKeyOf(q.sort), joined));
  }

  // ---------------------------------------------------------------------------
  // read_project

  /** `read_project`: the first joined row of that id, or 404 when the join has none. */
  function ReadProject(t: Tables, id: int): (r: Result<ProjectRead, HttpError>)
    ensures r.Err? <==> id !in t.projects || FindConstituency(t.constituencies, t.projects[id].constituencyCode).None?
    ensures r.Err? ==> r.error == ProjectNotFound
    ensures r.Ok? ==> r.value.project == t.projects[id]
    ensures r.Ok? ==>
      var c := t.constituencies[FindConstituency(t.constituencies, t.projects[id].constituencyCode).value];
      r.value.constituencyName == c.name && r.value.county == c.county && r.value.mpName == c.mpName
  {
    if id !in t.projects then Err(ProjectNotFound)
    else
      match FindConstituency(t.constituencies, t.projects[id].constituencyCode)
      case None => Err(ProjectNotFound)
      case Some(i) => Ok(Flatten(JoinProject(t, t.projects[id], t.constituencies[i])[0]))
  }

  /** A project with no award reads back with every award column empty. */
  lemma ReadProjectWithoutAward(t: Tables, id: int)
    requires ProjectsValid(t.projects, t.nextProjectId) && AwardsValid(t.awards, t.nextAwardId)
    requires ReadProject(t, id).Ok?
    requires forall k :: k in t.awards ==> t.awards[k].projectId != id
    ensures var r := ReadProject(t, id).value;
      r.contractorName.None? && r.tenderId.None? && r.procurementMethod.None? && r.contractValue.None? && r.awardDate.None?
  {
    var c := t.constituencies[FindConstituency(t.constituencies, t.projects[id].constituencyCode).value];
    JoinWithoutAward(t, t.projects[id], c);
  }

  /**
   * A project with awards reads back with the columns of its award of least id
   * (the first row of the outer join), and the name of that award's contractor
   * when the contractor exists.
   */
  lemma ReadProjectWithAward(t: Tables, id: int, k: int)
    requires ProjectsValid(t.projects, t.nextProjectId) && AwardsValid(t.awards, t.nextAwardId)
    requires ReadProject(t, id).Ok?
    requires k in t.awards && t.awards[k].projectId == id
    requires forall j :: j in t.awards && t.awards[j].projectId == id ==> k <= j
    ensures var r := ReadProject(t, id).value;
      var a := t.awards[k];
      && r.tenderId == a.tenderId && r.procurementMethod == a.procurementMethod
      && r.contractValue == a.contractValue && r.awardDate == a.awardDate
      && r.contractorName == (if a.contractorId in t.contractors then Some(t.contractors[a.contractorId].name) else None)
  {
    var ids := KeysAsc(t.awards, 1, t.nextAwardId);
    assert k in ids;
    var m :| 0 <= m < |ids| && ids[m] == k;
    forall j | 0 <= j < m
      ensures !(ids[j] in t.awards && t.awards[ids[j]].projectId == id)
    {
      assert ids[j] < ids[m];
    }
    AwardsForFirst(t.awards, ids, id, m);
    var p := t.projects[id];
    var c := t.constituencies[FindConstituency(t.constituencies, p.constituencyCode).value];
    var own := AwardsFor(t.awards, ids, id);
    assert own != [] && own[0] == t.awards[k];
    assert p.id == id;
    assert JoinProject(t, p, c)[0] == Joined(p, c, Some(t.awards[k]), ContractorOf(t.contractors, t.awards[k]));
    assert ReadProject(t, id) == Ok(Flatten(JoinProject(t, p, c)[0]));
  }

  /** The first award of `pid` among `ids` is the one at the first matching position. */
  lemma {:induction false} AwardsForFirst(awards: map<int, Award>, ids: seq<int>, pid: int, m: int)
    requires 0 <= m < |ids| && ids[m] in awards && awards[ids[m]].projectId == pid
    requires forall j :: 0 <= j < m ==> !(ids[j] in awards && awards[ids[j]].projectId == pid)
    ensures AwardsFor(awards, ids, pid) != [] && AwardsFor(awards, ids, pid)[0] == awards[ids[m]]
  {
    if m > 0 {
      assert forall j :: 0 <= j < m - 1 ==> ids[1..][j] == ids[j + 1];
      AwardsForFirst(awards, ids[1..], pid, m - 1);
    }
  }

  // ---------------------------------------------------------------------------
  // update_project

  /**
   * The body of `update_project` after validation: the fields without a
   * default are always present, the others only when the client sent them.
   */
  datatype ProjectUpdate = ProjectUpdate(
    title: string,
    category: Category,
    budget: real,
    constituencyCode: string,
    description: Patch<Option<string>>,
    status: Patch<ProjectStatus>,
    spent: Patch<Option<real>>,
    progress: Patch<Option<real>>,
    startDate: Patch<Option<Timestamp>>,
    completionDate: Patch<Option<Timestamp>>,
    isMock: Patch<bool>,
    sourceName: Patch<Option<string>>,
    sourceUrl: Patch<Option<string>>,
    sourceDocRef: Patch<Option<string>>)

  /** The `setattr` loop over the sent fields, then `last_updated = now`. */
  function Updated(p: Project, u: ProjectUpdate, now: Timestamp): (r: Project)
    ensures r.id == p.id && r.lastUpdated == now
    ensures r.title == u.title && r.category == u.category && r.budget == u.budget
    ensures r.constituencyCode == u.constituencyCode
    ensures r.description == Apply(u.description, p.description) && r.status == Apply(u.status, p.status)
    ensures r.spent == Apply(u.spent, p.spent) && r.progress == Apply(u.progress, p.progress)
    ensures r.startDate == Apply(u.startDate, p.startDate)
    ensures r.completionDate == Apply(u.completionDate, p.completionDate)
    ensures r.isMock == Apply(u.isMock, p.isMock) && r.sourceName == Apply(u.sourceName, p.sourceName)
    ensures r.sourceUrl == Apply(u.sourceUrl, p.sourceUrl) && r.sourceDocRef == Apply(u.sourceDocRef, p.sourceDocRef)
  {
    Project(p.id, u.title, Apply(u.description, p.description), u.category, Apply(u.status, p.status), u.budget,
      Apply(u.spent, p.spent), Apply(u.progress, p.progress), u.constituencyCode,
      Apply(u.startDate, p.startDate), Apply(u.completionDate, p.completionDate), Apply(u.isMock, p.isMock),
      Apply(u.sourceName, p.sourceName), Apply(u.sourceUrl, p.sourceUrl), Apply(u.sourceDocRef, p.sourceDocRef), now)
  }

  /** Applying the same update twice, at the same time, is the same as applying it once. */
  lemma UpdatedIdempotent(p: Project, u: ProjectUpdate, now: Timestamp)
    ensures Updated(Updated(p, u, now), u, now) == Updated(p, u, now)
  {
  }

  /**
   * A body that repeats the required columns and sends no optional field
   * changes nothing but `last_updated`.
   */
  lemma ResendingRefreshesOnlyTimestamp(p: Project, now: Timestamp)
    ensures Updated(p, ProjectUpdate(p.title, p.category, p.budget, p.constituencyCode, Unset, Unset, Unset,
                                     Unset, Unset, Unset, Unset, Unset, Unset, Unset), now)
            == p.(lastUpdated := now)
  {
  }

  /** The constituency check of `update_project`: only a changed code is looked up. */
  predicate CodeAcceptable(cs: seq<Constituency>, p: Project, u: ProjectUpdate)
  {
    u.constituencyCode == p.constituencyCode || FindConstituency(cs, u.constituencyCode).Some?
  }

  method UpdateProject(db: Db, id: int, u: ProjectUpdate, now: Timestamp) returns (r: Result<Project, HttpError>)
    requires ProjectsValid(db.projects, db.nextProjectId)
    modifies db`projects
    ensures ProjectsValid(db.projects, db.nextProjectId)
    ensures id !in old(db.projects) ==> r == Err(ProjectNotFound) && db.projects == old(db.projects)
    ensures id in old(db.projects) && !CodeAcceptable(db.constituencies, old(db.projects)[id], u) ==>
      r == Err(ConstituencyNotFound) && db.projects == old(db.projects)
    ensures id in old(db.projects) && CodeAcceptable(db.constituencies, old(db.projects)[id], u) ==>
      && r == Ok(Updated(old(db.projects)[id], u, now))
      && db.projects == old(db.projects)[id := Updated(old(db.projects)[id], u, now)]
  {
    if id !in db.projects {
      return Err(ProjectNotFound);
    }
    var p := db.projects[id];
    if !CodeAcceptable(db.constituencies, p, u) {
      return Err(ConstituencyNotFound);
    }
    var q := Updated(p, u, now);
    db.projects := db.projects[id := q];
    r := Ok(q);
  }

  // ---------------------------------------------------------------------------
  // delete_project

  /**
   * `delete_project`. The project's award is loaded through
   * `Project.procurement_award` and its NOT NULL `project_id` is set to NULL,
   * so the commit fails with nothing deleted when an award refers to the
   * project. Feedback and image rows have no relationship and are left as they are.
   */
  method DeleteProject(db: Db, id: int) returns (r: Result<(), HttpError>)
    requires ProjectsValid(db.projects, db.nextProjectId)
    modifies db`projects
    ensures ProjectsValid(db.projects, db.nextProjectId)
    ensures id !in old(db.projects) ==> r == Err(ProjectNotFound) && db.projects == old(db.projects)
    ensures id in old(db.projects) && AwardOfProjectExists(db.awards, id) ==>
      r == Err(InternalError) && db.projects == old(db.projects)
    ensures id in old(db.projects) && !AwardOfProjectExists(db.awards, id) ==>
      r == Ok(()) && db.projects == old(db.projects) - {id}
  {
    if id !in db.projects {
      return Err(ProjectNotFound);
    }
    if AwardOfProjectExists(db.awards, id) {
      return Err(InternalError);
    }
    db.projects := db.projects - {id};
    r := Ok(());
  }
}
