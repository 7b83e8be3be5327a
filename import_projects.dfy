/**
 * data_pipeline/import_projects.py: the idempotent CSV import of projects.
 *
 * A CSV row is the dictionary `csv.DictReader` yields. Each row with a title and
 * a constituency code is normalised into a payload and upserted under the key
 * (title, constituency_code, source_doc_ref): an existing project with that key
 * is overwritten, otherwise a new one is added. The single commit after the loop
 * means that an exception on any row leaves the table as it was.
 *
 * `float()` and `datetime.strptime(value, "%Y-%m-%d")` are parameters (`Parsers`):
 * they answer `None` where Python raises `ValueError`.
 */
module ImportProjects {
  import opened Common
  import opened Models

  type Row = map<string, string>

  datatype Parsers = Parsers(number: string -> Option<real>, date: string -> Option<Timestamp>)

  /** The `ValueError`s a row can raise, with the text that was rejected. */
  datatype ImportError =
    | InvalidCategory(category: string)
    | InvalidStatus(status: string)
    | InvalidNumber(number: string)
    | InvalidDate(date: string)

  /** `row.get(key) or ""` (a missing cell and an empty cell read the same). */
  function Get(row: Row, key: string): string
  {
    if key in row then row[key] else ""
  }

  /** `row.get(key) or default`. */
  function GetOr(row: Row, key: string, default: string): (r: string)
    ensures Get(row, key) == "" ==> r == default
    ensures Get(row, key) != "" ==> r == row[key]
  {
    var v := Get(row, key);
    if v == "" then default else v
  }

  // ---------------------------------------------------------------------------
  // Cell normalisers

  /** `parse_date`: blank gives `None`, anything else must parse as a date. */
  function ParseDate(value: string, p: Parsers): (r: Result<Option<Timestamp>, ImportError>)
    ensures r == Ok(None) <==> AllSpace(value)
    ensures r.Err? <==> !AllSpace(value) && p.date(Trim(value)).None?
    ensures r.Ok? && r.value.Some? ==> Some(r.value.value) == p.date(Trim(value))
  {
    TrimEmptyIffBlank(value);
    var v := Trim(value);
    if v == [] then Ok(None)
    else match p.date(v)
      case None => Err(InvalidDate(v))
      case Some(d) => Ok(Some(d))
  }

  /** `normalize_category`: the enum member named by the trimmed text, or `ValueError`. */
  function NormalizeCategory(value: string): (r: Result<Category, ImportError>)
    ensures r.Ok? ==> CategoryName(r.value) == Trim(value)
    ensures r.Err? ==> forall c :: CategoryName(c) != Trim(value)
  {
    match CategoryFromName(Trim(value))
    case Some(c) => Ok(c)
    case None => Err(InvalidCategory(Trim(value)))
  }

  /** `normalize_status`. */
  function NormalizeStatus(value: string): (r: Result<ProjectStatus, ImportError>)
    ensures r.Ok? ==> StatusName(r.value) == Trim(value)
    ensures r.Err? ==> forall s :: StatusName(s) != Trim(value)
  {
    match StatusFromName(Trim(value))
    case Some(s) => Ok(s)
    case None => Err(InvalidStatus(Trim(value)))
  }

  /** `as_float`: blank gives `None`, anything else must parse as a number. */
  function AsFloat(value: string, p: Parsers): (r: Result<Option<real>, ImportError>)
    ensures r == Ok(None) <==> AllSpace(value)
    ensures r.Err? <==> !AllSpace(value) && p.number(Trim(value)).None?
    ensures r.Ok? && r.value.Some? ==> Some(r.value.value) == p.number(Trim(value))
  {
    TrimEmptyIffBlank(value);
    var v := Trim(value);
    if v == "" then Ok(None)
    else match p.number(v)
      case None => Err(InvalidNumber(v))
      case Some(x) => Ok(Some(x))
  }

  /** The spellings `as_bool` accepts as true. */
  const TrueSpellings: set<string> := {"1", "true", "yes", "y"}

  /** `as_bool`. */
  function AsBool(value: string): (b: bool)
    ensures AllSpace(value) ==> !b
    ensures b ==> 1 <= |Trim(value)| <= 4
  {
    TrimEmptyIffBlank(value);
    Lower(Trim(value)) in TrueSpellings
  }

  /** No true spelling folds from text that starts or ends with whitespace. */
  lemma SpellingIsTrimmed(w: string)
    requires Lower(w) in TrueSpellings
    ensures Trimmed(w)
  {
    var l := Lower(w);
    assert l[0] == LowerChar(w[0]) && l[|l| - 1] == LowerChar(w[|w| - 1]);
  }

  /**
   * `as_bool` of a cell, written as its trimmed text between whitespace, holds
   * exactly when that text folds to one of "1", "true", "yes", "y". Every cell
   * has that form (see `Trim`), so this decides `as_bool` for all cells.
   */
  lemma AsBoolFramed(pre: string, w: string, post: string)
    requires AllSpace(pre) && AllSpace(post) && Trimmed(w)
    ensures AsBool(pre + w + post) <==> Lower(w) in TrueSpellings
  {
    TrimOfFramed(pre, w, post);
  }

  /** Surrounding whitespace around a true spelling is ignored. */
  lemma AsBoolAcceptsPadded(pre: string, w: string, post: string)
    requires AllSpace(pre) && AllSpace(post) && Lower(w) in TrueSpellings
    ensures AsBool(pre + w + post)
  {
    SpellingIsTrimmed(w);
    AsBoolFramed(pre, w, post);
  }

  // ---------------------------------------------------------------------------
  // The payload built for one row

  datatype Payload = Payload(
    title: string,
    description: Option<string>,
    category: Category,
    status: ProjectStatus,
    budget: real,
    spent: Option<real>,
    progress: Option<real>,
    constituencyCode: string,
    startDate: Option<Timestamp>,
    completionDate: Option<Timestamp>,
    isMock: bool,
    sourceName: Option<string>,
    sourceUrl: Option<string>,
    sourceDocRef: Option<string>)

  /** The upsert key: (title, constituency_code, source_doc_ref). */
  datatype Key = Key(title: string, constituencyCode: string, sourceDocRef: Option<string>)

  function RowTitle(row: Row): string { Trim(Get(row, "title")) }

  function RowCode(row: Row): string { Trim(Get(row, "constituency_code")) }

  /** A row without a title or a constituency code is skipped. */
  predicate Skipped(row: Row)
  {
    RowTitle(row) == [] || RowCode(row) == []
  }

  /** The key a row is looked up under; a blank `source_doc_ref` becomes `None`. */
  function RowKey(row: Row): Key
  {
    Key(RowTitle(row), RowCode(row), BlankToNone(Get(row, "source_doc_ref")))
  }

  /** `float(row.get("budget") or 0)`: an empty or missing cell is 0. */
  function Budget(row: Row, p: Parsers): (r: Result<real, ImportError>)
    ensures Get(row, "budget") == "" ==> r == Ok(0.0)
    ensures Get(row, "budget") != "" ==> (r.Ok? <==> p.number(Get(row, "budget")).Some?)
    ensures Get(row, "budget") != "" && r.Ok? ==> r.value == p.number(Get(row, "budget")).value
    ensures r.Err? ==> r.error == InvalidNumber(Get(row, "budget"))
  {
    var v := Get(row, "budget");
    if v == "" then Ok(0.0)
    else match p.number(v)
      case None => Err(InvalidNumber(v))
      case Some(x) => Ok(x)
  }

  /** The cells of a row that go through a converter that can raise. */
  datatype Cells = Cells(
    category: Category,
    status: ProjectStatus,
    budget: real,
    spent: Option<real>,
    progress: Option<real>,
    startDate: Option<Timestamp>,
    completionDate: Option<Timestamp>)

  /**
   * The converting entries of the `payload` dict of `import_csv`, evaluated in
   * the order the source lists them, so that the first failing cell is the one
   * reported.
   */
  function ParseCells(row: Row, p: Parsers): Result<Cells, ImportError>
  {
    match NormalizeCategory(GetOr(row, "category", "Other"))
    case Err(e) => Err(e)
    case Ok(category) =>
    match NormalizeStatus(GetOr(row, "status", "Planned"))
    case Err(e) => Err(e)
    case Ok(status) =>
    match Budget(row, p)
    case Err(e) => Err(e)
    case Ok(budget) =>
    match AsFloat(Get(row, "spent"), p)
    case Err(e) => Err(e)
    case Ok(spent) =>
    match AsFloat(Get(row, "progress"), p)
    case Err(e) => Err(e)
    case Ok(progress) =>
    match ParseDate(Get(row, "start_date"), p)
    case Err(e) => Err(e)
    case Ok(startDate) =>
    match ParseDate(Get(row, "completion_date"), p)
    case Err(e) => Err(e)
    case Ok(completionDate) =>
    Ok(Cells(category, status, budget, spent, progress, startDate, completionDate))
  }

  /** The whole `payload` dict: the converted cells plus the plain text ones. */
  function Assemble(row: Row, c: Cells): (pl: Payload)
    ensures Key(pl.title, pl.constituencyCode, pl.sourceDocRef) == RowKey(row)
  {
    Payload(
      RowTitle(row),
      BlankToNone(Get(row, "description")),
      c.category,
      c.status,
      c.budget,
      c.spent,
      c.progress,
      RowCode(row),
      c.startDate,
      c.completionDate,
      AsBool(GetOr(row, "is_mock", "false")),
      BlankToNone(Get(row, "source_name")),
      BlankToNone(Get(row, "source_url")),
      BlankToNone(Get(row, "source_doc_ref")))
  }

  /**
   * The `payload` dict of a row: it builds exactly when every converter
   * succeeds, and then holds what each converter returned.
   */
  function BuildPayload(row: Row, p: Parsers): (r: Result<Payload, ImportError>)
    ensures r.Ok? <==>
      && NormalizeCategory(GetOr(row, "category", "Other")).Ok? && NormalizeStatus(GetOr(row, "status", "Planned")).Ok?
      && Budget(row, p).Ok? && AsFloat(Get(row, "spent"), p).Ok? && AsFloat(Get(row, "progress"), p).Ok?
      && ParseDate(Get(row, "start_date"), p).Ok? && ParseDate(Get(row, "completion_date"), p).Ok?
    ensures r.Ok? ==>
      && r.value.category == NormalizeCategory(GetOr(row, "category", "Other")).value
      && r.value.status == NormalizeStatus(GetOr(row, "status", "Planned")).value
      && r.value.budget == Budget(row, p).value
      && r.value.spent == AsFloat(Get(row, "spent"), p).value
      && r.value.progress == AsFloat(Get(row, "progress"), p).value
      && r.value.startDate == ParseDate(Get(row, "start_date"), p).value
      && r.value.completionDate == ParseDate(Get(row, "completion_date"), p).value
    ensures r.Ok? ==>
      && PayloadKey(r.value) == RowKey(row)
      && r.value.description == BlankToNone(Get(row, "description"))
      && r.value.isMock == AsBool(GetOr(row, "is_mock", "false"))
      && r.value.sourceName == BlankToNone(Get(row, "source_name"))
      && r.value.sourceUrl == BlankToNone(Get(row, "source_url"))
  {
    match ParseCells(row, p)
    case Err(e) => Err(e)
    case Ok(c) => Ok(Assemble(row, c))
  }

  lemma OtherNormalizes()
    ensures NormalizeCategory("Other") == Ok(Other)
  {
    TrimOfFramed([], "Other", []);
    assert [] + "Other" + [] == "Other";
  }

  lemma PlannedNormalizes()
    ensures NormalizeStatus("Planned") == Ok(Planned)
  {
    TrimOfFramed([], "Planned", []);
    assert [] + "Planned" + [] == "Planned";
  }

  lemma FalseIsFalse()
    ensures !AsBool("false")
  {
    TrimOfFramed([], "false", []);
    assert [] + "false" + [] == "false";
    assert Lower("false") == "false";
  }

  /** A missing or empty category cell gives `Other`. */
  lemma CategoryDefault(row: Row, p: Parsers)
    requires BuildPayload(row, p).Ok? && Get(row, "category") == ""
    ensures BuildPayload(row, p).value.category == Other
  {
    OtherNormalizes();
  }

  /** A missing or empty status cell gives `Planned`. */
  lemma StatusDefault(row: Row, p: Parsers)
    requires BuildPayload(row, p).Ok? && Get(row, "status") == ""
    ensures BuildPayload(row, p).value.status == Planned
  {
    PlannedNormalizes();
  }

  /** A missing or empty budget cell gives 0. */
  lemma BudgetDefault(row: Row, p: Parsers)
    requires BuildPayload(row, p).Ok? && Get(row, "budget") == ""
    ensures BuildPayload(row, p).value.budget == 0.0
  {
  }

  /** A missing or empty is_mock cell gives false. */
  lemma IsMockDefault(row: Row, p: Parsers)
    requires BuildPayload(row, p).Ok? && Get(row, "is_mock") == ""
    ensures !BuildPayload(row, p).value.isMock
  {
    FalseIsFalse();
  }

  /** A category or status cell naming no enum member makes the row fail. */
  lemma InvalidEnumFails(row: Row, p: Parsers)
    requires (forall c :: CategoryName(c) != Trim(GetOr(row, "category", "Other")))
             || (forall s :: StatusName(s) != Trim(GetOr(row, "status", "Planned")))
    ensures BuildPayload(row, p).Err?
  {
  }

  /** The project columns the payload sets. */
  function PayloadOf(pr: Project): Payload
  {
    Payload(pr.title, pr.description, pr.category, pr.status, pr.budget, pr.spent, pr.progress,
            pr.constituencyCode, pr.startDate, pr.completionDate, pr.isMock, pr.sourceName,
            pr.sourceUrl, pr.sourceDocRef)
  }

  function KeyOf(pr: Project): Key
  {
    Key(pr.title, pr.constituencyCode, pr.sourceDocRef)
  }

  /** `for k, v in payload.items(): setattr(existing, k, v)`. */
  function Overwrite(pr: Project, pl: Payload): (r: Project)
    ensures PayloadOf(r) == pl
    ensures r.id == pr.id && r.lastUpdated == pr.lastUpdated
  {
    pr.(title := pl.title, description := pl.description, category := pl.category,
        status := pl.status, budget := pl.budget, spent := pl.spent, progress := pl.progress,
        constituencyCode := pl.constituencyCode, startDate := pl.startDate,
        completionDate := pl.completionDate, isMock := pl.isMock, sourceName := pl.sourceName,
        sourceUrl := pl.sourceUrl, sourceDocRef := pl.sourceDocRef)
  }

  /** `Project(**payload)`, given its autoincrement id and the creation time. */
  function NewProject(id: int, pl: Payload, now: Timestamp): (r: Project)
    ensures PayloadOf(r) == pl
    ensures r.id == id && r.lastUpdated == now
  {
    Project(id, pl.title, pl.description, pl.category, pl.status, pl.budget, pl.spent,
            pl.progress, pl.constituencyCode, pl.startDate, pl.completionDate, pl.isMock,
            pl.sourceName, pl.sourceUrl, pl.sourceDocRef, now)
  }

  // ---------------------------------------------------------------------------
  // Lookup and the upsert fold

  /**
   * `find_existing`: a project with the same title and constituency code whose
   * `source_doc_ref` equals the given one, or is NULL when none is given
   * (`.first()` is taken to be the lowest id).
   */
  function FindExisting(table: map<int, Project>, next: int, key: Key): (r: Option<int>)
    ensures r.Some? ==> r.value in table && KeyOf(table[r.value]) == key
    ensures r.None? && IdsBelow(table, next) ==> forall k :: k in table ==> KeyOf(table[k]) != key
    ensures r.Some? && IdsBelow(table, next) ==> forall k :: k in table && KeyOf(table[k]) == key ==> r.value <= k
  {
    FirstWhere(table, (pr: Project) => KeyOf(pr) == key, 1, next)
  }

  /**
   * What the loop body of `import_csv` derives from one row: whether it is
   * skipped, the key it is looked up under, and its payload (or the exception
   * building the payload raises).
   */
  datatype RowView = RowView(skipped: bool, key: Key, payload: Result<Payload, ImportError>)

  /** The payload of a view carries the view's key. */
  predicate Consistent(v: RowView)
  {
    v.payload.Ok? ==> PayloadKey(v.payload.value) == v.key
  }

  function PayloadKey(pl: Payload): Key
  {
    Key(pl.title, pl.constituencyCode, pl.sourceDocRef)
  }

  function View(row: Row, p: Parsers): (v: RowView)
    ensures v.skipped == Skipped(row) && v.key == RowKey(row)
    ensures Consistent(v)
  {
    RowView(Skipped(row), RowKey(row), BuildPayload(row, p))
  }

  /** The views of a whole file, in file order. */
  function Views(rows: seq<Row>, p: Parsers): (vs: seq<RowView>)
    ensures |vs| == |rows|
    ensures forall i :: 0 <= i < |rows| ==> vs[i] == View(rows[i], p)
  {
    seq(|rows|, i requires 0 <= i < |rows| => View(rows[i], p))
  }

  predicate AllConsistent(vs: seq<RowView>)
  {
    forall i :: 0 <= i < |vs| ==> Consistent(vs[i])
  }

  /** The session's pending projects and the two counters `import_csv` keeps. */
  datatype ImportState = ImportState(table: map<int, Project>, next: int, created: nat, updated: nat)

  predicate StateValid(st: ImportState)
  {
    ProjectsValid(st.table, st.next)
  }

  /** One iteration of the loop of `import_csv`. */
  function Step(st: ImportState, v: RowView, now: Timestamp): (r: Result<ImportState, ImportError>)
    ensures v.skipped ==> r == Ok(st)
    ensures !v.skipped ==> (r.Ok? <==> v.payload.Ok?)
  {
    if v.skipped then Ok(st)
    else
      match v.payload
      case Err(e) => Err(e)
      case Ok(payload) =>
      match FindExisting(st.table, st.next, v.key)
      case Some(id) =>
        Ok(st.(table := st.table[id := Overwrite(st.table[id], payload)], updated := st.updated + 1))
      case None =>
        Ok(st.(table := st.table[st.next := NewProject(st.next, payload, now)],
               next := st.next + 1, created := st.created + 1))
  }

  /** Replacing the record under an existing id keeps the table valid. */
  lemma ValidAfterOverwrite(table: map<int, Project>, next: int, id: int, pr: Project)
    requires ProjectsValid(table, next) && id in table && pr.id == id
    ensures ProjectsValid(table[id := pr], next)
  {
  }

  /** Adding a record under the next id, and moving the counter on, keeps the table valid. */
  lemma ValidAfterInsert(table: map<int, Project>, next: int, pr: Project)
    requires ProjectsValid(table, next) && pr.id == next
    ensures ProjectsValid(table[next := pr], next + 1)
  {
  }

  /** A step keeps every record under its own id, below the next id. */
  lemma StepValid(st: ImportState, v: RowView, now: Timestamp)
    requires StateValid(st) && Step(st, v, now).Ok?
    ensures StateValid(Step(st, v, now).value)
  {
    if !v.skipped {
      var pl := v.payload.value;
      match FindExisting(st.table, st.next, v.key)
      case Some(id) =>
        ValidAfterOverwrite(st.table, st.next, id, Overwrite(st.table[id], pl));
      case None =>
        ValidAfterInsert(st.table, st.next, NewProject(st.next, pl, now));
    }
  }

  /** The whole loop: rows in file order, stopping at the first exception. */
  function Run(st: ImportState, vs: seq<RowView>, now: Timestamp): (r: Result<ImportState, ImportError>)
    ensures vs == [] ==> r == Ok(st)
    ensures r.Ok? ==> r.value.created + r.value.updated == st.created + st.updated + CountUsable(vs)
    ensures r.Ok? ==> st.created <= r.value.created && st.updated <= r.value.updated && st.next <= r.value.next
    decreases |vs|
  {
    if vs == [] then Ok(st)
    else
      var st' :- Step(st, vs[0], now);
      Run(st', vs[1..], now)
  }

  /**
   * The body of the loop of `import_csv` for one row: skip it, or build its
   * payload and update the record with its key or add a new one.
   */
  method UpsertRow(st: ImportState, row: Row, p: Parsers, now: Timestamp) returns (r: Result<ImportState, ImportError>)
    ensures r == Step(st, View(row, p), now)
  {
    var title := Trim(Get(row, "title"));
    var code := Trim(Get(row, "constituency_code"));
    if title == [] || code == [] {
      return Ok(st);
    }
    var docRef := BlankToNone(Get(row, "source_doc_ref"));
    r := UpsertPayload(st, Key(title, code, docRef), BuildPayload(row, p), now);
  }

  /**
   * The rest of the loop body once the key is known: the lookup of
   * `find_existing`, then the payload (or its exception), then the update of the
   * record found or the addition of a new one.
   */
  method UpsertPayload(st: ImportState, key: Key, payload: Result<Payload, ImportError>, now: Timestamp) returns (r: Result<ImportState, ImportError>)
    ensures r == Step(st, RowView(false, key, payload), now)
  {
    var existing := FindExisting(st.table, st.next, key);
    if payload.Err? {
      return Err(payload.error);
    }
    match existing {
      case Some(id) =>
        r := Ok(st.(table := st.table[id := Overwrite(st.table[id], payload.value)], updated := st.updated + 1));
      case None =>
        r := Ok(st.(table := st.table[st.next := NewProject(st.next, payload.value, now)],
                    next := st.next + 1, created := st.created + 1));
    }
  }

  /** `Run` from position `i` is one step followed by `Run` from `i + 1`. */
  lemma RunAdvance(st: ImportState, vs: seq<RowView>, i: nat, now: Timestamp)
    requires i < |vs|
    ensures Run(st, vs[i..], now) == match Step(st, vs[i], now)
                                     case Err(e) => Err(e)
                                     case Ok(s) => Run(s, vs[i + 1..], now)
  {
    assert vs[i..][0] == vs[i] && vs[i..][1..] == vs[i + 1..];
  }

  /**
   * `import_csv`: upserts every usable row into a working copy of the table (the
   * session's pending state) and commits once after the loop; an invalid cell
   * raises before the commit, so the table is left unchanged.
   */
  method ImportCsv(db: Db, rows: seq<Row>, p: Parsers, now: Timestamp) returns (r: Result<(nat, nat), ImportError>)
    requires ProjectsValid(db.projects, db.nextProjectId)
    modifies db`projects, db`nextProjectId
    ensures ProjectsValid(db.projects, db.nextProjectId)
    ensures var spec := Run(ImportState(old(db.projects), old(db.nextProjectId), 0, 0), Views(rows, p), now);
            match spec
            case Ok(st) =>
              r == Ok((st.created, st.updated)) && db.projects == st.table && db.nextProjectId == st.next
            case Err(e) =>
              r == Err(e) && db.projects == old(db.projects) && db.nextProjectId == old(db.nextProjectId)
  {
    ghost var vs := Views(rows, p);
    var st := ImportState(db.projects, db.nextProjectId, 0, 0);
    ghost var start := st;
    var i := 0;
    while i < |rows|
      invariant 0 <= i <= |rows|
      invariant StateValid(st)
      invariant Run(st, vs[i..], now) == Run(start, vs, now)
      invariant db.projects == start.table && db.nextProjectId == start.next
    {
      RunAdvance(st, vs, i, now);
      var res := UpsertRow(st, rows[i], p, now);
      if res.Err? {
        assert Run(start, vs, now) == Err(res.error);
        return Err(res.error);
      }
      StepValid(st, View(rows[i], p), now);
      st := res.value;
      i := i + 1;
    }
    db.projects, db.nextProjectId := st.table, st.next;
    r := Ok((st.created, st.updated));
  }

  // ---------------------------------------------------------------------------
  // What the import promises

  /** Number of rows that are not skipped. */
  function CountUsable(vs: seq<RowView>): nat
  {
    if vs == [] then 0 else (if vs[0].skipped then 0 else 1) + CountUsable(vs[1..])
  }

  /** Every usable row builds a payload: the file raises nowhere. */
  predicate FileValid(vs: seq<RowView>)
  {
    forall i :: 0 <= i < |vs| && !vs[i].skipped ==> vs[i].payload.Ok?
  }

  /** The keys present in a table. */
  function KeysOf(table: map<int, Project>): set<Key>
  {
    set k | k in table :: KeyOf(table[k])
  }

  /** The keys of the usable rows of a file. */
  function RowKeys(vs: seq<RowView>): set<Key>
  {
    set i | 0 <= i < |vs| && !vs[i].skipped :: vs[i].key
  }

  lemma RowKeysCons(vs: seq<RowView>)
    requires vs != []
    ensures RowKeys(vs) == (if vs[0].skipped then {} else {vs[0].key}) + RowKeys(vs[1..])
  {
    var rest := vs[1..];
    forall k | k in RowKeys(vs)
      ensures k in (if vs[0].skipped then {} else {vs[0].key}) + RowKeys(rest)
    {
      var i :| 0 <= i < |vs| && !vs[i].skipped && vs[i].key == k;
      if i > 0 { assert rest[i - 1] == vs[i]; }
    }
    forall k | k in RowKeys(rest) ensures k in RowKeys(vs) {
      var i :| 0 <= i < |rest| && !rest[i].skipped && rest[i].key == k;
      assert vs[i + 1] == rest[i];
    }
  }

  lemma FileValidCons(vs: seq<RowView>)
    requires vs != []
    ensures FileValid(vs) <==> (!vs[0].skipped ==> vs[0].payload.Ok?) && FileValid(vs[1..])
  {
    if FileValid(vs) {
      forall i | 0 <= i < |vs[1..]| && !vs[1..][i].skipped ensures vs[1..][i].payload.Ok? {
        assert vs[1..][i] == vs[i + 1];
      }
    }
    if (!vs[0].skipped ==> vs[0].payload.Ok?) && FileValid(vs[1..]) {
      forall i | 0 <= i < |vs| && !vs[i].skipped ensures vs[i].payload.Ok? {
        if i > 0 { assert vs[1..][i - 1] == vs[i]; }
      }
    }
  }

  lemma AllConsistentCons(vs: seq<RowView>)
    requires vs != [] && AllConsistent(vs)
    ensures Consistent(vs[0]) && AllConsistent(vs[1..])
  {
    forall i | 0 <= i < |vs[1..]| ensures Consistent(vs[1..][i]) {
      assert vs[1..][i] == vs[i + 1];
    }
  }

  /** The import fails exactly when some usable row of the file has an invalid cell. */
  lemma {:induction false} RunOkIff(st: ImportState, vs: seq<RowView>, now: Timestamp)
    ensures Run(st, vs, now).Ok? <==> FileValid(vs)
    decreases |vs|
  {
    if vs != [] {
      FileValidCons(vs);
      var s := Step(st, vs[0], now);
      if s.Ok? {
        RunOkIff(s.value, vs[1..], now);
      }
    }
  }

  /** Replacing the record under `id` by one with key `key` swaps that key in. */
  lemma KeysAfterOverwrite(table: map<int, Project>, id: int, pr: Project)
    requires id in table
    ensures KeysOf(table[id := pr]) <= KeysOf(table) + {KeyOf(pr)}
    ensures KeyOf(pr) in KeysOf(table[id := pr])
    ensures KeyOf(table[id]) == KeyOf(pr) ==> KeysOf(table[id := pr]) == KeysOf(table)
  {
    var t := table[id := pr];
    assert KeyOf(t[id]) == KeyOf(pr);
    forall k | k in KeysOf(t) ensures k in KeysOf(table) + {KeyOf(pr)} {
      var x :| x in t && KeyOf(t[x]) == k;
      if x != id { assert KeyOf(table[x]) == k; }
    }
    if KeyOf(table[id]) == KeyOf(pr) {
      forall k | k in KeysOf(table) ensures k in KeysOf(t) {
        var x :| x in table && KeyOf(table[x]) == k;
        assert KeyOf(t[x]) == k;
      }
    }
  }

  /** Adding a record under a fresh id adds its key. */
  lemma KeysAfterInsert(table: map<int, Project>, n: int, pr: Project)
    requires n !in table
    ensures KeysOf(table[n := pr]) == KeysOf(table) + {KeyOf(pr)}
  {
    var t := table[n := pr];
    assert KeyOf(t[n]) == KeyOf(pr);
    forall k | k in KeysOf(t) ensures k in KeysOf(table) + {KeyOf(pr)} {
      var x :| x in t && KeyOf(t[x]) == k;
      if x != n { assert KeyOf(table[x]) == k; }
    }
    forall k | k in KeysOf(table) ensures k in KeysOf(t) {
      var x :| x in table && KeyOf(table[x]) == k;
      assert KeyOf(t[x]) == k;
    }
  }

  /**
   * A single step upserts the row: when the table has the row's key, the
   * record of least id with that key takes the whole payload; otherwise one
   * new record with the payload is added under the next id. Records with other
   * keys are kept as they were.
   */
  lemma StepEffect(st: ImportState, v: RowView, now: Timestamp)
    requires StateValid(st) && Consistent(v) && !v.skipped && Step(st, v, now).Ok?
    ensures var st' := Step(st, v, now).value;
            && (v.key in KeysOf(st.table) ==>
                  exists id :: && id in st.table && KeyOf(st.table[id]) == v.key
                               && (forall j :: j in st.table && KeyOf(st.table[j]) == v.key ==> id <= j)
                               && st'.table == st.table[id := Overwrite(st.table[id], v.payload.value)])
            && (v.key !in KeysOf(st.table) ==>
                  st'.table == st.table[st.next := NewProject(st.next, v.payload.value, now)]
                  && st'.next == st.next + 1)
            && (forall k :: k in st.table && KeyOf(st.table[k]) != v.key ==> st'.table[k] == st.table[k])
    ensures var st' := Step(st, v, now).value;
            && KeysOf(st'.table) == KeysOf(st.table) + {v.key}
            && st.table.Keys <= st'.table.Keys
            && st'.created + st'.updated == st.created + st.updated + 1
            && st'.next - st.next == st'.created - st.created
            && |st'.table| == |st.table| + (st'.created - st.created)
            && (v.key in KeysOf(st.table) ==> st'.created == st.created && st'.table.Keys == st.table.Keys)
  {
    match FindExisting(st.table, st.next, v.key)
    case Some(id) =>
      StepOverwrites(st, v, now, id);
    case None =>
      StepInserts(st, v, now);
  }

  /** The step of a row whose key the table has: the record of least id with it is overwritten. */
  lemma StepOverwrites(st: ImportState, v: RowView, now: Timestamp, id: int)
    requires StateValid(st) && Consistent(v) && !v.skipped && v.payload.Ok?
    requires FindExisting(st.table, st.next, v.key) == Some(id)
    ensures var st' := Step(st, v, now).value;
            && id in st.table && KeyOf(st.table[id]) == v.key && v.key in KeysOf(st.table)
            && (forall j :: j in st.table && KeyOf(st.table[j]) == v.key ==> id <= j)
            && st'.table == st.table[id := Overwrite(st.table[id], v.payload.value)]
            && st'.next == st.next && st'.created == st.created && st'.updated == st.updated + 1
            && KeysOf(st'.table) == KeysOf(st.table) && st'.table.Keys == st.table.Keys
  {
    var pr := Overwrite(st.table[id], v.payload.value);
    assert KeyOf(pr) == v.key;
    KeysAfterOverwrite(st.table, id, pr);
    assert st.table[id := pr].Keys == st.table.Keys;
  }

  /** The step of a row whose key the table lacks: one new record under the next id. */
  lemma StepInserts(st: ImportState, v: RowView, now: Timestamp)
    requires StateValid(st) && Consistent(v) && !v.skipped && v.payload.Ok?
    requires FindExisting(st.table, st.next, v.key).None?
    ensures var st' := Step(st, v, now).value;
            && v.key !in KeysOf(st.table)
            && st'.table == st.table[st.next := NewProject(st.next, v.payload.value, now)]
            && st'.next == st.next + 1 && st'.created == st.created + 1 && st'.updated == st.updated
            && st.next !in st.table
            && KeysOf(st'.table) == KeysOf(st.table) + {v.key} && st'.table.Keys == st.table.Keys + {st.next}
  {
    var n := st.next;
    var pr := NewProject(n, v.payload.value, now);
    assert KeyOf(pr) == v.key;
    assert n !in st.table;
    KeysAfterInsert(st.table, n, pr);
    assert st.table[n := pr].Keys == st.table.Keys + {n};
  }

  /** The position of the last usable row of `vs` with key `k`, or None when no usable row has it. */
  function LastRow(vs: seq<RowView>, k: Key): (r: Option<nat>)
    ensures r.Some? ==> && r.value < |vs| && !vs[r.value].skipped && vs[r.value].key == k
                        && forall j :: r.value < j < |vs| ==> vs[j].skipped || vs[j].key != k
    ensures r.None? <==> k !in RowKeys(vs)
    decreases |vs|
  {
    if vs == [] then None
    else
      RowKeysCons(vs);
      match LastRow(vs[1..], k)
      case Some(i) =>
        assert forall j :: i + 1 < j < |vs| ==> vs[j] == vs[1..][j - 1];
        Some(i + 1)
      case None =>
        if !vs[0].skipped && vs[0].key == k then
          assert forall j :: 0 < j < |vs| && !vs[j].skipped && vs[j].key == k ==> vs[1..][j - 1] == vs[j];
          Some(0)
        else None
  }

  /** A successful import keeps, unchanged, every record whose key no usable row of the file has. */
  lemma {:induction false} RunFrame(st: ImportState, vs: seq<RowView>, now: Timestamp, id: int)
    requires StateValid(st) && AllConsistent(vs) && Run(st, vs, now).Ok?
    requires id in st.table && KeyOf(st.table[id]) !in RowKeys(vs)
    ensures id in Run(st, vs, now).value.table && Run(st, vs, now).value.table[id] == st.table[id]
    decreases |vs|
  {
    if vs != [] {
      AllConsistentCons(vs);
      RowKeysCons(vs);
      var s := Step(st, vs[0], now).value;
      StepValid(st, vs[0], now);
      if !vs[0].skipped {
        StepEffect(st, vs[0], now);
      }
      RunFrame(s, vs[1..], now, id);
    }
  }

  /**
   * After a successful import, every key of the file names a record holding
   * the payload of the last row of the file with that key.
   */
  lemma {:induction false} RunContents(st: ImportState, vs: seq<RowView>, now: Timestamp, k: Key)
    requires StateValid(st) && AllConsistent(vs) && Run(st, vs, now).Ok? && k in RowKeys(vs)
    ensures LastRow(vs, k).Some? && vs[LastRow(vs, k).value].payload.Ok?
    ensures var t := Run(st, vs, now).value.table;
            exists id :: id in t && KeyOf(t[id]) == k && PayloadOf(t[id]) == vs[LastRow(vs, k).value].payload.value
    decreases |vs|
  {
    AllConsistentCons(vs);
    RowKeysCons(vs);
    var s := Step(st, vs[0], now).value;
    StepValid(st, vs[0], now);
    if k in RowKeys(vs[1..]) {
      RunContents(s, vs[1..], now, k);
      assert vs[LastRow(vs, k).value] == vs[1..][LastRow(vs[1..], k).value];
    } else {
      assert !vs[0].skipped && vs[0].key == k;
      var pl := vs[0].payload.value;
      assert LastRow(vs, k) == Some(0);
      StepEffect(st, vs[0], now);
      var id: int;
      if k in KeysOf(st.table) {
        id :| id in st.table && KeyOf(st.table[id]) == k
              && s.table == st.table[id := Overwrite(st.table[id], pl)];
        assert s.table[id] == Overwrite(st.table[id], pl);
      } else {
        id := st.next;
        assert s.table[id] == NewProject(st.next, pl, now);
      }
      assert id in s.table && PayloadOf(s.table[id]) == pl;
      assert KeyOf(s.table[id]) == k;
      RunFrame(s, vs[1..], now, id);
    }
  }

  /**
   * After a successful import every key of the file is in the table, no other
   * key appeared and no record disappeared.
   */
  lemma {:induction false} RunKeys(st: ImportState, vs: seq<RowView>, now: Timestamp)
    requires StateValid(st) && AllConsistent(vs) && Run(st, vs, now).Ok?
    ensures var st' := Run(st, vs, now).value;
            && KeysOf(st'.table) == KeysOf(st.table) + RowKeys(vs)
            && st.table.Keys <= st'.table.Keys
    decreases |vs|
  {
    if vs == [] {
      assert RowKeys(vs) == {};
    } else {
      AllConsistentCons(vs);
      var s := Step(st, vs[0], now).value;
      StepValid(st, vs[0], now);
      RunKeys(s, vs[1..], now);
      RowKeysCons(vs);
      if !vs[0].skipped {
        StepEffect(st, vs[0], now);
      }
    }
  }

  /**
   * A successful import counts every usable row exactly once (as created or as
   * updated), and each creation adds one record and consumes one id.
   */
  lemma {:induction false} RunCounts(st: ImportState, vs: seq<RowView>, now: Timestamp)
    requires StateValid(st) && AllConsistent(vs) && Run(st, vs, now).Ok?
    ensures var st' := Run(st, vs, now).value;
            && st'.created + st'.updated == st.created + st.updated + CountUsable(vs)
            && st'.created >= st.created
            && st'.next - st.next == st'.created - st.created
            && |st'.table| == |st.table| + (st'.created - st.created)
    decreases |vs|
  {
    if vs != [] {
      AllConsistentCons(vs);
      var s := Step(st, vs[0], now).value;
      StepValid(st, vs[0], now);
      RunCounts(s, vs[1..], now);
      if !vs[0].skipped {
        StepEffect(st, vs[0], now);
      }
    }
  }

  /**
   * On a table that already holds every key of the file, a valid file creates
   * nothing: every usable row updates, and neither the ids nor the keys change.
   */
  lemma {:induction false} RunOnCoveredTable(st: ImportState, vs: seq<RowView>, now: Timestamp)
    requires StateValid(st) && AllConsistent(vs) && FileValid(vs) && RowKeys(vs) <= KeysOf(st.table)
    ensures Run(st, vs, now).Ok?
    ensures var st' := Run(st, vs, now).value;
            && st'.created == st.created
            && st'.updated == st.updated + CountUsable(vs)
            && st'.next == st.next
            && st'.table.Keys == st.table.Keys
            && KeysOf(st'.table) == KeysOf(st.table)
    decreases |vs|
  {
    RunOkIff(st, vs, now);
    if vs != [] {
      RowKeysCons(vs);
      FileValidCons(vs);
      AllConsistentCons(vs);
      var s := Step(st, vs[0], now).value;
      StepValid(st, vs[0], now);
      if !vs[0].skipped {
        StepEffect(st, vs[0], now);
      }
      RunOnCoveredTable(s, vs[1..], now);
    }
  }

  lemma ViewsConsistent(rows: seq<Row>, p: Parsers)
    ensures AllConsistent(Views(rows, p))
  {
  }

  /**
   * Idempotence of the import: running the same file again on the table the
   * first run committed creates nothing, updates every usable row, and leaves
   * the set of ids and the set of keys as they were.
   */
  lemma ImportTwiceCreatesNothing(table: map<int, Project>, next: int, rows: seq<Row>, p: Parsers, now1: Timestamp, now2: Timestamp)
    requires ProjectsValid(table, next)
    requires Run(ImportState(table, next, 0, 0), Views(rows, p), now1).Ok?
    ensures var vs := Views(rows, p);
            var first := Run(ImportState(table, next, 0, 0), vs, now1).value;
            var again := Run(ImportState(first.table, first.next, 0, 0), vs, now2);
            && again.Ok?
            && again.value.created == 0
            && again.value.updated == CountUsable(vs)
            && again.value.next == first.next
            && again.value.table.Keys == first.table.Keys
            && KeysOf(again.value.table) == KeysOf(first.table)
  {
    var vs := Views(rows, p);
    ViewsConsistent(rows, p);
    var st0 := ImportState(table, next, 0, 0);
    var first := Run(st0, vs, now1).value;
    RunKeys(st0, vs, now1);
    RunOkIff(st0, vs, now1);
    assert StateValid(ImportState(first.table, first.next, 0, 0)) by {
      RunValid(st0, vs, now1);
    }
    RunOnCoveredTable(ImportState(first.table, first.next, 0, 0), vs, now2);
  }

  /** The whole loop keeps the table valid. */
  lemma {:induction false} RunValid(st: ImportState, vs: seq<RowView>, now: Timestamp)
    requires StateValid(st) && Run(st, vs, now).Ok?
    ensures StateValid(Run(st, vs, now).value)
    decreases |vs|
  {
    if vs != [] {
      StepValid(st, vs[0], now);
      RunValid(Step(st, vs[0], now).value, vs[1..], now);
    }
  }

  /** A failing row makes the whole import fail, wherever it sits in the file. */
  lemma FailingRowFailsImport(table: map<int, Project>, next: int, rows: seq<Row>, p: Parsers, now: Timestamp, i: nat)
    requires i < |rows| && !Skipped(rows[i]) && BuildPayload(rows[i], p).Err?
    ensures Run(ImportState(table, next, 0, 0), Views(rows, p), now).Err?
  {
    RunOkIff(ImportState(table, next, 0, 0), Views(rows, p), now);
    assert Views(rows, p)[i] == View(rows[i], p);
  }
}
