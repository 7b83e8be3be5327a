/**
 * The constituency endpoints (backend/api/constituency_router.py). The table
 * is a sequence in insertion order keyed by `code`; the listing and the search
 * have no `ORDER BY`, so they follow that order.
 */
module ConstituencyRouter {
  import opened Common
  import opened Models

  const ConstituencyNotFound := HttpError(404, "Constituency not found")

  /** `session.add` then `commit`: a second row with an existing code violates the primary key. */
  method CreateConstituency(db: Db, c: Constituency) returns (r: Result<Constituency, HttpError>)
    requires CodesUnique(db.constituencies)
    modifies db`constituencies
    ensures CodesUnique(db.constituencies)
    ensures FindConstituency(old(db.constituencies), c.code).Some? ==>
      r == Err(InternalError) && db.constituencies == old(db.constituencies)
    ensures FindConstituency(old(db.constituencies), c.code).None? ==>
      r == Ok(c) && db.constituencies == old(db.constituencies) + [c]
  {
    if FindConstituency(db.constituencies, c.code).Some? {
      return Err(InternalError);
    }
    db.constituencies := db.constituencies + [c];
    r := Ok(c);
  }

  /** `.offset(offset).limit(limit)` with the defaults 0 and 100. */
  function ReadConstituencies(cs: seq<Constituency>, offset: nat, limit: nat): (r: seq<Constituency>)
    ensures |r| <= limit
    ensures |r| == if offset >= |cs| then 0 else if offset + limit <= |cs| then limit else |cs| - offset
    ensures forall i :: 0 <= i < |r| ==> r[i] == cs[offset + i]
  {
    if offset >= |cs| then []
    else if offset + limit <= |cs| then cs[offset..offset + limit]
    else cs[offset..]
  }

  const DefaultOffset: nat := 0
  const DefaultLimit: nat := 100

  /** With the defaults, a table of at most 100 rows is listed whole. */
  lemma DefaultListingIsWhole(cs: seq<Constituency>)
    requires |cs| <= DefaultLimit
    ensures ReadConstituencies(cs, DefaultOffset, DefaultLimit) == cs
  {
  }

  /** Two consecutive pages make up the page that spans both. */
  lemma PagesConcatenate(cs: seq<Constituency>, offset: nat, l1: nat, l2: nat)
    ensures ReadConstituencies(cs, offset, l1) + ReadConstituencies(cs, offset + l1, l2)
         == ReadConstituencies(cs, offset, l1 + l2)
  {
    var a := ReadConstituencies(cs, offset, l1);
    var b := ReadConstituencies(cs, offset + l1, l2);
    var c := ReadConstituencies(cs, offset, l1 + l2);
    assert |a + b| == |c|;
    forall i | 0 <= i < |c|
      ensures (a + b)[i] == c[i]
    {
      if i >= |a| {
        assert (a + b)[i] == b[i - |a|];
      }
    }
  }

  function ReadConstituency(cs: seq<Constituency>, code: string): (r: Result<Constituency, HttpError>)
    ensures r.Ok? <==> exists i :: 0 <= i < |cs| && cs[i].code == code
    ensures r.Ok? ==> r.value.code == code && r.value in cs
    ensures r.Err? ==> r.error == ConstituencyNotFound
  {
    match FindConstituency(cs, code)
    case None => Err(ConstituencyNotFound)
    case Some(i) => Ok(cs[i])
  }

  /**
   * The body of `update_constituency` after validation: the columns without a
   * default are always present (so the code is always overwritten, possibly
   * with a new one), the optional ones only when sent.
   */
  datatype ConstituencyUpdate = ConstituencyUpdate(
    code: string,
    name: string,
    county: string,
    mpName: string,
    population: Patch<Option<int>>,
    pasScore: Patch<Option<real>>)

  function Updated(c: Constituency, u: ConstituencyUpdate): (r: Constituency)
    ensures u.population.Unset? ==> r.population == c.population
    ensures u.pasScore.Unset? ==> r.pasScore == c.pasScore
    ensures u.population.Set? ==> r.population == u.population.value
    ensures u.pasScore.Set? ==> r.pasScore == u.pasScore.value
    ensures r.code == u.code && r.name == u.name && r.county == u.county && r.mpName == u.mpName
  {
    Constituency(u.code, u.name, u.county, u.mpName, Apply(u.population, c.population), Apply(u.pasScore, c.pasScore))
  }

  /** Replacing row `i` by a row whose code no other row has keeps the codes unique. */
  lemma ReplaceKeepsCodesUnique(cs: seq<Constituency>, i: nat, c: Constituency)
    requires CodesUnique(cs) && i < |cs|
    requires forall j :: 0 <= j < |cs| && j != i ==> cs[j].code != c.code
    ensures CodesUnique(cs[i := c])
  {
  }

  /** The update is refused by the primary key when it moves the row onto a code another row has. */
  predicate CodeClash(cs: seq<Constituency>, i: nat, u: ConstituencyUpdate)
  {
    exists j :: 0 <= j < |cs| && j != i && cs[j].code == u.code
  }

  method UpdateConstituency(db: Db, code: string, u: ConstituencyUpdate) returns (r: Result<Constituency, HttpError>)
    requires CodesUnique(db.constituencies)
    modifies db`constituencies
    ensures CodesUnique(db.constituencies)
    ensures FindConstituency(old(db.constituencies), code).None? ==>
      r == Err(ConstituencyNotFound) && db.constituencies == old(db.constituencies)
    ensures FindConstituency(old(db.constituencies), code).Some? ==>
      var i := FindConstituency(old(db.constituencies), code).value;
      if CodeClash(old(db.constituencies), i, u) then
        r == Err(InternalError) && db.constituencies == old(db.constituencies)
      else
        var c := Updated(old(db.constituencies)[i], u);
        r == Ok(c) && db.constituencies == old(db.constituencies)[i := c]
  {
    var found := FindConstituency(db.constituencies, code);
    if found.None? {
      return Err(ConstituencyNotFound);
    }
    var i := found.value;
    if CodeClash(db.constituencies, i, u) {
      return Err(InternalError);
    }
    var c := Updated(db.constituencies[i], u);
    ReplaceKeepsCodesUnique(db.constituencies, i, c);
    db.constituencies := db.constituencies[i := c];
    r := Ok(c);
  }

  method DeleteConstituency(db: Db, code: string) returns (r: Result<(), HttpError>)
    requires CodesUnique(db.constituencies)
    modifies db`constituencies
    ensures CodesUnique(db.constituencies)
    ensures FindConstituency(old(db.constituencies), code).None? ==>
      r == Err(ConstituencyNotFound) && db.constituencies == old(db.constituencies)
    ensures FindConstituency(old(db.constituencies), code).Some? ==>
      var i := FindConstituency(old(db.constituencies), code).value;
      r == Ok(()) && db.constituencies == old(db.constituencies)[..i] + old(db.constituencies)[i + 1..]
  {
    var found := FindConstituency(db.constituencies, code);
    if found.None? {
      return Err(ConstituencyNotFound);
    }
    var i := found.value;
    RemoveKeepsCodesUnique(db.constituencies, i);
    db.constituencies := db.constituencies[..i] + db.constituencies[i + 1..];
    r := Ok(());
  }

  lemma RemoveKeepsCodesUnique(cs: seq<Constituency>, i: nat)
    requires CodesUnique(cs) && i < |cs|
    ensures CodesUnique(cs[..i] + cs[i + 1..])
  {
    var rest := cs[..i] + cs[i + 1..];
    forall a, b | 0 <= a < b < |rest|
      ensures rest[a].code != rest[b].code
    {
      assert rest[a] == cs[if a < i then a else a + 1];
      assert rest[b] == cs[if b < i then b else b + 1];
    }
  }

  /** Deleting removes exactly the row with that code. */
  lemma DeleteRemovesOnlyThatCode(cs: seq<Constituency>, i: nat, code: string)
    requires CodesUnique(cs) && i < |cs| && cs[i].code == code
    ensures forall c :: c in cs[..i] + cs[i + 1..] <==> c in cs && c.code != code
  {
    forall c
      ensures c in cs[..i] + cs[i + 1..] <==> c in cs && c.code != code
    {
      if c in cs && c.code != code {
        var j :| 0 <= j < |cs| && cs[j] == c;
        if j < i {
          assert cs[..i][j] == c;
        } else {
          assert cs[i + 1..][j - i - 1] == c;
        }
      }
      if c in cs[..i] + cs[i + 1..] {
        var j :| 0 <= j < |cs[..i] + cs[i + 1..]| && (cs[..i] + cs[i + 1..])[j] == c;
        var m := if j < i then j else j + 1;
        assert cs[m] == c && m != i;
      }
    }
  }

  // ---------------------------------------------------------------------------
  // search_constituencies

  /** One optional search term: an absent or empty term matches everything. */
  predicate TermMatches(text: string, term: Option<string>)
  {
    term.None? || term.value == [] || ContainsIgnoreCase(text, term.value)
  }

  predicate SearchKeeps(c: Constituency, name: Option<string>, county: Option<string>)
  {
    TermMatches(c.name, name) && TermMatches(c.county, county)
  }

  /** The rows, in table order, whose name and county contain the given terms, ignoring case. */
  function Search(cs: seq<Constituency>, name: Option<string>, county: Option<string>): (r: seq<Constituency>)
    ensures forall c :: c in r <==> c in cs && SearchKeeps(c, name, county)
    ensures |r| <= |cs|
  {
    if cs == [] then []
    else
      var rest := Search(cs[1..], name, county);
      assert forall c :: c in cs <==> c == cs[0] || c in cs[1..];
      if SearchKeeps(cs[0], name, county) then [cs[0]] + rest else rest
  }

  /** No search terms return the whole table. */
  lemma {:induction false} SearchWithoutTerms(cs: seq<Constituency>)
    ensures Search(cs, None, None) == cs
  {
    if cs != [] {
      SearchWithoutTerms(cs[1..]);
    }
  }

  /** The two terms combine with AND: searching on both is searching on one, then on the other. */
  lemma {:induction false} SearchConjunctive(cs: seq<Constituency>, name: Option<string>, county: Option<string>)
    ensures Search(cs, name, county) == Search(Search(cs, name, None), None, county)
  {
    if cs != [] {
      SearchConjunctive(cs[1..], name, county);
    }
  }

  /** A term is found in any capitalisation of the text. */
  lemma SearchIgnoresCase(c: Constituency, term: string)
    requires term != []
    ensures TermMatches(c.name, Some(term)) <==> HasSubstring(Lower(c.name), Lower(term))
  {
  }
}
