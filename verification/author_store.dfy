/** The stored authors, in insertion order, and the write that admits a new
    one only after its fields pass validation. The store supplies the
    uniqueness rule with the names it currently holds. */
module AuthorStore {
  import opened Results
  import opened ValidationErrors
  import opened AuthorRules

  /** The set of stored names, which the uniqueness rule consults. */
  function Names(rows: seq<Author>): (r: set<string>)
    ensures forall i :: 0 <= i < |rows| && rows[i].name.Some? ==> rows[i].name.value in r
    ensures forall x :: x in r ==> exists i :: 0 <= i < |rows| && rows[i].name == Some(x)
    decreases |rows|
  {
    if |rows| == 0 then {}
    else
      var last := rows[|rows| - 1];
      Names(rows[..|rows| - 1]) + (if last.name.Some? then {last.name.value} else {})
  }

  /** Every stored author has a name and an admissible phone number, and no
      two stored authors share a name. */
  ghost predicate ValidStore(rows: seq<Author>)
  {
    && (forall i :: 0 <= i < |rows| ==> Truthy(rows[i].name) && CheckPhoneNumber(rows[i].phoneNumber).Pass?)
    && (forall i, j :: 0 <= i < j < |rows| ==> rows[i].name != rows[j].name)
  }

  /** Create an author: validate against the stored names, then append. A
      rejected candidate leaves the store as it was. */
  function Insert(rows: seq<Author>, a: Author): (r: Result<seq<Author>, ValidationError>)
    ensures r.Ok? ==> r.value == rows + [a]
    ensures r.Err? ==> FirstOf(r.error, AuthorViolations(a, Names(rows)))
    ensures r.Ok? <==>
      && a.name.Some? && a.name.value != ""
      && (forall i :: 0 <= i < |rows| ==> rows[i].name != a.name)
      && CheckPhoneNumber(a.phoneNumber).Pass?
    ensures ValidStore(rows) && r.Ok? ==> ValidStore(r.value)
  {
    match ValidateAuthor(a, Names(rows))
    case Err(e) => Err(e)
    case Ok(v) => Ok(rows + [v])
  }

  /** Apply a series of create requests, keeping those that pass and
      dropping those that are rejected. */
  function InsertAll(rows: seq<Author>, candidates: seq<Author>): seq<Author>
    decreases |candidates|
  {
    if |candidates| == 0 then rows
    else
      var next := match Insert(rows, candidates[0]) case Ok(t) => t case Err(_) => rows;
      InsertAll(next, candidates[1..])
  }

  /** However many create requests arrive, the store never holds two authors
      with the same name, nor one without a name. */
  lemma {:induction false} InsertAllKeepsStoreValid(rows: seq<Author>, candidates: seq<Author>)
    requires ValidStore(rows)
    ensures ValidStore(InsertAll(rows, candidates))
    ensures |rows| <= |InsertAll(rows, candidates)| <= |rows| + |candidates|
    ensures InsertAll(rows, candidates)[..|rows|] == rows
    decreases |candidates|
  {
    if |candidates| > 0 {
      var next := match Insert(rows, candidates[0]) case Ok(t) => t case Err(_) => rows;
      InsertAllKeepsStoreValid(next, candidates[1..]);
    }
  }

  /** In a valid store there are exactly as many distinct names as authors. */
  lemma {:induction false} NameCountIsAuthorCount(rows: seq<Author>)
    requires ValidStore(rows)
    ensures |Names(rows)| == |rows|
    decreases |rows|
  {
    if |rows| > 0 {
      var prefix := rows[..|rows| - 1];
      var last := rows[|rows| - 1];
      assert ValidStore(prefix);
      NameCountIsAuthorCount(prefix);
      assert last.name.value !in Names(prefix);
      assert Names(rows) == Names(prefix) + {last.name.value};
    }
  }

  /** A second create request for an author already stored is rejected as
      a duplicate. */
  lemma ReinsertRejected(rows: seq<Author>, a: Author)
    requires Insert(rows, a).Ok?
    ensures Insert(Insert(rows, a).value, a) == Err(DuplicateName)
  {
  }

  /** Assign a new name to the stored author at position `i`. The name
      wrapper runs against every stored name, the author's own included. */
  function UpdateName(rows: seq<Author>, i: nat, name: Option<string>): (r: Result<seq<Author>, ValidationError>)
    requires i < |rows|
    ensures r.Ok? ==> r.value == rows[i := rows[i].(name := name)]
    ensures r.Ok? <==>
      && name.Some? && name.value != ""
      && (forall j :: 0 <= j < |rows| ==> rows[j].name != name)
    ensures r.Err? ==> r.error == EmptyName || r.error == DuplicateName
    ensures !Truthy(name) ==> r == Err(EmptyName)
    ensures r == Err(DuplicateName) <==> Truthy(name) && exists j :: 0 <= j < |rows| && rows[j].name == name
    ensures ValidStore(rows) && r.Ok? ==> ValidStore(r.value)
  {
    var accepted :- ValidateName(name, Names(rows));
    Ok(rows[i := rows[i].(name := accepted)])
  }

  /** The uniqueness rule does not exclude the record being written:
      assigning a stored author its own current name is rejected as a
      duplicate of itself. */
  lemma UpdateToOwnNameRejected(rows: seq<Author>, i: nat)
    requires ValidStore(rows) && i < |rows|
    ensures UpdateName(rows, i, rows[i].name) == Err(DuplicateName)
  {
  }
}
