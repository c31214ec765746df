/**
 * `SupabaseInventoryRepository` against an in-memory stand-in for the
 * remote database: the `ingredients` and `inventory` tables, the current
 * session, and a schedule of remote requests that fail.
 *
 * Every round trip to the server (a select, an insert) is one remote
 * request. The store numbers them in `requests`; the request whose number
 * is a key of `faults` fails with that description and changes nothing.
 */
module InventoryRepository {
  import opened Wrappers
  import opened Text
  import opened Uuids

  /** `IngredientSuggestion` */
  datatype Suggestion = Suggestion(id: Uuid, name: string, category: Option<string>, unit: Option<string>)

  /** A row of the `ingredients` table, every column but `id` and `name` nullable. */
  datatype IngredientRow = IngredientRow(
    id: Uuid, name: string, category: Option<string>, unit: Option<string>,
    scope: Option<string>, status: Option<string>, ownerUserId: Option<Uuid>,
    normalizedName: Option<string>)

  /** `InventoryInsertRequest`, with the client-drawn `inventoryId` that becomes the row id. */
  datatype InsertRequest = InsertRequest(
    ingredientId: Uuid, quantity: real, unit: string, location: string,
    expiresAt: Option<string>, inventoryId: Uuid)

  /** A row of the `inventory` table as `insertInventory` writes it (`InventoryInsertRow`). */
  datatype InventoryRecord = InventoryRecord(
    id: Uuid, ingredientId: Uuid, quantity: real, unit: string,
    expiresAt: Option<string>, location: string, userId: Uuid)

  datatype RepoError =
    | AuthRequired               // `AuthRequiredError`
    | NoRepository               // `NSError(domain: "repo", code: -1)`: no repository to call
    | Remote(description: string) // a failed request, with its localized description

  /** The description of `NSError(domain: "repo", code: -1)`. */
  const NoRepositoryDescription := "The operation couldn\U{2019}t be completed. (repo error -1.)"

  /** `error.localizedDescription` */
  function Describe(e: RepoError): string {
    match e
    case AuthRequired => "ログインが必要です"
    case NoRepository => NoRepositoryDescription
    case Remote(d) => d
  }

  /** The whole state the repository works against. */
  datatype Db = Db(
    ingredients: seq<IngredientRow>, inventory: seq<InventoryRecord>,
    session: Option<Uuid>, requests: nat, faults: map<nat, string>)

  /** The key `insertUserIngredient` deduplicates on: trimmed, then lower-cased. */
  function NormalizedName(name: string): string {
    Lower(Trim(name))
  }

  const ScopeUser := "user"
  const ScopeMaster := "master"
  const StatusActive := "active"
  const StatusPending := "pending"
  const SearchLimit := 10

  /** A row of `uid` with normalized name `key`: what the duplicate check selects. */
  predicate IsUserRowFor(row: IngredientRow, uid: Uuid, key: string) {
    row.scope == Some(ScopeUser) && row.ownerUserId == Some(uid) && row.normalizedName == Some(key)
  }

  /** `IngredientRow.toSuggestion` */
  function ToSuggestion(row: IngredientRow): (s: Suggestion)
    ensures s.id == row.id && s.name == row.name && s.category == row.category && s.unit == row.unit
  {
    Suggestion(row.id, row.name, row.category, row.unit)
  }

  /** The first row the duplicate check returns (`limit(1)`, then `first`). */
  function FindUserIngredient(rows: seq<IngredientRow>, uid: Uuid, key: string): (r: Option<IngredientRow>)
    ensures r.Some? ==> r.value in rows && IsUserRowFor(r.value, uid, key)
    ensures r.None? <==> forall k :: 0 <= k < |rows| ==> !IsUserRowFor(rows[k], uid, key)
  {
    if rows == [] then None
    else if IsUserRowFor(rows[0], uid, key) then Some(rows[0])
    else FindUserIngredient(rows[1..], uid, key)
  }

  /** Appending rows after a match does not change which row the duplicate check finds. */
  lemma {:induction false} FindUserIngredientAppend(rows: seq<IngredientRow>, extra: seq<IngredientRow>, uid: Uuid, key: string)
    ensures FindUserIngredient(rows, uid, key).Some? ==>
      FindUserIngredient(rows + extra, uid, key) == FindUserIngredient(rows, uid, key)
    ensures FindUserIngredient(rows, uid, key).None? ==>
      FindUserIngredient(rows + extra, uid, key) == FindUserIngredient(extra, uid, key)
  {
    if rows != [] {
      assert (rows + extra)[1..] == rows[1..] + extra;
      FindUserIngredientAppend(rows[1..], extra, uid, key);
    } else {
      assert rows + extra == extra;
    }
  }

  /** At most one row per (scope user, owner, normalized name): the invariant deduplication keeps. */
  predicate UniqueUserKeys(rows: seq<IngredientRow>) {
    forall i, j :: 0 <= i < j < |rows| && rows[i].scope == Some(ScopeUser) ==>
      !(rows[j].scope == Some(ScopeUser) && rows[j].ownerUserId == rows[i].ownerUserId
        && rows[j].normalizedName == rows[i].normalizedName)
  }

  /** The row `insertUserIngredient` sends: scope user, status pending, owned by `uid`. */
  function NewUserRow(id: Uuid, name: string, uid: Uuid): IngredientRow {
    IngredientRow(id, name, None, None, Some(ScopeUser), Some(StatusPending), Some(uid), Some(NormalizedName(name)))
  }

  /** The row `insertInventory` writes for `item` on behalf of `uid`. */
  function Stamp(item: InsertRequest, uid: Uuid): InventoryRecord {
    InventoryRecord(item.inventoryId, item.ingredientId, item.quantity, item.unit, item.expiresAt, item.location, uid)
  }

  function StampAll(items: seq<InsertRequest>, uid: Uuid): (r: seq<InventoryRecord>)
    ensures |r| == |items| && forall i :: 0 <= i < |items| ==> r[i] == Stamp(items[i], uid)
  {
    seq(|items|, i requires 0 <= i < |items| => Stamp(items[i], uid))
  }

  /** The failure scheduled for the next remote request, if any. */
  function NextFault(db: Db): Option<string> {
    if db.requests in db.faults then Some(db.faults[db.requests]) else None
  }

  /** `db` after one more remote request that wrote nothing. */
  function Requested(db: Db): Db {
    db.(requests := db.requests + 1)
  }

  /** `insertUserIngredient(name:)` on `db`; `newId` is the id the server assigns a created row. */
  function InsertUserIngredientSpec(db: Db, name: string, newId: Uuid): (Result<Suggestion, RepoError>, Db) {
    match db.session
    case None => (Err(AuthRequired), db)
    case Some(uid) =>
      if NextFault(db).Some? then (Err(Remote(NextFault(db).value)), Requested(db))
      else
        var checked := Requested(db);
        match FindUserIngredient(db.ingredients, uid, NormalizedName(name))
        case Some(row) => (Ok(ToSuggestion(row)), checked)
        case None =>
          if NextFault(checked).Some? then (Err(Remote(NextFault(checked).value)), Requested(checked))
          else
            var row := NewUserRow(newId, name, uid);
            (Ok(ToSuggestion(row)), Requested(checked).(ingredients := db.ingredients + [row]))
  }

  /** `insertInventory(items:)` on `db`. */
  function InsertInventorySpec(db: Db, items: seq<InsertRequest>): (Result<(), RepoError>, Db) {
    if items == [] then (Ok(()), db)
    else
      match db.session
      case None => (Err(AuthRequired), db)
      case Some(uid) =>
        if NextFault(db).Some? then (Err(Remote(NextFault(db).value)), Requested(db))
        else (Ok(()), Requested(db).(inventory := db.inventory + StampAll(items, uid)))
  }

  /** The rows a search for `keyword` may show `uid`: active master rows and the caller's own active or pending rows. */
  predicate Visible(row: IngredientRow, uid: Uuid) {
    (row.scope == Some(ScopeMaster) && row.status == Some(StatusActive)) ||
    (row.scope == Some(ScopeUser) && row.ownerUserId == Some(uid)
     && (row.status == Some(StatusActive) || row.status == Some(StatusPending)))
  }

  /**
   * The keyword filter: `normalized_name ilike 'norm%'` or `name ilike '%raw%'`,
   * with `ilike` read as a case-insensitive prefix or substring test.
   */
  predicate KeywordMatches(row: IngredientRow, norm: string, raw: string) {
    (row.normalizedName.Some? && HasPrefix(Lower(row.normalizedName.value), Lower(norm)))
    || Contains(Lower(row.name), Lower(raw))
  }

  /** The rows that pass both filters, in table order. */
  function Matching(rows: seq<IngredientRow>, uid: Uuid, norm: string, raw: string): (r: seq<IngredientRow>)
    ensures forall row :: row in r <==> row in rows && Visible(row, uid) && KeywordMatches(row, norm, raw)
    ensures |r| <= |rows|
  {
    if rows == [] then []
    else
      var rest := Matching(rows[1..], uid, norm, raw);
      if Visible(rows[0], uid) && KeywordMatches(rows[0], norm, raw) then [rows[0]] + rest else rest
  }

  function ToSuggestions(rows: seq<IngredientRow>): (r: seq<Suggestion>)
    ensures |r| == |rows| && forall i :: 0 <= i < |rows| ==> r[i] == ToSuggestion(rows[i])
  {
    seq(|rows|, i requires 0 <= i < |rows| => ToSuggestion(rows[i]))
  }

  /** `searchIngredients(keyword:)` on `db`. */
  function SearchIngredients(db: Db, keyword: string): (r: Result<seq<Suggestion>, RepoError>)
    ensures Trim(keyword) == [] ==> r == Ok([])
    ensures Trim(keyword) != [] && db.session.None? ==> r == Err(AuthRequired)
    ensures r.Ok? ==> |r.value| <= SearchLimit
    ensures r.Ok? ==> forall s :: s in r.value ==>
      exists row :: row in db.ingredients && Visible(row, db.session.value) && ToSuggestion(row) == s
  {
    var raw := Trim(keyword);
    if raw == [] then Ok([])
    else
      match db.session
      case None => Err(AuthRequired)
      case Some(uid) =>
        var found := Matching(db.ingredients, uid, Lower(raw), raw);
        var page := if |found| <= SearchLimit then found else found[..SearchLimit];
        assert forall i :: 0 <= i < |page| ==> page[i] in found;
        Ok(ToSuggestions(page))
  }

  /** When at most a page of rows matches, a search returns every one of them. */
  lemma SearchComplete(db: Db, keyword: string, row: IngredientRow)
    requires Trim(keyword) != [] && db.session.Some?
    requires |Matching(db.ingredients, db.session.value, Lower(Trim(keyword)), Trim(keyword))| <= SearchLimit
    requires row in db.ingredients && Visible(row, db.session.value)
    requires KeywordMatches(row, Lower(Trim(keyword)), Trim(keyword))
    ensures SearchIngredients(db, keyword).Ok? && ToSuggestion(row) in SearchIngredients(db, keyword).value
  {
    var found := Matching(db.ingredients, db.session.value, Lower(Trim(keyword)), Trim(keyword));
    var i :| 0 <= i < |found| && found[i] == row;
    assert SearchIngredients(db, keyword).value[i] == ToSuggestion(row);
  }

  /**
   * The remote database. Its methods are the repository's writes; each
   * does what the matching `...Spec` function says, to the whole state.
   */
  class Store {
    var ingredients: seq<IngredientRow>
    var inventory: seq<InventoryRecord>
    var session: Option<Uuid>
    var requests: nat
    var faults: map<nat, string>

    function State(): Db
      reads this
    {
      Db(ingredients, inventory, session, requests, faults)
    }

    constructor (db: Db)
      ensures State() == db
    {
      ingredients, inventory, session := db.ingredients, db.inventory, db.session;
      requests, faults := db.requests, db.faults;
    }

    /** `requireSessionUserId()`: the signed-in user, or `AuthRequiredError`. */
    function RequireSessionUserId(): (r: Result<Uuid, RepoError>)
      reads this
      ensures r.Ok? <==> session.Some?
      ensures r.Ok? ==> r.value == session.value
      ensures r.Err? ==> r.error == AuthRequired
    {
      match session
      case Some(uid) => Ok(uid)
      case None => Err(AuthRequired)
    }

    /** One remote request: `None` when it goes through, the scheduled failure otherwise. */
    method Request() returns (failure: Option<string>)
      modifies this
      ensures failure == NextFault(old(State())) && State() == Requested(old(State()))
    {
      failure := if requests in faults then Some(faults[requests]) else None;
      requests := requests + 1;
    }

    method InsertUserIngredient(name: string, newId: Uuid) returns (r: Result<Suggestion, RepoError>)
      modifies this
      ensures (r, State()) == InsertUserIngredientSpec(old(State()), name, newId)
    {
      var uid := RequireSessionUserId();
      if uid.Err? {
        return Err(uid.error);
      }
      var normalized := NormalizedName(name);
      var failure := Request();
      if failure.Some? {
        return Err(Remote(failure.value));
      }
      var existing := FindUserIngredient(ingredients, uid.value, normalized);
      if existing.Some? {
        return Ok(ToSuggestion(existing.value));
      }
      var row := NewUserRow(newId, name, uid.value);
      failure := Request();
      if failure.Some? {
        return Err(Remote(failure.value));
      }
      ingredients := ingredients + [row];
      r := Ok(ToSuggestion(row));
    }

    method InsertInventory(items: seq<InsertRequest>) returns (r: Result<(), RepoError>)
      modifies this
      ensures (r, State()) == InsertInventorySpec(old(State()), items)
    {
      if items == [] {
        return Ok(());
      }
      var uid := RequireSessionUserId();
      if uid.Err? {
        return Err(uid.error);
      }
      var payloads := StampAll(items, uid.value);
      var failure := Request();
      if failure.Some? {
        return Err(Remote(failure.value));
      }
      inventory := inventory + payloads;
      r := Ok(());
    }
  }

  // Properties of insertUserIngredient

  /** Without a session nothing is sent and nothing is written. */
  lemma InsertUserIngredientNeedsSession(db: Db, name: string, newId: Uuid)
    requires db.session.None?
    ensures InsertUserIngredientSpec(db, name, newId) == (Err(AuthRequired), db)
  {
  }

  /**
   * What one call does to the tables: the inventory is never touched; the
   * ingredients either stay as they were or gain exactly one pending user
   * row carrying the given name, and only when no row had its key; a
   * success returns a row of the caller that has the key.
   */
  lemma InsertUserIngredientEffect(db: Db, name: string, newId: Uuid)
    ensures var (r, db') := InsertUserIngredientSpec(db, name, newId);
      db'.inventory == db.inventory && db'.session == db.session && db'.faults == db.faults
      && (r.Err? ==> db'.ingredients == db.ingredients)
      && (r.Ok? ==>
            exists row :: row in db'.ingredients
              && IsUserRowFor(row, db.session.value, NormalizedName(name)) && ToSuggestion(row) == r.value)
      && (db'.ingredients == db.ingredients
          || (db.session.Some?
              && db'.ingredients == db.ingredients + [NewUserRow(newId, name, db.session.value)]
              && FindUserIngredient(db.ingredients, db.session.value, NormalizedName(name)).None?
              && r == Ok(ToSuggestion(NewUserRow(newId, name, db.session.value)))))
  {
    var (r, db') := InsertUserIngredientSpec(db, name, newId);
    if r.Ok? && db'.ingredients != db.ingredients {
      var row := NewUserRow(newId, name, db.session.value);
      assert db'.ingredients[|db.ingredients|] == row;
    }
  }

  /**
   * Idempotence: a second call by the same user with a name that
   * normalizes the same way returns the same ingredient and adds no row.
   */
  lemma InsertUserIngredientIdempotent(db: Db, name1: string, id1: Uuid, name2: string, id2: Uuid)
    requires NormalizedName(name1) == NormalizedName(name2)
    requires InsertUserIngredientSpec(db, name1, id1).0.Ok?
    requires InsertUserIngredientSpec(InsertUserIngredientSpec(db, name1, id1).1, name2, id2).0.Ok?
    ensures var (r1, db1) := InsertUserIngredientSpec(db, name1, id1);
      var (r2, db2) := InsertUserIngredientSpec(db1, name2, id2);
      r2.value.id == r1.value.id && db2.ingredients == db1.ingredients
      && |db1.ingredients| <= |db.ingredients| + 1
  {
    var (r1, db1) := InsertUserIngredientSpec(db, name1, id1);
    var uid := db.session.value;
    var key := NormalizedName(name1);
    match FindUserIngredient(db.ingredients, uid, key)
    case Some(row) =>
      assert db1.ingredients == db.ingredients;
    case None =>
      var row := NewUserRow(id1, name1, uid);
      assert db1.ingredients == db.ingredients + [row];
      FindUserIngredientAppend(db.ingredients, [row], uid, key);
  }

  /** Deduplication keeps every user's normalized names distinct. */
  lemma InsertUserIngredientKeepsUnique(db: Db, name: string, newId: Uuid)
    requires UniqueUserKeys(db.ingredients)
    ensures UniqueUserKeys(InsertUserIngredientSpec(db, name, newId).1.ingredients)
  {
    var (r, db') := InsertUserIngredientSpec(db, name, newId);
    if db'.ingredients != db.ingredients {
      var uid := db.session.value;
      var row := NewUserRow(newId, name, uid);
      assert FindUserIngredient(db.ingredients, uid, NormalizedName(name)).None?;
      assert db'.ingredients == db.ingredients + [row];
      forall i, j | 0 <= i < j < |db'.ingredients| && db'.ingredients[i].scope == Some(ScopeUser)
        ensures !(db'.ingredients[j].scope == Some(ScopeUser)
          && db'.ingredients[j].ownerUserId == db'.ingredients[i].ownerUserId
          && db'.ingredients[j].normalizedName == db'.ingredients[i].normalizedName)
      {
        if j == |db.ingredients| {
          assert !IsUserRowFor(db.ingredients[i], uid, NormalizedName(name));
        }
      }
    }
  }

  // Properties of insertInventory

  /** An empty batch returns at once, even without a session. */
  lemma InsertInventoryEmpty(db: Db)
    ensures InsertInventorySpec(db, []) == (Ok(()), db)
  {
  }

  /**
   * A non-empty batch without a session fails with `AuthRequiredError`
   * and writes nothing; with one, it either appends one row per request,
   * in order, stamped with the caller's id, or fails and writes nothing.
   */
  lemma InsertInventoryEffect(db: Db, items: seq<InsertRequest>)
    requires items != []
    ensures var (r, db') := InsertInventorySpec(db, items);
      db'.ingredients == db.ingredients
      && (db.session.None? ==> r == Err(AuthRequired) && db' == db)
      && (r.Err? ==> db'.inventory == db.inventory)
      && (r.Ok? ==>
            db.session.Some?
            && |db'.inventory| == |db.inventory| + |items|
            && db'.inventory[..|db.inventory|] == db.inventory
            && forall i :: 0 <= i < |items| ==>
                 var rec := db'.inventory[|db.inventory| + i];
                 rec.id == items[i].inventoryId && rec.userId == db.session.value
                 && rec.ingredientId == items[i].ingredientId && rec.quantity == items[i].quantity
                 && rec.unit == items[i].unit && rec.expiresAt == items[i].expiresAt
                 && rec.location == items[i].location)
  {
    var (r, db') := InsertInventorySpec(db, items);
    if r.Ok? {
      var recs := StampAll(items, db.session.value);
      assert db'.inventory == db.inventory + recs;
      forall i | 0 <= i < |items| ensures db'.inventory[|db.inventory| + i] == recs[i] { }
    }
  }
}
