/**
 * `AddInventoryViewModel`: the editable rows of the "add to inventory"
 * screen and `submit`, which resolves every non-blank row to an ingredient
 * and then records all of them with one batch insert.
 *
 * The UUIDs the app draws at run time are parameters: `serverIds(k)` is the
 * id the server gives an ingredient created for row `k`, `clientIds(k)` the
 * `inventoryId` drawn for row `k`'s request.
 */
module AddInventory {
  import opened Wrappers
  import opened Text
  import opened Uuids
  import opened Numbers
  import opened InventoryRepository

  /** `InventoryInputRow` */
  datatype InputRow = InputRow(
    id: Uuid, nameInput: string, quantityInput: string, unitInput: string,
    location: string, expiresAt: Option<string>, selectedIngredient: Option<Suggestion>)

  const DefaultLocation := "冷蔵"
  const NoBackendMessage := "Supabaseが利用できません"
  const DoneMessage := "登録が完了しました"

  /** `InventoryInputRow()` with its defaults: empty inputs, location 冷蔵, nothing picked. */
  function NewRow(id: Uuid): InputRow {
    InputRow(id, "", "", "", DefaultLocation, None, None)
  }

  /** A row that `submit` skips: its name is empty after trimming. */
  predicate IsBlank(row: InputRow) {
    Trim(row.nameInput) == []
  }

  /** `Double(row.quantityInput) ?? 0` */
  function Quantity(row: InputRow): real {
    ParseDouble(row.quantityInput).GetOr(0.0)
  }

  /** The request built for `row` once it resolved to `ingredient`. */
  function MakeRequest(row: InputRow, ingredient: Suggestion, inventoryId: Uuid): InsertRequest {
    InsertRequest(
      ingredient.id, Quantity(row),
      if row.unitInput == [] then ingredient.unit.GetOr("") else row.unitInput,
      row.location, row.expiresAt, inventoryId)
  }

  /** `insertIfNeeded(row:suggestion:)` with a repository: a picked suggestion as is, else insert-or-find. */
  function Resolve(row: InputRow, suggestion: Option<Suggestion>, db: Db, newId: Uuid): (Result<Suggestion, RepoError>, Db) {
    match suggestion
    case Some(s) => (Ok(s), db)
    case None => InsertUserIngredientSpec(db, row.nameInput, newId)
  }

  /** The loop of `submit`: the requests for `rows` in order, or the first resolution error. */
  function ResolveRows(rows: seq<InputRow>, db: Db, serverIds: nat -> Uuid, clientIds: nat -> Uuid)
    : (Result<seq<InsertRequest>, RepoError>, Db)
    decreases |rows|
  {
    if rows == [] then (Ok([]), db)
    else
      var k := |rows| - 1;
      var (done, db1) := ResolveRows(rows[..k], db, serverIds, clientIds);
      if done.Err? || IsBlank(rows[k]) then (done, db1)
      else
        var (picked, db2) := Resolve(rows[k], rows[k].selectedIngredient, db1, serverIds(k));
        match picked
        case Err(e) => (Err(e), db2)
        case Ok(ingredient) => (Ok(done.value + [MakeRequest(rows[k], ingredient, clientIds(k))]), db2)
  }

  /** `submit()` with a repository: resolve every row, then one batch insert. */
  function SubmitSpec(rows: seq<InputRow>, db: Db, serverIds: nat -> Uuid, clientIds: nat -> Uuid)
    : (Result<(), RepoError>, Db)
  {
    var (built, db1) := ResolveRows(rows, db, serverIds, clientIds);
    match built
    case Err(e) => (Err(e), db1)
    case Ok(requests) => InsertInventorySpec(db1, requests)
  }

  /** `row` with `suggestion` picked, as `selectSuggestion` leaves it. */
  function Picked(row: InputRow, suggestion: Suggestion): InputRow {
    row.(selectedIngredient := Some(suggestion), nameInput := suggestion.name,
         unitInput := suggestion.unit.GetOr(row.unitInput))
  }

  /** `i` is the index `rows.firstIndex(where: { $0.id == id })` returns. */
  predicate IsFirstWithId(rows: seq<InputRow>, i: nat, id: Uuid) {
    i < |rows| && rows[i].id == id && forall k :: 0 <= k < i ==> rows[k].id != id
  }

  /** `rows.firstIndex(where: { $0.id == id })` */
  method FindRowIndex(rows: seq<InputRow>, id: Uuid) returns (idx: Option<nat>)
    ensures idx.None? ==> forall k :: 0 <= k < |rows| ==> rows[k].id != id
    ensures idx.Some? ==> IsFirstWithId(rows, idx.value, id)
  {
    var i := 0;
    while i < |rows|
      invariant 0 <= i <= |rows|
      invariant forall k :: 0 <= k < i ==> rows[k].id != id
    {
      if rows[i].id == id {
        return Some(i);
      }
      i := i + 1;
    }
    idx := None;
  }

  /** `rows.removeAll { $0.id == id }` */
  function WithoutId(rows: seq<InputRow>, id: Uuid): (r: seq<InputRow>)
    ensures forall row :: row in r <==> row in rows && row.id != id
  {
    if rows == [] then []
    else (if rows[0].id == id then [] else [rows[0]]) + WithoutId(rows[1..], id)
  }

  /** Removal keeps the order of the remaining rows: it works piece by piece. */
  lemma {:induction false} WithoutIdAppend(a: seq<InputRow>, b: seq<InputRow>, id: Uuid)
    ensures WithoutId(a + b, id) == WithoutId(a, id) + WithoutId(b, id)
  {
    if a == [] {
      assert a + b == b;
    } else {
      assert (a + b)[1..] == a[1..] + b;
      WithoutIdAppend(a[1..], b, id);
    }
  }

  class AddInventoryViewModel {
    var rows: seq<InputRow>
    var suggestions: seq<Suggestion>
    var isLoading: bool
    var errorMessage: Option<string>
    var successMessage: Option<string>
    const repository: Store?

    /** A fresh screen: one default row, no suggestions, no messages. */
    constructor (repository: Store?, firstRowId: Uuid)
      ensures this.repository == repository
      ensures rows == [NewRow(firstRowId)] && suggestions == []
      ensures !isLoading && errorMessage == None && successMessage == None
    {
      this.repository := repository;
      rows := [NewRow(firstRowId)];
      suggestions := [];
      isLoading := false;
      errorMessage := None;
      successMessage := None;
    }

    /**
     * The first row with id `rowId`, if there is one, takes the suggestion,
     * its name and, when the suggestion has one, its unit; no other row
     * changes; the suggestion list is cleared either way.
     */
    method SelectSuggestion(suggestion: Suggestion, rowId: Uuid)
      modifies this
      ensures (forall k :: 0 <= k < |old(rows)| ==> old(rows)[k].id != rowId) ==> rows == old(rows)
      ensures forall i: nat :: IsFirstWithId(old(rows), i, rowId) ==> rows == old(rows)[i := Picked(old(rows)[i], suggestion)]
      ensures suggestions == []
      ensures isLoading == old(isLoading) && errorMessage == old(errorMessage) && successMessage == old(successMessage)
    {
      var idx := FindRowIndex(rows, rowId);
      if idx.Some? {
        var i := idx.value;
        forall j: nat | IsFirstWithId(rows, j, rowId) ensures j == i {
          assert rows[j].id == rowId && rows[i].id == rowId;
        }
        rows := rows[i := Picked(rows[i], suggestion)];
      }
      suggestions := [];
    }

    /** Appends one default row. */
    method AddRow(newRowId: Uuid)
      modifies this
      ensures rows == old(rows) + [NewRow(newRowId)]
      ensures suggestions == old(suggestions) && isLoading == old(isLoading)
      ensures errorMessage == old(errorMessage) && successMessage == old(successMessage)
    {
      rows := rows + [NewRow(newRowId)];
    }

    /** Removes every row with the id of `row`, keeping the rest in order. */
    method RemoveRow(row: InputRow)
      modifies this
      ensures rows == WithoutId(old(rows), row.id)
      ensures suggestions == old(suggestions) && isLoading == old(isLoading)
      ensures errorMessage == old(errorMessage) && successMessage == old(successMessage)
    {
      rows := WithoutId(rows, row.id);
    }

    /** `insertIfNeeded(row:suggestion:)` */
    method InsertIfNeeded(row: InputRow, suggestion: Option<Suggestion>, newId: Uuid)
      returns (r: Result<Suggestion, RepoError>)
      modifies repository
      ensures repository == null ==> r == Err(NoRepository)
      ensures repository != null ==>
        (r, repository.State()) == Resolve(row, suggestion, old(repository.State()), newId)
    {
      if repository == null {
        return Err(NoRepository);
      }
      if suggestion.Some? {
        return Ok(suggestion.value);
      }
      r := repository.InsertUserIngredient(row.nameInput, newId);
    }

    /**
     * `submit()`. Without a repository only the error message changes.
     * Otherwise the repository ends in the state `SubmitSpec` gives, the
     * loading flag is down, and exactly one of the two messages is set.
     */
    method Submit(serverIds: nat -> Uuid, clientIds: nat -> Uuid)
      modifies this, repository
      ensures rows == old(rows) && suggestions == old(suggestions)
      ensures repository == null ==>
        errorMessage == Some(NoBackendMessage)
        && isLoading == old(isLoading) && successMessage == old(successMessage)
      ensures repository != null ==>
        var outcome := SubmitSpec(old(rows), old(repository.State()), serverIds, clientIds);
        repository.State() == outcome.1 && !isLoading
        && (outcome.0.Ok? ==> successMessage == Some(DoneMessage) && errorMessage == None)
        && (outcome.0.Err? ==> errorMessage == Some(Describe(outcome.0.error)) && successMessage == None)
    {
      if repository == null {
        errorMessage := Some(NoBackendMessage);
        return;
      }
      var repo := repository;
      errorMessage := None;
      successMessage := None;
      isLoading := true;
      ghost var db0 := repo.State();
      var snapshot := rows;
      var requests: seq<InsertRequest> := [];
      var failure: Option<RepoError> := None;
      var i := 0;
      while i < |snapshot| && failure.None?
        invariant 0 <= i <= |snapshot|
        invariant rows == snapshot == old(rows) && suggestions == old(suggestions)
        invariant errorMessage == None && successMessage == None
        invariant ResolveRows(snapshot[..i], db0, serverIds, clientIds)
          == (if failure.None? then Ok(requests) else Err(failure.value), repo.State())
      {
        var row := snapshot[i];
        assert snapshot[..i + 1][..i] == snapshot[..i];
        if Trim(row.nameInput) != [] {
          var selected := InsertIfNeeded(row, row.selectedIngredient, serverIds(i));
          if selected.Err? {
            failure := Some(selected.error);
          } else {
            requests := requests + [MakeRequest(row, selected.value, clientIds(i))];
          }
        }
        i := i + 1;
      }
      if failure.Some? {
        ResolveRowsStopsAtError(snapshot, i, db0, serverIds, clientIds);
        errorMessage := Some(Describe(failure.value));
      } else {
        assert snapshot[..i] == snapshot;
        var inserted := repo.InsertInventory(requests);
        if inserted.Err? {
          errorMessage := Some(Describe(inserted.error));
        } else {
          successMessage := Some(DoneMessage);
        }
      }
      isLoading := false;
    }
  }

  /** Once a prefix of the rows fails to resolve, the rest is never looked at. */
  lemma {:induction false} ResolveRowsStopsAtError(rows: seq<InputRow>, n: nat, db: Db, serverIds: nat -> Uuid, clientIds: nat -> Uuid)
    requires n <= |rows| && ResolveRows(rows[..n], db, serverIds, clientIds).0.Err?
    ensures ResolveRows(rows, db, serverIds, clientIds) == ResolveRows(rows[..n], db, serverIds, clientIds)
    decreases |rows| - n
  {
    if n < |rows| {
      var next := rows[..n + 1];
      assert next[..n] == rows[..n];
      assert ResolveRows(next, db, serverIds, clientIds) == ResolveRows(rows[..n], db, serverIds, clientIds);
      ResolveRowsStopsAtError(rows, n + 1, db, serverIds, clientIds);
    } else {
      assert rows[..n] == rows;
    }
  }

  // Properties of submit

  /** The rows `submit` builds requests for: the non-blank ones, in order. */
  function NonBlankRows(rows: seq<InputRow>): seq<InputRow>
    decreases |rows|
  {
    if rows == [] then []
    else
      var k := |rows| - 1;
      NonBlankRows(rows[..k]) + (if IsBlank(rows[k]) then [] else [rows[k]])
  }

  lemma {:induction false} NonBlankRowsEmpty(rows: seq<InputRow>)
    ensures NonBlankRows(rows) == [] <==> forall k :: 0 <= k < |rows| ==> IsBlank(rows[k])
    decreases |rows|
  {
    if rows != [] {
      var k := |rows| - 1;
      var init := rows[..k];
      NonBlankRowsEmpty(init);
      if NonBlankRows(rows) == [] {
        assert NonBlankRows(init) == [] && IsBlank(rows[k]);
        forall j | 0 <= j < |rows| ensures IsBlank(rows[j]) {
          if j < k { assert rows[j] == init[j]; }
        }
      } else if NonBlankRows(init) != [] {
        var j :| 0 <= j < |init| && !IsBlank(init[j]);
        assert rows[j] == init[j];
      }
    }
  }

  /** What a request takes from its row: location, expiry, quantity, unit and a picked ingredient. */
  predicate CopiesRow(req: InsertRequest, row: InputRow) {
    req.location == row.location && req.expiresAt == row.expiresAt && req.quantity == Quantity(row)
    && (row.unitInput != [] ==> req.unit == row.unitInput)
    && (row.selectedIngredient.Some? ==>
          req.ingredientId == row.selectedIngredient.value.id
          && (row.unitInput == [] ==> req.unit == row.selectedIngredient.value.unit.GetOr("")))
  }

  /** Resolution yields one request per non-blank row, in row order, each copied from its row. */
  lemma {:induction false} ResolveRowsCopies(rows: seq<InputRow>, db: Db, serverIds: nat -> Uuid, clientIds: nat -> Uuid)
    ensures var built := ResolveRows(rows, db, serverIds, clientIds).0;
      built.Ok? ==>
        |built.value| == |NonBlankRows(rows)|
        && forall j :: 0 <= j < |built.value| ==> CopiesRow(built.value[j], NonBlankRows(rows)[j])
    decreases |rows|
  {
    if rows != [] {
      var k := |rows| - 1;
      ResolveRowsCopies(rows[..k], db, serverIds, clientIds);
    }
  }

  /**
   * What a request takes from a row typed without a picked suggestion: the
   * id of the caller's user ingredient with the row's normalized name, and
   * that ingredient's unit (or "") when no unit was typed.
   */
  predicate CarriesUserIngredient(req: InsertRequest, row: InputRow, ingredients: seq<IngredientRow>, uid: Uuid) {
    exists ing :: ing in ingredients && IsUserRowFor(ing, uid, NormalizedName(row.nameInput))
      && req.ingredientId == ing.id && (row.unitInput == [] ==> req.unit == ing.unit.GetOr(""))
  }

  /**
   * A row typed without a picked suggestion gets the ingredient that
   * insert-or-find resolved its name to: a row of the signed-in user, with
   * that normalized name, present in the ingredients table afterwards.
   */
  lemma {:induction false} ResolveRowsTypedRows(rows: seq<InputRow>, db: Db, serverIds: nat -> Uuid, clientIds: nat -> Uuid)
    ensures var (built, db') := ResolveRows(rows, db, serverIds, clientIds);
      built.Ok? ==>
        |built.value| == |NonBlankRows(rows)|
        && forall j :: 0 <= j < |built.value| && NonBlankRows(rows)[j].selectedIngredient.None? ==>
             db.session.Some?
             && CarriesUserIngredient(built.value[j], NonBlankRows(rows)[j], db'.ingredients, db.session.value)
    decreases |rows|
  {
    if rows != [] {
      var k := |rows| - 1;
      var init := rows[..k];
      ResolveRowsTypedRows(init, db, serverIds, clientIds);
      ResolveRowsFrame(init, db, serverIds, clientIds);
      var (done, db1) := ResolveRows(init, db, serverIds, clientIds);
      var (built, db') := ResolveRows(rows, db, serverIds, clientIds);
      if built.Ok? && done.Ok? && !IsBlank(rows[k]) {
        var row := rows[k];
        var (picked, db2) := Resolve(row, row.selectedIngredient, db1, serverIds(k));
        assert db' == db2 && picked.Ok?;
        var req := MakeRequest(row, picked.value, clientIds(k));
        assert built.value == done.value + [req];
        assert NonBlankRows(rows) == NonBlankRows(init) + [row];
        if row.selectedIngredient.None? {
          InsertUserIngredientEffect(db1, row.nameInput, serverIds(k));
        }
        assert forall ing :: ing in db1.ingredients ==> ing in db'.ingredients;
        forall j | 0 <= j < |built.value| && NonBlankRows(rows)[j].selectedIngredient.None?
          ensures db.session.Some?
            && CarriesUserIngredient(built.value[j], NonBlankRows(rows)[j], db'.ingredients, db.session.value)
        {
          if j < |done.value| {
            assert built.value[j] == done.value[j] && NonBlankRows(rows)[j] == NonBlankRows(init)[j];
            var ing :| ing in db1.ingredients && IsUserRowFor(ing, db.session.value, NormalizedName(NonBlankRows(init)[j].nameInput))
              && done.value[j].ingredientId == ing.id
              && (NonBlankRows(init)[j].unitInput == [] ==> done.value[j].unit == ing.unit.GetOr(""));
            assert ing in db'.ingredients;
          } else {
            assert built.value[j] == req && NonBlankRows(rows)[j] == row;
            var ing :| ing in db'.ingredients && IsUserRowFor(ing, db1.session.value, NormalizedName(row.nameInput))
              && ToSuggestion(ing) == picked.value;
            assert req.ingredientId == ing.id;
          }
        }
      }
    }
  }

  /** Resolution never writes inventory and only ever appends ingredients. */
  lemma {:induction false} ResolveRowsFrame(rows: seq<InputRow>, db: Db, serverIds: nat -> Uuid, clientIds: nat -> Uuid)
    ensures var db' := ResolveRows(rows, db, serverIds, clientIds).1;
      db'.inventory == db.inventory && db'.session == db.session && db'.faults == db.faults
      && |db.ingredients| <= |db'.ingredients| && db'.ingredients[..|db.ingredients|] == db.ingredients
    decreases |rows|
  {
    if rows != [] {
      var k := |rows| - 1;
      ResolveRowsFrame(rows[..k], db, serverIds, clientIds);
      var (done, db1) := ResolveRows(rows[..k], db, serverIds, clientIds);
      if done.Ok? && !IsBlank(rows[k]) && rows[k].selectedIngredient.None? {
        InsertUserIngredientEffect(db1, rows[k].nameInput, serverIds(k));
      }
    }
  }

  /**
   * No partial commit: inventory is written only when every row resolved,
   * and then once, with one stamped row per request; a failure anywhere
   * leaves the inventory table as it was.
   */
  lemma SubmitAtomic(rows: seq<InputRow>, db: Db, serverIds: nat -> Uuid, clientIds: nat -> Uuid)
    ensures var (out, db') := SubmitSpec(rows, db, serverIds, clientIds);
      var built := ResolveRows(rows, db, serverIds, clientIds).0;
      (built.Err? ==> out == Err(built.error))
      && (out.Err? ==> db'.inventory == db.inventory)
      && (out.Ok? ==>
            built.Ok? && |built.value| == |NonBlankRows(rows)|
            && (built.value == [] ==> db'.inventory == db.inventory)
            && (built.value != [] ==>
                  db.session.Some?
                  && db'.inventory == db.inventory + StampAll(built.value, db.session.value)))
  {
    ResolveRowsFrame(rows, db, serverIds, clientIds);
    ResolveRowsCopies(rows, db, serverIds, clientIds);
  }

  /** Rows with nothing typed in make `submit` a success that sends nothing. */
  lemma {:induction false} SubmitAllBlank(rows: seq<InputRow>, db: Db, serverIds: nat -> Uuid, clientIds: nat -> Uuid)
    requires forall k :: 0 <= k < |rows| ==> IsBlank(rows[k])
    ensures ResolveRows(rows, db, serverIds, clientIds) == (Ok([]), db)
    ensures SubmitSpec(rows, db, serverIds, clientIds) == (Ok(()), db)
    decreases |rows|
  {
    if rows != [] {
      var k := |rows| - 1;
      SubmitAllBlank(rows[..k], db, serverIds, clientIds);
    }
  }

  /** When every non-blank row has a picked suggestion, resolution sends nothing and writes nothing. */
  lemma {:induction false} ResolveRowsAllPicked(rows: seq<InputRow>, db: Db, serverIds: nat -> Uuid, clientIds: nat -> Uuid)
    requires forall k :: 0 <= k < |rows| && !IsBlank(rows[k]) ==> rows[k].selectedIngredient.Some?
    ensures ResolveRows(rows, db, serverIds, clientIds).0.Ok?
    ensures ResolveRows(rows, db, serverIds, clientIds).1 == db
    decreases |rows|
  {
    if rows != [] {
      var k := |rows| - 1;
      ResolveRowsAllPicked(rows[..k], db, serverIds, clientIds);
    }
  }

  /** Without a session resolution writes nothing and can only fail with `AuthRequiredError`. */
  lemma {:induction false} ResolveRowsWithoutSession(rows: seq<InputRow>, db: Db, serverIds: nat -> Uuid, clientIds: nat -> Uuid)
    requires db.session.None?
    ensures ResolveRows(rows, db, serverIds, clientIds).1 == db
    ensures ResolveRows(rows, db, serverIds, clientIds).0.Err? ==>
      ResolveRows(rows, db, serverIds, clientIds).0.error == AuthRequired
    decreases |rows|
  {
    if rows != [] {
      var k := |rows| - 1;
      ResolveRowsWithoutSession(rows[..k], db, serverIds, clientIds);
    }
  }

  /** Signed out, a submission with any non-blank row fails with `AuthRequiredError` and sends nothing. */
  lemma SubmitWithoutSession(rows: seq<InputRow>, db: Db, serverIds: nat -> Uuid, clientIds: nat -> Uuid, k: nat)
    requires db.session.None? && k < |rows| && !IsBlank(rows[k])
    ensures SubmitSpec(rows, db, serverIds, clientIds) == (Err(AuthRequired), db)
  {
    ResolveRowsWithoutSession(rows, db, serverIds, clientIds);
    ResolveRowsCopies(rows, db, serverIds, clientIds);
    NonBlankRowsEmpty(rows);
  }

  /** Submitting keeps every user's normalized ingredient names distinct. */
  lemma {:induction false} SubmitKeepsUnique(rows: seq<InputRow>, db: Db, serverIds: nat -> Uuid, clientIds: nat -> Uuid)
    requires UniqueUserKeys(db.ingredients)
    ensures UniqueUserKeys(ResolveRows(rows, db, serverIds, clientIds).1.ingredients)
    ensures UniqueUserKeys(SubmitSpec(rows, db, serverIds, clientIds).1.ingredients)
    decreases |rows|
  {
    if rows != [] {
      var k := |rows| - 1;
      SubmitKeepsUnique(rows[..k], db, serverIds, clientIds);
      var (done, db1) := ResolveRows(rows[..k], db, serverIds, clientIds);
      if done.Ok? && !IsBlank(rows[k]) && rows[k].selectedIngredient.None? {
        InsertUserIngredientKeepsUnique(db1, rows[k].nameInput, serverIds(k));
      }
    }
  }

  /** Every non-blank row without a pick has an ingredient of `uid` under its normalized name. */
  predicate KeysPresent(rows: seq<InputRow>, ingredients: seq<IngredientRow>, uid: Uuid) {
    forall k :: 0 <= k < |rows| && !IsBlank(rows[k]) && rows[k].selectedIngredient.None? ==>
      FindUserIngredient(ingredients, uid, NormalizedName(rows[k].nameInput)).Some?
  }

  /** Appending ingredients never loses a key. */
  lemma KeysPresentGrow(rows: seq<InputRow>, a: seq<IngredientRow>, b: seq<IngredientRow>, uid: Uuid)
    requires KeysPresent(rows, a, uid) && |a| <= |b| && b[..|a|] == a
    ensures KeysPresent(rows, b, uid)
  {
    assert a + b[|a|..] == b;
    forall k | 0 <= k < |rows| && !IsBlank(rows[k]) && rows[k].selectedIngredient.None?
      ensures FindUserIngredient(b, uid, NormalizedName(rows[k].nameInput)).Some?
    {
      FindUserIngredientAppend(a, b[|a|..], uid, NormalizedName(rows[k].nameInput));
    }
  }

  /** Keys present for all rows but the last, and for the last one, are present for all rows. */
  lemma KeysPresentExtend(rows: seq<InputRow>, ingredients: seq<IngredientRow>, uid: Uuid)
    requires rows != [] && KeysPresent(rows[..|rows| - 1], ingredients, uid)
    requires !IsBlank(rows[|rows| - 1]) && rows[|rows| - 1].selectedIngredient.None? ==>
      FindUserIngredient(ingredients, uid, NormalizedName(rows[|rows| - 1].nameInput)).Some?
    ensures KeysPresent(rows, ingredients, uid)
  {
    var init := rows[..|rows| - 1];
    forall k | 0 <= k < |rows| - 1 ensures rows[k] == init[k] { }
  }

  /** After resolving every row, each typed name has its ingredient in the table. */
  lemma {:induction false} ResolveRowsLeavesKeys(rows: seq<InputRow>, db: Db, serverIds: nat -> Uuid, clientIds: nat -> Uuid)
    requires db.session.Some?
    ensures var (built, db') := ResolveRows(rows, db, serverIds, clientIds);
      built.Ok? ==> KeysPresent(rows, db'.ingredients, db.session.value)
    decreases |rows|
  {
    if rows != [] {
      var k := |rows| - 1;
      var uid := db.session.value;
      var init := rows[..k];
      ResolveRowsLeavesKeys(init, db, serverIds, clientIds);
      ResolveRowsFrame(init, db, serverIds, clientIds);
      var (done, db1) := ResolveRows(init, db, serverIds, clientIds);
      var (built, db2) := ResolveRows(rows, db, serverIds, clientIds);
      if built.Ok? {
        assert done.Ok?;
        if !IsBlank(rows[k]) && rows[k].selectedIngredient.None? {
          var key := NormalizedName(rows[k].nameInput);
          InsertUserIngredientEffect(db1, rows[k].nameInput, serverIds(k));
          assert db1.session == Some(uid);
          var row :| row in db2.ingredients && IsUserRowFor(row, uid, key);
          KeysPresentGrow(init, db1.ingredients, db2.ingredients, uid);
          KeysPresentExtend(rows, db2.ingredients, uid);
        } else {
          assert db2 == db1;
          KeysPresentExtend(rows, db2.ingredients, uid);
        }
      }
    }
  }

  /** When every typed name already has its ingredient, resolution creates none. */
  lemma {:induction false} ResolveRowsCreatesNothing(rows: seq<InputRow>, db: Db, serverIds: nat -> Uuid, clientIds: nat -> Uuid)
    requires db.session.Some? && KeysPresent(rows, db.ingredients, db.session.value)
    ensures ResolveRows(rows, db, serverIds, clientIds).1.ingredients == db.ingredients
    decreases |rows|
  {
    if rows != [] {
      var k := |rows| - 1;
      assert KeysPresent(rows[..k], db.ingredients, db.session.value) by {
        forall j | 0 <= j < k ensures rows[..k][j] == rows[j] { }
      }
      ResolveRowsCreatesNothing(rows[..k], db, serverIds, clientIds);
      var (done, db1) := ResolveRows(rows[..k], db, serverIds, clientIds);
      if done.Ok? && !IsBlank(rows[k]) && rows[k].selectedIngredient.None? {
        ResolveRowsFrame(rows[..k], db, serverIds, clientIds);
        InsertUserIngredientEffect(db1, rows[k].nameInput, serverIds(k));
      }
    }
  }

  /**
   * Retrying is safe: after every row resolved once (for instance, when
   * the batch insert then failed), submitting the same rows again creates
   * no further ingredient rows, whatever the second attempt's outcome.
   */
  lemma SubmitRetryCreatesNothing(rows: seq<InputRow>, db: Db, serverIds: nat -> Uuid, clientIds: nat -> Uuid,
                                  retry: Db, serverIds2: nat -> Uuid, clientIds2: nat -> Uuid)
    requires db.session.Some? && ResolveRows(rows, db, serverIds, clientIds).0.Ok?
    requires retry.session == db.session
    requires retry.ingredients == ResolveRows(rows, db, serverIds, clientIds).1.ingredients
    ensures SubmitSpec(rows, retry, serverIds2, clientIds2).1.ingredients == retry.ingredients
  {
    ResolveRowsLeavesKeys(rows, db, serverIds, clientIds);
    ResolveRowsCreatesNothing(rows, retry, serverIds2, clientIds2);
  }
}
