/**
 * The pets content provider: a two-entry URI router, field validation before
 * every write, and insert/query/update/delete over one table of pets, with a
 * change notification after every write that touched a row.
 */
module Provider {
  import opened Wrappers
  import opened JavaText
  import opened PetContract
  import opened ContentValues

  /** A value set handed to insert or update; its keys are pet columns. */
  type PetValues = m: map<string, Value> | m.Keys <= PET_COLUMNS

  /** The exceptions the provider throws. */
  datatype Failure =
    | UnsupportedUri   // IllegalArgumentException: the URI matched neither pattern
    | NullName         // NullPointerException: `name.isEmpty()` on a missing name
    | NameRequired     // IllegalArgumentException("Pet requires a name")
    | InvalidWeight    // IllegalArgumentException("Pet requires valid weight")

  // ---------------------------------------------------------------- routing

  /** The matcher codes. */
  const PETS: int := 100
  const PET_ID: int := 101
  const NO_MATCH: int := -1

  /** `sUriMatcher.match(uri)`: `pets` and `pets/#` are the only patterns registered. */
  function Match(uri: Uri): (code: int)
    ensures code == PETS <==> uri == Collection
    ensures code == PET_ID <==> uri.Item?
    ensures code == NO_MATCH <==> uri == Unknown
  {
    match uri
    case Collection => PETS
    case Item(_) => PET_ID
    case Unknown => NO_MATCH
  }

  /** `getType`: the list type for the collection, the item type for one pet, else an error. */
  function GetType(uri: Uri): (r: Result<string, Failure>)
    ensures r == Ok(CONTENT_LIST_TYPE) <==> uri == Collection
    ensures r == Ok(CONTENT_ITEM_TYPE) <==> uri.Item?
    ensures r == Err(UnsupportedUri) <==> uri == Unknown
  {
    assert CONTENT_LIST_TYPE[19] == 'd' && CONTENT_ITEM_TYPE[19] == 'i';
    var code := Match(uri);
    if code == PETS then Ok(CONTENT_LIST_TYPE)
    else if code == PET_ID then Ok(CONTENT_ITEM_TYPE)
    else Err(UnsupportedUri)
  }

  // ------------------------------------------------------------------- rows

  /** One row of the pets table: each column holds what was written to it, NULL if nothing was. */
  datatype Pet = Pet(name: Value, breed: Value, gender: Value, weight: Value)

  const EmptyRow: Pet := Pet(Null, Null, Null, Null)

  /** The cell of `p` under a column name. */
  function Column(p: Pet, key: string): Value
    requires key in PET_COLUMNS
  {
    if key == COLUMN_PET_NAME then p.name
    else if key == COLUMN_PET_BREED then p.breed
    else if key == COLUMN_PET_GENDER then p.gender
    else p.weight
  }

  /** Row `p` after an SQL UPDATE with `values`: the columns named are replaced, the others kept. */
  function Apply(p: Pet, values: PetValues): (q: Pet)
    ensures forall key :: key in PET_COLUMNS ==>
      Column(q, key) == if key in values then values[key] else Column(p, key)
  {
    Pet(if COLUMN_PET_NAME in values then values[COLUMN_PET_NAME] else p.name,
        if COLUMN_PET_BREED in values then values[COLUMN_PET_BREED] else p.breed,
        if COLUMN_PET_GENDER in values then values[COLUMN_PET_GENDER] else p.gender,
        if COLUMN_PET_WEIGHT in values then values[COLUMN_PET_WEIGHT] else p.weight)
  }

  /** The row an SQL INSERT with `values` creates: the columns not named are NULL. */
  function NewRow(values: PetValues): (p: Pet)
    ensures forall key :: key in PET_COLUMNS ==>
      Column(p, key) == if key in values then values[key] else Null
  {
    Apply(EmptyRow, values)
  }

  /** A name the provider accepts: readable as a string, and not empty. */
  predicate ValidName(v: Value) {
    AsString(v).Some? && AsString(v).value != []
  }

  /** A weight the provider accepts: readable as an integer, and not negative. */
  predicate ValidWeight(v: Value) {
    AsInteger(v).Some? && AsInteger(v).value >= 0
  }

  /** What every row the provider writes satisfies. */
  predicate ValidRow(p: Pet) {
    ValidName(p.name) && ValidWeight(p.weight)
  }

  // ------------------------------------------------------------- validation

  /** The name check: `getAsString`, then `isEmpty()` on the result. */
  function CheckName(values: PetValues): (r: Option<Failure>)
    ensures r == None <==> ValidName(Lookup(values, COLUMN_PET_NAME))
    ensures r == None || r == Some(NullName) || r == Some(NameRequired)
  {
    match GetAsString(values, COLUMN_PET_NAME)
    case None => Some(NullName)
    case Some(name) => if name == [] then Some(NameRequired) else None
  }

  /** The weight check: `getAsInteger`, then `weight == null || weight < 0`. */
  function CheckWeight(values: PetValues): (r: Option<Failure>)
    ensures r == None <==> ValidWeight(Lookup(values, COLUMN_PET_WEIGHT))
    ensures r == None || r == Some(InvalidWeight)
  {
    match GetAsInteger(values, COLUMN_PET_WEIGHT)
    case None => Some(InvalidWeight)
    case Some(w) => if w < 0 then Some(InvalidWeight) else None
  }

  /**
   * The checks `insertPet` makes before writing: the name first, then the
   * weight. A missing weight is refused; it does not default to 0.
   */
  function InsertCheck(values: PetValues): (r: Option<Failure>)
    ensures r == None <==> ValidRow(NewRow(values))
    ensures r == Some(NullName) <==> GetAsString(values, COLUMN_PET_NAME) == None
    ensures r == Some(NameRequired) <==> GetAsString(values, COLUMN_PET_NAME) == Some([])
    ensures r == Some(InvalidWeight) <==>
      ValidName(Lookup(values, COLUMN_PET_NAME)) && !ValidWeight(Lookup(values, COLUMN_PET_WEIGHT))
  {
    if CheckName(values).Some? then CheckName(values) else CheckWeight(values)
  }

  /** The checks `updatePet` makes: each applies only when its key is present. */
  function UpdateCheck(values: PetValues): (r: Option<Failure>)
    ensures COLUMN_PET_NAME !in values && COLUMN_PET_WEIGHT !in values ==> r == None
    ensures r == Some(NullName) || r == Some(NameRequired) ==> COLUMN_PET_NAME in values
    ensures r == Some(InvalidWeight) ==> COLUMN_PET_WEIGHT in values
    ensures r != Some(UnsupportedUri)
    ensures r == Some(NullName) <==>
      COLUMN_PET_NAME in values && GetAsString(values, COLUMN_PET_NAME) == None
    ensures r == Some(NameRequired) <==>
      COLUMN_PET_NAME in values && GetAsString(values, COLUMN_PET_NAME) == Some([])
    ensures r == Some(InvalidWeight) <==>
      && (COLUMN_PET_NAME !in values || ValidName(values[COLUMN_PET_NAME]))
      && COLUMN_PET_WEIGHT in values && !ValidWeight(values[COLUMN_PET_WEIGHT])
  {
    if COLUMN_PET_NAME in values && CheckName(values).Some? then CheckName(values)
    else if COLUMN_PET_WEIGHT in values then CheckWeight(values)
    else None
  }

  /** The cell a value set gives a column, NULL when the key is absent. */
  function Lookup(values: PetValues, key: string): Value {
    if key in values then values[key] else Null
  }

  /**
   * The update checks accept a value set exactly when applying it to a valid
   * row gives a valid row.
   */
  lemma UpdateCheckKeepsRowsValid(p: Pet, values: PetValues)
    requires ValidRow(p)
    ensures UpdateCheck(values) == None <==> ValidRow(Apply(p, values))
  {
  }

  // -------------------------------------------------------------- the store

  /**
   * A row selector: no selection (every row), or a WHERE clause given as a
   * predicate on the row id and the row.
   */
  datatype Selection = AllRows | Where(holds: (int, Pet) -> bool)

  /** The selection `_id=?` with the URI's id as argument. */
  function ItemSelection(id: nat): Selection {
    Where((rowId: int, p: Pet) => rowId == id)
  }

  /** The selection an operation uses: an item URI replaces the caller's selection by its id. */
  function Effective(uri: Uri, sel: Selection): Selection {
    if uri.Item? then ItemSelection(uri.id) else sel
  }

  /** The ids of the rows a selection matches. */
  function Selected(table: map<int, Pet>, sel: Selection): (ids: set<int>)
    ensures ids <= table.Keys
  {
    match sel
    case AllRows => table.Keys
    case Where(holds) => set id | id in table && holds(id, table[id])
  }

  /** The item selection matches the row with that id and nothing else. */
  lemma ItemSelectionMatchesOnlyId(table: map<int, Pet>, id: nat)
    ensures Selected(table, ItemSelection(id)) == if id in table then {id} else {}
  {
    var ids := Selected(table, ItemSelection(id));
    if id in table {
      assert id in ids;
    }
  }

  /** The table after updating the rows `ids` with `values`. */
  function Updated(table: map<int, Pet>, ids: set<int>, values: PetValues): (t: map<int, Pet>)
    ensures t.Keys == table.Keys
  {
    map id | id in table :: if id in ids then Apply(table[id], values) else table[id]
  }

  /** The table, the id the next insert gets, and the URIs notified so far. */
  datatype Store = Store(table: map<int, Pet>, nextId: nat, notifications: seq<Uri>)

  /** Ids are positive and below the next id; every row passed validation. */
  predicate ValidStore(s: Store) {
    && 1 <= s.nextId
    && (forall id :: id in s.table ==> 1 <= id < s.nextId)
    && (forall id :: id in s.table ==> ValidRow(s.table[id]))
  }

  /** The notification log after a write that affected `count` rows. */
  function Notified(log: seq<Uri>, uri: Uri, count: nat): seq<Uri> {
    if count != 0 then log + [uri] else log
  }

  /**
   * `insertPet`: the checks, then the store's insert. `storeFails` is the
   * store reporting -1, which the caller sees as a null URI.
   */
  ghost predicate InsertPetSpec(s: Store, uri: Uri, values: PetValues, storeFails: bool,
                                r: Result<Option<Uri>, Failure>, s': Store)
  {
    match InsertCheck(values)
    case Some(f) => r == Err(f) && s' == s
    case None =>
      if storeFails then r == Ok(None) && s' == s
      else
        && r == Ok(Some(Item(s.nextId)))
        && s' == Store(s.table[s.nextId := NewRow(values)], s.nextId + 1, s.notifications + [uri])
  }

  /** `insert`: only the collection URI accepts an insert. */
  ghost predicate InsertSpec(s: Store, uri: Uri, values: PetValues, storeFails: bool,
                             r: Result<Option<Uri>, Failure>, s': Store)
  {
    if uri == Collection then InsertPetSpec(s, uri, values, storeFails, r, s')
    else r == Err(UnsupportedUri) && s' == s
  }

  /**
   * `updatePet`: an empty value set changes nothing; otherwise the checks,
   * then every selected row is updated and their number returned.
   */
  ghost predicate UpdatePetSpec(s: Store, uri: Uri, values: PetValues, sel: Selection,
                                r: Result<nat, Failure>, s': Store)
  {
    if |values| == 0 then r == Ok(0) && s' == s
    else match UpdateCheck(values)
      case Some(f) => r == Err(f) && s' == s
      case None =>
        var ids := Selected(s.table, sel);
        && r == Ok(|ids|)
        && s' == Store(Updated(s.table, ids, values), s.nextId, Notified(s.notifications, uri, |ids|))
  }

  /** `update`: on the collection with the caller's selection, on an item with its id. */
  ghost predicate UpdateSpec(s: Store, uri: Uri, values: PetValues, sel: Selection,
                             r: Result<nat, Failure>, s': Store)
  {
    if uri == Unknown then r == Err(UnsupportedUri) && s' == s
    else UpdatePetSpec(s, uri, values, Effective(uri, sel), r, s')
  }

  /** `delete`: every selected row is removed and their number returned. */
  ghost predicate DeleteSpec(s: Store, uri: Uri, sel: Selection, r: Result<nat, Failure>, s': Store)
  {
    if uri == Unknown then r == Err(UnsupportedUri) && s' == s
    else
      var ids := Selected(s.table, Effective(uri, sel));
      && r == Ok(|ids|)
      && s' == Store(s.table - ids, s.nextId, Notified(s.notifications, uri, |ids|))
  }

  // ------------------------------------------------------------- properties

  /** An insert keeps the store valid. */
  lemma InsertKeepsStoreValid(s: Store, uri: Uri, values: PetValues, storeFails: bool,
                              r: Result<Option<Uri>, Failure>, s': Store)
    requires ValidStore(s) && InsertSpec(s, uri, values, storeFails, r, s')
    ensures ValidStore(s')
  {
  }

  /** An update keeps the store valid: the checks admit only values that keep rows valid. */
  lemma UpdateKeepsStoreValid(s: Store, uri: Uri, values: PetValues, sel: Selection,
                              r: Result<nat, Failure>, s': Store)
    requires ValidStore(s) && UpdatePetSpec(s, uri, values, sel, r, s')
    ensures ValidStore(s')
  {
    if s' != s {
      forall id | id in s'.table ensures ValidRow(s'.table[id]) {
        UpdateCheckKeepsRowsValid(s.table[id], values);
      }
    }
  }

  /** A delete keeps the store valid. */
  lemma DeleteKeepsStoreValid(s: Store, uri: Uri, sel: Selection, r: Result<nat, Failure>, s': Store)
    requires ValidStore(s) && DeleteSpec(s, uri, sel, r, s')
    ensures ValidStore(s')
  {
  }

  /**
   * A successful insert adds exactly one row, under an id no row had, holding
   * exactly the values given; every other row is as it was; the collection URI
   * is notified once, and the returned URI is the collection URI with the id.
   */
  lemma InsertAddsOneFreshRow(s: Store, uri: Uri, values: PetValues, storeFails: bool,
                              r: Result<Option<Uri>, Failure>, s': Store)
    requires ValidStore(s) && InsertSpec(s, uri, values, storeFails, r, s')
    requires r.Ok? && r.value.Some?
    ensures uri == Collection && InsertCheck(values) == None && !storeFails
    ensures r.value.value.Item? && r.value.value.id !in s.table
    ensures s'.table.Keys == s.table.Keys + {r.value.value.id}
    ensures forall key :: key in PET_COLUMNS ==>
      Column(s'.table[r.value.value.id], key) == Lookup(values, key)
    ensures forall id :: id in s.table ==> s'.table[id] == s.table[id]
    ensures s'.notifications == s.notifications + [Collection]
  {
    assert s.nextId !in s.table;
  }

  /** An insert that fails, or that the store refuses, writes and notifies nothing. */
  lemma InsertFailureChangesNothing(s: Store, uri: Uri, values: PetValues, storeFails: bool,
                                    r: Result<Option<Uri>, Failure>, s': Store)
    requires InsertSpec(s, uri, values, storeFails, r, s')
    requires r.Err? || r == Ok(None)
    ensures s' == s
    ensures r.Err? <==> uri != Collection || InsertCheck(values) != None
    ensures uri != Collection ==> r == Err(UnsupportedUri)
  {
  }

  /**
   * An update through an item URI touches only the row with that id: it
   * reports 1 when that row exists and the value set is not empty, 0
   * otherwise, and notifies the item URI exactly when it reports 1.
   */
  lemma ItemUpdateTouchesOnlyItsRow(s: Store, id: nat, values: PetValues, sel: Selection,
                                    r: Result<nat, Failure>, s': Store)
    requires UpdateSpec(s, Item(id), values, sel, r, s') && r.Ok?
    ensures r.value == (if id in s.table && |values| != 0 then 1 else 0)
    ensures s'.table.Keys == s.table.Keys
    ensures forall k :: k in s.table && k != id ==> s'.table[k] == s.table[k]
    ensures id in s.table && |values| != 0 ==> s'.table[id] == Apply(s.table[id], values)
    ensures s'.notifications == (if r.value != 0 then s.notifications + [Item(id)] else s.notifications)
  {
    if |values| != 0 {
      ItemSelectionMatchesOnlyId(s.table, id);
    }
  }

  /**
   * A delete through an item URI removes the row with that id and no other,
   * reports how many rows went (so 0 for an id not in the table), and
   * notifies exactly when that count is not 0.
   */
  lemma ItemDeleteRemovesOnlyItsRow(s: Store, id: nat, sel: Selection, r: Result<nat, Failure>, s': Store)
    requires DeleteSpec(s, Item(id), sel, r, s')
    ensures r == Ok(if id in s.table then 1 else 0)
    ensures s'.table == s.table - {id}
    ensures s'.notifications == (if id in s.table then s.notifications + [Item(id)] else s.notifications)
  {
    ItemSelectionMatchesOnlyId(s.table, id);
  }

  /**
   * A write through the collection URI notifies it exactly when some row was
   * affected; rows the selection does not match are left as they were.
   */
  lemma CollectionWriteFrame(s: Store, values: PetValues, sel: Selection,
                             ru: Result<nat, Failure>, su: Store,
                             rd: Result<nat, Failure>, sd: Store)
    requires UpdateSpec(s, Collection, values, sel, ru, su) && ru.Ok?
    requires DeleteSpec(s, Collection, sel, rd, sd)
    ensures forall k :: k in s.table && k !in Selected(s.table, sel) ==>
      k in su.table && su.table[k] == s.table[k] && k in sd.table && sd.table[k] == s.table[k]
    ensures su.notifications == s.notifications + [Collection] <==> ru.value != 0
    ensures sd.notifications == s.notifications + [Collection] <==> rd.value != 0
    ensures su.notifications == s.notifications <==> ru.value == 0
    ensures sd.notifications == s.notifications <==> rd.value == 0
  {
  }

  // ---------------------------------------------------------- the provider

  class PetProvider {
    var table: map<int, Pet>
    var nextId: nat
    /** The URIs passed to `notifyChange`, oldest first. */
    ghost var notifications: seq<Uri>

    ghost function Snapshot(): Store
      reads this
    {
      Store(table, nextId, notifications)
    }

    ghost predicate Valid()
      reads this
    {
      ValidStore(Snapshot())
    }

    /** A provider over a fresh, empty table. */
    constructor ()
      ensures Valid()
      ensures Snapshot() == Store(map[], 1, [])
    {
      table := map[];
      nextId := 1;
      notifications := [];
    }

    /**
     * `query`: the rows the URI (and, for the collection, the selection)
     * matches; an unknown URI is an error.
     */
    method Query(uri: Uri, sel: Selection) returns (r: Result<map<int, Pet>, Failure>)
      ensures r.Err? <==> uri == Unknown
      ensures r.Err? ==> r.error == UnsupportedUri
      ensures r.Ok? ==> r.value.Keys == Selected(table, Effective(uri, sel))
      ensures r.Ok? ==> forall id :: id in r.value ==> id in table && r.value[id] == table[id]
      ensures uri.Item? && r.Ok? ==> r.value.Keys <= {uri.id}
    {
      var code := Match(uri);
      if code == PETS || code == PET_ID {
        var ids := Selected(table, Effective(uri, sel));
        r := Ok(map id | id in ids :: table[id]);
        if code == PET_ID {
          ItemSelectionMatchesOnlyId(table, uri.id);
        }
      } else {
        r := Err(UnsupportedUri);
      }
    }

    /** `insert`: dispatches the collection URI to `insertPet`. */
    method Insert(uri: Uri, values: PetValues, storeFails: bool) returns (r: Result<Option<Uri>, Failure>)
      requires Valid()
      modifies this
      ensures Valid()
      ensures InsertSpec(old(Snapshot()), uri, values, storeFails, r, Snapshot())
    {
      var code := Match(uri);
      if code == PETS {
        r := InsertPet(uri, values, storeFails);
      } else {
        r := Err(UnsupportedUri);
      }
    }

    method InsertPet(uri: Uri, values: PetValues, storeFails: bool) returns (r: Result<Option<Uri>, Failure>)
      requires Valid()
      modifies this
      ensures Valid()
      ensures InsertPetSpec(old(Snapshot()), uri, values, storeFails, r, Snapshot())
    {
      var name := GetAsString(values, COLUMN_PET_NAME);
      if name.None? {
        return Err(NullName);
      }
      if name.value == [] {
        return Err(NameRequired);
      }
      var weight := GetAsInteger(values, COLUMN_PET_WEIGHT);
      if weight.None? || weight.value < 0 {
        return Err(InvalidWeight);
      }
      if storeFails {
        return Ok(None);
      }
      var id := nextId;
      table := table[id := NewRow(values)];
      nextId := nextId + 1;
      notifications := notifications + [uri];
      r := Ok(Some(Item(id)));
    }

    /** `update`: the item URI's id replaces the caller's selection. */
    method Update(uri: Uri, values: PetValues, sel: Selection) returns (r: Result<nat, Failure>)
      requires Valid()
      modifies this
      ensures Valid()
      ensures UpdateSpec(old(Snapshot()), uri, values, sel, r, Snapshot())
    {
      var code := Match(uri);
      if code == PETS {
        r := UpdatePet(uri, values, sel);
      } else if code == PET_ID {
        r := UpdatePet(uri, values, ItemSelection(uri.id));
      } else {
        r := Err(UnsupportedUri);
      }
    }

    method UpdatePet(uri: Uri, values: PetValues, sel: Selection) returns (r: Result<nat, Failure>)
      requires Valid()
      modifies this
      ensures Valid()
      ensures UpdatePetSpec(old(Snapshot()), uri, values, sel, r, Snapshot())
    {
      if |values| == 0 {
        return Ok(0);
      }
      if COLUMN_PET_NAME in values {
        var name := GetAsString(values, COLUMN_PET_NAME);
        if name.None? {
          return Err(NullName);
        }
        if name.value == [] {
          return Err(NameRequired);
        }
      }
      if COLUMN_PET_WEIGHT in values {
        var weight := GetAsInteger(values, COLUMN_PET_WEIGHT);
        if weight.None? || weight.value < 0 {
          return Err(InvalidWeight);
        }
      }
      ghost var before := Snapshot();
      var ids := Selected(table, sel);
      table := Updated(table, ids, values);
      var rowsUpdated := |ids|;
      if rowsUpdated != 0 {
        notifications := notifications + [uri];
      }
      r := Ok(rowsUpdated);
      UpdateKeepsStoreValid(before, uri, values, sel, r, Snapshot());
    }

    /** `delete`: removes the selected rows, or the item URI's row. */
    method Delete(uri: Uri, sel: Selection) returns (r: Result<nat, Failure>)
      requires Valid()
      modifies this
      ensures Valid()
      ensures DeleteSpec(old(Snapshot()), uri, sel, r, Snapshot())
    {
      var code := Match(uri);
      var ids: set<int>;
      if code == PETS {
        ids := Selected(table, sel);
      } else if code == PET_ID {
        ids := Selected(table, ItemSelection(uri.id));
      } else {
        return Err(UnsupportedUri);
      }
      table := table - ids;
      var rowsDeleted := |ids|;
      if rowsDeleted != 0 {
        notifications := notifications + [uri];
      }
      r := Ok(rowsDeleted);
    }
  }
}
