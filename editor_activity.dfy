/**
 * The pet editor's controller logic: the form-to-request decision of
 * `savePet`, `deletePet`, the gender spinner mapping, and the unsaved-changes
 * flag that decides between leaving and asking first. Views, toasts and
 * dialogs are reduced to the values they carry.
 */
module Editor {
  import opened Wrappers
  import opened JavaText
  import opened PetContract
  import opened ContentValues
  import opened Provider

  // ------------------------------------------------------- gender spinner

  /**
   * The label `onItemSelected` reads at the chosen position: the male label,
   * the female label, another non-empty label, or an empty one.
   */
  datatype GenderLabel = MaleLabel | FemaleLabel | OtherLabel | EmptyLabel

  /** `mGender` after `onItemSelected`: an empty label leaves it as it was. */
  function GenderAfterSelection(selected: GenderLabel, current: Int32): (g: Int32)
    ensures selected != EmptyLabel ==> IsGender(g)
    ensures selected != EmptyLabel ==> (g == GENDER_MALE <==> selected == MaleLabel)
    ensures selected != EmptyLabel ==> (g == GENDER_FEMALE <==> selected == FemaleLabel)
    ensures selected == EmptyLabel ==> g == current
  {
    match selected
    case MaleLabel => GENDER_MALE
    case FemaleLabel => GENDER_FEMALE
    case OtherLabel => GENDER_UNKNOWN
    case EmptyLabel => current
  }

  /** The spinner position `onLoadFinished` selects for a stored gender code. */
  function SpinnerPosition(gender: int): (pos: nat)
    ensures pos < 3
    ensures IsGender(gender) ==> pos == gender
    ensures !IsGender(gender) ==> pos == 0
  {
    if gender == GENDER_MALE then 1
    else if gender == GENDER_FEMALE then 2
    else 0
  }

  /** The label at each spinner position: unknown, male, female. */
  function LabelAt(pos: nat): GenderLabel
    requires pos < 3
  {
    if pos == 1 then MaleLabel else if pos == 2 then FemaleLabel else OtherLabel
  }

  /**
   * Loading a gender code into the spinner and reading the selection back
   * gives the code again; a code outside 0..2 comes back as unknown.
   */
  lemma SpinnerRoundTrip(gender: int, current: Int32)
    ensures GenderAfterSelection(LabelAt(SpinnerPosition(gender)), current)
         == if IsGender(gender) then gender else GENDER_UNKNOWN
  {
  }

  // ------------------------------------------------------ form to request

  /** The provider call `savePet` makes, if any. */
  datatype SaveRequest =
    | NoRequest                                   // a blank form for a new pet: nothing is saved
    | BadWeightText                               // `Integer.parseInt` throws on the weight text
    | InsertRequest(values: PetValues)            // insert on the collection URI
    | UpdateRequest(uri: Uri, values: PetValues)  // update on the current pet's URI, no selection

  /** The value set `savePet` builds: always all four columns. */
  function FormValues(name: string, breed: string, gender: Int32, weight: Int32): (v: PetValues)
    ensures v.Keys == PET_COLUMNS
    ensures v[COLUMN_PET_NAME] == Text(name) && v[COLUMN_PET_BREED] == Text(breed)
    ensures v[COLUMN_PET_GENDER] == Int(gender) && v[COLUMN_PET_WEIGHT] == Int(weight)
  {
    ColumnsDistinct();
    map[COLUMN_PET_NAME := Text(name), COLUMN_PET_BREED := Text(breed),
        COLUMN_PET_GENDER := Int(gender), COLUMN_PET_WEIGHT := Int(weight)]
  }

  /** `FormValues` is the value set built by putting name, breed, gender and weight in turn. */
  lemma FormValuesInOrder(name: string, breed: string, gender: Int32, weight: Int32)
    ensures map[][COLUMN_PET_NAME := Text(name)][COLUMN_PET_BREED := Text(breed)]
               [COLUMN_PET_GENDER := Int(gender)][COLUMN_PET_WEIGHT := Int(weight)]
         == FormValues(name, breed, gender, weight)
  {
  }

  /** The weight `savePet` sends for trimmed weight text: 0 when it is empty. */
  function WeightFromText(weightString: string): Option<Int32> {
    if weightString == [] then Some(0) else ParseInt(weightString)
  }

  /** What `savePet` asks of the provider, given the current URI, the three texts and `mGender`. */
  function SaveRequestFor(current: Option<Uri>, nameText: string, breedText: string,
                          weightText: string, gender: Int32): SaveRequest
  {
    var name := Trim(nameText);
    var breed := Trim(breedText);
    var weight := Trim(weightText);
    if current == None && name == [] && breed == [] && weight == [] && gender == GENDER_UNKNOWN then
      NoRequest
    else
      match WeightFromText(weight)
      case None => BadWeightText
      case Some(w) =>
        var values := FormValues(name, breed, gender, w);
        if current == None then InsertRequest(values) else UpdateRequest(current.value, values)
  }

  /** The provider's checks on a value set the editor built. */
  lemma FormValuesChecks(name: string, breed: string, gender: Int32, weight: Int32)
    ensures var values := FormValues(name, breed, gender, weight);
      && InsertCheck(values) == (if name == [] then Some(NameRequired)
                                 else if weight < 0 then Some(InvalidWeight) else None)
      && UpdateCheck(values) == InsertCheck(values)
  {
    var values := FormValues(name, breed, gender, weight);
    assert GetAsString(values, COLUMN_PET_NAME) == Some(name);
    assert GetAsInteger(values, COLUMN_PET_WEIGHT) == Some(weight);
  }

  /** `SaveRequestFor` taken apart: the guard, the weight parse, the value set and the target. */
  lemma SaveRequestCases(current: Option<Uri>, nameText: string, breedText: string,
                         weightText: string, gender: Int32)
    ensures var req := SaveRequestFor(current, nameText, breedText, weightText, gender);
      && (req == NoRequest <==>
            current == None && IsBlank(nameText) && IsBlank(breedText) && IsBlank(weightText)
            && gender == GENDER_UNKNOWN)
      && (req == BadWeightText <==> !IsBlank(weightText) && ParseInt(Trim(weightText)) == None)
      && (req.InsertRequest? || req.UpdateRequest? ==>
            req.values == FormValues(Trim(nameText), Trim(breedText), gender,
                                     WeightFromText(Trim(weightText)).value))
  {
    var name, breed, weight := Trim(nameText), Trim(breedText), Trim(weightText);
    var req := SaveRequestFor(current, nameText, breedText, weightText, gender);
    var blankForm := current == None && name == [] && breed == [] && weight == [] && gender == GENDER_UNKNOWN;
    if blankForm {
      assert req == NoRequest;
    } else if WeightFromText(weight) == None {
      assert weight != [] && ParseInt(weight) == None;
      assert req == BadWeightText;
    } else {
      var values := FormValues(name, breed, gender, WeightFromText(weight).value);
      assert req == InsertRequest(values) || req == UpdateRequest(current.value, values);
    }
  }

  /** A new pet's form is dropped without a request exactly when every text is blank and the gender unknown. */
  lemma BlankNewFormSendsNothing(current: Option<Uri>, nameText: string, breedText: string,
                                 weightText: string, gender: Int32)
    ensures SaveRequestFor(current, nameText, breedText, weightText, gender) == NoRequest
        <==> current == None && IsBlank(nameText) && IsBlank(breedText) && IsBlank(weightText)
             && gender == GENDER_UNKNOWN
  {
    SaveRequestCases(current, nameText, breedText, weightText, gender);
  }

  /** A new pet is inserted on the collection URI; an existing one is updated through its own URI. */
  lemma SaveTargetsCurrentUri(current: Option<Uri>, nameText: string, breedText: string,
                              weightText: string, gender: Int32)
    ensures var req := SaveRequestFor(current, nameText, breedText, weightText, gender);
      && (current == None ==> !req.UpdateRequest?)
      && (current != None ==> !req.InsertRequest? && !req.NoRequest?)
      && (req.UpdateRequest? ==> current == Some(req.uri))
  {
  }

  /**
   * Whatever `savePet` sends holds all four columns: the trimmed name and
   * breed, the gender code, and the weight, which is 0 for blank weight text
   * and the parsed number otherwise. Weight text that does not parse sends
   * nothing.
   */
  lemma SaveSendsTrimmedFields(current: Option<Uri>, nameText: string, breedText: string,
                               weightText: string, gender: Int32)
    ensures var req := SaveRequestFor(current, nameText, breedText, weightText, gender);
      && (req == BadWeightText <==> !IsBlank(weightText) && ParseInt(Trim(weightText)) == None)
      && (req.InsertRequest? || req.UpdateRequest? ==>
            && req.values.Keys == PET_COLUMNS
            && req.values[COLUMN_PET_NAME] == Text(Trim(nameText))
            && req.values[COLUMN_PET_BREED] == Text(Trim(breedText))
            && req.values[COLUMN_PET_GENDER] == Int(gender)
            && req.values[COLUMN_PET_WEIGHT].Int?
            && (IsBlank(weightText) ==> req.values[COLUMN_PET_WEIGHT] == Int(0))
            && (!IsBlank(weightText) ==> ParseInt(Trim(weightText)) == Some(req.values[COLUMN_PET_WEIGHT].n)))
  {
    SaveRequestCases(current, nameText, breedText, weightText, gender);
  }

  /**
   * The provider judges what the editor sends on its content alone: the
   * missing-name and missing-weight failures cannot arise, the insert and
   * update checks agree, the name is refused exactly when its text is blank,
   * and the request passes exactly when the name is not blank and the weight
   * is not negative.
   */
  lemma EditorRequestsFailOnlyOnContent(current: Option<Uri>, nameText: string, breedText: string,
                                        weightText: string, gender: Int32)
    ensures var req := SaveRequestFor(current, nameText, breedText, weightText, gender);
      req.InsertRequest? || req.UpdateRequest? ==>
        && UpdateCheck(req.values) == InsertCheck(req.values)
        && InsertCheck(req.values) != Some(NullName)
        && (InsertCheck(req.values) == Some(NameRequired) <==> IsBlank(nameText))
        && (InsertCheck(req.values) == None <==> !IsBlank(nameText) && req.values[COLUMN_PET_WEIGHT].n >= 0)
  {
    SaveRequestCases(current, nameText, breedText, weightText, gender);
    var req := SaveRequestFor(current, nameText, breedText, weightText, gender);
    if req.InsertRequest? || req.UpdateRequest? {
      var w := WeightFromText(Trim(weightText)).value;
      FormValuesChecks(Trim(nameText), Trim(breedText), gender, w);
    }
  }

  /**
   * A new pet with a blank name but some breed is sent to the provider, which
   * refuses it for want of a name, so nothing is written.
   */
  lemma BlankNameWithBreedIsRefused(nameText: string, breedText: string, weightText: string,
                                    gender: Int32, s: Store, storeFails: bool,
                                    r: Result<Option<Uri>, Failure>, s': Store)
    requires IsBlank(nameText) && !IsBlank(breedText)
    requires IsBlank(weightText) || ParseInt(Trim(weightText)).Some?
    ensures SaveRequestFor(None, nameText, breedText, weightText, gender).InsertRequest?
    ensures var values := SaveRequestFor(None, nameText, breedText, weightText, gender).values;
      InsertSpec(s, CONTENT_URI, values, storeFails, r, s') ==> r == Err(NameRequired) && s' == s
  {
    SaveRequestCases(None, nameText, breedText, weightText, gender);
    EditorRequestsFailOnlyOnContent(None, nameText, breedText, weightText, gender);
  }

  // ------------------------------------------------------------- loading

  /** `cursor.getString` as the form shows it: a number as its digits, NULL as empty text. */
  function CursorText(v: Value): string {
    match v
    case Text(s) => s
    case Int(n) => ToString(n)
    case Null => ""
  }

  /** `cursor.getInt`: NULL and text that is not a decimal integer read as 0. */
  function CursorInt(v: Value): Int32 {
    match v
    case Text(s) => ParseInt(s).GetOr(0)
    case Int(n) => n
    case Null => 0
  }

  /** An integer cell reads back as itself. */
  lemma CursorIntReadsInt(n: Int32)
    ensures CursorInt(Int(n)) == n
  {
  }

  /** The weight text a load shows is read back by `savePet` as the same weight. */
  lemma LoadedWeightReadsBack(w: Int32)
    ensures !IsBlank(ToString(w))
    ensures WeightFromText(Trim(ToString(w))) == Some(w)
  {
    TrimToString(w);
    ParseIntToString(w);
  }

  /** Saving trimmed texts and the printed weight of an existing pet sends their four-column update. */
  lemma SaveOfLoadedTexts(uri: Uri, nameText: string, breedText: string, g: Int32, w: Int32)
    ensures var name, breed := Trim(nameText), Trim(breedText);
      SaveRequestFor(Some(uri), name, breed, ToString(w), g) == UpdateRequest(uri, FormValues(name, breed, g, w))
  {
    var name, breed := Trim(nameText), Trim(breedText);
    TrimIdempotent(nameText);
    TrimIdempotent(breedText);
    LoadedWeightReadsBack(w);
    var weightText := ToString(w);
    SaveRequestCases(Some(uri), name, breed, weightText, g);
    var req := SaveRequestFor(Some(uri), name, breed, weightText, g);
    assert req != NoRequest && req != BadWeightText;
    assert req.values == FormValues(name, breed, g, w);
  }

  /**
   * Loading a row the editor wrote (the trimmed texts, a gender code, an
   * integer weight) and saving it untouched, once the spinner has reported
   * the loaded position, sends an update that leaves the row as it was.
   */
  lemma LoadThenSaveKeepsRow(uri: Uri, nameText: string, breedText: string, g: Int32, w: Int32,
                             current: Int32)
    requires IsGender(g)
    ensures var p := Pet(Text(Trim(nameText)), Text(Trim(breedText)), Int(g), Int(w));
      var gender := GenderAfterSelection(LabelAt(SpinnerPosition(CursorInt(p.gender))), current);
      var req := SaveRequestFor(Some(uri), CursorText(p.name), CursorText(p.breed),
                                ToString(CursorInt(p.weight)), gender);
      req.UpdateRequest? && req.uri == uri && Apply(p, req.values) == p
  {
    var name, breed := Trim(nameText), Trim(breedText);
    CursorIntReadsInt(g);
    CursorIntReadsInt(w);
    SpinnerRoundTrip(g, current);
    SaveOfLoadedTexts(uri, nameText, breedText, g, w);
  }

  /**
   * A loaded row whose gender code is outside 0..2 shows position 0, so
   * saving it untouched sends gender unknown and changes the row.
   */
  lemma LoadThenSaveResetsOtherGender(uri: Uri, nameText: string, breedText: string, g: Int32,
                                      w: Int32, current: Int32)
    requires !IsGender(g)
    ensures var p := Pet(Text(Trim(nameText)), Text(Trim(breedText)), Int(g), Int(w));
      var gender := GenderAfterSelection(LabelAt(SpinnerPosition(CursorInt(p.gender))), current);
      var req := SaveRequestFor(Some(uri), CursorText(p.name), CursorText(p.breed),
                                ToString(CursorInt(p.weight)), gender);
      && req.UpdateRequest? && req.uri == uri
      && req.values[COLUMN_PET_GENDER] == Int(GENDER_UNKNOWN)
      && Apply(p, req.values) != p
  {
    var p := Pet(Text(Trim(nameText)), Text(Trim(breedText)), Int(g), Int(w));
    CursorIntReadsInt(g);
    CursorIntReadsInt(w);
    SpinnerRoundTrip(g, current);
    SaveOfLoadedTexts(uri, nameText, breedText, GENDER_UNKNOWN, w);
    var values := FormValues(Trim(nameText), Trim(breedText), GENDER_UNKNOWN, w);
    assert Apply(p, values).gender == Int(GENDER_UNKNOWN) != p.gender;
  }

  // ---------------------------------------------------------- navigation

  /** How the activity is left: `finish()` (back) or navigating up (home). */
  datatype Exit = Finish | NavigateUp

  /** Back or up either leaves at once, or shows the unsaved-changes dialog whose discard button leaves. */
  datatype NavEffect = Leave(exit: Exit) | ShowUnsavedChangesDialog(exit: Exit)

  /** The back and home handlers' decision. */
  function LeaveOrAsk(petHasChanged: bool, exit: Exit): (e: NavEffect)
    ensures e.exit == exit
    ensures e.Leave? <==> !petHasChanged
  {
    if !petHasChanged then Leave(exit) else ShowUnsavedChangesDialog(exit)
  }

  /** Which field the user typed into. */
  datatype TextField = NameField | BreedField | WeightField

  /** What `savePet` did: nothing, threw on the weight text, or made a provider call with this result. */
  datatype SaveOutcome =
    | Skipped
    | WeightNotANumber
    | SentInsert(insertResult: Result<Option<Uri>, Failure>)
    | SentUpdate(updateResult: Result<nat, Failure>)

  /** True when `savePet` ends in an exception, so the save handler never reaches `finish()`. */
  predicate Threw(outcome: SaveOutcome) {
    || outcome.WeightNotANumber?
    || (outcome.SentInsert? && outcome.insertResult.Err?)
    || (outcome.SentUpdate? && outcome.updateResult.Err?)
  }

  /**
   * The first half of `savePet`, step by step: trim the three texts, stop
   * on a blank new form, put name, breed and gender into a fresh value set,
   * parse the weight (0 when its text is blank), add it, and aim the request
   * at the collection URI or at the current pet's URI.
   */
  method BuildSaveRequest(current: Option<Uri>, nameText: string, breedText: string,
                          weightText: string, gender: Int32) returns (request: SaveRequest)
    ensures request == SaveRequestFor(current, nameText, breedText, weightText, gender)
  {
    var nameString := Trim(nameText);
    var breedString := Trim(breedText);
    var weightString := Trim(weightText);
    if current == None && nameString == [] && breedString == [] && weightString == []
       && gender == GENDER_UNKNOWN {
      return NoRequest;
    }
    var values: map<string, Value> := map[];
    values := values[COLUMN_PET_NAME := Text(nameString)];
    values := values[COLUMN_PET_BREED := Text(breedString)];
    values := values[COLUMN_PET_GENDER := Int(gender)];
    var weight: Int32 := 0;
    if weightString != [] {
      var parsed := ParseInt(weightString);
      if parsed == None {
        assert WeightFromText(weightString) == None;
        return BadWeightText;
      }
      weight := parsed.value;
    }
    values := values[COLUMN_PET_WEIGHT := Int(weight)];
    assert WeightFromText(weightString) == Some(weight);
    FormValuesInOrder(nameString, breedString, gender, weight);
    assert values == FormValues(nameString, breedString, gender, weight);
    if current == None {
      request := InsertRequest(values);
    } else {
      request := UpdateRequest(current.value, values);
    }
  }

  /**
   * What `savePet` does with the provider for a request: nothing for no
   * request or unparsable weight text, otherwise the provider's insert on the
   * collection URI or its update on the request's URI with no selection.
   */
  ghost predicate SaveSpec(request: SaveRequest, storeFails: bool, outcome: SaveOutcome,
                           before: Store, after: Store)
  {
    match request
    case NoRequest => outcome == Skipped && after == before
    case BadWeightText => outcome == WeightNotANumber && after == before
    case InsertRequest(values) =>
      && outcome.SentInsert?
      && InsertSpec(before, CONTENT_URI, values, storeFails, outcome.insertResult, after)
    case UpdateRequest(uri, values) =>
      && outcome.SentUpdate?
      && UpdateSpec(before, uri, values, AllRows, outcome.updateResult, after)
  }

  // ------------------------------------------------------------ the editor

  class EditorActivity {
    /** The provider the content resolver reaches. */
    const provider: PetProvider
    /** The pet being edited, `None` for a new pet. */
    var currentPetUri: Option<Uri>
    /** The texts of the name, breed and weight fields. */
    var nameText: string
    var breedText: string
    var weightText: string
    /** The gender spinner's selected position. */
    var spinnerPosition: nat
    /** The gender code the spinner listener last set. */
    var gender: Int32
    /** Set when any input is touched. */
    var petHasChanged: bool
    var finished: bool

    ghost predicate Valid()
      reads this, provider
    {
      provider.Valid() && IsGender(gender) && spinnerPosition < 3
    }

    /** `onCreate`: the intent's data URI says which pet is edited; the form starts empty. */
    constructor (provider: PetProvider, intentData: Option<Uri>)
      requires provider.Valid()
      ensures Valid() && this.provider == provider
      ensures currentPetUri == intentData
      ensures nameText == [] && breedText == [] && weightText == [] && spinnerPosition == 0
      ensures gender == GENDER_UNKNOWN && !petHasChanged && !finished
    {
      this.provider := provider;
      currentPetUri := intentData;
      nameText, breedText, weightText := [], [], [];
      spinnerPosition := 0;
      gender := GENDER_UNKNOWN;
      petHasChanged := false;
      finished := false;
    }

    /** The touch listener on every input. */
    method Touch()
      modifies this`petHasChanged
      ensures petHasChanged
    {
      petHasChanged := true;
    }

    /** The user edits one of the three text fields. */
    method TypeText(field: TextField, text: string)
      modifies this`nameText, this`breedText, this`weightText
      ensures nameText == if field == NameField then text else old(nameText)
      ensures breedText == if field == BreedField then text else old(breedText)
      ensures weightText == if field == WeightField then text else old(weightText)
    {
      match field
      case NameField => nameText := text;
      case BreedField => breedText := text;
      case WeightField => weightText := text;
    }

    /** The spinner listener's `onItemSelected` for the item at `position`. */
    method OnItemSelected(position: nat)
      requires Valid() && position < 3
      modifies this`gender, this`spinnerPosition
      ensures Valid() && spinnerPosition == position
      ensures gender == GenderAfterSelection(LabelAt(position), old(gender))
    {
      spinnerPosition := position;
      var selected := LabelAt(position);
      if selected != EmptyLabel {
        if selected == MaleLabel {
          gender := GENDER_MALE;
        } else if selected == FemaleLabel {
          gender := GENDER_FEMALE;
        } else {
          gender := GENDER_UNKNOWN;
        }
      }
    }

    /** The spinner listener's `onNothingSelected`. */
    method OnNothingSelected()
      requires Valid()
      modifies this`gender
      ensures Valid() && gender == GENDER_UNKNOWN
    {
      gender := GENDER_UNKNOWN;
    }

    /** `onLoadFinished`: the first row of the cursor fills the form; a null or empty cursor changes nothing. */
    method OnLoadFinished(cursor: Option<seq<Pet>>)
      requires Valid()
      modifies this`nameText, this`breedText, this`weightText, this`spinnerPosition
      ensures Valid()
      ensures cursor == None || |cursor.value| < 1 ==> unchanged(this)
      ensures cursor != None && |cursor.value| >= 1 ==>
        var p := cursor.value[0];
        && nameText == CursorText(p.name)
        && breedText == CursorText(p.breed)
        && weightText == ToString(CursorInt(p.weight))
        && spinnerPosition == SpinnerPosition(CursorInt(p.gender))
    {
      if cursor == None || |cursor.value| < 1 {
        return;
      }
      var p := cursor.value[0];
      nameText := CursorText(p.name);
      breedText := CursorText(p.breed);
      var weight := CursorInt(p.weight);
      weightText := ToString(weight);
      var g := CursorInt(p.gender);
      if g == GENDER_MALE {
        spinnerPosition := 1;
      } else if g == GENDER_FEMALE {
        spinnerPosition := 2;
      } else {
        spinnerPosition := 0;
      }
    }

    /** `onPrepareOptionsMenu`: the delete item is hidden for a new pet. */
    function DeleteMenuVisible(): (visible: bool)
      reads this
      ensures visible <==> currentPetUri != None
    {
      currentPetUri != None
    }

    /**
     * `savePet`: trims the three texts, drops a blank new form, builds the
     * four-column value set, and inserts on the collection URI or updates
     * the current pet's URI with no selection.
     */
    method SavePet(storeFails: bool) returns (outcome: SaveOutcome)
      requires Valid()
      modifies provider
      ensures Valid()
      ensures SaveSpec(SaveRequestFor(currentPetUri, nameText, breedText, weightText, gender),
                       storeFails, outcome, old(provider.Snapshot()), provider.Snapshot())
    {
      var request := BuildSaveRequest(currentPetUri, nameText, breedText, weightText, gender);
      match request
      case NoRequest =>
        outcome := Skipped;
      case BadWeightText =>
        outcome := WeightNotANumber;
      case InsertRequest(values) =>
        var newUri := provider.Insert(CONTENT_URI, values, storeFails);
        outcome := SentInsert(newUri);
      case UpdateRequest(uri, values) =>
        var rowsAffected := provider.Update(uri, values, AllRows);
        outcome := SentUpdate(rowsAffected);
    }

    /** The save menu item: `savePet`, then `finish()` unless `savePet` threw. */
    method SaveAndFinish(storeFails: bool) returns (outcome: SaveOutcome)
      requires Valid()
      modifies provider, this`finished
      ensures Valid()
      ensures finished == (old(finished) || !Threw(outcome))
      ensures SaveSpec(SaveRequestFor(currentPetUri, nameText, breedText, weightText, gender),
                       storeFails, outcome, old(provider.Snapshot()), provider.Snapshot())
    {
      outcome := SavePet(storeFails);
      if !Threw(outcome) {
        finished := true;
      }
    }

    /**
     * `deletePet`: deletes through the current pet's URI with no selection
     * when there is one, then finishes (unless the provider threw).
     */
    method DeletePet() returns (result: Option<Result<nat, Failure>>)
      requires Valid()
      modifies provider, this`finished
      ensures Valid()
      ensures currentPetUri == None ==> result == None && provider.Snapshot() == old(provider.Snapshot())
      ensures currentPetUri != None ==>
        result != None && DeleteSpec(old(provider.Snapshot()), currentPetUri.value, AllRows,
                                     result.value, provider.Snapshot())
      ensures finished == (old(finished) || result == None || result.value.Ok?)
      ensures old(DeleteMenuVisible()) <==> result != None
    {
      result := None;
      if currentPetUri != None {
        var rowsDeleted := provider.Delete(currentPetUri.value, AllRows);
        result := Some(rowsDeleted);
        if rowsDeleted.Err? {
          return;
        }
      }
      finished := true;
    }

    /** `onBackPressed`: leaves at once unless something was touched. */
    method OnBackPressed() returns (e: NavEffect)
      modifies this`finished
      ensures e == LeaveOrAsk(petHasChanged, Finish)
      ensures finished == (old(finished) || e.Leave?)
    {
      e := LeaveOrAsk(petHasChanged, Finish);
      if e.Leave? {
        finished := true;
      }
    }

    /** The home (up) menu item: navigates up at once unless something was touched. */
    method OnUpSelected() returns (e: NavEffect)
      modifies this`finished
      ensures e == LeaveOrAsk(petHasChanged, NavigateUp)
      ensures finished == (old(finished) || e.Leave?)
    {
      e := LeaveOrAsk(petHasChanged, NavigateUp);
      if e.Leave? {
        finished := true;
      }
    }

    /** The unsaved-changes dialog's discard button. */
    method Discard()
      modifies this`finished
      ensures finished
    {
      finished := true;
    }
  }
}
