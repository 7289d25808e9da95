# Pets: provider and editor model

This project models the two pieces of the Pets Android sample that carry logic:

- The pets content provider, `PetProvider`. It holds a two-entry URI router
  (`pets` and `pets/#`), `getType`, and the name and weight checks made before
  every write. It also performs insert, query, update and delete over one table
  of pets, and sends a change notification after every write that touched a row.
  The provider is a class with three fields:
  - a table `map<int, Pet>`;
  - the id the next insert receives;
  - a ghost log of the URIs passed to `notifyChange`.

  Each write method is specified by a predicate over a `Store` snapshot
  (`InsertSpec`, `UpdateSpec`, `DeleteSpec`). Lemmas about those predicates
  state three things: the store stays valid, rows outside the selection are
  untouched, and a notification is sent exactly when the count is not 0.
- The pet editor, `EditorActivity`. It holds the form-to-request logic of
  `savePet`: trimming, the blank-new-form guard, weight 0 for blank weight
  text, all four columns in the value set, and insert on the collection
  versus update on the item. It also holds `deletePet`, the gender spinner
  mapping, the delete-menu visibility, and the `mPetHasChanged` flag that
  decides between leaving and showing the unsaved-changes dialog.

  The editor is a class whose methods call the provider model. Its pure
  decision `SaveRequestFor` lets properties spanning the two files be proved.
  One example: a new pet with a blank name and a filled breed is refused by
  the provider, and nothing is written.

Supporting modules:

- `Wrappers` defines `Option` and `Result`.
- `JavaText` models Java's 32-bit `int`, `Integer.parseInt`,
  `Integer.toString` and `String.trim`.
- `PetContract` holds the contract constants: authority, MIME types, column
  names, gender codes 0/1/2, and the abstract `Uri` datatype `Collection`,
  `Item(id)` or `Unknown`.
- `ContentValues` defines a cell or value-set entry `Text`, `Int` or `Null`,
  with `getAsString` and `getAsInteger`.

Exceptions are error values:

- `UnsupportedUri`: an IllegalArgumentException for an unknown URI.
- `NameRequired`: "Pet requires a name".
- `InvalidWeight`: "Pet requires valid weight".
- `NullName`: the NullPointerException `name.isEmpty()` throws when the name is missing.

In `savePet`, a weight text that `Integer.parseInt` rejects is the outcome
`WeightNotANumber`.

Two behaviours of `insertPet` are easy to misread, and the model keeps both:

- A value set without a weight is refused (`weight == null` fails,
  `PetProvider.java:122`). The weight does not default to 0.
- A value set without a name fails with a NullPointerException rather than the
  "Pet requires a name" error (`PetProvider.java:115-116`).

## Model

| member | source | states |
|---|---|---|
| `Provider.Match` | app/src/main/java/com/example/android/pets/data/PetProvider.java:24-42 | the matcher gives PETS exactly for the collection URI, PET_ID exactly for an item URI, NO_MATCH exactly for any other URI |
| `Provider.GetType` | app/src/main/java/com/example/android/pets/data/PetProvider.java:86-97 | the list MIME type exactly for the collection, the item MIME type exactly for an item URI, an invalid-argument error exactly for any other URI |
| `Provider.InsertCheck` | app/src/main/java/com/example/android/pets/data/PetProvider.java:114-124 | insert is allowed exactly when the row it would create has a non-empty name and a present, non-negative weight; a missing name is the null-name failure, an empty name is "requires a name", and a valid name with a missing, non-numeric or negative weight is "requires valid weight" (so weight 0 passes) |
| `Provider.UpdateCheck` | app/src/main/java/com/example/android/pets/data/PetProvider.java:184-196 | the name check fires only when the name key is present, the weight check only when the weight key is present; a value set with neither always passes; the null-name failure exactly for a present name key read as null, "requires a name" exactly for a present empty name, "requires valid weight" exactly when the name (if present) is valid and a present weight is missing, non-numeric or negative |
| `Provider.UpdateCheckKeepsRowsValid` | app/src/main/java/com/example/android/pets/data/PetProvider.java:184-201 | on a valid row, the update checks pass exactly when the updated row is still valid |
| `Provider.Apply` | app/src/main/java/com/example/android/pets/data/PetProvider.java:201 | an SQL update replaces exactly the columns the value set names and keeps the others |
| `Provider.NewRow` | app/src/main/java/com/example/android/pets/data/PetProvider.java:128 | an SQL insert stores each named column's value and NULL for the columns not named |
| `Provider.Selected` | app/src/main/java/com/example/android/pets/data/PetProvider.java:147-154 | a selection only picks rows that exist |
| `Provider.ItemSelectionMatchesOnlyId` | app/src/main/java/com/example/android/pets/data/PetProvider.java:151-154 | the `_id=?` selection for an item URI matches that id's row when it exists and no other row |
| `Provider.Updated` | app/src/main/java/com/example/android/pets/data/PetProvider.java:201 | an update never adds or removes a row id |
| `Provider.InsertKeepsStoreValid` | app/src/main/java/com/example/android/pets/data/PetProvider.java:113-137 | after any insert outcome, ids are still positive and below the next id, and every row passes validation |
| `Provider.UpdateKeepsStoreValid` | app/src/main/java/com/example/android/pets/data/PetProvider.java:180-206 | after any `updatePet` outcome, every row still passes validation |
| `Provider.DeleteKeepsStoreValid` | app/src/main/java/com/example/android/pets/data/PetProvider.java:140-162 | after any delete outcome, the store is still valid |
| `Provider.InsertAddsOneFreshRow` | app/src/main/java/com/example/android/pets/data/PetProvider.java:128-137 | a successful insert happened on the collection URI and passed the checks; it adds exactly one row, under an id no row had, holding exactly the given values; it keeps every other row; it notifies the collection URI once; it returns that id as an item URI |
| `Provider.InsertFailureChangesNothing` | app/src/main/java/com/example/android/pets/data/PetProvider.java:100-133 | a refused insert (wrong URI or failed check) or a store failure (null URI) leaves table, counter and notification log unchanged; an error happens exactly for a non-collection URI or a failed check, and a non-collection URI gives the invalid-argument error |
| `Provider.ItemUpdateTouchesOnlyItsRow` | app/src/main/java/com/example/android/pets/data/PetProvider.java:171-206 | an update through `pets/<id>` returns 1 when that row exists and the value set is non-empty, 0 otherwise; it changes only that row (to the updated row), keeps the row ids, and notifies the item URI exactly when it returns 1 |
| `Provider.ItemDeleteRemovesOnlyItsRow` | app/src/main/java/com/example/android/pets/data/PetProvider.java:151-162 | a delete through `pets/<id>` removes exactly that id's row, returns 1 if it existed and 0 otherwise, and notifies exactly when it removed a row |
| `Provider.CollectionWriteFrame` | app/src/main/java/com/example/android/pets/data/PetProvider.java:141-207 | for update and delete on the collection URI, rows the selection does not match are left as they were, and the URI is notified exactly when the returned count is non-zero |
| `Provider.PetProvider.constructor` | app/src/main/java/com/example/android/pets/data/PetProvider.java:49-53 | the provider starts with an empty table, first id 1 and no notifications |
| `Provider.PetProvider.Query` | app/src/main/java/com/example/android/pets/data/PetProvider.java:55-84 | an unknown URI is an invalid-argument error; otherwise the result is exactly the rows of the table matched by the selection (the item's id for an item URI), unchanged, and at most the one row for an item URI |
| `Provider.PetProvider.Insert` | app/src/main/java/com/example/android/pets/data/PetProvider.java:99-108 | only the collection URI reaches `insertPet`; any other URI is an invalid-argument error with nothing written |
| `Provider.PetProvider.InsertPet` | app/src/main/java/com/example/android/pets/data/PetProvider.java:113-138 | a failed check is returned as its error with nothing written; a store failure returns null and writes nothing; otherwise the new row is stored under the next id, the counter advances, the URI is notified and the item URI is returned |
| `Provider.PetProvider.Update` | app/src/main/java/com/example/android/pets/data/PetProvider.java:165-178 | the collection URI updates with the caller's selection, an item URI with its id as the selection, any other URI is an invalid-argument error with nothing changed |
| `Provider.PetProvider.UpdatePet` | app/src/main/java/com/example/android/pets/data/PetProvider.java:180-207 | an empty value set returns 0 and changes nothing; a failed check is its error with nothing changed; otherwise every selected row is updated, their number is returned, and the URI is notified exactly when it is non-zero |
| `Provider.PetProvider.Delete` | app/src/main/java/com/example/android/pets/data/PetProvider.java:140-163 | the selected rows (the item's row for an item URI) are removed, their number is returned, and the URI is notified exactly when it is non-zero; any other URI is an invalid-argument error with nothing changed |
| `ContentValues.AsString` | app/src/main/java/com/example/android/pets/data/PetProvider.java:115 | `getAsString` is null exactly for a null entry, gives a string unchanged, and gives a number as non-empty text that parses back to it |
| `ContentValues.AsInteger` | app/src/main/java/com/example/android/pets/data/PetProvider.java:121 | `getAsInteger` gives a number unchanged, null for null, and for text exactly what `Integer.parseInt` reads from it (null where it throws) |
| `PetContract.ColumnsDistinct` | app/src/main/java/com/example/android/pets/data/PetContract.java:56-74 | helper for the value-set keys: the four column names are pairwise different |
| `JavaText.Trim` | app/src/main/java/com/example/android/pets/EditorActivity.java:170-172 | the trimmed text is a slice `s[i..j]` of the text with only characters up to U+0020 outside it; it has no such character at either end; it is empty exactly when the text is all such characters |
| `JavaText.TrimIdempotent` | app/src/main/java/com/example/android/pets/EditorActivity.java:170-172 | trimming twice is trimming once |
| `JavaText.Digits` | app/src/main/java/com/example/android/pets/EditorActivity.java:372 | the decimal digits of a number are non-empty, all digits, without a leading zero, and denote that number |
| `JavaText.ParseIntToString` | app/src/main/java/com/example/android/pets/EditorActivity.java:187 | `Integer.parseInt` of `Integer.toString(n)` is `n` for every `int` |
| `JavaText.TrimToString` | app/src/main/java/com/example/android/pets/EditorActivity.java:372 | `trim()` leaves the text of `Integer.toString(n)` as it is |
| `Editor.GenderAfterSelection` | app/src/main/java/com/example/android/pets/EditorActivity.java:146-157 | a non-empty label yields a gender code; it is 1 exactly for the male label and 2 exactly for the female label; an empty label keeps the current code |
| `Editor.SpinnerPosition` | app/src/main/java/com/example/android/pets/EditorActivity.java:373-383 | loading selects position 1 for code 1 and 2 for code 2; any other code selects position 0 |
| `Editor.SpinnerRoundTrip` | app/src/main/java/com/example/android/pets/EditorActivity.java:373-383 | loading a gender code into the spinner and reading the selection back gives the code again, or unknown for a code outside 0..2 |
| `Editor.FormValues` | app/src/main/java/com/example/android/pets/EditorActivity.java:180-189 | the value set holds exactly the four columns: name and breed as text, gender and weight as integers |
| `Editor.FormValuesChecks` | app/src/main/java/com/example/android/pets/EditorActivity.java:180-189 | on the editor's value set, the insert and update checks agree: "requires a name" exactly for an empty name, otherwise "requires valid weight" exactly for a negative weight |
| `Editor.SaveRequestCases` | app/src/main/java/com/example/android/pets/EditorActivity.java:168-189 | `savePet` sends nothing exactly for a new pet with blank texts and unknown gender; it throws on the weight exactly when the weight text is not blank and does not parse; any request carries the four-column value set of the trimmed texts |
| `Editor.BlankNewFormSendsNothing` | app/src/main/java/com/example/android/pets/EditorActivity.java:175-178 | no provider request exactly when there is no current URI, the three texts trim to empty and the gender is unknown |
| `Editor.SaveTargetsCurrentUri` | app/src/main/java/com/example/android/pets/EditorActivity.java:192-208 | a new pet is never an update; an existing pet is never an insert and never skipped; an update goes to the current URI |
| `Editor.SaveSendsTrimmedFields` | app/src/main/java/com/example/android/pets/EditorActivity.java:170-189 | a sent value set has exactly the four columns: trimmed name and breed, the gender code, and weight 0 for blank text or else the parsed number; unparsable weight text sends nothing |
| `Editor.EditorRequestsFailOnlyOnContent` | app/src/main/java/com/example/android/pets/EditorActivity.java:180-194 | what the editor sends never hits the missing-name failure; insert and update checks agree on it; it is refused for its name exactly when the name text is blank, and accepted exactly when the name is not blank and the weight is not negative |
| `Editor.BlankNameWithBreedIsRefused` | app/src/main/java/com/example/android/pets/EditorActivity.java:168-194 | a new pet with a blank name but a filled breed is sent as an insert, which the provider refuses for want of a name, writing nothing |
| `Editor.LoadedWeightReadsBack` | app/src/main/java/com/example/android/pets/EditorActivity.java:368-372 | the weight text a load shows is not blank, and `savePet` reads it back as the same weight |
| `Editor.SaveOfLoadedTexts` | app/src/main/java/com/example/android/pets/EditorActivity.java:168-208 | for an existing pet, name and breed texts that were already trimmed, with weight text printed by `Integer.toString`, are sent as an update to that pet's URI carrying exactly those texts, the gender and the same weight |
| `Editor.LoadThenSaveKeepsRow` | app/src/main/java/com/example/android/pets/EditorActivity.java:355-383 | loading a row the editor wrote (trimmed name and breed, a gender code 0..2, an integer weight) and saving it untouched, once the spinner has reported the loaded position, sends an update to the same URI that leaves the row exactly as it was |
| `Editor.LoadThenSaveResetsOtherGender` | app/src/main/java/com/example/android/pets/EditorActivity.java:373-383 | a loaded row whose gender code is outside 0..2 shows position 0, so saving it untouched sends an update with gender unknown that changes the row |
| `Editor.LeaveOrAsk` | app/src/main/java/com/example/android/pets/EditorActivity.java:327-343 | back or up leaves at once exactly when nothing was touched, otherwise shows the unsaved-changes dialog for the same exit |
| `Editor.BuildSaveRequest` | app/src/main/java/com/example/android/pets/EditorActivity.java:168-192 | the step-by-step value-set building of `savePet` produces the request `SaveRequestFor` describes |
| `Provider.CheckName` | app/src/main/java/com/example/android/pets/data/PetProvider.java:114-119 | the name check passes exactly for a name cell `getAsString` reads as non-empty text; otherwise it is the null-name failure or "requires a name" |
| `Provider.CheckWeight` | app/src/main/java/com/example/android/pets/data/PetProvider.java:121-124 | the weight check passes exactly for a weight cell `getAsInteger` reads as a non-negative number; otherwise it is "requires valid weight" |
| `Provider.Effective` | app/src/main/java/com/example/android/pets/data/PetProvider.java:151-153 | defined by its body: an item URI replaces the caller's selection by `_id=?` with its id (also `PetProvider.java:171-173`); its meaning is stated by `ItemSelectionMatchesOnlyId` |
| `Provider.Notified` | app/src/main/java/com/example/android/pets/data/PetProvider.java:159-161 | defined by its body: the URI is appended to the log exactly when the count is non-zero (also `PetProvider.java:203-205`); used by the delete and update specifications |
| `JavaText.ParseInt` | app/src/main/java/com/example/android/pets/EditorActivity.java:187 | defined by its body: an optional sign, at least one ASCII digit, a value within `int`, otherwise the NumberFormatException case; also the text case of `getAsInteger`; its partner is `ParseIntToString` |
| `JavaText.ToString` | app/src/main/java/com/example/android/pets/EditorActivity.java:372 | `Integer.toString(n)` is non-empty; `ParseIntToString` and `TrimToString` state the rest |
| `Editor.WeightFromText` | app/src/main/java/com/example/android/pets/EditorActivity.java:185-188 | defined by its body: blank weight text gives 0, other text what `Integer.parseInt` reads; stated by `SaveSendsTrimmedFields` |
| `Editor.SaveRequestFor` | app/src/main/java/com/example/android/pets/EditorActivity.java:168-208 | defined by its body: the request `savePet` makes; its properties are the `SaveRequestCases`, `BlankNewFormSendsNothing`, `SaveTargetsCurrentUri` and `SaveSendsTrimmedFields` rows |
| `Editor.CursorText` | app/src/main/java/com/example/android/pets/EditorActivity.java:365-366 | defined by its body: `cursor.getString` of a cell, with NULL as empty text |
| `Editor.CursorInt` | app/src/main/java/com/example/android/pets/EditorActivity.java:367-368 | defined by its body: `cursor.getInt` of a cell, with NULL and non-numeric text as 0; `CursorIntReadsInt` states that an integer cell reads back as itself |
| `Editor.CursorIntReadsInt` | app/src/main/java/com/example/android/pets/EditorActivity.java:368 | an integer cell reads back through `getInt` as the same number |
| `Editor.EditorActivity.constructor` | app/src/main/java/com/example/android/pets/EditorActivity.java:75-102 | the edited pet is the intent's data URI; the form is empty, the gender unknown, and the changed flag false |
| `Editor.EditorActivity.Touch` | app/src/main/java/com/example/android/pets/EditorActivity.java:87-93 | touching any input sets the changed flag |
| `Editor.EditorActivity.TypeText` | app/src/main/java/com/example/android/pets/EditorActivity.java:58-66 | typing replaces the text of that one field and no other |
| `Editor.EditorActivity.OnItemSelected` | app/src/main/java/com/example/android/pets/EditorActivity.java:146-157 | the spinner shows the chosen position, and the gender code becomes `GenderAfterSelection` of the label at that position |
| `Editor.EditorActivity.OnNothingSelected` | app/src/main/java/com/example/android/pets/EditorActivity.java:160-163 | no selection sets the gender to unknown |
| `Editor.EditorActivity.OnLoadFinished` | app/src/main/java/com/example/android/pets/EditorActivity.java:354-386 | a null or empty cursor changes nothing; otherwise the first row's name, breed and weight fill the texts and its gender code picks the spinner position |
| `Editor.EditorActivity.DeleteMenuVisible` | app/src/main/java/com/example/android/pets/EditorActivity.java:233-236 | defined by its body: the delete item is hidden exactly for a new pet; `DeletePet` states what it guards |
| `Editor.EditorActivity.SavePet` | app/src/main/java/com/example/android/pets/EditorActivity.java:168-220 | `savePet` sends exactly the request `SaveRequestFor` gives: no call and no change when skipped or when the weight does not parse; otherwise the provider's insert on the collection URI, or its update on the current URI with no selection, with that call's outcome and new store |
| `Editor.EditorActivity.SaveAndFinish` | app/src/main/java/com/example/android/pets/EditorActivity.java:245-250 | the save item saves as `SavePet` does and finishes unless the save threw |
| `Editor.EditorActivity.DeletePet` | app/src/main/java/com/example/android/pets/EditorActivity.java:306-325 | with no current pet, nothing is deleted and the activity finishes; otherwise the provider deletes through the current URI with no selection, and the activity finishes unless that threw; a provider delete happens exactly when the delete item was visible |
| `Editor.EditorActivity.OnBackPressed` | app/src/main/java/com/example/android/pets/EditorActivity.java:327-343 | back finishes at once exactly when nothing was touched, otherwise shows the unsaved-changes dialog |
| `Editor.EditorActivity.OnUpSelected` | app/src/main/java/com/example/android/pets/EditorActivity.java:257-275 | up navigates at once exactly when nothing was touched, otherwise shows the unsaved-changes dialog |
| `Editor.EditorActivity.Discard` | app/src/main/java/com/example/android/pets/EditorActivity.java:334-340 | the dialog's discard button leaves the activity |

## Left out

- `PetDbHelper` is not part of this model. The table schema, SQLite type affinity and constraints are not modelled. A cell keeps the `Text`, `Int` or NULL value it was written with.
- The store's own insert failure (`database.insert` returning -1) is the `storeFails` parameter. Why it fails is not modelled.
- Ids come from a counter that only grows. SQLite may reuse the id of a deleted last row; the model does not.
- SQL `selection`/`selectionArgs` strings, projections and sort orders are left out. A collection selection is a predicate on id and row, or all rows; an item URI's selection is `_id == id`.
- `SQLException` from `update` or `delete`, and `int` overflow of row counts, are not modelled.
- Value sets hold only the four pet columns, and only strings, `Integer`s and null. Other keys and other boxed types are not modelled.
- Cursors, `setNotificationUri`, the loader machinery (`onCreateLoader`, `onLoaderReset`, asynchronous delivery) and `notifyChange` plumbing are left out. Notifications are a ghost log of URIs. `query` returns the matching rows as a map.
- `Editor.CursorText` and `Editor.CursorInt` approximate `Cursor.getString`/`getInt`. NULL reads as empty text and as 0. Non-numeric text reads as 0 through `getInt`.
- `JavaText.ParseInt` accepts only ASCII digits; Java also accepts other Unicode decimal digits.
- The order of the gender labels (unknown, male, female) is inferred from the positions `onLoadFinished` selects. The string-array resource is not part of this model. Resource-string comparison is reduced to the `GenderLabel` datatype. `OnItemSelected` takes a position and reads the label at it; the three labels are non-empty, so the empty-label case of `GenderAfterSelection` is never reached from the spinner.
- `Editor.EditorActivity.TypeText` stands for the user's typing and does not set the changed flag. The source sets the flag only in its touch listener, which is `Touch`.
- All UI is left out, because it carries no logic beyond the decisions modelled: titles, toasts, dialog construction, the delete-confirmation dialog (its confirm button is `DeletePet`), `onCreateOptionsMenu`, and navigation itself.
- `Provider.PetProvider.constructor` starts from an empty table, while `onCreate` opens a database that may already hold rows. Every write lemma is stated for any valid store, so the properties hold for any existing database whose rows satisfy `ValidStore`: ids below the counter, and a valid name and weight in every row.
- Two exceptions of the provider are not modelled. `ContentUris.parseId` throws NumberFormatException for a `pets/#` id too large for a `long` (`PetProvider.java:72`, `153`, `173`); `Item(id)` takes any natural number. A null `ContentValues` throws NullPointerException (`PetProvider.java:115`, `181`); value sets are never null in the model.
