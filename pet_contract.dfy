/** The constants the provider and the editor share: URIs, MIME types, columns, gender codes. */
module PetContract {

  const CONTENT_AUTHORITY: string := "com.example.android.pets"
  const PATH_PETS: string := "pets"

  /** MIME type of the collection URI (a directory of pets). */
  const CONTENT_LIST_TYPE: string := "vnd.android.cursor.dir/" + CONTENT_AUTHORITY + "/" + PATH_PETS
  /** MIME type of a single-pet URI. */
  const CONTENT_ITEM_TYPE: string := "vnd.android.cursor.item/" + CONTENT_AUTHORITY + "/" + PATH_PETS

  const COLUMN_PET_NAME: string := "name"
  const COLUMN_PET_BREED: string := "breed"
  const COLUMN_PET_GENDER: string := "gender"
  const COLUMN_PET_WEIGHT: string := "weight"

  /** The columns a value set may name. */
  const PET_COLUMNS: set<string> := {COLUMN_PET_NAME, COLUMN_PET_BREED, COLUMN_PET_GENDER, COLUMN_PET_WEIGHT}

  /** The four column names are different strings. */
  lemma ColumnsDistinct()
    ensures COLUMN_PET_NAME != COLUMN_PET_BREED && COLUMN_PET_NAME != COLUMN_PET_GENDER
    ensures COLUMN_PET_NAME != COLUMN_PET_WEIGHT && COLUMN_PET_BREED != COLUMN_PET_GENDER
    ensures COLUMN_PET_BREED != COLUMN_PET_WEIGHT && COLUMN_PET_GENDER != COLUMN_PET_WEIGHT
  {
    assert COLUMN_PET_NAME[0] == 'n' && COLUMN_PET_BREED[0] == 'b';
    assert COLUMN_PET_GENDER[0] == 'g' && COLUMN_PET_WEIGHT[0] == 'w';
  }

  const GENDER_UNKNOWN: int := 0
  const GENDER_MALE: int := 1
  const GENDER_FEMALE: int := 2

  predicate IsGender(g: int) {
    g == GENDER_UNKNOWN || g == GENDER_MALE || g == GENDER_FEMALE
  }

  /**
   * A content URI as the provider sees it: `content://<authority>/pets`,
   * `content://<authority>/pets/<id>`, or anything else.
   */
  datatype Uri = Collection | Item(id: nat) | Unknown

  /** `PetEntry.CONTENT_URI`. */
  const CONTENT_URI: Uri := Collection
}
