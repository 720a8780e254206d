/** The two record shapes of the pipeline: the museum's object record as fetched, and the local
    painting record that the generated data file holds. JavaScript truthiness of the fields the
    pipeline tests is written out here once. */
module Records {
  import opened Wrappers

  /** One entry of the object's `tags` array; only its `term` is read. */
  datatype Tag = Tag(term: Option<string>)

  /** The object record returned by the detail endpoint. `None` stands for a field that is absent
      or null in the JSON body. */
  datatype RemoteRecord = RemoteRecord(
    objectID: int,
    primaryImage: Option<string>,
    title: Option<string>,
    artistDisplayName: Option<string>,
    objectDate: Option<string>,
    objectBeginDate: Option<int>,
    medium: Option<string>,
    tags: Option<seq<Tag>>,
    isPublicDomain: Option<bool>,
    department: Option<string>)

  /** The provenance block attached to every record the pipeline adds. */
  datatype Metadata = Metadata(
    museum: string,
    objectID: int,
    isPublicDomain: Option<bool>,
    department: Option<string>)

  /** A painting of the local collection. Hand-written entries carry no metadata block, so it is
      optional; `imageUrl`, `title` and `artist` are whatever the source record held. */
  datatype LocalPainting = LocalPainting(
    imageUrl: Option<string>,
    title: Option<string>,
    artist: Option<string>,
    year: string,
    style: string,
    description: string,
    metadata: Option<Metadata>)

  /** A string field is truthy when it is present and not the empty string. */
  predicate Truthy(field: Option<string>) {
    field.Some? && field.value != ""
  }

  /** `field || fallback` for a string field. */
  function OrElse(field: Option<string>, fallback: string): (r: string)
    ensures Truthy(field) ==> r == field.value
    ensures !Truthy(field) ==> r == fallback
  {
    if Truthy(field) then field.value else fallback
  }

  /** A numeric begin year is truthy when it is present and not zero. */
  predicate HasBeginYear(r: RemoteRecord) {
    r.objectBeginDate.Some? && r.objectBeginDate.value != 0
  }

  /** The record carries the three fields a painting cannot do without. */
  predicate IsComplete(r: RemoteRecord) {
    Truthy(r.primaryImage) && Truthy(r.title) && Truthy(r.artistDisplayName)
  }

  /** A painting whose image, title and artist are all present and non-empty. */
  predicate HasRequiredFields(p: LocalPainting) {
    Truthy(p.imageUrl) && Truthy(p.title) && Truthy(p.artist)
  }
}
