/** Mapping an object record onto a local painting, and the duplicate test against the existing
    collection. */
module Transform {
  import opened Wrappers
  import opened Strings
  import opened Records
  import opened Style
  import opened ChineseDescription

  /** The museum named in every metadata block the pipeline writes. */
  const Museum: string := "大都会艺术博物馆"

  /** The year text when neither the begin year nor the free-text date is usable. */
  const UnknownYear: string := "未知"

  /** `objectBeginDate ? objectBeginDate.toString() : objectDate || '未知'`. */
  function YearText(r: RemoteRecord): (year: string)
    ensures HasBeginYear(r) ==> year == IntToString(r.objectBeginDate.value)
    ensures HasBeginYear(r) ==> ParseInt(year) == Some(r.objectBeginDate.value)
    ensures !HasBeginYear(r) && Truthy(r.objectDate) ==> year == r.objectDate.value
    ensures !HasBeginYear(r) && !Truthy(r.objectDate) ==> year == UnknownYear
  {
    if HasBeginYear(r) then
      IntToStringRoundTrip(r.objectBeginDate.value);
      IntToString(r.objectBeginDate.value)
    else OrElse(r.objectDate, UnknownYear)
  }

  /** `transformToLocalFormat`: image, title and artist are copied as they are, the year, style and
      description are derived, and the provenance block names the museum and the object. */
  function TransformToLocalFormat(r: RemoteRecord): (p: LocalPainting)
    ensures p.imageUrl == r.primaryImage && p.title == r.title && p.artist == r.artistDisplayName
    ensures HasRequiredFields(p) <==> IsComplete(r)
    ensures p.year == YearText(r) && p.style == StyleOf(r) && p.description == Description(r)
    ensures p.metadata.Some? && p.metadata.value.museum == Museum
    ensures p.metadata.value.objectID == r.objectID
    ensures p.metadata.value.isPublicDomain == r.isPublicDomain
    ensures p.metadata.value.department == r.department
  {
    LocalPainting(
      r.primaryImage,
      r.title,
      r.artistDisplayName,
      YearText(r),
      StyleOf(r),
      Description(r),
      Some(Metadata(Museum, r.objectID, r.isPublicDomain, r.department)))
  }

  /** The duplicate key: identical title and identical artist, compared exactly. */
  predicate SameWork(a: LocalPainting, b: LocalPainting) {
    a.title == b.title && a.artist == b.artist
  }

  /** `isDuplicate`: some existing painting has the candidate's title and artist. */
  function IsDuplicate(artwork: LocalPainting, existing: seq<LocalPainting>): (dup: bool)
    ensures dup <==> exists i :: 0 <= i < |existing| && SameWork(existing[i], artwork)
  {
    if existing == [] then false
    else
      var rest := IsDuplicate(artwork, existing[1..]);
      SameWork(existing[0], artwork) || rest
  }

  /** The match is exact and case-sensitive: with "A" by "B" on file, "A" by "B" is a duplicate,
      while "A" by "C" and "a" by "B" are not. */
  lemma DuplicateIsExactMatch(onFile: LocalPainting, candidate: LocalPainting)
    requires onFile.title == Some("A") && onFile.artist == Some("B")
    ensures candidate.title == Some("A") && candidate.artist == Some("B") ==> IsDuplicate(candidate, [onFile])
    ensures candidate.artist == Some("C") ==> !IsDuplicate(candidate, [onFile])
    ensures candidate.title == Some("a") ==> !IsDuplicate(candidate, [onFile])
  {
  }
}
