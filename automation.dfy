/** The item loop of a run: fetch every identifier's record, keep the complete ones, transform them,
    drop those already in the collection, and append the rest to the collection. */
module Automation {
  import opened Wrappers
  import opened Records
  import opened Fetch
  import opened Transform

  /** How many identifiers a run asks the search for. */
  const SearchLimit: int := 20

  /** What one identifier turns into before the duplicate test: the transformed record when its
      fetch succeeded and the record is complete, nothing otherwise. */
  function Candidate(details: map<int, RemoteRecord>, objectID: int): (c: Option<LocalPainting>)
    ensures c.Some? <==> objectID in details && IsComplete(details[objectID])
    ensures c.Some? ==> c.value == TransformToLocalFormat(details[objectID]) && HasRequiredFields(c.value)
  {
    match GetArtworkDetails(FetchDetails(details, objectID))
    case None => None
    case Some(r) => Some(TransformToLocalFormat(r))
  }

  /** What one identifier adds to the new paintings: its candidate unless it duplicates an existing
      painting. */
  function Admitted(details: map<int, RemoteRecord>, existing: seq<LocalPainting>, objectID: int): seq<LocalPainting>
  {
    match Candidate(details, objectID)
    case None => []
    case Some(p) => if IsDuplicate(p, existing) then [] else [p]
  }

  /** The new paintings a run collects from `ids`, in processing order. */
  function NewPaintings(details: map<int, RemoteRecord>, existing: seq<LocalPainting>, ids: seq<int>): seq<LocalPainting>
    decreases |ids|
  {
    if ids == [] then []
    else NewPaintings(details, existing, ids[..|ids| - 1]) + Admitted(details, existing, ids[|ids| - 1])
  }

  /** How a run ends: no identifiers, nothing new to write, or the merged collection written with
      the number of paintings added. */
  datatype RunOutcome = NoIdentifiers | NothingNew | Saved(paintings: seq<LocalPainting>, added: nat)

  /** `runAutomation` with the file and network input passed in: `existingPaintings` is the
      collection read back from the data file, `search` the search response and `details` the
      detail responses by identifier. */
  method RunAutomation(existingPaintings: seq<LocalPainting>, search: Option<seq<int>>, details: map<int, RemoteRecord>)
    returns (outcome: RunOutcome)
    ensures var ids := SearchHighlightPaintings(search, SearchLimit);
      var added := NewPaintings(details, existingPaintings, ids);
      outcome == if ids == [] then NoIdentifiers
                 else if added == [] then NothingNew
                 else Saved(existingPaintings + added, |added|)
    ensures outcome.Saved? ==>
      existingPaintings <= outcome.paintings && |outcome.paintings| == |existingPaintings| + outcome.added
  {
    var artworkIDs := SearchHighlightPaintings(search, SearchLimit);
    if |artworkIDs| == 0 {
      return NoIdentifiers;
    }

    var newPaintings: seq<LocalPainting> := [];
    for i := 0 to |artworkIDs|
      invariant newPaintings == NewPaintings(details, existingPaintings, artworkIDs[..i])
    {
      assert artworkIDs[..i + 1][..i] == artworkIDs[..i];
      var objectID := artworkIDs[i];
      var artworkData := GetArtworkDetails(FetchDetails(details, objectID));
      if artworkData.None? {
        continue;
      }

      var transformedData := TransformToLocalFormat(artworkData.value);
      if IsDuplicate(transformedData, existingPaintings) {
        continue;
      }

      newPaintings := newPaintings + [transformedData];
    }
    assert artworkIDs[..|artworkIDs|] == artworkIDs;

    if |newPaintings| == 0 {
      return NothingNew;
    }

    var allPaintings := existingPaintings + newPaintings;
    outcome := Saved(allPaintings, |newPaintings|);
  }

  /** Processing two runs of identifiers one after the other collects the two results one after
      the other: the new paintings keep processing order. */
  lemma {:induction false} NewPaintingsAppend(details: map<int, RemoteRecord>, existing: seq<LocalPainting>, ids1: seq<int>, ids2: seq<int>)
    ensures NewPaintings(details, existing, ids1 + ids2) ==
      NewPaintings(details, existing, ids1) + NewPaintings(details, existing, ids2)
    decreases |ids2|
  {
    if ids2 == [] {
      assert ids1 + ids2 == ids1;
    } else {
      var ids := ids1 + ids2;
      var front, last := ids2[..|ids2| - 1], ids2[|ids2| - 1];
      assert ids[..|ids| - 1] == ids1 + front;
      assert ids[|ids| - 1] == last;
      calc {
        NewPaintings(details, existing, ids);
        NewPaintings(details, existing, ids1 + front) + Admitted(details, existing, last);
        { NewPaintingsAppend(details, existing, ids1, front); }
        NewPaintings(details, existing, ids1) + NewPaintings(details, existing, front) + Admitted(details, existing, last);
        NewPaintings(details, existing, ids1) + NewPaintings(details, existing, ids2);
      }
    }
  }

  /** Identifier `objectID` yields `p` and `p` is not already on file. */
  ghost predicate Keeps(details: map<int, RemoteRecord>, existing: seq<LocalPainting>, objectID: int, p: LocalPainting) {
    Candidate(details, objectID) == Some(p) && !IsDuplicate(p, existing)
  }

  lemma AdmittedMembers(details: map<int, RemoteRecord>, existing: seq<LocalPainting>, objectID: int, p: LocalPainting)
    ensures p in Admitted(details, existing, objectID) <==> Keeps(details, existing, objectID, p)
  {
  }

  /** A painting is collected exactly when some identifier yields it as a complete, transformed
      record that duplicates nothing in the existing collection. */
  lemma {:induction false} NewPaintingsMembers(details: map<int, RemoteRecord>, existing: seq<LocalPainting>, ids: seq<int>, p: LocalPainting)
    ensures p in NewPaintings(details, existing, ids) <==>
      exists i :: 0 <= i < |ids| && Keeps(details, existing, ids[i], p)
    decreases |ids|
  {
    if ids != [] {
      var front, last := ids[..|ids| - 1], ids[|ids| - 1];
      NewPaintingsMembers(details, existing, front, p);
      AdmittedMembers(details, existing, last, p);
      assert NewPaintings(details, existing, ids) ==
        NewPaintings(details, existing, front) + Admitted(details, existing, last);
      if exists i :: 0 <= i < |ids| && Keeps(details, existing, ids[i], p) {
        var i :| 0 <= i < |ids| && Keeps(details, existing, ids[i], p);
        if i < |ids| - 1 {
          assert front[i] == ids[i];
        }
      }
      if exists i :: 0 <= i < |front| && Keeps(details, existing, front[i], p) {
        var i :| 0 <= i < |front| && Keeps(details, existing, front[i], p);
        assert ids[i] == front[i];
      }
    }
  }

  /** Every collected painting has an image, a title and an artist, carries its provenance block,
      and duplicates nothing in the existing collection. */
  lemma NewPaintingsAreSound(details: map<int, RemoteRecord>, existing: seq<LocalPainting>, ids: seq<int>)
    ensures forall p :: p in NewPaintings(details, existing, ids) ==>
      HasRequiredFields(p) && p.metadata.Some? && p.metadata.value.museum == Museum && !IsDuplicate(p, existing)
  {
    forall p | p in NewPaintings(details, existing, ids)
      ensures HasRequiredFields(p) && p.metadata.Some? && p.metadata.value.museum == Museum && !IsDuplicate(p, existing)
    {
      NewPaintingsMembers(details, existing, ids, p);
    }
  }

  /** At most one painting is collected per identifier. */
  lemma {:induction false} NewPaintingsBounded(details: map<int, RemoteRecord>, existing: seq<LocalPainting>, ids: seq<int>)
    ensures |NewPaintings(details, existing, ids)| <= |ids|
    decreases |ids|
  {
    if ids != [] {
      NewPaintingsBounded(details, existing, ids[..|ids| - 1]);
    }
  }

  /** Duplicates are only looked for in the existing collection: an identifier that appears twice
      in one batch adds its painting twice. */
  lemma RepeatedIdentifierAddedTwice(details: map<int, RemoteRecord>, existing: seq<LocalPainting>, objectID: int)
    requires objectID in details && IsComplete(details[objectID])
    requires !IsDuplicate(TransformToLocalFormat(details[objectID]), existing)
    ensures var p := TransformToLocalFormat(details[objectID]);
      NewPaintings(details, existing, [objectID, objectID]) == [p, p]
  {
    var p := TransformToLocalFormat(details[objectID]);
    assert Admitted(details, existing, objectID) == [p];
    assert [objectID][..0] == [];
    assert NewPaintings(details, existing, [objectID]) == [p];
    assert [objectID, objectID][..1] == [objectID];
  }

  /** Of the identifiers 1 and 2, where only 1 yields a complete record that is not already on
      file, exactly that one record is collected. */
  lemma OneValidOneIncomplete(details: map<int, RemoteRecord>, existing: seq<LocalPainting>)
    requires 1 in details && IsComplete(details[1])
    requires !IsDuplicate(TransformToLocalFormat(details[1]), existing)
    requires 2 !in details || !IsComplete(details[2])
    ensures SearchHighlightPaintings(Some([1, 2]), SearchLimit) == [1, 2]
    ensures NewPaintings(details, existing, [1, 2]) == [TransformToLocalFormat(details[1])]
  {
    assert [1, 2][..1] == [1];
    assert [1][..0] == [];
  }

  /** A search that finds nothing, or fails, leaves nothing to process. */
  lemma EmptySearchProcessesNothing(search: Option<seq<int>>)
    requires search.None? || search == Some([])
    ensures SearchHighlightPaintings(search, SearchLimit) == []
  {
  }
}
