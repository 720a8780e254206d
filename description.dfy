/** The Chinese description of an object record: a fixed template with fallbacks, an optional year
    clause, an optional clause naming up to three subject tags, and a fixed closing sentence. */
module ChineseDescription {
  import opened Wrappers
  import opened Strings
  import opened Records

  const UnknownArtist: string := "未知艺术家"
  const UnknownMedium: string := "材质未知"
  const YearOpen: string := "，创作于"
  const YearClose: string := "年前后"
  const TagOpen: string := "。作品主题涉及"
  const TagSeparator: char := '、'
  const Closing: string := "。这件作品现藏于纽约大都会艺术博物馆。"

  /** How a template literal renders the title: an absent title prints as `undefined`. */
  function TitleText(r: RemoteRecord): string {
    match r.title
    case Some(t) => t
    case None => "undefined"
  }

  /** How `Array.prototype.join` renders one tag term: absent or null prints as nothing. */
  function TermText(t: Tag): string {
    t.term.GetOr("")
  }

  /** `tags.map(tag => tag.term).slice(0, 3)`. */
  function TagTerms(tags: seq<Tag>): (terms: seq<string>)
    ensures |terms| == if |tags| < 3 then |tags| else 3
    ensures forall i :: 0 <= i < |terms| ==> terms[i] == TermText(tags[i])
  {
    var n := if |tags| < 3 then |tags| else 3;
    seq(n, i requires 0 <= i < n => TermText(tags[i]))
  }

  /** The tags are present and the array is not empty. */
  predicate HasTags(r: RemoteRecord) {
    r.tags.Some? && |r.tags.value| > 0
  }

  /** The opening sentence, with the artist and medium fallbacks. */
  function Head(r: RemoteRecord): string {
    "《" + TitleText(r) + "》是" + OrElse(r.artistDisplayName, UnknownArtist) + "的" +
    OrElse(r.medium, UnknownMedium) + "作品"
  }

  function YearClause(r: RemoteRecord): string {
    if HasBeginYear(r) then YearOpen + IntToString(r.objectBeginDate.value) + YearClose else ""
  }

  function TagClause(r: RemoteRecord): string {
    if HasTags(r) then TagOpen + Join(TagTerms(r.tags.value), [TagSeparator]) else ""
  }

  /** The whole description of a record. */
  function Description(r: RemoteRecord): string {
    Head(r) + YearClause(r) + TagClause(r) + Closing
  }

  /** `generateChineseDescription`: start from the opening sentence and append the optional
      clauses and the closing sentence one after another. */
  method GenerateChineseDescription(r: RemoteRecord) returns (description: string)
    ensures description == Description(r)
  {
    var artist := OrElse(r.artistDisplayName, UnknownArtist);
    var title := TitleText(r);
    var medium := OrElse(r.medium, UnknownMedium);

    description := "《" + title + "》是" + artist + "的" + medium + "作品";

    if r.objectBeginDate.Some? && r.objectBeginDate.value != 0 {
      description := description + YearOpen + IntToString(r.objectBeginDate.value) + YearClose;
    }

    if r.tags.Some? && |r.tags.value| > 0 {
      var tags := TagTerms(r.tags.value);
      description := description + TagOpen + Join(tags, [TagSeparator]);
    }

    description := description + Closing;
  }

  /** `a` leads `a + b`, and what follows it there is `b`. */
  lemma ConcatSplit(a: string, b: string)
    ensures a <= a + b && (a + b)[|a|..] == b
    ensures (a + b)[|a + b| - |b|..] == b
  {
  }

  /** In `a + b + c`, the slice after `a` of the length of `b` is `b`. */
  lemma ConcatMiddle(a: string, b: string, c: string)
    ensures |a| + |b| <= |a + b + c| && (a + b + c)[|a|..|a| + |b|] == b
  {
  }

  /** Every description opens with the title sentence (artist and medium falling back to
      "未知艺术家" and "材质未知") and closes with the sentence naming the museum. */
  lemma DescriptionFrame(r: RemoteRecord)
    ensures Head(r) <= Description(r)
    ensures |Description(r)| >= |Head(r)| + |Closing|
    ensures Description(r)[|Description(r)| - |Closing|..] == Closing
  {
    var h, middle, c := Head(r), YearClause(r) + TagClause(r), Closing;
    ConcatSplit(h, middle + c);
    ConcatSplit(h + middle, c);
  }

  /** The character right after the opening sentence is '，' exactly when the begin year is truthy,
      that is, the year clause is there exactly when `objectBeginDate` is truthy. */
  lemma YearClauseMarker(r: RemoteRecord)
    ensures |Description(r)| > |Head(r)|
    ensures Description(r)[|Head(r)|] == '，' <==> HasBeginYear(r)
  {
    var h, y, t, c := Head(r), YearClause(r), TagClause(r), Closing;
    ConcatSplit(h, y + t + c);
    if HasBeginYear(r) {
      ConcatSplit(y, t + c);
    } else if HasTags(r) {
      ConcatSplit(t, c);
    }
  }

  /** When the year clause is there, the number it names reads back as the begin year. */
  lemma YearClauseNamesYear(r: RemoteRecord)
    requires HasBeginYear(r)
    ensures var k := |Head(r)| + |YearOpen|;
      var n := |IntToString(r.objectBeginDate.value)|;
      k + n <= |Description(r)| && ParseInt(Description(r)[k..k + n]) == Some(r.objectBeginDate.value)
  {
    var y := r.objectBeginDate.value;
    var h, digits, t, c := Head(r), IntToString(y), TagClause(r), Closing;
    assert YearClause(r) == YearOpen + digits + YearClose;
    assert Description(r) == (h + YearOpen) + digits + (YearClose + t + c);
    ConcatMiddle(h + YearOpen, digits, YearClose + t + c);
    IntToStringRoundTrip(y);
  }

  /** Past the opening sentence and the year clause, the text continues with "。作" exactly when the
      record has tags; otherwise it goes straight on with "。这", the closing sentence. */
  lemma TagClauseMarker(r: RemoteRecord)
    ensures var p := |Head(r)| + |YearClause(r)|;
      p + 1 < |Description(r)| && Description(r)[p] == '。' &&
      (Description(r)[p + 1] == '作' <==> HasTags(r))
  {
    var h, y, t, c := Head(r), YearClause(r), TagClause(r), Closing;
    ConcatSplit(h + y, t + c);
    if HasTags(r) {
      var joined := Join(TagTerms(r.tags.value), [TagSeparator]);
      assert t + c == TagOpen + (joined + c);
    } else {
      assert t + c == c;
    }
  }

  /** The tag clause lists the first three tag terms, in order: cutting it at '、' gives back
      exactly those terms, provided none of the first three terms contains '、'. */
  lemma TagClauseListsFirstThree(r: RemoteRecord)
    requires HasTags(r)
    requires forall i :: 0 <= i < |r.tags.value| && i < 3 ==> TagSeparator !in TermText(r.tags.value[i])
    ensures TagClause(r)[..|TagOpen|] == TagOpen
    ensures var terms := Split(TagClause(r)[|TagOpen|..], TagSeparator);
      1 <= |terms| <= 3 &&
      terms == TagTerms(r.tags.value) &&
      forall i :: 0 <= i < |terms| ==> terms[i] == TermText(r.tags.value[i])
  {
    var terms := TagTerms(r.tags.value);
    var joined := Join(terms, [TagSeparator]);
    assert TagClause(r) == TagOpen + joined;
    assert TagClause(r)[|TagOpen|..] == joined;
    SplitJoin(terms, TagSeparator);
  }
}
