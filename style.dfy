/** Style inference: a base label chosen from the medium, then at most one period qualifier chosen
    from the begin year. */
module Style {
  import opened Wrappers
  import opened Strings
  import opened Records

  /** Medium substring to base label, in declaration order; the first entry that matches wins. */
  const StyleTable: seq<(string, string)> := [
    ("Oil on canvas", "油画"),
    ("Watercolor", "水彩画"),
    ("Tempera", "蛋彩画"),
    ("Fresco", "湿壁画"),
    ("Ink", "水墨画")
  ]

  /** The base label when no table entry matches. */
  const DefaultStyle: string := "绘画"

  const Impressionism: string := " · 印象派"
  const Modernism: string := " · 现代主义"
  const Renaissance: string := " · 文艺复兴"

  /** `metData.medium || ''`. */
  function MediumText(r: RemoteRecord): string {
    OrElse(r.medium, "")
  }

  /** Entry `k` is the first entry of the table whose key occurs in `medium`. */
  ghost predicate IsFirstMatch(medium: string, k: int) {
    0 <= k < |StyleTable| &&
    Includes(medium, StyleTable[k].0) &&
    forall j :: 0 <= j < k ==> !Includes(medium, StyleTable[j].0)
  }

  /** No key of the table occurs in `medium`. */
  ghost predicate NoMatch(medium: string) {
    forall j :: 0 <= j < |StyleTable| ==> !Includes(medium, StyleTable[j].0)
  }

  /** The label of the first entry at or after `i` whose key occurs in `medium`. */
  function BaseStyleFrom(medium: string, i: nat): string
    requires i <= |StyleTable|
    decreases |StyleTable| - i
  {
    if i == |StyleTable| then DefaultStyle
    else if Includes(medium, StyleTable[i].0) then StyleTable[i].1
    else BaseStyleFrom(medium, i + 1)
  }

  function BaseStyle(medium: string): string {
    BaseStyleFrom(medium, 0)
  }

  /** The period qualifier for a truthy begin year: the three inclusive ranges are tried in the
      order Impressionism, Modernism, Renaissance, so 1900 falls to Impressionism. */
  function PeriodSuffix(year: int): (suffix: string)
    ensures suffix == Impressionism <==> 1870 <= year <= 1900
    ensures suffix == Modernism <==> 1901 <= year <= 1950
    ensures suffix == Renaissance <==> 1400 <= year <= 1600
    ensures suffix == "" <==> !(1400 <= year <= 1600 || 1870 <= year <= 1950)
  {
    if 1870 <= year <= 1900 then Impressionism
    else if 1900 <= year <= 1950 then Modernism
    else if 1400 <= year <= 1600 then Renaissance
    else ""
  }

  /** The qualifier appended for a record: none when the begin year is absent or zero. */
  function PeriodOf(r: RemoteRecord): string {
    if HasBeginYear(r) then PeriodSuffix(r.objectBeginDate.value) else ""
  }

  /** The style a record is given. */
  function StyleOf(r: RemoteRecord): string {
    BaseStyle(MediumText(r)) + PeriodOf(r)
  }

  /** Scanning from `i` agrees with the first-match description over the rest of the table. */
  lemma {:induction false} BaseStyleFromFirstMatch(medium: string, i: nat)
    requires i <= |StyleTable|
    requires forall j :: 0 <= j < i ==> !Includes(medium, StyleTable[j].0)
    ensures forall k :: IsFirstMatch(medium, k) ==> BaseStyleFrom(medium, i) == StyleTable[k].1
    ensures NoMatch(medium) ==> BaseStyleFrom(medium, i) == DefaultStyle
    ensures (exists k :: IsFirstMatch(medium, k)) || NoMatch(medium)
    decreases |StyleTable| - i
  {
    if i == |StyleTable| {
      assert NoMatch(medium);
    } else if Includes(medium, StyleTable[i].0) {
      assert IsFirstMatch(medium, i);
      forall k | IsFirstMatch(medium, k) ensures k == i {
        assert !(k < i) && !(i < k);
      }
    } else {
      BaseStyleFromFirstMatch(medium, i + 1);
    }
  }

  /** The base label is the label of the first matching entry, in declaration order, and the
      default label exactly when nothing matches. */
  lemma BaseStyleIsFirstMatch(medium: string)
    ensures forall k :: 0 <= k < |StyleTable| ==>
      (BaseStyle(medium) == StyleTable[k].1 <==> IsFirstMatch(medium, k))
    ensures BaseStyle(medium) == DefaultStyle <==> NoMatch(medium)
  {
    BaseStyleFromFirstMatch(medium, 0);
  }

  /** `inferArtStyle`: scan the table until the first key found in the medium, then add the
      period qualifier. */
  method InferArtStyle(r: RemoteRecord) returns (style: string)
    ensures style == StyleOf(r)
  {
    var medium := OrElse(r.medium, "");
    style := DefaultStyle;
    var i := 0;
    while i < |StyleTable|
      invariant 0 <= i <= |StyleTable|
      invariant BaseStyleFrom(medium, i) == BaseStyle(medium)
      invariant style == DefaultStyle
    {
      var key, value := StyleTable[i].0, StyleTable[i].1;
      if Includes(medium, key) {
        style := value;
        break;
      }
      i := i + 1;
    }
    assert style == BaseStyle(medium);

    if r.objectBeginDate.Some? && r.objectBeginDate.value != 0 {
      var year := r.objectBeginDate.value;
      if 1870 <= year && year <= 1900 {
        style := style + Impressionism;
      } else if 1900 <= year && year <= 1950 {
        style := style + Modernism;
      } else if 1400 <= year && year <= 1600 {
        style := style + Renaissance;
      }
    }
  }

  /** At most one qualifier is ever appended: the style is the base label alone or the base label
      followed by exactly one of the three qualifiers. */
  lemma StyleHasAtMostOneQualifier(r: RemoteRecord)
    ensures var base := BaseStyle(MediumText(r));
      StyleOf(r) in {base, base + Impressionism, base + Modernism, base + Renaissance}
    ensures PeriodOf(r) != "" ==> HasBeginYear(r)
  {
    var base := BaseStyle(MediumText(r));
    assert base + "" == base;
  }

  /** An oil painting begun in 1880 is styled "油画 · 印象派". */
  lemma OilOnCanvas1880(r: RemoteRecord)
    requires r.medium == Some("Oil on canvas") && r.objectBeginDate == Some(1880)
    ensures StyleOf(r) == "油画 · 印象派"
  {
  }

  /** A record without medium and without begin year gets the default label alone. */
  lemma NoMediumNoYear(r: RemoteRecord)
    requires r.medium.None? && (r.objectBeginDate.None? || r.objectBeginDate == Some(0))
    ensures StyleOf(r) == DefaultStyle
  {
    BaseStyleIsFirstMatch("");
  }
}
