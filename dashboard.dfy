/** The browser side (public/main.js): the summary counts, the card list
    with its empty-state placeholder, the checkbox and keyword filter, and
    the date placeholder. DOM updates are modelled by the values the page
    would show. */
module Dashboard {
  import opened JsValues
  import opened Text

  /** A summary as the page receives it. The page calls `toLowerCase` on
      `name`, `crop` and `type`, so these are strings here; `kind` is the
      `type` field. */
  datatype Dataset = Dataset(
    name: string,
    crop: string,
    kind: string,
    generatedAt: Json,
    relatedGenotype: Json)

  /** A category checkbox of the filter group. */
  datatype Checkbox = Checkbox(value: string, checked: bool)

  // ----- formatDate -----

  /** What a date cell shows: the `-` placeholder, or the value formatted by
      `Date` (local formatting is not modelled). */
  datatype DateText = Dash | Formatted(value: Json)

  /** `formatDate(value)`: `-` exactly for a falsy value. */
  function FormatDate(value: Json): (r: DateText)
    ensures r.Dash? <==> !Truthy(value)
    ensures r.Formatted? ==> r.value == value
  {
    if !Truthy(value) then Dash else Formatted(value)
  }

  // ----- createSummaryPills -----

  /** The number of datasets whose lower-cased `type` is `category`. */
  function CountOfType(datasets: seq<Dataset>, category: string): (n: nat)
    ensures n <= |datasets|
  {
    if datasets == [] then 0
    else (if Lower(datasets[0].kind) == category then 1 else 0) + CountOfType(datasets[1..], category)
  }

  /** A labelled count pill. */
  datatype Pill = Pill(title: string, value: nat)

  /** The counts `createSummaryPills` shows: the total, then the genotype
      and phenotype counts. Each dataset is counted in at most one category,
      so the two category counts never add up to more than the total. */
  function SummaryPills(datasets: seq<Dataset>): (pills: seq<Pill>)
    ensures |pills| == 3
    ensures pills[0] == Pill("전체", |datasets|)
    ensures pills[1] == Pill("Genotype", CountOfType(datasets, "genotype"))
    ensures pills[2] == Pill("Phenotype", CountOfType(datasets, "phenotype"))
    ensures pills[1].value + pills[2].value <= pills[0].value
  {
    CategoriesDisjoint(datasets, "genotype", "phenotype");
    [ Pill("전체", |datasets|),
      Pill("Genotype", CountOfType(datasets, "genotype")),
      Pill("Phenotype", CountOfType(datasets, "phenotype")) ]
  }

  /** Two different categories together count at most every dataset. */
  lemma {:induction false} CategoriesDisjoint(datasets: seq<Dataset>, a: string, b: string)
    requires a != b
    ensures CountOfType(datasets, a) + CountOfType(datasets, b) <= |datasets|
  {
    if datasets != [] {
      CategoriesDisjoint(datasets[1..], a, b);
    }
  }

  // ----- renderDatasets -----

  /** One rendered card: the dataset it shows, the class and `data-*`
      attributes the card carries, the formatted generation date, and
      whether the related-genotype block is shown. */
  datatype Card = Card(
    dataset: Dataset,
    typeClass: string,
    dataName: string,
    dataCrop: string,
    generated: DateText,
    relatedShown: bool)

  /** What the list container holds after rendering: the empty-state
      placeholder, the appended cards, or nothing because building a card
      threw before the fragment was appended. */
  datatype View = Placeholder | Cards(cards: seq<Card>) | Failed

  /** The card `renderDatasets` fills in for one dataset. */
  function CardFor(d: Dataset): Card {
    Card(d, Lower(d.kind), Lower(d.name), Lower(d.crop), FormatDate(d.generatedAt), Truthy(d.relatedGenotype))
  }

  /** The ASCII white space of the DOM standard, which a class token may not
      contain. */
  predicate IsAsciiSpace(c: char) {
    c == ' ' || c == '\t' || c == '\n' || c == '\U{000C}' || c == '\r'
  }

  /** A token `classList.add` accepts: it throws a `SyntaxError` on the empty
      string and an `InvalidCharacterError` on a token holding white space. */
  predicate ValidToken(token: string) {
    token != "" && forall k :: 0 <= k < |token| ==> !IsAsciiSpace(token[k])
  }

  /** `renderDatasets(datasets)`: an empty list shows only the placeholder.
      Otherwise the cards are built in input order; if some dataset's
      lower-cased type is not a valid class token, `classList.add` throws,
      the cleared list stays empty and no card is appended; else one card
      per dataset is appended, in input order. */
  method RenderDatasets(datasets: seq<Dataset>) returns (view: View)
    ensures view.Placeholder? <==> datasets == []
    ensures view.Failed? <==>
      datasets != [] && exists i :: 0 <= i < |datasets| && !ValidToken(Lower(datasets[i].kind))
    ensures view.Cards? ==> |view.cards| == |datasets|
    ensures view.Cards? ==> forall i :: 0 <= i < |datasets| ==> view.cards[i] == CardFor(datasets[i])
    ensures view.Cards? ==> forall c :: c in view.cards ==> ValidToken(c.typeClass)
  {
    if |datasets| == 0 {
      return Placeholder;
    }
    var fragment: seq<Card> := [];
    for i := 0 to |datasets|
      invariant |fragment| == i
      invariant forall k :: 0 <= k < i ==> fragment[k] == CardFor(datasets[k])
      invariant forall k :: 0 <= k < i ==> ValidToken(Lower(datasets[k].kind))
    {
      var card := CardFor(datasets[i]);
      if !ValidToken(card.typeClass) {
        return Failed;
      }
      fragment := fragment + [card];
    }
    view := Cards(fragment);
  }

  // ----- filterDatasets -----

  /** The lower-cased values of the checked boxes, in box order. */
  function ActiveTypes(boxes: seq<Checkbox>): (active: seq<string>)
    ensures forall t :: t in active <==> exists b :: b in boxes && b.checked && Lower(b.value) == t
  {
    if boxes == [] then []
    else
      var rest := ActiveTypes(boxes[1..]);
      assert forall b :: b in boxes <==> b == boxes[0] || b in boxes[1..];
      if boxes[0].checked then [Lower(boxes[0].value)] + rest else rest
  }

  /** The search box value, trimmed and lower-cased. */
  function Keyword(search: string): string {
    Lower(Trim(search))
  }

  /** The filter callback: the dataset's lower-cased type is among the
      active types, and the keyword is empty or occurs in the lower-cased
      name or crop. */
  predicate Matches(active: seq<string>, keyword: string, d: Dataset) {
    && Lower(d.kind) in active
    && (keyword == "" || Contains(Lower(d.name), keyword) || Contains(Lower(d.crop), keyword))
  }

  /** `allDatasets.filter(...)` with the callback above. */
  function Filter(active: seq<string>, keyword: string, datasets: seq<Dataset>): (r: seq<Dataset>)
    ensures IsSubsequence(r, datasets)
    ensures forall d :: d in r <==> d in datasets && Matches(active, keyword, d)
  {
    if datasets == [] then []
    else
      var rest := Filter(active, keyword, datasets[1..]);
      assert forall d :: d in datasets <==> d == datasets[0] || d in datasets[1..];
      if Matches(active, keyword, datasets[0]) then [datasets[0]] + rest else rest
  }

  /** `Array.filter` keeps every occurrence of a passing dataset and none of
      a failing one, so equal records (two descriptions with the same
      defaults, say) are all shown. */
  lemma {:induction false} FilterCount(active: seq<string>, keyword: string, datasets: seq<Dataset>, d: Dataset)
    ensures multiset(Filter(active, keyword, datasets))[d]
         == if Matches(active, keyword, d) then multiset(datasets)[d] else 0
  {
    if datasets != [] {
      FilterCount(active, keyword, datasets[1..], d);
      assert datasets == [datasets[0]] + datasets[1..];
    }
  }

  /** `filterDatasets(allDatasets)` for the given checkbox states and search
      box value. */
  function FilterDatasets(boxes: seq<Checkbox>, search: string, datasets: seq<Dataset>): seq<Dataset> {
    Filter(ActiveTypes(boxes), Keyword(search), datasets)
  }

  /** `a` is `b` with some elements removed, the rest kept in order. */
  predicate IsSubsequence<T(==)>(a: seq<T>, b: seq<T>) {
    if b == [] then a == []
    else (a != [] && a[0] == b[0] && IsSubsequence(a[1..], b[1..])) || IsSubsequence(a, b[1..])
  }

  /** A list whose every dataset passes comes back unchanged. */
  lemma {:induction false} FilterKeepsPassing(active: seq<string>, keyword: string, datasets: seq<Dataset>)
    requires forall d :: d in datasets ==> Matches(active, keyword, d)
    ensures Filter(active, keyword, datasets) == datasets
  {
    if datasets != [] {
      assert datasets[0] in datasets;
      FilterKeepsPassing(active, keyword, datasets[1..]);
      assert datasets == [datasets[0]] + datasets[1..];
    }
  }

  /** Filtering an already filtered list with the same state changes nothing. */
  lemma FilterIdempotent(boxes: seq<Checkbox>, search: string, datasets: seq<Dataset>)
    ensures FilterDatasets(boxes, search, FilterDatasets(boxes, search, datasets))
         == FilterDatasets(boxes, search, datasets)
  {
    FilterKeepsPassing(ActiveTypes(boxes), Keyword(search), FilterDatasets(boxes, search, datasets));
  }

  /** With no box checked nothing passes. */
  lemma {:induction false} NoneChecked(boxes: seq<Checkbox>, search: string, datasets: seq<Dataset>)
    requires forall b :: b in boxes ==> !b.checked
    ensures FilterDatasets(boxes, search, datasets) == []
  {
    if datasets != [] {
      NoneChecked(boxes, search, datasets[1..]);
    }
  }

  /** A search box holding only white space imposes no keyword restriction:
      the result is that of an empty search box. */
  lemma BlankSearchIgnored(boxes: seq<Checkbox>, search: string, datasets: seq<Dataset>)
    requires AllSpace(search)
    ensures FilterDatasets(boxes, search, datasets) == FilterDatasets(boxes, "", datasets)
  {
    assert Keyword(search) == "";
    assert Keyword("") == "";
  }

  /** With a box checked for every type present and a blank search box, the
      result is the whole list. */
  lemma AllCheckedShowsAll(boxes: seq<Checkbox>, search: string, datasets: seq<Dataset>)
    requires AllSpace(search)
    requires forall d :: d in datasets ==>
      exists b :: b in boxes && b.checked && Lower(b.value) == Lower(d.kind)
    ensures FilterDatasets(boxes, search, datasets) == datasets
  {
    assert Keyword(search) == "";
    FilterKeepsPassing(ActiveTypes(boxes), Keyword(search), datasets);
  }

  /** With at least one box checked, every checked box lower-casing to the
      same category, and a blank search box, the page shows as many cards as
      that category's pill counts. */
  lemma PillCountMatchesFilter(boxes: seq<Checkbox>, category: string, search: string, datasets: seq<Dataset>)
    requires exists b :: b in boxes && b.checked
    requires forall b :: b in boxes && b.checked ==> Lower(b.value) == category
    requires AllSpace(search)
    ensures |FilterDatasets(boxes, search, datasets)| == CountOfType(datasets, category)
  {
    var active := ActiveTypes(boxes);
    assert forall t :: t in active <==> t in [category];
    assert Keyword(search) == "";
    FilterSameActive(active, [category], "", datasets);
    CountMatchesFilter(category, datasets);
  }

  /** Only which types are active matters, not their order or repetition. */
  lemma {:induction false} FilterSameActive(a: seq<string>, b: seq<string>, keyword: string, datasets: seq<Dataset>)
    requires forall t :: t in a <==> t in b
    ensures Filter(a, keyword, datasets) == Filter(b, keyword, datasets)
  {
    if datasets != [] {
      FilterSameActive(a, b, keyword, datasets[1..]);
    }
  }

  lemma {:induction false} CountMatchesFilter(category: string, datasets: seq<Dataset>)
    ensures |Filter([category], "", datasets)| == CountOfType(datasets, category)
  {
    if datasets != [] {
      CountMatchesFilter(category, datasets[1..]);
    }
  }

  /** With the genotype box checked and keyword "ric", Rice-A passes and
      Maize-B (crop Maize) does not. */
  lemma KeywordExample(rice: Dataset, maize: Dataset)
    requires rice.name == "Rice-A" && rice.crop == "Rice" && rice.kind == "genotype"
    requires maize.name == "Maize-B" && maize.crop == "Maize" && maize.kind == "genotype"
    ensures FilterDatasets([Checkbox("genotype", true)], "ric", [rice, maize]) == [rice]
  {
    GenotypeBoxActive();
    RicKeyword();
    RicePasses(rice);
    MaizeFails(maize);
    var active := ["genotype"];
    assert Filter(active, "ric", [maize]) == [] by {
      assert !Matches(active, "ric", maize);
      assert [maize][1..] == [];
    }
    assert [rice, maize][1..] == [maize];
    assert Filter(active, "ric", [rice, maize]) == [rice];
  }

  lemma RicKeyword()
    ensures Keyword("ric") == "ric"
  {
    assert Lower("ric") == "ric" by {
      LowerKeepsLowerCase("ric");
    }
    assert Trim("ric") == "ric" by {
      TrimKeepsUnpadded("ric");
    }
  }

  lemma GenotypeBoxActive()
    ensures ActiveTypes([Checkbox("genotype", true)]) == ["genotype"]
  {
    LowerKeepsLowerCase("genotype");
    assert [Checkbox("genotype", true)][1..] == [];
  }

  lemma RicePasses(rice: Dataset)
    requires rice.name == "Rice-A" && rice.kind == "genotype"
    ensures Matches(["genotype"], "ric", rice)
  {
    LowerKeepsLowerCase("genotype");
    var name := Lower(rice.name);
    assert name[0] == 'r' && name[1] == 'i' && name[2] == 'c';
    assert name[0..3] == "ric";
    assert OccursAt(name, "ric", 0);
  }

  lemma MaizeFails(maize: Dataset)
    requires maize.name == "Maize-B" && maize.crop == "Maize"
    ensures !Contains(Lower(maize.name), "ric") && !Contains(Lower(maize.crop), "ric")
  {
    NoLetterR(Lower(maize.name));
    NoLetterR(Lower(maize.crop));
  }

  /** A string without the letter r does not contain "ric". */
  lemma NoLetterR(s: string)
    requires forall k :: 0 <= k < |s| ==> s[k] != 'r'
    ensures !Contains(s, "ric")
  {
    forall i | 0 <= i <= |s| - 3 ensures !OccursAt(s, "ric", i) {
      assert s[i..i + 3][0] == s[i];
    }
  }
}
