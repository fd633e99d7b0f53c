/**
 * Reading the language model's styling reply: the recommendation text and up
 * to three product categories to search for, taken from a `CATEGORIES:`
 * section when the reply has one and chosen from the quiz occasions otherwise.
 */
module StyleReply {
  import opened Text

  datatype StyleReply = StyleReply(text: string, categories: seq<string>)

  const CategoriesMarker := "CATEGORIES:"
  const RecommendationsMarker := "RECOMMENDATIONS:"
  const MaxCategories := 3

  /** Python's `xs[:3]`. */
  function TakeFirst(xs: seq<string>, n: nat): (r: seq<string>)
    ensures |r| <= n && |r| <= |xs|
    ensures r == xs[..|r|]
    ensures |xs| <= n ==> r == xs
    ensures |xs| > n ==> |r| == n
  {
    if |xs| <= n then xs else xs[..n]
  }

  /**
   * Every piece stripped of surrounding whitespace: one result per piece, none
   * longer than its piece, and none starting or ending with whitespace.
   */
  function StripEach(pieces: seq<string>): (r: seq<string>)
    ensures |r| == |pieces|
    ensures forall k | 0 <= k < |r| :: r[k] == Strip(Python, pieces[k])
    ensures forall k | 0 <= k < |r| :: |r[k]| <= |pieces[k]| && Trimmed(Python, r[k])
  {
    seq(|pieces|, k requires 0 <= k < |pieces| => Strip(Python, pieces[k]))
  }

  const FormalCategories := ["men_blazerssuits", "women_blazerssuits", "men_trousers"]
  const CasualCategories := ["men_jeans", "women_jeans", "men_tshirtstanks"]
  const GeneralCategories := ["men_clothing", "women_clothing"]

  /**
   * The categories searched when the reply names none: suits and trousers
   * for work or formal occasions, jeans and tees for casual ones, general
   * clothing otherwise.
   */
  function DefaultCategories(occasions: seq<string>): (categories: seq<string>)
    ensures 2 <= |categories| <= MaxCategories
    ensures ("Work" in occasions || "Formal" in occasions) ==> categories == FormalCategories
    ensures !("Work" in occasions || "Formal" in occasions) && "Casual" in occasions ==> categories == CasualCategories
    ensures !("Work" in occasions || "Formal" in occasions || "Casual" in occasions) ==> categories == GeneralCategories
  {
    if "Work" in occasions || "Formal" in occasions then FormalCategories
    else if "Casual" in occasions then CasualCategories
    else GeneralCategories
  }

  /**
   * Work and formal occasions take precedence over a casual one: with either
   * present the list is the work list, whatever else is chosen; a casual
   * occasion alone among the three gives the casual list.
   */
  lemma FormalOutranksCasual(occasions: seq<string>)
    ensures "Work" in occasions || "Formal" in occasions ==> DefaultCategories(occasions) == DefaultCategories(["Work"])
    ensures "Work" in occasions || "Formal" in occasions ==> DefaultCategories(occasions) == DefaultCategories(["Formal", "Casual"])
    ensures !("Work" in occasions || "Formal" in occasions) && "Casual" in occasions ==>
      DefaultCategories(occasions) == DefaultCategories(["Casual"])
    ensures "Casual" in occasions ==> DefaultCategories(occasions) != DefaultCategories([])
  {
  }

  /** Only which occasions are chosen matters, not their order or repetition. */
  lemma DefaultCategoriesBySet(a: seq<string>, b: seq<string>)
    requires forall o :: o in a <==> o in b
    ensures DefaultCategories(a) == DefaultCategories(b)
  {
    assert "Work" in a <==> "Work" in b;
    assert "Formal" in a <==> "Formal" in b;
    assert "Casual" in a <==> "Casual" in b;
  }

  /** The categories listed after the marker: the section stripped, cut at commas, each piece stripped. */
  function ListedCategories(text: string): (categories: seq<string>)
    requires Contains(text, CategoriesMarker)
    ensures |categories| >= 1
  {
    SplitSecond(text, CategoriesMarker);
    StripEach(Split(Strip(Python, Split(text, CategoriesMarker)[1]), ","))
  }

  /**
   * Python `generate_style`'s parsing: with the marker, the text before it,
   * without any "RECOMMENDATIONS:" and stripped, and the listed categories;
   * without it, the whole reply and the occasion's default categories.
   * At most three categories are kept in either case.
   */
  function ParseStyleReply(text: string, occasions: seq<string>): (reply: StyleReply)
    ensures |reply.categories| <= MaxCategories
  {
    if Contains(text, CategoriesMarker) then
      var recommendations := Strip(Python, RemoveAll(Split(text, CategoriesMarker)[0], RecommendationsMarker));
      StyleReply(recommendations, TakeFirst(ListedCategories(text), MaxCategories))
    else
      StyleReply(text, TakeFirst(DefaultCategories(occasions), MaxCategories))
  }

  /**
   * With the marker, the recommendation is the text before its first
   * occurrence with every "RECOMMENDATIONS:" removed and stripped; the
   * categories are the first three of those listed between the first and the
   * second marker (or the end), each free of surrounding whitespace.
   */
  lemma MarkedReply(text: string, occasions: seq<string>)
    requires Contains(text, CategoriesMarker)
    ensures var reply, i := ParseStyleReply(text, occasions), IndexOf(text, CategoriesMarker).value;
      && reply.text == Strip(Python, RemoveAll(text[..i], RecommendationsMarker))
      && reply.categories == TakeFirst(
           StripEach(Split(Strip(Python, Before(text[i + |CategoriesMarker|..], CategoriesMarker)), ",")), MaxCategories)
      && (forall k | 0 <= k < |reply.categories| :: Trimmed(Python, reply.categories[k]))
  {
    var parts := Split(text, CategoriesMarker);
    SplitHead(text, CategoriesMarker);
    SplitSecond(text, CategoriesMarker);
    var pieces := Split(Strip(Python, parts[1]), ",");
    assert ListedCategories(text) == StripEach(pieces);
    FirstCategoriesTrimmed(pieces);
  }

  /** The categories kept from stripped pieces are all free of surrounding whitespace. */
  lemma FirstCategoriesTrimmed(pieces: seq<string>)
    ensures forall k | 0 <= k < |TakeFirst(StripEach(pieces), MaxCategories)| ::
      Trimmed(Python, TakeFirst(StripEach(pieces), MaxCategories)[k])
  {
    var listed := StripEach(pieces);
    var kept := TakeFirst(listed, MaxCategories);
    forall k | 0 <= k < |kept| ensures Trimmed(Python, kept[k]) {
      assert kept[k] == listed[k];
    }
  }

  /** Without the marker the reply text is kept unchanged and the categories come from the occasions. */
  lemma UnmarkedReply(text: string, occasions: seq<string>)
    requires !Contains(text, CategoriesMarker)
    ensures ParseStyleReply(text, occasions) == StyleReply(text, DefaultCategories(occasions))
  {
  }
}
