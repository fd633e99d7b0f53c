/**
 * The results view: the recommendation text cut into paragraph sections, and
 * the set of product codes the user has saved from this view.
 */
module Results {
  import opened Wrappers
  import opened Text
  import opened Products

  /** A rendered paragraph: its position and its trimmed text. */
  datatype Section = Section(id: nat, content: string)

  /** A paragraph break. */
  const Break := "\n\n"

  /** The text cut at every paragraph break; each piece is trimmed and numbered, and empty pieces stay. */
  function ParseRecommendation(text: string): (sections: seq<Section>)
  {
    Number(Split(text, Break), 0)
  }

  /** The pieces, trimmed and numbered from `from` on. */
  function Number(pieces: seq<string>, from: nat): (sections: seq<Section>)
    ensures |sections| == |pieces|
    ensures forall i | 0 <= i < |pieces| :: sections[i] == Section(from + i, Strip(JavaScript, pieces[i]))
    decreases |pieces|
  {
    if pieces == [] then [] else [Section(from, Strip(JavaScript, pieces[0]))] + Number(pieces[1..], from + 1)
  }

  /**
   * For the one way of cutting the text at its leftmost, non-overlapping
   * paragraph breaks, the sections are those pieces in order, numbered from 0,
   * each with surrounding whitespace removed; joining the pieces with a break
   * gives back the text.
   */
  lemma {:induction false} SectionsArePieces(text: string, pieces: seq<string>)
    requires IsSplitOf(pieces, text, Break)
    ensures |ParseRecommendation(text)| == |pieces|
    ensures forall i | 0 <= i < |pieces| ::
      ParseRecommendation(text)[i] == Section(i, Strip(JavaScript, pieces[i]))
    ensures Join(pieces, Break) == text
    ensures ParseRecommendation(text) == Number(pieces, 0)
  {
    SplitUnique(pieces, text, Break);
    ParseShape(text);
  }

  lemma ParseShape(text: string)
    ensures |ParseRecommendation(text)| == |Split(text, Break)|
    ensures forall i | 0 <= i < |Split(text, Break)| ::
      ParseRecommendation(text)[i] == Section(i, Strip(JavaScript, Split(text, Break)[i]))
  {
  }

  /** There is one section more than there are paragraph breaks. */
  lemma SectionCount(text: string)
    ensures |ParseRecommendation(text)| == Occurrences(text, Break) + 1
  {
    SplitCount(text, Break);
  }

  /** Text without a paragraph break is a single section. */
  lemma SingleSection(text: string)
    requires !Contains(text, Break)
    ensures ParseRecommendation(text) == [Section(0, Strip(JavaScript, text))]
  {
    SplitHead(text, Break);
  }

  /**
   * Three whitespace-free paragraphs separated by breaks, such as
   * "A\n\nB\n\nC", give exactly those three sections in order.
   */
  lemma ThreeParagraphs(a: string, b: string, c: string)
    requires NoSpace(a) && NoSpace(b) && NoSpace(c)
    ensures ParseRecommendation(a + Break + b + Break + c) == [Section(0, a), Section(1, b), Section(2, c)]
  {
    ThreeAreSplit(a, b, c);
    StripNoSpace(a);
    StripNoSpace(b);
    StripNoSpace(c);
    ThreeSections(a + Break + b + Break + c, a, b, c);
  }

  /** An empty paragraph between two breaks is kept as an empty section. */
  lemma EmptyPieceKept(a: string, c: string)
    requires NoSpace(a) && NoSpace(c)
    ensures ParseRecommendation(a + Break + Break + c) == [Section(0, a), Section(1, ""), Section(2, c)]
  {
    ThreeAreSplit(a, "", c);
    assert a + Break + "" + Break + c == a + Break + Break + c;
    StripNoSpace(a);
    StripNoSpace("");
    StripNoSpace(c);
    ThreeSections(a + Break + Break + c, a, "", c);
  }

  lemma ThreeSections(text: string, a: string, b: string, c: string)
    requires IsSplitOf([a, b, c], text, Break)
    requires Strip(JavaScript, a) == a && Strip(JavaScript, b) == b && Strip(JavaScript, c) == c
    ensures ParseRecommendation(text) == [Section(0, a), Section(1, b), Section(2, c)]
  {
    SectionsArePieces(text, [a, b, c]);
    NumberThree(a, b, c);
  }

  lemma NumberThree(a: string, b: string, c: string)
    ensures Number([a, b, c], 0) == [Section(0, Strip(JavaScript, a)), Section(1, Strip(JavaScript, b)), Section(2, Strip(JavaScript, c))]
  {
  }

  lemma ThreeAreSplit(a: string, b: string, c: string)
    requires NoSpace(a) && NoSpace(b) && NoSpace(c)
    ensures IsSplitOf([a, b, c], a + Break + b + Break + c, Break)
  {
    JoinThree(a, b, c);
    WordEndsAtFirst(a);
    WordEndsAtFirst(b);
    WordHasNoBreak(c);
  }

  lemma JoinThree(a: string, b: string, c: string)
    ensures Join([a, b, c], Break) == a + Break + b + Break + c
  {
    assert [a, b, c][1..] == [b, c];
    assert [b, c][1..] == [c];
    assert Join([b, c], Break) == b + Break + c;
    assert a + Break + (b + Break + c) == a + Break + b + Break + c;
  }

  /** A whitespace-free piece stops right at the break that follows it. */
  lemma WordEndsAtFirst(p: string)
    requires NoSpace(p)
    ensures EndsAtFirst(p, Break)
  {
    var t := p + Break;
    forall k | 0 <= k < |p| ensures !OccursAt(t, Break, k) {
      assert t[k..k + 2][0] == p[k];
    }
    assert t[|p|..|p| + 2] == Break;
    assert OccursAt(t, Break, |p|);
  }

  /** A whitespace-free piece holds no break. */
  lemma WordHasNoBreak(p: string)
    requires NoSpace(p)
    ensures IndexOf(p, Break).None?
  {
    forall k ensures !OccursAt(p, Break, k) {
      if 0 <= k && k + 2 <= |p| {
        assert p[k..k + 2][0] == p[k];
      }
    }
  }

  /** The saved set after saving a code: the code is marked, every earlier code stays, nothing else is added. */
  function SaveCode(saved: set<string>, code: string): (r: set<string>)
    ensures code in r && saved <= r
    ensures forall c | c in r :: c in saved || c == code
  {
    saved + {code}
  }

  /** Saving a code twice leaves the same saved set as saving it once. */
  lemma SaveTwiceIsSaveOnce(saved: set<string>, code: string)
    ensures SaveCode(SaveCode(saved, code), code) == SaveCode(saved, code)
  {
  }

  /** Saving is order-independent: two codes saved either way round give the same set. */
  lemma SaveCommutes(saved: set<string>, a: string, b: string)
    ensures SaveCode(SaveCode(saved, a), b) == SaveCode(SaveCode(saved, b), a)
  {
  }

  /** The view's own state: the codes of the products saved from it. */
  class ResultsView {
    var savedItems: set<string>

    constructor ()
      ensures savedItems == {}
    {
      savedItems := {};
    }

    /**
     * Marks the product as saved and hands it to the wishlist callback; the
     * saved set only grows, by exactly this code.
     */
    method HandleSave(product: Product) returns (forwarded: Product)
      modifies this
      ensures savedItems == SaveCode(old(savedItems), product.code)
      ensures old(savedItems) <= savedItems && product.code in savedItems
      ensures forwarded == product
    {
      savedItems := savedItems + {product.code};
      forwarded := product;
    }
  }
}
