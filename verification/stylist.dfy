/**
 * The hybrid stylist: a deterministic rule engine that builds a fixed number
 * of outfits from the body type, the occasion, the colour palette, disliked
 * items and the wardrobe, and an optional language model whose JSON reply is
 * used when it can be parsed.
 */
module Stylist {
  import opened Wrappers
  import opened Text
  import opened Seqs

  datatype UserProfile = UserProfile(
    age: Option<int>,
    heightFt: Option<int>,
    heightIn: Option<int>,
    bodyType: Option<string>,
    gender: Option<string>)

  datatype UserPreferences = UserPreferences(
    colors: seq<string>,
    occasion: Option<string>,
    dislikedItems: seq<string>,
    budget: Option<string>)

  datatype WardrobeItem = WardrobeItem(name: string, category: string, dominantColor: Option<string>)

  /** One outfit of the rule engine's reply. */
  datatype Outfit = Outfit(
    title: string,
    summary: string,
    items: seq<string>,
    accessories: seq<string>,
    reuseFromWardrobe: seq<string>)

  datatype RuleResponse = RuleResponse(summary: string, outfits: seq<Outfit>)

  /** What a call to the language model did: it raised, or returned a text. */
  datatype Completion = Raised | Returned(text: string)

  /** A recommendation: the model's parsed JSON payload, or the rule engine's reply. */
  datatype Recommendations<J> = FromModel(payload: J) | FromRules(response: RuleResponse)

  /** The built-in items per lower-cased body type. */
  function BodyTypeRules(): (rules: map<string, seq<string>>)
    ensures rules.Keys == {"athletic", "curvy", "petite", "tall"}
    ensures forall k | k in rules :: |rules[k]| == 3
  {
    map[
      "athletic" := ["slim fit jeans", "fitted tees", "structured jackets"],
      "curvy" := ["high-rise trousers", "wrap dresses", "tailored blazers"],
      "petite" := ["cropped jackets", "ankle pants", "monochrome outfits"],
      "tall" := ["wide-leg trousers", "layered knits", "longline coats"]
    ]
  }

  /** The built-in items per lower-cased occasion. */
  function OccasionRules(): (rules: map<string, seq<string>>)
    ensures rules.Keys == {"work", "casual", "date", "party"}
    ensures forall k | k in rules :: |rules[k]| == 3
  {
    map[
      "work" := ["tailored blazer", "button-up shirt", "sleek loafers"],
      "casual" := ["straight denim", "relaxed tee", "clean sneakers"],
      "date" := ["silk blouse", "dark denim", "ankle boots"],
      "party" := ["statement top", "black jeans", "chelsea boots"]
    ]
  }

  const DefaultItems: seq<string> := ["tailored trousers", "versatile knit", "layering jacket"]
  const DefaultPalette: seq<string> := ["navy", "white", "black"]
  const RulesSummary := "Generated using Dressly's rules engine. Configure AI_PROVIDER=openai to enable LLM powered suggestions."

  /** Lower-cases ASCII letters and leaves every other character alone. */
  function Lower(s: string): (r: string)
    ensures |r| == |s|
    ensures forall k | 0 <= k < |s| :: r[k] == if 'A' <= s[k] <= 'Z' then (s[k] as int + 32) as char else s[k]
    ensures forall k | 0 <= k < |r| :: !('A' <= r[k] <= 'Z')
  {
    seq(|s|, k requires 0 <= k < |s| => if 'A' <= s[k] <= 'Z' then (s[k] as int + 32) as char else s[k])
  }

  /** Lowering is idempotent, so a lower-case rule key is found whatever the case the user typed. */
  lemma LowerIdempotent(s: string)
    ensures Lower(Lower(s)) == Lower(s)
  {
    var once := Lower(s);
    assert forall k | 0 <= k < |once| :: Lower(once)[k] == once[k];
  }

  /** Body types that differ only in ASCII case select the same items. */
  lemma BodyTypeIgnoresCase(bodyRules: map<string, seq<string>>, a: UserProfile, b: UserProfile)
    requires a.bodyType.Some? && b.bodyType.Some? && Lower(a.bodyType.value) == Lower(b.bodyType.value)
    ensures BodyItems(bodyRules, a) == BodyItems(bodyRules, b)
  {
  }

  /** Python's `x or default` for an optional string: None and "" both give the default. */
  function OrElse(x: Option<string>, default: string): (r: string)
    ensures x.Some? && x.value != "" ==> r == x.value
    ensures x.None? || x.value == "" ==> r == default
  {
    if x.Some? && x.value != "" then x.value else default
  }

  /** `dict.get(key, [])`. */
  function Lookup(rules: map<string, seq<string>>, key: string): (r: seq<string>)
    ensures key in rules ==> r == rules[key]
    ensures key !in rules ==> r == []
  {
    if key in rules then rules[key] else []
  }

  /** The decimal digit `d`. */
  function Digit(d: nat): (c: char)
    requires d < 10
    ensures '0' <= c <= '9' && c as int - '0' as int == d
  {
    ('0' as int + d) as char
  }

  /** `str(n)` for a natural number: its decimal digits, without leading zeros. */
  function Decimal(n: nat): (s: string)
    ensures |s| >= 1 && (|s| == 1 || s[0] != '0')
    ensures forall k | 0 <= k < |s| :: '0' <= s[k] <= '9'
    decreases n
  {
    if n < 10 then [Digit(n)] else Decimal(n / 10) + [Digit(n % 10)]
  }

  /** The number a string of decimal digits denotes. */
  function DecimalValue(s: string): nat
    requires forall k | 0 <= k < |s| :: '0' <= s[k] <= '9'
    decreases |s|
  {
    if s == [] then 0 else DecimalValue(s[..|s| - 1]) * 10 + (s[|s| - 1] as int - '0' as int)
  }

  /** Reading back the decimal digits gives the number. */
  lemma {:induction false} DecimalRoundTrip(n: nat)
    ensures DecimalValue(Decimal(n)) == n
    decreases n
  {
    if n >= 10 {
      DecimalRoundTrip(n / 10);
      var s := Decimal(n);
      assert s[..|s| - 1] == Decimal(n / 10);
    }
  }

  /** The title of the outfit at position `idx`: numbering starts at 1. */
  function OutfitTitle(idx: nat): string {
    "Outfit " + Decimal(idx + 1)
  }

  /** Different positions get different titles. */
  lemma TitlesDistinct(i: nat, j: nat)
    requires i != j
    ensures OutfitTitle(i) != OutfitTitle(j)
  {
    DecimalRoundTrip(i + 1);
    DecimalRoundTrip(j + 1);
    assert Decimal(i + 1) == OutfitTitle(i)[7..];
    assert Decimal(j + 1) == OutfitTitle(j)[7..];
  }

  /** The items the body type calls for, looked up by its lower-cased name (none when it is missing). */
  function BodyItems(bodyRules: map<string, seq<string>>, profile: UserProfile): seq<string> {
    Lookup(bodyRules, Lower(OrElse(profile.bodyType, "")))
  }

  /** The items the occasion calls for; none without preferences or without an occasion. */
  function OccasionItems(preferences: Option<UserPreferences>): seq<string> {
    if preferences.Some? && OrElse(preferences.value.occasion, "") != ""
    then Lookup(OccasionRules(), Lower(preferences.value.occasion.value))
    else []
  }

  /** The colours to cycle through: the preferred colours, or the default palette when there are none. */
  function Palette(preferences: Option<UserPreferences>): (palette: seq<string>)
    ensures |palette| > 0
    ensures preferences.Some? && preferences.value.colors != [] ==> palette == preferences.value.colors
    ensures preferences.None? || preferences.value.colors == [] ==> palette == DefaultPalette
  {
    if preferences.Some? && preferences.value.colors != [] then preferences.value.colors else DefaultPalette
  }

  /**
   * The outfit's items: the body-type items followed by the occasion items,
   * each kept at its first occurrence; the default items when both are empty.
   */
  function ItemSelection(body: seq<string>, occasion: seq<string>): (items: seq<string>)
    ensures items != [] && NoDuplicates(items)
    ensures body + occasion != [] ==> forall x :: x in items <==> x in body + occasion
    ensures body + occasion != [] ==> FirstOccurrenceOrder(items, body + occasion)
    ensures body + occasion == [] ==> items == DefaultItems
  {
    var picked := Dedup(body + occasion);
    if picked == [] then
      assert body + occasion == [] by { DedupEmpty(body + occasion); }
      DefaultItems
    else picked
  }

  /** The accent colour of the outfit at position `idx`: the palette, cycled. */
  function AccentColor(palette: seq<string>, idx: nat): (accent: string)
  {
    if |palette| > 0 then palette[idx % |palette|] else "black"
  }

  function DefaultAccessories(accent: string): seq<string> {
    [accent + " belt", "minimal watch", "textured bag"]
  }

  /** The accessory holds none of the disliked items as a substring. */
  function NoDislike(disliked: seq<string>): string -> bool {
    (a: string) => forall k | 0 <= k < |disliked| :: !Contains(a, disliked[k])
  }

  /** The default accessories, without those that contain a disliked item. */
  function Accessories(accent: string, preferences: Option<UserPreferences>): (accessories: seq<string>)
  {
    if preferences.Some? && preferences.value.dislikedItems != []
    then Filter(DefaultAccessories(accent), NoDislike(preferences.value.dislikedItems))
    else DefaultAccessories(accent)
  }

  /** Accessories are the defaults in order, minus exactly those that contain something disliked. */
  lemma AccessoriesFiltered(accent: string, preferences: Option<UserPreferences>, a: string)
    ensures IsSubsequence(Accessories(accent, preferences), DefaultAccessories(accent))
    ensures a in Accessories(accent, preferences) <==>
      a in DefaultAccessories(accent)
      && (preferences.Some? ==> forall k | 0 <= k < |preferences.value.dislikedItems| ::
            !Contains(a, preferences.value.dislikedItems[k]))
  {
    var defaults := DefaultAccessories(accent);
    if preferences.Some? && preferences.value.dislikedItems != [] {
      var keep := NoDislike(preferences.value.dislikedItems);
      FilterIsSubsequence(defaults, keep);
      FilterMembership(defaults, keep, a);
    } else {
      SubsequenceSelf(defaults);
    }
  }

  /** An empty disliked item is a substring of everything, so it removes every accessory. */
  lemma EmptyDislikeRemovesAll(accent: string, preferences: UserPreferences)
    requires "" in preferences.dislikedItems
    ensures Accessories(accent, Some(preferences)) == []
  {
    var disliked := preferences.dislikedItems;
    var i :| 0 <= i < |disliked| && disliked[i] == "";
    forall a: string ensures !NoDislike(disliked)(a) {
      assert OccursAt(a, disliked[i], 0);
    }
    FilterNone(DefaultAccessories(accent), NoDislike(disliked));
  }

  function WardrobeNames(wardrobe: seq<WardrobeItem>): (names: seq<string>)
    ensures |names| == |wardrobe|
    ensures forall k | 0 <= k < |wardrobe| :: names[k] == wardrobe[k].name
  {
    seq(|wardrobe|, k requires 0 <= k < |wardrobe| => wardrobe[k].name)
  }

  function InSelection(items: seq<string>): string -> bool {
    (n: string) => n in items
  }

  /** The wardrobe names that are among the outfit's items, in wardrobe order. */
  function Reuse(wardrobe: seq<WardrobeItem>, items: seq<string>): seq<string> {
    Filter(WardrobeNames(wardrobe), InSelection(items))
  }

  /** Reuse picks, in wardrobe order and with their repetitions, exactly the owned names the outfit lists. */
  lemma ReuseIsIntersection(wardrobe: seq<WardrobeItem>, items: seq<string>, n: string)
    ensures IsSubsequence(Reuse(wardrobe, items), WardrobeNames(wardrobe))
    ensures n in Reuse(wardrobe, items) <==> n in WardrobeNames(wardrobe) && n in items
    ensures multiset(Reuse(wardrobe, items))[n] == if n in items then multiset(WardrobeNames(wardrobe))[n] else 0
  {
    FilterIsSubsequence(WardrobeNames(wardrobe), InSelection(items));
    FilterMembership(WardrobeNames(wardrobe), InSelection(items), n);
    FilterCount(WardrobeNames(wardrobe), InSelection(items), n);
  }

  /** The outfit the rule engine builds at position `idx`. */
  function OutfitAt(bodyRules: map<string, seq<string>>, profile: UserProfile,
                    preferences: Option<UserPreferences>, wardrobe: seq<WardrobeItem>, idx: nat): Outfit
  {
    var items := ItemSelection(BodyItems(bodyRules, profile), OccasionItems(preferences));
    var accent := AccentColor(Palette(preferences), idx);
    Outfit(
      OutfitTitle(idx),
      "Blends Dressly's core rules for " + OrElse(profile.bodyType, "balanced") + " body types with " + accent + " accents.",
      items,
      Accessories(accent, preferences),
      Reuse(wardrobe, items))
  }

  /** Outfit `idx` is accented by the palette colour at `idx` modulo the palette length, its belt included. */
  lemma AccentCycles(preferences: Option<UserPreferences>, idx: nat)
    ensures var palette := Palette(preferences);
      && AccentColor(palette, idx) == palette[idx % |palette|]
      && AccentColor(palette, idx) == AccentColor(palette, idx + |palette|)
      && (preferences.None? ==> AccentColor(palette, idx) == DefaultPalette[idx % 3])
  {
    ModPeriod(idx, |Palette(preferences)|);
  }

  /** Adding the period does not change the remainder. */
  lemma ModPeriod(a: nat, n: nat)
    requires n > 0
    ensures (a + n) % n == a % n
  {
    var q, r := a / n, a % n;
    assert a + n == (q + 1) * n + r by {
      assert (q + 1) * n == q * n + n;
    }
    DivModUnique(a + n, n, q + 1, r);
  }
  lemma DivModUnique(x: int, n: int, q: int, r: int)
    requires n > 0 && 0 <= r < n && x == q * n + r
    ensures x % n == r
  {
    var d := (x / n) - q;
    assert d * n == r - x % n by {
      assert x == (x / n) * n + x % n;
      assert d * n == (x / n) * n - q * n;
    }
    MulSign(d, n);
  }
  lemma MulSign(d: int, n: int)
    requires n > 0
    ensures d >= 1 ==> d * n >= n
    ensures d <= -1 ==> d * n <= -n
  {
  }

  /**
   * Every outfit lists each of the body-type and occasion items exactly once,
   * nothing else, and the default items when there are none of those.
   */
  lemma OutfitItems(bodyRules: map<string, seq<string>>, profile: UserProfile,
                    preferences: Option<UserPreferences>, wardrobe: seq<WardrobeItem>, idx: nat, x: string)
    ensures var o, wanted := OutfitAt(bodyRules, profile, preferences, wardrobe, idx),
                             BodyItems(bodyRules, profile) + OccasionItems(preferences);
      && o.title == OutfitTitle(idx)
      && o.items != [] && NoDuplicates(o.items)
      && (wanted != [] ==> (x in o.items <==> x in wanted))
      && (wanted == [] ==> o.items == DefaultItems)
  {
  }

  /** Every outfit lists the same items, whatever its position. */
  lemma ItemsIndependentOfPosition(bodyRules: map<string, seq<string>>, profile: UserProfile,
                                   preferences: Option<UserPreferences>, wardrobe: seq<WardrobeItem>, i: nat, j: nat)
    ensures OutfitAt(bodyRules, profile, preferences, wardrobe, i).items
         == OutfitAt(bodyRules, profile, preferences, wardrobe, j).items
    ensures OutfitAt(bodyRules, profile, preferences, wardrobe, i).reuseFromWardrobe
         == OutfitAt(bodyRules, profile, preferences, wardrobe, j).reuseFromWardrobe
  {
  }

  /**
   * The text handed to the JSON parser: the stripped reply, cut at its first
   * `{` when it does not already start with one.
   */
  function JsonCandidate(raw: string): (candidate: string)
  {
    var s := Strip(Python, raw);
    if s != [] && s[0] != '{' && Contains(s, "{") then s[IndexOf(s, "{").value..] else s
  }

  /**
   * The candidate is a suffix of the stripped reply; only text before the first
   * `{` is dropped, and whenever the reply holds a `{` the candidate starts with it.
   */
  lemma JsonCandidateShape(raw: string)
    ensures var s, c := Strip(Python, raw), JsonCandidate(raw);
      && |c| <= |s| && c == s[|s| - |c|..]
      && (Contains(s, "{") ==> c != [] && c[0] == '{')
      && (Contains(s, "{") ==> !Contains(s[..|s| - |c|], "{"))
      && (!Contains(s, "{") ==> c == s)
  {
    var s, c := Strip(Python, raw), JsonCandidate(raw);
    if Contains(s, "{") {
      var i := IndexOf(s, "{").value;
      OccursAtChar(s, '{', i);
      if s[0] == '{' {
        assert c == s;
        assert s[..0] == [];
      } else {
        assert c == s[i..];
        forall k | 0 <= k < i ensures s[..i][k] != '{' {
          OccursAtChar(s, '{', k);
        }
        ContainsChar(s[..i], '{');
      }
    }
  }

  /** The outfit builder for one set of inputs, as a function of the position. */
  function OutfitMaker(bodyRules: map<string, seq<string>>, profile: UserProfile,
                       preferences: Option<UserPreferences>, wardrobe: seq<WardrobeItem>): nat -> Outfit {
    (idx: nat) => OutfitAt(bodyRules, profile, preferences, wardrobe, idx)
  }

  /** The rule engine's reply: the fixed summary and `maxOutfits` outfits, none when it is not positive. */
  function RulesReply(bodyRules: map<string, seq<string>>, profile: UserProfile,
                      preferences: Option<UserPreferences>, wardrobe: seq<WardrobeItem>, maxOutfits: int): RuleResponse
  {
    RuleResponse(RulesSummary, Tabulate(OutfitMaker(bodyRules, profile, preferences, wardrobe), if maxOutfits > 0 then maxOutfits else 0))
  }

  /**
   * The rule engine's reply carries the fixed summary and `maxOutfits`
   * outfits (none when it is not positive), titled "Outfit 1", "Outfit 2", …
   * in order.
   */
  lemma RulesReplyShape(bodyRules: map<string, seq<string>>, profile: UserProfile,
                        preferences: Option<UserPreferences>, wardrobe: seq<WardrobeItem>, maxOutfits: int)
    ensures var r := RulesReply(bodyRules, profile, preferences, wardrobe, maxOutfits);
      && r.summary == RulesSummary
      && |r.outfits| == (if maxOutfits > 0 then maxOutfits else 0)
      && (forall idx | 0 <= idx < |r.outfits| :: r.outfits[idx].title == OutfitTitle(idx))
  {
    var make := OutfitMaker(bodyRules, profile, preferences, wardrobe);
    var outfits := Tabulate(make, if maxOutfits > 0 then maxOutfits else 0);
    forall idx | 0 <= idx < |outfits| ensures outfits[idx].title == OutfitTitle(idx) {
      assert outfits[idx] == make(idx);
    }
  }

  /** No two outfits of a rule-engine reply share a title. */
  lemma RulesReplyTitlesDistinct(bodyRules: map<string, seq<string>>, profile: UserProfile,
                                 preferences: Option<UserPreferences>, wardrobe: seq<WardrobeItem>, maxOutfits: int)
    ensures var outfits := RulesReply(bodyRules, profile, preferences, wardrobe, maxOutfits).outfits;
      forall i, j | 0 <= i < j < |outfits| :: outfits[i].title != outfits[j].title
  {
    var outfits := RulesReply(bodyRules, profile, preferences, wardrobe, maxOutfits).outfits;
    RulesReplyShape(bodyRules, profile, preferences, wardrobe, maxOutfits);
    forall i, j | 0 <= i < j < |outfits| ensures outfits[i].title != outfits[j].title {
      TitlesDistinct(i, j);
    }
  }

  /** How a class keeps its instances' attributes: in a per-instance `__dict__`, or in fixed slots only. */
  datatype AttributeStorage = InstanceDict | SlotsOnly

  /** A Python class, as far as reading `obj.__dict__` on its instances is concerned. */
  datatype RecordClass = RecordClass(name: string, storage: AttributeStorage)

  /** The three records the prompt serialises are all declared `@dataclass(slots=True)`. */
  const ProfileClass := RecordClass("UserProfile", SlotsOnly)
  const PreferencesClass := RecordClass("UserPreferences", SlotsOnly)
  const WardrobeItemClass := RecordClass("WardrobeItem", SlotsOnly)

  /** The error Python raises when an instance has no `__dict__`. */
  function NoDictError(cls: RecordClass): string {
    "AttributeError: '" + cls.name + "' object has no attribute '__dict__'"
  }

  /** Reading `obj.__dict__` on an instance of `cls`. */
  function ReadDict(cls: RecordClass): Result<(), string> {
    if cls.storage == SlotsOnly then Err(NoDictError(cls)) else Ok(())
  }

  /** What the prompt serialises; the JSON text `json.dumps` makes of it is not modelled. */
  datatype PromptData = PromptData(
    profile: UserProfile,
    preferences: Option<UserPreferences>,
    wardrobe: seq<WardrobeItem>,
    maxOutfits: int)

  /**
   * The wardrobe payload, `[item.__dict__ for item in wardrobe]`: the
   * dictionaries in order, or the error of the first item whose read fails.
   */
  function WardrobePayload(itemClass: RecordClass, wardrobe: seq<WardrobeItem>): (r: Result<seq<WardrobeItem>, string>)
    ensures r.Ok? <==> wardrobe == [] || itemClass.storage == InstanceDict
    ensures r.Ok? ==> r.value == wardrobe
    ensures r.Err? ==> r.error == NoDictError(itemClass)
  {
    if wardrobe == [] then Ok([])
    else
      match ReadDict(itemClass)
      case Err(e) => Err(e)
      case Ok(_) =>
        match WardrobePayload(itemClass, wardrobe[1..])
        case Err(e) => Err(e)
        case Ok(rest) =>
          assert wardrobe == [wardrobe[0]] + wardrobe[1..];
          Ok([wardrobe[0]] + rest)
  }

  /**
   * `_build_prompt` over the declaring classes of the records: the wardrobe
   * payload is read first, then the profile's dictionary, then the
   * preferences' when there are any; the first failing read raises.
   */
  function BuildPrompt(profileClass: RecordClass, preferencesClass: RecordClass, itemClass: RecordClass,
                       profile: UserProfile, preferences: Option<UserPreferences>,
                       wardrobe: seq<WardrobeItem>, maxOutfits: int): (r: Result<PromptData, string>)
    ensures r.Ok? <==>
      && (wardrobe == [] || itemClass.storage == InstanceDict)
      && profileClass.storage == InstanceDict
      && (preferences.Some? ==> preferencesClass.storage == InstanceDict)
    ensures r.Ok? ==> r.value == PromptData(profile, preferences, wardrobe, maxOutfits)
    ensures wardrobe != [] && itemClass.storage == SlotsOnly ==> r == Err(NoDictError(itemClass))
    ensures (wardrobe == [] || itemClass.storage == InstanceDict) && profileClass.storage == SlotsOnly ==>
      r == Err(NoDictError(profileClass))
  {
    match WardrobePayload(itemClass, wardrobe)
    case Err(e) => Err(e)
    case Ok(items) =>
      match ReadDict(profileClass)
      case Err(e) => Err(e)
      case Ok(_) =>
        if preferences.Some? && ReadDict(preferencesClass).Err? then Err(ReadDict(preferencesClass).error)
        else Ok(PromptData(profile, preferences, items, maxOutfits))
  }

  /**
   * The prompt as the source builds it. Every record class is slots-only, so
   * building it always raises: on the first wardrobe item when there is one,
   * on the profile otherwise.
   */
  function PromptAsWritten(profile: UserProfile, preferences: Option<UserPreferences>,
                           wardrobe: seq<WardrobeItem>, maxOutfits: int): (r: Result<PromptData, string>)
    ensures r.Err?
    ensures wardrobe != [] ==> r.error == NoDictError(WardrobeItemClass)
    ensures wardrobe == [] ==> r.error == NoDictError(ProfileClass)
  {
    BuildPrompt(ProfileClass, PreferencesClass, WardrobeItemClass, profile, preferences, wardrobe, maxOutfits)
  }

  class HybridStylistModel {
    /** Whether a language-model client was configured. */
    const hasModel: bool
    /** The body-type rules: the ones given, or the built-in ones when none or an empty map is given. */
    const bodyRules: map<string, seq<string>>

    constructor (hasModel: bool, styleRules: Option<map<string, seq<string>>>)
      ensures this.hasModel == hasModel
      ensures styleRules.Some? && styleRules.value != map[] ==> bodyRules == styleRules.value
      ensures styleRules.None? || styleRules.value == map[] ==> bodyRules == BodyTypeRules()
    {
      this.hasModel := hasModel;
      bodyRules := if styleRules.Some? && styleRules.value != map[] then styleRules.value else BodyTypeRules();
    }

    /** The rule engine: its loop builds the reply RulesReply specifies, outfit by outfit. */
    method RuleBasedResponse(profile: UserProfile, preferences: Option<UserPreferences>,
                             wardrobe: seq<WardrobeItem>, maxOutfits: int) returns (response: RuleResponse)
      ensures response == RulesReply(bodyRules, profile, preferences, wardrobe, maxOutfits)
    {
      var count := if maxOutfits > 0 then maxOutfits else 0;
      ghost var make := OutfitMaker(bodyRules, profile, preferences, wardrobe);
      var outfits: seq<Outfit> := [];
      var idx := 0;
      while idx < count
        invariant 0 <= idx <= count
        invariant outfits == Tabulate(make, idx)
      {
        var outfit := BuildOutfit(profile, preferences, wardrobe, idx);
        assert outfit == make(idx);
        assert Tabulate(make, idx + 1) == Tabulate(make, idx) + [make(idx)];
        outfits := outfits + [outfit];
        idx := idx + 1;
      }
      response := RuleResponse(RulesSummary, outfits);
    }

    /** One pass of the rule engine's loop: the outfit at position `idx`, built field by field. */
    method BuildOutfit(profile: UserProfile, preferences: Option<UserPreferences>,
                       wardrobe: seq<WardrobeItem>, idx: nat) returns (outfit: Outfit)
      ensures outfit == OutfitAt(bodyRules, profile, preferences, wardrobe, idx)
    {
      var body := BodyItems(bodyRules, profile);
      var occasion := OccasionItems(preferences);
      var palette := Palette(preferences);
      var items := Dedup(body + occasion);
      if items == [] {
        items := DefaultItems;
      }
      var accent := if |palette| > 0 then palette[idx % |palette|] else "black";
      var summary := "Blends Dressly's core rules for " + OrElse(profile.bodyType, "balanced")
        + " body types with " + accent + " accents.";
      var accessories := DefaultAccessories(accent);
      if preferences.Some? && preferences.value.dislikedItems != [] {
        accessories := Filter(accessories, NoDislike(preferences.value.dislikedItems));
      }
      var reuse := Filter(WardrobeNames(wardrobe), InSelection(items));
      outfit := Outfit(OutfitTitle(idx), summary, items, accessories, reuse);
    }

    /** Python `_safe_json_loads`: blank replies give None, otherwise the trimmed candidate is parsed. */
    static method SafeJsonLoads<J>(raw: string, loads: string -> Option<J>) returns (parsed: Option<J>)
      ensures Strip(Python, raw) == "" ==> parsed.None?
      ensures Strip(Python, raw) != "" ==> parsed == loads(JsonCandidate(raw))
    {
      var text := Strip(Python, raw);
      if text == "" {
        return None;
      }
      if text[0] != '{' && Contains(text, "{") {
        text := text[IndexOf(text, "{").value..];
      }
      parsed := loads(text);
    }

    /**
     * The reply: the model's parsed JSON when a model is configured, its call
     * returns, and the reply parses; the rule engine's reply otherwise.
     */
    method Generate<J>(profile: UserProfile, preferences: Option<UserPreferences>, wardrobe: seq<WardrobeItem>,
                       maxOutfits: int, completion: Completion, loads: string -> Option<J>)
      returns (result: Recommendations<J>)
      ensures (!hasModel || completion.Raised?) ==>
        result == FromRules(RulesReply(bodyRules, profile, preferences, wardrobe, maxOutfits))
      ensures hasModel && completion.Returned? ==>
        (if Strip(Python, completion.text) != "" && loads(JsonCandidate(completion.text)).Some?
         then result == FromModel(loads(JsonCandidate(completion.text)).value)
         else result == FromRules(RulesReply(bodyRules, profile, preferences, wardrobe, maxOutfits)))
    {
      if !hasModel {
        var rules := RuleBasedResponse(profile, preferences, wardrobe, maxOutfits);
        return FromRules(rules);
      }
      match completion {
        case Raised =>
          var rules := RuleBasedResponse(profile, preferences, wardrobe, maxOutfits);
          result := FromRules(rules);
        case Returned(text) =>
          var parsed := SafeJsonLoads(text, loads);
          if parsed.None? {
            var rules := RuleBasedResponse(profile, preferences, wardrobe, maxOutfits);
            result := FromRules(rules);
          } else {
            result := FromModel(parsed.value);
          }
      }
    }

    /**
     * `generate` as the source writes it: the prompt is built before the model
     * check, and building it raises, so no call reaches the rule engine or the
     * model.
     */
    method GenerateAsWritten<J>(profile: UserProfile, preferences: Option<UserPreferences>, wardrobe: seq<WardrobeItem>,
                                maxOutfits: int, completion: Completion, loads: string -> Option<J>)
      returns (result: Result<Recommendations<J>, string>)
      ensures result.Err?
      ensures result == Err(PromptAsWritten(profile, preferences, wardrobe, maxOutfits).error)
    {
      var prompt := PromptAsWritten(profile, preferences, wardrobe, maxOutfits);
      if prompt.Err? {
        return Err(prompt.error);
      }
      var reply := Generate(profile, preferences, wardrobe, maxOutfits, completion, loads);
      result := Ok(reply);
    }

    /**
     * `agenerate` as the source writes it: the model check comes before the
     * prompt, so without a model the rule engine answers; with one, building
     * the prompt raises.
     */
    method AGenerateAsWritten<J>(profile: UserProfile, preferences: Option<UserPreferences>, wardrobe: seq<WardrobeItem>,
                                 maxOutfits: int, completion: Completion, loads: string -> Option<J>)
      returns (result: Result<Recommendations<J>, string>)
      ensures !hasModel ==> result == Ok(FromRules(RulesReply(bodyRules, profile, preferences, wardrobe, maxOutfits)))
      ensures hasModel ==> result.Err?
      ensures hasModel ==> result == Err(PromptAsWritten(profile, preferences, wardrobe, maxOutfits).error)
    {
      if !hasModel {
        var rules := RuleBasedResponse(profile, preferences, wardrobe, maxOutfits);
        return Ok(FromRules(rules));
      }
      var prompt := PromptAsWritten(profile, preferences, wardrobe, maxOutfits);
      if prompt.Err? {
        return Err(prompt.error);
      }
      var reply := Generate(profile, preferences, wardrobe, maxOutfits, completion, loads);
      result := Ok(reply);
    }
  }
}
