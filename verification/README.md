# Dressly decision logic in Dafny

Dressly is a style-quiz application. A React front end walks the user through
a six-step quiz, shows the recommendation text and the matching products,
keeps a wishlist, and signs users in. A FastAPI back end stores wishlists and
users in MongoDB and asks a language model for styling advice. When no model
is configured, or the model's reply is unusable, a rule engine answers.

This project models the decision logic of that system and proves properties
about it:

| Dafny module (file) | source |
|---|---|
| `QuizSteps` (quiz_steps.dfy) | front-end/src/lib/quizSteps.tsx: the step catalog |
| `QuizForm` (quiz_form.dfy) | front-end/src/components/QuizForm.tsx: answer validator and stepper |
| `Results` (results.dfy) | front-end/src/components/Results.tsx: paragraph sections and the saved set |
| `WishlistView` (wishlist_view.dfy) | front-end/src/components/Wishlist.tsx: loading and removing items |
| `Login` (login.dfy) | front-end/src/components/Login.tsx: form checks and submission |
| `Stylist` (stylist.dfy) | backend/ai_model.py: the hybrid stylist and its rule engine |
| `StyleReply` (style_reply.dfy) | backend/services/ai_model.py: parsing the model's reply |
| `WishlistApi` (wishlist_api.dfy) | backend/api/wishlist.py: the wishlist collection routes |
| `QuizSchema` (quiz_schema.dfy) | backend/models/quiz.py: the quiz input constraints |
| `Auth` (auth.dfy) | backend/api/auth.py: bearer tokens, sign-up and sign-in |

The support modules are:

- `Wrappers`: `Option` and `Result`.
- `Text`: whitespace stripping, leftmost search, `split`/`join` with a uniqueness theorem, `replace`, and an occurrence count.
- `Seqs`: filter, order-preserving dedup, and subsequences.
- `Products`: the product record the front end shows.
- `Http`: an HTTP error (status and detail).

The model follows each file's form:

- Component state that the source updates becomes a class:
  - `QuizController`, `ResultsView`, `WishlistPage` and `LoginForm` on the front end;
  - `WishlistCollection` and `UserStore` for the MongoDB collections.
- Step-by-step code becomes a method with loops and invariants. Examples are the rule engine's outfit loop, the wishlist listing loop and `_safe_json_loads`.
- Pure parsing and checks become functions with lemmas.

External effects become parameters:

- Network answers are inputs: `Fetch`, `AuthOutcome`, `SubmitOutcome`, `Completion`, and a delete-succeeded flag.
- Local-storage entries are fields.
- The opaque routines are function-typed parameters: JSON encoding and decoding, `json.loads`, password hashing and verification, and token creation and decoding.

## Model

| member | source | states |
|---|---|---|
| QuizSteps.Steps | front-end/src/lib/quizSteps.tsx:17-24 | six steps with ids 1..6 in order and pairwise distinct keys; option steps have options and no fields, field steps the reverse; exactly occasion, style_vibe, sizes and budget are required; the field names are ft/in_, tops/bottoms, min/max |
| QuizSteps.FieldNames | front-end/src/lib/quizSteps.tsx:1-5 | one name per declared field, in declaration order |
| QuizSteps.CatalogKeys | front-end/src/lib/quizSteps.tsx:18-23 | the keys are occasion, style_vibe, colors_like, height, sizes, budget |
| QuizForm.OptionalStepAlwaysValid | front-end/src/components/QuizForm.tsx:45 | a step that is not required accepts every answer, null included |
| QuizForm.RequiredStepRejectsNull | front-end/src/components/QuizForm.tsx:46 | a required step rejects null |
| QuizForm.RequiredMultiValid | front-end/src/components/QuizForm.tsx:48-50 | a required option step accepts exactly a non-empty selection |
| QuizForm.RequiredFieldsValid | front-end/src/components/QuizForm.tsx:51-53 | a required field step accepts a field map iff it has a key and no present value is empty; declared fields are not consulted |
| QuizForm.PartialFieldAnswersPass | front-end/src/components/QuizForm.tsx:51-53 | sizes with only a top size pass, a budget minimum of "0" passes, and an empty bottom size fails |
| QuizForm.SubmitErrorMessage | front-end/src/components/QuizForm.tsx:74 | never empty: the back end's detail when it is non-empty, and "Failed to submit quiz. Please try again." exactly when it is empty |
| QuizForm.ToggleMembership | front-end/src/components/QuizForm.tsx:96-104 | toggling flips the option's membership and no other option's |
| QuizForm.ToggleRemovesAll | front-end/src/components/QuizForm.tsx:99-100 | toggling a selected option removes every copy, keeps the other options with their counts, in order |
| QuizForm.ToggleTwice | front-end/src/components/QuizForm.tsx:96-104 | an unselected option is appended, and toggling it twice restores the selection |
| QuizForm.QuizController.constructor | front-end/src/components/QuizForm.tsx:13-17 | first step, no answers, null current answer, not loading, no error; the state invariant holds |
| QuizForm.QuizController.MergeFits | front-end/src/components/QuizForm.tsx:65 | recording the current answer under the step key keeps every stored answer on a catalog key and of its step's shape |
| QuizForm.QuizController.Next | front-end/src/components/QuizForm.tsx:57-83 | invalid answer: the error is set and step, answers and current answer are unchanged; valid: the error is cleared, exactly the step key is updated, the step advances by one before the last step, and on the last step loading starts with the merged map submitted; the reloaded current answer is the stored one; the step stays within the catalog |
| QuizForm.QuizController.FinishSubmission | front-end/src/components/QuizForm.tsx:68-79 | success hands on the result; failure shows and reports the back end's detail or the fixed message; loading ends either way |
| QuizForm.QuizController.Prev | front-end/src/components/QuizForm.tsx:85-93 | records the current answer without validation, clears the error, moves back one step unless on the first, and reloads the stored answer |
| QuizForm.QuizController.ToggleOption | front-end/src/components/QuizForm.tsx:96-104 | the current answer becomes the toggled selection (null read as empty) |
| QuizForm.QuizController.SetField | front-end/src/components/QuizForm.tsx:166-171 | the current answer becomes the field map with exactly one field set (null read as empty) |
| Text.Strip | front-end/src/components/Results.tsx:34 | the result is no longer than the input and neither starts nor ends with whitespace of the given runtime (JavaScript `trim` or Python `strip`) |
| Text.StripRuntimesAgree | backend/services/ai_model.py:59-60 | on text without the separators U+001C to U+001F, Python `strip` and JavaScript `trim` give the same result |
| Text.SeparatorStrippedOnlyByPython | backend/services/ai_model.py:60 | a U+001C before any word free of whitespace and separators is removed by Python `strip` and kept by JavaScript `trim` |
| Text.Split | front-end/src/components/Results.tsx:31 | the parts join back to the text, every part but the last ends at the leftmost separator, and the last holds none |
| Text.SplitUnique | front-end/src/components/Results.tsx:31 | any decomposition meeting that specification is the one Split returns |
| Text.SplitCount | front-end/src/components/Results.tsx:31 | there is one more part than there are non-overlapping separators, counted by an independent scan |
| Results.Number | front-end/src/components/Results.tsx:32-35 | one section per piece; section i carries id from+i and the trimmed piece |
| Results.SectionsArePieces | front-end/src/components/Results.tsx:30-36 | for the unique split of the text, the sections are the pieces in order with ids 0..n-1 and trimmed content, and the pieces joined by a blank line give back the text |
| Results.SectionCount | front-end/src/components/Results.tsx:31 | the number of sections is the number of paragraph breaks plus one |
| Results.SingleSection | front-end/src/components/Results.tsx:31-35 | text without a paragraph break is one section |
| Results.ThreeParagraphs | front-end/src/components/Results.tsx:30-36 | "A\n\nB\n\nC" with whitespace-free A, B, C gives the sections A, B, C with ids 0, 1, 2 |
| Results.EmptyPieceKept | front-end/src/components/Results.tsx:31-34 | an empty paragraph is kept as an empty section |
| Results.SaveCode | front-end/src/components/Results.tsx:26 | after saving, the code is marked, every earlier code is still marked, and no other code is |
| Results.SaveTwiceIsSaveOnce | front-end/src/components/Results.tsx:26 | saving a code twice leaves the saved set of saving it once |
| Results.SaveCommutes | front-end/src/components/Results.tsx:26 | saving two codes in either order gives the same saved set |
| Results.ResultsView.constructor | front-end/src/components/Results.tsx:23 | the saved set starts empty |
| Results.ResultsView.HandleSave | front-end/src/components/Results.tsx:25-28 | the saved set becomes SaveCode of the old set and this code, and the product is handed to the callback |
| Seqs.Filter | front-end/src/components/Wishlist.tsx:57 | no longer than its input, and every element kept satisfies the condition |
| WishlistView.WithoutCode | front-end/src/components/Wishlist.tsx:57 | no product with the removed code remains |
| WishlistView.WithoutCodeMembership | front-end/src/components/Wishlist.tsx:57 | a product survives iff it was listed and carries another code |
| WishlistView.WithoutCodeKeepsOthers | front-end/src/components/Wishlist.tsx:57 | the rest keep their order and counts |
| WishlistView.WithoutAbsentCode | front-end/src/components/Wishlist.tsx:54-57 | removing an absent code changes nothing |
| WishlistView.WithoutCodeIdempotent | front-end/src/components/Wishlist.tsx:57 | removing twice equals removing once |
| WishlistView.GuestList | front-end/src/components/Wishlist.tsx:36-37 | a missing or empty stored entry reads as the empty list, otherwise as its decoding |
| WishlistView.GuestRemovalPersists | front-end/src/components/Wishlist.tsx:54-55 | for a faithful codec, what a guest removal stores is what the next load reads |
| WishlistView.WishlistPage.constructor | front-end/src/components/Wishlist.tsx:19-20 | the list starts empty and loading |
| WishlistView.WishlistPage.LoadWishlist | front-end/src/components/Wishlist.tsx:26-44 | signed in: the response's items, or empty when missing, or unchanged when the call threw; guest: the stored list, or unchanged when decoding threw; loading ends |
| WishlistView.WishlistPage.RemoveItem | front-end/src/components/Wishlist.tsx:46-61 | signed in: the list shrinks only if the delete succeeded, and storage is untouched; guest: the shrunk list is stored and shown |
| Login.EmailCheckMatchesPattern | front-end/src/components/Login.tsx:33-34 | the computed email check accepts exactly what `^[^\s@]+@[^\s@]+\.[^\s@]+$` matches |
| Login.ValidateForm | front-end/src/components/Login.tsx:20-39 | no error iff every check passes; any error is one of the four messages |
| Login.MissingCredentialsFirst | front-end/src/components/Login.tsx:21-24 | the "required" message appears iff email or password is empty |
| Login.NameReported | front-end/src/components/Login.tsx:25-28 | the missing-name message appears iff both credentials are given, the form is in sign-up mode and the name is empty |
| Login.ShortPasswordReported | front-end/src/components/Login.tsx:29-32 | the short-password message appears iff the earlier checks pass and the password is under 6 characters |
| Login.InvalidEmailReported | front-end/src/components/Login.tsx:33-37 | the invalid-email message appears iff every earlier check passes and the email does not match the pattern |
| Login.LoginIgnoresName | front-end/src/components/Login.tsx:25-28 | in sign-in mode the name never changes the outcome |
| Login.SignupIsStricter | front-end/src/components/Login.tsx:20-39 | a form valid for sign-up is valid for sign-in |
| Login.Endpoint | front-end/src/components/Login.tsx:52 | "/auth/signup" iff signing up, "/auth/login" otherwise |
| Login.RefusalMessage | front-end/src/components/Login.tsx:60 | the back end's detail when present and non-empty, otherwise "Authentication failed" |
| Login.LoginForm.constructor | front-end/src/components/Login.tsx:11-18 | sign-in mode, empty fields, no error, not loading |
| Login.LoginForm.ToggleMode | front-end/src/components/Login.tsx:166 | the mode flips and nothing else changes |
| Login.LoginForm.SetName | front-end/src/components/Login.tsx:103 | only the name changes |
| Login.LoginForm.SetEmail | front-end/src/components/Login.tsx:121 | only the email changes |
| Login.LoginForm.SetPassword | front-end/src/components/Login.tsx:138 | only the password changes |
| Login.LoginForm.HandleSubmit | front-end/src/components/Login.tsx:41-64 | a failing check sends nothing and shows the first failure; otherwise the form goes to the mode's endpoint, success stores the token and the encoded user and hands the user on, refusal shows the refusal message and stores nothing, and loading ends |
| Stylist.BodyTypeRules | backend/ai_model.py:75-80 | four body types, three items each |
| Stylist.OccasionRules | backend/ai_model.py:82-87 | four occasions, three items each |
| Stylist.Lower | backend/ai_model.py:224 | same length; no ASCII capital is left in the result, and every other character is kept in place |
| Stylist.LowerIdempotent | backend/ai_model.py:224 | lowering twice is lowering once |
| Stylist.BodyTypeIgnoresCase | backend/ai_model.py:224 | two body types that differ only in ASCII case select the same rule items |
| Stylist.DecimalRoundTrip | backend/ai_model.py:250 | the decimal text of a number reads back as that number |
| Stylist.TitlesDistinct | backend/ai_model.py:250 | outfits at different positions have different titles |
| Stylist.Palette | backend/ai_model.py:229 | never empty: the preferred colours, or navy/white/black when there are none |
| Seqs.Dedup | backend/ai_model.py:234 | a duplicate-free subsequence holding every element of the input, ordered by first occurrence in the input |
| Seqs.DedupNoDuplicates | backend/ai_model.py:234 | a list with no repeated element is its own dedup |
| Seqs.DedupUnique | backend/ai_model.py:234 | any duplicate-free list with the input's elements, ordered by first occurrence, is the dedup |
| Stylist.ItemSelection | backend/ai_model.py:234-236 | non-empty and duplicate-free; exactly the body-type and occasion items, ordered by first occurrence in the body-type items followed by the occasion items, or the three defaults when both are empty |
| Stylist.AccessoriesFiltered | backend/ai_model.py:244-246 | a subsequence of the defaults holding exactly the defaults that contain no disliked item |
| Stylist.EmptyDislikeRemovesAll | backend/ai_model.py:246 | an empty disliked item removes every accessory |
| Seqs.FilterNone | backend/ai_model.py:246 | when no element satisfies the condition, the filter keeps nothing |
| Stylist.ReuseIsIntersection | backend/ai_model.py:254 | in wardrobe order, exactly the owned names the outfit lists, with their repetitions |
| Stylist.AccentCycles | backend/ai_model.py:238 | outfit idx is accented by palette[idx mod length], periodic in the palette length |
| Stylist.OutfitItems | backend/ai_model.py:233-256 | each outfit is titled by its position and lists each wanted item once, or the defaults |
| Stylist.ItemsIndependentOfPosition | backend/ai_model.py:233-236 | all outfits list the same items and reuse the same wardrobe names |
| Stylist.JsonCandidateShape | backend/ai_model.py:204-208 | the parsed text is a suffix of the stripped reply; when it holds a `{` the text starts there and nothing dropped holds one |
| Stylist.WardrobePayload | backend/ai_model.py:188 | the items themselves when the wardrobe is empty or its item class has an instance dictionary; otherwise the missing-`__dict__` error of the item class |
| Stylist.BuildPrompt | backend/ai_model.py:181-200 | succeeds iff every instance dictionary the prompt reads exists, and then carries the profile, preferences, wardrobe and outfit count; otherwise fails on the wardrobe items first, then the profile, then the preferences |
| Stylist.PromptAsWritten | backend/ai_model.py:35-66 | with the declared slotted classes the prompt always fails: on the wardrobe items when there are any, otherwise on the profile |
| Stylist.HybridStylistModel.constructor | backend/ai_model.py:93-100 | the given rules unless none or empty ones are given, then the built-in ones |
| Stylist.RulesReplyShape | backend/ai_model.py:232-264 | the rule engine's reply has the fixed summary and max(maxOutfits, 0) outfits titled Outfit 1, Outfit 2, … in order |
| Stylist.RulesReplyTitlesDistinct | backend/ai_model.py:250 | no two outfits of a rule-engine reply share a title |
| Stylist.HybridStylistModel.RuleBasedResponse | backend/ai_model.py:217-264 | the loop builds exactly the specified rule-engine reply: outfit idx is the rule engine's outfit for position idx |
| Stylist.HybridStylistModel.BuildOutfit | backend/ai_model.py:234-256 | one loop pass builds the specified outfit for its position |
| Stylist.HybridStylistModel.SafeJsonLoads | backend/ai_model.py:202-212 | blank input gives None; otherwise the parse of the candidate text |
| Stylist.HybridStylistModel.Generate | backend/ai_model.py:141-152 | the model's parsed reply when a model is configured, its call returns, and the reply parses; the rule engine's reply in every other case |
| Stylist.HybridStylistModel.GenerateAsWritten | backend/ai_model.py:140-152 | as written, every call fails with the prompt's missing-`__dict__` error |
| Stylist.HybridStylistModel.AGenerateAsWritten | backend/ai_model.py:164-176 | as written, the rule engine answers when no model is configured, and every call with a model fails with the prompt's missing-`__dict__` error |
| StyleReply.TakeFirst | backend/services/ai_model.py:74 | a prefix of at most n elements: exactly n when there are more, all of them otherwise |
| StyleReply.StripEach | backend/services/ai_model.py:60 | one result per piece, each no longer than its piece and without leading or trailing Python whitespace |
| StyleReply.DefaultCategories | backend/services/ai_model.py:64-70 | "Work" or "Formal" among the occasions gives men_blazerssuits, women_blazerssuits, men_trousers; otherwise "Casual" gives men_jeans, women_jeans, men_tshirtstanks; otherwise men_clothing, women_clothing |
| StyleReply.FormalOutranksCasual | backend/services/ai_model.py:65-68 | with "Work" or "Formal" present the list is the one for "Work" alone, whatever else is chosen; "Casual" without them gives the list for "Casual" alone; "Casual" never gives the general list |
| StyleReply.DefaultCategoriesBySet | backend/services/ai_model.py:65-70 | occasion lists with the same members give the same categories |
| StyleReply.ListedCategories | backend/services/ai_model.py:59-60 | at least one listed category |
| StyleReply.ParseStyleReply | backend/services/ai_model.py:55-75 | at most three categories |
| StyleReply.MarkedReply | backend/services/ai_model.py:56-60 | with the marker: the text before its first occurrence without "RECOMMENDATIONS:" and stripped, and the first three stripped comma pieces of the stripped section between the first and second marker |
| StyleReply.UnmarkedReply | backend/services/ai_model.py:61-70 | without the marker: the raw text and the occasion's default categories |
| WishlistApi.ToProduct | backend/api/wishlist.py:64-69 | code, name, the price text under formattedValue, and one image with the stored url |
| WishlistApi.RoundTrip | backend/api/wishlist.py:41-69 | storing then listing keeps code, name, price text and first image url, each '' when missing |
| WishlistApi.UserProductsMembership | backend/api/wishlist.py:59-69 | every listed product is the product shape of one of the user's documents, and every such document's product is listed |
| WishlistApi.UserProductsAppend | backend/api/wishlist.py:59-69 | a new record extends its owner's list at the end and leaves other lists alone |
| WishlistApi.RemoveFirstIsFilter | backend/api/wishlist.py:79-82 | with unique pairs, deleting the first match is deleting all matches |
| WishlistApi.DeleteKeepsUnique | backend/api/wishlist.py:79-82 | deleting one record keeps the pairs unique |
| WishlistApi.WishlistCollection.constructor | backend/api/wishlist.py:15 | an empty collection with unique pairs |
| WishlistApi.WishlistCollection.FindPair | backend/api/wishlist.py:32-35 | the first record of the pair, or none when there is no such record |
| WishlistApi.WishlistCollection.AddToWishlist | backend/api/wishlist.py:26-51 | a stored pair inserts nothing and answers "Item already in wishlist"; otherwise exactly the mapped record is appended; pairs stay unique |
| WishlistApi.WishlistCollection.GetWishlist | backend/api/wishlist.py:54-71 | exactly the caller's records in product shape, in storage order, and no one else's |
| WishlistApi.WishlistCollection.RemoveFromWishlist | backend/api/wishlist.py:74-87 | 404 "Item not found in wishlist" iff no record matches, with the store unchanged; otherwise exactly one record goes and the rest stay in order |
| WishlistApi.AddThenList | backend/api/wishlist.py:41-71 | after an add, the user's list ends with the new product and other users' lists are unchanged |
| WishlistApi.RemovalKeepsOthers | backend/api/wishlist.py:79-82 | removal keeps every record of another pair with its count, and leaves none of the pair |
| QuizSchema.AcceptedIffNoViolations | backend/models/quiz.py:9-34 | a request is accepted iff no constraint is violated |
| QuizSchema.MinAboveMaxAccepted | backend/models/quiz.py:21-24 | a minimum above the maximum is accepted |
| QuizSchema.InchesOptional | backend/models/quiz.py:11-12 | without inches, a height is valid iff 3 <= ft <= 8 |
| QuizSchema.CatalogMatchesSchema | backend/models/quiz.py:27-34 | the front-end step keys are the request fields in order, and the field steps name the nested fields |
| QuizSchema.RequiredStepsAreMandatoryFields | backend/models/quiz.py:29-34 | the front end's required steps are exactly the schema's mandatory fields |
| Auth.FindOne | backend/api/auth.py:50 | a position the filter (by identifier here, by email at line 62) matches with no match before it, or none iff no user matches |
| Auth.BearerTokenIsNextField | backend/api/auth.py:43 | the token is the text after "Bearer " up to the next space, and "" for "Bearer " alone |
| Auth.BearerTokenRoundTrip | backend/api/auth.py:40-43 | a space-free token sent after "Bearer " is read back unchanged |
| Auth.TokenSubject | backend/api/auth.py:38-49 | a missing or non-bearer header gives 401 "Not authenticated"; for a bearer header, 401 "Invalid token" iff the token does not decode or decodes to an empty payload, and otherwise the payload's "sub" when it has one |
| Auth.AsWrittenNeverAuthenticates | backend/api/auth.py:50-53 | as written, no request is authenticated against a store of generated identifiers |
| Auth.GetCurrentUserAsWritten | backend/api/auth.py:38-55 | a header refusal is passed on; a found user is a stored user whose identifier is the subject text itself |
| Auth.GetCurrentUser | backend/api/auth.py:38-55 | a found user is a stored user whose ObjectId text is the token's subject; header refusals are passed on; 401 "User not found" iff the token carries no subject or no stored user has that ObjectId |
| Auth.TokenForStoredUser | backend/api/auth.py:43-55 | a stored user's token finds that user in the corrected lookup and is refused by the source's lookup |
| Auth.Profile | backend/api/auth.py:116-123 | fails exactly when the lookup fails, with its error; otherwise the token's subject, with the name and email of the stored user having that identifier |
| Auth.Login | backend/api/auth.py:89-113 | success carries a token whose subject is the user id, and the id, name and email of the first user with this email, whose password verifies; every refusal is 401 "Invalid credentials" |
| Auth.LoginSucceedsIff | backend/api/auth.py:93-99 | with unique emails, sign-in succeeds iff a user has the email and the password verifies |
| Auth.SameRefusal | backend/api/auth.py:93-99 | an unknown email and a wrong password get the identical answer |
| Auth.SignupThenLogin | backend/api/auth.py:58-113 | signing in after signing up answers with the same id, name and email |
| Auth.UserStore.constructor | backend/api/auth.py:15 | an empty store |
| Auth.UserStore.Signup | backend/api/auth.py:58-86 | 400 "Email already registered" iff the email is stored, with nothing inserted; otherwise exactly one user is appended with the hashed password, and the reply's id is the token's subject; emails and identifiers stay unique |

## Left out

- Rendering, styling and the progress percentage (QuizForm.tsx:22) are presentation. `front-end/src/components/ProductGrid.tsx` and `front-end/src/App.tsx` are fetch-and-render glue and are not part of this model.
- HTTP calls, `localStorage` and React scheduling are not modelled as effects:
  - network answers are inputs;
  - stored entries are fields;
  - each component method runs to completion, with no interleaving.
- JSON encoding and parsing are opaque function parameters. This covers `JSON.parse`, `JSON.stringify`, `json.loads` and `json.dumps`.
  - `JSON.parse` of a stored entry is read as a list or as a throw. A stored `"null"` is not modelled.
- Hashing, password verification and token creation and decoding (`utils.auth`) are not part of this model. They are function parameters.
- Auth.UserStore.Signup: takes any string as the email. Pydantic's `EmailStr` (auth.py:21 and 27) rejects a malformed address with 422 and lower-cases the domain before the handler runs; that validation is in `email-validator` and is not part of this model.
- Auth.Login: likewise takes any string as the email, without the `EmailStr` check and domain lower-casing.
- QuizForm.SubmitErrorMessage: takes the back end's `detail` as a string. For a 422 answer FastAPI sends a list of error objects, which the source passes to `setError` unchanged; that case is not modelled.
- Login.RefusalMessage: the same holds for the `detail` of a 422 answer to the sign-in form.
- The language-model and Gemini clients and their configuration (`from_env`, `_create_openai_client`) are left out. A model call is an input, `Completion`.
- Stylist.HybridStylistModel.AGenerateAsWritten: models `agenerate` as a synchronous call. Its awaited completion is the same input as in `generate`.
- The text of the prompt (`_build_prompt`, `generate_style`'s prompt) is not modelled. Only the failure of `_build_prompt` is.
- Stylist.BuildPrompt: models which instance dictionaries the prompt reads and in what order, not the JSON text that `json.dumps` would make of them.
- Whitespace is ASCII only: space, tab, line feed, vertical tab, form feed and carriage return for JavaScript, and also the separators U+001C to U+001F for Python. Both runtimes also treat non-ASCII spaces as whitespace; those are not modelled.
- Stylist.Lower: lowers only ASCII letters, where Python's `str.lower` is Unicode-aware.
- Lengths are counts of `char`, so the 6-character password minimum does not model JavaScript's UTF-16 code units for characters outside the basic plane.
- Budget prices are `real` rather than floating point. NaN and infinities are not modelled.
- Pydantic's coercions (a numeric string accepted as a number) and its error-message format are left out. QuizSchema.Violations lists which constraints fail, not pydantic's messages.
- MongoDB is a sequence of documents in insertion order:
  - `find` is read as returning them in that order;
  - `find_one` returns the first match;
  - concurrent requests are not modelled.
- WishlistApi models the user as the identifier text the routes derive from it, not as the authentication dependency.
- `backend/api/quiz.py`, `backend/model.py`, `backend/models/database.py`, the H&M client modules, `backend/main.py` and `backend/test_api.py` are not part of this model. They are routing, configuration and I/O, or they duplicate the quiz schema.
- The removal in Wishlist.tsx follows the code rather than the prose description of the app. For a signed-in user the displayed list changes only when the remote delete did not throw, because the list update comes after the awaited delete inside the `try`.

## Findings

| source | as written | input that shows it | evidently intended | confidence | as-written member | corrected member |
|---|---|---|---|---|---|---|
| backend/ai_model.py:140 | `generate` builds the prompt before checking for a model. `_build_prompt` reads `item.__dict__` for each wardrobe item (line 188) and then `profile.__dict__` (line 195). `WardrobeItem` and `UserProfile` are `@dataclass(slots=True)` and have no `__dict__`, so every call raises AttributeError (Stylist.PromptAsWritten). This includes the no-model path that should reach the rule engine. | any call, e.g. `HybridStylistModel().generate(UserProfile())` | without a model, or when the model fails, the rule engine answers | not executed | Stylist.HybridStylistModel.GenerateAsWritten | Stylist.HybridStylistModel.Generate |
| backend/api/auth.py:50 | `get_current_user` looks the user up with `{"_id": sub}`, where `sub` is the string form of the identifier. Sign-up (line 73) stores a generated ObjectId, so the string never equals it, and every authenticated request is refused with 401 "User not found" (Auth.AsWrittenNeverAuthenticates; Auth.TokenForStoredUser shows both lookups on one request). | a user who just signed up sends `Authorization: Bearer <their token>` | the subject is converted back to an ObjectId before the lookup, and the user is found | not executed | Auth.GetCurrentUserAsWritten | Auth.GetCurrentUser |
