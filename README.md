# Pet Connect: a verified model of its application logic

Pet Connect is a pet-adoption web application. Visitors browse the pets
listed for adoption, filter the listing, report a pet, apply to adopt one,
and ask a small chat widget questions answered from a list of FAQs. Almost
all of the code is user interface over a hosted database. This project
models the logic underneath, in Dafny, and proves what that logic does:

- **Chat widget** (`Chatbot`). A first-match FAQ lookup: lower-case
  containment in either direction, with a fixed fallback text. Around it, a
  transcript state machine: the welcome message, user messages, and bot
  replies that are due after a delay. A class invariant states that every
  user message has exactly one reply, delivered or due.
- **Filter panel** (`PetFilterPanel`). The filter record and age range are
  edited by the controls. `applyFilters` writes them into URL query
  parameters, one `URLSearchParams.set` per present filter.
- **Pet listing** (`PetsPage`, `Query`). The URL's search parameters are
  read back into filters, and `getPets` turns the filters into a query.
  The model gives each query condition a meaning for one pet row,
  including `ILIKE '%breed%'` as a case-insensitive containment test.
- **Report form** (`ReportPage`). Fields are edited by name. Submitting maps
  the form to a pet row, after making sure the user has a profile.
- **Adoption form** (`Adoption`). Submitting checks for an existing
  application for the same pet and user. Otherwise it inserts a pending one.

The supporting modules:

- `Strings`: ASCII `toLowerCase`, `includes` and `trim`, with ECMAScript's
  whitespace set.
- `Numbers`: `Number.parseInt` with no radix, and `toString` for integers
  and `NaN`.
- `Types`: the records of types/index.ts.
- `Store`: the database, as tables that inserts append to.
- `Router`: navigation outcomes (`Stay`, `Push(path, query)`, `Refresh`).
- `Wrappers`: an `Option` type for `undefined` and `null`.

The database is modelled as in-memory tables held by a `Database` object, whose constructor starts every table empty. That initial state belongs to the model, not to any line of the code.
Whether an insert succeeds is decided outside the application, so it is a
parameter of the insert. A `.single()` lookup finds a row exactly when one
row matches. React state is modelled as fields of a class per component,
and event handlers are methods. An effect is a method the environment calls
when React would run it. For the age-range effect, a `syncPending` flag
records that it is due.

Properties proved, among others:

- Filters survive a trip through the URL (`PetsPage.UrlRoundTrip`). The
  text filters come back as they were, except that empty ones are dropped.
  Every age comes back, including `0` and `NaN`, and so does the adopted
  flag, including `false`.
- The listing's query selects exactly the pets that meet the filters
  (`PetsPage.QueryMeansFilters`).
- A second application for the same pet by the same user is never
  inserted while the table holds one application per pair
  (`Adoption.AdoptionForm.Submit`, `Store.AppendKeepsOnePerPair`).
- A consequence of the age-range effect: it writes `[minAge || 0,
  maxAge || 15]` into the filters on mounting, so once filters are applied,
  a pet whose age is unknown is never listed
  (`PetsPage.SyncedRangeExcludesUnknownAge`).

In three places the model covers more of the code's behaviour than a reading limited to digit strings and non-negative ages would:

- `Number.parseInt` is modelled on any text, as the code calls it, and not
  only on digit strings. Leading whitespace, a sign, a `0x` prefix, a digit
  prefix followed by junk, and `NaN` are all covered.
- The round trip is proved for every integer age and for `NaN`, not only
  for non-negative ages.
- A reported age that does not parse is stored as `null`, because
  `JSON.stringify` writes `NaN` as `null`.

## Model

| member | source | states |
|---|---|---|
| Strings.Lower | components/chatbot.tsx:77-79 | lower-casing keeps the length, leaves no upper-case letter, and changes nothing but letter case |
| Strings.LowerOfSameUpToCase | components/chatbot.tsx:77-79 | strings that differ only in letter case lower-case to the same string |
| Strings.Contains | components/chatbot.tsx:79 | `includes` holds exactly when the needle occurs at some position of the haystack |
| Strings.ContainsEmpty | components/chatbot.tsx:79 | every string contains the empty string |
| Strings.ContainsSelf | components/chatbot.tsx:79 | every string contains itself |
| Strings.SkipSpace | components/chatbot.tsx:63 | the scan stops at the first position from `i` on that holds no whitespace, with only whitespace before it |
| Strings.SkipSpaceBack | components/chatbot.tsx:63 | the backward scan stops just after the last character that is not whitespace, with only whitespace after it |
| Strings.TrimBounds | components/chatbot.tsx:63-67 | `trim` cuts where there is only whitespace before the start and after the end, and the part kept neither starts nor ends with whitespace |
| Strings.Trim | components/chatbot.tsx:63-67 | `trim` returns a slice of its input with only whitespace before and after it, and a non-empty result neither starts nor ends with whitespace |
| Strings.TrimEmptyIffAllWhitespace | components/chatbot.tsx:63 | the trimmed input is empty exactly when the input is all whitespace |
| Numbers.DigitValue | app/pets/page.tsx:65-66 | a digit's value is below its base, and it is the digit whose character, in the same letter case, is the given character |
| Numbers.DigitPrefix | app/pets/page.tsx:65-66 | `parseInt` reads the longest digit prefix: all digits, followed by a non-digit or the end |
| Numbers.DigitsValue | app/pets/page.tsx:65-66 | the value of the digits `parseInt` reads, most significant first; stated by Numbers.DecimalValue, Numbers.ParseIntOfDigits and Numbers.ParseIntOfToString |
| Numbers.Decimal | components/pet-filters.tsx:30-31 | `toString` of a natural number is non-empty decimal digits with no leading zero |
| Numbers.NumToString | components/pet-filters.tsx:30-31 | `toString` never yields the empty string |
| Numbers.DecimalValue | components/pet-filters.tsx:30-31 | the decimal digits of `n` have value `n` |
| Numbers.DigitPrefixOfDigits | app/pets/page.tsx:65-66 | the digit prefix of an all-digit string is the whole string |
| Numbers.ParseInt | app/pets/page.tsx:65-66 | `Number.parseInt` with no radix: skip leading whitespace, take one sign, read the rest with `ParseDigits`; its paths are stated by the lemmas below |
| Numbers.ParseDigits | app/pets/page.tsx:65-66 | what is read after the sign is never negative |
| Numbers.Negate | app/pets/page.tsx:65-66 | the minus sign keeps `NaN` and turns an integer into its opposite |
| Numbers.SkipSpaceUnique | app/pets/page.tsx:65-66 | the whitespace skipped is exactly the run before the first character that is not whitespace |
| Numbers.ParseIntSkipsWhitespace | app/pets/page.tsx:65-66 | leading whitespace does not change the result |
| Numbers.ParseIntOfMinus | app/pets/page.tsx:65-66 | a leading `-` negates what follows it |
| Numbers.ParseIntOfPlus | app/pets/page.tsx:65-66 | a leading `+` is dropped |
| Numbers.DigitPrefixStops | app/pets/page.tsx:65-66 | digits followed by a non-digit or the end have exactly those digits as their digit prefix |
| Numbers.ParseDigitsStopsAtJunk | app/pets/page.tsx:65-66 | decimal digits followed by text that is not a digit read as the digits' value, the text ignored |
| Numbers.ParseDigitsOfHex | app/pets/page.tsx:65-66 | after `0x` or `0X`, the hexadecimal digits up to the first non-hex character are read in base 16 |
| Numbers.ParseDigitsNoDigit | app/pets/page.tsx:65-66 | with no digit where one is expected, the result is `NaN` |
| Numbers.ParseIntOfNegativePrefix | app/pets/page.tsx:65-66 | whitespace, `-`, digits and trailing text (as in " -12px") read as the negated digits |
| Numbers.ParseDigitsOfDigits | app/pets/page.tsx:65-66 | an unsigned decimal digit string is read in base 10, in full |
| Numbers.ParseIntOfUnsigned | app/pets/page.tsx:65-66 | a string that starts with a digit is read with no sign and no whitespace skipped |
| Numbers.ParseIntOfDigits | app/pets/page.tsx:65-66 | `parseInt` of a non-empty decimal digit string is its decimal value |
| Numbers.ParseIntOfToString | app/pets/page.tsx:65-66 | `parseInt` reads back what `toString` writes, for every integer and for `NaN` |
| Store.ApplicationCountZero | components/adoption-form.tsx:41-48 | a pair has no application exactly when no row has that pet and user |
| Store.OnePerPairCount | components/adoption-form.tsx:41-51 | with one application per pair, a pair has at most one application |
| Store.AppendKeepsOnePerPair | components/adoption-form.tsx:53-58 | appending the first application of a pair keeps one application per pair |
| Store.AppendFirstIsSingle | components/adoption-form.tsx:41-58 | after the first application of a pair is inserted, the duplicate lookup finds it |
| Store.ExistingIsSingle | components/adoption-form.tsx:41-51 | with one application per pair, an existing application is found by `.single()` |
| Store.Database.HasSingleProfile | app/report/page.tsx:59-66 | the profile lookup finds a row exactly when one profile has the user's id; what follows from it is stated by ReportPage.ReportPetPage.Submit |
| Store.Database.HasSingleApplication | components/adoption-form.tsx:41-48 | the duplicate lookup finds a row exactly when one application has the pet and the user; stated by Store.AppendFirstIsSingle, Store.ExistingIsSingle and Adoption.AdoptionForm.Submit |
| Store.Database.InsertProfile | app/report/page.tsx:67-74 | an accepted insert appends the profile row; a refused one changes nothing and reports failure |
| Store.Database.InsertPet | app/report/page.tsx:78-94 | an accepted insert appends the pet row; a refused one changes nothing and reports failure |
| Store.Database.InsertApplication | components/adoption-form.tsx:53-62 | an accepted insert appends the application; a refused one changes nothing and reports failure |
| Chatbot.FindFrom | components/chatbot.tsx:78-80 | the search from position `i` returns the first matching FAQ at or after `i`, or none when no FAQ from `i` on matches |
| Chatbot.Matches | components/chatbot.tsx:79 | the `find` test: the lower-cased question contains the input or is contained in it; stated by Chatbot.FindFaq, Chatbot.EmptyQueryFirstAnswer and Chatbot.ExactQuestionAnswered |
| Chatbot.FindFaq | components/chatbot.tsx:78-80 | the result is the position of the first FAQ, in list order, whose lower-cased question contains the input or is contained in it; none means no FAQ matches |
| Chatbot.ReplyTo | components/chatbot.tsx:77-87 | the reply to an input: the answer of the first FAQ matching the lower-cased input, else the fallback text; stated by Chatbot.ReplyIsFirstMatch and Chatbot.NoMatchFallback |
| Chatbot.ReplyIsFirstMatch | components/chatbot.tsx:77-86 | when FAQ `k`, in list order, is the first whose lower-cased question contains the lower-cased input or is contained in it, the reply is its answer |
| Chatbot.NoMatchFallback | components/chatbot.tsx:85-87 | with no matching FAQ, including an empty list, the reply is exactly the fallback text |
| Chatbot.CaseInsensitiveReply | components/chatbot.tsx:77-79 | inputs that differ only in letter case get the same reply |
| Chatbot.EmptyQueryFirstAnswer | components/chatbot.tsx:79 | the empty query gets the first FAQ's answer from any non-empty list |
| Chatbot.ExactQuestionAnswered | components/chatbot.tsx:77-80 | an input equal to question `k` up to case is answered by FAQ `k` or an earlier one |
| Chatbot.LowerOfLowercase | components/chatbot.tsx:77 | lower-casing a string without capitals leaves it unchanged |
| Chatbot.FirstMatchWinsExample | components/chatbot.tsx:78-80 | the earlier question "fee" answers "fees" although the later question "fees" matches it exactly |
| Chatbot.ChatbotWidget.constructor | components/chatbot.tsx:21-25 | closed window, empty transcript, input and FAQ list, not loading, no reply due |
| Chatbot.ChatbotWidget.LoadFaqs | components/chatbot.tsx:28-41 | on an error the FAQ list is kept, otherwise it becomes `data \|\| []` |
| Chatbot.ChatbotWidget.Toggle | components/chatbot.tsx:119 | the launcher flips the window open or closed |
| Chatbot.ChatbotWidget.SetInput | components/chatbot.tsx:217 | typing or a suggested question replaces the input |
| Chatbot.ChatbotWidget.ShowWelcome | components/chatbot.tsx:43-55 | only an open window with an empty transcript gets the welcome message, as its sole message |
| Chatbot.ChatbotWidget.SendMessage | components/chatbot.tsx:62-81 | blank input changes nothing; otherwise exactly the trimmed input is appended as a user message, input becomes "", loading starts, and the reply to the untrimmed input becomes due; every user message keeps exactly one reply |
| Chatbot.ChatbotWidget.DeliverReply | components/chatbot.tsx:82-94 | the oldest due reply is appended as exactly one bot message and loading stops |
| PetFilterPanel.Lookup | components/pet-filters.tsx:26-34 | `get` finds a value exactly when some entry has the key |
| PetFilterPanel.RemoveKey | components/pet-filters.tsx:26-34 | no entry with the key is left, the list does not grow, and nothing changes when the key is absent |
| PetFilterPanel.RemoveKeyConcat | components/pet-filters.tsx:26-34 | removing a key from two runs of entries gives the two results in order: every other entry keeps its place |
| PetFilterPanel.RemoveKeyMembers | components/pet-filters.tsx:26-34 | the entries left are exactly the entries with another key |
| PetFilterPanel.RemoveKeyLookup | components/pet-filters.tsx:26-34 | `get` of every other key is unchanged |
| PetFilterPanel.SetParam | components/pet-filters.tsx:28-34 | `set` on a key not yet present appends the pair |
| PetFilterPanel.SetParamLookup | components/pet-filters.tsx:28-34 | after `set`, `get` returns the value set |
| PetFilterPanel.NonEmpty | components/pet-filters.tsx:86 | the empty string is no value; any other string is kept |
| PetFilterPanel.SelectChoice | components/pet-filters.tsx:63 | the empty value and the "all" option clear the filter; any other option is kept |
| PetFilterPanel.NumOr | components/pet-filters.tsx:23 | `x \|\| fallback` is either the number or the fallback; a non-zero integer is kept, and undefined, `NaN` and `0` give the fallback |
| PetFilterPanel.SetIfFresh | components/pet-filters.tsx:28-34 | a conditional `set` on a key not yet set is a conditional append |
| PetFilterPanel.TextValue | components/pet-filters.tsx:28 | a text filter is written exactly when it is a non-empty string |
| PetFilterPanel.NumValue | components/pet-filters.tsx:30-31 | an age is written whenever it is defined |
| PetFilterPanel.FlagValue | components/pet-filters.tsx:34 | the adopted flag is written whenever it is defined |
| PetFilterPanel.BoolText | components/pet-filters.tsx:34 | `isAdopted.toString()`, "true" or "false"; stated by PetsPage.AdoptedParamOfFlagValue, which reads it back as the same flag |
| PetFilterPanel.FilterParams | components/pet-filters.tsx:25-34 | the parameters `applyFilters` builds, one conditional `set` per filter in source order; stated by PetFilterPanel.ParamsAppended and PetFilterPanel.ParamPresence |
| PetFilterPanel.LookupAppend | components/pet-filters.tsx:26-34 | looking up in joined lists finds the first list's entry when there is one |
| PetFilterPanel.AddIfInKeyOrder | components/pet-filters.tsx:28-34 | appending a key of higher rank keeps the keys in strict order |
| PetFilterPanel.KeyRanks | components/pet-filters.tsx:28-34 | the ranks of the seven names in the fixed order |
| PetFilterPanel.LookupAddIfOther | components/pet-filters.tsx:28-34 | appending under another key does not change a lookup |
| PetFilterPanel.LookupAddIfFresh | components/pet-filters.tsx:28-34 | appending under a fresh key makes the lookup find exactly the appended value |
| PetFilterPanel.KeyRankAt | components/pet-filters.tsx:28-34 | position `n` of the fixed order holds the `n`-th name |
| PetFilterPanel.AppendedOrder | components/pet-filters.tsx:28-34 | the first `n` appended filters are in strict key order |
| PetFilterPanel.AppendedLookup | components/pet-filters.tsx:28-34 | among the first `n` filters, the `j`-th name is found with its value exactly when `j < n` |
| PetFilterPanel.ParamsAppended | components/pet-filters.tsx:28-34 | every `set` meets a fresh key: the parameters are the present filters in the order species, breed, minAge, maxAge, size, gender, adopted, with no key repeated |
| PetFilterPanel.ParamPresence | components/pet-filters.tsx:28-34 | species, breed, size and gender are written only when non-empty; minAge, maxAge and adopted whenever defined, 0 and false included; the flag goes under "adopted" |
| PetFilterPanel.FilterPanel.constructor | components/pet-filters.tsx:22-23 | the filters are the initial ones, the range is `[minAge \|\| 0, maxAge \|\| 15]`, and the range effect is due |
| PetFilterPanel.FilterPanel.ApplyFilters | components/pet-filters.tsx:25-37 | navigation to the current path with exactly the parameters of the current filters |
| PetFilterPanel.FilterPanel.ResetFilters | components/pet-filters.tsx:39-43 | the empty filter record, the range [0, 15], navigation to the bare path, and the range effect due |
| PetFilterPanel.FilterPanel.SetAgeRange | components/pet-filters.tsx:93 | the slider sets the range and makes the range effect due |
| PetFilterPanel.FilterPanel.SyncAgeRange | components/pet-filters.tsx:45-51 | minAge and maxAge become the range bounds and every other filter field is unchanged |
| PetFilterPanel.FilterPanel.SetSpecies | components/pet-filters.tsx:63 | only species changes; the empty value clears it, and any other value, "all" (the "All species" option) included, is stored as it is |
| PetFilterPanel.FilterPanel.SetBreed | components/pet-filters.tsx:86 | only breed changes; the empty value clears it |
| PetFilterPanel.FilterPanel.SetSize | components/pet-filters.tsx:105 | only size changes; the empty value clears it, and any other value, "all" (the "Any size" option) included, is stored as it is |
| PetFilterPanel.FilterPanel.SetGender | components/pet-filters.tsx:123 | only gender changes; the empty value clears it, and any other value, "all" (the "Any gender" option) included, is stored as it is |
| PetFilterPanel.FilterPanel.SetAdopted | components/pet-filters.tsx:140 | checked sets the flag to true, unchecked clears it; it is never set to false |
| Query.LikeLiteral | app/pets/page.tsx:27-29 | a wildcard-free pattern prefix matches exactly the same string prefix |
| Query.LikeAnything | app/pets/page.tsx:27-29 | `%` matches every string |
| Query.LikeLeadingPercent | app/pets/page.tsx:27-29 | a leading `%` lets the rest of the pattern match any suffix |
| Query.LikeContains | app/pets/page.tsx:27-29 | `%b%` with a wildcard-free `b` matches exactly the strings containing `b` |
| Query.LowerConcat | app/pets/page.tsx:27-29 | lower-casing distributes over concatenation |
| Query.LowerNoWildcards | app/pets/page.tsx:27-29 | lower-casing introduces no wildcard |
| Query.ILikeContains | app/pets/page.tsx:27-29 | `ILIKE '%b%'` is a case-insensitive containment test |
| Query.LikeMatch | app/pets/page.tsx:27-29 | `LIKE` matching with `%` and `_`; stated by Query.LikeLiteral, Query.LikeAnything, Query.LikeLeadingPercent and Query.LikeContains |
| Query.Holds | app/pets/page.tsx:23-49 | one condition of the query on one pet row; stated per condition by the PetsPage meaning lemmas |
| PetsPage.FromQuery | app/pets/page.tsx:6-16 | the page sees, for each name, the value `get` finds in the query string |
| PetsPage.Get | app/pets/page.tsx:63-69 | `searchParams.name`: the value the query string holds for the name, or undefined; stated by PetsPage.FromQuery and PetsPage.UrlRoundTrip |
| PetsPage.AgeParam | app/pets/page.tsx:65-66 | an age is read from a present, non-empty parameter, and it is `parseInt` of that parameter; otherwise there is none |
| PetsPage.ParseFilters | app/pets/page.tsx:62-70 | the filters the page reads from its search parameters; stated by PetsPage.UrlRoundTrip, PetsPage.UrlRoundTripExact and PetsPage.ReapplyIsStable |
| PetsPage.AdoptedParam | app/pets/page.tsx:69 | "true" reads as true, "false" as false, anything else or nothing as undefined |
| PetsPage.UrlRoundTrip | app/pets/page.tsx:62-70 | reading back the parameters `applyFilters` writes gives the filters back, empty text filters dropped |
| PetsPage.AgeParamOfNumValue | app/pets/page.tsx:65-66 | a written age reads back as the same age |
| PetsPage.AdoptedParamOfFlagValue | app/pets/page.tsx:69 | a written adopted flag reads back as the same flag |
| PetsPage.UrlRoundTripExact | app/pets/page.tsx:62-70 | filters with no empty text value come back exactly |
| PetsPage.ReapplyIsStable | components/pet-filters.tsx:25-37 | applying the filters a page was loaded with writes the same parameters |
| PetsPage.SelectedAdd | app/pets/page.tsx:23-49 | each added condition narrows the selection to the rows that also satisfy it |
| PetsPage.SpeciesCondition | app/pets/page.tsx:23-25 | `eq("species", …)` when the species filter is non-empty; stated by PetsPage.SpeciesMeaning |
| PetsPage.BreedCondition | app/pets/page.tsx:27-29 | `ilike("breed", "%…%")` when the breed filter is non-empty; stated by PetsPage.BreedMeaning |
| PetsPage.MinAgeCondition | app/pets/page.tsx:31-33 | `gte("age", …)` whenever minAge is defined; stated by PetsPage.MinAgeMeaning |
| PetsPage.MaxAgeCondition | app/pets/page.tsx:35-37 | `lte("age", …)` whenever maxAge is defined; stated by PetsPage.MaxAgeMeaning |
| PetsPage.SizeCondition | app/pets/page.tsx:39-41 | `eq("size", …)` when the size filter is non-empty; stated by PetsPage.SizeMeaning |
| PetsPage.GenderCondition | app/pets/page.tsx:43-45 | `eq("gender", …)` when the gender filter is non-empty; stated by PetsPage.GenderMeaning |
| PetsPage.AdoptedCondition | app/pets/page.tsx:47-49 | `eq("is_adopted", …)` whenever the flag is defined; stated by PetsPage.AdoptedMeaning |
| PetsPage.PetConditions | app/pets/page.tsx:21-49 | the seven conditions in source order, absent ones skipped; stated by PetsPage.QueryMeansFilters |
| PetsPage.SpeciesMeaning | app/pets/page.tsx:23-25 | the species condition, added only for a non-empty filter, selects pets of that species |
| PetsPage.BreedMeaning | app/pets/page.tsx:27-29 | the breed condition selects pets whose breed contains the filter in any letter case |
| PetsPage.MinAgeMeaning | app/pets/page.tsx:31-33 | whenever minAge is defined, only pets aged at least minAge are selected |
| PetsPage.MaxAgeMeaning | app/pets/page.tsx:35-37 | whenever maxAge is defined, only pets aged at most maxAge are selected |
| PetsPage.SizeMeaning | app/pets/page.tsx:39-41 | the size condition, added only for a non-empty filter, selects pets of that size |
| PetsPage.GenderMeaning | app/pets/page.tsx:43-45 | the gender condition, added only for a non-empty filter, selects pets of that gender |
| PetsPage.AdoptedMeaning | app/pets/page.tsx:47-49 | whenever the flag is defined, false included, only pets with that flag are selected |
| PetsPage.QueryMeansFilters | app/pets/page.tsx:18-49 | the query selects exactly the pets that meet every present filter |
| PetsPage.AppliedQuery | app/pets/page.tsx:62-72 | the listing reached by applying filters runs the query of the applied filters |
| PetsPage.SelectedFirst | app/pets/page.tsx:23-25 | every selected pet satisfies the species condition |
| PetsPage.AllSpeciesAsWritten | components/pet-filters.tsx:63-69 | as written, "All species" hides every pet whose species is not literally "all" |
| PetsPage.AllSpeciesListsNothing | components/pet-filters.tsx:63-69 | as written, choosing "All species" and applying the filters lists no pet whose species is not literally "all" |
| PetsPage.AllOptionClearsFilter | components/pet-filters.tsx:63-69 | with the fix, the "all" option of each select lists the same pets as no filter |
| PetsPage.SyncedRangeExcludesUnknownAge | components/pet-filters.tsx:45-51 | once the effect's range is applied, no pet with an unknown age is listed |
| PetsPage.GetPets | app/pets/page.tsx:18-59 | the query is on "pets", ordered by created_at descending, with the conditions of the filters in order; an error yields no pets, otherwise `data \|\| []` |
| ReportPage.FieldNames | app/report/page.tsx:37-44 | every form field is addressed by its own name and by no other |
| ReportPage.FieldOfWithField | app/report/page.tsx:37-44 | replacing a field sets it and leaves every other field unchanged |
| ReportPage.AgeColumn | app/report/page.tsx:82 | the age is null for an empty field, otherwise `parseInt` of it, with `NaN` sent as null |
| ReportPage.PetRow | app/report/page.tsx:78-90 | the row the report inserts; stated by ReportPage.PetRowReportable, ReportPage.PetRowOfFormOf and ReportPage.FormOfPetRow |
| ReportPage.PetRowReportable | app/report/page.tsx:78-90 | every inserted row is not adopted, has no empty optional text, and is reported by the user |
| ReportPage.PetRowOfFormOf | app/report/page.tsx:78-90 | filling the form from a reportable row and submitting it inserts that very row |
| ReportPage.FormOfPetRow | app/report/page.tsx:78-90 | a form with an empty or canonical age is recovered from its row |
| ReportPage.DisplayName | app/report/page.tsx:69 | the profile name is the non-empty metadata name, or "User" |
| ReportPage.ReportPetPage.constructor | app/report/page.tsx:20-32 | an empty form, not submitting, no error |
| ReportPage.ReportPetPage.SetField | app/report/page.tsx:37-44 | the named field takes the value and no other field changes |
| ReportPage.ReportPetPage.Submit | app/report/page.tsx:46-108 | no user: go to "/login?redirect=/report", nothing changes; a profile is inserted only when the lookup fails; a failed profile insert prevents the pet insert; success inserts the form's row and goes to "/pets"; failure sets "Failed to report pet. Please try again."; no longer submitting on every exit |
| Adoption.AdoptionForm.constructor | components/adoption-form.tsx:20-23 | an empty reason, not submitting, no error |
| Adoption.AdoptionForm.SetReason | components/adoption-form.tsx:110 | the reason becomes the typed text |
| Adoption.AdoptionForm.Submit | components/adoption-form.tsx:28-77 | no user: go to "/login", nothing changes; an existing application gives the duplicate message and no insert; otherwise exactly one Pending application with the pet, the user and the reason is inserted; success refreshes and clears the reason; failure sets the error; no longer submitting on every exit; one application per pair is preserved |

## Left out

- Rendering, styling, toasts, console logging and `scrollIntoView`.
- DOM focus after a suggested question. The `handleKeyDown` wrapper is also out: it only forwards the Enter key to `SendMessage`.
- Message identifiers and timestamps (`Date.now()`, `new Date()`).
- Timers. A reply's one-second delay is an ordered queue of due replies. All timers have the same delay, so they fire in scheduling order.
- `toLowerCase` beyond ASCII letters. Full Unicode case mapping is a platform call.
- Number precision. `toString` of integers of 10^21 and beyond uses exponent notation, and `-0` is not distinguished. Ages are modelled as exact integers or `NaN`.
- URL percent-encoding. The search parameters as one string are out; the model works on decoded name/value pairs.
- A search parameter given several times. The page's prop then holds an array; the model keeps the first value.
- The database's SQL semantics: `order` actually sorting the rows, and server-side errors such as a `NaN` bound. The query is data. Its conditions get a meaning for one row, but which rows the database returns is a parameter.
- Query.LikeMatch: `LIKE`'s backslash escapes are not modelled, nor is the REST filter syntax behind `.ilike`, which also reads `*` as `%`. PetsPage.QueryMeansFilters therefore needs a breed filter without `%`, `_` or `*`, because the page passes them on unescaped.
- Concurrency. The duplicate check and the insert of an application are not atomic, and the store is modelled as sequential.
- Adoption.AdoptionForm.Submit: a duplicate lookup that fails for a reason other than there being no single row (a network or server error) is not modelled; the lookup always sees the table. The source ignores that error and goes on to insert (components/adoption-form.tsx:41-58), so on that path it can insert a second application for the same pet and user, and one application per pair is not kept.
- The transient `isSubmitting == true` state while a request is in flight. Each handler is one atomic step, and the stated post-state has `isSubmitting` false.
- The `required` attributes on the forms. The browser enforces them before a handler runs; the handlers themselves do not check them.
- Authentication. The signed-in user is a parameter.
- ReportPage.ReportPetPage.SetField: for a name that is no form field, the source's `{ ...prev, [name]: value }` adds a property to the form object. Nothing in the page reads such a property, so the model changes no field instead.
- app/dashboard/page.tsx and the presentational pages are not part of this model.

## Findings

| source | as written | input that shows it | evidently intended | confidence | as-written member | corrected member |
|---|---|---|---|---|---|---|
| components/pet-filters.tsx:63 | the species, size and gender selects store `value \|\| undefined`, so their "all" option (lines 69, 111, 129) is stored as the value "all" | pick "All species"; the listing then queries `species = 'all'` and a dog is not listed | "All species", "Any size" and "Any gender" clear the filter | not executed; high | PetsPage.AllSpeciesListsNothing | PetFilterPanel.SelectChoice |

The filter panel's setters store the value as the code writes it. The
corrected choice is `PetFilterPanel.SelectChoice`. With it, the "all"
option of each select lists the same pets as no filter at all
(`PetsPage.AllOptionClearsFilter`).
