# mealink in Dafny

A model of the core of mealink, an iOS app for tracking what is in the
fridge and planning meals from it. The heart of the model is the
inventory-ingestion pipeline:

- the "add to inventory" screen (`AddInventoryViewModel`) keeps a list of
  editable input rows. On submit it resolves every row with a non-blank
  name to an ingredient, builds one insert request per row and records
  them all with one batch insert;
- the repository (`SupabaseInventoryRepository`) searches the ingredient
  catalogue, finds or creates a user's own ingredient
  (`insertUserIngredient`), and appends inventory rows stamped with the
  signed-in user (`insertInventory`).

The repository works against an in-memory stand-in for the remote
database (`InventoryRepository.Db`): the `ingredients` and `inventory`
tables, the current session, a count of remote requests, and a schedule
of the requests that fail. The app's writes are methods of the class
`InventoryRepository.Store`. Each is proved to do to the whole state what
a specification function (`InsertUserIngredientSpec`, `InsertInventorySpec`)
says. The properties are then lemmas about those functions: idempotent
insert-or-find, no duplicate user ingredients, no partial commit, and
nothing written on an error path. The view-model is a class holding a
`Store?` (null when there is no backend). Its `Submit` loop is proved
against `SubmitSpec`.

Around the pipeline, the model covers the smaller pieces of logic:

- `DataProvider`: how an inventory row becomes an `InventoryItem`, the
  category emoji, the empty-response failure of `decodeResponse`, and the
  id of a recipe requirement row;
- `TodayMenu`: the cuisine chips, the recipe filter, and the state
  changes of `load`;
- `InventoryScreen`: grouping the stock by storage location into sorted
  sections, and the state changes of `load`;
- `Auth`: the validity of the sign-up form and the messages of
  `register` and `login`;
- `Components`: `Color.init(hex:)` down to its integer channels, and the
  gauge tint of a category;
- `LocalUserId`: the get-or-create device UUID kept in the user defaults.

Supporting modules hold what the app takes from Foundation:

- `Text`: trimming of `.whitespacesAndNewlines`, case mapping, prefix and
  substring tests, string order, and `Array(Set(xs)).sorted()`;
- `Hex`: hexadecimal digits;
- `Uuids`: `UUID.uuidString` and `UUID(uuidString:)`, with both round
  trips proved;
- `Numbers`: the decimal numerals `Double(_:)` accepts.

Values the app draws at run time are parameters. These are the UUIDs
that `UUID()` draws and the ids the server assigns. The answers of the
data provider and the way Swift prints a `Double` are parameters too.

Two behaviours of the source are worth stating plainly, and the model
keeps both:

- a parsed quantity is not clamped: `Double("-2")` gives -2, and the
  insert request carries -2;
- there is no anonymous fallback identity: with no session,
  `insertUserIngredient`, a non-empty `insertInventory` and a search with
  a non-blank keyword fail with `AuthRequiredError` (an empty batch and a
  blank keyword still succeed, before the session is asked for).

## Model

| member | source | states |
|---|---|---|
| Numbers.ParseDigits | mealink/AddInventoryViewModel.swift:79 | a non-empty run of decimal digits parses to its decimal value |
| Numbers.ParseDoubleRejects | mealink/AddInventoryViewModel.swift:79 | text holding any character that cannot be part of a numeral does not parse, so the quantity falls back to 0 |
| Text.TrimEmptyIff | mealink/AddInventoryViewModel.swift:76-77 | a name trims to empty exactly when every character is whitespace or a newline |
| Text.SortedDistinct | mealink/TodayMenuView.swift:79 | `Array(Set(xs)).sorted()` is strictly ascending and holds exactly the elements of `xs` |
| Text.StrictlySortedUnique | mealink/TodayMenuView.swift:79 | two strictly ascending lists with the same elements are equal, so the sorted set is unique |
| Uuids.ParseFormat | mealink/LocalUserIDProvider.swift:7-11 | reading back a UUID's `uuidString` gives the same UUID |
| Uuids.FormatParse | mealink/LocalUserIDProvider.swift:7 | a string that parses as a UUID is, upper-cased, that UUID's `uuidString` |
| InventoryRepository.ToSuggestion | mealink/SupabaseInventoryRepository.swift:141-143 | a suggestion carries the row's id, name, category and unit |
| InventoryRepository.FindUserIngredient | mealink/SupabaseInventoryRepository.swift:67-79 | the duplicate lookup finds a user row of the caller with that normalized name, and finds nothing exactly when there is none |
| InventoryRepository.FindUserIngredientAppend | mealink/SupabaseInventoryRepository.swift:67-79 | rows appended later never change what the lookup finds among earlier rows |
| InventoryRepository.Matching | mealink/SupabaseInventoryRepository.swift:47-55 | the search filter keeps exactly the visible rows that match the keyword |
| InventoryRepository.SearchIngredients | mealink/SupabaseInventoryRepository.swift:37-59 | a blank keyword gives [] before the session check; without a session the result is `AuthRequiredError`; at most 10 results, each the suggestion of a visible row (active master, or the caller's own active or pending row) |
| InventoryRepository.SearchComplete | mealink/SupabaseInventoryRepository.swift:47-58 | when no more than 10 rows match, every visible matching row is returned |
| InventoryRepository.Store.RequireSessionUserId | mealink/SupabaseInventoryRepository.swift:119-124 | the session's user id, or `AuthRequiredError` exactly when there is no session |
| InventoryRepository.Store.InsertUserIngredient | mealink/SupabaseInventoryRepository.swift:62-96 | the result and the new store state are those of `InsertUserIngredientSpec` on the old state |
| InventoryRepository.Store.InsertInventory | mealink/SupabaseInventoryRepository.swift:98-116 | the result and the new store state are those of `InsertInventorySpec` on the old state |
| InventoryRepository.InsertUserIngredientNeedsSession | mealink/SupabaseInventoryRepository.swift:62-64 | without a session the call fails with `AuthRequiredError`, changes nothing and makes no request |
| InventoryRepository.InsertUserIngredientEffect | mealink/SupabaseInventoryRepository.swift:66-95 | inventory is never touched. A failure leaves the ingredients as they were. Otherwise the table either stays the same or gains exactly one pending user row owned by the caller, with the name as passed in. It gains the row only when no row had that normalized name. The result is a caller row with that key |
| InventoryRepository.InsertUserIngredientIdempotent | mealink/SupabaseInventoryRepository.swift:62-96 | two successful calls with names that normalize the same return the same id and add at most one row |
| InventoryRepository.InsertUserIngredientKeepsUnique | mealink/SupabaseInventoryRepository.swift:65-96 | no user ever holds two rows with the same normalized name |
| InventoryRepository.InsertInventoryEmpty | mealink/SupabaseInventoryRepository.swift:99 | an empty batch returns at once, without error or write, even without a session |
| InventoryRepository.InsertInventoryEffect | mealink/SupabaseInventoryRepository.swift:100-115 | a non-empty batch without a session fails with `AuthRequiredError` and writes nothing. Otherwise it appends one row per request, in order, with id = `inventoryId`, user = caller and the other fields copied. On failure nothing is appended |
| AddInventory.FindRowIndex | mealink/AddInventoryViewModel.swift:41 | `firstIndex(where:)`: the first row with the id, or none when no row has it |
| AddInventory.WithoutId | mealink/AddInventoryViewModel.swift:54 | `removeAll`: exactly the rows with another id remain |
| AddInventory.WithoutIdAppend | mealink/AddInventoryViewModel.swift:54 | `removeAll` keeps the remaining rows in their order |
| AddInventory.AddInventoryViewModel.constructor | mealink/AddInventoryViewModel.swift:6-21 | one default row (empty inputs, location 冷蔵, nothing picked), no suggestions, no messages, not loading |
| AddInventory.AddInventoryViewModel.SelectSuggestion | mealink/AddInventoryViewModel.swift:40-47 | only the first row with the id changes: the suggestion is picked, its name copied and its unit copied when it has one. No match leaves the rows alone. The suggestions are cleared either way |
| AddInventory.AddInventoryViewModel.AddRow | mealink/AddInventoryViewModel.swift:49-51 | one default row is appended |
| AddInventory.AddInventoryViewModel.RemoveRow | mealink/AddInventoryViewModel.swift:53-55 | the rows become those with another id |
| AddInventory.AddInventoryViewModel.InsertIfNeeded | mealink/AddInventoryViewModel.swift:57-61 | no repository is the `repo` error; a picked suggestion is returned as is; otherwise insert-or-find on the untrimmed name |
| AddInventory.AddInventoryViewModel.Submit | mealink/AddInventoryViewModel.swift:63-94 | without a repository only `errorMessage` changes. Otherwise the store ends as `SubmitSpec` says, loading ends, and success sets `successMessage` alone while failure sets `errorMessage` alone. The rows are untouched |
| AddInventory.ResolveRowsStopsAtError | mealink/AddInventoryViewModel.swift:73-93 | once a row fails to resolve, the later rows change nothing |
| AddInventory.NonBlankRowsEmpty | mealink/AddInventoryViewModel.swift:76-77 | there are no rows to submit exactly when every name is blank |
| AddInventory.ResolveRowsCopies | mealink/AddInventoryViewModel.swift:75-88 | one request per non-blank row, in row order. Each copies quantity (parsed, else 0), location and expiry. The unit is the typed one, else the ingredient's, else "". A picked suggestion supplies the ingredient id |
| AddInventory.ResolveRowsTypedRows | mealink/AddInventoryViewModel.swift:78-87 | a row typed without a picked suggestion gets, as ingredient id, the id of a row of the signed-in user with that normalized name, present in the ingredients table afterwards; with no unit typed, its unit is that ingredient's unit, else "" |
| AddInventory.ResolveRowsFrame | mealink/AddInventoryViewModel.swift:75-88 | resolving rows never writes inventory and only appends ingredients |
| AddInventory.SubmitAtomic | mealink/AddInventoryViewModel.swift:73-93 | inventory is written only if every row resolved, then once, with the requests; otherwise it is unchanged |
| AddInventory.SubmitAllBlank | mealink/AddInventoryViewModel.swift:75-89 | all-blank rows resolve to no requests, and submitting them succeeds without any request |
| AddInventory.ResolveRowsAllPicked | mealink/AddInventoryViewModel.swift:78 | when every non-blank row has a picked suggestion, resolution succeeds without touching the store |
| AddInventory.ResolveRowsWithoutSession | mealink/AddInventoryViewModel.swift:75-88 | without a session resolution changes nothing and can only fail with `AuthRequiredError` |
| AddInventory.SubmitWithoutSession | mealink/AddInventoryViewModel.swift:73-93 | without a session, any non-blank row makes submit fail with `AuthRequiredError` and change nothing |
| AddInventory.SubmitKeepsUnique | mealink/AddInventoryViewModel.swift:73-93 | submit never gives a user two ingredients with the same normalized name |
| AddInventory.ResolveRowsLeavesKeys | mealink/AddInventoryViewModel.swift:75-88 | after a successful resolution every typed row's name has a user ingredient |
| AddInventory.ResolveRowsCreatesNothing | mealink/AddInventoryViewModel.swift:75-88 | when every typed name already has a user ingredient, resolution creates none |
| AddInventory.SubmitRetryCreatesNothing | mealink/AddInventoryViewModel.swift:63-94 | submitting the same rows again after the ingredients were created adds no ingredient |
| DataProvider.RequirementIdInjective | mealink/DataProvider.swift:43 | while names hold no '\|', distinct (name, unit) pairs get distinct requirement ids |
| DataProvider.DecodeResponse | mealink/DataProvider.swift:210-216 | no response body is an error; otherwise the result is the decoder's |
| DataProvider.EmojiFor | mealink/DataProvider.swift:218-224 | 肉, 魚, 野菜, 果 are checked in that order and the first contained one picks the emoji; 🥫 exactly when none is contained |
| DataProvider.Fill | mealink/DataProvider.swift:186 | the gauge lies in [0, 1], is 0 without a quantity and a fifth of a quantity in [0, 5] |
| DataProvider.QuantityLabel | mealink/DataProvider.swift:178-185 | quantity and unit when both exist and the unit is non-empty; the quantity alone when the unit is missing or empty; the unit or "" without a quantity |
| DataProvider.ToDomain | mealink/DataProvider.swift:177-199 | a present id is kept; the category defaults to その他 and the emoji is computed from that same category; never an alert, no location, expiry copied |
| DataProvider.ToDomainName | mealink/DataProvider.swift:190 | the joined name; else "食材ID: " and the first eight upper-case hex digits of the ingredient id; else "食材ID: unknown" |
| TodayMenu.Cuisines | mealink/TodayMenuView.swift:78 | exactly the non-empty cuisines of the recipes |
| TodayMenu.AvailableCuisines | mealink/TodayMenuView.swift:77-81 | "すべて" first, then exactly the distinct non-empty cuisines, in strictly ascending order |
| TodayMenu.AvailableCuisinesOrderFree | mealink/TodayMenuView.swift:78-80 | the chips do not depend on the order of the recipes |
| TodayMenu.WithCuisine | mealink/TodayMenuView.swift:85 | exactly the recipes whose cuisine equals the selection |
| TodayMenu.WithCuisineAppend | mealink/TodayMenuView.swift:85 | the filter keeps the original order |
| TodayMenu.FilteredRecipes | mealink/TodayMenuView.swift:83-86 | all recipes for "すべて"; otherwise exactly those of the selected cuisine |
| TodayMenu.SelectionShowsSomething | mealink/TodayMenuView.swift:69 | while the selection is one of the chips, a non-empty recipe list never filters down to nothing |
| TodayMenu.TodayMenuModel.Shown | mealink/TodayMenuView.swift:29-40 | the spinner while loading, else the error card, else the filtered recipes |
| TodayMenu.TodayMenuModel.constructor | mealink/TodayMenuView.swift:6-9 | no recipes, "すべて" selected, loading, no error |
| TodayMenu.TodayMenuModel.SelectCuisine | mealink/TodayMenuView.swift:22-24 | a tapped chip becomes the selection |
| TodayMenu.TodayMenuModel.Load | mealink/TodayMenuView.swift:63-75 | loading ends. On success the recipes are replaced, the error is cleared, and the selection is kept if still offered, else reset to "すべて". On failure the recipes and selection stay and the error reads "レシピの取得に失敗しました。" plus the description. The selection is always one of the chips |
| InventoryScreen.LocationKey | mealink/InventoryView.swift:77 | the item's location when present and non-empty, else 未設定 |
| InventoryScreen.ItemsAt | mealink/InventoryView.swift:75-80 | exactly the items with that key |
| InventoryScreen.GroupedByLocation | mealink/InventoryView.swift:75-80 | one group per key that occurs, holding exactly that key's items in list order, never empty |
| InventoryScreen.SectionKeys | mealink/InventoryView.swift:29 | the group keys in strictly ascending order |
| InventoryScreen.SectionsAreGroups | mealink/InventoryView.swift:29-39 | each section is the non-empty group of its title and holds only items of that key |
| InventoryScreen.SectionsPartition | mealink/InventoryView.swift:29-39 | the sections, read top to bottom, are a permutation of the stock list: every item in exactly one section, sizes summing to the count |
| InventoryScreen.InventoryModel.Shown | mealink/InventoryView.swift:20-40 | the spinner while loading, else the error card, else the empty notice, else the sections |
| InventoryScreen.InventoryModel.constructor | mealink/InventoryView.swift:6-8 | no items, loading, no error |
| InventoryScreen.InventoryModel.Load | mealink/InventoryView.swift:63-73 | loading ends. Success replaces the items and clears the error. Failure keeps the items and sets "在庫の取得に失敗しました。" plus the description |
| Auth.FormValidIff | mealink/AuthView.swift:70-73 | the form is valid exactly when the e-mail has a non-whitespace character and the password is non-empty (the password is not trimmed) |
| Auth.AuthViewModel.constructor | mealink/AuthView.swift:64-68 | empty fields, not loading, no messages |
| Auth.AuthViewModel.Register | mealink/AuthView.swift:76-83 | the sign-up report embedding the e-mail, no error, not loading, the form unchanged, buttons disabled exactly when the form is invalid |
| Auth.AuthViewModel.Login | mealink/AuthView.swift:85-92 | the log-in report embedding the e-mail, no error, not loading, the form unchanged, buttons disabled exactly when the form is invalid |
| Components.ScanHexInt64 | mealink/Components.swift:245 | the scanned value fits 64 bits and is 0 when no hex digit follows the skipped leading whitespace |
| Components.ScanSkipsWhitespace | mealink/Components.swift:245 | leading whitespace and newlines do not change the scanned value |
| Components.ScanDigits | mealink/Components.swift:245 | a bare run of hex digits scans to its value |
| Components.NormalizedPound | mealink/Components.swift:242-243 | "#" and digits normalize to the upper-cased digits: trimmed, upper-cased, one '#' dropped |
| Components.ChannelsOf | mealink/Components.swift:246-248 | the red, green and blue channels are bytes |
| Components.ChannelsRoundTrip | mealink/Components.swift:246-248 | a 24-bit value is its channels put back together |
| Components.ChannelsOfJoin | mealink/Components.swift:246-248 | three bytes put together come back out as the channels |
| Components.ColorFromHex | mealink/Components.swift:241-250 | every component of the colour lies in [0, 1] |
| Components.SpacedPoundColor | mealink/Components.swift:242-245 | whitespace between the '#' and the digits is skipped: "# 56ACC7" is the same colour as "#56ACC7" |
| Components.SixDigitColor | mealink/Components.swift:241-250 | "#RRGGBB", in either case, gives the byte values of RR, GG and BB over 255 |
| Components.ColorForCategory | mealink/Components.swift:113-116 | "#56ACC7" exactly when the category contains 肉 or 魚, else "#E57675" |
| Components.TintMatchesEmoji | mealink/Components.swift:113-116 | the teal tint goes to exactly the categories whose emoji is 🍗 or 🐟 |
| Components.CategoryTint | mealink/Components.swift:113-116 | meat and fish are drawn as (0x56, 0xAC, 0xC7)/255, everything else as (0xE5, 0x76, 0x75)/255 |
| LocalUserId.DeviceUuid | mealink/LocalUserIDProvider.swift:6-13 | the answer and the new defaults are those of `DeviceUuidSpec`: a stored entry that parses is returned and nothing written, otherwise the drawn UUID is stored as its string and returned |
| LocalUserId.DeviceUuidStored | mealink/LocalUserIDProvider.swift:7-12 | afterwards the stored string parses to the UUID returned |
| LocalUserId.DeviceUuidStable | mealink/LocalUserIDProvider.swift:6-13 | a second call returns the same UUID and writes nothing, whatever it would draw |
| LocalUserId.DeviceUuidOnlyOwnKey | mealink/LocalUserIDProvider.swift:4-12 | every other key is left as it was |

## Left out

- `updateSearch` (debounced, cancellable search): its point is timing and task cancellation, which the model does not have. The search itself is `InventoryRepository.SearchIngredients`.
- InventoryRepository.SearchIngredients: which ten rows the server returns when more match, and their order, are up to the server. The model takes the first ten in table order, and its contract promises only that every result is a visible row. A search has no fault path and sends no counted request.
- InventoryRepository.KeywordMatches: `ilike` is read as a case-insensitive prefix or substring test. `%` and `_` typed in a keyword are not treated as wildcards.
- JSON encoding and decoding, and malformed responses: the decoder is a parameter of `DataProvider.DecodeResponse`. The repository's decoded rows are taken to be well formed.
- Concurrency: two `insertUserIngredient` calls racing from different devices, or `submit` pressed again while one runs. Each operation runs to completion here.
- Numbers.ParseDouble: covers decimal numerals with an optional sign. Exponents, hexadecimal floats, "inf" and "nan" are not accepted, and rounding to a `Double` is not modelled (reals are exact).
- DataProvider.QuantityLabel: how Swift prints a `Double` is the parameter `format`.
- Components.ColorFromHex: the division by 255 is exact over reals, not floating point. `Scanner.scanHexInt64` is taken to skip leading whitespace and newlines, to give `UInt64.max` on overflow and to accept one "0x"/"0X" before a digit.
- Text: case mapping covers ASCII letters only. Trimming works on Unicode scalars, not grapheme clusters. String order compares code points one by one, with no Unicode normalization.
- `UUID()` and the ids the server assigns are parameters, as are the answers of the data provider's fetches.
- SwiftUI layout, fonts and colours of the views, beyond which branch a screen shows (`Shown`). The chart views, `RecipeCard`, `ErrorCard` and the other screens are not part of this model.
- `DailyPlanRepository`, `AuthService`, the Supabase client setup, the app's URL handling, `MockDataProvider` and the SwiftData `Item` are not part of this model.
