# Are we there yet? — a Dafny model of the request handlers and page logic

"Are we there yet?" is a travel-booking web application: an Express/Mongoose backend and a
React frontend. This project models, as pure Dafny functions over immutable data, the parts
of it that decide things:

- **Backend.**
  - The cart controller: `getCart` price localisation, the `addProduct` stock guard and its update-or-add branch, and the `removeProduct` existence check.
  - The museum controller: ticket-price localisation in `getAllMuseums`, `tagIds` parsing in `findMuseumsByTags`, and creator stamping in `createMuseum`.
  - The `Validator` utility: identifier and password checks.
- **Frontend.**
  - The notification bell: display order, unread badge, mark-as-read and type styles.
  - The museum list: record defaults, text truncation, the search/tag filter and the museum named by the URL.
  - The activity list: record defaults, the sort by price and the four-way filter.
  - The profile save handler: country check, key renaming, password check and payload adjustments, plus the work-history list updates.
  - The login form: its state machine and the image carousel.
  - The register and general-settings forms: their empty/filled flags.
  - The category update popup.
  - The tourist preference-tag selection.

Every call into code outside these files is a parameter of the function that makes it:

- the currency converter;
- `ObjectId.isValid` and the `ObjectId` constructor;
- the repository reads and writes;
- the frontend password rule;
- the locale's date rendering and date comparison;
- the random draw of placeholder ratings.

A thrown exception or a rejected promise is a `Result`/`Option` value. A JavaScript value that may be `undefined` is an `Option`. Truthiness is written out where the code tests it (`TruthyNumber`, `TruthyString`): `0` and `""` count as missing. `??` replaces only a missing value.

Shared modules:
- `Base`: `Option`, `Result`, status codes.
- `Strings`: `includes`, `split`/`join`, `pop` of the last segment, ASCII `toLowerCase`, `trim`, truncation.
- `Seqs`: `filter` and the order-preserving sub-sequence relation.
- `Sorting`: `Array.prototype.sort` with a consistent comparator, as a stable insertion sort.

## Model

| member | source | states |
|---|---|---|
| CartController.AddProductOn | backend/src/controllers/cart.controller.ts:32-73 | The checks run in the code's order: product lookup, user read, quantity guard, write. A rejected lookup, user read or write answers 500 with "Error adding product to cart: " followed by that error's message. A missing product answers with "Product not found", and a refused quantity with "Product not available in the requested quantity". The answer is 201 exactly when the product is found, both calls resolve and the guard passes. Every failure writes nothing. An accepted request updates the quantity when the searched cart has the product, and appends a line otherwise. |
| CartController.AddProduct | backend/src/controllers/cart.controller.ts:32-73 | Corrected `addProduct` over the user's own cart with the intended guard: a 201 answer needs a positive quantity, and it returns the written cart. |
| CartController.AddProductAsWritten | backend/src/controllers/cart.controller.ts:42-66 | As the code runs, with `findUserById` yielding a list and the written guard: every accepted request appends a line, with whatever quantity the body carried. |
| CartController.MissingQuantityAddedAsWritten | backend/src/controllers/cart.controller.ts:46-66 | A body without `quantity` is answered 201 by the code as written, appending a line without a quantity. The corrected handler refuses it with "Product not available in the requested quantity" and writes nothing. |
| CartController.GuardAgreesOnNumbers | backend/src/controllers/cart.controller.ts:43-48 | On a numeric quantity the request is rejected iff `quantity <= 0` or `quantity > stock`, so `quantity == stock` is accepted. |
| CartController.MissingQuantityPassesGuardAsWritten | backend/src/controllers/cart.controller.ts:46-48 | The written guard lets a missing quantity through; the intended one rejects it. |
| CartController.AddProductSetsQuantity | backend/src/controllers/cart.controller.ts:46-66 | An accepted request sets the product's quantity in the cart's map view, replacing rather than summing, and changes no other product. A rejected request leaves the cart untouched. |
| CartController.AddProductKeepsOneLinePerProduct | backend/src/controllers/cart.controller.ts:44-66 | A cart with one line per product keeps that shape, and after acceptance the product has exactly one line, holding the requested quantity. |
| CartController.AsWrittenAddDuplicatesLine | backend/src/controllers/cart.controller.ts:44-66 | As written, adding a product already in the cart appends a second line for it. |
| CartController.AddProductScenario | backend/src/controllers/cart.controller.ts:43-66 | With stock 3: adding 2 gives one line of 2, adding 5 is refused with the cart unchanged, and adding 3 leaves one line of 3. |
| CartController.FirstLine | backend/src/controllers/cart.controller.ts:44 | `find` returns the first line of the product, and its quantity is the one the map view reports. |
| CartController.SetQuantityAsMap | backend/src/controllers/cart.controller.ts:51 | The update-quantity write changes exactly that product's entry in the map view. |
| CartController.AppendAsMap | backend/src/controllers/cart.controller.ts:61 | The add-line write of a product not in the cart adds exactly that entry to the map view. |
| CartController.RemoveAsMap | backend/src/controllers/cart.controller.ts:84 | The remove write deletes exactly that product from the map view. |
| CartController.SetQuantityKeepsUnique | backend/src/controllers/cart.controller.ts:51 | Updating a quantity keeps the line count, each line's product, and one line per product. |
| CartController.RemoveProductOn | backend/src/controllers/cart.controller.ts:75-95 | Status 200 iff the user read resolves, the searched cart holds the product and the write resolves. Then the remove write runs and its cart is returned. A rejected user read or write answers 500 with "Error removing product from cart: " and that error's message. A product absent from the cart answers with "Product not found in cart". No failure writes anything. |
| CartController.RemoveProduct | backend/src/controllers/cart.controller.ts:75-95 | Corrected `removeProduct`: succeeds exactly when both calls resolve and the user's cart holds the product. |
| CartController.RemoveProductAsWritten | backend/src/controllers/cart.controller.ts:77-82 | As the code runs, every removal fails with 500 and the cart is unchanged. When the user read resolves the message is "Product not found in cart". |
| CartController.RemoveProductDropsOnlyThatProduct | backend/src/controllers/cart.controller.ts:78-88 | A successful removal drops the product from the map view and nothing else, and keeps the order of the other lines. In a one-line-per-product cart it removes exactly one line. A failed removal leaves the cart as it was. |
| CartController.RemoveFromUniqueCart | backend/src/controllers/cart.controller.ts:84 | With one line per product, filtering the product out shortens the cart by exactly one. |
| CartController.LocaliseLines | backend/src/controllers/cart.controller.ts:14-24 | Localisation succeeds iff every product's price converts. Each product then carries its converted price, with a falsy price converted as 0, and its quantity, id and stock are unchanged. |
| CartController.GetCart | backend/src/controllers/cart.controller.ts:10-30 | Only a missing user gets 200 with no cart. A user record without a `cart` field throws the `TypeError` of `.map` on `undefined` and gets no answer, and so does a rejected read. For a user with a cart there is a 200 answer, carrying the localised lines, exactly when every conversion succeeds. |
| CartController.MissingPriceConvertsAsZero | backend/src/controllers/cart.controller.ts:17-20 | A product with no price is localised exactly like one priced 0. |
| MuseumController.LocaliseField | backend/src/controllers/museum.controller.ts:15-32 | A truthy price is replaced by its conversion, and the step fails iff that conversion fails. A missing or zero price is left alone. |
| MuseumController.LocaliseMuseum | backend/src/controllers/museum.controller.ts:14-34 | Only ticket prices change. Each of foreigner, native and student is localised as above; a museum without ticket prices is returned as it is. |
| MuseumController.LocaliseAll | backend/src/controllers/museum.controller.ts:13-35 | All museums are localised, same order and length, or the whole pass fails. |
| MuseumController.GetAllMuseums | backend/src/controllers/museum.controller.ts:8-48 | 200 with the localised museums and the currency iff the read and every conversion succeed. Otherwise 400 with the error message and an empty list. |
| MuseumController.LocalisationKeepsOtherFields | backend/src/controllers/museum.controller.ts:13-35 | Ids, names, tags and creators of the listed museums survive localisation. |
| MuseumController.LocaliseScenario | backend/src/controllers/museum.controller.ts:15-32 | At a rate of 0.9, prices 100 and 50 become 90 and 45, and an absent student price stays absent. |
| MuseumController.ParseTagIds | backend/src/controllers/museum.controller.ts:82-88 | A string is split on commas, an array is taken element-wise, anything else gives `[]`. |
| MuseumController.ParseTagIdsEmpty | backend/src/controllers/museum.controller.ts:82-92 | The list is empty exactly for a missing parameter or an empty array. An empty string gives `[""]` and so passes the emptiness check. |
| MuseumController.ToObjectIds | backend/src/controllers/museum.controller.ts:94 | Every id converts, in order, or the conversion fails. |
| MuseumController.FindMuseumsByTags | backend/src/controllers/museum.controller.ts:80-101 | An empty list is rejected with "Invalid or missing tagIds parameter". Otherwise the answer is the query result iff every id converts and the query succeeds, and 400 in every other case. |
| MuseumController.CreateMuseum | backend/src/controllers/museum.controller.ts:103-119 | The persisted museum is the body with `created_by` set to the caller and nothing else changed. The answer is 201 with the new id iff the store succeeds, else 400. |
| Validator.ValidateId | backend/src/utils/Validator.utils.ts:5-11 | Throws `ValidationException(msg)` exactly when the id is not a valid ObjectId, and returns `true` otherwise. |
| Validator.HasDigit | backend/src/utils/Validator.utils.ts:18 | The regular expression finds a match iff some character is a decimal digit. |
| Validator.ValidatePassword | backend/src/utils/Validator.utils.ts:13-23 | Accepts exactly the passwords of 8 or more characters containing a digit. An undefined or short password reports the length message first; a long one without a digit reports the digit message. |
| NotificationBell.HandleMarkAsRead | frontend/src/modules/LandingPage/components/NotificationBell.tsx:31-42 | The callback runs iff the id is truthy. The `PUT` request is always sent, to `/notifications/read/` followed by the id, or by `undefined` when there is none. |
| NotificationBell.MarkAsReadNamesTheNotification | frontend/src/modules/LandingPage/components/NotificationBell.tsx:31-42 | Different present ids go to different request paths, and a callback, when made, carries the id of the path. |
| NotificationBell.Style | frontend/src/modules/LandingPage/components/NotificationBell.tsx:44-57 | The grey style is given exactly to types outside the four known ones. |
| NotificationBell.StylesAreDistinct | frontend/src/modules/LandingPage/components/NotificationBell.tsx:44-57 | The four known types have four different styles. |
| NotificationBell.PrecedesIsTotalPreorder | frontend/src/modules/LandingPage/components/NotificationBell.tsx:59-64 | The comparator is consistent: total and transitive. |
| NotificationBell.SortedNotifications | frontend/src/modules/LandingPage/components/NotificationBell.tsx:58-65 | A permutation of the notifications, with unread before read and newest first within each group. Lists of at most one element are shown as they are, and a missing list as `[]`. |
| NotificationBell.Badge | frontend/src/modules/LandingPage/components/NotificationBell.tsx:76-81 | The badge is shown iff some notification is unread, and it shows the number of unread notifications as counted one by one. |
| NotificationBell.FilterCountsUnread | frontend/src/modules/LandingPage/components/NotificationBell.tsx:76-80 | The length of the unread filter equals the count of unread notifications taken one by one. |
| NotificationBell.BadgeCountsUnreadPrefix | frontend/src/modules/LandingPage/components/NotificationBell.tsx:58-81 | The badge count is exactly the number of unread notifications heading the sorted list: position i is unread iff i is below the count, and the count never exceeds the list. |
| MuseumList.FormatMuseum | frontend/src/modules/shared/components/MuseumList.tsx:43-76 | A record without `location` or `ticket_prices` fails. Otherwise each field is kept when present and defaulted when missing: "N/A", 0 or `[]`. |
| MuseumList.FormatMuseums | frontend/src/modules/shared/components/MuseumList.tsx:37-82 | All records are formatted in order, or the fetch fails if one record fails. |
| MuseumList.FormatCompleteRecord | frontend/src/modules/shared/components/MuseumList.tsx:43-76 | A complete record formats back to exactly the museum it describes. |
| MuseumList.FormatLocation | frontend/src/modules/shared/components/MuseumList.tsx:121-127 | Names of at most 20 characters are unchanged; longer ones become their first 20 characters plus "...". |
| MuseumList.FormatDescription | frontend/src/modules/shared/components/MuseumList.tsx:128-134 | Texts of at most 300 characters are unchanged; longer ones become their first 300 characters plus "...". |
| MuseumList.FilterMuseums | frontend/src/modules/shared/components/MuseumList.tsx:371-385 | An order-preserving sub-list that keeps every occurrence of each museum matching both the query and the selected tag, and no other. The query matches, ignoring case, the name, the category or a tag; the tag matches when empty or carried. |
| MuseumList.EmptyFilterKeepsAll | frontend/src/modules/shared/components/MuseumList.tsx:373-382 | An empty query with no tag selected shows every museum. |
| MuseumList.MuseumIdFromUrl | frontend/src/modules/shared/components/MuseumList.tsx:391-392 | The id is the URL's text after its last `/`, or the whole URL when it has none. |
| MuseumList.UrlEndingInId | frontend/src/modules/shared/components/MuseumList.tsx:391-392 | A URL ending in `/` followed by an id without `/` yields that id. |
| MuseumList.SearchQueryFromUrl | frontend/src/modules/shared/components/MuseumList.tsx:394-404 | The query becomes the name of the first museum with the URL's id, or stays as it was when none has it. |
| ActivityList.FormatActivity | frontend/src/modules/shared/components/ActivityList.tsx:57-89 | A record without `location` fails. Otherwise: the location is the record's, with name "N/A" and latitude and longitude 0 for the missing parts; price defaults to -1; category is the category's name or "N/A"; each tag becomes its name, or "N/A" when it has none, in order; the discount defaults to 0 and booking to closed; the rating lies in 1..5. |
| ActivityList.FormatFrom | frontend/src/modules/shared/components/ActivityList.tsx:57-89 | Records are formatted in order, or the fetch fails if one record fails. |
| ActivityList.FormatKeepsPresentFields | frontend/src/modules/shared/components/ActivityList.tsx:62-69 | A present price, category name and location are kept as sent. |
| ActivityList.PriceLeIsTotalPreorder | frontend/src/modules/shared/components/ActivityList.tsx:92 | The price comparator is consistent. |
| ActivityList.GetActivities | frontend/src/modules/shared/components/ActivityList.tsx:57-95 | A permutation of the formatted records, ordered by ascending price. |
| ActivityList.GetActivitiesKeepsEachRecord | frontend/src/modules/shared/components/ActivityList.tsx:57-95 | Every fetched record appears, formatted, in the sorted list. |
| ActivityList.FormatText | frontend/src/modules/shared/components/ActivityList.tsx:23-26 | Texts of at most 15 characters are unchanged; longer ones become their first 15 characters plus "...". |
| ActivityList.FilterActivities | frontend/src/modules/shared/components/ActivityList.tsx:138-158 | An order-preserving sub-list that keeps every occurrence of each activity meeting all four criteria, and no other: query on date, category or tags; price within budget; date on or after; rating at least. |
| ActivityList.NoCriteriaKeepsAll | frontend/src/modules/shared/components/ActivityList.tsx:142-155 | With the tool bar empty every activity is shown. |
| ActivityList.FilterKeepsPriceOrder | frontend/src/modules/shared/components/ActivityList.tsx:92-140 | Filtering the price-ordered list keeps it ordered by price. |
| ActivityList.RaisingBudgetShowsMore | frontend/src/modules/shared/components/ActivityList.tsx:148 | Raising the budget never hides an activity that was shown. |
| NewProf.IndexOf | frontend/src/modules/shared/components/NewProf.tsx:127 | `indexOf` gives the first position of the key, and -1 iff the key is absent. |
| NewProf.FieldMapPairsPositions | frontend/src/modules/shared/components/NewProf.tsx:124-128 | With mapping on, the i-th initial key maps to the i-th API field. |
| NewProf.RenameKey | frontend/src/modules/shared/components/NewProf.tsx:134 | A key is renamed to its mapped field when that is non-empty, and kept otherwise. |
| NewProf.NoMappingKeepsKeys | frontend/src/modules/shared/components/NewProf.tsx:123-134 | Without mapping every key is kept. |
| NewProf.Collect | frontend/src/modules/shared/components/NewProf.tsx:131-137 | The keys of the built object are exactly the renamed entry keys. |
| NewProf.CollectKeepsLastValue | frontend/src/modules/shared/components/NewProf.tsx:131-137 | An entry that no later entry overwrites is found under its renamed key with its own value. |
| NewProf.MappedData | frontend/src/modules/shared/components/NewProf.tsx:131-137 | The payload keys are the renamed form keys. |
| NewProf.MappedDataKeepsValues | frontend/src/modules/shared/components/NewProf.tsx:131-137 | When no two keys are renamed alike, each value reaches the payload unchanged under its renamed key. |
| NewProf.Adjust | frontend/src/modules/shared/components/NewProf.tsx:153-157 | `account_type` is present iff requested or already in the form. When requested it holds the user's type; otherwise a form value is kept. A non-empty `dob` is removed and an empty one stays. Every other field is unchanged. |
| NewProf.Save | frontend/src/modules/shared/components/NewProf.tsx:113-168 | An unknown non-empty nationality, when checked, aborts before any request. Otherwise a non-empty password failing the rule aborts. Otherwise a rejected password update ends the handler before the profile request. Otherwise the adjusted payload is sent, after a resolved password update iff a non-empty password was given. |
| NewProf.SentPayloadShape | frontend/src/modules/shared/components/NewProf.tsx:153-157 | A sent payload never carries a non-empty `dob`, and carries the account type when asked to. |
| NewProf.AfterEndpoint | frontend/src/modules/shared/components/NewProf.tsx:160-164 | On status 200 the user record gains the payload's fields, payload winning; any other status leaves it unchanged. |
| NewProf.EditWorkHistory | frontend/src/modules/shared/components/NewProf.tsx:170-188 | An existing list keeps, in order and with their multiplicity, exactly the entries whose id differs from the edited one. A missing list stays missing. |
| NewProf.SaveWorkHistory | frontend/src/modules/shared/components/NewProf.tsx:190-207 | On success the new entry is put in front of the old list (or of `[]`); on failure nothing changes. |
| NewProf.EditThenSaveKeepsOneEntry | frontend/src/modules/shared/components/NewProf.tsx:170-207 | Editing then saving an entry leaves it first and no other entry with its id; the rest is a sub-list of the old one. |
| LoginForm.Change | frontend/src/modules/Login/components/LoginForm.tsx:33-44 | `oneOfFieldsIsEmpty` iff the email or password is empty, and `hasPassword` iff the password is non-empty. An empty password hides it; otherwise visibility is kept. |
| LoginForm.Toggle | frontend/src/modules/Login/components/LoginForm.tsx:71-145 | With the button shown, visibility flips; without it nothing changes. |
| LoginForm.ToggleTwiceIsIdentity | frontend/src/modules/Login/components/LoginForm.tsx:71-73 | Two toggles restore the state. |
| LoginForm.StepKeepsConsistent | frontend/src/modules/Login/components/LoginForm.tsx:40-145 | Each change or toggle keeps "shown implies present". |
| LoginForm.RunKeepsConsistent | frontend/src/modules/Login/components/LoginForm.tsx:17-73 | Over any sequence of events the password is shown only while there is one. |
| LoginForm.InitialIsConsistent | frontend/src/modules/Login/components/LoginForm.tsx:18-20 | The initial state is consistent and counts the fields as empty. |
| LoginForm.Tick | frontend/src/modules/Login/components/LoginForm.tsx:25-31 | The index steps to the next image and wraps to 0 after the last, staying below the image count. With no images it becomes NaN. |
| LoginForm.TicksCycle | frontend/src/modules/Login/components/LoginForm.tsx:17-31 | After k ticks from 0 the index is k mod n. |
| LoginForm.NoImagesGivesNaN | frontend/src/modules/Login/components/LoginForm.tsx:27 | With no images the index is NaN after any tick. |
| RegisterForm.HandleFormChange | frontend/src/modules/Register/components/RegisterForm.tsx:44-58 | `oneOfFieldsIsEmpty` iff some form value is "". So, outside a submission, the submit button is enabled iff every value is filled; during one it is disabled. |
| RegisterForm.SubmitThenResetIsInitial | frontend/src/modules/Register/components/RegisterForm.tsx:21-42 | A submission followed by the dropdown's reset returns the form to its loading state, and the button is disabled after submit and on load. |
| RegisterForm.LexLeIsTotalPreorder | frontend/src/modules/Register/components/RegisterForm.tsx:19 | The default string order of `sort` is total and transitive. |
| RegisterForm.LexLeAntisymmetric | frontend/src/modules/Register/components/RegisterForm.tsx:19 | Only equal strings are ordered both ways. |
| RegisterForm.SortedCountryNames | frontend/src/modules/Register/components/RegisterForm.tsx:17-19 | The same names as a multiset, in ascending order. |
| RegisterForm.SortedIsUnique | frontend/src/modules/Register/components/RegisterForm.tsx:17-19 | Any two ascending orders of the same names are equal, so the dropdown order depends only on the names. |
| RegisterForm.FormFor | frontend/src/modules/Register/components/RegisterForm.tsx:60-124 | Nothing for an empty role, the tourist form exactly for "Tourist", and the basic form for any other role. |
| GeneralSettings.HandleFormChange | frontend/src/modules/shared/components/GeneralSettings.tsx:32-44 | With values present, `atleastOneFilled` iff some value is non-empty, so outside a submission the update button is enabled iff some value is filled. With no values the flag is unchanged. During a submission the button is disabled. |
| GeneralSettings.SubmitRestoresInitial | frontend/src/modules/shared/components/GeneralSettings.tsx:19-30 | Submitting returns the flag to its loading value, and the update button is then disabled. |
| GeneralSettings.ButtonCount | frontend/src/modules/shared/components/GeneralSettings.tsx:56-87 | Counting the button inside each field's row (at most one field) and the shared one below (several fields): a form with fields has exactly one update button, and one without fields has none. |
| UpdatePopup.IsValid | frontend/src/modules/Category/component/update-popup.tsx:8-11 | The name is valid iff it holds a character that `trim` does not strip. |
| UpdatePopup.ReplaceById | frontend/src/modules/Category/component/update-popup.tsx:46-53 | Same length; the categories with the id become `{_id, name}` and all others stay. |
| UpdatePopup.Click | frontend/src/modules/Category/component/update-popup.tsx:13-58 | An invalid name closes the dialog and changes nothing else. A valid name is sent and cleared afterwards: only a 200 answer replaces the category and closes the dialog, and any other outcome leaves the list and the dialog as they were. |
| UpdatePopup.ReplaceIsIdempotent | frontend/src/modules/Category/component/update-popup.tsx:46-53 | Replacing twice with the same id and name equals replacing once. |
| UpdatePopup.ReplaceMissingIdChangesNothing | frontend/src/modules/Category/component/update-popup.tsx:46-53 | A list without the id is left as it is. |
| UpdatePopup.SuccessfulUpdateRenames | frontend/src/modules/Category/component/update-popup.tsx:41-54 | After a 200 answer the category carries the new name and no other category changed. |
| UpdatePopup.BlankNameCancels | frontend/src/modules/Category/component/update-popup.tsx:8-21 | A name of white space only never reaches the server; the button cancels. |
| TouristProfile.InitialSelection | frontend/src/modules/Tourist/components/TouristProfile.tsx:31-37 | One option per preference (value is the id, label the name), or `[]` without preferences. |
| TouristProfile.OnSelect | frontend/src/modules/Tourist/components/TouristProfile.tsx:148-150 | The tag is appended and the earlier selection is kept. |
| TouristProfile.OnRemove | frontend/src/modules/Tourist/components/TouristProfile.tsx:151-155 | An order-preserving sub-list keeping every occurrence of each option whose value differs from the removed tag's, and no other. |
| TouristProfile.TagIds | frontend/src/modules/Tourist/components/TouristProfile.tsx:40-43 | The ids sent are the selected values, in order. |
| TouristProfile.InitialIdsArePreferenceIds | frontend/src/modules/Tourist/components/TouristProfile.tsx:31-43 | Updating without changes sends the ids of the user's preferences. |
| TouristProfile.RemovedIdIsNotSent | frontend/src/modules/Tourist/components/TouristProfile.tsx:40-155 | After removal the tag's id is not among those sent. |
| TouristProfile.SelectThenRemoveRestores | frontend/src/modules/Tourist/components/TouristProfile.tsx:148-155 | Selecting a new tag and removing it gives back the selection. |
| Strings.Includes | frontend/src/modules/shared/components/MuseumList.tsx:375-378 | `includes` holds iff the needle occurs at some position. |
| Strings.EmptyQueryMatches | frontend/src/modules/shared/components/MuseumList.tsx:375-376 | The empty query is found, ignoring case, in every string. |
| Strings.TrimStart | frontend/src/modules/Category/component/update-popup.tsx:10 | Leading white space is removed: the result is a suffix, every dropped character is white space, and the result does not start with white space. |
| Strings.TrimEnd | frontend/src/modules/Category/component/update-popup.tsx:10 | Trailing white space is removed: the result is a prefix, every dropped character is white space, and the result does not end with white space. |
| Strings.Split | backend/src/controllers/museum.controller.ts:85 | `split` never gives an empty list, no part holds the separator, and joining the parts gives the string back. |
| Strings.SplitJoin | backend/src/controllers/museum.controller.ts:85 | Splitting the join of separator-free parts gives back the parts. |
| Strings.LastSegment | frontend/src/modules/shared/components/MuseumList.tsx:392 | The last segment is a separator-free suffix preceded by the separator, or the whole string. |
| Strings.Trim | frontend/src/modules/Category/component/update-popup.tsx:10 | The trimmed text is empty iff every character is JavaScript white space. |
| Strings.Truncate | frontend/src/modules/shared/components/MuseumList.tsx:121-134 | At most `max + 3` characters; shorter texts are unchanged, longer ones become a prefix plus "...". |
| Strings.TruncateIdempotent | frontend/src/modules/shared/components/MuseumList.tsx:121-134 | Truncating twice equals truncating once. |
| Seqs.Filter | frontend/src/modules/shared/components/ActivityList.tsx:140-156 | `filter` keeps exactly the passing elements, with their multiplicities, in their order. |
| Seqs.FilterAppend | frontend/src/modules/Tourist/components/TouristProfile.tsx:149-153 | Filtering a concatenation filters each part. |
| Sorting.Sort | frontend/src/modules/shared/components/ActivityList.tsx:92 | A sort under a consistent comparator returns a permutation ordered by that comparator. |
| Sorting.SubsequenceOfSorted | frontend/src/modules/shared/components/ActivityList.tsx:92-140 | Any order-preserving sub-list of a sorted list is sorted. |

## Left out

- I/O and framework plumbing is not modelled. This covers:
  - HTTP routing, authentication middleware and `req.currency`;
  - logging, toasts and React rendering;
  - `localStorage`, navigation and `fetch`/`axios`.
  Each call into them is either a parameter or the value it returns.
- Repository behaviour is assumed as specified rather than modelled. The cart repository's update-quantity, add-line and remove writes are given the natural list semantics (`SetQuantity`, append, filter). Whether a user read or a write rejects is an input. A rejected write is taken to leave the stored cart as it was. The cart repository itself is not part of this model.
- The user schema in `backend/src/database/models/user.model.ts` declares no `cart` field. The corrected cart handlers assume the user record exposes its cart.
- CartController.LocaliseLines: the conversions of `Promise.all` run concurrently, and the rejection that surfaces is the first in time. The model reports the first failure in list order.
- MuseumController.LocaliseAll: the same concurrency caveat applies.
- Floating point is not modelled. Converted prices, the 0.9 rate of the example, and ratings drawn by `Math.random()` are integers. The random draw is a parameter whose value lies in 0..4.
- NaN comparisons are modelled only where they decide a branch: the missing-quantity finding and the carousel with no images.
- Other museum handlers (`getMuseumsCreatedByUser`, get-by-id, update, delete) are not part of this model. The same holds for `getTags` in the museum list page and the remaining `NewProf` handlers: redeem points, profile picture, account deletion.
- Other files are context only and are not part of this model: `SendOTPForm.tsx`, `ProductForm.tsx`, `AllMuseums.tsx`, `App.tsx`, `activity.route.ts`, `activity.repo.ts`, `itinerary.repo.ts` and the rest of `user.repo.ts`.
- ActivityList.FormatActivity: `toLocaleDateString`/`toLocaleTimeString` are parameters. The date filter's `new Date(a) >= new Date(b)` is a parameter of the filter, so date parsing is not modelled.
- Strings.Lower: lower-cases ASCII letters only, whereas `toLowerCase` maps all of Unicode.
- RegisterForm.SortedCountryNames: compares characters as Unicode scalar values. JavaScript compares UTF-16 code units, and the two orders differ for characters outside the Basic Multilingual Plane.
- Strings.Truncate: counts characters, whereas `.length` counts UTF-16 code units.
- MuseumList.FormatLocation, MuseumList.FormatDescription and ActivityList.FormatText: they inherit the same difference from Strings.Truncate. A text with characters outside the Basic Multilingual Plane is cut at a different place.
- Validator.ValidatePassword: the length counts characters, whereas `password.length` counts UTF-16 code units. A password such as four emoji followed by a digit has a JavaScript length of 9 and is accepted by the code, but the model sees 5 characters and rejects it.
- Sorting.Sort: proves a permutation that is ordered. That `Array.prototype.sort` is stable is a property of the engine and is not claimed.
- NewProf.FieldFor: keys inherited from `Object.prototype` (such as `constructor`) are not modelled. On the plain object `fieldsMap` such a key is truthy and would be used as the renamed key.
- NewProf.Save: the endpoint's status and the user merge are modelled by `AfterEndpoint`. A rejected endpoint call is only logged, so it leaves the user unchanged, as a non-200 status does. Whether `updatePassword` rejects is an input; what the caller of the rejected handler does is not modelled.
- NewProf.Adjust: the code deletes `dob` only when it is truthy (`NewProf.tsx:157`), so an empty `dob` stays in the payload. The model follows the code, not the stronger "always removed" reading.
- MuseumController.ParseTagIds: `tagIds=` (an empty string) yields `[""]` and passes the emptiness check. It fails later in the `ObjectId` constructor, not with "Invalid or missing tagIds parameter". The model follows the code.
- NotificationBell.HandleMarkAsRead: the request is sent even without an id. The model follows the code.
- GeneralSettings.IsSeller: only decides which layout is rendered. The layout itself is not modelled.

## Findings

| source | as written | input that shows it | evidently intended | confidence | as-written member | corrected member |
|---|---|---|---|---|---|---|
| backend/src/database/repositories/user.repo.ts:8 with backend/src/controllers/cart.controller.ts:42-44,77-78 | `findUserById` returns `User.find(...)`, a list, so `user?.cart` is always undefined. `addProduct` therefore always appends a new line, and `removeProduct` always fails. | a cart `[p×2]`, then adding `p×3`: the result is `[p×2, p×3]`, two lines for one product | look up the user's own record, so that an existing line is updated and an existing product can be removed | not executed; high (the array has no `cart` property) | CartController.AsWrittenAddDuplicatesLine, CartController.AddProductAsWritten, CartController.RemoveProductAsWritten | CartController.AddProduct, CartController.AddProductKeepsOneLinePerProduct, CartController.RemoveProduct, CartController.RemoveProductDropsOnlyThatProduct |
| backend/src/controllers/cart.controller.ts:46 | `stock < quantity \|\| quantity <= 0` rejects. A missing `quantity` makes both comparisons false (NaN), so the request passes the guard. | a body `{productId: "p"}` without `quantity`, for a product with stock 5: the answer is 201 and a line without a quantity is appended | reject any request without a positive quantity within stock | not executed; high | CartController.MissingQuantityAddedAsWritten, CartController.MissingQuantityPassesGuardAsWritten, CartController.AddProductAsWritten | CartController.AddProduct, CartController.AddProductOn |
