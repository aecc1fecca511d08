# MoraShelf client-side state layer, modelled in Dafny

MoraShelf is a mobile reading companion. The model covers its client-side state layer:
- the three Redux slices for favorites, notes and the auth session, each mirrored into on-device key-value storage;
- the catalog helpers that project search responses down to the five-field book record and build cover URLs;
- the data that the recommendations screen derives from favorites and recently viewed books.

Modules, one per source file or shared concept:

- `Wrappers` (`wrappers.dfy`): `Option` for JavaScript `null`/`undefined`, `Result` for calls that may throw.
- `Entities` (`entities.dfy`): the `Book`, `Note` and `User` records. `AuthorField` tells apart a missing `author_name`, an array of names, and some other value.
- `Storage` (`storage.dfy`): the key-value store as a class holding a `map<string, Blob>`. JSON is an abstract encoding. `Stringify` always parses back, and `Parse` fails (`None`) exactly on malformed text.
- `Catalog` (`catalog.dfy`, from `src/services/api.js`): `searchBooks` takes the HTTP GET as a function parameter. `getCoverUrl` follows JavaScript truthiness on the cover id.
- `Favorites`, `Notes`, `Auth` (from `src/store/slices/*.js`): one class per slice, with the slice state as fields and a `const storage` reference. Each reducer is a method. Its `ensures` ties the new state to a pure function of the old state (`Toggle`, `Upsert`, `Remove`, `Reduce`) and gives the exact new storage contents. The lemmas about those functions state what the slice promises.
- `Recommendations` (from `fetchRecommendations` in `src/screens/recommendations/RecommendationsScreen.js`): the nested author-collecting loop is a method proved against `Discovered`. `Discovered` is a fold of `AppendNew`, which models `Set.add` on an insertion-ordered JavaScript `Set`. The exclude-key set and the screen-state outcome are also here. `getRecommendations` is a function parameter. The method returns the list of requests it made, so "never called" can be stated.

The model follows the code, including where its behaviour may be unexpected:
- Toggling a favorite twice is not always a no-op. When the key was present, the book given is appended at the end (`ToggleTwiceWhenPresent`, `ToggleTwiceReorders`).
- `addOrUpdateNote` stores empty text; nothing rejects it.
- `getCoverUrl` returns no URL for cover id `0` as well as for a missing id.
- The screen passes every distinct author to `getRecommendations` (RecommendationsScreen.js:41). That function's body is not in the source, so no cap on authors is modelled.

## Model

| member | source | states |
|---|---|---|
| Storage.Stringify | src/store/slices/favoritesSlice.js:33 | a serialized value always parses back to itself |
| Storage.Parse | src/store/slices/favoritesSlice.js:8 | parsing fails exactly on malformed text, and a successful parse gives the value that was serialized |
| Storage.Lookup | src/store/slices/favoritesSlice.js:7 | `getItem` on a snapshot: a blob exactly when the key is stored, and then the stored one |
| Storage.KeyValueStore.GetItem | src/store/slices/favoritesSlice.js:7 | returns `Lookup` of the current entries: the stored blob, or nothing for a missing key |
| Storage.KeyValueStore.SetItem | src/store/slices/favoritesSlice.js:33 | overwrites exactly one key |
| Storage.KeyValueStore.RemoveItem | src/store/slices/authSlice.js:32 | removes exactly one key |
| Catalog.ToBook | src/services/api.js:21-27 | the object literal copies exactly the five fields key, title, author_name, cover_i, first_publish_year |
| Catalog.ToBookIgnoresExtraFields | src/services/api.js:21-27 | extra upstream fields never reach the book record |
| Catalog.ProjectDocs | src/services/api.js:21-27 | same length and order as `docs`; the i-th book's key, title, author_name, cover_i and first_publish_year are those of `docs[i]`, and `Book` has no other fields |
| Catalog.SearchBooks | src/services/api.js:9-34 | a failed request is rethrown, not turned into `[]`; a response without `data` or `docs` gives `[]`; otherwise the projection of `docs` |
| Catalog.SearchWithoutDocsIsEmpty | src/services/api.js:20-29 | a response lacking `data` or `docs` yields an empty list, not an error |
| Catalog.DecimalString | src/services/api.js:39 | the `${coverId}` rendering of a safe integer; it always reads back as the same number |
| Catalog.CoverUrl | src/services/api.js:37-43 | a URL exactly when the id is present and non-zero, whatever the size; then it is prefix + id + "-" + size + ".jpg" |
| Catalog.CoverUrlRoundTrip | src/services/api.js:38-39 | the id can be read back from the URL built for it |
| Catalog.CoverUrlInjective | src/services/api.js:39 | distinct ids give distinct URLs of one size |
| Catalog.DefaultCoverSizeIsMedium | src/services/api.js:37 | for every cover id, leaving out the size is the same as size "M" |
| Favorites.FindIndex | src/store/slices/favoritesSlice.js:22 | the first index with the key, or -1 iff no item has it |
| Favorites.Toggle | src/store/slices/favoritesSlice.js:22-30 | the list after `toggleFavorite`: one shorter when the key was present, one longer when absent, and no book in it except old items and the given book |
| Favorites.FavoritesPayload | src/store/slices/favoritesSlice.js:5-12 | `[]` for a missing key or a parse failure; a stored list reads back as itself |
| Favorites.FavoritesStore.constructor | src/store/slices/favoritesSlice.js:16-18 | the list starts empty |
| Favorites.FavoritesStore.FindExisting | src/store/slices/favoritesSlice.js:22 | the linear scan returns `FindIndex`: the first index with the key, or -1 iff there is none |
| Favorites.FavoritesStore.ToggleFavorite | src/store/slices/favoritesSlice.js:20-34 | the new list is `Toggle` of the old one, and the whole new list is written under '@user_favorites' |
| Favorites.FavoritesStore.LoadFavorites | src/store/slices/favoritesSlice.js:5-12 | the thunk's result is the stored list, or `[]` when it is missing or unreadable |
| Favorites.FavoritesStore.LoadFulfilled | src/store/slices/favoritesSlice.js:37-39 | `fulfilled` replaces the list wholesale with the payload |
| Favorites.ToggleAppendsWhenAbsent | src/store/slices/favoritesSlice.js:27-29 | with the key absent, the book is appended at the end and earlier items stay in place |
| Favorites.ToggleRemovesFirstMatch | src/store/slices/favoritesSlice.js:22-26 | with the key present, only the first match is removed; the list shrinks by one and the rest keep their order |
| Favorites.ToggleFlipsMembership | src/store/slices/favoritesSlice.js:22-30 | with unique keys, the book's key is present afterwards iff it was absent before |
| Favorites.ToggleKeepsOtherKeys | src/store/slices/favoritesSlice.js:22-30 | no other key's presence changes |
| Favorites.TogglePreservesUniqueKeys | src/store/slices/favoritesSlice.js:22-30 | toggle keeps keys unique |
| Favorites.ToggleTwiceWhenAbsent | src/store/slices/favoritesSlice.js:22-29 | toggling an absent book twice restores the list |
| Favorites.ToggleTwiceWhenPresent | src/store/slices/favoritesSlice.js:22-29 | toggling a present book twice removes it from its place and appends the given book at the end |
| Favorites.ToggleTwiceReorders | src/store/slices/favoritesSlice.js:22-29 | a two-book list where the double toggle changes the order |
| Favorites.ToggleKeepsMirror | src/store/slices/favoritesSlice.js:33 | after a toggle, reloading from storage gives the new list |
| Favorites.LoadFallsBackToEmpty | src/store/slices/favoritesSlice.js:5-12 | a missing or unparseable entry loads as `[]` |
| Notes.Upsert | src/store/slices/notesSlice.js:23-28 | the key maps to `{text, updatedAt: now}` (empty text included); every other key's note is unchanged; no key is lost |
| Notes.Remove | src/store/slices/notesSlice.js:32-34 | the key is gone, other entries are unchanged, and deleting an absent key changes nothing |
| Notes.NotesPayload | src/store/slices/notesSlice.js:7-15 | `{}` for a missing key or a parse failure; a stored map reads back as itself |
| Notes.NotesStore.constructor | src/store/slices/notesSlice.js:19-21 | the map starts empty |
| Notes.NotesStore.AddOrUpdateNote | src/store/slices/notesSlice.js:23-31 | the new map is the upsert of the old one, and it is written under '@user_book_notes' |
| Notes.NotesStore.DeleteNote | src/store/slices/notesSlice.js:32-37 | the new map is the old one without the key, and it is written under '@user_book_notes' |
| Notes.NotesStore.LoadNotes | src/store/slices/notesSlice.js:7-15 | the thunk's result is the stored map, or `{}` when it is missing or unreadable |
| Notes.NotesStore.LoadFulfilled | src/store/slices/notesSlice.js:40-42 | `fulfilled` replaces the map wholesale |
| Notes.UpsertLastWriteWins | src/store/slices/notesSlice.js:25-28 | a second upsert on a key overwrites the first |
| Notes.UpsertThenRemove | src/store/slices/notesSlice.js:25-34 | upsert then delete leaves the key absent and the rest as before |
| Notes.RemoveIdempotent | src/store/slices/notesSlice.js:34 | deleting twice is the same as deleting once |
| Notes.LoadFallsBackToEmpty | src/store/slices/notesSlice.js:7-15 | a missing or unparseable entry loads as `{}` |
| Auth.Reduce | src/store/slices/authSlice.js:22-39 | every transition ends loading; login sets the user, logout clears it, `loadUser.fulfilled` sets the payload |
| Auth.Persist | src/store/slices/authSlice.js:22-33 | login stores the user under '@user_session', logout removes the key, load leaves storage alone |
| Auth.SessionPayload | src/store/slices/authSlice.js:5-13 | no user for a missing key or a parse failure; a stored user reads back as itself |
| Auth.AuthStore.constructor | src/store/slices/authSlice.js:17-20 | the initial state is no user, loading |
| Auth.AuthStore.LoginSuccess | src/store/slices/authSlice.js:22-27 | sets the user, ends loading, stores the user |
| Auth.AuthStore.LogoutUser | src/store/slices/authSlice.js:28-33 | clears the user, ends loading, removes the stored session |
| Auth.AuthStore.LoadUser | src/store/slices/authSlice.js:5-13 | the thunk's result is the stored user, or none when it is missing or unreadable |
| Auth.AuthStore.LoadUserFulfilled | src/store/slices/authSlice.js:36-39 | sets the user to the payload and ends loading |
| Auth.LoadingUntilFirstAction | src/store/slices/authSlice.js:22-39 | after any non-empty sequence of actions, loading is false |
| Auth.InitialIsLoadingOnlyBeforeActions | src/store/slices/authSlice.js:17-39 | from the initial state, loading holds iff no action has run |
| Auth.ActionsKeepMirror | src/store/slices/authSlice.js:22-39 | each transition leaves the in-memory user equal to what a reload would read; load counts when its payload came from storage |
| Auth.RunKeepsMirror | src/store/slices/authSlice.js:22-33 | any run of logins and logouts from a mirrored state stays mirrored |
| Auth.LoginThenLoadReadsBack | src/store/slices/authSlice.js:7-26 | login followed by `loadUser` reads the user back |
| Auth.LogoutThenLoadReadsNothing | src/store/slices/authSlice.js:7-32 | logout followed by `loadUser` reads no user |
| Recommendations.CollectAuthors | src/screens/recommendations/RecommendationsScreen.js:22-28 | the nested loop yields exactly `Discovered(favorites ++ recentlyViewed)`: no duplicates, and an author is present iff some book's `author_name` array names it |
| Recommendations.AppendNew | src/screens/recommendations/RecommendationsScreen.js:25 | `Set.add` in insertion order: what the set already holds stays, in place, at the front |
| Recommendations.Discovered | src/screens/recommendations/RecommendationsScreen.js:23-28 | `Array.from(authorsSet)` after the nested loop: the collected authors have no duplicates |
| Recommendations.DiscoveredMembers | src/screens/recommendations/RecommendationsScreen.js:23-27 | an author is collected iff it occurs in the `author_name` array of some book |
| Recommendations.DiscoveredEmptyIff | src/screens/recommendations/RecommendationsScreen.js:23-30 | no authors are collected iff no book contributes a name |
| Recommendations.DiscoveredExtends | src/screens/recommendations/RecommendationsScreen.js:23-28 | visiting more books only appends authors |
| Recommendations.FavoritesAuthorsFirst | src/screens/recommendations/RecommendationsScreen.js:23-28 | together with `DiscoveredExtends`, all favorites' authors come first: each later author is named by no favorite |
| Recommendations.LaterAuthorsComeFromRecentlyViewed | src/screens/recommendations/RecommendationsScreen.js:23-28 | each author after the favorites' authors is named by some recently viewed book |
| Recommendations.SkipsBooksWithoutAuthorArray | src/screens/recommendations/RecommendationsScreen.js:24 | a book whose `author_name` is missing or not an array contributes nothing, wherever it stands |
| Recommendations.KeysOf | src/screens/recommendations/RecommendationsScreen.js:39 | the `map(book => book.key)`: same length, i-th key is the i-th book's |
| Recommendations.ExcludeKeys | src/screens/recommendations/RecommendationsScreen.js:39 | no duplicates, and a key is excluded iff some book in either list has it |
| Recommendations.FetchRecommendations | src/screens/recommendations/RecommendationsScreen.js:18-56 | `showError` defaults to true; no authors: books `[]`, no service call, error only when `showError`; otherwise one call with the authors and exclude keys; a null or empty result gives `[]` and, only when `showError`, the no-results message; a throw keeps the books and always sets the failure message; loading and refreshing end false |

## Left out

- AsyncStorage is asynchronous, and its writes are fire-and-forget. Here every read and write is synchronous, so the order in which pending writes land is not modelled.
- A rejected `getItem` is not a separate case. It falls back to the same empty value that a missing key gives.
- JSON is abstract: `Stringify` wraps the value. A stored text that is valid JSON of another shape would pass into state unchanged in JavaScript; the model treats it like a parse failure.
- Favorites.FavoritesPayload: a well-formed entry of another shape gives `[]`, not the foreign value, for the reason above.
- Notes.NotesPayload: a well-formed entry of another shape gives `{}`, for the reason above.
- Auth.SessionPayload: a well-formed entry of another shape gives no user, for the reason above.
- The HTTP transport (axios) is the `get` parameter of `SearchBooks`.
- `getRecommendations` is the function parameter of `FetchRecommendations`. Its body is not part of this model, so its per-author fan-out and its caps are not modelled.
- Catalog.CoverUrl: covers only integer ids or a missing id. JavaScript's other falsy or non-numeric values (NaN, strings) are not modelled. Ids are taken to be safe integers (|id| < 2^53); larger numbers render differently in JavaScript (rounded, or in exponent form from 1e21 on).
- `author_name` elements are taken to be strings, and `key` is taken to be present.
- `new Date().toISOString()` is the `now` parameter of `AddOrUpdateNote`.
- console logging and `Alert.alert` in the recommendations screen are not modelled (presentation).
- The recently-viewed slice is not part of this model. Its contents enter only as the `recentlyViewed` list.
- `src/store/store.js` and `App.js` are Redux wiring. The dispatch of a load thunk's result to its `fulfilled` reducer is two separate operations here (`LoadFavorites` then `LoadFulfilled`).
- Rendering, navigation, theming and the login/register screens are not modelled. The register and login screens are stubs.
- The source has no out-of-order search guard, no debounced persistence, no shadow user registry and no empty-note rejection, so none of these is modelled.
