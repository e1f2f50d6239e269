# QuoteVault client state, in Dafny

A model of the client-side bookkeeping of the QuoteVault iOS app: the view models that hold the
paginated quote feed, the user's favourites, the session, and the designed-quote save flags, plus
the quote-of-the-day selector and the `Quote` / `BackgroundStyle` models they use.

Every call into the backend (`client.from(...)...execute()`) or the auth service (`client.auth.*`)
is replaced by an `Outcome` value, `Ok(payload)` or `Err(msg)`, that the caller passes in; each
`async` method is one atomic step. The view models that update their fields in place are classes
with those fields; the feed and the favourites list also have a pure specification function
(`QuoteFeed.Fetch`, `Favorites.Toggled`) which the methods are proved equal to and about which the
lemmas are proved.

Files, one module each:

- `outcomes.dfy` — `Option` and `Outcome`.
- `quote.dfy` — `Quote`, a 128-bit `Uuid`, and the synthesized `Equatable`.
- `background_style.dfy` — the `BackgroundStyle` enum: raw values, `allCases`, `id`, `title`.
- `quote_of_day.dfy` — `quoteForToday(from:)`, with the day-of-year ordinal as a parameter.
- `quote_feed.dfy` — `QuoteViewModel`: paging with a cursor, reset, has-more guard.
- `favorites.dfy` — `FavoritesViewModel`: load, membership, toggle, add, remove.
- `auth.dfy` — `AuthViewModel`: session check, login, signup, logout.
- `design_quote.dfy` — `DesignQuoteViewModel`: payload construction and save flags.

Where the code does something one might not expect, the model follows the code:

- Quotes compare by all four fields (Swift's synthesized `==`), not by id; the string fields are
  compared character by character (see `Quotes.Equal` under "Left out"). So `isFavorite` and the
  removal after a delete use full equality. A copy of a quote with the same id and edited text is a
  different favourite (`Favorites.EditedCopyIsNotFavorite`).
- `refresh()` always fetches with no category filter, whatever filter was in use.
- `fetchQuotes` returns nothing and never clears `errorMessage` on success.
- Favourites errors are only printed. They are not reported to the caller.
- `addFavorite` appends unconditionally. Duplicates are avoided only because `toggleFavorite` adds
  a quote only when it is not already in the list.
- Nothing discards a result that arrives after logout.

## Model

| member | source | states |
|---|---|---|
| `Quotes.Equal` | QuoteValut/Models/Quote.swift:3-7 | synthesized `==` holds iff all four fields are equal, which is value equality of the record; equal quotes share an id |
| `Quotes.SameIdIsNotEnough` | QuoteValut/Models/Quote.swift:3-7 | the same `id` with different text is not equal: equality is not id-only |
| `BackgroundStyles.BackgroundStyle.RawValue` | QuoteValut/Models/backgroundStyle.swift:3-4 | each raw value is a non-empty lower-case word (the case name) |
| `BackgroundStyles.BackgroundStyle.Id` | QuoteValut/Models/backgroundStyle.swift:6 | `id` identifies its style: reading it back as a raw value yields that style |
| `BackgroundStyles.BackgroundStyle.Title` | QuoteValut/Models/backgroundStyle.swift:8-10 | the title is the raw value with its first letter upper-cased and the rest unchanged |
| `BackgroundStyles.FromRawValue` | QuoteValut/Models/backgroundStyle.swift:3-4 | `init(rawValue:)` yields a style whose raw value is the input, and `nil` exactly when no style has that raw value |
| `BackgroundStyles.AllCasesListsEachStyleOnce` | QuoteValut/Models/backgroundStyle.swift:3-4 | `allCases` holds every style, without repetition, in declaration order (minimalist first, monolith last) |
| `BackgroundStyles.RawValueRoundTrip` | QuoteValut/Models/backgroundStyle.swift:3-4 | `BackgroundStyle(rawValue: s.rawValue) == s`, and distinct styles have distinct raw values |
| `BackgroundStyles.NatureTitle` | QuoteValut/Models/backgroundStyle.swift:8-10 | the title of `nature` is `"Nature"` |
| `BackgroundStyles.Capitalized` | QuoteValut/Models/backgroundStyle.swift:9 | `capitalized` keeps the length, upper-cases the first letter of each space-separated word and lower-cases the others |
| `BackgroundStyles.CapitalizedLowerWord` | QuoteValut/Models/backgroundStyle.swift:9 | on a single lower-case word `capitalized` changes only the first letter |
| `QuoteOfDay.QuoteForToday` | QuoteValut/Notification/quoteofthedaymanager.swift:8-14 | `nil` iff the list is empty; otherwise a member of the list, the one at `day % count` |
| `QuoteOfDay.DayIndex` | QuoteValut/Notification/quoteofthedaymanager.swift:11-12 | the index is always in range, so the subscript cannot trap; a missing ordinal gives index 0; a day below the count is its own index |
| `QuoteOfDay.DayFortySevenOfThree` | QuoteValut/Notification/quoteofthedaymanager.swift:8-14 | `[A, B, C]` on day 47 gives `C` |
| `QuoteOfDay.MissingDayShowsFirst` | QuoteValut/Notification/quoteofthedaymanager.swift:11-13 | with no day ordinal the first quote is selected |
| `QuoteOfDay.SelectionCycles` | QuoteValut/Notification/quoteofthedaymanager.swift:12-13 | the choice repeats every `count` days, and the next day shows the next quote, wrapping at the end |
| `QuoteFeed.AfterReset` | QuoteValut/ViewModels/QuoteViewModel.swift:18-22 | `reset` empties `quotes`, zeroes `offset` and sets `hasMore`; without `reset` nothing changes |
| `QuoteFeed.Request` | QuoteValut/ViewModels/QuoteViewModel.swift:24-38 | a query is issued iff the guard passes; it carries the category filter and asks for `pageSize` rows starting at the cursor (0 after a reset) |
| `QuoteFeed.Fetch` | QuoteValut/ViewModels/QuoteViewModel.swift:17-51 | an exhausted feed that is not reset is unchanged. Success appends the page in order, advances the cursor by its length and keeps `hasMore` iff the page was full. Failure keeps quotes, cursor and `hasMore` and sets the error. `isLoading` ends false and the cursor stays within the requested range |
| `QuoteFeed.FetchKeepsCursor` | QuoteValut/ViewModels/QuoteViewModel.swift:15-43 | the cursor equals the number of quotes initially and after every fetch |
| `QuoteFeed.ShortPageEndsFeed` | QuoteValut/ViewModels/QuoteViewModel.swift:24-44 | a short or empty page sets `hasMore` false, and further non-reset fetches change nothing |
| `QuoteFeed.ResetDropsEarlierQuotes` | QuoteValut/ViewModels/QuoteViewModel.swift:18-43 | after a successful reset the feed holds exactly the new page, so nothing fetched under an earlier filter remains |
| `QuoteFeed.FetchPagesConcatenates` | QuoteValut/ViewModels/QuoteViewModel.swift:42-44 | successive full pages then a last page: quotes are the old ones followed by all pages in order, the cursor grows by their total length, and `hasMore` depends on the last page |
| `QuoteFeed.ExhaustedFeedIgnoresPages` | QuoteValut/ViewModels/QuoteViewModel.swift:24 | once `hasMore` is false, any number of non-reset fetches leave the state unchanged |
| `QuoteFeed.QuoteViewModel.constructor` | QuoteValut/ViewModels/QuoteViewModel.swift:8-15 | initial state: no quotes, cursor 0, `hasMore`, not loading, no error |
| `QuoteFeed.QuoteViewModel.FetchQuotes` | QuoteValut/ViewModels/QuoteViewModel.swift:17-51 | the fields become `Fetch` of the old state, the query issued is `Request`, and the cursor still equals the number of quotes |
| `QuoteFeed.QuoteViewModel.Refresh` | QuoteValut/ViewModels/QuoteViewModel.swift:53-57 | a reset fetch with no category filter for rows 0 to 9, ending with `isRefreshing` false |
| `Favorites.Contains` | QuoteValut/ViewModels/FavoritesViewModel.swift:54-56 | `contains` holds iff some element is `==` to the quote |
| `Favorites.RemoveAll` | QuoteValut/ViewModels/FavoritesViewModel.swift:86 | `removeAll { $0 == q }` leaves no copy of `q`, keeps every other element with its multiplicity, and changes nothing when `q` is absent |
| `Favorites.RemoveAllConcat` | QuoteValut/ViewModels/FavoritesViewModel.swift:86 | removal distributes over concatenation, so the survivors keep their relative order |
| `Favorites.RemoveAllNoDuplicates` | QuoteValut/ViewModels/FavoritesViewModel.swift:86 | removal keeps a list free of duplicates |
| `Favorites.QuoteIds` | QuoteValut/ViewModels/FavoritesViewModel.swift:26 | the id list has one `quote_id` per row, in row order |
| `Favorites.Toggled` | QuoteValut/ViewModels/FavoritesViewModel.swift:46-90 | a failed insert or delete changes nothing. A confirmed toggle flips membership of the quote and leaves every other quote's occurrences alone. A confirmed insert appends the quote after the unchanged list |
| `Favorites.ToggleTwiceRestores` | QuoteValut/ViewModels/FavoritesViewModel.swift:47-50 | two confirmed toggles of a non-favourite restore the exact prior list |
| `Favorites.ToggledKeepsNoDuplicates` | QuoteValut/ViewModels/FavoritesViewModel.swift:46-90 | a duplicate-free list stays duplicate-free after any toggle |
| `Favorites.EditedCopyIsNotFavorite` | QuoteValut/ViewModels/FavoritesViewModel.swift:54-56 | a list holding a same-id quote with other text does not make the quote a favourite, and toggling appends it beside that copy |
| `Favorites.FavoritesViewModel.constructor` | QuoteValut/ViewModels/FavoritesViewModel.swift:8-9 | starts with no favourites, not loading |
| `Favorites.FavoritesViewModel.IsFavorite` | QuoteValut/ViewModels/FavoritesViewModel.swift:54-56 | true iff some element of `favoriteQuotes` is `==` to the quote |
| `Favorites.FavoritesViewModel.LoadFavorites` | QuoteValut/ViewModels/FavoritesViewModel.swift:14-43 | the rows query filters on the given user. No rows: the list is emptied and no quotes query is issued. Otherwise the query asks for the rows' quote ids, and the list is replaced wholesale on success and unchanged on either failure. `isLoading` is false on exit |
| `Favorites.FavoritesViewModel.ToggleFavorite` | QuoteValut/ViewModels/FavoritesViewModel.swift:46-52 | the list becomes `Toggled` of the old list; the row key is `(userId, quote.id)` |
| `Favorites.FavoritesViewModel.AddFavorite` | QuoteValut/ViewModels/FavoritesViewModel.swift:59-74 | a confirmed insert appends the quote; a failed one changes nothing |
| `Favorites.FavoritesViewModel.RemoveFavorite` | QuoteValut/ViewModels/FavoritesViewModel.swift:77-91 | a confirmed delete removes every copy of the quote; a failed one changes nothing |
| `Auth.SignInResult` | QuoteValut/ViewModels/AuthViewModel.swift:42-55 | the do-block succeeds iff both the sign-in call and the session read succeed, yielding the session's user; otherwise the first error |
| `Auth.AuthViewModel.constructor` | QuoteValut/ViewModels/AuthViewModel.swift:9-13 | starts signed out, not loading, no error, no user |
| `Auth.AuthViewModel.CheckSession` | QuoteValut/ViewModels/AuthViewModel.swift:26-35 | authenticated with the session's user iff a session exists, otherwise signed out with no user; the other fields are untouched |
| `Auth.AuthViewModel.Login` | QuoteValut/ViewModels/AuthViewModel.swift:38-58 | success: the session user, authenticated, no error. Failure: the error, not authenticated, user id untouched. `isLoading` ends false |
| `Auth.AuthViewModel.Signup` | QuoteValut/ViewModels/AuthViewModel.swift:61-81 | the same transitions as `Login`, driven by the sign-up call |
| `Auth.AuthViewModel.Logout` | QuoteValut/ViewModels/AuthViewModel.swift:84-92 | a confirmed sign-out clears authentication and user; a failed one changes no field |
| `DesignQuote.AlignmentString` | QuoteValut/ViewModels/DesignquoteViewModel.swift:56-67 | leading, trailing and center map to their names; any other alignment maps to `"center"` |
| `DesignQuote.FormatString` | QuoteValut/ViewModels/DesignquoteViewModel.swift:37 | `"square"` iff square, `"story"` otherwise |
| `DesignQuote.Payload` | QuoteValut/ViewModels/DesignquoteViewModel.swift:28-38 | no id, the given user, the quote's text, author and category unchanged, the style's raw value (which reads back as the style), the font size, and the alignment and format strings |
| `DesignQuote.DesignQuoteViewModel.constructor` | QuoteValut/ViewModels/DesignquoteViewModel.swift:8-10 | starts not saving, not successful, no error |
| `DesignQuote.DesignQuoteViewModel.SaveDesignedQuote` | QuoteValut/ViewModels/DesignquoteViewModel.swift:15-53 | inserts `Payload`. Success sets `saveSuccess` and leaves no error; failure sets the error and leaves `saveSuccess` false. `isSaving` ends false |

## Left out

- SwiftUI views, layout, gradients (`BackgroundStyle.background`), image rendering and sharing, and `AppStorage`: presentation only.
- Supabase query building and transport, and `client.auth.*`: foreign calls, replaced by `Outcome` parameters. Credentials only travel to the auth service, so `login` and `signup` take no email or password.
- `NotificationManager` and the widget and live-activity targets: operating-system side effects.
- `Calendar.current.ordinality`: locale-dependent calendar arithmetic. The day-of-year ordinal is an `Option<nat>` parameter, because the calendar never yields a negative ordinal.
- `@MainActor`, `Task`, `async`/`await` and `@Published`: concurrency and observation plumbing. Only sequential calls are modelled. The `Task` that `AuthViewModel.init` starts is the separate step `CheckSession`.
- The states inside one call: each `async` method is one atomic step, so the moment while a call is in flight (`isLoading`, `isSaving` or `isRefreshing` true, `errorMessage` already cleared) is set and reset in the method bodies but is not a state any contract can observe.
- Codable and JSON decoding: library behaviour. `DesignedQuote` is a datatype. `Favorite` appears only as the `quote_id` projection `FavoriteRow` and the key `FavoriteKey`.
- `DesignQuote.Payload`: `font_size` is taken as the already truncated integer, because `Int(fontSize)` on a `CGFloat` is floating point.
- `BackgroundStyles.Capitalized`: models `capitalized` for ASCII letters, with a space as the only word separator. Unicode case mapping and other word boundaries are library behaviour. The raw values are plain lower-case ASCII words, so the titles are unaffected.
- `Quotes.Equal`: the `String` fields are compared as sequences of Unicode scalars, not by Swift's canonical equivalence, so a text with a precomposed `é` and the same text with `e` plus a combining accent are equal in Swift and unequal here. `Favorites.Contains`, `Favorites.FavoritesViewModel.IsFavorite`, `Favorites.RemoveAll` and `Favorites.Toggled` inherit this; Unicode normalisation is library behaviour.
- `QuoteOfDayManager.shared`: a singleton holder with no state.
