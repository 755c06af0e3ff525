# Pokexplore list screen, modelled in Dafny

The list screen of Pokexplore lets a user browse a roster of 151 Pokemon. The
user can search by name, tick one or more types, clear the types, and page
through the results twelve at a time with "Load More". Its filters live in
the page address as two parameters: `search` holds the raw search text, and
`type` holds the selected type names joined with commas. The number of
visible cards is local state. What is shown is worked out again on every
render from the roster query, one membership query per selected type, the
search term and that window size.

This project turns that logic into pure functions over immutable values:

- `seqs.dfy` (`Seqs`): order-preserving filtering (`Keep`, `Without`), the
  prefix slice (`Take`) and the subsequence relation with its laws.
- `text.dfy` (`Text`): ASCII lower-casing, substring search (`Includes`), and
  `Split`/`Join` on a separator character.
- `queries.dfy` (`Queries`): the state of one query
  (`Loading | Failed(message) | Loaded(value)`), the union of the loaded
  membership lists, and the any-loading and first-error reductions.
- `address.dfy` (`Address`): reading and writing the two address parameters.
- `list_screen.dfy` (`ListScreen`): the screen state (address plus window
  size), the four user events and history navigation.
- `list_view.dfy` (`ListView`): the derived base list, search result, visible
  cards, "Load More" flag, combined loading/error state, and the panel shown.

Two behaviours of the code matter for reading the model:

- Multiple selected types combine as a **union**. An entry is kept when any
  loaded membership list names it.
- With types selected, the first failed type query's error is reported, and
  the roster's error only when no type query failed.

Besides the four events on the page, the model has a fifth: moving through
the browser history between two addresses of the list screen. Both
addresses are on the route `/`, which keeps the same page mounted
(src/App.tsx:9), so the address changes while the window size stays as it
was. Coming back from a detail page is different. A card links to the
detail route (src/components/PokemonCard.tsx:12-13, src/App.tsx:10), and
going Back from there mounts the list screen afresh with a window of 12
(src/pages/IndexPage.tsx:69). The model writes that as `Open`, not as a
navigation event.

## Model

| member | source | states |
|---|---|---|
| Address.SearchTerm | src/pages/IndexPage.tsx:64 | The search term is the `search` parameter's value when present and empty when absent. |
| Address.DecodeTypes | src/pages/IndexPage.tsx:65-66 | Decoding `type` gives `[]` for an empty parameter and the parameter itself when it has no comma. The names are exactly the non-empty comma-separated fields, and each is non-empty and comma-free. |
| Address.SelectedTypes | src/pages/IndexPage.tsx:65-66 | The selection is the decoding of the `type` parameter when present and `[]` when absent. It holds only valid names. |
| Address.EncodeTypes | src/pages/IndexPage.tsx:80 | Joining no names gives the empty parameter. Joining a non-empty list of valid names gives a non-empty string that splits back into exactly those names. |
| Address.Restate | src/pages/IndexPage.tsx:80 | Setting the parameters leaves exactly `search` and `type` in the address, and reading them back gives the given search term and the decoding of the given type parameter. |
| Address.DecodeEncode | src/pages/IndexPage.tsx:65-66 | Round trip: non-empty, comma-free names joined with `,` (as on lines 80 and 89) and decoded again give back the same list in the same order. |
| Address.EncodeDecode | src/pages/IndexPage.tsx:66 | The other direction: a `type` parameter with no empty field is re-joined exactly as it was read. |
| Address.DecodeNormalizes | src/pages/IndexPage.tsx:80 | Restating the decoded selection as a new `type` parameter keeps the selection unchanged. |
| Address.DecodeConcat | src/pages/IndexPage.tsx:66 | Two `type` parameters joined by a comma decode to the first's names followed by the second's. |
| Address.OnlySeparators | src/pages/IndexPage.tsx:66 | Any parameter made only of commas selects nothing, because empty fields are dropped. |
| Text.Split | src/pages/IndexPage.tsx:66 | Splitting gives at least one field, no field contains the separator, and joining the fields rebuilds the input. |
| Text.SplitFieldCount | src/pages/IndexPage.tsx:66 | Splitting gives exactly one more field than the input has separators. |
| Text.SplitJoin | src/pages/IndexPage.tsx:66 | Splitting undoes joining for a non-empty list of separator-free fields. |
| Text.SplitConcat | src/pages/IndexPage.tsx:66 | Splitting at a separator splits each side on its own and concatenates the fields. |
| Text.Lower | src/pages/IndexPage.tsx:109 | Lower-casing keeps the length, leaves no upper-case letter, keeps every other character, and maps each upper-case letter to the lower-case letter at the same alphabet position. |
| Text.Includes | src/pages/IndexPage.tsx:109 | `includes` is true exactly when the needle occurs at some index of the string. |
| Text.IncludesEmpty | src/pages/IndexPage.tsx:109 | Every name includes the empty term, so an empty search keeps everything. |
| Text.LowerIdempotent | src/pages/IndexPage.tsx:109 | Lower-casing twice equals lower-casing once. |
| ListView.MatchesIgnoresCase | src/pages/IndexPage.tsx:109 | Matching ignores case on both sides: lower-casing the name or the term first does not change whether they match. |
| ListScreen.Open | src/pages/IndexPage.tsx:69 | The screen opens on the given address with a window of exactly 12, which is a positive multiple of 12. |
| ListScreen.EditSearch | src/pages/IndexPage.tsx:77-82 | A search edit sets the term to the new text and restates `type` as the current selection joined with `,`. The selection is unchanged, only the two parameters remain, and the window is reset to 12. |
| ListScreen.ToggleType | src/pages/IndexPage.tsx:84-91 | Ticking a valid name appends it after the existing selection, in order. Unticking removes every occurrence and keeps the other names in order. The search term is unchanged, only the two parameters remain, and the window is reset to 12. |
| ListScreen.ClickType | src/pages/IndexPage.tsx:155 | A checkbox is ticked exactly when its type is selected, so clicking a selected type removes every occurrence and clicking an unselected valid type appends it. The search term is kept and the window is reset to 12. |
| ListScreen.ClickTwice | src/pages/IndexPage.tsx:84-91 | Clicking an unselected type twice restores the selection and the search term. |
| ListScreen.ClearTypes | src/pages/IndexPage.tsx:162 | "Clear Types" keeps the search term, sets `type` to `''`, empties the selection and resets the window to 12. |
| ListScreen.LoadMore | src/pages/IndexPage.tsx:187 | "Load More" leaves the address untouched and grows the window by exactly 12. |
| ListScreen.StepWindow | src/pages/IndexPage.tsx:69-91 | Every filter edit sets the window to 12 whatever its prior value and rewrites both parameters. "Load More" grows the window by 12 and keeps the address. History navigation between two list-screen addresses replaces the address and keeps the window. So only a filter edit, or re-opening the screen with `Open`, shrinks the window. |
| ListScreen.RunKeepsWindowAligned | src/pages/IndexPage.tsx:69 | Over any sequence of events, history navigation included, the window stays a positive multiple of 12. |
| ListScreen.FilterEditCanonical | src/pages/IndexPage.tsx:89 | After a filter edit with a valid name, the `type` parameter equals the re-encoding of the selection it decodes to. |
| Queries.MemberNames | src/pages/IndexPage.tsx:96-103 | A name is collected exactly when some loaded membership query lists it. Loading and failed queries contribute nothing. |
| Queries.MemberNamesAppend | src/pages/IndexPage.tsx:97-103 | The union of two parts of the query row is the union of their unions, so it does not depend on order or grouping. |
| ListView.BaseList | src/pages/IndexPage.tsx:94-105 | Before the roster loads the base list is empty. With no type selected it equals the roster. Otherwise an entry is in it exactly when it is in the roster and some loaded membership lists its name (a union). Each roster entry keeps all its copies if kept and none otherwise, and the order is the roster's. |
| Seqs.Keep | src/pages/IndexPage.tsx:108-110 | Filtering keeps only elements of the input that pass and every one that passes. Each passing value keeps all its copies and each failing value loses all of them. |
| Seqs.Without | src/pages/IndexPage.tsx:88 | Removing a type leaves no occurrence of it. The other elements keep their order and their number of copies. |
| ListView.Filtered | src/pages/IndexPage.tsx:108-110 | The search result is a subsequence of the base list. An entry is in it exactly when its lower-cased name contains the lower-cased term, and then with all its copies. An empty term keeps the whole base list. |
| ListView.SearchResultMembers | src/pages/IndexPage.tsx:94-110 | An entry is found by the search exactly when it is in the roster, matches the term, and no type is selected or some loaded membership list names it. |
| Seqs.Take | src/pages/IndexPage.tsx:112 | The slice is a prefix of the input whose length is the smaller of `n` and the input's length. |
| ListView.Displayed | src/pages/IndexPage.tsx:112 | The visible cards are the prefix of the search result whose length is the smaller of `visibleCount` and the result's length. |
| ListView.LoadMoreOffered | src/pages/IndexPage.tsx:184 | "Load More" is offered exactly when the visible cards are not the whole search result. |
| Queries.AnyLoading | src/pages/IndexPage.tsx:116 | `some(isLoading)` is true exactly when some query in the row is loading. |
| Queries.FirstError | src/pages/IndexPage.tsx:119 | `find(error)` gives nothing exactly when no query failed; otherwise it gives the message of a failed query with no failed query before it. |
| ListView.IsLoading | src/pages/IndexPage.tsx:115-117 | The list is loading exactly when the roster is loading, or types are selected and some type query is loading. |
| ListView.ListError | src/pages/IndexPage.tsx:118-120 | With no types selected, the error is the roster's. With types selected, it is the first type-query error in selection order if any query failed, and otherwise the roster's. |
| ListView.Derive | src/pages/IndexPage.tsx:94-120 | The chain holds: visible cards ⊑ search result ⊑ base list ⊑ roster (subsequences). The visible cards are the prefix whose length is the smaller of `visibleCount` and the result's length. "Load More" is offered exactly when the result is longer than `visibleCount`. |
| ListView.DeriveMeaning | src/pages/IndexPage.tsx:94-120 | One render, stated from the queries and the address alone: the cards found are the roster entries that match the term and, with types selected, appear in some loaded membership list. Loading and error follow the rules of `IsLoading` and `ListError` for the address's selection. |
| ListView.DisplayedFromRoster | src/pages/IndexPage.tsx:94-112 | Every visible card is a roster entry, shown in roster order, and there are never more than roster entries. |
| ListView.ListPanel | src/pages/IndexPage.tsx:171-197 | The list area shows the loading notice exactly when loading. It shows the error notice exactly when not loading and an error exists. It shows the cards (the visible prefix, with the "Load More" flag) exactly when neither holds and some entry matches. |
| ListView.LoadMoreShowsMore | src/pages/IndexPage.tsx:184-187 | While the queries do not change, "Load More" keeps the search result and the old cards stay a prefix of the new ones. When the button was offered, there are strictly more cards afterwards and the window stays at most 12 past the end of the result. |
| ListView.ClearedShowsRoster | src/pages/IndexPage.tsx:162 | After "Clear Types", the base list is the roster again and loading/error are the roster's alone, whatever the type queries had come to. |
## Left out

- Network access is not modelled: `fetchPokemonList`, `fetchPokemonTypes` and `fetchPokemonByType` (src/pages/IndexPage.tsx:14-43) and `fetchPokemonDetail` (src/hooks/usePokemonDetail.ts:28-34) are HTTP and JSON parsing. Their outcomes enter the model as given `Query` values.
- react-query's behaviour is not modelled: deduplication, `staleTime`/`gcTime` and the order in which results arrive are library-owned caching and concurrency. A query that keeps old data while showing a refetch error is not represented, since each query is exactly one of loading, failed or loaded.
- Membership responses enter the model as the list of Pokemon names they carry (`item.pokemon.name`). The rest of the response is not used.
- The type-list query and its checkbox rendering (src/pages/IndexPage.tsx:52-60, 141-169) are presentational. The only logic taken from them is that a checkbox is ticked exactly when its type is selected (line 155), which `ClickType` uses.
- URL percent-encoding, and repeated keys in a query string (where `get` returns the first), belong to the browser's `URLSearchParams`. The address is a plain map from names to strings.
- `toLowerCase` is modelled on ASCII letters only. Unicode case mapping is left out.
- History navigation between two list-screen addresses is modelled as an event that replaces the whole address. Which addresses the history holds is the browser's concern and is not modelled.
- Returning from a detail page unmounts and re-mounts the list screen, so it is modelled as `Open` on the address returned to. The window then restarts at 12. No event links a screen before the detail page to the one after it.
- `visibleCount` is a JavaScript number. It is modelled as a `nat`, because it only ever takes positive multiples of 12 (`RunKeepsWindowAligned`).
- ListScreen.ToggleType: when the ticked name is empty or contains a comma, the contract says nothing about the resulting selection. The names come from the type list, which never holds such names.
- ListScreen.ClickType: likewise, when an unselected name is empty or contains a comma, the contract says nothing about the resulting selection, for the same reason.
- ListView.LoadMoreShowsMore: the bound "window ≤ result length + 12" is proved only while the queries do not change. Results arriving later can shrink or grow the result, and the code does not re-clamp the window. History navigation also keeps the window while the result changes.
- The detail screen, the card component, the routing (src/pages/DetailPage.tsx, src/components/PokemonCard.tsx, src/App.tsx) and the JSX of src/pages/IndexPage.tsx:122-199 are not modelled. They only choose what to display. The branch choice of the list area is captured by `ListPanel`.
