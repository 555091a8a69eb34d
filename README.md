# Retro Game Finder, modelled in Dafny

The Retro Game Finder is a small browser page. It loads a catalogue of retro
games, renders one card per game, and filters the cards on every keystroke.
Its search field also carries a few easter eggs:

- "alura code" either reveals a hint or locks the page on an error screen.
- "senhaforte12" switches on admin mode after a progress bar completes.
- With admin on, "aprender na alura com ia google" enters domination mode. In that
  mode the page lists secret plans instead of games.

A second, simpler page renders a catalogue and filters it with a search button.

The model follows the code, one module per concern:

| module | file | what it holds |
|---|---|---|
| `Text` | `text.dfy` | `toLowerCase`, `trim`, `includes`, `Number.prototype.toString` and `parseInt` as the page uses them |
| `Placeholder` | `placeholder.dfy` | the placeholder typing animation `typePlaceholder`, as a step function and as a class over its three variables |
| `Triggers` | `triggers.dfy` | the easter-egg table of `filterGames`, as a step function over the two mode flags |
| `Games` | `games.dfy` | the game and plan records, the cards built from them, the id lookup, and the visibility each filtering pass gives the cards |
| `Finder` | `finder.dfy` | the page of `script.js` as a class: the collections, `gameCardElements`, the flags, the search field, the modal, and the handlers that change them |
| `Catalog` | `catalog.dfy` | the page of `js/script.js`: `iniciarBusca` as an order-preserving filter, and `exibirDados` as a loop over a container |

The functions specify, and the methods that change the page are proved
against them. `FilterGameCards` and `FilterSecretCards` are the two
visibility loops of `filterGames`, and they are proved equal to
`GameVisibility` and `SecretVisibility`. `CreateAndDisplayCards` appends
`GameCards(games)` to the card list. `HandleQuery` and `FilterGames` end in a
state that satisfies `Handled`. `Handled` is stated through `Triggers.Dispatch`
and through the visibility functions, and lemmas about those carry the
properties.

Some behaviour is stated as the code has it, where a reader might expect otherwise:

- The triggers are tested before the visibility pass. A trigger other than
  the hint reveal changes no card; the hint reveal re-filters with the empty
  query (`script.js:197-285`).
- The normal-mode match tests name, developer and the year as text. The
  description is not tested (`script.js:312-314`).
- `resetSystem` touches neither mode flag. It re-renders the games by
  appending to `gameCardElements`, and it does not clear that list first
  (`script.js:79-110`, `script.js:186-194`).
- After a reset in domination mode, the card list holds the plan cards
  followed by the game cards. The domination pass reads `allSecrets[index]`
  for every card. It therefore reads past the last plan, and
  `secret.plano` throws a TypeError there. `Outcome.Threw` models that
  throw, and `SearchAfterDominationReset` proves that the next search ends
  in it.
- The admin flag is set only when the admin screen's progress bar
  completes (`script.js:269`). `HandleQuery` therefore leaves it unchanged.
  `ProgressFinished` sets it.

## Model

| member | source | states |
|---|---|---|
| Text.LowerChar | script.js:183 | the result is never an upper-case letter; it differs from the input exactly when the input is an upper-case letter; white space stays white space and nothing else becomes white space |
| Text.Lower | script.js:183 | same length as the input, no upper-case letter, every character that was not upper-case kept at its place |
| Text.LowerIdempotent | script.js:183 | lower-casing a lower-cased string changes nothing |
| Text.TrimStart | script.js:183 | never longer than the input, and a non-empty result does not start with white space |
| Text.TrimStartDropsSpace | script.js:183 | the result is a suffix of the input and every character dropped is white space |
| Text.TrimEnd | script.js:183 | never longer than the input, and a non-empty result does not end with white space |
| Text.TrimEndDropsSpace | script.js:183 | the result is a prefix of the input and every character dropped is white space |
| Text.Trim | script.js:183 | a non-empty result neither starts nor ends with white space |
| Text.TrimIsSlice | script.js:183 | the result is a contiguous slice of the input with only white space before and after it |
| Text.Contains | script.js:312-314 | the empty string is contained in every string; a contained string is never longer than the string containing it |
| Text.ContainsIffOccurs | script.js:312-314 | `includes` holds exactly when the needle occurs at some index of the haystack (both directions) |
| Text.Digits | script.js:314 | the decimal text of a natural number is non-empty, all digits, and has no leading zero |
| Text.DigitsRoundTrip | script.js:314 | reading the digits of `n` back as a number gives `n` |
| Text.Decimal | script.js:314 | the text of an integer is non-empty: only digits when it is not negative, a minus sign followed by digits when it is |
| Text.TrimStartSpaces | script.js:183 | white space in front of a string that starts with a non-space is exactly what `trimStart` removes |
| Text.TrimEndSpaces | script.js:183 | white space after a string that ends with a non-space is exactly what `trimEnd` removes |
| Text.LeadingDigits | script.js:303 | the longest prefix made of digits: a prefix, all digits, and the character after it (if any) is not a digit |
| Text.ParseUnsigned | script.js:303 | the digits at the head of a string read as a number: there is a result exactly when the string starts with a digit, and it is never negative (its value is pinned by `ParseAllDigits`) |
| Text.ParseInt | script.js:303 | `parseInt` in base 10: a blank string is NaN; a string whose first non-space character is a digit gives a non-negative number; one whose first non-space character is neither a digit nor a sign is NaN (its value on written ids is pinned by `DecimalRoundTrip`) |
| Text.ParseAllDigits | script.js:303 | a non-empty string of digits parses to the number it denotes |
| Text.DecimalRoundTrip | script.js:303 | `parseInt` of the `data-id` text written for an integer id gives that id back, negative ids included |
| Placeholder.Step | script.js:40-60 | one call of `typePlaceholder` keeps `textIndex` below 5 and `charIndex` within the current text |
| Placeholder.Steps | script.js:40-60 | any number of calls keeps the same bounds |
| Placeholder.TypingAdvances | script.js:47-49 | while typing below the end, `charIndex` goes up by exactly one and nothing else changes |
| Placeholder.DeletingRetreats | script.js:50-52 | while erasing above zero, `charIndex` goes down by exactly one and nothing else changes |
| Placeholder.TurnAtEnds | script.js:53-58 | at either end `isDeleting` flips, `charIndex` stays, and `textIndex` advances modulo 5 only when typing resumes |
| Placeholder.StepsAdd | script.js:40-60 | `a + b` calls are `a` calls followed by `b` calls |
| Placeholder.TypesOut | script.js:47-49 | from any point of the typing phase, the rest of the text is typed out in as many calls as characters remain |
| Placeholder.ErasesOut | script.js:50-52 | from any point of the erasing phase, the text is erased in as many calls as characters are shown |
| Placeholder.Cycle | script.js:40-60 | a text of length L is typed, erased and replaced by the next text, cyclically, after exactly 2L + 2 calls |
| Placeholder.Animation.constructor | script.js:35-37 | the animation starts at the first text, nothing shown, typing |
| Placeholder.Animation.Tick | script.js:40-60 | the three variables move as `Step` says; the placeholder shown is the current text cut at the old `charIndex`; the next delay is 1200 ms when the direction flips, 80 ms while erasing, 150 ms while typing |
| Triggers.Dispatch | script.js:197-285 | no flag goes from true to false; the query searches exactly when it is no trigger; hint, denial and search change no flag; the admin password sets only admin; the final password sets only domination and only with admin on |
| Triggers.HintPhraseKeepsFlags | script.js:197-203 | "alura code" changes no flag, and reveals the hint exactly when admin is on, denying access otherwise |
| Triggers.AdminPasswordGrants | script.js:239-272 | the admin password always ends with admin on and domination untouched |
| Triggers.DominationNeedsAdmin | script.js:276-285 | the final password sets domination exactly when admin is already on |
| Triggers.Run | script.js:197-285 | over any sequence of queries, neither flag is ever reset |
| Triggers.RunMonotone | script.js:197-285 | a flag set after the first k queries is still set after all of them |
| Triggers.DominationImpliesAdmin | script.js:276-285 | from a state where domination implies admin, every sequence of queries keeps that implication |
| Triggers.AdminNeedsPassword | script.js:239-272 | admin mode is only reached if it was already on or the admin password was among the queries |
| Triggers.EmptyQuerySearches | script.js:200-201 | the empty query of the hint branch's second run fires no trigger and changes no flag |
| Games.FindById | script.js:304 | `find` gives nothing exactly when no game carries the id, and otherwise the first game that does |
| Games.FindUnique | script.js:304 | with unique ids, looking up a game's id gives that game |
| Games.GameCard | script.js:88-91 | a new game card is shown and carries a `data-id` that `parseInt` reads back as the game's id |
| Games.SecretCard | script.js:130-133 | a new plan card is shown and carries no `data-id`, so no lookup finds a game for it |
| Games.GameFor | script.js:303-304 | a game found from a `data-id` is one of the games, and its id is what the attribute parses to; an absent or unparsable attribute finds nothing; an id some game carries finds the first game with that id |
| Games.GameMatches | script.js:312-314 | the normal-mode match on name, developer and year; the empty query matches every game |
| Games.SecretMatches | script.js:295-296 | the domination-mode match on plan and description; the empty query matches every plan |
| Games.GameVisibility | script.js:302-323 | the normal pass keeps every card and its `data-id`, and shows a card exactly when its game is found and the query is in its lower-cased name, lower-cased developer or year |
| Games.SecretVisibility | script.js:293-299 | the domination pass keeps every card and its `data-id`; card i, for i below the number of plans, is shown exactly when the query is in plan i's lower-cased plan or description; from the first card without a plan on, cards are left as they were |
| Games.CountVisible | script.js:288 | the count of shown cards is at most the number of cards |
| Games.CountVisibleExtremes | script.js:298 | the count is zero exactly when no card is shown, and equals the number of cards exactly when all are |
| Games.GameCards | script.js:87-109 | one card per game, in order, each carrying its game's id as `data-id` |
| Games.SecretCards | script.js:129-141 | one card per plan, in order, none carrying a `data-id` |
| Games.GameCardFindsGame | script.js:303-304 | the card rendered for a game finds, through its `data-id`, the first game with that id |
| Games.EmptyQueryShowsBacked | script.js:306-314 | with the empty query, a card is shown exactly when a game backs it |
| Games.EmptyQueryShowsPlanned | script.js:293-298 | in domination mode, the empty query shows every card that has a plan at its index |
| Games.RenderThenEmptyQueryShowsAll | script.js:302-323 | rendering the games and filtering with the empty query shows every card |
| Games.GameVisibilityIdempotent | script.js:302-323 | running the normal pass twice with the same query gives what running it once gave |
| Games.GameVisibilityLatest | script.js:302-323 | two normal passes in a row leave the cards as the second pass alone would: the pass reads only `data-id`, never an earlier visibility |
| Games.SecretVisibilityIdempotent | script.js:293-299 | likewise for the domination pass |
| Games.MissingCharNotContained | script.js:312-314 | a query holding a character the field lacks is not contained in it |
| Games.LetterNotInDecimal | script.js:314 | the text of a year holds no letter |
| Games.ChronoTriggerName | script.js:312 | "Chrono Trigger" lower-cases to "chrono trigger" |
| Games.ChronoTriggerDeveloper | script.js:313 | "Square" lower-cases to "square" |
| Games.ChronoTriggerFound | script.js:312-314 | "trigger" matches Chrono Trigger |
| Games.ChronoTriggerNotSega | script.js:312-314 | "sega" matches neither its name, its developer nor its year |
| Games.ChronoTriggerExample | script.js:302-323 | with Chrono Trigger rendered, "trigger" shows one card and "sega" none |
| Finder.Query | script.js:183 | the query neither starts nor ends with white space |
| Finder.QueryIsLowerCase | script.js:183 | the query holds no upper-case letter |
| Finder.QueryAnyCase | script.js:183 | a lower-case word without white space at its ends, typed in any letter case and with any white space around it, gives that word as the query |
| Finder.HintPhraseAnyCase | script.js:183-197 | "alura code" typed in any letter case, with any white space around it, is the hint phrase as a query |
| Finder.AdminPasswordAnyCase | script.js:183-239 | the admin password typed in any letter case, with any white space around it, is the admin password as a query |
| Finder.DominationPasswordAnyCase | script.js:183-276 | the final password typed in any letter case, with any white space around it, is the final password as a query |
| Finder.EmptyQuery | script.js:200-201 | an empty field gives the empty query |
| Finder.LowerTypedPassword | script.js:183 | " SenhaForte12 " lower-cases to " senhaforte12 " |
| Finder.TrimTypedPassword | script.js:183 | " senhaforte12 " trims to "senhaforte12" |
| Finder.PasswordAnyCase | script.js:239 | " SenhaForte12 " gives the admin password as its query |
| Finder.RetroGameFinder.constructor | script.js:27-37 | the page starts with no games, no plans, no cards and both flags off, and takes one step of the placeholder animation |
| Finder.RetroGameFinder.CreateAndDisplayCards | script.js:79-110 | no games: the "no games" message, and the card list is unchanged; otherwise the list is the old list followed by one card per game, in order, and the container shows the cards from the old length on |
| Finder.RetroGameFinder.DisplaySecretCards | script.js:126-142 | the card list is replaced by one card per plan, in order, all in the container |
| Finder.RetroGameFinder.GamesLoaded | script.js:70-71 | the games replace the collection, then are rendered as `CreateAndDisplayCards` says |
| Finder.RetroGameFinder.SecretsLoaded | script.js:117-118 | the plans replace their collection, then are rendered as `DisplaySecretCards` says |
| Finder.RetroGameFinder.OpenModal | script.js:145-165 | when the id parses to a game's id, the modal shows that game, opens and locks scrolling; otherwise nothing changes |
| Finder.RetroGameFinder.CloseModal | script.js:168-171 | the modal is closed and scrolling unlocked |
| Finder.RetroGameFinder.ClickCard | script.js:174-179 | a click on a card in the container opens the modal for its game, except in domination mode, where nothing changes |
| Finder.RetroGameFinder.FilterGameCards | script.js:302-323 | the cards become `GameVisibility` of the old cards, and the count returned is the number of cards shown |
| Finder.RetroGameFinder.FilterSecretCards | script.js:291-299 | the cards become `SecretVisibility` of the old cards; the pass completes with the count shown when every card has a plan, and otherwise throws at the index equal to the number of plans |
| Finder.RetroGameFinder.FilterCards | script.js:288-323 | the pass of the current mode is applied, with its outcome |
| Finder.RetroGameFinder.RevealHint | script.js:198-202 | the hint is shown, the field emptied, and the cards re-filtered with the empty query |
| Finder.RetroGameFinder.DenyAccess | script.js:203-236 | the field is locked on "ERRO!!!!!!!!" and the error screen's progress bar starts |
| Finder.RetroGameFinder.GrantAdmin | script.js:239-274 | the field is locked on "BEM-VINDO, ADMIN!", the hint cleared, and the admin screen's progress bar starts |
| Finder.RetroGameFinder.EnterDomination | script.js:276-285 | the hint and field are cleared, domination mode is on, and the plans are requested |
| Finder.RetroGameFinder.Handled | script.js:196-323 | the state a run of `filterGames` leaves, branch by branch as `Dispatch` chooses; derived from it: the run reports a trigger exactly when a trigger other than the hint reveal fired, and no flag is reset |
| Finder.RetroGameFinder.HandleQuery | script.js:196-323 | the state after `filterGames` is the one `Dispatch` chooses: a trigger other than the hint reveal changes no card, and the hint reveal re-filters with the empty query; a search applies the current mode's pass; only the error and admin screens disable the field, only the final password requests the plans; the page invariant is kept; no flag is reset |
| Finder.RetroGameFinder.FilterGames | script.js:182-183 | an input event runs `HandleQuery` on the field lower-cased and trimmed; a search keeps the typed text in the field |
| Finder.RetroGameFinder.SearchTwice | script.js:182-323 | two keystrokes that fire no trigger both run, the field stays enabled with the second text, and the cards end as the second query alone leaves them |
| Finder.RetroGameFinder.UnlockAdmin | script.js:239-272 | typing " SenhaForte12 " and letting the progress bar complete leaves admin on, domination as it was, and the field enabled and empty, with the games, if any, appended to the cards |
| Finder.RetroGameFinder.SearchAfterDominationReset | script.js:291-299 | in domination mode, a reset followed by an empty search throws at the first card past the plans |
| Finder.RetroGameFinder.ResetSystem | script.js:186-194 | the field is enabled and emptied, the hint cleared, the placeholder moves one step, the games are appended to the card list, and neither flag, the plan request nor the modal changes |
| Finder.RetroGameFinder.ProgressFinished | script.js:262-271 | when the bar completes, admin is switched on after the admin screen and left as it was after the error screen, then the page is reset, moving the placeholder one step; with no bar running the cards, view, field, hint and placeholder are unchanged; the modal and the plan request are never changed |
| Catalog.Filter | js/script.js:48-50 | the result is a subsequence of the items, and an item is in it exactly when it is among the items and its lower-cased name or description contains the term |
| Catalog.Matches | js/script.js:49 | the empty term matches every item, and a matching term is no longer than the name or the description |
| Catalog.SubsequenceNoLonger | js/script.js:48-50 | a subsequence is never longer than its source |
| Catalog.FilterCounts | js/script.js:48-50 | every copy of a matching item is kept and no copy of another one, so the result is exactly the matching part of the data |
| Catalog.FilterNoLonger | js/script.js:48-50 | the result is never longer than the data |
| Catalog.EmptyTermKeepsAll | js/script.js:44-50 | an empty term returns all the data, unchanged and in order |
| Catalog.FilterIdempotent | js/script.js:48-50 | filtering the result again with the same term gives the same sequence |
| Catalog.ZeldaLowered | js/script.js:49 | "Zelda" lower-cases to "zelda" |
| Catalog.UntrimmedTermMisses | js/script.js:44 | the term is not trimmed: "zelda" finds Zelda, " zelda" does not |
| Catalog.CatalogPage.constructor | js/script.js:2-5 | the page starts with no data and an empty container |
| Catalog.CatalogPage.Display | js/script.js:24-39 | the container is cleared, then holds one article per item, in order, with its name and description |
| Catalog.CatalogPage.Loaded | js/script.js:14-16 | the data is replaced and all of it displayed |
| Catalog.CatalogPage.Search | js/script.js:42-54 | the container shows exactly the items matching the lower-cased, untrimmed input, in order |

## Left out

- Network access is not modelled: `fetch`, the status check, JSON parsing and
  the failure messages of `fetchGames`, `fetchAndDisplaySecrets` and
  `carregarDados`. A successful load is `GamesLoaded`, `SecretsLoaded` or
  `CatalogPage.Loaded`. A failed load leaves the collections as they were, so
  it is not modelled either.
- Timers are collapsed. The `setTimeout` chain of the placeholder becomes
  one `Tick` per call, and `Tick` returns the delay it would schedule. The
  30 ms progress interval and the 500 ms wait become `ProgressFinished`.
  `clearTimeout(typingTimeout)` is not modelled, because the animation only
  advances when `Tick` is called.
- Concurrent timer chains are not modelled: the animation restarted by a
  reset while an earlier chain still runs.
- The DOM is reduced to the state above. The `innerHTML` markup, CSS classes
  (`error-mode`, `admin-mode`, `easter-egg-active`, `show`, `no-scroll`
  except as the scroll flag), animation delays, the title and its
  `data-text`, the hint's wording, and the focus and blur listeners are left
  out. Card element identity is left out too: a card is a record in a
  sequence, not a node that two lists could share.
- `console.log` and `console.error` output, including the banner at start-up,
  is left out.
- Text.Lower: maps ASCII letters only. The Unicode case mapping of `toLowerCase` (for
  example "Ã" in the fifth placeholder text) is not modelled.
- Text.IsSpace covers the ECMAScript white space and line terminator code
  points that `trim` removes. Other Unicode space separators outside that
  list are not modelled.
- Text.ParseInt: reads base-10 integers only. Hexadecimal prefixes, and ids
  that are not integers, are not modelled; a game id is an `int`.
- Text.Decimal: writes integers only. The exponent notation JavaScript uses
  for very large numbers is not modelled.
- Finder.RetroGameFinder.FilterGames: requires the field to be enabled,
  because a disabled field fires no input event.
- Finder.RetroGameFinder.ClickCard: requires the clicked index to be in the
  container. `closest('.game-card')` only finds cards that are displayed
  there.
