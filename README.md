# Lead dashboard: display and ordering rules

A Dafny model of the client-side logic of a small lead dashboard. The
dashboard fetches sales leads from a backend. Each lead may carry a lead
inference: a score, a total, a priority and a score breakdown. The dashboard
sorts the leads by score and renders one card per lead.

The model covers two components.

- **Lead card** (`lead_card.dfy`, module `LeadCard`). The priority badge
  colour (`getPriorityColor`) and the score colour (`getLeadScoreColor`). The
  `||` placeholders for empty fields. The score text `score/total`. The
  score-breakdown labels (`key.replace(/([A-Z])/g, ' $1').trim()`). The choice
  between the analysis section and the "No lead analysis available" notice.
  All of this is pure functions plus lemmas about them.
- **Dashboard** (`dashboard.dfy`, module `Dashboard`). The effective score a
  lead sorts by. `sortedLeads`, modelled as a stable insertion sort on a
  sequence. The render decision: spinner, error screen, empty notice or grid.
  The count label and the card keys. The four React state fields, modelled
  as the class `DashboardState`. Its methods are the steps of `loadLeads` and
  `toggleSortOrder`.

Supporting modules: `Wrappers` (Option), `LeadTypes` (the records of
`src/types/Lead.ts`), `Decimal` (how JavaScript prints an integer, plus a
parser that reads the text back) and `Strings` (ASCII `toLowerCase`,
ECMAScript `trim`, index search).

Modelling choices:

- Scores, totals, loan amounts and breakdown values are `int`.
- A string field shown with a `||` placeholder (company, business type,
  turnover, profit margin, reason, duration, collateral, summary) is modelled
  as `""` when absent from the JSON. Both are falsy, so both get the
  placeholder.
- `loanAmount` is `Option<int>`. Lead.ts declares it required, but the card
  guards it with `?.`.
- `ScoreBreakdown` is the sequence of (key, value) entries that
  `Object.entries` yields, in `Object.entries` order. Lead.ts names nine keys.
  The label rules are proved for any key.
- `error` is `Option<string>`. The render test `if (error)` is JavaScript
  truthiness: `Some` and non-empty.
- The awaited `fetchLeads()` is a parameter: `Fetched(data)` or `FetchFailed`.

Notes on the code:

- A failed load keeps the previous `leads`: Dashboard.tsx:22-24 never calls
  `setLeads`.
- The progress bar divides by `totalPossibleScore` with no zero guard
  (LeadCard.tsx:102); the bar is left out.

## Model

| member | source | states |
|---|---|---|
| `LeadCard.PriorityColorOf` | src/components/LeadCard.tsx:9-20 | red, yellow and green exactly when the lowered priority is "high", "medium" or "low"; gray for every other string, with no error case |
| `LeadCard.PriorityIgnoresLowering` | src/components/LeadCard.tsx:10 | lowering the priority before the lookup gives the same colour |
| `LeadCard.PriorityCaseVariants` | src/components/LeadCard.tsx:9-20 | a priority gets a named colour if and only if it spells that word in some mix of cases; otherwise gray |
| `LeadCard.PriorityExamples` | src/components/LeadCard.tsx:9-20 | "HIGH", "High" and "high" are red; "Medium" is yellow; "LOW" is green; "urgent" and "" are gray |
| `LeadCard.RenderCard` | src/components/LeadCard.tsx:29-151 | the whole card; its behaviour is stated by `CardFallbacks` (placeholders) and `CardAnalysis` (badge, score, breakdown) |
| `LeadCard.OrElse` | src/components/LeadCard.tsx:35-83 | the or-else placeholder on a string field: the value when non-empty, the placeholder otherwise; stated by `CardFallbacks` |
| `LeadCard.ScoreText` | src/components/LeadCard.tsx:96 | the text `score/total`; stated by `ScoreTextRoundTrip` |
| `LeadCard.RenderAnalysis` | src/components/LeadCard.tsx:87-142 | the analysis section of one inference; stated by `CardAnalysis` (score text, colour, category, probability, action, breakdown rows, timestamp) |
| `LeadCard.BreakdownRows` | src/components/LeadCard.tsx:129-134 | one labelled row per breakdown entry, in entry order; stated by `CardAnalysis` |
| `LeadCard.BreakdownLabel` | src/components/LeadCard.tsx:131 | the label of a breakdown key; stated by `LabelRemoveSpaces`, `LabelShape`, `LabelOneCapital`, `LabelNoCapital` and `LabelExample` |
| `Strings.ToLower` | src/components/LeadCard.tsx:10 | same length; each upper-case ASCII letter lowered and every other character kept; see also `ToLowerIdempotent` and `ToLowerMatchesCaseVariants` |
| `Strings.ToLowerIdempotent` | src/components/LeadCard.tsx:10 | lowering twice is the same as lowering once |
| `Strings.ToLowerMatchesCaseVariants` | src/components/LeadCard.tsx:10 | for a lowercase word w, `toLowerCase(p) == w` exactly when p is a case variant of w |
| `LeadCard.ScoreColorOf` | src/components/LeadCard.tsx:22-27 | on the raw score: green for 80 and up, yellow for 60 to 79, orange for 40 to 59, red below 40 |
| `LeadCard.ScoreColorMonotone` | src/components/LeadCard.tsx:22-27 | a higher score never gets a worse colour band |
| `Decimal.NatToString` | src/components/Dashboard.tsx:95 | a natural number prints as non-empty decimal digits with no leading zero (so 0 prints as "0") |
| `Decimal.IntToString` | src/components/LeadCard.tsx:96 | an integer prints as a leading '-' exactly when it is negative, followed by non-empty digits with no leading zero |
| `Decimal.ParseNatToString` | src/components/Dashboard.tsx:143 | parsing the printed digits of n gives back n |
| `Decimal.ParseIntToString` | src/components/LeadCard.tsx:96 | parsing the printed form of an integer gives back the integer |
| `Decimal.IntToStringInjective` | src/components/LeadCard.tsx:96 | different integers print differently |
| `LeadCard.ScoreTextRoundTrip` | src/components/LeadCard.tsx:96 | the score text splits at its '/' into exactly the score and the total, in that order |
| `LeadCard.CardFallbacks` | src/components/LeadCard.tsx:35-83 | each empty text field shows its placeholder ("No Company Name", "N/A", "No summary available") and each non-empty one shows unchanged; the loan amount shows the amount when present and "N/A" when absent |
| `LeadCard.CardAnalysis` | src/components/LeadCard.tsx:39-149 | the badge and the analysis appear if and only if the lead has an inference, otherwise the notice; they show the priority and its colour, text that reads back as score and total, the score colour, the category, conversion probability, recommended action and timestamp unchanged, and one labelled row per breakdown entry whose value reads back exactly |
| `LeadCard.SpaceBeforeCapitals` | src/components/LeadCard.tsx:131 | the regex replace only adds spaces: with spaces removed, the result equals the key with spaces removed |
| `LeadCard.CapitalsFollowSpaces` | src/components/LeadCard.tsx:131 | after the replace, every capital is directly preceded by a space |
| `LeadCard.SpaceBeforeCapitalsEnds` | src/components/LeadCard.tsx:131 | the replace keeps the last character; a leading capital ends up after one space, and a leading non-capital stays first |
| `LeadCard.SpaceBeforeCapitalsWhitespace` | src/components/LeadCard.tsx:131 | for a key without whitespace, the only whitespace the replace produces is spaces |
| `LeadCard.SpaceBeforeCapitalsConcat` | src/components/LeadCard.tsx:131 | the replace works character by character: it distributes over concatenation |
| `LeadCard.SpaceBeforeCapitalsNoCapitals` | src/components/LeadCard.tsx:131 | a key without capitals is left unchanged |
| `Strings.Trim` | src/components/LeadCard.tsx:131 | `trim` returns the slice after the leading whitespace; everything outside the slice is whitespace, and neither end of it is |
| `Strings.TrimStart` | src/components/LeadCard.tsx:131 | drops a prefix that is all whitespace, leaving a suffix that does not start with whitespace |
| `Strings.TrimEnd` | src/components/LeadCard.tsx:131 | drops a suffix that is all whitespace, leaving a prefix that does not end with whitespace |
| `Strings.RemoveSpacesTrim` | src/components/LeadCard.tsx:131 | when all whitespace in a string is spaces, trimming it leaves the same text once spaces are removed |
| `LeadCard.LabelRemoveSpaces` | src/components/LeadCard.tsx:131 | for a key without whitespace, deleting the spaces from its label gives back the key |
| `LeadCard.LabelShape` | src/components/LeadCard.tsx:131 | for a non-empty key without whitespace, trimming removes only the space put before a leading capital |
| `LeadCard.LabelOneCapital` | src/components/LeadCard.tsx:131 | a camelCase key with one inner capital gets exactly one space before that capital |
| `LeadCard.LabelNoCapital` | src/components/LeadCard.tsx:131 | a key without capitals or whitespace is its own label |
| `LeadCard.LabelExample` | src/components/LeadCard.tsx:131 | the key "businessType" is labelled "business Type" |
| `Dashboard.EffectiveScore` | src/components/Dashboard.tsx:31-32 | the inference's score when there is one, 0 when there is none |
| `Dashboard.Toggled` | src/components/Dashboard.tsx:41-43 | toggling always changes the order |
| `Dashboard.ToggledInvolution` | src/components/Dashboard.tsx:41-43 | toggling twice restores the order |
| `Dashboard.Insert` | src/components/Dashboard.tsx:30-39 | one insertion step: adds exactly one copy of the lead, keeps a sorted list sorted, and puts the lead in front of the leads with the same score |
| `Dashboard.SortLeads` | src/components/Dashboard.tsx:30-39 | the sorted copy is a permutation of the leads, is in comparator order, and is stable: the leads of each score keep their original order |
| `Dashboard.WithScoreMember` | src/components/Dashboard.tsx:30-39 | a lead is among the leads of score k exactly when it is in the list and its score is k |
| `Dashboard.SortedTail` | src/components/Dashboard.tsx:30-39 | the tail of a sorted list is sorted, and the head compares at or below every later lead |
| `Dashboard.SortedStableUnique` | src/components/Dashboard.tsx:30-39 | two lists in comparator order with the same leads of every score, in the same order, are equal |
| `Dashboard.SortLeadsUnique` | src/components/Dashboard.tsx:30-39 | any sorted, stable rearrangement of the leads equals the sorted copy |
| `Dashboard.SortedScores` | src/components/Dashboard.tsx:34-38 | descending: scores never increase along the sorted copy; ascending: they never decrease |
| `Dashboard.NoInferenceSortsAsZero` | src/components/Dashboard.tsx:31-32 | a lead without an inference comes after every positively scored lead when descending, and after every negatively scored lead when ascending |
| `Dashboard.ToggleTwiceSameOrder` | src/components/Dashboard.tsx:30-43 | toggling twice renders the leads in the same order as before |
| `Dashboard.TwoLeadsScenario` | src/components/Dashboard.tsx:30-39 | leads scored 90 and 40 render 90 first when descending, from either input order, and 40 first when ascending |
| `Dashboard.KeyIndexOfCardKey` | src/components/Dashboard.tsx:143 | the digits after the last '-' of a card key read back as its index, whatever the userid holds |
| `Dashboard.CardKeysDistinct` | src/components/Dashboard.tsx:143 | cards at different positions get different keys, even when their userids are equal or contain '-' |
| `Dashboard.GridKeysDistinct` | src/components/Dashboard.tsx:142-143 | the keys of the rendered grid are pairwise distinct |
| `Dashboard.CountLabelWords` | src/components/Dashboard.tsx:95 | the count label starts with the number of leads; it ends in " lead found" exactly when there is one lead and in " leads found" otherwise |
| `Dashboard.ViewPriority` | src/components/Dashboard.tsx:49-145 | loading wins over error, error over the list; the empty notice shows exactly when not loading, no error and no leads; the grid holds one card per lead, in sorted order, keyed `userid-index`; the error screen shows the stored message, and the main view shows the count label and the current order |
| `Dashboard.EmptyFetchScenario` | src/components/Dashboard.tsx:124 | an empty fetch result shows "0 leads found" over the empty notice, not the error screen |
| `Dashboard.ErrorViewWhenStored` | src/components/Dashboard.tsx:60 | in any state that keeps the class invariant and is not loading, the error screen shows exactly when an error is stored |
| `Dashboard.Compare` | src/components/Dashboard.tsx:30-39 | the sort comparator; stated by `SortLeads`, `SortedScores` and `NoInferenceSortsAsZero` |
| `Dashboard.SelectView` | src/components/Dashboard.tsx:49-145 | the screen for a state; stated by `ViewPriority` and `EmptyFetchScenario` |
| `Dashboard.ErrorIsSet` | src/components/Dashboard.tsx:60 | the truthiness test `if (error)`; stated by `ErrorViewWhenStored` |
| `Dashboard.CountLabel` | src/components/Dashboard.tsx:95 | the header count; stated by `CountLabelWords` |
| `Dashboard.CardKey` | src/components/Dashboard.tsx:143 | the card key `userid-index`; stated by `KeyIndexOfCardKey` and `CardKeysDistinct` |
| `Dashboard.GridCards` | src/components/Dashboard.tsx:142-144 | one keyed card per sorted lead; stated by `ViewPriority` and `GridKeysDistinct` |
| `Dashboard.DashboardState.View` | src/components/Dashboard.tsx:49-145 | the screen for the current state fields; stated by the methods' ensures and `ErrorViewWhenStored` |
| `Dashboard.DashboardState.constructor` | src/components/Dashboard.tsx:7-10 | the initial state: no leads, loading, no error, descending order |
| `Dashboard.DashboardState.BeginLoad` | src/components/Dashboard.tsx:17-19 | the start of a load: loading on, error cleared, leads and order untouched, the spinner shown |
| `Dashboard.DashboardState.LoadSucceeded` | src/components/Dashboard.tsx:20-27 | a resolved fetch: its data replaces the leads and loading goes off; error and order untouched |
| `Dashboard.DashboardState.LoadFailed` | src/components/Dashboard.tsx:22-27 | a rejected fetch: the fixed message is stored, the leads stay as they were, loading goes off, and the error screen shows |
| `Dashboard.DashboardState.LoadLeads` | src/components/Dashboard.tsx:16-28 | a whole load: success ends with the data, no error and the list view for it; failure ends with the old leads and the error screen; loading off either way |
| `Dashboard.DashboardState.ToggleSortOrder` | src/components/Dashboard.tsx:41-43 | flips the order and leaves leads, loading and error unchanged |

## Left out

- The model assumes the fields `src/types/Lead.ts` declares required are
  present. An absent `leadInference.priority` makes `priority.toLowerCase()`
  (LeadCard.tsx:10) throw, so the card never renders; the model instead
  gives the empty priority a gray badge.
- The loan line always begins with a currency glyph outside the `||`
  (LeadCard.tsx:61), stored in the file mis-encoded as "â‚¹". So an absent
  amount reads "â‚¹N/A". The model keeps only the part after the glyph.
- The `console.error` of a failed load (Dashboard.tsx:24) is logging and is
  not modelled.
- `src/services/leadService.ts` is not part of this model. It is HTTP I/O,
  JSON parsing and console logging. A fetch enters the model only as its
  outcome, `FetchOutcome`.
- The backend URL lookup (`process.env` with a localhost default) is ambient
  configuration. So the URL and endpoint lines on the error and empty
  screens and in the header are not modelled.
- The progress-bar width `leadScore / totalPossibleScore * 100` is floating
  point and is not modelled.
- Locale formatting: `loanAmount.toLocaleString()` is kept as the bare amount
  (`LocaleAmount`). `processedAt` is kept as the raw timestamp string. Both
  depend on locale and time zone.
- CSS classes, layout, the `capitalize` text transform, icons and the
  sort-arrow glyph are presentation. Colours are enums and the sort order is
  part of the view.
- React scheduling. The mount-time `useEffect` and state-update batching are
  not modelled. Overlapping `loadLeads` calls are not modelled as
  concurrency. The three load methods carry no ordering precondition, so any
  interleaving of them (the last response wins) can be expressed.
- The Telegram chat lookup (`fetchTelegramUsername`) is not called from
  either component.
- Scores are integers. JavaScript numbers may be fractional or NaN, and
  `String(n)` switches to exponent notation from 10^21 up. Neither is
  modelled.
- `LeadCard.PriorityColorOf`: `toLowerCase` is modelled on ASCII letters
  only. Full Unicode lowercasing can lengthen a string, and no non-ASCII
  character lowers to a letter of "high", "medium" or "low". So the colour
  chosen is the same, but the lowered string itself is not modelled outside
  ASCII.
