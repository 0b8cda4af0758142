# Jeopardy game editor — a Dafny model of its core

The application edits Jeopardy-style trivia games in the browser. This
project models the parts of it that hold logic rather than markup:

- **The Jeopardy document and its schema** (`src/schemas/games/jeopardy.ts`).
  A document has two rounds and a final question. Each round has settings
  (a `dailyDoubleAnwsers` list) and a list of categories; each category has
  an id, a title and a list of questions; each question has an id, a clue
  and an answer. The schema accepts a round only with exactly six
  categories and a category only with exactly five questions. It repairs
  two things only: a missing `id` gets a fresh one, and a missing
  `dailyDoubleAnwsers` becomes `["random", "random"]`. `makeBlankJeopardyGame`
  builds the empty 6 × 5 board for both rounds.
  Validation is modelled over a small JSON value type (`Json`), where an
  absent object field is JavaScript's `undefined`, so that every required
  field and every type check has an error path.
- **Identifiers.** The application draws ids from a random generator.
  Here the supply is a counter threaded through every call that needs an
  id: the n-th id is `"c"` followed by the decimal text of n. With it, the
  73 ids of a blank board are provably pairwise distinct, and so are the
  ids validation supplies to a document: one for each missing id, in
  document order, each from the next counter value.
- **The board editor** (`src/components/game-editors/jeopardy.tsx`). The
  class `BoardEditor` holds the form state: one category list per round,
  the rest of the document, and the id counter. Its methods append a new
  empty category, append a new empty question to one category, and remove
  a category or a question by index. Its invariant is that no id the
  supply will still hand out is already in the document, so every id an
  edit adds is fresh. The editor validates with the same schema that fixes
  six categories and five questions, while every edit changes one of
  those counts: the lemmas `AddCategoryBreaksSchema` and its three
  siblings prove that a board the schema accepted is rejected after any
  single edit at an existing index. Also modelled: the prize label of a question (ladder
  200…1000, doubled in round two, `"Extra"` off the ladder) and the
  `"Category #N"` placeholder for an untitled category.
- **The game record schema** (`src/schemas/game.ts`): `id` and `name` must
  be strings of at least one character.
- **The next sort index** (`src/libs/get-next-sort-index.ts`): one more
  than the largest sort index, starting from -1.
- **The colour-scheme preference** (`src/hooks/use-color-scheme.ts`): Dark,
  Light or System; whether dark mode shows; toggling.

Files: `wrappers.dfy` (Option, Result), `decimal.dfy` (decimal text of
numbers and its parser), `ids.dfy` (the id supply), `json.dfy` (input
values and validation issues), `jeopardy_schema.dfy`, `document_ids.dfy`,
`jeopardy_editor.dfy`, `game_schema.dfy`, `sort_index.dfy`,
`use_color_scheme.dfy`.

## Model

| member | source | states |
|---|---|---|
| `Ids.CreateId` | src/schemas/games/jeopardy.ts:5 | the id handed out at counter n reads back as n, so ids from distinct counter values differ |
| `Json.ParseString` | src/schemas/games/jeopardy.ts:6-7 | accepts exactly a present string and returns it verbatim; a missing value or another type is an issue |
| `JeopardySchema.ParseId` | src/schemas/games/jeopardy.ts:5 | a missing id becomes the supply's fresh id and advances the counter by one; a present string id is kept verbatim and takes no id; anything else is rejected |
| `JeopardySchema.ParseArray` | src/schemas/games/jeopardy.ts:13 | accepts exactly an array of the required length |
| `JeopardySchema.ParseQuestion` | src/schemas/games/jeopardy.ts:4-8 | accepts exactly an object with string clue and answer and a string or missing id; clue and answer come out verbatim, a present id is kept, a missing one is the supply's id at the counter, which then advances by one; the ids it supplies are exactly those issued over the counter values it used |
| `JeopardySchema.ParseQuestionList` | src/schemas/games/jeopardy.ts:13 | accepts exactly when every element is an acceptable question; question i keeps element i's clue and answer verbatim and its present id, and a missing id is one drawn from the counter values this call used; the counter never goes back; the ids supplied, in list order, are exactly one per counter value used, from the starting counter up |
| `JeopardySchema.ParseCategory` | src/schemas/games/jeopardy.ts:10-14 | accepts exactly an object with a string title, a string or missing id and exactly five acceptable questions; the title comes out verbatim, the id kept or freshly created, and question i is the input's question i with its texts verbatim and its id kept or freshly drawn; the ids supplied (the category's own first, then its questions') are exactly one per counter value used, in order |
| `JeopardySchema.ParseCategoryList` | src/schemas/games/jeopardy.ts:23 | accepts exactly when every element is an acceptable category; category i is the input's element i: title and texts verbatim, present ids kept, missing ids drawn from the counter values this call used, five questions each; the ids supplied, in document order, are exactly one per counter value used |
| `JeopardySchema.ParseStringList` | src/schemas/games/jeopardy.ts:18-19 | accepts exactly an array of strings of any length and returns those strings in order |
| `JeopardySchema.ParseSettings` | src/schemas/games/jeopardy.ts:17-22 | the settings object is required; a missing answer list becomes ["random", "random"], a present one is kept element by element |
| `JeopardySchema.ParseRound` | src/schemas/games/jeopardy.ts:16-24 | accepts exactly a round with settings and six acceptable categories; an accepted round has six categories of five questions; its answer list is the input's or the default when missing, and category i is the input's category i with every text verbatim and every id kept or freshly drawn; the ids supplied are exactly one per counter value used, in document order |
| `JeopardySchema.Validate` | src/schemas/games/jeopardy.ts:26-30 | accepts exactly the documents with both rounds and the final question acceptable; the result has the schema's counts and comes from the input: every title, clue, answer and present id verbatim, every missing id drawn from the counter values the call used, every missing answer list defaulted; the ids supplied are exactly one per counter value used, in document order |
| `JeopardySchema.ValidateSupplies` | src/schemas/games/jeopardy.ts:4-30 | the ids a validated document was given are exactly the ids issued from the starting counter up to the returned one, in document order, so no two of them coincide and none is at or above the returned counter |
| `JeopardySchema.EncodeValidates` | src/schemas/games/jeopardy.ts:4-30 | the schema accepts a document's plain form exactly when it has six categories of five questions per round, and then returns it unchanged without drawing an id |
| `JeopardySchema.ValidateIdempotent` | src/schemas/games/jeopardy.ts:26-30 | validating an already validated document returns it unchanged |
| `JeopardySchema.BlankRoundShape` | src/schemas/games/jeopardy.ts:37-48 | a blank round has six categories of five questions, only empty texts, and answers ["random", "random"] |
| `JeopardySchema.MakeBlank` | src/schemas/games/jeopardy.ts:34-69 | the blank game has two 6 × 5 rounds, every title, clue and answer empty, both answer lists ["random", "random"], and takes exactly 73 ids |
| `JeopardySchema.BlankValidatesUnchanged` | src/schemas/games/jeopardy.ts:26-69 | the blank game passes the schema unchanged: no default applies to it |
| `DocumentIds.BlankIds` | src/schemas/games/jeopardy.ts:34-69 | the blank game's ids are the 73 ids from the counter on, in document order |
| `DocumentIds.BlankIdsDistinct` | src/schemas/games/jeopardy.ts:36-68 | the 73 ids of a blank game (12 categories, 60 questions, the final question) are pairwise distinct and all below the returned counter |
| `JeopardyEditor.RemoveAt` | src/components/game-editors/jeopardy.tsx:182 | removing at an index drops exactly that element and keeps the others in order; the length drops by one; an index past the end changes nothing |
| `JeopardyEditor.AppendBlankCategoryIds` | src/components/game-editors/jeopardy.tsx:151-163 | no id of the appended category is already in the document, and afterwards every id is below the advanced counter |
| `JeopardyEditor.BoardEditor.constructor` | src/components/game-editors/jeopardy.tsx:42-47 | the form starts from the given game, with the supply past every id of it |
| `JeopardyEditor.BoardEditor.AddCategory` | src/components/game-editors/jeopardy.tsx:151-163 | the round gets one blank category at its end (fresh id, empty title, five fresh empty questions); earlier categories, the other round, the settings and the final question are unchanged; the new ids are not in the old document |
| `JeopardyEditor.BoardEditor.RemoveCategory` | src/components/game-editors/jeopardy.tsx:177-184 | the round loses exactly the category at the index, the rest keep their order, nothing else changes |
| `JeopardyEditor.BoardEditor.AddQuestion` | src/components/game-editors/jeopardy.tsx:207-215 | that one category gets one blank question with a fresh id at its end, its length grows by one, nothing else changes |
| `JeopardyEditor.BoardEditor.RemoveQuestion` | src/components/game-editors/jeopardy.tsx:259-266 | that one category loses exactly the question at the index, the rest keep their order, nothing else changes |
| `JeopardyEditor.AddCategoryBreaksSchema` | src/components/game-editors/jeopardy.tsx:146-163 | a board the schema accepted is rejected by it after one added category |
| `JeopardyEditor.RemoveCategoryBreaksSchema` | src/components/game-editors/jeopardy.tsx:177-184 | a board the schema accepted is rejected by it after one removed category |
| `JeopardyEditor.AddQuestionBreaksSchema` | src/components/game-editors/jeopardy.tsx:200-215 | a board the schema accepted is rejected by it after one added question |
| `JeopardyEditor.RemoveQuestionBreaksSchema` | src/components/game-editors/jeopardy.tsx:259-266 | a board the schema accepted is rejected by it after one removed question |
| `JeopardyEditor.RemoveThenAddCategoryValidates` | src/components/game-editors/jeopardy.tsx:151-184 | removing a category and then adding one gives a board the schema accepts unchanged |
| `JeopardyEditor.FirstSegment` | src/components/game-editors/jeopardy.tsx:288-289 | the result is the longest dot-free prefix of the name: a prefix, without '.', followed by '.' or the end |
| `JeopardyEditor.QuestionNameFirstSegment` | src/components/game-editors/jeopardy.tsx:285-289 | the first segment of a question's form name is its round key |
| `JeopardyEditor.PrizeAmount` | src/components/game-editors/jeopardy.tsx:282-302 | "Extra" exactly when the index is off the five-entry ladder; otherwise "$" and the decimal text of the ladder entry, doubled when the first segment is "roundTwo", with no leading zero |
| `JeopardyEditor.PrizeAmountIgnoresIndices` | src/components/game-editors/jeopardy.tsx:284-289 | the category and question indices inside the name do not affect the prize |
| `JeopardyEditor.BasePrizes` | src/components/game-editors/jeopardy.tsx:291-301 | for any name whose first segment is not "roundTwo", positions 0 to 4 are labelled $200 to $1000 |
| `JeopardyEditor.DoubledPrizes` | src/components/game-editors/jeopardy.tsx:291-301 | for any name whose first segment is "roundTwo", positions 0 to 4 are labelled $400 to $2000 |
| `JeopardyEditor.RoundOnePrizes` | src/components/game-editors/jeopardy.tsx:282-301 | in round one, positions 0 to 4 are labelled $200, $400, $600, $800, $1000 |
| `JeopardyEditor.RoundTwoPrizes` | src/components/game-editors/jeopardy.tsx:297-301 | in round two, positions 0 to 4 are labelled $400, $800, $1200, $1600, $2000 |
| `JeopardyEditor.CategoryLabel` | src/components/game-editors/jeopardy.tsx:102-104 | never empty; a non-empty title verbatim; for an empty title "Category #" followed by the decimal text of position + 1, with no leading zero |
| `JeopardyEditor.UntitledLabelText` | src/components/game-editors/jeopardy.tsx:102-104 | an untitled category's label is exactly "Category #" followed by the canonical decimal text of position + 1 |
| `JeopardyEditor.PlaceholdersDistinct` | src/components/game-editors/jeopardy.tsx:102-104 | untitled categories at different positions get different placeholders |
| `JeopardyEditor.TableOfContents` | src/components/game-editors/jeopardy.tsx:98-108 | one label per category in order: category i's title, or "Category #" and the decimal text of i + 1 when the title is empty; two untitled categories never share a label |
| `GameSchema.ParseNonEmptyString` | src/schemas/game.ts:4-5 | accepts exactly a present string of at least one character, returned verbatim |
| `GameSchema.ValidateGame` | src/schemas/game.ts:3-6 | accepts exactly an object whose id and name are non-empty strings, and returns both verbatim |
| `GameSchema.EncodeGameValidates` | src/schemas/game.ts:3-6 | a record is accepted exactly when id and name are non-empty, and then comes back unchanged |
| `GameSchema.EmptyIdRejected` | src/schemas/game.ts:4 | an empty id is rejected with a too-short issue on the id |
| `GameSchema.EmptyNameRejected` | src/schemas/game.ts:5 | an empty name is rejected with a too-short issue on the name |
| `GameSchema.BlankNameAccepted` | src/schemas/game.ts:5 | a name of one space is accepted verbatim: length is the only constraint |
| `SortIndex.MaxFrom` | src/libs/get-next-sort-index.ts:5 | the fold's result is at least the seed and every element, and is the seed or one of the elements |
| `SortIndex.NextSortIndex` | src/libs/get-next-sort-index.ts:1-7 | the result is at least 0, above every sort index, and is 0 or one more than some sort index |
| `SortIndex.NextSortIndexIsMaxPlusOne` | src/libs/get-next-sort-index.ts:5 | an empty collection gives 0; otherwise the result is max(-1, largest sort index) + 1 |
| `SortIndex.NextSortIndexOrderFree` | src/libs/get-next-sort-index.ts:5 | two collections with the same sort indices in any order give the same result |
| `UseColorScheme.IsDark` | src/hooks/use-color-scheme.ts:34-40 | under System dark mode is the media query's answer; otherwise it holds exactly for Dark |
| `UseColorScheme.Toggled` | src/hooks/use-color-scheme.ts:42-54 | the result is never System; from Dark or Light dark mode flips; from System dark mode is unchanged |
| `UseColorScheme.ToggleTwice` | src/hooks/use-color-scheme.ts:44-49 | from Dark or Light, toggling twice restores the scheme |
| `UseColorScheme.ColorSchemeState.constructor` | src/hooks/use-color-scheme.ts:19-32 | the scheme starts at the option given, and at System without one |
| `UseColorScheme.ColorSchemeState.Modes` | src/hooks/use-color-scheme.ts:56-67 | exactly one of lightMode, darkMode and systemMode holds |
| `UseColorScheme.ColorSchemeState.Toggle` | src/hooks/use-color-scheme.ts:42-54 | the scheme becomes the toggled one: never System afterwards; dark mode kept when leaving System and flipped otherwise |
| `UseColorScheme.ColorSchemeState.SetColorScheme` | src/hooks/use-color-scheme.ts:28-32 | the stored scheme becomes the one given |

## Left out

- Random identifiers: the id generator is replaced by a counter; collision resistance of the real generator is not modelled.
- Issue lists: the schema library reports every issue of an input, the model only the first one met in the order the schema declares its fields. What is accepted and what comes out are the same.
- Numbers: JSON numbers and sort indices are integers. Fractions, NaN and infinities are not modelled.
- The library behind field arrays (keys, re-rendering, when validation runs in "onBlur" mode) is not part of this model. Only append at the end and remove at an index are modelled. A remove index past the end changes nothing, as an array splice does.
- `JeopardyEditor.BoardEditor.AddQuestion` and `JeopardyEditor.BoardEditor.RemoveQuestion` require the category index to exist: the editor renders their buttons only for existing categories.
- Editing a title, clue or answer goes through form-field bindings of the UI library and is not modelled as an operation.
- Rendering, menus, tooltips, the category `visibility` flag (never changed) and the submit and log handlers (they only write to the console).
- Storage of the colour scheme (the local-storage key, `initializeWithValue`, a stored value taking precedence over the default) and the media-query subscription: the media query is a parameter of each operation instead.
- The database, the routes, data download, the game form wrapper and the game-runner components.
- The code has no special-question id set, no drag reordering of questions, no snapshots and no NotFound or IndexOutOfRange errors: `dailyDoubleAnwsers` is only defaulted and never read, and removal is by index.
