# Scene prompt composer: verified model of the timeline, export and metadata editing

The composer builds a video-generation prompt from a metadata record and an
eight-second timeline of numbered entries. Each entry has a start, a duration,
an `MM:SS-MM:SS` label, an action and an audio note. This project models, in
Dafny, the three parts of the editor that hold its logic:

- **the timeline editor** (`TimelineBuilder`):
  - `formatTime`;
  - the single-entry patch `updateSequence`;
  - the duration edit `updateDuration`, which clamps the request, re-flows
    every later entry, shortens entries to the budget and drops those that
    no longer fit;
  - `getMaxDurationForSequence` and `getTotalDuration`.
- **the prompt composer** (`YamlGenerator`):
  - the two records and their defaults;
  - `addSequence` and `removeSequence`;
  - `generateYaml`, which writes the YAML export text.
- **the metadata form** (`MetadataForm`): the helpers that edit single fields,
  the two string lists and the category dictionary, and the category-name
  sanitiser.

Supporting modules:

- `Text`: JavaScript's `String(n)`, `padStart`, `trim`, the regular-expression
  classes `\s` and `\w`, and `toLowerCase`.
- `Lists`: `filter` and filter-by-index.
- `Dict`: a plain object used as a dictionary. It is modelled as an
  association list with distinct keys in insertion order. Assigning to an
  existing key keeps its place and assigning a new key appends it.
- `Records`: the data types and their defaults:
  - `TimelineSequence` and `MetadataFields` have the fields of the two
    interfaces at `src/components/YamlGenerator.tsx:11-29`, with the metadata
    keys in camel case. Whole seconds are integers, the category object is a
    `Dict`, and the lists are sequences.
  - `DefaultMetadata` is `defaultMetadata` (`:31-40`).
  - `DefaultSequence` is `defaultSequence` with its number (`:42-48`).
  - `InitialTimeline` is the initial one-entry state (`:52-54`).

How each source form is modelled:

- Pure code becomes functions with lemmas.
- The imperative parts become methods over local copies, proved against
  specification functions and predicates:
  - the waterfall loop of `updateDuration`;
  - the `yamlString +=` loops of `generateYaml`;
  - the copy-then-mutate category and list helpers.
- A React callback (`onChange`, `setSequences`) becomes the returned value.
- The `MM:SS-MM:SS` label of an entry is `Label(start, end)`.
- A timeline is *valid* (`ValidTimeline`) when:
  - it has at least one entry;
  - it starts at 0;
  - every entry lasts at least a second and starts where the previous one
    ends;
  - it ends within the budget of 8 seconds;
  - it is numbered 1 to N;
  - every label matches its entry.

## Model

| member | source | states |
|---|---|---|
| TimelineBuilder.FormatTime | src/components/TimelineBuilder.tsx:21-25 | definition without a contract of its own: `floor(s/60)` and JavaScript's `s % 60`, each written with `String` and padded to two characters with `0`; `FormatTimeDigits` and `FormatTimeRoundTrip` state what it gives |
| TimelineBuilder.FormatTimeDigits | src/components/TimelineBuilder.tsx:21-25 | for 0 ≤ s < 6000 the label is exactly five characters: two digits of `floor(s/60)`, `:`, two digits of `s % 60` |
| TimelineBuilder.FormatTimeRoundTrip | src/components/TimelineBuilder.tsx:21-25 | below 100 minutes `formatTime` loses nothing: its text reads back as the same number of seconds |
| TimelineBuilder.LabelRoundTrip | src/components/TimelineBuilder.tsx:58 | an entry label is 11 characters long and reads back as the start and end it was made from |
| TimelineBuilder.TotalDuration | src/components/TimelineBuilder.tsx:92-96 | definition without a contract of its own: the end of the last entry, 0 for an empty list; `TotalIsSum` and `ValidTimelineFits` state what it gives |
| TimelineBuilder.TotalIsSum | src/components/TimelineBuilder.tsx:92-96 | on a contiguous timeline from 0, `getTotalDuration` (end of the last entry) equals the sum of all durations |
| TimelineBuilder.ValidTimelineFits | src/components/TimelineBuilder.tsx:92-96 | on a timeline that fits, the total lies between the number of entries and the 8-second budget |
| TimelineBuilder.MaxDuration | src/components/TimelineBuilder.tsx:86-90 | definition without a contract of its own: the budget less the entry's start and the durations of every later entry; `MaxDurationIsRoom` and `ClampDuration` state what it gives |
| TimelineBuilder.MaxDurationIsRoom | src/components/TimelineBuilder.tsx:86-90 | `getMaxDurationForSequence` is the entry's own duration plus the unused budget, hence at least its duration |
| TimelineBuilder.ClampDuration | src/components/TimelineBuilder.tsx:45-54 | the clamped duration is at least 1; it is the request whenever the request is between 1 and the maximum; a request above a maximum of at least 1 gets exactly the maximum; in every case it is 1 or within both the request and the maximum |
| TimelineBuilder.UpdateSequence | src/components/TimelineBuilder.tsx:27-39 | only the patched entry changes; each field named by the patch is taken from it and the others are kept; the label is recomputed from start and end exactly when the patch names a duration or start |
| TimelineBuilder.UpdateTextKeepsShape | src/components/TimelineBuilder.tsx:27-39 | an action or audio edit keeps the timing fitting and the numbering dense |
| TimelineBuilder.UpdateTextKeepsValid | src/components/TimelineBuilder.tsx:27-39 | an action or audio edit keeps a valid timeline valid |
| TimelineBuilder.Stamp | src/components/TimelineBuilder.tsx:58 | rewrites only the label of an entry, to the one its start and end give |
| TimelineBuilder.UpdateDuration | src/components/TimelineBuilder.tsx:41-84 | the result is the re-flow of the input (`IsReflow`): earlier entries untouched; the target alone gets the clamped duration; each later entry starts where its predecessor ends and is cut to end by 8; the list is cut exactly where an entry would start at or past 8; every label from the target on is recomputed |
| TimelineBuilder.Waterfall | src/components/TimelineBuilder.tsx:61-81 | the `for` loop with `splice`/`break` establishes `IsReflow` from the state with the target in place |
| TimelineBuilder.ReflowBounds | src/components/TimelineBuilder.tsx:61-81 | after a re-flow the target lasts at least a second, and every later entry follows its predecessor and ends by the budget |
| TimelineBuilder.ReflowDeterministic | src/components/TimelineBuilder.tsx:41-84 | `IsReflow` determines the result: any two lists satisfying it are equal |
| TimelineBuilder.ReflowShift | src/components/TimelineBuilder.tsx:61-76 | on a timeline that fits, every later entry is shifted by the change of the target's duration and keeps its own duration |
| TimelineBuilder.ReflowKeepsAll | src/components/TimelineBuilder.tsx:66-70 | on a timeline that fits, the truncation never fires: no entry is dropped |
| TimelineBuilder.ReflowShape | src/components/TimelineBuilder.tsx:61-76 | on a timeline that fits, a re-flow keeps every number, keeps durations at least 1, and leaves the entries contiguous from 0 |
| TimelineBuilder.ReflowFits | src/components/TimelineBuilder.tsx:41-84 | on a timeline that fits, the re-flow keeps the length and numbers; every later entry is shifted by the change of the target's duration; the result fits |
| TimelineBuilder.ReflowOnValid | src/components/TimelineBuilder.tsx:41-84 | a duration edit on a valid timeline gives a valid timeline of the same length |
| Records.DefaultSequence | src/components/YamlGenerator.tsx:42-48 | definition without a contract of its own: label `00:00-00:01`, empty action and audio, start 0, duration 1, under the given number; `DefaultLabelFormatted`, `InitialTimelineValid` and `NewEntry` state what it gives |
| YamlGenerator.DefaultLabelFormatted | src/components/YamlGenerator.tsx:42-48 | the hard-coded default label `00:00-00:01` is the label of the span from 0 to 1 |
| YamlGenerator.InitialTimelineValid | src/components/YamlGenerator.tsx:52-54 | the initial one-entry timeline is valid |
| YamlGenerator.NewPromptExport | src/components/YamlGenerator.tsx:31-54 | a new prompt, with the default metadata and the initial timeline, exports the five scalar lines, no list or category section, `timeline:` and the block of the first entry |
| YamlGenerator.InitialBlock | src/components/YamlGenerator.tsx:52-54 | the initial entry's block is, character for character, `- sequence: 1`, the label `00:00-00:01`, and empty action and audio |
| YamlGenerator.NewEntry | src/components/YamlGenerator.tsx:146-160 | the appended entry is the default one, renumbered, starting at the given start, one second long (`Math.min(1, …)` with room left), labelled from its start and end |
| YamlGenerator.AddSequence | src/components/YamlGenerator.tsx:138-163 | no change at 8 entries or when the last entry ends at or past 8; otherwise one entry is appended (number N+1, starting at the last end, one second, empty texts, consistent label) and the existing entries are kept |
| YamlGenerator.AddSequenceOnValid | src/components/YamlGenerator.tsx:138-163 | on a valid timeline the result is valid, and it is unchanged exactly when the budget is used up |
| YamlGenerator.RemoveSequence | src/components/YamlGenerator.tsx:165-176 | no change for one entry or fewer; otherwise the entry at the index is dropped (nothing for an index outside the list) and each remaining entry is renumbered by its position with all its other fields kept |
| YamlGenerator.RemoveSequenceKeepsLabels | src/components/YamlGenerator.tsx:165-176 | on a valid timeline of N entries the result has `max(1, N-1)` entries, numbered from 1 by position, and every label still matches its entry |
| YamlGenerator.RemoveSequenceKeepsDurations | src/components/YamlGenerator.tsx:165-176 | every remaining entry still lasts at least a second and ends within the budget |
| YamlGenerator.RemoveSequenceLeavesGap | src/components/YamlGenerator.tsx:168-175 | on a timeline that fits, the result still fits exactly when the removed entry was the last one |
| YamlGenerator.RemoveSequenceGapExample | src/components/YamlGenerator.tsx:168-175 | removing the middle entry of a three-entry timeline (spans 0-1, 1-3, 3-4) gives a timeline that does not fit: the entry after the one ending at 1 starts at 3 |
| YamlGenerator.LaidOut | src/components/YamlGenerator.tsx:169-173 | part of the corrected removal `RemoveSequenceRetimed`, which follows the comment at :169 and not the code: laying entries end to end renumbers them 1 to N and keeps durations, labels and texts |
| YamlGenerator.Relabelled | src/components/YamlGenerator.tsx:169 | part of the corrected removal `RemoveSequenceRetimed`, which follows the comment at :169 and not the code: relabelling changes only labels, and makes every label consistent |
| YamlGenerator.LaidOutFits | src/components/YamlGenerator.tsx:169 | part of the corrected removal `RemoveSequenceRetimed`, which follows the comment at :169 and not the code: entries of at least a second whose durations add up to at most 8, laid end to end from 0, fit |
| YamlGenerator.RemoveSequenceRetimedValid | src/components/YamlGenerator.tsx:168-175 | the corrected removal on a valid timeline of two or more entries gives a valid timeline one shorter, keeping the durations, action and audio of the other entries in order |
| YamlGenerator.RemoveSequenceRetimedExample | src/components/YamlGenerator.tsx:168-175 | on the same three entries the corrected removal moves the last entry, renumbered 2, to start at 1 |
| YamlGenerator.NonBlank | src/components/YamlGenerator.tsx:61-68 | no element of the filtered list is whitespace-only |
| YamlGenerator.NonBlankCounts | src/components/YamlGenerator.tsx:61-68 | `filter((el) => el.trim())` removes every whitespace-only string and keeps every other one, with their multiplicities |
| YamlGenerator.NonBlankIdempotent | src/components/YamlGenerator.tsx:61-68 | filtering the blank elements out of an already filtered list removes nothing more |
| YamlGenerator.NonBlankSnoc | src/components/YamlGenerator.tsx:61-68 | the filter works element by element from the front, so it keeps the order of what it keeps |
| YamlGenerator.CleanCategories | src/components/YamlGenerator.tsx:62-67 | the filtered categories have the same names in the same order, and each name looks up its own list with the whitespace-only elements removed (`NonBlank`) |
| YamlGenerator.AppendList | src/components/YamlGenerator.tsx:86-91 | the loop adds a list section: nothing for an empty list, otherwise the header and one quoted line per element in order |
| YamlGenerator.AppendCategories | src/components/YamlGenerator.tsx:93-102 | the loop adds one section per category, in order, skipping empty ones |
| YamlGenerator.AppendBlocks | src/components/YamlGenerator.tsx:111-117 | the loop adds one block per timeline entry, in order |
| YamlGenerator.GenerateYaml | src/components/YamlGenerator.tsx:57-120 | the text built by the `+=` steps is `Document`: header; key elements; categories; negative prompts; `timeline:`; blocks |
| YamlGenerator.Document | src/components/YamlGenerator.tsx:79-117 | definition without a contract of its own: the YAML export in the order the source writes it; `GenerateYaml` proves the loops produce it and the lemmas after it state its properties |
| YamlGenerator.DocumentOpensWithHeader | src/components/YamlGenerator.tsx:79-84 | the export opens with `metadata:` and the five scalar lines (prompt name, base style, aspect ratio, room description under `environment_description`, camera setup) |
| YamlGenerator.ListShownIff | src/components/YamlGenerator.tsx:86-91 | a list's header is written exactly when at least one of its elements is not whitespace-only |
| YamlGenerator.DocumentAppendsBlock | src/components/YamlGenerator.tsx:111-117 | one more timeline entry adds exactly its block at the end of the export |
| YamlGenerator.BlocksIgnoreTiming | src/components/YamlGenerator.tsx:70-75 | timeline blocks depend only on the number, label, action and audio of each entry |
| YamlGenerator.DocumentIgnoresTiming | src/components/YamlGenerator.tsx:70-75 | start times and durations never reach the export |
| MetadataForm.GetDetermines | src/components/MetadataForm.tsx:16-18 | a record is determined by the values of its eight fields |
| MetadataForm.UpdateField | src/components/MetadataForm.tsx:16-18 | the named field holds the new value and every other field is unchanged |
| MetadataForm.UpdateFieldSame | src/components/MetadataForm.tsx:16-18 | writing a field's own value back changes nothing |
| MetadataForm.UpdateFieldTwice | src/components/MetadataForm.tsx:16-18 | of two updates of one field the later wins |
| MetadataForm.AddToArray | src/components/MetadataForm.tsx:20-22 | the chosen list gets one `""` at its end; nothing else changes |
| MetadataForm.UpdateArrayItem | src/components/MetadataForm.tsx:24-28 | the chosen list keeps its length and changes at the index only; other fields unchanged |
| MetadataForm.RemoveFromArray | src/components/MetadataForm.tsx:30-33 | exactly the element at the index is removed, the others keep their order, one occurrence leaves the multiset; an index outside the list changes nothing |
| MetadataForm.RemoveUndoesAdd | src/components/MetadataForm.tsx:20-33 | removing the element `addToArray` appended gives back the record |
| MetadataForm.AddToArrayKeepsExport | src/components/MetadataForm.tsx:20-22 | the blank element `addToArray` appends never changes the YAML export |
| MetadataForm.AddToCategory | src/components/MetadataForm.tsx:35-42 | the category is created as `[]` when missing (appended to the names) and then gets `""` at its end; other categories and fields are unchanged |
| MetadataForm.UpdateCategoryItem | src/components/MetadataForm.tsx:44-48 | one position of one category changes; names, other categories and fields are unchanged |
| MetadataForm.RemoveCategoryItem | src/components/MetadataForm.tsx:50-54 | the category loses exactly the element at the index (nothing for an index outside it); names, other categories and fields are unchanged |
| MetadataForm.RemoveCategory | src/components/MetadataForm.tsx:76-80 | exactly that name is deleted, one entry fewer; the remaining names keep their order; other categories and fields unchanged; a missing name changes nothing |
| Dict.RemoveUndoesAssign | src/components/MetadataForm.tsx:76-80 | deleting a name just added gives back the categories, so `removeCategory` undoes `addCategory` |
| Dict.Remove | src/components/MetadataForm.tsx:78 | `delete` loses the key, keeps every other lookup and entry, shrinks a present key's dictionary by one, and keeps the other keys in their order |
| Dict.Assign | src/components/MetadataForm.tsx:70 | assignment sets the key; other lookups are unchanged; a new key goes at the end, an existing one keeps its place |
| Text.LowerChar | src/components/MetadataForm.tsx:58 | an ASCII capital becomes its lower-case letter, U+0130 becomes `i` and U+0307, U+212A becomes `k`, and every other character stays as it is; no ASCII capital is left |
| Text.Lower | src/components/MetadataForm.tsx:58 | no ASCII capital is left; when the string has no U+0130 the length is kept and each position is the lower case of the same position |
| Text.LowerConcat | src/components/MetadataForm.tsx:58 | lower-casing a concatenation lower-cases each part, whatever characters they hold |
| Text.LowerUnchanged | src/components/MetadataForm.tsx:58 | a string without capitals, U+0130 or U+212A is its own lower case |
| MetadataForm.CollapseWhitespace | src/components/MetadataForm.tsx:60 | `replace(/\s+/g, '_')` leaves no whitespace, and every character left is `_` or a non-whitespace character of the input |
| MetadataForm.CollapseRun | src/components/MetadataForm.tsx:60 | a non-empty run made of whitespace only becomes one `_` |
| MetadataForm.CollapseConcat | src/components/MetadataForm.tsx:60 | the replacement works piece by piece across any boundary that does not split a whitespace run; with `CollapseRun` and `CollapseWithoutWhitespace` this fixes the result: other characters kept in order, each maximal run one `_` |
| MetadataForm.CollapseWithoutWhitespace | src/components/MetadataForm.tsx:60 | a string without whitespace is left as it is |
| MetadataForm.CollapseFilter | src/components/MetadataForm.tsx:60 | every character that is neither whitespace nor `_` survives the replacement, in order |
| MetadataForm.SanitizeCategoryName | src/components/MetadataForm.tsx:56-62 | the sanitised name is made of `[a-z0-9_]` only, with no whitespace |
| MetadataForm.SanitizeKeepsAlnum | src/components/MetadataForm.tsx:56-62 | the letters `a-z` and digits of the lower-cased input survive, in order, and they are all the result holds besides `_` |
| MetadataForm.SanitizeTrimIsNoOp | src/components/MetadataForm.tsx:61 | the final `trim()` never removes anything, because whitespace at either end has already become `_` |
| MetadataForm.SanitizeKeepsNames | src/components/MetadataForm.tsx:56-62 | a name made of `[a-z0-9_]` passes through every step unchanged |
| MetadataForm.SanitizeFixedPoints | src/components/MetadataForm.tsx:56-62 | a name is its own sanitised form exactly when it is made of `[a-z0-9_]` |
| MetadataForm.SanitizeIdempotent | src/components/MetadataForm.tsx:56-62 | sanitising twice gives the same as sanitising once |
| MetadataForm.AddCategory | src/components/MetadataForm.tsx:64-74 | an empty category is appended under the sanitised name exactly when that name is non-empty and not truthy in the object (neither an own key nor an inherited `Object.prototype` name); otherwise nothing changes |

## Left out

- Rendering, React state and events are outside the model, and so are the clipboard copy with its toasts (`YamlGenerator.tsx:122-136`) and the display-only `replace('_', ' ')` of category names.
- `onChange` and `setSequences` become the returned value.
- `window.prompt` in `addCategory` is replaced by a parameter holding the typed name. A cancelled prompt returns `null`, which the empty name stands for: both are falsy.
- Aliasing is not modelled. `updateDuration` mutates the element objects its shallow copy shares with the caller, and `updateCategoryItem` mutates the caller's inner array. The model gives every operation a fresh value, and the caller's list and record are never changed.
- Numbers are modelled as mathematical integers. Fractional seconds from the inputs and floating-point rounding are out of scope. `formatTime` is modelled exactly for every integer: floor division, JavaScript's `%`, and `String` of negatives. Its lemmas cover 0 to 5999 seconds.
- Strings are sequences of Unicode scalar values, not UTF-16 code units. `trim` and `\s` only ever match single code units, so nothing changes for them.
- Object keys that look like integers, which JavaScript enumerates first, are not modelled. Categories enumerate in insertion order.
- YAML escaping is not modelled. Values are written between quotes without escaping, as the source does, and the model states nothing about the text being valid YAML.
- Out-of-range arguments are excluded by preconditions. Outside those preconditions the source does one of five things, depending on the helper and the argument:
  - it throws: reading a field of a missing entry or category, or spreading or filtering an inherited `Object.prototype` member (`addToCategory` and `removeCategoryItem` given a name such as `constructor` or `__proto__`);
  - it writes a property onto an inherited `Object.prototype` member, when `updateCategoryItem` is given such a name;
  - it appends an element, when the index equals the length;
  - it leaves a gap of empty slots, when the index is past the length;
  - it sets a property that is not a list position, when the index is negative.

  Every call site passes the index of an element it is rendering, or the name of a category it is rendering (`TimelineBuilder.tsx:143-205`, `MetadataForm.tsx:289-299`, `:338-374`, `:413-423`), so those cases never arise. The preconditions are:
  - `UpdateSequence` and `UpdateDuration` require an index inside the list;
  - `AddSequence` requires a non-empty timeline;
  - `UpdateArrayItem` and `UpdateCategoryItem` require an index inside the list they write;
  - `UpdateCategoryItem` and `RemoveCategoryItem` require an existing category;
  - `AddToCategory` requires a name that is an own key or no inherited `Object.prototype` name.
- Text.LowerChar and Text.Lower differ from `toLowerCase` on one kind of character: a non-ASCII character, other than U+0130 and U+212A, whose lower case is different (such as `À`). The model keeps such a character as it is. Neither such a character nor its lower case lies in `[A-Za-z0-9_]` or `\s`, so the punctuation filter removes it either way, and `SanitizeCategoryName` is exact.
- `SavedPromptsSidebar.tsx`, `promptStorage.ts` and `main.tsx` are not part of this model. They are storage, dates and UI bootstrap.
- The comment at `src/components/YamlGenerator.tsx:169` says removal adjusts the timing, but lines 170-173 only renumber `sequence`. The model follows the code, in `RemoveSequence`, and records the difference under Findings.

## Findings

| source | as written | input that shows it | evidently intended | confidence | as-written member | corrected member |
|---|---|---|---|---|---|---|
| src/components/YamlGenerator.tsx:168-175 | `removeSequence` drops the entry and renumbers the rest, but keeps every `startTime` and `timestamp`, although its comment says "adjust timing" | entries spanning 0-1, 1-3 and 3-4, removing index 1: the remaining second entry still starts at 3, after an entry ending at 1 | the remaining entries are laid end to end from 0 with their durations kept, and relabelled | not executed | YamlGenerator.RemoveSequenceGapExample | YamlGenerator.RemoveSequenceRetimedValid |
