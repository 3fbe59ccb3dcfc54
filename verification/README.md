# Skill matcher selection state, in Dafny

This project models the skill-selection logic of the "Skill-to-Job Matching"
page of a client-side career-platform web app (`src/pages/SkillMatcher.jsx`).
Three of the page's five state hooks hold the selection (the other two,
`analyzing` and `showResults`, drive the analysis timer and the results panel):
- the list of selected skills, which starts as `JavaScript`, `React`, `Node.js`;
- the text in the skill input box;
- whether the suggestion dropdown is open.

Four handlers change that state:
- `handleAddSkill` appends a non-empty skill that is not yet selected, clears the box and closes the dropdown.
- `handleRemoveSkill` filters a skill out of the list.
- The input box's change handler stores the typed text and opens the dropdown when that text is non-empty.
- The Enter key and the plus button add the box's text.

Two suggestion rows come from a fixed 15-entry catalog:
- The dropdown lists catalog entries that contain the typed text, ignoring case, and are not selected.
- The "AI Suggested" chips are those of the first six catalog entries that are not selected, so the row shrinks as they are picked.

`getMatchColor` maps a match percentage to one of four colour bands.

Modules:
- `Seqs` (`seqs.dfy`): order-preserving deletion (`IsSubsequence`), duplicate-freedom, `RemoveAll` and `Filter`, each with lemmas.
- `Text` (`text.dfy`): ASCII lower-casing and substring search. `Contains` is checked against a reference definition by offset.
- `SkillMatcher` (`skill_matcher.dfy`): the `State` record, the initial state, the catalog, and one function per handler. It also holds the two suggestion rows, the colour bands, the analyze-button condition, and a fold of user `Event`s (`Step`, `Run`) with the invariant `Valid`.
- `SkillMatcherProperties` (`skill_matcher_properties.dfy`): properties that relate several transitions.
- `SkillMatcherExamples` (`skill_matcher_examples.dfy`): one concrete dropdown query on the real catalog.

The page does no trimming or case folding before its `includes` test
(src/pages/SkillMatcher.jsx:87), so `"react"` and `"React "` are different
skills from `"React"`. It computes no match score: the percentages on the page
are constants. An empty query matches every catalog entry, but the dropdown is
closed while the box is empty. Suggestions come in catalog order; nothing is
ranked, and no handler returns an error.

## Model

| member | source | states |
|---|---|---|
| `SkillMatcher.AddSkill` | src/pages/SkillMatcher.jsx:86-92 | An empty or already-selected skill (exact, case-sensitive) leaves the whole state unchanged. Otherwise the list grows by one, every earlier skill stays in place, the new skill is last, the box is cleared and the dropdown closed. Either way the members are the old ones plus the non-empty skill, and duplicate-freedom is kept. |
| `SkillMatcher.RemoveSkill` | src/pages/SkillMatcher.jsx:94-96 | No copy of the skill remains, and every other skill keeps its number of copies. The result is a subsequence of the old list, so relative order is kept. The box and dropdown flag are untouched. Removing an absent skill changes nothing. On a duplicate-free list the result stays duplicate-free and is exactly one shorter when the skill was present. |
| `Seqs.RemoveAll` | src/pages/SkillMatcher.jsx:95 | Filtering out a value deletes every copy and keeps the count of every other value. Without the value, the list comes back unchanged. |
| `Seqs.RemoveAllKeepsOrder` | src/pages/SkillMatcher.jsx:95 | The filtered list is an order-preserving subsequence of the original. |
| `Seqs.Filter` | src/pages/SkillMatcher.jsx:197-198 | The kept elements are exactly the accepted ones, each with all its copies, and rejected ones have none. The result is an order-preserving subsequence of the input, and it is the input itself when everything is accepted. |
| `SkillMatcher.InputChanged` | src/pages/SkillMatcher.jsx:166-169 | Typing always makes the box and the dropdown flag agree, whatever the flag was before: the result is valid exactly when the (unchanged) selection is duplicate-free and holds no empty skill. |
| `SkillMatcherProperties.TypingFillsDropdown` | src/pages/SkillMatcher.jsx:166-198 | After typing empty text the dropdown lists nothing. After typing non-empty text it lists exactly the unselected catalog entries that contain the text, ignoring ASCII case. |
| `SkillMatcher.Submit` | src/pages/SkillMatcher.jsx:170-181 | Enter or the plus button adds the box's text as typed when it is non-empty and new, then clears the box and closes the dropdown. Otherwise the state is unchanged. |
| `SkillMatcher.Dropdown` | src/pages/SkillMatcher.jsx:189-198 | A closed dropdown lists nothing. An open one lists exactly the catalog entries that contain the typed text (ignoring ASCII case) and are not selected, in catalog order. |
| `SkillMatcher.AiSuggestions` | src/pages/SkillMatcher.jsx:222-223 | The chips are exactly those of the first six catalog entries that are not selected, in catalog order. |
| `SkillMatcher.MatchColor` | src/pages/SkillMatcher.jsx:106-111 | Green if and only if the percentage is at least 90; blue iff it is in [80, 90); purple iff in [70, 80); pink iff below 70. The bands are total and disjoint. The colour name returned (`neon-green`, `neon-blue`, `neon-purple`, `neon-pink`) satisfies the same four iffs. |
| `SkillMatcher.Step` | src/pages/SkillMatcher.jsx:86-96 | Every user action (typing, submitting, picking a suggestion, removing a skill) keeps the invariant `Valid`: no duplicates, no empty skill, dropdown open iff the box is non-empty. |
| `Text.Lower` | src/pages/SkillMatcher.jsx:198 | Lower-casing keeps the length, turns each ASCII capital into its small letter and leaves every other character alone. |
| `Text.ContainsIffOccurs` | src/pages/SkillMatcher.jsx:198 | The recursive substring test holds exactly when the needle occurs at some offset of the haystack (both directions). |
| `SkillMatcherProperties.AddThenRemove` | src/pages/SkillMatcher.jsx:86-96 | Adding a fresh non-empty skill and then removing it restores the original list, leaving the box empty and the dropdown closed. |
| `SkillMatcherProperties.RemoveThenAdd` | src/pages/SkillMatcher.jsx:86-96 | On a duplicate-free list, removing a selected skill and adding it back gives a permutation of the original list. The skill is now last and the list is still duplicate-free. |
| `SkillMatcherProperties.TypeThenSubmit` | src/pages/SkillMatcher.jsx:166-174 | Typing new non-empty text and pressing Enter appends exactly that text and resets the box. Typing empty or already-selected text and pressing Enter leaves the typed state in place. |
| `SkillMatcherProperties.RunPreservesValid` | src/pages/SkillMatcher.jsx:86-96 | Any sequence of user actions from a valid state ends in a valid state. |
| `SkillMatcherProperties.ReachableStatesValid` | src/pages/SkillMatcher.jsx:23-25 | Every state reachable from the initial state is valid, so the selected list never holds a duplicate. |
| `SkillMatcherProperties.PickFromDropdown` | src/pages/SkillMatcher.jsx:197-202 | Clicking a dropdown entry always appends it to the selection, closes the dropdown and removes that entry from the chip row. |
| `SkillMatcherProperties.PickChip` | src/pages/SkillMatcher.jsx:222-228 | Clicking a chip always appends it to the selection. The new chip row is the old row without that chip, in the same order. |
| `SkillMatcherProperties.InitialChips` | src/pages/SkillMatcher.jsx:222-223 | On the initial state all six leading catalog entries are offered as chips. |
| `SkillMatcherProperties.DropdownIgnoresCase` | src/pages/SkillMatcher.jsx:198 | Two typed texts with the same lower-cased form produce the same dropdown list. |
| `SkillMatcherProperties.EmptyQueryMatchesAll` | src/pages/SkillMatcher.jsx:198 | The empty query matches every catalog entry, so only the selection filters it out. |
| `SkillMatcherProperties.MatchColorMonotone` | src/pages/SkillMatcher.jsx:106-111 | A higher percentage never gets a lower colour band. |
| `SkillMatcherProperties.AnalyzeAfterAddAndRemove` | src/pages/SkillMatcher.jsx:255 | A successful add enables the analyze button unless an analysis is running. Removing the only selected skill disables it. |
| `SkillMatcherProperties.CatalogFacts` | src/pages/SkillMatcher.jsx:29-33 | The catalog has 15 entries, none empty and none repeated. |
| `SkillMatcherExamples.TypingScriptOffersTypeScript` | src/pages/SkillMatcher.jsx:197-198 | Typing `SCRIPT` offers `TypeScript` whenever it is not selected. The match ignores case and need not be at the start of the entry. |

## Left out

- The analysis timer is left out. `handleAnalyze` sets `analyzing`, and a 2-second timer later shows the results (src/pages/SkillMatcher.jsx:98-104). This is asynchronous UI timing. Only the button's enable condition is modelled, with `analyzing` as a parameter.
- `showResults` and the results panel are left out. They only switch constant job cards on and off.
- The job table (src/pages/SkillMatcher.jsx:35-84) is not modelled. Its match percentages are literal constants, not computed, so there is no scorer to model.
- All animation, layout and markup are presentation. This covers `JobCard`, `SkillChip` (beyond its remove button calling `handleRemoveSkill`) and the other pages' components.
- `src/pages/ResumeAnalyzer.jsx`, `src/pages/Dashboard.jsx`, `src/App.jsx` and `tailwind.config.js` are not modelled. They hold constant data, file upload through a third-party library, floating-point gauge geometry, routing and styling, and no selection logic.
- React batches state updates and handlers read the state of the last render. The model applies each event to the state left by the previous one, as happens when each event is a separate render.
- Text.Lower: models ASCII lower-casing only. JavaScript's `toLowerCase` folds every Unicode letter, and full Unicode case mapping is out of reach here. The typed query is user text, so the model can differ from the page: the Kelvin sign U+212A lower-cases to `k` in JavaScript and then offers Docker and Kubernetes, while the model leaves it unchanged and offers nothing.
- SkillMatcher.MatchColor: takes a `real`. A JavaScript number can also be NaN or infinite. NaN compares false with every bound and so would get pink; these values are not modelled.
- SkillMatcher.InputChanged: uses the length of a `seq<char>`. JavaScript's `length` counts UTF-16 code units, but it is non-zero exactly when the string is non-empty, so the flag agrees.
