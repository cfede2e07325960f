# Value-hierarchy data engine in Dafny

This project models the data engine of the value-hierarchy self-analysis app.
The user writes three answers in each of eight life categories. They may note
the purpose of the second answer. They then cluster answers into named,
coloured groups and attach one reflection ("why do I do it?") to each group.
Everything lives in one `UserData` aggregate of answers, groups, insights
and a timestamp, which is kept in the browser's storage and exported as a
plain-text report.

The modules follow the program's files:

- `Types` (types.dfy): the records, the keying rules of the aggregate
  (`WellFormed`), the slot-to-id arithmetic and the eight-category catalogue.
- `Strings` (strings.dfy): decimal rendering of numbers as template literals
  print them, `repeat`, and the view of a text as newline-terminated lines.
- `Storage` (storage.dfy): the initial aggregate and the slot-keyed answer
  upsert. The browser store is a `class` whose key-value map the save, load
  and reset methods update.
- `Report` (report.dfy): `exportDataAsText`. An imperative method accumulates
  the report as the source does, loop by loop. It is proved equal to the
  text of `ReportLines`, a function giving the report line by line, and the
  properties of the report are proved about that function.
- `Summary` (summary.dfy): the grouping screen. It covers the selection
  toggle (a method on a copied set), group creation with its guard and
  palette colour, cascading group removal, and the per-category listing
  sorted by index.
- `Analysis` (analysis.dfy): the reflection screen. The reflection map is a
  `class` filled in place by a loop. It is copied and set on each edit and
  saved back as insights. This module also holds the per-group chart figures.
- `SampleData` (sampledata.dfy): the demonstration aggregate, on which the
  keying rules and the grouping layout are proved.

Clock readings (`Date.now()`, for timestamps and for new group ids) are
parameters. Whether the browser accepted a write is a parameter of the save.

## Model

| member | source | states |
|---|---|---|
| Types.SlotOf | lib/types.ts:3-5 | an id in 1..24 stands for a slot with category in 1..8 and index in 1..3 whose id is that id |
| Types.AnswerIdBijective | lib/storage.ts:44 | for a valid slot, `(c-1)*3+i` lies in 1..24 and the slot can be recovered from the id |
| Types.AnswerIdInjective | lib/storage.ts:44 | two valid slots with the same id are the same slot |
| Types.InCategory | lib/storage.ts:87 | the category filter keeps exactly the answers of that category |
| Types.CatalogueShape | lib/types.ts:43-100 | the catalogue has 8 categories, the k-th with id k+1, each with exactly 3 examples |
| Strings.NatToString | lib/storage.ts:90 | a number renders as a non-empty string of decimal digits |
| Strings.NatToStringRoundTrip | lib/storage.ts:90 | reading the digits back gives the number |
| Strings.NatToStringInjective | lib/storage.ts:90 | different numbers render differently |
| Strings.IntToString | lib/storage.ts:94 | a rendered integer is non-empty and starts with a digit when not negative and with a minus sign when negative |
| Strings.IntToStringValue | lib/storage.ts:94 | a non-negative n renders as digits that read back as n; a negative n renders as a minus sign followed by digits that read back as -n |
| Strings.Repeat | lib/storage.ts:83 | `c.repeat(n)` has length n and every character is c |
| Strings.UnlinesAppend | lib/storage.ts:82-125 | the text of two runs of lines is the text of the first followed by the text of the second |
| Storage.CreateInitialData | lib/storage.ts:27-34 | the initial aggregate has no answers, groups or insights, carries the given time, and is well formed |
| Storage.FindIndex | lib/storage.ts:45 | the first position holding the id, or -1 exactly when no answer has it |
| Storage.FindAnswer | lib/storage.ts:45 | a found answer is stored and has the id; nothing is found exactly when no answer has the id |
| Storage.UpdateAnswer | lib/storage.ts:37-64 | an existing id: same length, the new record at its position, every other entry identical; a new id: the record appended; groups and insights unchanged, timestamp set |
| Storage.UpdateAnswerReadBack | lib/storage.ts:44-53 | the answer then found under the slot's id has exactly the given category, index, text and purpose and no group; an earlier purpose or group is dropped |
| Storage.UpdateAnswerLength | lib/storage.ts:55-57 | the answer count grows by one exactly when the id was absent |
| Storage.UpdateAnswerIdempotent | lib/storage.ts:55-57 | writing the same slot twice gives the same answers as writing it once |
| Storage.UpdateAnswerKeepsIdsDistinct | lib/storage.ts:44-57 | distinct answer ids stay distinct |
| Storage.UpdateAnswerWellFormed | lib/storage.ts:37-64 | writing a valid slot keeps every keying rule of the aggregate |
| Storage.AtMostOneAnswerPerSlot | lib/types.ts:3-5 | a well-formed aggregate holds at most 24 answers |
| Storage.Store.SaveData | lib/storage.ts:6-12 | an accepted write replaces the value under the fixed key; a refused write changes nothing |
| Storage.Store.LoadData | lib/storage.ts:15-24 | the stored aggregate when the key holds one; nothing when the key is missing or holds unparsable text |
| Storage.Store.ResetData | lib/storage.ts:67-73 | the key is removed and every other key kept |
| Storage.SaveThenLoad | lib/storage.ts:6-24 | loading after a save returns the saved aggregate, and no other key appears or disappears |
| Storage.ResetThenLoad | lib/storage.ts:67-73 | loading after a reset finds nothing |
| Report.ExportDataAsText | lib/storage.ts:81-126 | the accumulated text is the report's lines, each followed by a newline |
| Report.WriteCategories | lib/storage.ts:86-100 | the category loop appends the blocks of categories 1..8 in ascending order |
| Report.WriteCategory | lib/storage.ts:87-99 | one category appends its heading, a rule of 50 '-', its answers' lines and a blank line, or nothing when it has no answer |
| Report.WriteAnswers | lib/storage.ts:93-98 | each answer appends its line, then a purpose line when its purpose is non-empty, in stored order |
| Report.WriteGroups | lib/storage.ts:108-122 | the group loop appends one block per group in stored order |
| Report.WriteGroup | lib/storage.ts:109-121 | one group appends its bracketed label, its member lines, its reflection line if any, and a blank line |
| Report.WriteMembers | lib/storage.ts:113-115 | one member line per member, in order |
| Report.MembersOf | lib/storage.ts:110-112 | a group's members are exactly the answers whose id the group lists |
| Report.FindInsight | lib/storage.ts:117 | the first insight stored for the group, or nothing exactly when there is none |
| Report.ReportOpensWithHeader | lib/storage.ts:82-83 | the report opens with the title line, a rule of exactly 50 '=', and a blank line |
| Report.InCategoryAppend | lib/storage.ts:87 | the category filter keeps stored order |
| Report.MembersOfAppend | lib/storage.ts:110-112 | the member filter keeps stored order |
| Report.MembersOfIgnoresStaleIds | lib/storage.ts:110-115 | a listed id that no answer carries adds no member |
| Report.NonEmptyCategories | lib/storage.ts:86-88 | the categories that are written are ascending and are exactly those in 1..8 that hold an answer |
| Report.CategoryBlockWith | lib/storage.ts:87-99 | of a category block only the heading can start with a heading prefix, and an empty category writes nothing |
| Report.CategorySectionHeadings | lib/storage.ts:86-91 | the headings of the category sections are those of the non-empty categories, in ascending order |
| Report.CategoryHeadingsOfReport | lib/storage.ts:86-91 | the whole report's category headings are one per non-empty category, ascending |
| Report.CategoryHeadingInjective | lib/storage.ts:90 | two categories from 1 up with the same heading are the same category |
| Report.CategoryHeadingsDistinct | lib/storage.ts:86-90 | ascending categories give pairwise distinct headings |
| Report.CategoryHeadingsOfReportDistinct | lib/storage.ts:86-90 | no two category headings of the report are the same |
| Report.HeaderText | lib/storage.ts:82-83 | the header lines make the text of the title, a newline, the '=' rule and an empty line |
| Report.ReportTextOpens | lib/storage.ts:82-83 | the exported text begins with the title line, the '=' rule and an empty line, whatever the answers, labels and reflections hold |
| Report.GroupSectionPresence | lib/storage.ts:103-106 | the group-analysis heading appears once exactly when there are groups, and never otherwise |
| Report.GroupHeadingsOfReport | lib/storage.ts:108-109 | the report's bracketed headings are the group labels, one per group in stored order |
| Report.GroupBlockMembers | lib/storage.ts:110-115 | a group's member lines are the texts of exactly the answers it lists, in stored answer order |
| Report.GroupBlockReflection | lib/storage.ts:117-120 | a group's block has a reflection line exactly when an insight for it exists, and it is the first one's |
| Report.PurposeLineOfAnswer | lib/storage.ts:94-97 | an answer gets a purpose line exactly when its purpose is present and non-empty |
| Report.PurposeLinesOfAnswers | lib/storage.ts:93-98 | the purpose lines of a run of answers are the non-empty purposes, in order |
| Summary.CanProceed | app/summary/page.tsx:28-33 | a screen proceeds exactly when data was loaded and holds an answer; the analysis screen applies the same guard |
| Summary.CanProceedAfterEdits | app/summary/page.tsx:28-33 | the guard refuses missing data and a fresh aggregate, lets any aggregate through once an answer is written, and is unchanged by creating or removing a group |
| Summary.Remove | app/summary/page.tsx:42 | deleting from the selection keeps every other id and no duplicates |
| Summary.ToggleAnswer | app/summary/page.tsx:39-47 | exactly the clicked id changes membership, and the selection stays duplicate-free |
| Summary.ToggleTwice | app/summary/page.tsx:39-47 | two clicks on the same id restore the selected set; an unselected id restores it exactly |
| Summary.TrimStart | app/summary/page.tsx:50 | leading JavaScript whitespace is stripped, and only that |
| Summary.TrimEnd | app/summary/page.tsx:50 | trailing JavaScript whitespace is stripped, and only that |
| Summary.BlankIffAllWhitespace | app/summary/page.tsx:50 | a label trims to empty exactly when all its characters are whitespace |
| Summary.ColorFor | app/summary/page.tsx:52 | the colour is palette entry `count mod 8`, hence one of the 8 palette strings |
| Summary.CreateGroup | app/summary/page.tsx:49-79 | no change exactly when the selection is empty or the label blank; otherwise selected answers get the new id, others stay, the new group (label as typed, selection as ids) is appended last, insights kept |
| Summary.CreateGroupColor | app/summary/page.tsx:52-56 | the new group's colour is the palette entry for its position mod 8 |
| Summary.CreateGroupWellFormed | app/summary/page.tsx:53-73 | with a fresh group id, creation keeps every keying rule |
| Summary.CreateGroupKeepsOldListing | app/summary/page.tsx:61-71 | a moved answer stays listed in its old group while naming the new one |
| Summary.OtherGroups | app/summary/page.tsx:94 | the groups kept are exactly those with another id |
| Summary.OtherInsights | app/summary/page.tsx:95 | the insights kept are exactly those for another group |
| Summary.RemoveGroup | app/summary/page.tsx:81-101 | no answer names the group afterwards, others keep their group; the group and its insights are dropped; the answer count is kept |
| Summary.OtherGroupsAppend | app/summary/page.tsx:94 | removal keeps the relative order of the remaining groups |
| Summary.OtherInsightsAppend | app/summary/page.tsx:95 | removal keeps the relative order of the remaining insights |
| Summary.RemoveGroupKeepsFirstReflection | app/summary/page.tsx:95 | for every other group, the first stored insight, the one the text report shows, is unchanged by the removal |
| Summary.RemoveGroupKeepsLastReflection | app/summary/page.tsx:95 | for every other group, the last stored insight, the one the analysis screen loads, is unchanged by the removal |
| Summary.RemoveUnknownGroup | app/summary/page.tsx:81-97 | removing an id nothing carries changes only the timestamp |
| Summary.RemoveGroupWellFormed | app/summary/page.tsx:83-97 | removal keeps every keying rule |
| Summary.CreateThenRemove | app/summary/page.tsx:49-101 | creating then removing a fresh group restores groups and insights, but leaves the selected answers ungrouped |
| Summary.InsertByIndex | app/summary/page.tsx:106 | inserting keeps the answers (as a multiset) and the order by index |
| Summary.SortByIndex | app/summary/page.tsx:106 | the result is sorted by index and a permutation of the input |
| Summary.SortByIndexStable | app/summary/page.tsx:106 | answers with equal index keep their stored order |
| Summary.AnswersByCategory | app/summary/page.tsx:104-107 | one entry per category in catalogue order, holding that category's answers sorted by index |
| Summary.AnswersByCategoryMembers | app/summary/page.tsx:104-107 | the entry of category k+1 holds exactly the answers of category k+1 |
| Analysis.Lookup | app/analysis/page.tsx:33 | a key reads nothing exactly when absent, and otherwise a value stored under it |
| Analysis.Put | app/analysis/page.tsx:61 | setting a present key keeps the key order; a new key goes last |
| Analysis.PutLookup | app/analysis/page.tsx:59-63 | after setting, the key reads the new value and every other key reads what it did before |
| Analysis.PutKeepsDistinct | app/analysis/page.tsx:33 | the map never holds a key twice |
| Analysis.PutTwice | app/analysis/page.tsx:61 | setting a key twice equals setting it once to the later value |
| Analysis.InsightMap.Set | app/analysis/page.tsx:61 | the map's entries become the set-updated entries and keys stay unique |
| Analysis.InsightMap.Copy | app/analysis/page.tsx:60 | the copy has the same entries in the same order |
| Analysis.LastReflection | app/analysis/page.tsx:50-53 | nothing exactly when no insight names the group; otherwise a stored insight's reflection |
| Analysis.LoadedLookup | app/analysis/page.tsx:50-53 | after loading, a group reads the last reflection stored for it: the later one wins |
| Analysis.LoadedDistinct | app/analysis/page.tsx:50-53 | the loaded map holds each group id once |
| Analysis.LoadInsightMap | app/analysis/page.tsx:50-53 | the loop builds the map that reads each group as its last stored reflection |
| Analysis.InsightChange | app/analysis/page.tsx:59-63 | the new map is the current one with one key set; the current map is left as it is |
| Analysis.ToInsights | app/analysis/page.tsx:66-69 | one insight per entry, in the map's order |
| Analysis.SaveInsights | app/analysis/page.tsx:65-79 | answers and groups are carried over, the timestamp is set, and insights are the entries, stale group ids included |
| Analysis.SaveInsightsDistinct | app/analysis/page.tsx:66-69 | the saved group ids are pairwise distinct |
| Analysis.SaveThenLoad | app/analysis/page.tsx:50-69 | saving a map and loading it back gives the same entries in the same order |
| Analysis.SavedReflections | app/analysis/page.tsx:65-79 | after a save, each group reads back its value in the saved map |
| Analysis.GroupData | app/analysis/page.tsx:131-135 | one bar per group in order, with the label and colour copied and the count of listed ids |
| Analysis.CountBoundsMembers | app/analysis/page.tsx:131-135 | a bar's count is at least the number of members the report lists |
| Analysis.CountExceedsMembers | app/analysis/page.tsx:131-135 | a bar's count is strictly larger than the number of members the report lists when the group lists an id no answer carries |
| SampleData.SampleIds | lib/sampleData.ts:4-44 | 24 answers, the k-th with id k+1, each in the slot its id stands for |
| SampleData.SamplePurposes | lib/sampleData.ts:4-44 | a purpose is present exactly on the answers with index 2 |
| SampleData.SampleGroupIds | lib/sampleData.ts:45-88 | 7 groups with distinct ids, every colour one of the 8 palette strings |
| SampleData.SampleNamesOwn | lib/sampleData.ts:4-88 | every answer names one of the 7 groups, and that group lists it |
| SampleData.SampleDisjoint | lib/sampleData.ts:45-88 | no id is listed by two groups |
| SampleData.SampleListsSlots | lib/sampleData.ts:45-88 | every listed id is in 1..24 and every id in 1..24 is listed |
| SampleData.SamplePartition | lib/sampleData.ts:45-88 | the groups' lists are pairwise disjoint and together are exactly 1..24 |
| SampleData.SampleWellFormed | lib/sampleData.ts:3-91 | the fixture is well formed, every answer is grouped, there are no insights, and the timestamp is the given time |
| SampleData.SampleFillsEverySlot | lib/sampleData.ts:4-44 | a reader finds an answer under each of the 24 slot ids |

## Left out

- Browser storage: `localStorage` is reduced to a map from keys to stored values. JSON encoding and decoding are not modelled: a stored value either is an aggregate or is text that does not parse, and load maps the latter to nothing.
- `exportDataAsJSON` (lib/storage.ts:76-78) is `JSON.stringify`, and JSON text is not modelled.
- `console.error`, and the exceptions the storage calls may throw, are not modelled. A refused write is the `accepted = false` case of `SaveData`. A failed reset is not modelled.
- `Date.now()` is a parameter: the timestamps, and the clock reading in a new group's id. Nothing in the source makes that id fresh, so the lemmas about creation require a fresh id.
- The React screens themselves are not modelled: rendering, routing, state hooks, the charts, the modal, the download through a data URL, and the date-stamped file name.
- The text report is modelled as lines joined with newlines (`Unlines`). Every piece the source appends ends in a newline, so the two texts agree.
- The line properties of the report (`Report.CategoryHeadingsOfReport`, `Report.GroupHeadingsOfReport`, `Report.GroupSectionPresence`, `Report.GroupBlockMembers`, `Report.GroupBlockReflection`, `Report.PurposeLinesOfAnswers`) hold of the pieces the source appends. Those pieces are the lines of the exported text only when no answer text, purpose, group label or reflection contains a newline. A reflection is typed into a multi-line text box, so a reflection `"a\n【b】"` adds a text line `【b】` that the group headings do not count. Only the opening lines are stated of the text itself (`Report.ReportTextOpens`).
- JavaScript `Set` and `Map` are modelled as duplicate-free sequences in insertion order, the order `Array.from` reads them in.
- The analysis screen keeps its own copy of the colour palette (app/analysis/page.tsx:13-22). It is identical to the summary screen's, and the model keeps one palette, `Summary.GROUP_COLORS`.
- The documented ranges of an answer are id 1..24, category 1..8 and index 1..3. They are stated as predicates (`SlotConsistent`, `WellFormed`), not enforced, because nothing in the source enforces them. `Storage.UpdateAnswerWellFormed` therefore requires a valid slot.
- The documented rule that only an answer with index 2 has a purpose is not enforced by the upsert either. It is proved only for the sample aggregate.
- The AI features, the static pages and the scripts under scripts/ are not part of this model.
