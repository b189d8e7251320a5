# hemoday core, modelled in Dafny

hemoday is an offline-first health diary for people who live with regular blood transfusions.
It records transfusions, blood analyses and reminders, and draws the haemoglobin level over time.
This project models the part of the app that owns its own logic, and proves properties of that model:

- **Reference-data bootstrap** (`seedDefaultData`).
  - The store is a class with four tables: component types, chelator types, analysis templates and template items.
  - One write purges the default rows whose ids are not the canonical ones.
  - Then one populate pass per table inserts the fixed-id defaults, and only into an empty table.
  - The seed is a method whose loops are proved against a function `Seed.Seeded` of the tables it starts from.
- **Analysis-template editor.** It holds the form's name and row list, and the list handlers.
  - Save either renames the template and replaces every child, or creates a template with its children.
  - Delete cascades to the template's children.
- **Analysis form.** It holds the template choice, the row list and the date. The row objects are those of the analysis being edited, and that sharing is modelled.
- **Calendar and date rules.**
  - The month grid and month navigation.
  - The `YYYY-MM-DD` key and its parse.
  - The click priority on a day cell, the "days since last transfusion" count, the recent-transfusions list and today's reminders.
  - The date picker: its selected-date default, its future-day rule, its popup state and its labels.
  - The time picker's `HH:MM` parse, option lists and handlers.
- **Chart.**
  - The data screen's point builder.
  - The chart component: sorting, the two-point guard, the value padding, the before/after series and the chelator bands.
  - The prototype's period filter.
- **Small state machines.**
  - The onboarding carousel.
  - The toast/dialog notification centre and its option-merging rules.
  - The application shell: login, guest login, logout, opening and closing an edit overlay, navigation and the bottom bar.

The single-file prototype (`App.tsx` at the repository root) shares parts of the model:

- Its month grid and month navigation are the calendar screen's (`Dates.MonthGrid`, `CalendarScreen.CalendarState`).
- Its shell handlers are `Navigation.App`.
- Its analysis form handlers (`App.tsx:695-727`) are those of `AnalysisForm.AnalysisForm`.
- Its chart filter, its click rule and its "days since" count differ from the screens', and are modelled in `Prototype`.

How time and dates are handled:

- "Now" is a parameter, `Dates.Clock`: the local date, the milliseconds into the local day, and a fixed UTC offset in minutes.
- Calendar dates are `Dates.LocalDate` triples (year, month index 0..11, day).
- A stored date is its `YYYY-MM-DD` key.
- A `new Date(key)` is the UTC midnight of the day the key names.

Where the code does something other than what its design states, the model follows the code:

- **The seed is not idempotent in every case.** A second seed on the first seed's output changes nothing, except when the first seed kept a "stranded" item. That is an item with a default name and a non-canonical id, whose default parent template was missing during the purge and which the populate pass then created. The second seed deletes that item. `Seed.SeedIdempotentUnlessStranded` states exactly when a second seed changes nothing. `Seed.SecondRunCanDelete` gives a store where it does. `Seed.SeedSettlesAfterTwoRuns` shows that a third seed never changes anything.
- **The data screen's chart does not filter by period.** The screen hands the chart a `period` the chart never reads, and leaves the three series switches undefined. See the findings below.

## Model

| member | source | states |
|---|---|---|
| Text.NatStr | src/screens/main/CalendarScreen.tsx:75-78 | `String(n)` of a natural number is a non-empty digit string, one digit long exactly when n < 10 |
| Text.NatStrValue | src/screens/main/CalendarScreen.tsx:75-78 | reading the digits of `String(n)` back gives n |
| Text.IntStr | src/screens/main/CalendarScreen.tsx:78 | a year printed into a key is non-empty, all digits when non-negative, and starts with '-' when negative |
| Text.PadStart2 | src/screens/main/CalendarScreen.tsx:76-77 | `padStart(2, '0')` keeps the string as its suffix, fills with '0' on the left, and has length max(2, \|s\|) |
| Text.Pad2Length | src/components/TimePicker.tsx:23 | a number 0..99 padded is exactly two characters |
| Text.Pad2TwoDigits | src/components/TimePicker.tsx:23 | a number 0..99 padded is two digits that read back as the number |
| Text.Pad2Injective | src/screens/main/CalendarScreen.tsx:76-77 | two numbers 0..99 with the same padded text are equal |
| Text.Split | src/components/TimePicker.tsx:15 | `split` gives at least one part, more than one exactly when the separator occurs, and the first part holds no separator |
| Text.SplitAtFirst | src/components/TimePicker.tsx:15 | splitting at a first separator gives the text before it, then the split of the rest |
| Text.SplitWithoutSeparator | src/components/TimePicker.tsx:15 | a text without the separator splits into itself alone |
| Text.NumberOf | src/components/TimePicker.tsx:15 | `Number(s)` is a non-negative number exactly when s is all digits, else NaN |
| Text.TrimStart | src/screens/analyses/AddAnalysisTemplateScreen.tsx:44 | the result is a suffix of s, everything dropped is whitespace, and it does not start with whitespace |
| Text.TrimEnd | src/screens/analyses/AddAnalysisTemplateScreen.tsx:44 | the result is a prefix of s, everything dropped is whitespace, and it does not end with whitespace |
| Text.TrimEmptyIffBlank | src/screens/analyses/AddAnalysisTemplateScreen.tsx:44-47 | `name.trim()` is empty exactly when every character of the name is whitespace |
| Text.Trim | src/screens/analyses/AddAnalysisTemplateScreen.tsx:44 | `trim()` gives a slice of s with only whitespace cut before and after it, and the result neither starts nor ends with whitespace |
| Text.Contains | src/screens/main/DataScreen.tsx:26 | `includes(sub)` holds exactly when sub occurs at some position of s |
| Text.LowerChar | src/screens/main/DataScreen.tsx:26 | the part of `toLowerCase` this model keeps: A..Z and the Cyrillic capitals U+0400..U+042F become their small letters, any other character is kept as it is, and the result is one of а..я exactly when the character is one of а..я or А..Я |
| Text.Lower | src/screens/main/DataScreen.tsx:26 | the model's lower-casing maps each character by `LowerChar`, one character for one |
| Lists.RemoveAt | src/screens/analyses/AddAnalysisTemplateScreen.tsx:38-41 | `filter((_, i) => i !== index)` drops exactly index i and keeps the order of the rest; an index out of range changes nothing |
| Lists.RemoveAtTakesOne | src/screens/analyses/AddAnalysisTemplateScreen.tsx:38-41 | removing index i takes exactly the element s[i] out of the multiset of rows |
| Lists.RemoveUndoesAppend | src/screens/analyses/AddAnalysisTemplateScreen.tsx:34-41 | removing the row `addItem` just appended gives back the list before it |
| Ordering.SortBy | src/components/HemoglobinChart.tsx:18-20 | sorting a copy by time gives a permutation of the input in ascending order |
| Ordering.SortByStable | src/screens/main/CalendarScreen.tsx:81-83 | the sort is stable: the elements with any one key come out in the order they went in |
| Ordering.SortedFirstIsLeast | src/screens/main/CalendarScreen.tsx:29-30 | the first element of a sorted list has the least key of all |
| Ordering.SortedPrefix | src/screens/main/CalendarScreen.tsx:106-107 | a `slice(0, k)` of a sorted list is a sorted sub-multiset whose keys are at most those of every element left out |
| Ordering.Filter | src/components/HemoglobinChart.tsx:65 | `filter` keeps only elements that satisfy the test, and no element that was not there |
| Ordering.FilterKeeps | src/components/HemoglobinChart.tsx:65-69 | every element that satisfies the test is kept |
| Ordering.FilterPartition | src/components/HemoglobinChart.tsx:65-69 | filtering by a test and by its negation splits the multiset of the input in two |
| Ordering.FilterSorted | src/components/HemoglobinChart.tsx:65-69 | filtering a sorted list keeps it sorted |
| Ordering.SortedMatches | src/screens/main/CalendarScreen.tsx:81-83 | the filtered and sorted elements come from the input and pass the test, there are none exactly when no element passes, and the first has the least key of all that pass |
| Dates.DaysInMonth | src/screens/main/CalendarScreen.tsx:48-50 | a month has 28 to 31 days, and 29 exactly for February of a leap year |
| Dates.FirstWeekday | src/screens/main/CalendarScreen.tsx:52-54 | `getDay()` of the 1st of a month is 0 (Sunday) to 6 |
| Dates.DayNumberOrder | src/components/DatePicker.tsx:181 | one date is before another exactly when its day count is smaller, and two dates are equal exactly when their day counts are |
| Dates.KeyParts | src/screens/main/CalendarScreen.tsx:75-78 | the key `DateKey` builds for a month 0..11 and a day 1..31 is the year, '-', the month + 1 padded to two, '-', the day padded to two |
| Dates.DateKeyInjective | src/screens/main/CalendarScreen.tsx:75-78 | two dates have the same key exactly when they are the same date |
| Dates.ParseDateKey | src/components/DatePicker.tsx:38 | a key that parses gives a valid date with a non-negative year |
| Dates.ParseDateKeyRoundTrip | src/components/DatePicker.tsx:56-61 | the key of a date with a four-digit year parses back to that date |
| Dates.ParseDateKeyInverse | src/components/DatePicker.tsx:38 | a string that parses to a four-digit-year date is that date's key |
| Dates.DateMs | src/screens/main/CalendarScreen.tsx:29-30 | `new Date(key).getTime()` is a whole number of days: midnight UTC of the day a key names, and 0 for a text that is not a key |
| Dates.DateMsOfKey | src/screens/main/CalendarScreen.tsx:29-30 | the time of a day's key is midnight UTC of that day, and a later day's key has the larger time |
| Dates.ShortYearKeyDoesNotParse | src/screens/main/CalendarScreen.tsx:75-78 | the key of a year below 1000 has fewer than four year digits and does not parse |
| Dates.NextMonthStart | src/screens/main/CalendarScreen.tsx:40-42 | `nextMonth` lands on day 1 of the next month, the current month's length after the 1st of the current one |
| Dates.PrevMonthStart | src/screens/main/CalendarScreen.tsx:44-46 | `prevMonth` lands on day 1 of the previous month, whose length brings it back to the 1st of the current one |
| Dates.PrevAfterNextMonth | src/screens/main/CalendarScreen.tsx:40-46 | next then previous, or previous then next, returns to the 1st of the month shown |
| Dates.MonthGrid | src/screens/main/CalendarScreen.tsx:56-72 | the two push loops build exactly the month's cells: the leading blanks, then the days |
| Dates.MonthGridLayout | src/screens/main/CalendarScreen.tsx:56-72 | the grid has firstDay blanks then days 1..n of that month in order, at most 42 cells, each day in the column of its weekday |
| Dates.UtcDayOfLocalMidnight | App.tsx:943 | `toISOString` of a local midnight names the UTC day holding that instant |
| Dates.LocalDayOfUtcMidnight | src/components/DatePicker.tsx:21 | `new Date(key)` seen in local time falls on the local day holding that UTC midnight |
| Store.ChildIds | src/database/models/AnalysisTemplate.ts:8-14 | a template's children are exactly the items whose `template_id` is its id |
| Store.Inserted | src/screens/analyses/AddAnalysisTemplateScreen.tsx:77-85 | a batch of creates adds exactly the new ids and leaves every other row as it was |
| Store.InsertedPlaces | src/screens/analyses/AddAnalysisTemplateScreen.tsx:77-85 | the row created under an id is the one given with it, unless a later create reuses the id |
| Store.InsertedSize | src/screens/analyses/AddAnalysisTemplateScreen.tsx:77-85 | a batch of fresh distinct ids grows the table by the number of creates |
| Store.TextColumn | src/database/models/AnalysisTemplate.ts:12 | a `@text` column stores its value trimmed: the slice of the input left after cutting only whitespace before and after it, with no whitespace at either of its ends |
| Store.TextColumnKeepsTrimmed | src/database/models/AnalysisTemplate.ts:12 | a value with no whitespace at either end is stored exactly as given |
| Store.Database.constructor | src/database/schema.ts:55-94 | the store opens on the four tables given |
| Store.Database.CreateComponent | src/database/seedDefaultData.ts:68-75 | a create adds the row under its id and changes no other table |
| Store.Database.CreateChelator | src/database/seedDefaultData.ts:101-107 | a create adds the row under its id and changes no other table |
| Store.Database.CreateTemplate | src/database/seedDefaultData.ts:139-144 | a create adds the row under its id and changes no other table |
| Store.Database.CreateItem | src/database/seedDefaultData.ts:145-151 | a create adds the row under its id and changes no other table |
| Store.Database.RenameTemplate | src/screens/analyses/AddAnalysisTemplateScreen.tsx:55-57 | `update` sets only the template's name, trimmed, and changes no other row or table |
| Store.Database.DestroyComponent | src/database/seedDefaultData.ts:24 | `destroyPermanently` removes exactly that row |
| Store.Database.DestroyChelator | src/database/seedDefaultData.ts:32 | `destroyPermanently` removes exactly that row |
| Store.Database.DestroyTemplate | src/database/seedDefaultData.ts:41 | `destroyPermanently` removes exactly that row |
| Store.Database.DestroyItem | src/database/seedDefaultData.ts:54 | `destroyPermanently` removes exactly that row |
| Seed.PurgeComponents | src/database/seedDefaultData.ts:19-26 | a component row goes exactly when it is default and its id is not canonical; every other row stays unchanged |
| Seed.PurgeChelators | src/database/seedDefaultData.ts:28-34 | the same rule for chelator rows and the four chelator ids |
| Seed.PurgeTemplates | src/database/seedDefaultData.ts:36-43 | the same rule for templates and the two template ids |
| Seed.PurgeItems | src/database/seedDefaultData.ts:45-59 | an item goes exactly when its id is not canonical, its name is a default name and its parent resolves to a default template; orphans stay |
| Seed.PurgeComponentRows | src/database/seedDefaultData.ts:19-26 | the loop over the fetched rows leaves exactly `PurgeComponents` of the table and changes no other table |
| Seed.PurgeChelatorRows | src/database/seedDefaultData.ts:28-34 | the loop leaves exactly `PurgeChelators` of the table and changes no other table |
| Seed.PurgeTemplateRows | src/database/seedDefaultData.ts:36-43 | the loop leaves exactly `PurgeTemplates` of the table and changes no other table |
| Seed.PurgeItemRows | src/database/seedDefaultData.ts:45-59 | the loop, resolving parents in the templates as the template loop left them, leaves exactly `PurgeItems` |
| Seed.PopulateComponents | src/database/seedDefaultData.ts:63-91 | the three defaults are written only when the table is empty |
| Seed.PopulateChelators | src/database/seedDefaultData.ts:96-130 | the four defaults are written only when the table is empty |
| Seed.CreateCbcTemplate | src/database/seedDefaultData.ts:139-171 | the first default template and exactly its four items are added |
| Seed.CreateBiochemTemplate | src/database/seedDefaultData.ts:174-206 | the second default template and exactly its four items are added |
| Seed.PopulateTemplates | src/database/seedDefaultData.ts:133-209 | the two templates and eight items are written only when the template table is empty |
| Seed.Seeded | src/database/seedDefaultData.ts:19-209 | after one run the component, chelator and template tables are not empty, and every row was there before or is a default |
| Seed.SeedDefaultData | src/database/seedDefaultData.ts:7-209 | the whole bootstrap leaves exactly `Seeded` of the tables it started from |
| Seed.SeededIsPopulatedPurged | src/database/seedDefaultData.ts:19-209 | the table-by-table result is the purge write followed by the populate passes |
| Seed.DefaultComponentsAreCanonical | src/database/seedDefaultData.ts:67-91 | the defaults are exactly the three canonical ids, all default, with sort order 1, 2, 3 |
| Seed.DefaultChelatorsAreCanonical | src/database/seedDefaultData.ts:100-128 | the defaults are exactly the four canonical ids, all default, with sort order 0 to 3 |
| Seed.DefaultTemplatesAreCanonical | src/database/seedDefaultData.ts:137-206 | the default templates are exactly the two canonical ids, both default |
| Seed.CbcItemsAreLinked | src/database/seedDefaultData.ts:139-171 | four items, each with `templateId` 'tmpl_cbc_01' |
| Seed.BiochemItemsAreLinked | src/database/seedDefaultData.ts:174-206 | four items, each with `templateId` 'tmpl_biochem_01' |
| Seed.DefaultItemsAreCanonical | src/database/seedDefaultData.ts:14-17 | the eight default items are exactly the canonical item ids, four per template with no id shared |
| Seed.SeedFillsComponents | src/database/seedDefaultData.ts:63-91 | a table whose every row is purged ends up holding exactly the three defaults |
| Seed.SeedFillsChelators | src/database/seedDefaultData.ts:96-130 | a table whose every row is purged ends up holding exactly the four defaults |
| Seed.SeedFillsTemplates | src/database/seedDefaultData.ts:133-209 | a template table whose every row is purged ends up holding exactly the two defaults |
| Seed.SeedAddsDefaultItems | src/database/seedDefaultData.ts:133-209 | when the templates are refilled, the items are the old ones plus the eight defaults |
| Seed.SeedItemsAfterEmptyPurge | src/database/seedDefaultData.ts:45-209 | when the template purge leaves nothing, the items are the purged ones plus the eight defaults |
| Seed.SeedTemplateChildren | src/database/seedDefaultData.ts:139-206 | after a refill, each default template's children are exactly its default items |
| Seed.DefaultCbcChildren | src/database/seedDefaultData.ts:139-171 | among the defaults, the first template's children are its four items |
| Seed.DefaultBiochemChildren | src/database/seedDefaultData.ts:174-206 | among the defaults, the second template's children are its four items |
| Seed.SeedNeverTopsUpComponents | src/database/seedDefaultData.ts:63-65 | a table the purge leaves non-empty is not populated, so a missing canonical id stays missing |
| Seed.SeedNeverTopsUpChelators | src/database/seedDefaultData.ts:96-98 | a table the purge leaves non-empty is not populated |
| Seed.SeedNeverTopsUpTemplates | src/database/seedDefaultData.ts:133-135 | a template table the purge leaves non-empty is not populated, and its items only go through the purge |
| Seed.SeedKeepsUserRows | src/database/seedDefaultData.ts:19-59 | rows that are not default, and the items of non-default templates, survive unchanged |
| Seed.SeedLeavesOrphans | src/database/seedDefaultData.ts:45-59 | the children of a purged template stay behind, pointing at a template that is gone |
| Seed.PurgeComponentsNothing | src/database/seedDefaultData.ts:19-26 | a table with no row to purge is left as it is |
| Seed.PurgeChelatorsNothing | src/database/seedDefaultData.ts:28-34 | a table with no row to purge is left as it is |
| Seed.PurgeTemplatesNothing | src/database/seedDefaultData.ts:36-43 | a table with no row to purge is left as it is |
| Seed.PurgeItemsNothing | src/database/seedDefaultData.ts:45-59 | an item table with no row to purge is left as it is |
| Seed.SeedComponentsIdempotent | src/database/seedDefaultData.ts:19-91 | after one seed the component table is non-empty and a second seed leaves it alone |
| Seed.SeedChelatorsIdempotent | src/database/seedDefaultData.ts:28-130 | after one seed the chelator table is non-empty and a second seed leaves it alone |
| Seed.SeedTemplatesIdempotent | src/database/seedDefaultData.ts:36-209 | after one seed the template table is non-empty, clean, and a second seed leaves it alone |
| Seed.SeedItemsUnderCleanTemplates | src/database/seedDefaultData.ts:45-59 | under a non-empty clean template table, a seed only purges the items |
| Seed.ItemsSettleUnderKeptTemplates | src/database/seedDefaultData.ts:45-59 | when some template survives the purge, the kept items are clean against the kept templates |
| Seed.ItemsSettleAfterRefill | src/database/seedDefaultData.ts:45-209 | after a refill with no stranded item, the items are clean against the default templates |
| Seed.StrandedItemFlips | src/database/seedDefaultData.ts:45-209 | a stranded item survives the first seed unchanged and is deleted by the second |
| Seed.ItemsSettle | src/database/seedDefaultData.ts:45-209 | the seeded items are clean against the seeded templates exactly when no stranded item was left |
| Seed.SeedIdempotentUnlessStranded | src/database/seedDefaultData.ts:19-209 | a second seed changes nothing exactly when the first left no stranded item |
| Seed.SeedSettlesAfterTwoRuns | src/database/seedDefaultData.ts:19-209 | a third seed never changes anything |
| Seed.SecondRunCanDelete | src/database/seedDefaultData.ts:45-59 | a store with no templates and one default-named user item under 'tmpl_cbc_01': the first seed keeps it, the second deletes it |
| Seed.ExampleItemIsStranded | src/database/seedDefaultData.ts:45-59 | that item is stranded and is kept by the first purge |
| Seed.SeedDropsDefaultNamedChild | src/database/seedDefaultData.ts:45-59 | a default-named, non-canonical child of a canonical default template does not survive a seed |
| TemplateEditor.SetField | src/screens/analyses/AddAnalysisTemplateScreen.tsx:28-32 | `handleItemChange` sets only the chosen field of row i; the length and every other row stay, and an index out of range changes nothing |
| TemplateEditor.Rows | src/screens/analyses/AddAnalysisTemplateScreen.tsx:77-83 | one item per form row, in order, linked to the template |
| TemplateEditor.AddsRow | src/screens/analyses/AddAnalysisTemplateScreen.tsx:77-85 | the item created for row k carries row k's name and unit under the template |
| TemplateEditor.AddsChildren | src/screens/analyses/AddAnalysisTemplateScreen.tsx:77-85 | a template with no children gets exactly the new ids as children |
| TemplateEditor.BlankNameWritesNothing | src/screens/analyses/AddAnalysisTemplateScreen.tsx:44-47 | a whitespace-only name ends in the alert and leaves the store exactly as it was |
| TemplateEditor.EditSaveReplacesChildren | src/screens/analyses/AddAnalysisTemplateScreen.tsx:53-71 | after an edit-save the template's children are exactly the new rows, each with its form name and unit |
| TemplateEditor.EditSave | src/screens/analyses/AddAnalysisTemplateScreen.tsx:53-71 | the edited template gets the trimmed new name and keeps its default flag; its old children go unless a new row reuses the id; every new row is written; every other template, item and table stays |
| TemplateEditor.CreateSave | src/screens/analyses/AddAnalysisTemplateScreen.tsx:72-85 | a create-save adds one non-default template with the trimmed name, keeps every other template, adds exactly the new rows' ids to the items and keeps the other items and tables |
| TemplateEditor.CreateSaveTemplateCount | src/screens/analyses/AddAnalysisTemplateScreen.tsx:72-75 | under an id not yet in use the template table grows by exactly one |
| TemplateEditor.CreateSaveAddsChildren | src/screens/analyses/AddAnalysisTemplateScreen.tsx:77-85 | it gets one child per form row, each linked to it with that row's name and unit |
| TemplateEditor.CreateSaveCount | src/screens/analyses/AddAnalysisTemplateScreen.tsx:72-85 | the item table grows by exactly the number of form rows |
| TemplateEditor.DeleteTemplate | src/screens/analyses/AddAnalysisTemplateScreen.tsx:96-105 | after delete neither the template nor any item pointing at it remains; everything else stays |
| TemplateEditor.DeleteCount | src/screens/analyses/AddAnalysisTemplateScreen.tsx:100-104 | the item table shrinks by exactly the template's number of children |
| TemplateEditor.SaveResult | src/screens/analyses/AddAnalysisTemplateScreen.tsx:43-94 | a blank name gives the alert, a missing edited template a failure, and both write nothing; a save writes the trimmed name under the edited or new id with every new row; the component and chelator tables never change |
| TemplateEditor.DeleteResult | src/screens/analyses/AddAnalysisTemplateScreen.tsx:96-113 | outside edit mode nothing changes; in edit mode the template and all its children are gone; the component and chelator tables never change |
| TemplateEditor.UnchangedEditKeepsChildCount | src/screens/analyses/AddAnalysisTemplateScreen.tsx:20-71 | saving the fetched rows unchanged keeps the number of children |
| TemplateEditor.EditThenSeedDropsDefaultNamedRow | src/screens/analyses/AddAnalysisTemplateScreen.tsx:53-71 | an edit-save of a canonical default template recreates its default-named rows under new ids, and the next seed deletes them |
| TemplateEditor.Loaded | src/screens/analyses/AddAnalysisTemplateScreen.tsx:22-23 | the fetched children become form rows with their names and units, in fetch order |
| TemplateEditor.TemplateForm.constructor | src/screens/analyses/AddAnalysisTemplateScreen.tsx:15-18 | the form starts with the template's name or '', one empty row, and edit mode exactly when a template is given |
| TemplateEditor.TemplateForm.SetName | src/screens/analyses/AddAnalysisTemplateScreen.tsx:15 | the name input sets the name and keeps the rows |
| TemplateEditor.TemplateForm.LoadItems | src/screens/analyses/AddAnalysisTemplateScreen.tsx:20-26 | when editing, the rows become the fetched children; otherwise they stay |
| TemplateEditor.TemplateForm.ChangeItem | src/screens/analyses/AddAnalysisTemplateScreen.tsx:28-32 | the rows become `SetField` of the old rows |
| TemplateEditor.TemplateForm.AddItem | src/screens/analyses/AddAnalysisTemplateScreen.tsx:34-36 | one empty row is appended and the others stay |
| TemplateEditor.TemplateForm.RemoveItem | src/screens/analyses/AddAnalysisTemplateScreen.tsx:38-41 | the rows become `RemoveAt` of the old rows |
| TemplateEditor.TemplateForm.Save | src/screens/analyses/AddAnalysisTemplateScreen.tsx:43-94 | the outcome and the new store are `SaveResult`: blank name, edit-save, create-save, or failure on a missing template |
| TemplateEditor.TemplateForm.Delete | src/screens/analyses/AddAnalysisTemplateScreen.tsx:96-113 | the store becomes the cascade when editing, and is unchanged otherwise |
| TemplateEditor.DestroyChildren | src/screens/analyses/AddAnalysisTemplateScreen.tsx:60-61 | the loop of destroys removes exactly the template's children |
| TemplateEditor.CreateChildren | src/screens/analyses/AddAnalysisTemplateScreen.tsx:63-71 | the loop of creates leaves exactly `Inserted` of the item table |
| AnalysisForm.Put | src/screens/analyses/AddAnalysisScreen.tsx:41 | writing a field sets it and keeps the other two |
| AnalysisForm.SetField | src/screens/analyses/AddAnalysisScreen.tsx:39-43 | only the chosen field of row i changes; the length and every other row stay; an index out of range changes nothing |
| AnalysisForm.Names | src/screens/analyses/AddAnalysisScreen.tsx:22-33 | the names of the rows, in order |
| AnalysisForm.TemplateChoices | src/screens/analyses/AddAnalysisScreen.tsx:20-37 | 'common' gives Гемоглобин, Ферритин, Тромбоциты and 'biochem' gives АЛТ, АСТ, Билирубин, all with empty values; 'new' gives one empty row |
| AnalysisForm.OtherChoiceKeepsRows | src/screens/analyses/AddAnalysisScreen.tsx:20-37 | any other choice leaves the rows as they were |
| AnalysisForm.Item.constructor | src/screens/analyses/AddAnalysisScreen.tsx:13-15 | a new row object holds the given content |
| AnalysisForm.Item.Set | src/screens/analyses/AddAnalysisScreen.tsx:41 | `newItems[index][field] = val` writes into the row object itself |
| AnalysisForm.Analysis.constructor | src/screens/analyses/AddAnalysisScreen.tsx:8 | an analysis holds its date and its row objects |
| AnalysisForm.RowsOf | src/screens/analyses/AddAnalysisScreen.tsx:13-15 | the rows shown are the contents of the row objects, in order |
| AnalysisForm.RowsOfRemoveAt | src/screens/analyses/AddAnalysisScreen.tsx:49-52 | removing an object removes its row |
| AnalysisForm.AnalysisForm.constructor | src/screens/analyses/AddAnalysisScreen.tsx:12-16 | the 'custom' choice and the analysis's own row objects when editing; otherwise '' and one empty row; the date is the analysis's or today's UTC date |
| AnalysisForm.AnalysisForm.ChangeTemplate | src/screens/analyses/AddAnalysisScreen.tsx:20-37 | the choice is recorded and the rows become `TemplateRows` of the choice; another choice keeps the same objects |
| AnalysisForm.AnalysisForm.ChangeItem | src/screens/analyses/AddAnalysisScreen.tsx:39-43 | as written: the list keeps the same objects and only row i's object is written, so the rows become `SetField` of the old rows |
| AnalysisForm.AnalysisForm.ChangeItemCopied | src/screens/analyses/AddAnalysisScreen.tsx:39-43 | with row i copied first, the rows become `SetField` of the old rows and no earlier object is written |
| AnalysisForm.AnalysisForm.AddItem | src/screens/analyses/AddAnalysisScreen.tsx:45-47 | one empty row is appended |
| AnalysisForm.AnalysisForm.RemoveItem | src/screens/analyses/AddAnalysisScreen.tsx:49-52 | the rows become `RemoveAt` of the old rows |
| AnalysisForm.AnalysisForm.SetDate | src/screens/analyses/AddAnalysisScreen.tsx:66 | the date picker sets the date and nothing else |
| AnalysisForm.EditReachesOpenedAnalysis | src/screens/analyses/AddAnalysisScreen.tsx:39-43 | editing a value of an opened analysis changes that analysis's own row, with nothing saved |
| AnalysisForm.CopiedEditLeavesOpenedAnalysis | src/screens/analyses/AddAnalysisScreen.tsx:39-43 | with the copy, the opened analysis keeps its rows |
| CalendarScreen.FindReminder | src/screens/main/CalendarScreen.tsx:92 | `find` gives the first reminder on the date, and nothing exactly when there is none |
| CalendarScreen.OnDateNewestFirst | src/screens/main/CalendarScreen.tsx:80-83 | the day's list holds only transfusions of that day, is empty exactly when the day has none, and starts with one of the largest `createdAt` |
| CalendarScreen.ClickOn | src/screens/main/CalendarScreen.tsx:74-101 | a day with transfusions edits one of them with the largest `createdAt`; a day without them edits its first reminder; a day with neither opens "add transfusion" |
| CalendarScreen.ClickOpensFirstListedNewest | src/screens/main/CalendarScreen.tsx:80-87 | when several transfusions of the day share the largest `createdAt`, the one opened is the first of them in the list |
| CalendarScreen.CellMarks | src/screens/main/CalendarScreen.tsx:216-222 | a cell is marked for a transfusion or a reminder exactly when one has its key, and as today exactly on today |
| CalendarScreen.UnmarkedCellsOpenAdd | src/screens/main/CalendarScreen.tsx:74-101 | a click opens "add transfusion" exactly on a cell with neither mark |
| CalendarScreen.DaysSince | src/screens/main/CalendarScreen.tsx:21-33 | 0 without transfusions, else the whole days between now and the latest transfusion date |
| CalendarScreen.LatestIsFirst | src/screens/main/CalendarScreen.tsx:29-30 | after the sort the first transfusion has the latest date |
| CalendarScreen.Chosen | src/screens/main/CalendarScreen.tsx:106-107 | the recent list has min(5, n) entries |
| CalendarScreen.ChosenAreTheLatest | src/screens/main/CalendarScreen.tsx:106-107 | they come from the list, latest first, and none left out is later than one chosen |
| CalendarScreen.ChosenParse | src/screens/main/CalendarScreen.tsx:106-107 | the chosen records have parseable dates when all did |
| CalendarScreen.RecentLine | src/screens/main/CalendarScreen.tsx:107-112 | an entry keeps the id, shows `hbAfter` and the component or the 'Гемоглобин' fallback |
| CalendarScreen.RecentLineShiftsWestOfUtc | src/screens/main/CalendarScreen.tsx:109 | west of UTC the shown day is the day before the recorded one |
| CalendarScreen.RecentLineLocal | src/screens/main/CalendarScreen.tsx:107-112 | the entry with the day read as a local date keeps the id, `hbAfter` and the type |
| CalendarScreen.RecentLineLocalNamesItsDay | src/screens/main/CalendarScreen.tsx:109 | read as a local date, the shown day is the recorded one |
| CalendarScreen.RecentLines | src/screens/main/CalendarScreen.tsx:107-112 | one entry per chosen record, in order |
| CalendarScreen.RecentLinesLocal | src/screens/main/CalendarScreen.tsx:107-112 | one local-day entry per chosen record, in order |
| CalendarScreen.RecentListWestOfUtc | src/screens/main/CalendarScreen.tsx:104-113 | west of UTC every entry of the recent list shows a day other than its record's |
| CalendarScreen.RecentListLocal | src/screens/main/CalendarScreen.tsx:104-113 | with local days every entry shows its record's day |
| CalendarScreen.TodayReminders | src/screens/main/CalendarScreen.tsx:134-138 | only reminders of today's key, from the list |
| CalendarScreen.TodayRemindersComplete | src/screens/main/CalendarScreen.tsx:134-138 | every reminder with today's key is among them |
| CalendarScreen.WidgetOrButton | src/screens/main/CalendarScreen.tsx:132-196 | with reminders today exactly one of the widget and the "show" button appears; without, neither |
| CalendarScreen.CalendarState.constructor | src/screens/main/CalendarScreen.tsx:18-19 | the calendar opens on today with the reminders shown |
| CalendarScreen.CalendarState.NextMonth | src/screens/main/CalendarScreen.tsx:40-42 | the month shown becomes the 1st of the next month |
| CalendarScreen.CalendarState.PrevMonth | src/screens/main/CalendarScreen.tsx:44-46 | the month shown becomes the 1st of the previous month |
| CalendarScreen.CalendarState.Hide | src/screens/main/CalendarScreen.tsx:151 | "hide" hides the reminders and keeps the month |
| CalendarScreen.CalendarState.Show | src/screens/main/CalendarScreen.tsx:189 | "show" shows them again and keeps the month |
| CalendarScreen.CalendarState.Days | src/screens/main/CalendarScreen.tsx:56-72 | the grid of the month shown |
| CalendarScreen.NextThenPrevMonth | src/screens/main/CalendarScreen.tsx:40-46 | next then previous from the start lands on the 1st of the current month |
| CalendarScreen.HideThenShow | src/screens/main/CalendarScreen.tsx:151-189 | hide then show brings today's widget back |
| DatePicker.SelectedDate | src/components/DatePicker.tsx:65-67 | the value when non-empty, else today's key, and never empty |
| DatePicker.KeyNonEmpty | src/components/DatePicker.tsx:61 | a key is never empty |
| DatePicker.Format | src/components/DatePicker.tsx:35-54 | '' shows 'Сегодня' in full and '' in compact mode; a non-date shows "Invalid Date" |
| DatePicker.ButtonNeverShowsFallback | src/components/DatePicker.tsx:65-67 | the button is given the selected date, so neither empty-string label ever appears |
| DatePicker.ButtonShowsDayBeforeWestOfUtc | src/components/DatePicker.tsx:38-39 | west of UTC the button shows the day before the chosen one; at or east of UTC the chosen one |
| DatePicker.FormatLocal | src/components/DatePicker.tsx:35-54 | the labels with the key read as a local date keep the empty-string labels |
| DatePicker.LocalButtonShowsChosenDay | src/components/DatePicker.tsx:35-54 | read as a local date, the button shows the chosen day |
| DatePicker.FutureIffAfterToday | src/components/DatePicker.tsx:181 | `date > new Date()` for a day's local midnight holds exactly for days after today |
| DatePicker.Cell | src/components/DatePicker.tsx:178-184 | a day is disabled exactly when future days are not allowed and it is after today; marked today exactly on today |
| DatePicker.SelectedCell | src/components/DatePicker.tsx:179 | the cell of the selected day, or of today when the value is '', is the one marked selected |
| DatePicker.Picker.constructor | src/components/DatePicker.tsx:16-22 | closed, showing the month of `new Date(value or today)` |
| DatePicker.Picker.Toggle | src/components/DatePicker.tsx:16 | the button flips the popup and keeps the month |
| DatePicker.Picker.Close | src/components/DatePicker.tsx:25-33 | a click outside closes the popup and keeps the month |
| DatePicker.Picker.NextMonth | src/components/DatePicker.tsx:74-76 | the 1st of the next month, the popup unchanged |
| DatePicker.Picker.PrevMonth | src/components/DatePicker.tsx:78-80 | the 1st of the previous month, the popup unchanged |
| DatePicker.Picker.Days | src/components/DatePicker.tsx:90-106 | the grid of the month shown, or none for an invalid date |
| DatePicker.Picker.ClickDay | src/components/DatePicker.tsx:56-63 | a disabled day emits nothing and keeps the popup; another emits its key and closes |
| DatePicker.Picker.ClickToday | src/components/DatePicker.tsx:208-211 | emits today's key and closes |
| DatePicker.ChosenKeyReadsBack | src/components/DatePicker.tsx:56-63 | an emitted key parses back to the clicked day, which is not after today unless future days are allowed; nothing is emitted exactly for a disabled day |
| DatePicker.PopupOpensOnPreviousMonth | src/components/DatePicker.tsx:17-22 | west of UTC a value on the 1st of a month opens the popup on the previous month |
| DatePicker.InitialMonthLocal | src/components/DatePicker.tsx:17-22 | the month read as a local date is a valid date when there is one |
| DatePicker.LocalPopupOpensOnChosenMonth | src/components/DatePicker.tsx:17-22 | read as a local date, the popup opens on the chosen day, or on today for '' |
| TimePicker.Parse | src/components/TimePicker.tsx:15 | the minutes are `undefined` exactly when the value has no ':', and the hours never are |
| TimePicker.NoColonNoMinutes | src/components/TimePicker.tsx:15 | a value without ':' has its `Number` as hours and undefined minutes |
| TimePicker.HourOptions | src/components/TimePicker.tsx:18 | 24 options, option i is i |
| TimePicker.MinuteOptions | src/components/TimePicker.tsx:20 | 12 options, option i is 5i |
| TimePicker.HourOptionsAreTheDay | src/components/TimePicker.tsx:18 | an hour is offered exactly when it is 0..23 |
| TimePicker.MinuteOptionsAreFiveMinuteSteps | src/components/TimePicker.tsx:20 | a minute is offered exactly when it is a multiple of 5 in 0..55 |
| TimePicker.Format | src/components/TimePicker.tsx:22-30 | for hours and minutes 0..99 the text is two digits reading as the hours, ':', two digits reading as the minutes |
| TimePicker.HourChange | src/components/TimePicker.tsx:22-25 | with numeric minutes, `handleHourChange` emits the new hour and the current minutes, both padded |
| TimePicker.MinuteChange | src/components/TimePicker.tsx:27-30 | with numeric hours, `handleMinuteChange` emits the current hours and the new minute, both padded |
| TimePicker.ParseParts | src/components/TimePicker.tsx:15 | a value `a:b` without another ':' parses to (`Number(a)`, `Number(b)`) |
| TimePicker.ParseFormat | src/components/TimePicker.tsx:15-30 | parsing a formatted `HH:MM` gives back the two numbers |
| TimePicker.HourChangeRoundTrip | src/components/TimePicker.tsx:15-25 | changing the hour of a valid time keeps its minutes, and the result parses to (hour, minutes) |
| TimePicker.MinuteChangeRoundTrip | src/components/TimePicker.tsx:15-30 | changing the minute of a valid time keeps its hours, and the result parses to (hours, minute) |
| TimePicker.NoMinutesHourChange | src/components/TimePicker.tsx:22-25 | for a value without ':' the hour handler emits `HH:undefined` |
| TimePicker.EmptyValueHourChange | src/components/TimePicker.tsx:15-25 | on an empty value the hour handler emits `HH:undefined`, whose minutes parse to NaN |
| TimePicker.EmptyValueMinuteChange | src/components/TimePicker.tsx:15-30 | on an empty value the minute handler emits `00:MM` |
| Chart.MinValue | src/components/HemoglobinChart.tsx:36 | `Math.min` of the values is one of them and at most each |
| Chart.MaxValue | src/components/HemoglobinChart.tsx:37 | `Math.max` of the values is one of them and at least each |
| Chart.MonthStartBack | App.tsx:201-204 | the first of the month exactly k months before the month of d, a valid date, earlier years included |
| Chart.CutoffMs | App.tsx:199-205 | ALL cuts off at the epoch; any other period at the same local time of day on the same day of the month, 1, 3, 6 or 12 months back, rolled over into the next month when that month is too short |
| Chart.YearBackKeepsMonth | App.tsx:204 | the 1Y period goes back to the same month of the previous year |
| Chart.PeriodFilter | App.tsx:207-208 | exactly the points of the period are kept, once per occurrence |
| Chart.MonthStartsOrdered | App.tsx:201-204 | going back further lands no later |
| Chart.CutoffsNested | App.tsx:199-205 | a longer period has an earlier or equal cutoff |
| Chart.CutoffBeforeNow | App.tsx:199-204 | every cutoff but ALL lies before now |
| Chart.PeriodsNested | App.tsx:197-210 | a point within a shorter period is within every longer one |
| HemoglobinChart.PathOf | src/components/HemoglobinChart.tsx:55-62 | one step per point, a move to the first and a line to each other; no step for no point |
| HemoglobinChart.SortedData | src/components/HemoglobinChart.tsx:18-20 | a permutation of the data in ascending time |
| HemoglobinChart.Render | src/components/HemoglobinChart.tsx:22-70 | the empty state exactly below two points; else a value range of at least 10 strictly around every value and a time range holding every point |
| HemoglobinChart.Bounds | src/components/HemoglobinChart.tsx:35-39 | the padded range is at least 10 wide, so the zero-range branch of `getY` cannot be taken |
| HemoglobinChart.SeriesPartition | src/components/HemoglobinChart.tsx:65-70 | the before/analysis series and the after series split the sorted data, each in time order |
| HemoglobinChart.BothSeriesShowEveryPoint | src/components/HemoglobinChart.tsx:109-122 | with both series on, the dots are the data, sorted, one path step per dot |
| HemoglobinChart.DotsAreTheData | src/components/HemoglobinChart.tsx:117-122 | with both series on, a point is a dot exactly when it is in the data |
| HemoglobinChart.BandsAtChelators | src/components/HemoglobinChart.tsx:88-106 | a band is drawn exactly for the points with a chelator, and only when bands are switched on |
| HemoglobinChart.SwitchedOffSeriesDrawsNothing | src/components/HemoglobinChart.tsx:109-122 | with both series off no path and no dot is drawn |
| DataScreen.FindHb | src/screens/main/DataScreen.tsx:26 | the first item whose lower-cased name contains 'гемоглобин', and nothing exactly when there is none |
| DataScreen.ChartData | src/screens/main/DataScreen.tsx:19-32 | the two loops and the sort give the pushed points as a permutation in ascending time |
| DataScreen.Pushed | src/screens/main/DataScreen.tsx:19-31 | the transfusions' points come first, the analysis points exactly after them, and no point is marked with a chelator |
| DataScreen.PointCount | src/screens/main/DataScreen.tsx:19-31 | two points per transfusion and one per analysis with a haemoglobin item |
| DataScreen.TransfusionPairs | src/screens/main/DataScreen.tsx:21-24 | transfusion i pushes its before value at 2i and its after value at 2i + 1 |
| DataScreen.AnalysisPointsAreFirstHb | src/screens/main/DataScreen.tsx:25-30 | an analysis with a haemoglobin item pushes an analysis point on its date valued at the first such item, and every analysis point comes from one |
| DataScreen.SampleHasOneHbAnalysis | src/screens/main/DataScreen.tsx:25 | the sample analyses are one record with a haemoglobin item |
| DataScreen.ScreenChartDrawsNoSeries | src/screens/main/DataScreen.tsx:72 | as rendered, the chart draws no series, dot or band, and with any transfusion shows the grid |
| DataScreen.IntendedChartShowsThePeriod | src/screens/main/DataScreen.tsx:72 | with the period applied and the switches on, the dots are exactly the pushed points of the period |
| Onboarding.FourSlides | src/components/Onboarding.tsx:10-39 | four slides, numbered 1 to 4 |
| Onboarding.Carousel.constructor | src/components/Onboarding.tsx:42 | the carousel starts on slide 0 |
| Onboarding.Carousel.IsLastSlide | src/components/Onboarding.tsx:52 | last exactly on slide 3 |
| Onboarding.Carousel.ButtonLabel | src/components/Onboarding.tsx:98-102 | 'Начать' exactly on the last slide, 'Далее' exactly before it |
| Onboarding.Carousel.Dots | src/components/Onboarding.tsx:83-89 | one dot per slide, exactly the current one wide |
| Onboarding.Carousel.HandleNext | src/components/Onboarding.tsx:44-50 | completes exactly on slide 3 and stays; otherwise moves one slide on; the slide stays in 0..3 |
| Onboarding.PressUntilComplete | src/components/Onboarding.tsx:42-50 | from the start, completion takes exactly four presses and ends on slide 3 |
| Notifications.Spread | src/context/NotificationContext.tsx:51 | in an object spread a field present in the options wins, an absent one keeps the default |
| Notifications.ToastOf | src/context/NotificationContext.tsx:47-53 | a string gives an info toast of 3000 ms; options keep their message and type, and their duration unless absent |
| Notifications.AlertDialog | src/context/NotificationContext.tsx:59-71 | title, message, type defaulting to info, `isAlert`, 'OK', no cancel, and a confirm that hides then calls back |
| Notifications.ConfirmDefaults | src/context/NotificationContext.tsx:73-90 | without options: warning, 'Подтвердить', 'Отмена', confirm hides then calls back, cancel hides |
| Notifications.ConfirmOptionsOverride | src/context/NotificationContext.tsx:73-80 | every option present overrides its default, every absent one keeps it |
| Notifications.ConfirmKeepsWrappers | src/context/NotificationContext.tsx:81-88 | the callbacks are always the hiding wrappers; cancel then calls the caller's `onCancel` |
| Notifications.Center.constructor | src/context/NotificationContext.tsx:40-42 | no toast, no dialog, not loading |
| Notifications.Center.ShowToast | src/context/NotificationContext.tsx:47-53 | the toast becomes `ToastOf` the argument; nothing else changes |
| Notifications.Center.ShowDialog | src/context/NotificationContext.tsx:55-57 | the dialog becomes the options given |
| Notifications.Center.ShowAlert | src/context/NotificationContext.tsx:59-71 | the dialog becomes the alert |
| Notifications.Center.ShowConfirm | src/context/NotificationContext.tsx:73-90 | the dialog becomes the confirm |
| Notifications.Center.SetLoading | src/context/NotificationContext.tsx:92-94 | only the loading flag changes |
| Notifications.Center.HideToast | src/context/NotificationContext.tsx:44 | the toast is cleared |
| Notifications.Center.HideDialog | src/context/NotificationContext.tsx:45 | the dialog is cleared |
| Notifications.Center.Run | src/context/NotificationContext.tsx:66-88 | running a callback's effects makes exactly its calls, and clears the dialog exactly when it hides |
| Notifications.AlertThenOk | src/context/NotificationContext.tsx:59-71 | pressing OK on an alert closes it and calls exactly the caller's callback, if any |
| Notifications.ConfirmThenAnswer | src/context/NotificationContext.tsx:73-90 | either answer closes the confirm; confirm calls `onConfirm`, cancel calls the caller's `onCancel` |
| Notifications.CallsOfAppend | src/context/NotificationContext.tsx:81-88 | the calls of two effect lists in a row are the calls of each in turn |
| Notifications.UseNotification | src/context/NotificationContext.tsx:114-119 | outside a provider the hook fails with its message; inside it gives the context |
| Navigation.EditScreen | src/App.tsx:47-52 | each kind of item opens its own edit overlay, which is not a tab |
| Navigation.EditScreenInjective | src/App.tsx:49-51 | two kinds open the same overlay only when they are the same kind |
| Navigation.App.constructor | src/App.tsx:17-24 | the login screen, login mode, logged out, not guest, notifications off, no item |
| Navigation.App.ShowBottomNav | src/App.tsx:165 | shown exactly when logged in on the calendar, data or profile screen |
| Navigation.App.Login | src/App.tsx:27-31 | logged in, not guest, on the calendar |
| Navigation.App.GuestLogin | src/App.tsx:33-37 | logged in as guest, on the calendar |
| Navigation.App.Logout | src/App.tsx:39-44 | logged out, not guest, on the login screen in login mode; the item is kept |
| Navigation.App.EditItem | src/App.tsx:47-52 | the item is stored and the overlay for its kind opens |
| Navigation.App.CloseOverlay | src/App.tsx:54-57 | the item is cleared and the data screen shows |
| Navigation.App.Navigate | src/App.tsx:177-187 | the screen becomes the one asked for, nothing else changes |
| Navigation.App.SetAuthMode | src/App.tsx:98 | only the auth form's mode changes |
| Navigation.LoginShowsBottomNav | src/App.tsx:27-37 | the bar is hidden before login, and either login shows it on the calendar |
| Navigation.LogoutHidesBottomNav | src/App.tsx:39-44 | logging out from any tab hides the bar and returns to the login form |
| Navigation.EditThenClose | src/App.tsx:47-57 | the bar is hidden while an overlay is up, and closing returns to the data screen with the bar and no item |
| Prototype.FilteredData | App.tsx:197-210 | the points of the period, sorted by time, as many as the period holds |
| Prototype.ChartRenders | App.tsx:212 | the chart is drawn exactly when at least two points are in the period |
| Prototype.LongerPeriodRendersToo | App.tsx:197-212 | a longer period keeps at least as many points, so a drawn chart stays drawn |
| Prototype.FindOn | App.tsx:945 | `find` gives the first record of the date, and nothing exactly when there is none |
| Prototype.ClickOnKey | App.tsx:945-955 | the first transfusion on the key, else the first reminder, else nothing at all |
| Prototype.ClickKey | App.tsx:943 | the clicked day's key at UTC and west of it; east of UTC the key of the day before, which differs from the clicked day's |
| Prototype.ClickOn | App.tsx:942-956 | the click edits a transfusion, else a reminder, carrying `ClickKey`, and does nothing exactly when no record carries it |
| Prototype.ClickMissesTheDayEastOfUtc | App.tsx:942-956 | east of UTC a transfusion on the clicked day is not opened when nothing is on the day before |
| Prototype.LocalClickOn | App.tsx:945-955 | on the local key the click opens a record of the clicked day, and nothing exactly when it has none |
| Prototype.ClickAgreesAtOrWestOfUtc | App.tsx:942-956 | at or west of UTC the written click agrees with the local key |
| Prototype.DaysSinceFirst | App.tsx:894-899 | 0 without transfusions, else the whole days between now and the first listed transfusion's date |
| Prototype.AllAsCalendar | App.tsx:894-899 | the prototype's records as the calendar screen's, one for one |
| Prototype.DaysSinceAgreesWhenFirstIsLatest | App.tsx:894-899 | when the first transfusion is the latest, the count equals the calendar screen's |
| Prototype.SortingKeepsLatestDate | src/screens/main/CalendarScreen.tsx:29-30 | sorting latest-first puts first a transfusion dated as late as the latest one |

## Left out

- Synchronisation with the server, the schema migrations, and all network and storage I/O. These are the database library's. The store is four maps, and each `database.write` block is one atomic step.
- Async interleaving and the fire-and-forget `sync()` after a save: each handler is one step.
- Store.Database.CreateComponent: creating under an id that is already present replaces the row. What the library does there is not visible.
- TemplateEditor.TemplateForm.Save: a batch that fails half way is not modelled. The write either happens whole or, for a template that is no longer there, not at all. The store's failure on other inputs is not modelled.
- The `@text` trimming of the `template_id` column is not applied: the ids the model writes there hold no whitespace. The name and unit columns are trimmed.
- Floating point is not modelled. Chart values are integers, `parseFloat` of an analysis value is a function parameter, and the SVG coordinates of `getX`/`getY` are left out.
- Dates.DateMs: a string that is not a key stands for time 0, where the browser gives NaN.
- Dates.ParseDateKey: only `YYYY-MM-DD` keys with four-digit years parse. Other formats the browser accepts are out.
- `toLocaleDateString` text: a formatted day is modelled as the day it names, not as its Russian text.
- The UTC offset is fixed: daylight-saving changes are left out.
- Text.LowerChar / Text.Lower: only the Latin capitals A..Z and the basic Cyrillic capitals U+0400..U+042F are lowered. The rest of `toLowerCase` is left out: other cased letters (À→à, Σ→σ or ς at a word's end) and mappings that change the length (İ becomes two characters). `DataScreen.FindHb` is still exact, because 'гемоглобин' is made of а..я only, and the only capitals whose lower case lands in а..я are А..Я, which the model lowers (`LowerChar`'s last clause).
- Text.NumberOf: `Number()` is modelled on digit strings only. Any other text is NaN, though the browser also reads signs, spaces, decimals and exponents.
- The time picker's `showPicker` toggle is presentation only.
- The date picker's document-wide click listener is modelled as `Close`.
- The data screen reads the fixed `MOCK_ANALYSES` list, as the code does, not the records passed to it.
- The prototype's records keep only the fields its rules read. Volume, weight and notes are dropped.
- The template editor's rows are values: `handleItemChange` writes into an object of a list that `map` just built, so no other holder can see the write.
- The prototype's `daysSince` assumes the list is sorted. `Prototype.DaysSinceAgreesWhenFirstIsLatest` states when that holds, and the count otherwise is the formula on the first record.
- The overlay's toast and dialog timers, the Notification API switch and the test notification are left out.
- Which component each screen renders, and the presentation-only screens (auth, profile, legal, password, sharing, add transfusion, add reminder), are left out.

## Findings

| source | as written | input that shows it | evidently intended | confidence | as-written member | corrected member |
|---|---|---|---|---|---|---|
| src/screens/analyses/AddAnalysisScreen.tsx:39-43 | the list is copied shallowly and `newItems[index][field] = val` writes into the row object the opened analysis still holds | open an existing analysis and type into a value: the analysis record changes although "save" was never pressed | copy the row before writing, so the opened analysis changes only on save | not executed | AnalysisForm.EditReachesOpenedAnalysis | AnalysisForm.CopiedEditLeavesOpenedAnalysis |
| src/screens/main/CalendarScreen.tsx:109 | `new Date(t.date)` is UTC midnight, shown in local time | UTC offset −300 minutes, transfusion on 2025-03-10: the recent list shows 9 March | show the recorded day, reading the key as a local date | not executed | CalendarScreen.RecentListWestOfUtc | CalendarScreen.RecentListLocal |
| src/components/DatePicker.tsx:17-22 | `new Date(value)` is UTC midnight, shown in local time for the button label and the popup's month | UTC offset −300 minutes, value 2025-03-01: the button shows 28 February and the popup opens on February | read the value as a local date | not executed | DatePicker.PopupOpensOnPreviousMonth | DatePicker.LocalPopupOpensOnChosenMonth |
| src/screens/main/DataScreen.tsx:72 | the chart gets the data of all time and a `period` it does not read, and no series switches, which are then off | any transfusion: the chart shows its grid with no line, dot or band, and the period buttons change nothing | filter by the period and switch on both series and the bands | not executed | DataScreen.ScreenChartDrawsNoSeries | DataScreen.IntendedChartShowsThePeriod |
| App.tsx:943 | the key of the clicked day is `toISOString` of its local midnight, which is the day before east of UTC | UTC offset +180 minutes, transfusion on 2025-03-10, nothing on 2025-03-09: clicking 10 March does nothing | look up the day's local key, as the calendar screen does | not executed | Prototype.ClickMissesTheDayEastOfUtc | Prototype.LocalClickOn |
