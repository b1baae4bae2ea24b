# mino-manager in Dafny

mino-manager is a small construction-company ledger. Each building project is an *obra*. It has a budget,
a client and start and end dates. Each money movement is a *movimentação*: a deposit, labour, material
or other spending, tied to one project. Material purchases can be itemised, and each item has a
*subcategoria*, a quantity and a value.

This project models the rules behind the application's pages:

- **Bank statement import** (`Statement`, `Workflow`).
  - A spreadsheet is normalised: column check, blank-row filter, Brazilian amount parsing, and the
    deposit label from the sign.
  - The operator edits the rows. The filled rows are split in one pass into three groups: unknown project
    names, Material rows to itemise, and rows ready to save.
  - Unknown projects go through an onboarding dialog. Material rows go through a select-then-detail
    dialog.
  - Everything is saved with an upsert that ignores duplicates, and the page shows feedback.
- **Project registration** (`Projects`). The guard chain is shared by the onboarding dialog and the
  registration page. The page adds the uppercase name and the duplicate-name check.
- **Manual entry** (`ManualEntry`). The value check, the item loop and the description check.
- **Material report** (`MaterialReport`).
  - Stored itemised movements are expanded into one row per item and filtered by subcategory.
  - The page shows their totals and mean value, a history sorted by date, and sums per project.
- **Company dashboard** (`Dashboard`).
  - Each project is left-joined with its spending, which gives its balance and the share of the budget
    used.
  - The page shows company totals with their outlook label, the table sorted by share, and spending per
    category.
- **Project panel** (`ProjectPanel`). One project's budget, spending, balance and share. Also its spending
  per category and its movements filtered by category.

Shared pieces:

- `Base`: Option and Result.
- `Text`: Python's `isspace`, `isdigit`, `upper` and `lower`.
- `Amounts`: the Brazilian amount format.
- `Aggregates`: pandas' sum, group-by sum and descending sort.
- `Ledger`: the movement row, its conflict key and the upsert.
- `Store`: a `Database` class holding the two tables and the `online` flag that decides whether writes
  succeed.

The database, the clock and the date parser are parameters or fields. The dialogs' session state is the
`Workflow.Session` class, whose methods change it step by step as the dialogs do.

## Model

| member | source | states |
|---|---|---|
| Text.UpperIdempotent | 4_extrato.py:124 | Uppercasing an already uppercased project name changes nothing. So a name stored uppercase by the registration page is found again after the import uppercases the statement cell. |
| Amounts.RewriteGrouped | 4_extrato.py:77 | Removing the thousands dots and turning the comma into a point gives back the plain digits of a grouped number. |
| Amounts.FormatRoundTrip | 4_extrato.py:77 | Every amount in cents, written in the bank's format (`-1.234,56`), parses back to exactly that amount. |
| Amounts.StatementExamples | 4_extrato.py:77 | `1.234,56` reads as 1234.56 and `-50,00` as -50. |
| Ledger.FeedbackCases | utils.py:205-213 | "Nothing new" exactly when no row was inserted. "All saved" exactly when every submitted row was inserted. Otherwise the message counts the inserted rows and the ignored rest, and the two add up to the batch. |
| Ledger.InsertAllKeeps | utils.py:195-199 | With duplicates ignored, a row already stored under a conflict key is never overwritten. |
| Ledger.InsertAllKeys | utils.py:195-199 | After the upsert, the stored keys are the old keys plus the batch's keys, and each row still sits under its own key. |
| Ledger.CountNewSize | utils.py:195-205 | The table grows by exactly the count of inserted rows, and that count never exceeds the batch size. |
| Ledger.NothingNewIffAllStored | utils.py:205-208 | The upsert inserts nothing exactly when every key of the batch is already stored. |
| Ledger.UpsertIdempotent | utils.py:195-199 | Sending the same batch twice leaves the table as the first upsert left it, and the second upsert reports nothing new. |
| Projects.ValidateCases | utils.py:275-297 | The guard chain. A missing field is reported first, then an invalid CPF, then an end date that is not after the start date. Each error occurs exactly under its condition. Passing all guards yields the seven-field record. |
| Projects.ZeroBudgetIsMissing | utils.py:275-278 | A zero budget is falsy, so it counts as a missing field. |
| Projects.CpfExamples | utils.py:280-282 | A CPF needs exactly eleven digits: "12345" is refused and "12345678901" is accepted. |
| Projects.SameDayRejected | utils.py:284-286 | An end date equal to or before the start date is refused. |
| Projects.RegisterCases | 2_page_cadastro_obra.py:32-77 | The name is uppercased before the guards. A duplicate is refused exactly when the form passes the guards and the uppercased name already exists. A successful registration carries the uppercased name. |
| Projects.RegisterKeepsNamesDistinct | 2_page_cadastro_obra.py:62-66 | Registering through the page keeps project names distinct. |
| Projects.NameMapLookup | 4_extrato.py:45 | A name is in the name-to-id map exactly when some project has it, and it maps to the id of the last such project. |
| Projects.NameMapRegister | utils.py:360-361 | Registering a project adds its name to the map and keeps every name already there. |
| Projects.NameMapExtends | utils.py:360-367 | A name found before more projects are registered is still found afterwards. |
| Store.Database.InsertProject | utils.py:215-216 | When online, appends the project with the next id and returns that id. When offline, fails and changes nothing. |
| Store.Database.SaveEntries | utils.py:193-213 | Inserts the batch row by row, ignoring known keys. The table becomes the upsert of the batch and the feedback is computed from the inserted count. When offline, fails and changes nothing. |
| Statement.ExactHeaderMatches | 4_extrato.py:61-62 | A sheet with the exact headers passes the case-insensitive column check. |
| Statement.ResolveFinds | 4_extrato.py:61-64 | Every column that passes the column check is found by the corrected case-insensitive lookup. |
| Statement.NormaliseErrors | 4_extrato.py:59-64 | Normalisation reports missing columns exactly when one of Data, Detalhes and Valor is missing in every letter case. |
| Statement.NormaliseAgrees | 4_extrato.py:61-77 | On sheets with the exact headers, the corrected normalisation and the page's own give the same result. |
| Statement.LowercaseHeadersPass | 4_extrato.py:61-62 | Lowercase headers pass the column check. |
| Statement.LowercaseHeadersAsWritten | 4_extrato.py:61-67 | With lowercase headers, the page's exact column access fails and is reported as an unreadable file. |
| Statement.LowercaseHeadersCorrected | 4_extrato.py:61-67 | With lowercase headers, the corrected normalisation succeeds. |
| Statement.ConvertNotMissing | 4_extrato.py:72-79 | Converting rows never reports missing columns. |
| Statement.ConvertCases | 4_extrato.py:72-79 | The conversion succeeds exactly when every kept row has a parseable date and amount. Line k is then built from row k. |
| Statement.KeptMembers | 4_extrato.py:67 | A row is kept exactly when its Detalhes cell is not a single space. |
| Statement.ToLineClassifies | 4_extrato.py:81-85 | A line is labelled Depósito exactly when its amount is positive, and is left unlabelled otherwise. Its stored value is the amount's absolute value. |
| Statement.FormattedAmountLine | 4_extrato.py:77-85 | An amount written in the bank's format becomes a line whose value is the amount's magnitude and whose label follows its sign. |
| Statement.Edit | 4_extrato.py:90-107 | The editor keeps the row count and the disabled Data, Detalhes and Valor columns. Untouched Obra cells stay empty and untouched categories are kept. |
| Statement.ValidRowsCases | 4_extrato.py:113 | The filter keeps exactly the rows whose Obra, Categoria and Descrição are not blank (whitespace counts as blank): every kept row is a filled-in row and every filled-in row is kept. It is empty exactly when no row is filled. |
| Statement.ValidRowsOrder | 4_extrato.py:113 | `dropna` keeps the order: kept row i is the row at the i-th filled-in position, the positions increase, and every filled-in row's position is among them. |
| Statement.Partition | 4_extrato.py:118-146 | The loop returns exactly the unknown names, the Material rows and the ready entries that the specification functions define. |
| Statement.PartitionSizes | 4_extrato.py:122-146 | Every filled row lands in exactly one of the three groups. |
| Statement.UnknownNamesMembers | 4_extrato.py:124-127 | A name is reported unknown exactly when some row's uppercased Obra is that name and no project has it. |
| Statement.MaterialRowsMembers | 4_extrato.py:130-132 | A row is set aside for itemising exactly when its project is known and its category is Material. |
| Statement.ReadyEntriesMembers | 4_extrato.py:135-146 | An entry is ready exactly when it is built from a row with a known project and a category other than Material, using that project's id. |
| Statement.OnboardingUnblocks | 4_extrato.py:148-159 | Once every reported name is registered, importing the same rows reports no unknown name. |
| Statement.DedupCorrect | 4_extrato.py:126 | Removing repeats keeps exactly the same names, each once. |
| Statement.OnboardingQueueCorrect | 4_extrato.py:126 | The onboarding queue holds each unknown name exactly once, and it is empty exactly when no name is unknown. |
| Statement.RepeatedUnknownName | 4_extrato.py:122-127 | Two rows naming the same unknown project report the name twice. The corrected queue holds it once. |
| Workflow.SplitCovers | utils.py:358-378 | Together, the rows saved directly and the rows chosen for detailing are exactly the Material rows. |
| Workflow.FlaggedEmpty | utils.py:376-380 | The detail step is entered exactly when some row is ticked. |
| Workflow.UnflaggedEmpty | utils.py:358 | Nothing is saved directly exactly when every row is ticked. |
| Workflow.EntriesForCases | utils.py:364-371 | The unticked rows are turned into entries exactly when every row's uppercased project is known. Entry k then belongs to row k's project. |
| Workflow.MaterialLookupSucceeds | utils.py:367 | A Material row whose project was known at import time is still found when the dialog looks it up. |
| Workflow.DetailEntryConsistent | utils.py:424-455 | An itemised entry is written only when its items add up to its declared value. It keeps the statement row's conflict key. |
| Workflow.CollectItems | utils.py:437-444 | The loop builds the `Itens` list from the grid rows, one per row, in order. |
| Workflow.Session.SubmitImport | 4_extrato.py:148-159 | Unknown names open onboarding on the corrected queue, which holds each name once (the page queues one entry per row), and nothing is saved. Otherwise Material rows open the select step and ready rows are upserted with the matching feedback. |
| Workflow.Session.OfferMaterial | 4_extrato.py:150-152 | The material dialog opens at the select step on the given purchases; the onboarding queue and the ticked rows are kept. |
| Workflow.Session.OpenOnboarding | 4_extrato.py:157-159 | The onboarding dialog opens on the given queue of names; the step, the material list and the ticked rows are kept. |
| Workflow.Session.ConfirmOnboarding | utils.py:244-246 | Confirming switches the dialog to the registration form. |
| Workflow.Session.CancelOnboarding | utils.py:240-241 | Cancelling closes the dialog and leaves the modal state as it was. |
| Workflow.Session.Dismiss | utils.py:223-225 | Dismissing a dialog clears the modal state. |
| Workflow.Session.SubmitProjectForm | utils.py:271-313 | A refused form changes nothing. A failed insert clears the modal state. A registered project is appended under the queued name and popped from the queue. The dialog closes when the queue empties. |
| Workflow.Session.SelectContinue | utils.py:357-380 | Unticked rows are upserted, or the step fails on an unknown project or an offline store. Ticked rows move to the detail step. |
| Workflow.Session.CancelSelect | utils.py:353-354 | Cancelling closes the dialog but keeps the modal state at Selecionar. |
| Workflow.Session.SubmitDetail | utils.py:420-470 | An empty grid and a total that differs from the declared value are refused. Otherwise the itemised entry is upserted and the head row dropped. The dialog closes after the last row. |
| ManualEntry.BuildEntry | 3_movimentacao.py:91-137 | The item loop stops at the first blank name, and the result agrees with the specification of the form's checks. |
| ManualEntry.ManualEntryOk | 3_movimentacao.py:94-137 | A saved manual entry has a positive value and no bank text. For Material, it carries the non-empty, fully named item list and its value is the items' sum. Otherwise it carries the typed value. |
| ManualEntry.EmptyItemsUnreachable | 3_movimentacao.py:78-96 | The "add at least one item" message can never appear: an empty grid totals 0, which the value check refuses first. |
| ManualEntry.ManualEntryErrors | 3_movimentacao.py:91-128 | Each refusal happens exactly under its condition, checked in the page's order. |
| ManualEntry.MaterialValueZero | 3_movimentacao.py:78-92 | Under the grid's limits, a Material purchase is refused for its value exactly when every item is worth 0. |
| ManualEntry.NonNegativeSum | 3_movimentacao.py:72-81 | Item values of at least 0 sum to at least 0, and the sum is 0 exactly when every value is 0. |
| ManualEntry.Confirm | 3_movimentacao.py:89-140 | A refused form changes nothing. An accepted one is upserted when online, with feedback for a batch of one. |
| MaterialReport.Expand | 6_consulta_material.py:37-50 | The nested loop produces exactly the expansion the specification function defines. |
| MaterialReport.ItemRowsSize | 6_consulta_material.py:40-46 | A movement with n items gives n rows. |
| MaterialReport.ExpandCount | 6_consulta_material.py:37-48 | The expanded table has one row per item of every itemised movement, plus one row per movement without items. |
| MaterialReport.ExpandOneRows | 6_consulta_material.py:39-48 | Row k of an itemised movement copies the movement's columns and item k's fields, with the defaults for absent keys. A movement without items keeps its own row. |
| MaterialReport.OfSubcategoryMembers | 6_consulta_material.py:67 | A row is selected exactly when its subcategory equals the chosen one. |
| MaterialReport.PlainRowNeverSelected | 6_consulta_material.py:67 | A movement without items is never selected by a subcategory. |
| MaterialReport.AllValued | 6_consulta_material.py:78 | When every row has a value, the mean counts every row. |
| MaterialReport.MeanBounds | 6_consulta_material.py:78 | The mean of valued rows is their total over their count, and it lies between the lowest and highest value. |
| MaterialReport.HistoryOrdered | 6_consulta_material.py:90-92 | The history holds exactly the selected rows, latest date first. |
| MaterialReport.WithNamesSums | 6_consulta_material.py:108 | Grouping the rows labelled with project names gives each project's quantity and value sums. |
| MaterialReport.WithNamesHas | 6_consulta_material.py:108 | A project name appears among the labelled rows exactly when some row's project id maps to it. |
| MaterialReport.ByObraGroups | 6_consulta_material.py:108 | A project has a group exactly when some row maps to it. Its quantity and value are the sums of exactly those rows, and rows without a project name are dropped. |
| MaterialReport.ExpandedValueMatches | 6_consulta_material.py:40-46 | The item rows of a movement saved with consistent items add up to the movement's declared value. |
| MaterialReport.SomeOfSubcategory | 6_consulta_material.py:67-71 | The filtered table is non-empty exactly when some row has the chosen subcategory. |
| MaterialReport.ViewCases | 6_consulta_material.py:30-72 | The corrected page stops exactly when no material was saved, never fails on the subcategory column, and shows figures exactly when some expanded row is of the chosen subcategory. |
| MaterialReport.ViewAsWrittenCases | 6_consulta_material.py:37-67 | The page as written fails on the missing `Subcategoria` column exactly when material was saved but none of it is itemised. Otherwise it agrees with the corrected page. |
| MaterialReport.PlainMaterialOnly | 6_consulta_material.py:37-71 | A single Material movement saved without items makes the page fail, where the corrected page says nothing is of the chosen subcategory. |
| Dashboard.Percent | 1_home.py:82-84 | The corrected share: share times budget equals spending times 100, and the share is 0 when there is no budget. |
| Dashboard.PercentAgrees | 1_home.py:82-84 | The page's share is finite exactly when the budget is not 0 or nothing was spent, and there it equals the corrected share. |
| Dashboard.SpendingWithoutBudget | 1_home.py:82-84 | Positive spending over a zero budget is an infinite share on the page, and 0 in the corrected share. |
| Dashboard.PercentWithinBudget | 1_home.py:82-84 | Spending within a positive budget is a share between 0 and 100. |
| Dashboard.SummarySpend | 1_home.py:59-81 | After the left join, each project's spending is the sum of exactly its own movements, or 0 when it has none. Its balance is its budget minus that spending. |
| Dashboard.CompanyBalance | 1_home.py:90-104 | The company balance is the sum of the project balances. The label reads "Lucro Previsto" exactly when that sum is positive. There is one active project per row. |
| Dashboard.CompanySpendCovers | 1_home.py:63-91 | With distinct project ids and every movement belonging to a listed project, the company spending is the sum of all movements. |
| Dashboard.CategoryGroups | 1_home.py:67 | A category appears exactly when some movement has it, and its sum covers exactly those movements. |
| Dashboard.PageTable | 1_home.py:50-157 | The page stops exactly when there are no projects. Otherwise the table holds the summary rows, highest corrected share first. |
| ProjectPanel.ChoicesLookup | pages/3_Consultar_Obra.py:38-46 | A name can be chosen exactly when some project has it, and it selects the last project with that name. |
| ProjectPanel.Budget | pages/3_Consultar_Obra.py:70 | A null or zero budget reads as 0, the same as the dashboard's coercion. |
| ProjectPanel.MovementsOfSum | pages/3_Consultar_Obra.py:52 | The movements fetched for a project sum to that project's share of all movements. |
| ProjectPanel.CardsFor | pages/3_Consultar_Obra.py:70-90 | Without movements, spending is 0 and the balance is the budget. The share is shown exactly when the budget is positive, and then share times budget equals spending times 100. |
| ProjectPanel.PanelAgreesWithDashboard | pages/3_Consultar_Obra.py:70-89 | A project's panel shows the same budget, spending and balance as its dashboard row, and the same share wherever it shows one. |
| ProjectPanel.CategoriesCoverSpend | pages/3_Consultar_Obra.py:81 | The category sums over the distinct categories used add up to the project's total spending. |
| ProjectPanel.ShownMembers | pages/3_Consultar_Obra.py:99-103 | With no category chosen every movement is shown. Otherwise exactly the movements of the chosen categories are shown. |
| ProjectPanel.PanelMatchesSummary | pages/3_Consultar_Obra.py:36-90 | With distinct ids, the page for a chosen name fails exactly when that project's budget is null (`float(None)` at line 60). Otherwise it shows the spending and balance of that project's dashboard row. |

## Left out

- Streamlit rendering, layout, CSS, the watermark and the plotly charts are not modelled. Only the figures
  the pages compute are.
- Authentication and cookies (`utils.py` lines 15-122) and `app.py` are not part of this model.
- Supabase is reduced to the `Store.Database` class. A write either succeeds or fails with nothing changed,
  depending on the `online` flag. Other errors, partial writes and concurrent users are not modelled.
- Reading the Excel file is not modelled: a sheet is given as header cells plus rows of text cells.
  - Date parsing is the `parseDate` parameter.
  - Empty or NaN cells and numeric cells that `astype(str)` would print differently are not modelled.
  - Amounts are taken to be written as text.
- `Amounts.ParseAmount`: covers the part of Python's `float` grammar that bank amounts use (optional
  sign, digits, optional point and digits). Exponents, `inf`, `nan`, underscores and surrounding
  whitespace are not modelled.
- `Text.Upper` / `Text.Lower`: cover ASCII and Latin-1, which is what Portuguese names use. Other
  Unicode case mappings are not modelled. `Text.IsDigits` accepts ASCII digits only, where Python's
  `isdigit` also accepts other Unicode digits.
- Money is `real`, so floating-point rounding in sums and in the comparison of item totals is not
  modelled.
- Dates are abstract day numbers. Only their order and equality matter here.
- The upsert of a row whose Detalhes is null: SQL treats nulls as distinct in a unique constraint. The
  model treats two equal manual entries as duplicates.
- Exceptions raised by pandas on malformed data are not modelled. Examples: `.strip()` on an empty item
  name, and `to_numeric` without coercion on a non-numeric value in the project panel. Numeric cells are
  either a number or missing.
- The `Subcategoria` selectbox, the quantity minimum and the value minimum of the item grids are taken as
  guaranteed by the widgets. They are preconditions (`Ledger.ItemAllowed`, `ManualEntry.FormAllowed`).
- Workflow.Session.SubmitImport: opens onboarding on the corrected queue `Statement.OnboardingQueue`,
  each unknown name once. The page passes one entry per row, so it asks again for a name that several
  rows share. `Statement.UnknownNames` and `Statement.RepeatedUnknownName` model that list.
- Dashboard.PageTable: the summary rows carry the corrected share `Dashboard.Percent` and are sorted on
  it. The page keeps the infinite share of a project that spends without a budget and lists it first.
  `Dashboard.PercentAsWritten` and `Dashboard.SpendingWithoutBudget` model that share.
- Statement.Clean: a Detalhes cell that is blank but not a single space becomes a missing value, and
  the model saves it as a null Detalhes. On the page that cell is `pd.NA`, which the database client
  cannot encode as JSON, so the save fails. The encoder is outside this code, so the failure is not
  modelled. This applies to the two save paths that put the cell itself into the payload,
  Workflow.Session.SubmitImport and Workflow.Session.SelectContinue, which save such rows with a null
  Detalhes.
- The `time.sleep` pauses and the `st.rerun` scopes are not modelled. A rerun is the next method call on
  the session.

## Findings

| source | as written | input that shows it | evidently intended | confidence | as-written member | corrected member |
|---|---|---|---|---|---|---|
| 1_home.py:82-84 | `fillna(0)` replaces only NaN. A spend over a zero budget stays infinite although the comment says infinities are avoided. | a project with budget 0 and a movement of 100 | a share of 0 for projects without budget | not executed | Dashboard.PercentAsWritten, Dashboard.SpendingWithoutBudget | Dashboard.Percent, Dashboard.PercentAgrees |
| 4_extrato.py:61-77 | The column check ignores letter case, but the columns are then read by their exact names. Lowercase headers pass the column check and then fail as an unreadable file. | a sheet with headers `data`, `detalhes`, `valor` | lowercase headers accepted, as the column check promises | not executed | Statement.NormaliseAsWritten, Statement.LowercaseHeadersAsWritten | Statement.Normalise, Statement.LowercaseHeadersCorrected |
| 4_extrato.py:122-127 | An unknown name is appended once per row, so onboarding asks to register the same project several times and inserts it twice. | two rows naming the same unregistered project | each unknown project queued once | not executed | Statement.UnknownNames, Statement.RepeatedUnknownName | Statement.OnboardingQueue, Statement.OnboardingQueueCorrect |
| 6_consulta_material.py:37-67 | The expanded table gets a `Subcategoria` column only from item rows. With Material saved but none of it itemised, `df["Subcategoria"]` raises and the page fails. | one Material movement saved without items by the select step | the notice that nothing is of the chosen subcategory | not executed | MaterialReport.ViewAsWritten, MaterialReport.PlainMaterialOnly | MaterialReport.View, MaterialReport.ViewCases |
