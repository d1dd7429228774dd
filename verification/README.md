# Agroorgânica core in Dafny

Agroorgânica is a terminal farm-management program over an Oracle database. Producers register
plots (talhões), plan plantings on them, confirm harvests, record organic inputs, follow an
organic-certification checklist and publish buyer demands. Four reports read the same tables:
the crop-rotation history of a plot, the calendar of expected harvests, the market listing and
the traceability report of one planting.

This project models that core as pure functions over an in-memory store and proves what the
program promises about it.

- `schema.dfy` (`Schema`) holds the six tables as sequences of rows in storage order. It also
  holds the constraints their `CREATE TABLE` statements declare: primary keys, the
  per-producer uniqueness of plot codes, foreign keys, the status domain and the 0/1
  certification flags. These form `WellFormed`. `Certified` adds the program's own rule that
  every producer has a certification row.
- `dates.dfy` (`Dates`) models Python `date` values and the `DD/MM/YYYY` text form:
  - `date` values cover years 1 to 9999, with the proleptic Gregorian calendar and `toordinal`;
  - `strftime('%d/%m/%Y')` is rendered the way glibc does it;
  - `strptime(..., '%d/%m/%Y')` follows CPython's field patterns, with ASCII digits only: one-
    or two-digit day and month, a space-padded day, and exactly four year digits.
- `text.dfy` (`Text`) holds `str.strip`, `str.upper` and `str.lower` for the characters the
  program compares.
- `prompts.dfy` (`Prompts`) holds one answer to the validated-input prompt, the `S`/`N`
  confirmation, and the date-or-`N/A` rendering.
- `sorting.dfy` (`Sorting`) holds Python's stable `list.sort(key=...)`, including
  `reverse=True`.
- `registry.dfy` (`Registry`) covers:
  - producer and plot registration;
  - producer and plot deletion with every `ON DELETE CASCADE`;
  - input-record deletion;
  - demand registration and deletion.
- `certification.dfy` (`Certification`) holds the two certification actions: set the overall
  flag, and flip one stage.
- `plantings.dfy` (`Plantings`) covers:
  - the previous crop of a plot;
  - planting registration with its date window;
  - the numbered selection list;
  - harvest confirmation, the only status change the program makes;
  - planting deletion.
- `planting_edit.dfy` (`PlantingEdit`) models the planting edit as written and as its comment
  intends (see Findings).
- `loaders.dfy` (`Loaders`) holds the start-up table creation and the loaders that turn rows
  into the producer→plots tree, the certification map and the date-ordered demand list.
- `reports.dfy` (`Reports`) holds the row selection, ordering and grouping of the four reports.

The clock and `uuid4` are parameters. Every operation takes `today` and the fresh ids it needs.
Each console interaction is one answer per prompt. A prompt loop that asks again is modelled as
the refusal of the answer that made it ask again.

## Model

| member | source | states |
|---|---|---|
| Schema.StatusNames | database.py:39 | the status CHECK admits exactly the four names `Planejado`, `Disponível`, `Vendido`, `Cancelado`, each naming one status |
| Dates.OrdinalOrder | crud_operations.py:245-248 | the day number orders dates exactly as Python compares them (`<`, `<=`, `==`), so "two days ago" is a day-number difference |
| Dates.ParseBrSpellings | utils.py:25-31 | `strptime` with `%d/%m/%Y` accepts a text as date `d` if and only if it is one of the spellings of `d` in ASCII digits: one- or two-digit (or space-padded) day, one- or two-digit month, four-digit year |
| Dates.ParseBrRefusesNonDates | utils.py:28-31 | a text that spells no real calendar date (31/02, day 0, year 0000) is refused |
| Dates.FormatParseRoundTrip | utils.py:92 | parsing the `DD/MM/YYYY` text of a date with a four-digit year gives the same date back |
| Dates.ShortYearNotReparsed | utils.py:92 | below year 1000 the formatted year has fewer than four digits and the text does not parse back |
| Dates.MonthIndexMonotone | reports.py:53 | a later date never falls into an earlier `%Y-%m` bucket |
| Text.Strip | utils.py:47 | the stripped answer has no white space at either end, and is empty exactly when the answer was all white space |
| Text.StripSlice | utils.py:47 | the stripped answer is the contiguous slice of the answer that starts right after its leading white space |
| Text.StripTail | utils.py:47 | only white space follows the stripped answer in the answer |
| Text.StripIdempotent | utils.py:47 | stripping a stripped answer changes nothing |
| Text.UpperSingle | utils.py:82 | only a one-character answer can upper-case to a single letter |
| Prompts.Decide | utils.py:52-72 | an empty answer returns the default if there is one, else `None` for an optional field, else asks again; a typed answer is returned only when it parses and passes the extra check; a value failing the extra check is only ever the untouched default |
| Prompts.DateAnswer | utils.py:60-62 | a required date prompt accepts exactly the stripped texts that spell a real date, and returns that date |
| Prompts.TextAnswer | utils.py:47-63 | a required text prompt returns the stripped, non-empty answer |
| Prompts.Confirm | utils.py:82-84 | the answer means yes exactly when its stripped upper case is `S` (`S`, `s` or `ſ`), no exactly when it is `N`, and anything else asks again |
| Prompts.UpperIsS | utils.py:82-83 | the texts whose `upper()` is `S` are `S`, `s` and U+017F |
| Prompts.UpperIsN | utils.py:82-83 | the texts whose `upper()` is `N` are `N` and `n` |
| Prompts.FormatOrNA | utils.py:89-93 | a missing date renders as `N/A` and only it does; a rendered four-digit-year date parses back to itself |
| Sorting.SortByKey | reports.py:21 | sorting gives a permutation of its input in key order |
| Sorting.SortStable | reports.py:21 | elements with equal keys leave the sort in the order they entered it, as Python's sort guarantees |
| Sorting.SortSorted | reports.py:60 | sorting an already sorted list changes nothing |
| Registry.CreateProducer | crud_operations.py:15-47 | an empty or registered id is refused, and so is a missing or empty name or location; otherwise the producer row and a certification row with every flag 0 are added together, and no other table changes |
| Registry.CreateProducerAcceptsFresh | crud_operations.py:19-30 | in a well-formed store a non-empty id is accepted if and only if no producer has it and the name and location are given and not empty |
| Registry.CreateProducerPreserves | crud_operations.py:35-47 | registering a producer keeps every schema constraint and the rule that each producer has a certification row |
| Registry.CreatePlot | crud_operations.py:118-141 | an empty code or one the producer already uses is refused; otherwise exactly one plot row is appended under the fresh system key |
| Registry.CreatePlotPreserves | crud_operations.py:137-141 | registering a plot keeps every schema constraint |
| Registry.PlotCodeNamesOnePlot | database.py:30 | under the UNIQUE (producer, code) constraint a producer's code names at most one plot |
| Registry.CascadeProducer | database.py:28 | after deleting a producer, no plot, planting, input record or certification row of it, and no planting or input on its plots, remains |
| Registry.CascadeProducerKeepsOthers | crud_operations.py:105 | the producer cascade keeps every row not tied to the producer or its plots |
| Registry.DeleteProducer | crud_operations.py:93-112 | the answer `0` cancels the selection before any lookup; any other answer deletes a registered producer exactly when the deletion is confirmed, with the full cascade, and is refused as not found otherwise |
| Registry.CascadeProducerPreserves | database.py:21-55 | the producer cascade leaves a well-formed store in which every producer still has a certification row |
| Registry.ProducerSurvives | crud_operations.py:105 | every other producer is still registered after the delete |
| Registry.PlotSurvives | database.py:28 | a plot the deleted producer did not own is still there |
| Registry.CascadeProducerRefs | database.py:35-36 | after the producer cascade every remaining row still references existing rows |
| Registry.FindPlot | crud_operations.py:160-162 | a producer's plot code resolves to one of that producer's plots with that code, and to nothing exactly when the producer has no such code (under the per-producer UNIQUE constraint there is only one) |
| Registry.SelectPlot | crud_operations.py:146-162 | the answer `0` resolves to no plot before any lookup; any other answer resolves to one of the producer's plots with that code, and to nothing exactly when the producer has no such code |
| Registry.CascadePlot | database.py:35-36 | after deleting a plot no planting or input record on it remains, and producers, certifications and demands are untouched |
| Registry.CascadePlotKeepsOthers | crud_operations.py:203 | the plot cascade keeps every row not tied to that plot |
| Registry.DeletePlot | crud_operations.py:191-210 | the answer `0` cancels the selection; any other code that names one of the producer's plots is deleted exactly when the deletion is confirmed, by cascading on that plot, and an unknown code is refused as not found |
| Registry.CascadePlotPreserves | database.py:26-47 | the plot cascade keeps every schema constraint and removes the plot's key |
| Registry.OtherPlotSurvives | crud_operations.py:203 | every other plot is still there after the delete |
| Registry.CascadePlotRefs | database.py:45-46 | after the plot cascade every remaining row still references existing rows |
| Registry.DeleteInput | crud_operations.py:510-528 | a confirmed deletion of one of the producer's listed input records removes that record and nothing else |
| Registry.DeleteInputPreserves | crud_operations.py:510-528 | deleting an input record keeps every schema constraint and every producer's certification row |
| Registry.RegisterDemand | crud_operations.py:596-620 | a need date before today is refused; crop, quantity and unit are all required; the row is stamped with today's date |
| Registry.RegisterDemandPreserves | database.py:59-67 | registering a demand keeps every schema constraint |
| Registry.DeleteDemand | crud_operations.py:649-667 | a confirmed deletion of an existing demand removes that demand and nothing else |
| Registry.DeleteDemandPreserves | crud_operations.py:649-667 | deleting a demand keeps every schema constraint and every producer's certification row |
| Certification.StageOf | crud_operations.py:569-572 | stage numbers 1, 2 and 3 pick documentation, inspection and approval; any other number is refused |
| Certification.ToggleStage | crud_operations.py:566-587 | option `M` makes the chosen stage of the producer's row read as the opposite of before and leaves every other flag and row as it was |
| Certification.SetCertified | crud_operations.py:553-565 | option `C` sets the overall flag to the answer, whatever the stages say, and changes nothing else |
| Certification.ToggleStagePreserves | database.py:52-55 | flipping a stage keeps every flag in {0, 1} and every other constraint |
| Certification.SetCertifiedPreserves | database.py:52 | setting the overall flag keeps every flag in {0, 1} and every other constraint |
| Certification.ToggleTwice | crud_operations.py:573 | flipping the same stage twice restores the store |
| Certification.SetCertifiedIdempotent | crud_operations.py:558-559 | giving the same answer twice is the same as giving it once |
| Plantings.RanksFirstTotal | crud_operations.py:219 | Oracle's `ORDER BY data_plantio DESC` ranks any two plantings, a missing date first |
| Plantings.Latest | crud_operations.py:219-222 | the fetched row is one of the plot's rows and ranks first among all of them; there is none only for a plot without plantings |
| Plantings.PreviousCrop | crud_operations.py:216-222 | the previous crop is the crop of a planting of the plot that ranks first by planting date, or `Nenhuma registrada` when the plot has none |
| Plantings.RegisterPlanting | crud_operations.py:234-268 | a planting is inserted exactly when the crop is given, a repeat-crop warning was answered yes, the planting date is within the last two days and not in the future, and the expected harvest is after it; the new row is planned, unharvested and records the previous crop |
| Plantings.RegisterPlantingPreserves | crud_operations.py:256-268 | registering a planting keeps every constraint and the date rules of every planting |
| Plantings.SelectionList | crud_operations.py:287-290 | the list is a permutation of the producer's plantings in the allowed statuses on an existing plot, in `data_ref DESC NULLS LAST` order |
| Plantings.SelectionListMembers | crud_operations.py:287-290 | a planting is listed if and only if it is the producer's, in an allowed status, on an existing plot |
| Plantings.SelectionOrder | crud_operations.py:290 | dated rows are listed latest reference date first, and an undated row never precedes a dated one |
| Plantings.Choose | crud_operations.py:303-318 | `0` cancels, a number n from 1 to the list length picks the id of the n-th row, anything else asks again; an empty list cancels at once |
| Plantings.PickedIsSelectable | crud_operations.py:310-318 | a picked id always names a planting the list offered |
| Plantings.FindPlanting | crud_operations.py:421-422 | the fetched row has the requested id, and nothing is fetched only when no row has it |
| Plantings.FindPlantingUnique | database.py:34 | under the primary key the fetched row is the one row with that id |
| Plantings.ConfirmHarvest | crud_operations.py:408-441 | only a planned planting of the producer can be confirmed; date, quantity and unit are required; a harvest before the planting date is refused; a confirmation is accepted if and only if none of these refusals applies; success makes that planting available with the three fields stamped and changes no other row |
| Plantings.ConfirmHarvestPreserves | crud_operations.py:437-439 | confirming a harvest keeps every constraint and the date rules of every planting |
| Plantings.HarvestOnlyTransition | crud_operations.py:437 | the only status a row can change to is `Disponível`, and only on the confirmed row |
| Plantings.DeletePlanting | crud_operations.py:384-402 | a confirmed deletion of a planned, available or cancelled planting of the producer removes exactly the rows with that id |
| Plantings.DeletePlantingPreserves | crud_operations.py:384-402 | deleting a planting keeps every schema constraint and every producer's certification row |
| Plantings.SoldIsKept | crud_operations.py:388 | a sold planting is never deleted |
| PlantingEdit.Edited | crud_operations.py:341-362 | keeping every answer changes nothing; an empty typed text keeps the stored value, so the crop never becomes empty and a changed crop, previous crop, note or unit is never empty; key, owner, plot and status never change; harvest fields change only for an available planting |
| PlantingEdit.EmptyTextIsKeep | utils.py:52-53 | typing an empty text at the crop, previous-crop, notes or unit prompt is the same edit as pressing Enter there |
| PlantingEdit.EditPlantingAsWritten | crud_operations.py:344-350 | the edit as written succeeds only when the resulting planting date, kept or typed, lies in the two-day window |
| PlantingEdit.KeptDateRefused | crud_operations.py:344-350 | keeping the stored date of a planting sown a month earlier is refused as written and accepted by the corrected edit |
| PlantingEdit.EditPlanting | crud_operations.py:320-376 | a kept planting date is never refused for the window and a typed one outside it always is; an edit is accepted if and only if the planting is selectable, every required answer ends with a value, the expected date follows the planting date, no harvest precedes it and a typed planting date lies in the window; success rewrites only the edited row, with the answers applied (an empty typed text keeps the stored value), without touching its key, owner, plot or status |
| PlantingEdit.EditAllKeep | crud_operations.py:341-376 | keeping every answer on a complete, consistent planting writes the store back unchanged |
| PlantingEdit.EditPlantingPreserves | crud_operations.py:365-376 | editing keeps every constraint and the date rules of every planting |
| Loaders.IndexKeys | database.py:131 | the dictionary built row by row has exactly the rows' keys |
| Loaders.IndexFinds | database.py:131 | with distinct keys every row is found under its own key |
| Loaders.AttachPlotsPerOwner | database.py:135-141 | each loaded producer receives exactly its own plots, keyed by code, later rows overwriting earlier ones |
| Loaders.LoadProducerTree | database.py:121-143 | a failed read yields the empty dictionary; otherwise the keys are exactly the producer ids, each entry holds that producer's row (the one row with that id when ids are distinct) and its plots keyed by their producer-scoped code |
| Loaders.ProducerTreeShape | database.py:131-141 | the tree has one entry per producer, holding that producer's plots keyed by code |
| Loaders.ProducerRowFound | database.py:131 | each producer's entry holds that producer's own row |
| Loaders.ProducerTreeFinds | database.py:131-141 | every plot is found under its owner's entry and its own code, stripped of the owner column |
| Loaders.OrphanPlotDropped | database.py:137 | a plot whose owner was not loaded appears nowhere in the tree |
| Loaders.LoadCertifications | database.py:197-201 | one entry per certification row, or the empty dictionary when the read fails |
| Loaders.CertificationsRead | database.py:199 | each loaded flag, overall and per named stage, is true exactly when the stored number is not zero |
| Loaders.LoadDemands | database.py:212-225 | every demand is loaded, ordered by the date it is needed; a failed read loads none |
| Loaders.DemandsInOrder | database.py:213 | loaded demands are in calendar order of their need date |
| Loaders.Bootstrap | database.py:70-78 | start-up creates exactly the required tables that are absent, and none when the catalogue read fails |
| Loaders.BootstrapTwice | database.py:73-77 | a second start-up after a successful one creates nothing |
| Loaders.BootstrapNoRepeat | database.py:73-77 | no table is created twice in one start-up |
| Reports.RotationHistory | reports.py:20-21 | the history is a permutation of the plot's plantings that have a planting date |
| Reports.RotationMembers | reports.py:20 | a planting is in the history if and only if it is on the plot and has a planting date |
| Reports.RotationOrder | reports.py:21 | the history runs from the latest planting date to the earliest |
| Reports.CalendarEntries | reports.py:40-48 | the calendar lists one entry per planned planting with an expected harvest date, in date order |
| Reports.CalendarEntryMembers | reports.py:41 | an entry is in the calendar if and only if it comes from a planned planting with an expected harvest date |
| Reports.GroupFlatten | reports.py:52-53 | the month buckets, read in order, give back the date-ordered entries, so each entry lands in exactly one bucket |
| Reports.GroupHomogeneous | reports.py:53 | each bucket is non-empty and holds entries of its own month only |
| Reports.GroupAscending | reports.py:56 | on a date-ordered list the months strictly ascend, so no month has two buckets |
| Reports.GroupSorted | reports.py:60 | each bucket's entries are in date order |
| Reports.HarvestCalendar | reports.py:52-61 | the calendar's months ascend, each month's entries ascend by date, and together they are exactly the selected entries in date order |
| Reports.CalendarBuckets | reports.py:52-53 | each month's bucket holds exactly the selected entries of that month, and a month without a bucket has none |
| Reports.UnitText | reports.py:84 | the unit column is the stored unit for an available planting with a quantity and a unit, and is non-empty for no other planting |
| Reports.MarketListing | reports.py:74-104 | the listing has one row per available or planned planting, in ascending reference-date order; it is missing exactly when some offered row would stop the report |
| Reports.RefKeyOf | reports.py:79-80 | a missing reference date prints `N/A` and sorts first; a printed date parses back to itself and sorts by its day number |
| Reports.ListedRow | reports.py:74-90 | every listed row is the row of an available or planned planting |
| Reports.MarketOrder | reports.py:104 | rows with `N/A` come first, and dated rows follow in calendar order |
| Reports.MarketMembers | reports.py:74-75 | every available or planned planting has its row in the listing |
| Reports.MarketRowSources | reports.py:76-89 | a row shows the planting's id, crop and status; `---` as quantity while planned, otherwise the harvested amount or `N/A`; the unit only for an available planting with an amount; and the producer's registered name and stored certified flag, `Desconhecido` and not certified for an unknown producer, and the harvest date if available, else the expected date |
| Reports.RelevantInputs | reports.py:147-155 | the relevant inputs are a permutation of the plot's inputs applied on or before the harvest date (today when there is none), latest first |
| Reports.TraceInputs | reports.py:179 | at most five inputs are listed, all on the plot and applied by the limit date, and fewer only when fewer are relevant |
| Reports.TraceOrder | reports.py:155 | the listed inputs run from the latest application to the earliest |
| Reports.TraceKeepsMostRecent | reports.py:155-179 | a relevant input left off the report was applied no later than any listed one |
| Reports.Traceability | reports.py:133-134 | the report finds a planting with the picked id, with its listed inputs, and nothing only when no planting has that id |

## Left out

- Oracle access is left out: connections, cursors, SQL text, commits and rollbacks. The store is
  abstract, and uniqueness and cascades are the schema's declared behaviour. A failed `SELECT`
  appears only in the loaders (`Fetch.Failed`).
- A database error during a write is left out. Such an error leaves the store as it was, which
  the model does not distinguish from a refusal.
- The unbounded console loops, `input()`, and the `EOFError` handling are left out. Each prompt
  is modelled as one answer; an answer the loop would refuse is a refusal.
- `uuid4`, `date.today()` and `datetime.now()` are parameters.
- The error log, every `print`, and the column widths are left out. So are the traceability
  file write, its header fields, and the plot-code lookup it only prints.
- The locale-dependent `%B` month names of the calendar are left out.
- The literal text printed at reports.py:182, whose `f` prefix is missing, is left out.
- `ui.py`, `main.py` and `config.py` are not part of this model: they hold menu dispatch,
  process exit and credentials.
- These operations of `crud_operations.py` are not modelled, because they sit outside the
  modelled core: `editar_produtor`, `editar_talhao`, `registrar_insumo`, `selecionar_produtor`,
  `selecionar_demanda` and `listar_demandas`. `selecionar_produtor` appears only as the
  `0`-cancel and the registered-id test of `Registry.DeleteProducer`, and `selecionar_talhao`
  only as `Registry.SelectPlot`. The numbered choice of `selecionar_insumo`, with `0` to
  cancel, is not modelled: `Registry.DeleteInput` takes the chosen record's id, and only a
  listed record can be chosen.
- Areas and quantities are opaque values. The program never computes with them, and
  `float()`/`int()` parsing is a parameter of `Prompts.Decide`.
- No transition to `Vendido` or `Cancelado` is modelled, because no code performs one.
- Plantings.PreviousCrop: the `Erro de conexão` result without a connection is not modelled,
  nor the `Nenhuma registrada` fallback after a database error.
- Plantings.ConfirmHarvest: the "no row updated" branch is not modelled. It cannot happen after
  the row was selected in the same session.
- Reports.MarketListing: an exception stopping the report is modelled as `None`, with no
  distinction between the two causes: a reference date with a year below 1000, and an available
  row with a quantity but no unit.
- Reports.HarvestCalendar: the buckets are ordered by month number. The source sorts the
  `%Y-%m` texts; the two orders agree only for four-digit years, since glibc does not pad
  shorter years.
- Reports.Traceability: the report builds this data and writes it to a file. Only the data is
  modelled.
- Loaders.LoadDemands: rows with the same need date come out in storage order. Oracle's
  `ORDER BY` leaves their order unspecified.
- The plantings and input-record loaders (database.py:147-187) have no `ORDER BY`, so Oracle
  promises no row order. The model reads the rows in storage order. That order decides how equal
  keys fall in the stable sorts of the market listing, the rotation history, the harvest
  calendar and the traceability report.
- Plantings.SelectionList: plantings with the same `data_ref` are listed in storage order.
  Oracle's `ORDER BY data_ref DESC NULLS LAST` leaves the order of such ties unspecified.
- Dates.ParseBrSpellings: a digit is an ASCII digit. CPython's `\d`, in the day's `[12]\d` and in
  the year's four digits, also matches other Unicode decimal digits, which `int()` then reads:
  `01/05/٢٠٢٤` parses as 01/05/2024 in CPython and is refused by the model.
- Dates.ParseBr: the same ASCII-only reading of `\d` applies to every parse, so a date spelled
  with other Unicode decimal digits is refused.
- Prompts.DateAnswer: the same ASCII-only reading of `\d` applies, so such an answer is
  refused and asked again, where CPython would accept it.
- Text.UpperText: `upper()` is modelled for ASCII, Latin-1 and U+017F; every other character
  is left unchanged, which still covers every answer that can upper-case to `S` or `N`.
- Plantings.RegisterPlanting: the repeat-crop test compares `lower()` of both texts, and
  `lower()` is modelled only for the capitals of ASCII, Latin-1 and Latin Extended-A (without
  U+0130, whose lower case is two characters). Two crop names that differ only in other
  capitals, Greek or Cyrillic for instance, are treated as different crops, so the model
  inserts without the warning where the source asks first.
- Dates: `date.today() - timedelta(days=2)` raises `OverflowError` near 0001-01-01. The window
  check is instead modelled as a day-number difference, which never raises.

## Findings

| source | as written | input that shows it | evidently intended | confidence | as-written member | corrected member |
|---|---|---|---|---|---|---|
| crud_operations.py:344-350 | the planting-date prompt of `editar_plantio` runs the two-day window check on the value it returns, and an empty answer returns the stored date | a planned planting sown 01/05/2024 with expected harvest 01/08/2024, edited on 01/06/2024 with every answer left empty: the edit is refused with "date out of window" | keeping the stored planting date is allowed, as the comment in the loop says; only a newly typed date is checked against the window | not executed | PlantingEdit.EditPlantingAsWritten, PlantingEdit.KeptDateRefused | PlantingEdit.EditPlanting |
