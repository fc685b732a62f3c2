# Warehouse inventory RAG: the deterministic core

The system keeps a warehouse inventory in a CSV table with nine columns: `ProductID`,
`ProductName`, `Location`, `CurrentStock`, `LastSoldDate`, `ExpiryDate`, `SalesLastMonth`,
`TotalSales` and `FactoryDistanceKM`. The table is indexed for retrieval-augmented question
answering.

Three pieces of deterministic logic sit inside the UI, HTTP and streaming plumbing. This
project models them in Dafny and proves what they promise.

- **Indexing and prompting** (`main-fixed.py`), in module `Pipeline`.
  - `create_document_text` turns an inventory row into a document. The document carries
    stock, expiry, demand, distance and priority labels.
  - Expiry is a day count from the fixed reference date 2025-09-22. An expiry text that does
    not parse gives "UNKNOWN EXPIRY".
  - `build_warehouse_prompt` collects a text part per retrieved document. It joins the parts
    with `"\n\n---\n\n"`, with a placeholder when nothing was collected, and fills the prompt
    template.
- **The natural-language update command** (`app.py`), in module `Updates`.
  - `parse_update_query` lower-cases and strips the command. It fills an ordered dictionary
    of updates from the regular-expression captures.
  - `apply_data_updates` selects rows by `ProductID`, or else by case-insensitive `old_name`.
    It writes every update key that is a column into every selected row, and returns a
    status message.
  - The submit handler saves the table only when it changed.
- **The warehouse simulator** (`data_generator.py`), in module `Simulator`.
  - The initial catalogue gets consecutive product numbers from 11023.
  - Five kinds of event (sale, restock, return, move, expiry check) each change one record.
  - The status counts compare stock levels and `YYYY-MM-DD` texts.

Support modules:

- `Text`: strip, lower-case, join, containment, decimal rendering and lexicographic order.
- `Dates`: Python's proleptic Gregorian day count and the strict `YYYY-MM-DD` format, with both
  round trips. It also proves that the string order of formatted dates is the date order.
- `Inventory`: the record and the column set.
- `Wrappers`: `Option`.

Imperative code stays imperative:

- `build_warehouse_prompt`, `parse_update_query`, the initial-inventory loop and the event
  loop are methods with loops. Each is proved equal to a specification function.
- The table the update command edits is the class `Updates.Table`. The simulator's data frame
  is the class `Simulator.Warehouse`.
- Regular-expression matches come in as capture spans into the normalised command
  (`Updates.Captures`). A span is all the model knows of a match.
- Random draws, "now" and the outcome of writing the file are parameters. Each draw is
  constrained to the range the code draws it from.

Where the documented behaviour and the code differ, the model follows the code:

- The update command stores a factory-distance capture under `FactoryDistance`, not under the
  column `FactoryDistanceKM`. Such an update is therefore never written, and a command that
  only changes the distance of a product leaves the table unchanged and is never saved
  (`Updates.ParsedKeepsFactoryDistance`, `Updates.SubmitDistanceNeverSaved`).
- A retrieved document that is an empty plain string is kept as a part. A context made of
  that part alone is the empty text, not the placeholder
  (`Pipeline.EmptyStringDocGivesEmptyContext`).
- "No valid updates found" can never come from a parsed command. Any dictionary with a
  selector holds `ProductID` or `ProductName`, and both are columns
  (`Updates.ParsedNeverLacksUpdates`).

## Model

| member | source | states |
|---|---|---|
| Pipeline.StockStatus | main-fixed.py:39-46 | "OUT OF STOCK" iff stock is 0, "CRITICAL LOW STOCK" iff it is non-zero and below 10, "LOW STOCK" iff 10 to 49, "ADEQUATE STOCK" iff 50 or more |
| Pipeline.StockBoundaries | main-fixed.py:39-46 | 0, 9, 10, 49 and 50 units get OUT, CRITICAL, LOW, LOW and ADEQUATE |
| Pipeline.ExpiryStatusForDays | main-fixed.py:55-62 | EXPIRED iff the day count is negative, "EXPIRES SOON - URGENT" iff 0 to 7, "EXPIRES THIS MONTH" iff 8 to 30, FRESH iff above 30; never "UNKNOWN EXPIRY" |
| Pipeline.ExpiryBoundaries | main-fixed.py:55-62 | day counts -1, 0, 7, 8, 30 and 31 get EXPIRED, URGENT, URGENT, THIS MONTH, THIS MONTH and FRESH |
| Pipeline.DaysToExpiry | main-fixed.py:51-53 | there is a day count from 2025-09-22 exactly when the expiry text parses |
| Pipeline.ExpiryStatus | main-fixed.py:50-64 | "UNKNOWN EXPIRY" exactly when the expiry text does not parse |
| Pipeline.ExpiryOfFormattedDate | main-fixed.py:51-62 | a date written as `YYYY-MM-DD` is labelled by its day count from the reference date, never as unknown |
| Pipeline.DemandStatus | main-fixed.py:67-74 | HIGH iff sales above 100, MEDIUM iff 51 to 100, LOW iff 1 to 50, "NO RECENT SALES" iff at most 0 |
| Pipeline.DistanceStatus | main-fixed.py:77-82 | CLOSE iff at most 5 km, MODERATE iff 6 to 15, FAR iff above 15 |
| Pipeline.PriorityOf | main-fixed.py:97 | "HIGH PRIORITY" iff the stock label is "CRITICAL LOW STOCK" or "OUT OF STOCK" or the expiry label is "EXPIRES SOON - URGENT"; "NORMAL PRIORITY" otherwise |
| Pipeline.PriorityRule | main-fixed.py:97 | "HIGH PRIORITY" iff stock is below 10, or the expiry parses and is 0 to 7 days away |
| Pipeline.LabelsOf | main-fixed.py:38-82 | the four labels of a record are the ones its stock, expiry, demand and distance fields select |
| Pipeline.DocumentLines | main-fixed.py:85-98 | the document has twelve lines |
| Pipeline.RenderDocument | main-fixed.py:85-100 | the stripped f-string is the template lines joined by newlines, and begins with "Product Information:" |
| Pipeline.CreateDocumentText | main-fixed.py:32-100 | `create_document_text` is the template filled with the record's own labels, begins with "Product Information:" and holds the "Priority: " line its stock and expiry labels decide, whatever the field values |
| Pipeline.MentionedOnLine | main-fixed.py:85-100 | a text on one template line is in the document |
| Pipeline.LinesMentionIdentity | main-fixed.py:87-89 | the ID, name and location lines hold the field values |
| Pipeline.LinesMentionStockAndDates | main-fixed.py:90-92 | the stock and date lines hold the field values |
| Pipeline.LinesMentionFigures | main-fixed.py:93-95 | the sales, total and distance lines hold the field values |
| Pipeline.LinesMentionLabels | main-fixed.py:90-97 | the stock, expiry, demand, distance and priority labels sit on their lines |
| Pipeline.RenderMentionsFields | main-fixed.py:85-100 | the document contains every field value verbatim |
| Pipeline.RenderMentionsLabels | main-fixed.py:90-97 | the document contains every derived label verbatim |
| Pipeline.DocumentMentionsEverything | main-fixed.py:32-100 | `create_document_text` contains all nine field values and all five labels, including "UNKNOWN EXPIRY" for an unparseable date |
| Pipeline.DictText | main-fixed.py:114 | the text of a dictionary document is `text`, else `chunk`, else `data`, else empty; the first key present wins even when its value is empty |
| Pipeline.PartOf | main-fixed.py:110-121 | a document is skipped exactly when it is a dictionary with an empty text; a plain string is kept as it is |
| Pipeline.CollectedParts | main-fixed.py:107-121 | no more parts than documents; the text of every kept document is among the parts, and every part is the text of some kept document |
| Pipeline.CollectedAppend | main-fixed.py:107-121 | the loop keeps document order: collecting `a + b` gives the parts of `a` followed by those of `b` |
| Pipeline.PromptHoldsKeptDoc | main-fixed.py:107-138 | the text of every kept document appears in the prompt |
| Pipeline.PromptHoldsContextPart | main-fixed.py:123-138 | every collected part appears in the prompt built around the context |
| Pipeline.NothingCollected | main-fixed.py:107-121 | nothing is collected iff every document is a dictionary with an empty text |
| Pipeline.BuildWarehousePrompt | main-fixed.py:103-140 | the loop's prompt is the template around the context of the collected parts, and it contains the text of every kept document |
| Pipeline.ContextIsPlaceholder | main-fixed.py:123 | the context is "No inventory data found." iff no part was collected or the only part is that text |
| Pipeline.Context | main-fixed.py:123 | the placeholder "No inventory data found." when nothing was collected; otherwise the parts joined by "\n\n---\n\n", which contains every collected part |
| Pipeline.EmptyStringDocGivesEmptyContext | main-fixed.py:117-123 | a lone empty plain-string document gives the empty context |
| Pipeline.PromptText | main-fixed.py:125-138 | the prompt begins with the assistant introduction and contains the context right after "CURRENT INVENTORY DATA:" and the raw query right after "USER QUERY: " |
| Dates.FormatDate | data_generator.py:53 | `strftime('%Y-%m-%d')` writes ten characters with dashes at positions 4 and 7 |
| Dates.ParseDate | main-fixed.py:51 | a text that parses gives a valid calendar date |
| Dates.ParseFormat | main-fixed.py:51 | parsing a formatted date gives the date back |
| Dates.FormatParse | main-fixed.py:51 | a text that parses is the formatted form of its date |
| Dates.OrdinalOrder | main-fixed.py:53 | the day count orders dates as the calendar does and tells different dates apart |
| Dates.FormattedBefore | data_generator.py:209-213 | comparing formatted dates as strings is calendar order |
| Dates.FormattedOrder | data_generator.py:209-213 | comparing formatted dates as strings is comparing their day counts |
| Text.Strip | main-fixed.py:100 | the result is the infix of the input left after cutting off only whitespace (Python's `str.isspace` set) at both ends, and neither starts nor ends with whitespace |
| Text.StripFramed | main-fixed.py:85-100 | stripping the newline-framed f-string gives its body |
| Text.Lower | app.py:91 | same length, no upper-case letter, each character lower-cased |
| Text.StripKeepsLowerCase | app.py:91 | stripping a lower-case text keeps it lower-case |
| Text.JoinContainsPart | main-fixed.py:123 | a joined text contains each part |
| Text.JoinContainsParts | main-fixed.py:123 | a joined text contains all its parts |
| Text.IntToStringRoundTrip | main-fixed.py:87 | the decimal rendering of a non-negative number reads back as that number |
| Updates.Lookup | app.py:132 | a key has a value iff it is in the dictionary, and the value is its entry's |
| Updates.Put | app.py:108 | `updates[key] = value`: the key reads back the value, every other key is unchanged |
| Updates.PutKeepsDict | app.py:108 | assigning keeps keys distinct |
| Updates.LookupPutAll | app.py:114-122 | after several assignments a key holds its last assigned value, or its old one |
| Updates.Normalize | app.py:91 | the command the patterns see has no upper-case letter |
| Updates.Captured | app.py:112-113 | `match.group(n)` is the characters of the command inside the group's span |
| Updates.IdEntries | app.py:106-108 | the ProductID step only ever assigns `ProductID` |
| Updates.PatternEntries | app.py:113-122 | one pattern's step assigns distinct keys, all of them that pattern's |
| Updates.ParsedUpTo | app.py:111-122 | after the first n patterns each key holds exactly what those patterns assigned |
| Updates.AssignCaptures | app.py:113-122 | the loop body assigns the keys of one pattern |
| Updates.MatchPatterns | app.py:105-124 | the loop builds the dictionary of all patterns |
| Updates.ParsedUpdates | app.py:92-124 | the dictionary of all patterns run in order on the command holds each key at most once; what each key holds is stated by `Updates.ParsedMeaning` |
| Updates.ParseUpdateQuery | app.py:89-124 | `parse_update_query` is the dictionary of all patterns on the lower-cased, stripped command |
| Updates.PatternMeaning | app.py:114-122 | each pattern stores its capture under the key the code names |
| Updates.NumberPatternMeaning | app.py:117-118 | stock, sales and distance captures are stored as numbers under `CurrentStock`, `SalesLastMonth` and `FactoryDistance` |
| Updates.TextPatternMeaning | app.py:119-122 | date and location captures are stored as raw text under `LastSoldDate`, `ExpiryDate` and `Location` |
| Updates.AssignedMeaning | app.py:111-122 | all patterns together assign each key its expected value |
| Updates.Expected | app.py:105-122 | the captures call for a value only under `ProductID` or a pattern's key, and every number they give is non-negative |
| Updates.ParsedMeaning | app.py:105-124 | the parsed dictionary holds `ProductID` iff the ID pattern matched (as the number of its digits), `old_name` and `ProductName` together iff the rename matched, and each field capture under its key |
| Updates.ParsedKeys | app.py:105-124 | every parsed key is `ProductID` or a pattern's key; `FactoryDistanceKM` is never one |
| Updates.ParsedEmpty | app.py:105-124 | the dictionary is empty iff nothing matched |
| Updates.CapturedIsLowerCase | app.py:91 | a capture from a lower-case command is lower-case |
| Updates.ExpectedValueIsLowerCase | app.py:115-122 | every text value a capture gives is lower-case |
| Updates.ParsedTextIsLowerCase | app.py:91-122 | every text value in the parsed dictionary (names, dates, location) is lower-case |
| Updates.SelectionOf | app.py:132-137 | select by `ProductID` when present, else by `old_name`; no selector iff neither key is present |
| Updates.RowMatches | app.py:132-135 | only a selector matches; an ID match needs the row's `ProductID` cell, a name match a text `ProductName` cell |
| Updates.NameMatchIgnoresCase | app.py:135 | a name selects the same rows whatever its letter case |
| Updates.Mask | app.py:133-135 | one mask entry per row, true exactly for the rows the selection matches |
| Updates.UpdateRow | app.py:144-147 | a row keeps the column set |
| Updates.Descriptions | app.py:143-147 | no more descriptions than updates |
| Updates.AppliedRows | app.py:126-147 | the returned table has the same rows in the same order; a row is updated iff it matches the selection, and kept otherwise, so with no selector or no match nothing changes |
| Updates.ApplyMessage | app.py:126-152 | an empty table gives "No data to update"; otherwise the message is one of the other three failure messages, or "Successfully updated: " followed by the comma-joined descriptions of the column entries |
| Inventory.TableOf | app.py:30 | the table read from the dataset has one row per record, each with exactly the nine columns and the record's `ProductID` |
| Updates.AppliedKeepsColumns | app.py:126-147 | applying a dictionary to a table read from records keeps every row's nine columns and adds none |
| Updates.WriteColumn | app.py:146 | `df.loc[mask, key] = value` writes the cell of every masked row and leaves the other rows alone |
| Updates.Table.ApplyDataUpdates | app.py:126-152 | the table becomes the applied table and the message is the one `apply_data_updates` returns |
| Updates.UpdateRowCell | app.py:144-147 | a cell is overwritten iff its key is a column holding an update, with that update's value |
| Updates.UpdateRowIdempotent | app.py:144-147 | writing the same updates twice into a row gives the row of writing them once |
| Updates.NoColumnEntries | app.py:144-152 | without a column key no cell is written |
| Updates.DescriptionsCover | app.py:147 | every column entry is described |
| Updates.AppliedCells | app.py:132-147 | a cell changes iff its row matches the selection, its key is a column and the dictionary has it; then it takes that value; every other cell is unchanged |
| Updates.EarlyExits | app.py:128-140 | an empty table gives "No data to update", a dictionary without a selector gives "Could not identify...", a selection that matches no row gives "Product not found in inventory"; in each case the table is unchanged |
| Updates.AppliedIdempotent | app.py:126-152 | applying the same dictionary twice gives the table of applying it once |
| Updates.MaskSelects | app.py:139 | the mask has a true entry iff some row matches |
| Updates.DescriptionsNonEmpty | app.py:143-149 | some description exists iff some update key is a column |
| Updates.SuccessMessage | app.py:128-152 | the message begins "Successfully updated: " iff the table is non-empty, there is a selector, some row matches and some key is a column |
| Updates.SuccessIsLast | app.py:139-152 | the same in terms of the mask and the descriptions |
| Updates.FailuresStartApart | app.py:128-152 | no failure message begins like the success message |
| Updates.SuccessListsWrites | app.py:147-150 | a success message lists `key: value` for every column written |
| Updates.NoDescriptionWithoutColumn | app.py:145-147 | a description exists only for a column key |
| Updates.ChangeMeansSuccess | app.py:139-152 | a changed table always comes with the success message |
| Updates.ParsedSelectable | app.py:134-135 | a parsed `old_name` is a text, so the case-insensitive comparison applies |
| Updates.ExpectedWritesColumn | app.py:114-149 | a parsed dictionary with a selector always holds a column key |
| Updates.ParsedNeverLacksUpdates | app.py:149-152 | a parsed dictionary never yields "No valid updates found" |
| Updates.ParsedKeepsFactoryDistance | app.py:143-147 | no parsed command changes `FactoryDistanceKM` of any row |
| Updates.ExpectedIdOnlyColumn | app.py:105-122 | with only ID and distance captures, the only column key is `ProductID` |
| Updates.IdOnlyKeepsRow | app.py:144-147 | writing only the ID a row already holds leaves it unchanged |
| Updates.ExpectedIdOnlyKeepsRows | app.py:126-152 | a command with only an ID (and a distance) leaves the table unchanged |
| Updates.DistanceCommandKeepsRows | app.py:102-147 | "update product N factory distance to M" leaves the table unchanged |
| Updates.UnidentifiedCommand | app.py:132-137 | a command with neither ID nor rename leaves a non-empty table unchanged with the request to name the product |
| Updates.SubmitParsed | app.py:371-407 | empty dictionary: not parsed; an unchanged applied table gives the warning with `apply_data_updates`' message; a changed one is saved iff the write succeeds, else the save fails; a save installs exactly the applied table with its success message, and no other outcome changes the table |
| Updates.Submit | app.py:366-407 | a blank command is ignored; otherwise the parsed dictionary names a text when it selects by name, a save installs exactly the table and message `apply_data_updates` gives for it, a changed table is saved iff the write succeeds, and no other outcome changes the table |
| Updates.Table.SubmitUpdates | app.py:371-407 | the outcome and the new table are the handler's once the command is parsed |
| Updates.Table.SubmitUpdate | app.py:366-407 | the outcome and the new table are the handler's for the raw command |
| Updates.SubmitNotParsed | app.py:366-407 | "Could not parse" iff the command is not blank and no pattern matched |
| Updates.ResubmitParsed | app.py:376-380 | submitting a saved dictionary again finds nothing to change |
| Updates.ResubmitKeepsTable | app.py:366-407 | submitting a saved command again is a warning, not a save |
| Updates.SubmitUnidentified | app.py:403-404 | a parsed command with no selector shows the warning and keeps the table |
| Updates.UnchangedNotSaved | app.py:378-380 | an unchanged table is never saved |
| Updates.SubmitDistanceNeverSaved | app.py:378-380 | a factory-distance command is never saved |
| Simulator.ProductRecord | data_generator.py:35-65 | the record keeps its number, name and location; every fifth number takes the low-stock draw and the others the stock draw; total sales are at least six times last month's |
| Simulator.InitialRecord | data_generator.py:67-77 | the k-th product gets number 11023 + k and keeps its catalogue name and location |
| Simulator.ProductRecordFacts | data_generator.py:36-65 | a record built from draws in range has non-negative counts, total sales at least six times last month's, at most 8 units when its number is divisible by 5, 5 to 50 units for heavy goods otherwise, 1 to 25 km, and dates that read back as the drawn dates |
| Simulator.InitialRecordFacts | data_generator.py:35-77 | the same for the k-th catalogue product |
| Simulator.InitialInventory | data_generator.py:32-77 | one record per catalogue product |
| Simulator.InitialInventoryFacts | data_generator.py:35-68 | numbers run consecutively from 11023 and strictly increase, every record is sane, and every fifth number starts with at most 8 units |
| Simulator.MakeRecord | data_generator.py:47-77 | the loop body builds the product's record, with the low-stock draw for every fifth number |
| Simulator.BuildInventory | data_generator.py:32-77 | the counted loop builds the initial inventory |
| Simulator.CreateInitialInventory | data_generator.py:9-80 | fifteen records with strictly increasing numbers, all sane, every fifth number with at most 8 units |
| Simulator.SaleStep | data_generator.py:149-154 | with stock, 1 to the drawn number of units leave and never more than there are; both sales figures rise by that many; the product was last sold today; nothing else changes; without stock nothing changes |
| Simulator.RestockStep | data_generator.py:159-164 | stock rises by the delivered amount; only a new batch changes the expiry date, to its own; nothing else changes |
| Simulator.ReturnStep | data_generator.py:171-174 | with sales last month, 1 to the drawn number of units, never more than were sold, move from last month's sales back to stock; last month's sales stay non-negative; nothing else changes |
| Simulator.MoveStep | data_generator.py:183-185 | only the location changes, to `<section>-<aisle>-<shelf>` |
| Simulator.ExpiryStep | data_generator.py:190-194 | only the expiry date changes, and only when an issue is found |
| Simulator.Step | data_generator.py:147-195 | every event keeps the counts non-negative, keeps stock plus last month's sales except on a restock, never lowers total sales, and never touches number, name or distance |
| Simulator.UpdateRecord | data_generator.py:147-195 | the cell-by-cell writes give the event's record |
| Simulator.ApplyEvents | data_generator.py:133-195 | a round keeps the number of rows |
| Simulator.EventsKeepRows | data_generator.py:133-195 | after a round every row is sane, keeps number, name and distance, and has no lower total sales |
| Simulator.IdsStayUnique | data_generator.py:133-195 | distinct product numbers stay distinct after a round |
| Simulator.Warehouse.ApplyEvent | data_generator.py:134-195 | the event's row becomes its record after the event; the other rows stay |
| Simulator.Warehouse.RunRound | data_generator.py:130-195 | a round of 2 to 5 events applies them in order |
| Simulator.OutOfStockCount | data_generator.py:207 | the number of positions whose stock is 0 |
| Simulator.LowStockCount | data_generator.py:208 | the number of positions whose stock is 1 to 9 |
| Simulator.IsExpired | data_generator.py:209 | a row expiring today is not expired |
| Simulator.IsExpiringSoon | data_generator.py:210-213 | a row expiring soon is not expired; a row expiring today expires soon |
| Simulator.ExpiredCount | data_generator.py:209 | the number of positions whose expiry text sorts before today's |
| Simulator.ExpiringSoonCount | data_generator.py:210-213 | the number of positions whose expiry text sorts from today's to next week's |
| Simulator.StockCountsDisjoint | data_generator.py:207-208 | the out-of-stock and low-stock index sets are disjoint, so the two counts add up to the number of rows holding 0 to 9 units, and to at most the number of rows |
| Simulator.ExpiryCountsDisjoint | data_generator.py:209-213 | the expired and expiring-soon index sets are disjoint, so the two counts add up to the number of rows that are either, and to at most the number of rows |
| Simulator.ExpiryCountsMeanDates | data_generator.py:209-213 | for a parseable expiry, "expired" by string comparison means before today, and "expiring soon" means 0 to 7 days from today |
| Simulator.CountsAgreeWithLabels | data_generator.py:209-213 | on 2025-09-22 the two counts agree with the EXPIRED and "EXPIRES SOON - URGENT" labels of the documents |
| Simulator.ExpiryEventsAndCounts | data_generator.py:188-195 | after a quality-check issue the product counts as expiring soon, after a new batch as neither; in neither case as expired |

## Left out

- The Streamlit UI, session state, dashboards, file upload and the metric panels, which only render; `st.json`, spinners, `time.sleep` and `st.rerun` are outside the model.
- CSV loading and saving, `atomic_csv_update` and `verify_file_system`: file-system I/O. Whether saving succeeds is a parameter of the submit handler.
- The HTTP client (`send_rag_query`, `check_rag_server_status`) and `test-queries-fixed.py`: network I/O.
- The Pathway pipeline in `main()`: streaming CSV reading, the text splitter, embedder, k-NN index, document store, LLM chat and web server are foreign libraries.
- Python `re` matching and backtracking: each pattern's match is an input span, constrained only to lie in the normalised command and, for `\d+`, to hold digits. The model does not decide which commands a pattern matches.
- `str.title()` key derivation: only the five keys it produces from the concrete field names are modelled.
- `random`, `datetime.now()` and `date.today()`: the draws and today's date are parameters in their ranges. "Today plus n days" is a date whose day count is n more. The weights of the event kinds and the 50% and 30% chances are not modelled, only which branch is taken.
- Updates.Table.SubmitUpdate: pandas dtype coercion (a text written to an integer column), the `is not None` guard, `DataFrame.equals` dtype subtleties and the reload of the saved CSV are not modelled; the table is compared as values.
- Updates.RowMatches: a missing name cell or a non-text name never matches; pandas `NaN` handling is not modelled.
- Updates.Fits: a `\d+` capture holds ASCII digits only; Python 3's `\d` also matches the other Unicode decimal digits, which `int()` accepts.
- Text.Lower: lower-cases ASCII letters only; Python's `str.lower()` also maps non-ASCII letters.
- Dates.ParseDate: accepts exactly four, two and two digits; `strptime` also accepts one-digit months and days, which the model reports as unparseable.
- Dates.FormatDate: pads years below 1000 to four digits, which some platforms' `strftime` does not; the simulator's dates are all near the present.
- Pipeline.PartOf: an object's `text` attribute, a dictionary value and any other document are taken as texts already converted by `str`; the truthiness of a non-text dictionary value and `str` of arbitrary objects are not modelled.
- Pipeline.DocumentLines: integers are rendered in decimal with a leading minus sign for negatives; Python's full `format` machinery is not modelled.
- The printed summaries of `create_initial_inventory` (including its "Low Stock (<10)" count, which also counts the products with no stock), the event log strings and the simulator's console output.
- Simulator.CreateInitialInventory: the catalogue of fifteen products is fixed; the loop itself (`Simulator.BuildInventory`) works over any catalogue.
- Simulator.Warehouse.RunRound: the number of events per round (2 to 5) is a parameter, and the rows each event picks are inputs.
- The concurrency, debouncing and staleness handling described for the system: none of it is in these files.
