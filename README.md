# Blue Button ETL core, modelled in Dafny

This project models the deterministic core of a small batch ETL for CMS Blue
Button FHIR data. The ETL downloads Patient bundles and flattens
ExplanationOfBenefit claims into CSV tables. The modelled parts are:

- **Patient field lookups** (`PatientFields`). These scan the `identifier`,
  `extension`, `name` and `address` arrays of a Patient resource:
  - identifiers are found by system substring or by type code;
  - extension values are found by URL substring;
  - the us-core-race text is found through its nested entries;
  - the first name and address blocks are built;
  - nested values are serialized, and the allow-list of output columns is
    selected.
- **Key-path extractor** (`KeyPaths`). A recursive walk that reports every
  occurrence of a key in a JSON document, in document order, under a dotted
  and bracketed path.
- **Column cleaner** (`ColumnFilter`). It drops the all-blank and the
  constant columns of the Part D claim table. It never drops `patient_ref`,
  and it keeps every column when all of them would go.
- **Table merger** (`ItemMerge`). It splices the claim-line table into the
  claim table at the `item` column, skips duplicate names and removes the
  block-listed `created` and `sequence` columns.
- **Claim-line explosion** (`ItemLines`). Each element of the JSON array in a
  row's `item` cell becomes a 14-column record. Nine of the columns are
  adjudication amounts, chosen by substring matches on category codes.
- **Bundle client** (`BundlePages`). It collects the `resource` of every
  bundle entry. Its paging loop follows `next` links up to a page cap and
  stops on the first response that is not 200.

Shared modules:

- `Json`: JSON values with objects as ordered key/value lists, Python
  truthiness and `.get`.
- `Text`: substring search, `strip`, `" ".join` and `split(" ")`, decimal
  text.
- `Seqs`: order-preserving comprehensions, first-match search and
  subsequences.
- `Tables`: a CSV file in memory, and the row projection `csv.DictWriter`
  performs.
- `Wrappers`: `Option`.

The loops of etl/filter_csv.py, etl/merge_item.py, etl/extract_items.py and
etl/extractPatient.py change state step by step, so they are modelled as
methods. Each method is proved equal to a specification function, and the
lemmas state the properties of those functions. The specification functions
are recursive or comprehensions (`ProjectAll`, `MergedRows`, `Seqs.Map`).
The search loops of etl/extract_patient_p2.py return at the first match and
build nothing, so they are modelled as functions over `Seqs.FirstWhere`. The
recursive walk of etl/extract_supporting_info.py is modelled as the mutually
recursive functions `KeyPaths.ExtractFields` and `KeyPaths.ExtractItems`.

## Model

| member | source | states |
|---|---|---|
| PatientFields.FindIdentifierValue | etl/extract_patient_p2.py:18-25 | an absent list, or no system containing the substring, gives `None`; otherwise the `value` of the first identifier, in array order, whose system (a missing or null system read as "") contains the substring |
| PatientFields.ListSystemMatchesByElement | etl/extract_patient_p2.py:22-23 | a list-valued system matches when one of its elements equals the substring, and not when an element only contains it, because `in` on a list tests its elements |
| PatientFields.FindIdentifierByCode | etl/extract_patient_p2.py:27-37 | an absent list, or no identifier with a type coding whose code equals the target, gives `None`; otherwise the `value` of the first identifier having such a coding (a non-list `coding` counts as none) |
| PatientFields.ExtensionPayload | etl/extract_patient_p2.py:48-56 | the value of the first key, in key order, starting with "value"; with no such key, the nested `extension` list unchanged, or `None` when that is absent or not a list |
| PatientFields.ExtValueByUrl | etl/extract_patient_p2.py:39-57 | an absent list or no URL match gives `None`; otherwise the payload of the first extension whose URL contains the substring, whatever that payload is |
| PatientFields.ExtValueStopsAtFirstMatch | etl/extract_patient_p2.py:45-57 | when the first URL match has no payload, the result is `None` even though a later matching extension has one |
| PatientFields.RaceTextOf | etl/extract_patient_p2.py:65-69 | the `valueString` of the first nested entry whose url is "text" |
| PatientFields.ExtTextFromUsCoreRace | etl/extract_patient_p2.py:59-70 | an absent list, or no extension with the exact race URL and a "text" entry, gives `None`; otherwise the text of the first such extension, so race extensions without a "text" entry are passed over |
| PatientFields.JoinedField | etl/extract_patient_p2.py:79 | an absent field gives "", a list of strings gives them joined by single spaces, and any other value (a string, `None`) is returned as it is |
| PatientFields.FirstNameBlock | etl/extract_patient_p2.py:72-80 | an absent or empty list gives `{}`; otherwise a block of the first name's `use`, `family` and `given`, in that order, with `given` as `JoinedField` gives it |
| PatientFields.FirstAddressBlock | etl/extract_patient_p2.py:82-91 | an absent or empty list gives `{}`; otherwise a block of the first address's `state`, `postalCode`, `city` and `line`, in that order, with `line` as `JoinedField` gives it |
| PatientFields.FirstNameBlockIgnoresRest | etl/extract_patient_p2.py:73-75 | only element 0 is read: the names after it do not change the block |
| PatientFields.GivenNamesRoundTrip | etl/extract_patient_p2.py:79 | a non-empty list of given names without spaces is joined with single spaces: splitting the block's `given` on " " gives the list back (an empty list joins to "", which splits to `[""]`) |
| PatientFields.AddressLinesRoundTrip | etl/extract_patient_p2.py:90 | a non-empty list of address lines without spaces is joined with single spaces: splitting the block's `line` on " " gives the list back (an empty list joins to "", which splits to `[""]`) |
| PatientFields.PrettyJsonOrValue | etl/extract_patient_p2.py:198-201 | a list or object becomes its `json.dumps` text; every other value is returned unchanged |
| PatientFields.PrettyJsonOrValueIdempotent | etl/extract_patient_p2.py:198-201 | applying the conversion twice is the same as applying it once |
| PatientFields.KeepExisting | etl/extract_patient_p2.py:183 | exactly the allow-listed columns that exist are kept, in allow-list order |
| PatientFields.PatientIdLeads | etl/extract_patient_p2.py:152-183 | with the allow-list of the script, `patient_id` is the first output column whenever the frame has it |
| KeyPaths.ChildPath | etl/extract_supporting_info.py:23 | the child path ends with the key and, below the root, starts with the parent path |
| KeyPaths.ItemPath | etl/extract_supporting_info.py:37 | an element's path starts with the parent path below the root |
| KeyPaths.ValueText | etl/extract_supporting_info.py:29 | defined as "" for `None` and the rendered text of any other value; `SingleScalarEntry` shows it in a record |
| KeyPaths.ExtractColumnData | etl/extract_supporting_info.py:7-40 | a value that is neither an object nor a list yields no records; every record's path ends with the key and extends the starting path |
| KeyPaths.ExtractFields | etl/extract_supporting_info.py:21-33 | the records of an object's entries, entry by entry: all paths end with the key and extend the object's path |
| KeyPaths.ExtractItems | etl/extract_supporting_info.py:35-38 | the records of a list's elements, element by element: all paths end with the key and extend the list's path |
| KeyPaths.ExtractCount | etl/extract_supporting_info.py:19-40 | the number of records equals the number of object keys equal to the target anywhere in the document |
| KeyPaths.ExtractFieldsCount | etl/extract_supporting_info.py:21-33 | the records of an object's entries are as many as the key's occurrences in those entries |
| KeyPaths.ExtractItemsCount | etl/extract_supporting_info.py:35-38 | the records of a list's elements are as many as the key's occurrences in those elements |
| KeyPaths.MatchPrecedesNested | etl/extract_supporting_info.py:26-33 | one unfolding of `ExtractFields` at a matching key, used by the walk's proofs: the match is reported first, then everything found inside its value, then the later entries |
| KeyPaths.SingleScalarEntry | etl/extract_supporting_info.py:21-33 | `{key: v}` with a scalar `v` yields the one record (path `key` below the root, value `str(v)` or "" for `None`) |
| KeyPaths.SingletonListEntry | etl/extract_supporting_info.py:35-38 | `[{key: v}]` yields the one record under path `[0].key` (or `path[0].key`) |
| KeyPaths.NestedExample | etl/extract_supporting_info.py:21-38 | `{a: {key: v1}, b: [{key: v2}]}` yields `a.key` then `b[0].key`, in document order |
| ColumnFilter.IsNull | etl/filter_csv.py:9-20 | defined as: a missing cell, or text that strips to ""; `IsNullIffBlank` states that a present cell is null exactly when it is whitespace only |
| ColumnFilter.IsNullIffBlank | etl/filter_csv.py:9-20 | a present cell is null exactly when it is empty or whitespace only |
| ColumnFilter.AllNullStep | etl/filter_csv.py:65-67 | one more row leaves a column all-null exactly when that row's cell is null |
| ColumnFilter.ConstantStep | etl/filter_csv.py:69-75 | one more row leaves a column constant exactly when that row's cell equals the first row's |
| ColumnFilter.BaselinesStep | etl/filter_csv.py:70-75 | the baseline of a column is recorded once, from the first row, and a recorded baseline is the first row's cell |
| ColumnFilter.VisitCell | etl/filter_csv.py:62-75 | visiting one cell folds it into that column's all-null flag, baseline and constant flag, and leaves the other columns as they were |
| ColumnFilter.ScanRow | etl/filter_csv.py:62-75 | after one row's columns, every column has taken in that row |
| ColumnFilter.ScanRows | etl/filter_csv.py:55-75 | after the scan, each column's all-null flag says that every cell is null, and its constant flag says that every cell equals the first row's |
| ColumnFilter.FilterColumns | etl/filter_csv.py:23-105 | the specification of the cleaner: an empty header writes nothing, no rows keep the header, otherwise the columns in `DropSet` (those that are `Droppable`: all null or constant, and not `patient_ref`) go unless none would stay; `DropIsPartition`, `FallbackKeepsEverything`, `PatientRefNeverDropped` and `RowsPreserved` state its properties |
| ColumnFilter.DropNullAndConstantColumns | etl/filter_csv.py:23-105 | the written header and rows and the reported dropped list: an empty table for no header, the header alone for no rows, and otherwise the droppable columns removed, with the fallback to the whole header |
| ColumnFilter.DropIsPartition | etl/filter_csv.py:81-86 | when some column survives, the dropped columns are exactly the all-null or constant ones other than `patient_ref`, the kept columns are exactly the others, and both keep header order |
| ColumnFilter.FallbackKeepsEverything | etl/filter_csv.py:88-95 | when every column is droppable, the header is kept whole and nothing is reported dropped |
| ColumnFilter.PatientRefNeverDropped | etl/filter_csv.py:80-84 | a `patient_ref` column is always kept and never reported dropped, and with any rows it makes the fallback impossible (some column survives) |
| ColumnFilter.RowsPreserved | etl/filter_csv.py:100-105 | when the header is non-empty, the output has the same rows in the same order, each holding exactly the kept columns with its own cell, a missing one written "" (with no header the output is empty) |
| ColumnFilter.SingleRowKeepsOnlyPatientRef | etl/filter_csv.py:69-95 | with one data row every column is constant, so only `patient_ref` survives, or the whole header does when there is no `patient_ref` |
| ColumnFilter.BlankColumnDropped | etl/filter_csv.py:56-84 | when some column survives, a column whose cells are all blank is dropped unless it is `patient_ref` (otherwise the fallback keeps every column) |
| Tables.Project | etl/filter_csv.py:105 | the written row has exactly the header's columns, each with the row's cell or "" |
| Tables.ProjectAll | etl/filter_csv.py:104-105 | every row is projected, and the order and count are kept |
| Tables.WriteRows | etl/merge_item.py:87-89 | the writing loop produces the projection of every row, in order |
| ItemMerge.InsertCols | etl/merge_item.py:50-53 | a column is inserted exactly when it is in the second header and is `item` or absent from the first header |
| ItemMerge.InsertColsInOrder | etl/merge_item.py:53 | the inserted columns keep the second table's order |
| ItemMerge.CombinedHeader | etl/merge_item.py:55-61 | no block-listed column appears in the merged header |
| ItemMerge.MergedRow | etl/merge_item.py:66-81 | the specification of one merged dictionary: kept first-table columns, then inserted columns, a name in both taking the second table's cell; `CellSources` states where each output cell comes from |
| ItemMerge.MergedRows | etl/merge_item.py:65-81 | one merged row per input row pair; row k is built from the k-th rows only |
| ItemMerge.MergedRowFirstStep | etl/merge_item.py:70-73 | visiting a first-table column adds its cell unless it is `item` or block-listed |
| ItemMerge.MergedRowSecondStep | etl/merge_item.py:76-79 | visiting an inserted column sets its cell from the second row unless it is block-listed |
| ItemMerge.CopyFirst | etl/merge_item.py:69-73 | the first loop of the row merge builds the first row's part of the merged row |
| ItemMerge.MergeRow | etl/merge_item.py:66-81 | the body of the row loop builds the merged row |
| ItemMerge.MergeTables | etl/merge_item.py:37-89 | the specification of the merger: the row-count error first, then the missing-`item` error, otherwise the merged table; `MergeFailsExactly` and `CellSources` state its properties |
| ItemMerge.AppendColumnsReplaceItem | etl/merge_item.py:37-89 | the procedure raises the same errors and writes the same table as the merge specification |
| ItemMerge.MergeFailsExactly | etl/merge_item.py:37-45 | the merge fails exactly on a row-count mismatch or a missing `item` column, and the mismatch is reported first |
| ItemMerge.HeaderSplice | etl/merge_item.py:47-61 | the merged header is the filtered columns before `item`, then the filtered inserted columns, then the filtered columns after `item` |
| ItemMerge.HeaderColumns | etl/merge_item.py:52-61 | a name other than `item` is in the merged header exactly when it is in either header and not block-listed |
| ItemMerge.CellSources | etl/merge_item.py:65-89 | one output row per input row; an inserted column's cell comes from the second table's row, any other column's from the first table's row, and an `item` column that is not inserted is written "" |
| ItemMerge.SpliceExample | etl/merge_item.py:47-61 | headers `[a, item, d]` and `[b, c]` merge into `[a, b, c, d]` |
| ItemLines.Slot | etl/extract_items.py:52-77 | the branch a code takes is one of the nine, or none |
| ItemLines.SlotFollowsChain | etl/extract_items.py:52-77 | a code takes the branch of the first substring of the `elif` chain it contains, and none when it contains none of them |
| ItemLines.ListCodeMatchesByElement | etl/extract_items.py:50-77 | a list-valued code takes the branch of the first substring that is one of its elements, so a list holding "cvrd_d_plan_pd_amt" sets `benefit_amount` |
| ItemLines.ListCodeWithoutElementMatch | etl/extract_items.py:50-77 | a list-valued code none of whose elements is one of the substrings takes no branch |
| ItemLines.ApplyHitsAppend | etl/extract_items.py:45-77 | applying two runs of codings in turn is applying them together, which lets the loops be split per adjudication |
| ItemLines.BaseRecord | etl/extract_items.py:19-43 | the specification of the record before the adjudication loops; `RecordColumns`, `ScalarColumns`, `ProductColumns` and `BaseColumnKept` state its columns |
| ItemLines.RecordOf | etl/extract_items.py:18-79 | the specification of one item's record: `ApplyHits` of the `Hits` of its adjudications to `BaseRecord`; `AdjudicationLastMatch` and `AdjudicationUnmatched` state which amount each column ends with |
| ItemLines.StartRecord | etl/extract_items.py:19-43 | the assignments before the adjudication loops build the base record |
| ItemLines.ApplyCoding | etl/extract_items.py:50-77 | one coding sets the column of its branch to the adjudication's amount, or nothing |
| ItemLines.ApplyCodings | etl/extract_items.py:49-77 | the coding loop equals `ApplyHits` over `CodingHits`: each coding, in order, sets the column of its branch to the amount |
| ItemLines.ApplyAdjudications | etl/extract_items.py:45-77 | the adjudication loop equals `ApplyHits` over `Hits`: every coding of every adjudication, in adjudication and then coding order |
| ItemLines.BuildRecord | etl/extract_items.py:18-79 | the loop body builds the item's record |
| ItemLines.ItemRecords | etl/extract_items.py:9-79 | the specification of `extracted_data`: `RecordsOf` the `ItemsOf` each row, in row order, a NaN or unparsable cell having no items; `ItemRecordsAppend`, `UnparsedRowSkipped`, `ItemRecordsCount` and `ItemRecordsColumns` state its properties |
| ItemLines.ExtractItems | etl/extract_items.py:9-79 | the row loop equals `ItemRecords`: the records of every parsed array, in row and then item order, skipping a row that fails to parse |
| ItemLines.LastMatchWins | etl/extract_items.py:45-77 | the last coding, in array order, that selects a column decides its value |
| ItemLines.UnmatchedFieldKept | etl/extract_items.py:35-77 | a column no coding selects keeps its value from before the loops |
| ItemLines.OtherColumnKept | etl/extract_items.py:21-77 | the loops never touch a column outside the nine adjudication columns |
| ItemLines.ApplyHitsKeys | etl/extract_items.py:45-77 | the loops add no column and remove none |
| ItemLines.RecordColumns | etl/extract_items.py:19-43 | every record has exactly the fourteen output columns |
| ItemLines.AdjudicationUnmatched | etl/extract_items.py:35-77 | an adjudication column that no category code selects is "" |
| ItemLines.AdjudicationLastMatch | etl/extract_items.py:45-77 | an adjudication column that some code selects holds the amount of the last adjudication, in array and coding order, that selects it |
| ItemLines.BaseColumnKept | etl/extract_items.py:21-31 | the scalar and product columns keep the values read before the loops |
| ItemLines.ProductColumns | etl/extract_items.py:25-31 | `ndc_code` and `product_display` come from the first product coding, and are "" without one |
| ItemLines.ScalarColumns | etl/extract_items.py:21-23 | `sequence`, `service_date` and `quantity` are read from the item, and are "" when absent |
| ItemLines.ItemRecordsAppend | etl/extract_items.py:9-79 | rows are processed independently and their records concatenate in row order |
| ItemLines.UnparsedRowSkipped | etl/extract_items.py:12-16 | a row whose cell is missing or fails to parse contributes no records, and the rows after it still do |
| ItemLines.ItemRecordsCount | etl/extract_items.py:18-79 | each row adds one record per element of its parsed array |
| ItemLines.ItemRecordsColumns | etl/extract_items.py:18-79 | every extracted record has exactly the fourteen output columns |
| ItemLines.Header | etl/extract_items.py:83-98 | the header is exactly the `column_order` list: sequence, service_date, ndc_code, product_display, quantity, total_drug_cost, benefit_amount, patient_paid, prior_payer_paid, low_income_subsidy, coinsurance_below_threshold, coinsurance_above_threshold, other_troop, gap_discount |
| ItemLines.OrderColumnsAsWritten | etl/extract_items.py:81-100 | the column selection as written: no records give no table (the `KeyError`), otherwise the fourteen columns in output order |
| ItemLines.OrderColumns | etl/extract_items.py:81-100 | the column selection as intended: the fourteen columns in output order, even with no records; `OrderedTable` states its header and rows |
| ItemLines.EmptyArrayFailsAsWritten | etl/extract_items.py:81-100 | an input whose only cell holds `[]` yields no records, and the column selection then fails |
| ItemLines.OrderedTable | etl/extract_items.py:81-100 | the intended table has the fourteen columns in order and one row per record; when every record has exactly those columns, each cell is the record's own value |
| BundlePages.EntryResources | etl/extractPatient.py:64-67 | the specification of the inner loop: the truthy `resource` of each entry, in entry order; `EntryResourcesMembership` and `EntryResourcesBound` state its properties |
| BundlePages.Resources | etl/extractPatient.py:60-68 | the specification of `extract_resources_from_bundles`: the entry resources of each bundle, in bundle order; `ResourcesAppend` and `ResourcesBound` state its properties |
| BundlePages.ExtractResourcesFromBundles | etl/extractPatient.py:60-68 | the nested loops collect the truthy resources, in bundle order and then entry order |
| BundlePages.ResourcesAppend | etl/extractPatient.py:62-68 | the resources of consecutive bundle lists concatenate in order |
| BundlePages.EntryResourcesMembership | etl/extractPatient.py:64-67 | a value is collected exactly when it is truthy and is some entry's `resource` |
| BundlePages.ResourcesBound | etl/extractPatient.py:62-68 | there are at most as many resources as entries, and all are truthy |
| BundlePages.EntryResourcesBound | etl/extractPatient.py:64-67 | one bundle gives at most one resource per entry, and all are truthy |
| BundlePages.RequestAt | etl/extractPatient.py:29-34 | each request goes to the current next URL, and `_count` is sent exactly on the first |
| BundlePages.NextLink | etl/extractPatient.py:46-50 | the specification of the link search: the `url` of the first link whose relation is "next", `None` when there is none; `NextLinkFinds` states both cases |
| BundlePages.NextLinkFinds | etl/extractPatient.py:46-52 | the next URL is the `url` of the first link whose relation is `next`, and `None` when there is none |
| BundlePages.FindNextLink | etl/extractPatient.py:46-50 | the search loop stops at the first `next` link and finds the next URL |
| BundlePages.Pages | etl/extractPatient.py:27-53 | the specification of the collected bundles: stop without a next URL or at the page cap, stop on a non-200 reply, otherwise keep the body and follow its next link; `PagesBound`, `PagesAreReplies` and `PagesMonotone` state its properties |
| BundlePages.Sent | etl/extractPatient.py:27-40 | the specification of the requests sent: one per collected bundle plus the failed one; `SentCount`, `CountOnlyFirst` and `FollowsNextLinks` state its properties |
| BundlePages.PagesStep | etl/extractPatient.py:27-53 | one unfolding of `Pages` and `Sent`, the step `FetchAllBundlePages` and the inductions use: a 200 response keeps its body and moves on to the bundle's next link |
| BundlePages.PagesStop | etl/extractPatient.py:27-40 | one unfolding of `Pages`, the loop exit `FetchAllBundlePages` uses: with no next URL, at the page cap, or on a non-200 response, nothing more is collected |
| BundlePages.PagesCollect | etl/extractPatient.py:42-43 | the loop invariant step of `FetchAllBundlePages`: appending a 200 body keeps the bundles collected so far plus the remaining pages equal to the whole result |
| BundlePages.FetchAllBundlePages | etl/extractPatient.py:12-57 | the paging loop returns exactly the bundles the paging specification collects |
| BundlePages.PagesBound | etl/extractPatient.py:25-53 | at most `max_pages` bundles are returned, and none when the cap is not positive |
| BundlePages.SentCount | etl/extractPatient.py:27-43 | one request per bundle, plus one more exactly when the loop stopped on a non-200 response, which is not kept |
| BundlePages.CountOnlyFirst | etl/extractPatient.py:24-32 | `_count` goes with the first request only |
| BundlePages.PagesAreReplies | etl/extractPatient.py:29-43 | each bundle is the body of a 200 reply to the request of its round |
| BundlePages.FollowsNextLinks | etl/extractPatient.py:46-53 | each request after the first goes to the next link of the bundle collected just before it |
| BundlePages.PagesMonotone | etl/extractPatient.py:27 | raising the page cap only extends the result: the old result is a prefix of the new one |
| Json.Includes | etl/extract_patient_p2.py:23 | defined as Python's `in`: a substring test on a string, an element test on a list, a key test on an object; `ListSystemMatchesByElement` and `ListCodeMatchesByElement` show the list case |
| Json.LookupFinds | etl/extract_patient_p2.py:46 | `.get` finds a key exactly when some field carries it, and returns that field's value |
| Seqs.Select | etl/extract_patient_p2.py:183 | a keep-comprehension keeps exactly the elements in the keep set |
| Seqs.Exclude | etl/merge_item.py:61 | a drop-comprehension keeps exactly the elements outside the drop set |
| Seqs.SelectIsSubsequence | etl/filter_csv.py:81-84 | a keep-comprehension keeps the order of its input |
| Seqs.ExcludeIsSubsequence | etl/filter_csv.py:86 | a drop-comprehension keeps the order of its input |
| Seqs.ExcludeSplice | etl/merge_item.py:56-61 | filtering a spliced list filters the part before, the inserted part and the part after in turn |
| Seqs.IndexOf | etl/merge_item.py:48 | `index` gives the position of the first occurrence |
| Text.ContainsAt | etl/extract_patient_p2.py:23 | `sub in s` holds exactly when `sub` occurs at some position of `s` |
| Text.StripEmptyIffBlank | etl/filter_csv.py:19 | `strip()` gives "" exactly when every character is whitespace |
| Text.SplitJoin | etl/extract_patient_p2.py:79 | joining a non-empty list of words without spaces with " " and splitting on " " gives the words back |
| Text.NatToString | etl/extract_supporting_info.py:37 | an index is written as a non-empty run of decimal digits |

## Left out

- Shapes Python would crash on are read as absent in this model. A `.get` on a value that is not a dict raises AttributeError in Python; here it reads as absent, and a default is used where the source gives one. Iterating a value that is not a list reads as no elements.
- Json.Includes: `in` on a number or a boolean raises TypeError in Python, and so does a null `code` at etl/extract_items.py:50, which has no `or ""`; here such a value contains nothing, so the identifier, extension or coding is passed over. Strings, lists and objects follow Python's `in`.
- ItemLines.ExtractItems: a parsed `item` cell that is not a JSON array gives no records. In Python, iterating an object yields its keys and the next `.get` raises, so the script stops.
- ItemLines.ExtractItems: pandas' reading of `item_raw.csv` is not modelled. A cell is either text or missing (NaN). A missing cell makes `json.loads` raise inside the `try`, so the row is skipped, and so it is here.
- PatientFields.FirstNameBlock and PatientFields.FirstAddressBlock require a list `given` or `line` to hold only strings. Python's `" ".join` raises TypeError otherwise.
- PatientFields: the lookups take the array or `None`. The pandas half of etl/extract_patient_p2.py (lines 96-214 other than 183 and 198-201) is not part of this model: `json_normalize`, `rename`, `.apply`, datetime coercion and file output. That includes what pandas hands the lookups for a missing column.
- Json objects are assumed to have distinct keys, as dicts do. `.get` returns the first field with the key.
- Json numbers are `real`, so Python's distinction between int and float is not kept. Truthiness and equality checks do not depend on it here.
- `json.loads`, `json.dumps` and `str(value)` are the function parameters `parse`, `dumps` and `render`. Their text is not modelled.
- ColumnFilter and ItemMerge: a CSV row is a map from column to text. A short row, whose missing cells `csv.DictReader` fills with `None`, reads them as "". A column mixing `None` and "" therefore counts as constant here, which it is not in the source. Extra cells stored under the `None` key are not modelled.
- `csv.DictReader`/`DictWriter` quoting and file handling, and the "no header" empty output file, are modelled only as the resulting table. The header and rows go in and out as values.
- ItemLines: record values stay JSON values. How pandas' `to_csv` renders them (NaN, numbers, nested lists) is not modelled. A missing value in the ordered table is `JNull`, standing for NaN.
- The stray `s` at etl/extract_items.py:110 raises NameError after the CSV is written. It has no effect on the output and is not modelled, nor are the `print` diagnostics at lines 104-109.
- BundlePages.FetchAllBundlePages: the network is the parameter `reply(page, request)`. The headers, the 30-second timeout, the `time.sleep(0.05)` pause, `requests` exceptions and a `resp.json()` that fails to parse are not modelled. The response URL and body text that are only printed are not modelled either.
- BundlePages.FetchAllBundlePages: any truthy next URL is requested, even one that is not a string. `requests` would reject that.
- The `__main__` block of etl/extractPatient.py (lines 71-88) is not modelled: it prints counts and writes the resources to a file. Neither is `json_to_csv` or `main` in etl/extract_supporting_info.py (lines 43-124), which read and write files.
- etl/transform.py (a pandas script) and etl/extractItem.py (a row-copying loop around `json.loads`) are not part of this model.

## Findings

| source | as written | input that shows it | evidently intended | confidence | as-written member | corrected member |
|---|---|---|---|---|---|---|
| etl/extract_items.py:81-100 | `pd.DataFrame(extracted_data)[column_order]` on an empty record list selects columns from a frame that has none, so it raises `KeyError` and no CSV is written | an `item_raw.csv` whose `item` cells all hold `[]` or fail to parse, for example the single cell `[]` | an empty table with the fourteen columns in `column_order` | not executed; high, from pandas' documented column-selection behaviour | ItemLines.EmptyArrayFailsAsWritten | ItemLines.OrderedTable |
