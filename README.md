# pyredcap validation and outlier engine, modelled in Dafny

pyredcap reads a REDCap project (its data dictionary, called the codebook, and one table per
instrument, called a form). This project models the deterministic, sequential logic it runs on
that data:

- **National-ID checksums.** `validate_cpf` checks the 11-digit Brazilian taxpayer number with
  two mod-11 check digits. `validate_cns` checks the 15-character national health card number,
  whose two branches depend on the leading digit (module `Checksums`).
- **Transformer helpers.** These are the label and checkbox-array replacement helpers, and the
  static `process_invalid_records` that turns flagged record ids into outlier rows (modules
  `Transformer` and `Frames`).
- **The outlier engine** `Outliers` (modules `ValidationTable` and `OutlierEngine`):
  - It builds the validation table and its four dispatch lists from the codebook.
  - It runs `check_dtype` and `check_range` on every field of every form.
  - It appends each batch of violations to the outlier table.
  - It finishes by relabelling the form status and, optionally, keeping complete records only.
- **The custom rules** (module `CustomRules`). One compares the diagnosis CID-10 code with the
  comorbidity code; the other two list invalid and missing CPF numbers. Each returns the fixed
  five-key result dictionary.
- **The project object** `REDCapProject` (module `Project`): its initial outlier dictionary, the
  keyed merge `update_outliers`, the form updates, the identifier fields, and the missing-data
  codes.

How the Python is represented:

- A form is a `Form`: its column names, then its rows. Each row carries the record id, the
  access group, the repeat instance and a map of cells.
- A Python exception is an `Error` value. The state changed before the exception is kept, as it
  is in Python.
- The pandas conversions `to_numeric` and `to_datetime` with `errors='coerce'` are parameters:
  functions `string -> Option<real>` gathered in `Converters`.
- The instrument order of the `forms` dict is the explicit sequence `formOrder`, which lists
  each key once.
- A frame the source mutates in place is passed in and returned as `df'`.

Two properties one might expect of these validators do not hold in the code:

- `validate_cpf` accepts every repeated-digit string such as `11111111111`, because its check
  digits are consistent (`Checksums.CpfAcceptsRepeatedDigits`).
- A single-digit change at index 4 of a valid CNS still validates, because that position has
  weight 11 (`Checksums.CnsFifthDigitUnchecked`). Every other single-digit change that keeps
  the leading-digit branch is caught (`Checksums.CnsPisCatchesChange`,
  `Checksums.CnsProvisionalCatchesChange`).

## Model

| member | source | states |
|---|---|---|
| Checksums.Digits | pyredcap/handlers/transformer_handler.py:119 | the digit values of the input with non-digits discarded, each in 0..9 |
| Checksums.DigitsAppend | pyredcap/handlers/transformer_handler.py:119 | digit extraction goes character by character in order: a digit character gives its value, any other character nothing, and a concatenation gives the concatenated digits |
| Checksums.PunctuationIgnored | pyredcap/handlers/transformer_handler.py:119 | a non-digit character anywhere in the input changes neither the extracted digits nor the normalised answer |
| Checksums.DigitStringDetermined | pyredcap/handlers/transformer_handler.py:119 | two digit-only strings with the same extracted digits are equal |
| Checksums.ValidateCpf | pyredcap/handlers/transformer_handler.py:114-138 | returns the failure sentinel when there are not exactly 11 digits; accepts exactly when both check digits match; on success returns the 11-digit string or `True`, and the sentinel otherwise |
| Checksums.CpfNormalisationIdempotent | pyredcap/handlers/transformer_handler.py:119-138 | validating the normalised string returns it again |
| Checksums.DigitsOfDigitString | pyredcap/handlers/transformer_handler.py:119-138 | the digits of the printed digit string are the digits printed |
| Checksums.CpfWrongLength | pyredcap/handlers/transformer_handler.py:121-123 | any 10- or 12-digit string takes the wrong-length rejection |
| Checksums.CpfKnownValid | pyredcap/handlers/transformer_handler.py:125-138 | `11144477735` is accepted |
| Checksums.CpfKnownNormalised | pyredcap/handlers/transformer_handler.py:119-138 | normalising `11144477735` returns it unchanged |
| Checksums.CpfPunctuatedValid | pyredcap/handlers/transformer_handler.py:119-138 | normalising `111.444.777-35` returns `11144477735` |
| Checksums.CpfAcceptsRepeatedDigits | pyredcap/handlers/transformer_handler.py:125-138 | every string of eleven equal digits passes both check digits |
| Checksums.CpfCheckDigit | pyredcap/handlers/transformer_handler.py:126-133 | a check digit is always 0..9 |
| Checksums.ParseDigits | pyredcap/handlers/transformer_handler.py:157-176 | `int()` of each character succeeds exactly on an all-digit string, and otherwise raises on a non-digit of the input |
| Checksums.CnsCheckValue | pyredcap/handlers/transformer_handler.py:158-164 | the check value is 0..10; it is 10 exactly when the sum is 1 mod 11, and 0 exactly when the sum is 0 mod 11 |
| Checksums.CnsReconstruct | pyredcap/handlers/transformer_handler.py:156-167 | the reconstruction keeps the 11-digit base and appends `000`+dv, or `001`+dv2 when dv is 10 |
| Checksums.ValidateCns | pyredcap/handlers/transformer_handler.py:141-182 | a trimmed length other than 15 is rejected; a leading character other than 1, 2, 7, 8 or 9 is rejected; on success returns the input or `True` |
| Checksums.CnsModesAgree | pyredcap/handlers/transformer_handler.py:146-147 | both return modes accept and raise on the same inputs |
| Checksums.CnsPisBranch | pyredcap/handlers/transformer_handler.py:154-171 | with leading 1 or 2, accepted exactly when the input equals its 15-character reconstruction |
| Checksums.CnsProvisionalBranch | pyredcap/handlers/transformer_handler.py:174-181 | with leading 7, 8 or 9, accepted exactly when the digits weighted 15..1 sum to a multiple of 11 |
| Checksums.CnsNonDigitRaises | pyredcap/handlers/transformer_handler.py:157-176 | a non-digit among the characters the branch reads raises |
| Checksums.CnsLeadingSpaceRejected | pyredcap/handlers/transformer_handler.py:150-182 | trimming only serves the length test, so a leading space is rejected |
| Checksums.CnsFifteenDigits | pyredcap/handlers/transformer_handler.py:150-182 | on 15 digits the answer is the acceptance rule of the leading-digit branch |
| Checksums.CnsAcceptedIsDigits | pyredcap/handlers/transformer_handler.py:150-182 | an accepted 15-character value consists of digits only |
| Checksums.CnsFifthDigitUnchecked | pyredcap/handlers/transformer_handler.py:157-176 | changing the digit at index 4 of an accepted value keeps it accepted |
| Checksums.CnsPisCatchesChange | pyredcap/handlers/transformer_handler.py:154-171 | with leading 1 or 2, any other single-digit change that keeps the branch is rejected |
| Checksums.CnsProvisionalCatchesChange | pyredcap/handlers/transformer_handler.py:174-181 | with leading 7, 8 or 9, any other single-digit change that keeps the branch is rejected |
| Transformer.ReplaceLabel | pyredcap/handlers/transformer_handler.py:65-74 | a scalar is mapped when it is a key and otherwise kept; a list keeps its kind and length, is mapped element-wise when every element is a key, and otherwise comes back unchanged |
| Transformer.ReplaceLabelIdentity | pyredcap/handlers/transformer_handler.py:65-74 | a mapping that sends each key to itself changes nothing |
| Transformer.ReplaceArrayItem | pyredcap/handlers/transformer_handler.py:77-89 | a non-list is returned untouched; a list keeps its length and exactly the items whose lower-case form equals `other_value` are replaced; the lookup's exception surfaces exactly when some item matches |
| Transformer.ReplaceArrayItemNeedsLowerCase | pyredcap/handlers/transformer_handler.py:87 | an `other_value` holding a capital letter never matches, so the list comes back unchanged |
| Transformer.ProcessInvalidRecords | pyredcap/handlers/transformer_handler.py:185-212 | an empty key list raises `IndexError`; otherwise the frame and the batch are the shared extraction, tagged with the form name |
| Frames.LastCompleteColumn | pyredcap/handlers/transformer_handler.py:198 | the last column ending in `_complete`, or none exactly when no column ends so |
| Frames.WithInstanceColumn | pyredcap/handlers/transformer_handler.py:201-202 | a missing `redcap_repeat_instance` column is added, null on every row, the rows keeping their ids, access groups and cells; a form that has it is unchanged |
| Frames.SelectRows | pyredcap/handlers/transformer_handler.py:193-196 | a selected row is a flagged row of the form, and every flagged row is selected |
| Frames.SelectRowsAppend | pyredcap/handlers/transformer_handler.py:193-196 | the mask keeps table order and multiplicity: one row is kept exactly when flagged, and a concatenation selects the concatenation of the selections |
| Frames.TagRows | pyredcap/handlers/transformer_handler.py:204-209 | each selected row becomes one outlier row with the field's value, the status, the field name and the reason |
| Frames.Extract | pyredcap/handlers/transformer_handler.py:192-212 | the error cases in source order (pair keys without the instance column, no `_complete` column, a missing subset column); otherwise at most one outlier row per form row, each tagged with the column and the reason |
| Frames.ExtractSelectsFlaggedRows | pyredcap/handlers/transformer_handler.py:193-209 | the batch is the tagged mask selection, so it keeps table order and one entry per flagged row; each flagged row is in it and each entry is a tagged flagged row |
| Frames.IdFlagsEveryInstance | pyredcap/outliers.py:119-120 | flagging a record id extracts every row with that id, every repeat instance included |
| ValidationTable.Blank | pyredcap/outliers.py:57 | an empty cell becomes absent; any other cell is kept |
| ValidationTable.KeptRules | pyredcap/outliers.py:49-71 | the table holds exactly the converted rows of the text fields without `@READONLY` that have a step to check and no `resp_` prefix |
| ValidationTable.KeptRulesAppend | pyredcap/outliers.py:49-71 | the filters keep codebook order: one row gives its rule exactly when kept, and the rules of a concatenation are the concatenation of the rules |
| ValidationTable.ConvertBound | pyredcap/outliers.py:32-33 | a text bound is converted or the conversion raises; an absent or converted bound is kept |
| ValidationTable.FixMinMax | pyredcap/outliers.py:25-34 | succeeds exactly when every bound of the given types converts; keeps the length; leaves other types' rows unchanged and converts the bounds of the typed rows |
| ValidationTable.NormaliseRequired | pyredcap/outliers.py:78 | `y` becomes True, absent becomes False, any other text is kept |
| ValidationTable.NormaliseRules | pyredcap/outliers.py:78 | only the required flag of each row changes |
| ValidationTable.FieldNames | pyredcap/outliers.py:79-87 | a name is in a list exactly when some table row of that list's kind carries it |
| ValidationTable.Renamed | pyredcap/outliers.py:91-96 | `dados_demograficos` becomes `identificacao` and `ss_1` becomes `sintomas`; nothing else changes |
| ValidationTable.PreparedRows | pyredcap/outliers.py:73-78 | every prepared row is the kept row at the same position with only its bounds and its flag changed |
| ValidationTable.PreparedBounds | pyredcap/outliers.py:73-76 | the bounds of a typed row are converted and the others are untouched |
| ValidationTable.DispatchExact | pyredcap/outliers.py:79-87 | a name is in the numeric, date, required or branching list exactly when a kept codebook row marked for that list has it |
| ValidationTable.TableRowsExact | pyredcap/outliers.py:49-96 | every table row comes from a kept codebook row with the renames applied, and every kept codebook row has one |
| ValidationTable.TableRowFromCodebook | pyredcap/outliers.py:49-96 | a table row comes from a kept codebook row |
| ValidationTable.TableRowOfKept | pyredcap/outliers.py:49-96 | a kept codebook row has a table row |
| ValidationTable.DateMdyNotDispatched | pyredcap/outliers.py:76-85 | a field typed `date_mdy` is in neither the numeric nor the date list |
| ValidationTable.RenamedFieldUnchecked | pyredcap/outliers.py:84-96 | the lists still say `ss_1`, so the renamed field `sintomas` is never dispatched |
| OutlierEngine.BoundsAreInclusive | pyredcap/outliers.py:179-184 | a value equal to a bound is inside the range |
| OutlierEngine.FailingIds | pyredcap/outliers.py:152-191 | an id is listed exactly when a row with that id fails the test |
| OutlierEngine.FailingIdsAppend | pyredcap/outliers.py:156-191 | the list keeps table order and holds one id per failing row: one row gives its id exactly when it fails, and the list of a concatenation is the concatenation of the lists |
| OutlierEngine.RecordStep | pyredcap/outliers.py:108-137 | the table only grows; an empty list changes nothing; an exception leaves the table; new rows carry the column and the reason |
| OutlierEngine.RecordedRowsFail | pyredcap/outliers.py:156-194 | every recorded row belongs to a record with a failing row |
| OutlierEngine.RecordReportsFailures | pyredcap/outliers.py:108-137 | conversely, every failing row is reported by an added row carrying its record id, the field and its current value |
| OutlierEngine.CheckDtypeStep | pyredcap/outliers.py:139-160 | an unknown type raises `ValueError`, a missing column `KeyError`; otherwise records the ids whose non-null value fails coercion, with reason `Invalid data type (<type>)` |
| OutlierEngine.CheckDtypeSkipsNullRecords | pyredcap/outliers.py:146-153 | a record whose values are all null is never reported |
| OutlierEngine.CheckReportsFailures | pyredcap/outliers.py:139-194 | when `check_dtype` or `check_range` raises nothing, every row whose value fails that check is reported with the check's reason |
| OutlierEngine.ComparedBound | pyredcap/outliers.py:174-184 | the bound the series is compared with: a text bound becomes the parsed timestamp on the date branch when it parses, and otherwise stays text |
| OutlierEngine.CheckRangeStep | pyredcap/outliers.py:162-194 | no bounds is a no-op; then the type error and the missing column raise, and so does a bound that stays text after parsing; otherwise values outside the inclusive range of the compared bounds are recorded, with reason `Value outside of range (<type>)` |
| OutlierEngine.DateTextBoundParsed | pyredcap/outliers.py:175-184 | on dates, a parseable text bound gives exactly the result of the parsed bound |
| OutlierEngine.TextBoundRaises | pyredcap/outliers.py:172-184 | a text bound against numbers, or an unparseable one against dates, raises `TypeError` |
| OutlierEngine.FieldsOf | pyredcap/outliers.py:200-202 | exactly the fields the table assigns to the form |
| OutlierEngine.FieldsOfAppend | pyredcap/outliers.py:200-202 | the fields come in table order: one rule gives its field exactly when it belongs to the form, and the fields of a concatenation are the concatenation of the fields |
| OutlierEngine.InfoOf | pyredcap/outliers.py:203-204 | the first table row with that field name, or none exactly when no row has it |
| OutlierEngine.CheckField | pyredcap/outliers.py:203-212 | only the named form and the table change; no table row raises `IndexError`; an undispatched field changes nothing; new rows carry the field and a check reason |
| OutlierEngine.CheckFieldReports | pyredcap/outliers.py:203-212 | when a dispatched field's checks raise nothing, every row of the form failing the type check or the range check is reported |
| OutlierEngine.RunFields | pyredcap/outliers.py:202-212 | the fields loop changes only the named form and the table |
| OutlierEngine.RunForms | pyredcap/outliers.py:199-212 | the table only grows; the set of forms is kept; forms not visited are unchanged |
| OutlierEngine.RunFieldsStops | pyredcap/outliers.py:202-212 | after an exception the later fields are not checked |
| OutlierEngine.RunFormsStops | pyredcap/outliers.py:199-212 | after an exception the later forms are not checked |
| OutlierEngine.RunFieldsRows | pyredcap/outliers.py:202-212 | the fields loop adds rows only for the fields it visits, each with a check reason |
| OutlierEngine.RunFormsRows | pyredcap/outliers.py:199-212 | the forms loop adds rows only for fields the table assigns to the visited forms |
| OutlierEngine.RunFieldsPrefix | pyredcap/outliers.py:202-212 | the table after some of the fields is a prefix of the table after all of them, and the early fields raise only if the loop does |
| OutlierEngine.RunFormsPrefix | pyredcap/outliers.py:199-212 | the same for the forms loop |
| OutlierEngine.RunFieldsReports | pyredcap/outliers.py:202-212 | when the fields loop raises nothing, every failing row of each dispatched field it visits is reported |
| OutlierEngine.RunFormsReports | pyredcap/outliers.py:199-212 | when the forms loop raises nothing, every failing row of each dispatched field of each visited form is reported |
| OutlierEngine.StatusLabel | pyredcap/outliers.py:218-222 | 0 becomes `incomplete` and 1 `unverified`; the label is `complete` exactly for status 2 (or an existing `complete`); other values are kept |
| OutlierEngine.Relabel | pyredcap/outliers.py:218-222 | each row keeps everything but its relabelled status |
| OutlierEngine.CompleteOnly | pyredcap/outliers.py:227-228 | a row stays exactly when its status is `complete` |
| OutlierEngine.CompleteOnlyAppend | pyredcap/outliers.py:227-228 | the filter keeps order and multiplicity: one row stays exactly when complete, and a concatenation filters to the concatenation of the filtered parts |
| OutlierEngine.FinalizeKeepsComplete | pyredcap/outliers.py:218-228 | with the filter every remaining row is complete, and a row stays exactly when its status was 2 or `complete`; without it nothing is dropped |
| OutlierEngine.FinalizeKeepsRow | pyredcap/outliers.py:218-228 | every row comes through the formatting relabelled, unless the filter is on and it is not complete |
| OutlierEngine.GeneratedRows | pyredcap/outliers.py:196-228 | soundness: every row after the run is a relabelled earlier row or a checked row of a visited form's field |
| OutlierEngine.GenerateReportsFailures | pyredcap/outliers.py:196-228 | completeness: when the run raises nothing, a row of a visited form whose value fails the type or range check of a dispatched field of that form is reported with its id, field, value and reason, and the report is in the final table, relabelled, unless the filter drops it as not complete |
| OutlierEngine.Outliers.constructor | pyredcap/outliers.py:16-22 | the forms are stored with their key order, each key once; the table and the dispatch lists start empty |
| OutlierEngine.Outliers.InstanceValidationDf | pyredcap/outliers.py:44-96 | the stored table and lists are the validation built from the codebook, or the conversion raises |
| OutlierEngine.Outliers.UpdateOutliersDf | pyredcap/outliers.py:98-100 | the batch is appended after the existing rows |
| OutlierEngine.Outliers.ProcessInvalidRecords | pyredcap/outliers.py:108-137 | the frame and the table are those of the record step |
| OutlierEngine.Outliers.CheckDtype | pyredcap/outliers.py:139-160 | the frame, table and exception are those of the type-check step |
| OutlierEngine.Outliers.CheckRange | pyredcap/outliers.py:162-194 | the frame, table and exception are those of the range-check step |
| OutlierEngine.Outliers.CheckColumn | pyredcap/outliers.py:203-212 | the forms, table and exception are those of one field's checks |
| OutlierEngine.Outliers.CheckFormFields | pyredcap/outliers.py:202-212 | the inner loop's state equals the fields loop over the form's fields |
| OutlierEngine.Outliers.GenerateOutliers | pyredcap/outliers.py:196-228 | the new state equals the nested loops followed by the formatting |
| OutlierEngine.New | pyredcap/outliers.py:11-23 | construction raises exactly when the validation table cannot be built, and otherwise holds it |
| CustomRules.SecondField | tests/integration/custom_rules.py:16 | `split(' - ')[1]`: absent exactly when there is no separator; otherwise the field after the first separator, up to the next separator that starts after it |
| CustomRules.SecondFieldIsField | tests/integration/custom_rules.py:16 | the second field is the text between the first separator and the next one, or the end |
| CustomRules.FieldAtUnique | tests/integration/custom_rules.py:16 | at most one field starts at an index, so the second field is determined |
| CustomRules.DiagnosisCid | tests/integration/custom_rules.py:15-16 | a null cell is skipped; a number raises `AttributeError`; a string without a separator raises `IndexError`; otherwise the trimmed second field |
| CustomRules.Joined | tests/integration/custom_rules.py:10-14 | the join holds exactly the pairs of rows with the same record id |
| CustomRules.JoinedPairsRows | tests/integration/custom_rules.py:10-14 | every diagnosis row is paired with every comorbidity row of its record |
| CustomRules.DiagnosisCids | tests/integration/custom_rules.py:15-16 | the codes of every joined pair when every cell parses; otherwise the error of the first cell that raises |
| CustomRules.PairIds | tests/integration/custom_rules.py:17-18 | an id is listed exactly when one of its pairs has equal codes |
| CustomRules.PairIdsAppend | tests/integration/custom_rules.py:17-18 | the list keeps join order and holds one id per agreeing pair: one pair gives its id exactly when it agrees, and a concatenation lists the concatenation of the lists |
| CustomRules.DiagCidEqualsComorbCid | tests/integration/custom_rules.py:9-26 | the missing-form errors, then a missing diagnosis column, a bad diagnosis cell and a missing comorbidity column in that order, and success in every other case; the fixed target form and column; the list is the agreeing-pair ids of the join, so an id is listed exactly when a joined pair of that record has equal codes |
| CustomRules.CidIdsRepeat | tests/integration/custom_rules.py:17-18 | two agreeing pairs of one record list its id at least twice |
| CustomRules.CpfIds | tests/integration/custom_rules.py:29-44 | exactly the ids whose CPF is non-null and rejected, or exactly the ids whose CPF is null |
| CustomRules.CpfIdsAppend | tests/integration/custom_rules.py:29-44 | the list keeps table order and holds one id per matching row |
| CustomRules.CpfRule | tests/integration/custom_rules.py:28-51 | the missing-form and missing-column errors; otherwise the fixed form `identificacao` and column `cpf`, with the listed ids |
| CustomRules.CpfListsDisjoint | tests/integration/custom_rules.py:29-44 | an id on both lists has two distinct rows, one null and one not |
| CustomRules.ValidCpfNotListed | tests/integration/custom_rules.py:29-32 | a record with one row, whose CPF is a valid number in any punctuation, is not listed as invalid |
| Project.IdentifierFields | pyredcap/redcap_project.py:184-186 | a name is listed exactly when a codebook row marked `y` carries it |
| Project.IdentifierFieldsAppend | pyredcap/redcap_project.py:185-186 | the selection keeps codebook order: it distributes over concatenation |
| Project.MissingCodes | pyredcap/redcap_project.py:92-106 | the caller's codes when given, the eleven default codes otherwise |
| Project.MissingCodesAgree | pyredcap/redcap_project.py:92-106 | the corrected codes agree with the code as written wherever that sets them; the default has the eleven codes |
| Project.MissingCodesAsWritten | pyredcap/redcap_project.py:92-106 | the default when the argument is `None`, no attribute otherwise |
| Project.CallerCodesLost | pyredcap/redcap_project.py:92-106 | caller-supplied codes leave the object with none |
| Project.MergeOne | pyredcap/redcap_project.py:208-215 | a list extends an existing list, old items first; a dict updates an existing dict, incoming keys winning; an absent key gets a list or dict as it is; any other value is ignored; the wrong kind raises `AttributeError`; other keys are untouched |
| Project.MergeAll | pyredcap/redcap_project.py:206-215 | the keys only grow, and only by the argument's keys |
| Project.MergeAllUntouched | pyredcap/redcap_project.py:208 | keys not in the argument keep their entries, whether or not the loop raised |
| Project.MergeAllExtends | pyredcap/redcap_project.py:210-211 | a list entry that only list values touch becomes the old items followed by the new ones, in order |
| Project.MergeAllStops | pyredcap/redcap_project.py:207-215 | after an exception the later items are not merged |
| Project.REDCapProject.constructor | pyredcap/redcap_project.py:80-106 | six outlier keys, three empty lists and three empty dicts; the identifier fields of the codebook; the corrected missing codes |
| Project.REDCapProject.UpdateForms | pyredcap/redcap_project.py:194-196 | the forms are replaced and nothing else changes |
| Project.REDCapProject.UpdateSingleForm | pyredcap/redcap_project.py:198-200 | only the named form changes |
| Project.REDCapProject.MergeItem | pyredcap/redcap_project.py:209-215 | the dictionary after one item is the one-key merge, or unchanged when it raises |
| Project.REDCapProject.UpdateOutliers | pyredcap/redcap_project.py:206-215 | the dictionary and the exception are those of merging the items in order |

## Left out

- HTTP, MongoDB, YAML and CSV I/O, logging, and the scripts and tests that drive them. This
  covers `init_project`, `load_records`, `get_metadata` and the `MetadataHandler` loaders. The
  constructor of `REDCapProject` takes an already loaded codebook instead.
- `preprocess_forms`, `clean_data` and `check_unmapped_labels`: they only delegate to pandas or
  to code that is not part of this model.
- `update_feature_map`: a plain setter of the `feature_map` attribute, which the model does not
  carry.
- `run_instructions` and the custom-rule discovery: both dispatch by reflection (`getattr`).
- `extract_ids_and_descriptions`: it runs a regular expression the caller supplies.
- `check_required_fields`: it reads a column the validation table does not have, and nothing
  calls it.
- The float and date semantics of `pd.to_numeric` and `pd.to_datetime`. They are the
  `Converters` parameters, and a converted bound is a `real`.
- The `Int64` cast of the instance column, and its rename to `instance`. The model keeps the
  field `instance` throughout.
- OutlierEngine.CheckRangeStep: a text bound on the date branch is parsed by the same `date`
  converter that coerces the column, standing for pandas' parsing of a comparison operand. The
  run reaches a text bound only through a field name that repeats in the validation table.
  A converted bound does not record which converter produced it. When a field name repeats,
  a bound converted as a date can reach the numeric branch, or the reverse, and the model
  compares the two reals where pandas raises `TypeError`.
- ValidationTable.ConvertBound: every conversion failure is one generic `ValueError` message,
  not pandas' own.
- Record ids are strings. pandas would send numeric ids down the tuple-key branch.
- The `record_id` column is assumed present. A number cell is an integer, so Python's `str` of
  a float is not modelled.
- `isdigit`, `lower` and the digit values are limited to ASCII. Unicode digits and case folding
  are not modelled; `strip` uses Python's whitespace set.
- CustomRules.DiagCidEqualsComorbCid: the column-name suffixes `pd.merge` adds when both forms
  share a column are approximated by requiring each column on exactly one side. The merge
  order is taken to be left-major.
- Aliasing: the frames a rule returns are the same objects as `self.forms` in Python. Here they
  are values, so "a rule modifies no form" holds by construction. An inserted outlier list in
  `update_outliers` is shared with the caller in Python; here it is copied.
- The other attributes `__init__` assigns (`project_id`, `dag`, `instruments`, `raw_label_map`
  and so on) come from the API and are not modelled.

## Findings

| source | as written | input that shows it | evidently intended | confidence | as-written member | corrected member |
|---|---|---|---|---|---|---|
| pyredcap/redcap_project.py:92-106 | `self.missing_datacodes` is assigned only inside `if missing_datacodes is None` | `REDCapProject(url, token, missing_datacodes={'NI': 'No information'})` leaves the object without a `missing_datacodes` attribute | store the caller's map when one is given, the default map otherwise | high; not executed | Project.MissingCodesAsWritten, Project.CallerCodesLost | Project.MissingCodes, Project.MissingCodesAgree |
