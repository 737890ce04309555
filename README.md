# Loan-default data preparation, modelled in Dafny

The loan-default analysis script loads a table of loan records and prepares it
for statistics in three steps. This project models those steps and proves
properties about them.

1. **Categorical encoding.** Seven columns hold string labels:
   `Education`, `EmploymentType`, `MaritalStatus`, `HasMortgage`,
   `LoanPurpose`, `HasDependents` and `HasCoSigner`. Each is rewritten to
   integer codes with a fixed label-to-code table through pandas'
   `Series.map(dict)`. A label missing from the table becomes NaN rather
   than raising.
2. **Numeric coercion.** A fixed list of 17 columns goes through
   `pd.to_numeric(errors="coerce")`. Numbers and NaN stay as they are, and
   any value that does not parse becomes NaN.
3. **Dropping the identifier.** `df.drop("LoanID", axis=1)` removes the
   `LoanID` column.

The project has three files.

**`Wrappers.dfy`** holds `Option` and `Result`.

**`Frames.dfy`** holds the pandas behaviour the script relies on:
- a cell (`Str`, `Int`, `Float`, `Missing` for NaN);
- a table: ordered, unique labels, a column per label and a row count;
- the three table operations, as pure functions that return `KeyError` when
  a column is absent;
- the class `DataFrame`, the single `df` the script updates in place. Its
  methods perform one statement each and are proved against those functions.

**`LoanDefault.dfy`** holds the script itself:
- the seven tables, with their exact constants and their order;
- the list of numeric columns and the identifier;
- `EncodeAll`, the sequence of encodings, and `Prepare`, the whole
  preparation, as specification functions;
- the lemmas about them;
- the straight-line method `PrepareFrame`, which runs the script's
  statements on one `DataFrame` and is proved equal to `Prepare`.

`HasMortgage` encodes Yes→0 and No→1. `HasDependents` and `HasCoSigner`
encode Yes→1 and No→0. The model reproduces this asymmetry exactly and
states it in `YesNoTables`.

Every step that names a column can fail: reading an absent column for
`.map`, selecting the numeric block with an absent label, and dropping an
absent `LoanID` each raise pandas' `KeyError`, and the model returns that
error in each case.

## Model

| member | source | states |
|---|---|---|
| Frames.EncodeCell | loan_default.py:16 | A cell's code is `Int` exactly when the cell is a string label present in the table, and then it is that label's code. It is always one of the table's codes. Everything else (an unknown label, a number, NaN) becomes `Missing`. Encoding never fails. |
| Frames.EncodeSeq | loan_default.py:16 | `Series.map` keeps the column's length, and its cell at each position is the encoding of the original cell there. |
| Frames.EncodeColumn | loan_default.py:16-43 | `df[c] = df[c].map(m)` succeeds exactly when `c` is a column; otherwise it gives `KeyError([c])`. On success the table stays valid, with the same labels, order, row count and keys. Column `c` becomes its encoding, and every other column is unchanged. |
| Frames.CoerceCell | loan_default.py:66 | A coerced cell is a number or NaN. A cell that is not a string (a number or NaN) is returned unchanged. |
| Frames.CoerceSeq | loan_default.py:66 | Coercing a column keeps its length and coerces cell by cell. |
| Frames.MissingKeys | loan_default.py:66 | It lists exactly the labels of the list that are not columns of the table, each of them once even when the list repeats it, in the order of their first occurrence. |
| Frames.CoerceColumns | loan_default.py:46-66 | Coercing the block succeeds exactly when every listed label is a column. Otherwise it raises a non-empty `KeyError` that lists exactly the absent labels. On success the labels, order, rows and keys are kept. Listed columns are coerced, and unlisted columns are unchanged. |
| Frames.CoerceSeqIdempotent | loan_default.py:66 | Coercing a coerced column changes nothing. |
| Frames.CoerceColumnsIdempotent | loan_default.py:66 | Running the coercion twice gives the same table as running it once. |
| Frames.CoerceKeepsNumericColumn | loan_default.py:66 | A column holding only numbers and NaN comes out of the coercion unchanged. |
| Frames.Remove | loan_default.py:71 | This is a reference definition of "the labels without `x`": membership is "in the list and not `x`". |
| Frames.RemoveAt | loan_default.py:71 | In a list of unique labels, removing the label at index `k` equals cutting out position `k`. The other labels keep their order. |
| Frames.IndexOf | loan_default.py:71 | It gives the first position of a label that occurs in the list. |
| Frames.DropColumn | loan_default.py:71 | `drop(name, axis=1)` succeeds exactly when `name` is a column; otherwise it gives `KeyError([name])`. On success it removes exactly that label at its position: the column count falls by one, the other labels keep their order, and the labels are exactly the old ones without `name`. Rows are kept, the keys lose only `name`, and the other columns are unchanged. |
| Frames.DropTwiceRaises | loan_default.py:71 | Dropping the same column a second time raises `KeyError`. |
| Frames.DataFrame.constructor | loan_default.py:9 | The frame starts valid and holds the loaded table. |
| Frames.DataFrame.MapColumn | loan_default.py:16-43 | One column reassignment in place. The new state is `EncodeColumn` of the old one. On `KeyError` the object is left as it was. |
| Frames.DataFrame.ToNumeric | loan_default.py:66 | The block assignment in place. The new state is `CoerceColumns` of the old one. On `KeyError` the object is left as it was. |
| Frames.DataFrame.Drop | loan_default.py:71 | `df = df.drop(...)`. The new state is `DropColumn` of the old one. On `KeyError` the object is left as it was. |
| LoanDefault.Decode | loan_default.py:14-41 | A code decodes to a label that maps to it. There is no label exactly when the code is not one of the table's codes. |
| LoanDefault.DecodeEncode | loan_default.py:14-41 | With an injective table, decoding a known label's code gives the label back. |
| LoanDefault.EncodeCellInjective | loan_default.py:14-41 | With an injective table, two cells that get the same code held the same label. |
| LoanDefault.EducationTable | loan_default.py:14 | The labels are the four education levels, the table is injective, and its codes are exactly 1..4. |
| LoanDefault.EmploymentTypeTable | loan_default.py:19-24 | The labels are the four employment types, the table is injective, and its codes are exactly 1..4. |
| LoanDefault.MaritalStatusTable | loan_default.py:27 | The labels are the three statuses, the table is injective, and its codes are exactly 1..3. |
| LoanDefault.LoanPurposeTable | loan_default.py:35 | The labels are the five purposes, the table is injective, and its codes are exactly 1..5. |
| LoanDefault.YesNoTables | loan_default.py:31-41 | All three Yes/No tables have the labels {Yes, No}, are injective and use exactly the codes {0, 1}. `HasMortgage` has Yes→0 and No→1; `HasDependents` and `HasCoSigner` have Yes→1 and No→0. |
| LoanDefault.EncodeAll | loan_default.py:16-43 | The encodings run one after the other. On success the table is valid, with the same labels, order, rows and keys. |
| LoanDefault.EncodeAllStep | loan_default.py:16-43 | A prefix one longer is the shorter prefix followed by one more encoding. |
| LoanDefault.EncodeAllPrefixFailure | loan_default.py:16-43 | Once a statement raises, the run as a whole raises that same error: later statements do not run. |
| LoanDefault.EncodeAllSucceeds | loan_default.py:16-43 | The encodings succeed exactly when every target column is present. |
| LoanDefault.EncodeAllUntouched | loan_default.py:16-43 | A column that no encoding targets comes out unchanged. |
| LoanDefault.EncodeAllTarget | loan_default.py:16-43 | When the targets are distinct, each target column ends up as exactly the encoding of its original cells. |
| LoanDefault.EncodeOrderIrrelevant | loan_default.py:16-43 | Two orderings of the same distinct-target encodings succeed together, and then give the same table. |
| LoanDefault.PermutedDistinct | loan_default.py:16-43 | A reordering of encodings with distinct targets keeps its targets distinct. |
| LoanDefault.EncodingsAnyOrder | loan_default.py:14-43 | Any reordering of the script's seven statements succeeds exactly when the script's order does, and then gives the same table. |
| LoanDefault.EncodingsDistinct | loan_default.py:16-43 | The seven statements rewrite seven different columns. |
| LoanDefault.EncodingTargets | loan_default.py:16-43 | The rewritten columns are exactly the seven categorical columns. |
| LoanDefault.TargetsNumeric | loan_default.py:46-64 | Every encoded column is also in `numeric_columns`. |
| LoanDefault.IdNotNumeric | loan_default.py:46-71 | `LoanID` is not in `numeric_columns`. |
| LoanDefault.ConfigWellFormed | loan_default.py:14-71 | The script's configuration meets all three conditions the general lemmas need: distinct targets, every target coerced, and the identifier not coerced. |
| LoanDefault.PrepareWith | loan_default.py:14-71 | It performs encode, coerce, drop for any configuration. A successful run keeps the row count and validity, the columns are the original order without the identifier, and the keys lose only the identifier. |
| LoanDefault.PrepareWithSucceeds | loan_default.py:14-71 | When every target is coerced, the run succeeds exactly when all coerced columns and the identifier are present. |
| LoanDefault.PrepareWithCategorical | loan_default.py:14-71 | Each target column ends up as the encoding of its original labels, because coercion leaves codes alone. |
| LoanDefault.PrepareWithOther | loan_default.py:46-71 | A column that is neither target nor identifier ends up coerced if it is listed, and unchanged otherwise. |
| LoanDefault.PrepareWithNumeric | loan_default.py:66 | Every listed column ends up holding only numbers and NaN. |
| LoanDefault.Prepare | loan_default.py:14-71 | The script's preparation keeps the row count and validity. The result's columns are the input's order without `LoanID`, and `LoanID` is gone. |
| LoanDefault.PrepareSucceeds | loan_default.py:14-71 | The preparation raises `KeyError` exactly when one of the 17 listed columns, or `LoanID`, is absent. |
| LoanDefault.PrepareCategorical | loan_default.py:14-66 | A table with the required columns is prepared without error. Each of the seven columns then holds exactly the encoding of its original labels. |
| LoanDefault.PrepareOtherColumns | loan_default.py:46-71 | A table with the required columns is prepared without error. `Age`, `Income` and the other listed non-categorical columns are then coerced from their original cells, and unlisted columns are unchanged. |
| LoanDefault.PrepareNumeric | loan_default.py:66 | A table with the required columns is prepared without error, and the 17 listed columns then hold only numbers and NaN. |
| LoanDefault.EducationCodes | loan_default.py:14-16 | For a table with the required columns, every prepared `Education` cell is NaN or a code in 1..4. The unknown label "Associate" becomes NaN instead of raising. |
| LoanDefault.EducationCell | loan_default.py:14-16 | One `Education` cell encodes to NaN or a code in 1..4, and "Associate" encodes to NaN. |
| LoanDefault.UnknownEducation | loan_default.py:14-16 | "Associate" encodes to NaN. |
| LoanDefault.ExampleLabelCodes | loan_default.py:14-43 | PhD, Full-time, Divorced, No (mortgage), Home, Yes (dependents) and No (co-signer) get the codes 4, 4, 3, 1, 4, 1, 0. |
| LoanDefault.WorkedExample | loan_default.py:14-43 | In a table with the required columns, a row holding that example's labels comes out of the preparation as 4, 4, 3, 1, 4, 1, 0. This holds whatever the other cells are and whatever the number parser does. |
| LoanDefault.EncodingsAt | loan_default.py:16-43 | The seven encodings, in the script's order, pair each column with its own table. |
| LoanDefault.EncodeAllAdvance | loan_default.py:16-43 | After a successful prefix, the next reassignment's result is the longer prefix's result. If that reassignment raises, the whole sequence raises that error. |
| LoanDefault.MapNext | loan_default.py:16-40 | The `i`-th reassignment on `df`. If it succeeds, `df` holds the first `i`+1 encodings of the loaded table; if it raises, its error is the error of the whole sequence, and `df` is unchanged: it still holds the first `i` encodings, and the error is the one statement `i` raises on it. |
| LoanDefault.MapLast | loan_default.py:43 | The last reassignment. If it succeeds, `df` holds all seven encodings of the loaded table; if it raises, its error is the error of the whole sequence, and `df` is unchanged: it still holds the first six encodings, and the error is the one the seventh statement raises on it. |
| LoanDefault.StoppedAtDetermined | loan_default.py:14-43 | Only one statement can be the one that raised. The error and the state of `df` after a raise are determined by the loaded table. |
| LoanDefault.EncodeCategoricals | loan_default.py:14-43 | The seven statements on `df`. On success `df` is `EncodeAll` of the loaded table. Otherwise the error is the one `EncodeAll` raises, and `df` holds the encodings that ran before the statement that raised. |
| LoanDefault.PrepareFrame | loan_default.py:14-71 | The whole preparation on `df`. On success `df` holds `Prepare` of the loaded table. Otherwise the error is the one `Prepare` raises, and `df` is left as the statements before the raising one made it. That is one of three states: the encodings before the one that raised; all encodings, when the coercion raised; or all encodings followed by the coercion, when the drop raised. |

## Left out

- Reading the CSV file (line 9) is not modelled. The `DataFrame` constructor takes the loaded table as a value.
- `print(df.head())` (line 10), and `df.describe()` with its display (lines 68-69), are left out. They are output and floating-point statistics.
- The imports of pandas, numpy, matplotlib and seaborn (lines 2-5) are left out. No logic of theirs is visible in the script.
- Number parsing inside `pd.to_numeric` is left out. It is the parameter `parse: string -> Cell`, and the model only knows that a result which is not a number becomes NaN.
- Integer width is left out. `Int` holds any integer, while pandas holds int64, or moves to uint64 or float64 for larger values.
- Float values are exact reals (`Float(x: real)`), without float64 rounding.
- dtype changes are left out. pandas stores an encoded column that holds NaN as float64, so the code 4 is held as 4.0. The model keeps `Int` codes next to `Missing`.
- Booleans, dates and other cell kinds that pandas can hold are left out. The script's columns are strings and numbers.
- Only the labels a `KeyError` lists are modelled. pandas' message text is not.
- `df = df.drop(...)` rebinds the name to a new frame. The model updates the one `DataFrame` object in place, since no other reference to the old frame exists.
- The correlation, regression, chi-square and ANOVA steps of the analysis are not part of this model. They do not appear in the script, and they are floating-point calls into other libraries.
