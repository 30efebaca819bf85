# Sales pipeline: ingestion and model versioning, in Dafny

This project models the two batch scripts of the sales-forecasting pipeline in
`exam_Bash_MLOps/src/`:

- **Ingestion** (`preprocessed.py`): every `.csv` file of `../data/raw/`, in listing order, has
  its timestamps coerced (unreadable ones become NaT) and is sorted newest first. The tables are
  concatenated, and rows that repeat on (timestamp, model, sales) are dropped, keeping the first.
  The result is written to `../data/processed/sales_processed_<YYYYMMDD_HHMM>.csv`, and one line
  is appended to `../logs/preprocessed.logs`.
- **Training** (`train.py`): the locator picks the newest `.csv` of `../data/processed/`. The
  model column is label-encoded and the four features and the `sales` target are selected. A
  model is trained and saved. If `../model/model.pkl` does not exist yet, the model goes there.
  Otherwise it goes to `../model/model_<stamp>.pkl`. The encoder always goes to
  `../model/label_encoder.pkl`. A metrics line is appended to `../logs/train.logs`. Any
  exception is appended to `../logs/errors.logs` with the run's stamp and then raised again.

The modules follow the program:

| module | file | contents |
|---|---|---|
| `Text` | `text.dfy` | `str.endswith`, `os.path.join`, `str.join` / `str.split` and their round trip, `str()` of a count, zero padding |
| `Common` | `common.dfy` | `Option`, `Result`, `Outcome`, the exceptions that can escape and their `str()` text |
| `Stamp` | `stamp.dfy` | the `%Y%m%d_%H%M` stamp, and the proof that it determines the minute |
| `Listing` | `listing.dfy` | the `.csv` filter and the newest-file locator |
| `Storage` | `storage.dfy` | the file system as a class over a map from path to lines; the header-once, append-only log writer |
| `Features` | `features.dfy` | the LabelEncoder codes and the selection of the features and the target |
| `Normalizer` | `normalizer.dfy` | the ingestion script |
| `Training` | `training.dfy` | `save_model` as written and as intended, the two loggers, `main` as written and as intended |

The file system is a `FileStore` object. Its `files` field maps each path to its content (a
sequence of lines; pickled artifacts are opaque sequences). The methods reassign that field.
Its `unwritable` field maps the paths whose `open()` raises to the OSError text. What each
state-changing method does is stated as a pure function of the old state: `WriteEffect`,
`AppendEffect`, `PublishEffect`, `SaveEffect` and `Reraise`. The lemmas about runs are proved
about those functions.

The script's own docstring (`train.py:7-8`, `:12`) states the intended path decision: the first
model is saved as `model/model.pkl`, later ones as `model_YYYYMMDD_HHMM.pkl`. The code as
written raises `UnboundLocalError` on every call (see Findings). The model follows the code:
`Training.TrainingRun` is `main` as written. `Training.TrainingRunIntended` is the run with the
evident fix, and it is kept separate. The writes at `train.py:154-160` go in order: the model,
then the encoder, then the log line. None of them is rolled back when a later one fails
(`Training.SaveNoRollback`).

## Model

| member | source | states |
|---|---|---|
| Text.EndsWith | exam_Bash_MLOps/src/train.py:37 | `x.endswith(suffix)` holds only when `x` is some text followed by the suffix |
| Text.EndsWithAppend | exam_Bash_MLOps/src/preprocessed.py:25 | any text followed by the suffix ends with it |
| Text.JoinPath | exam_Bash_MLOps/src/train.py:35 | `os.path.join(dir, name)` on POSIX; the result always ends with the name |
| Text.JoinWith | exam_Bash_MLOps/src/preprocessed.py:74 | `sep.join(parts)`: one part is itself; with two or more, the first part and the separator come first |
| Text.Split | exam_Bash_MLOps/src/preprocessed.py:72-75 | `line.split(sep)` never gives an empty list |
| Text.SplitFieldsFree | exam_Bash_MLOps/src/preprocessed.py:72-75 | no field of a split holds the separator |
| Text.SplitJoin | exam_Bash_MLOps/src/preprocessed.py:72-75 | splitting a `;`-joined line gives back its fields when no field holds `;` |
| Text.Decimal | exam_Bash_MLOps/src/preprocessed.py:74 | `str(n)` is a non-empty string of digits |
| Text.DecimalValue | exam_Bash_MLOps/src/preprocessed.py:74 | `str(n)` reads back as `n` |
| Text.Padded | exam_Bash_MLOps/src/preprocessed.py:57 | zero padding gives exactly `width` digits |
| Text.PaddedValue | exam_Bash_MLOps/src/preprocessed.py:57 | a zero-padded number reads back as itself |
| Stamp.Format | exam_Bash_MLOps/src/preprocessed.py:57 | `%Y%m%d_%H%M` gives eight digits, `_`, four digits, and no `;` or `,` |
| Stamp.ParseFormat | exam_Bash_MLOps/src/train.py:170 | the stamp reads back as the minute it was taken |
| Stamp.FormatInjective | exam_Bash_MLOps/src/train.py:149 | runs in different minutes get different stamps |
| Listing.CsvPositions | exam_Bash_MLOps/src/preprocessed.py:24-26 | the filter's positions are increasing, each names a `.csv` file, and every `.csv` position is among them |
| Listing.CsvNames | exam_Bash_MLOps/src/preprocessed.py:24-26 | the kept names are the listing's names at the filter's increasing positions, so listing order is kept; every kept name ends in `.csv` and comes from the listing |
| Listing.CsvNamesFilter | exam_Bash_MLOps/src/preprocessed.py:24-26 | every `.csv` name of the listing is kept, only `.csv` names are kept, and the list never grows |
| Listing.MaxByMtime | exam_Bash_MLOps/src/train.py:40 | `max(key=getmtime)` returns a maximum, and one strictly newer than every earlier entry (the first of equal maxima wins) |
| Listing.CsvEntries | exam_Bash_MLOps/src/train.py:34-38 | the list holds the `.csv` entries, in listing order |
| Listing.CsvEntriesEmpty | exam_Bash_MLOps/src/train.py:34-38 | the list is empty exactly when no entry is a `.csv` file |
| Listing.CsvEntriesMax | exam_Bash_MLOps/src/train.py:40 | the maximum by mtime of the `.csv` entries is the newest `.csv` entry of the listing |
| Listing.LatestFile | exam_Bash_MLOps/src/train.py:31-42 | fails with the empty-`max` error exactly when no entry is a `.csv` file; otherwise returns the directory joined with the newest `.csv` entry, the first in listing order among equals |
| Listing.LatestFileIsNewest | exam_Bash_MLOps/src/train.py:40 | with distinct mtimes, the locator returns the newest `.csv` file whatever the names and the listing order |
| Storage.Lookup | exam_Bash_MLOps/src/train.py:74 | a file is present exactly when its path is in the file system |
| Storage.Appended | exam_Bash_MLOps/src/train.py:74-79 | the header is written exactly when the log is absent or empty, then one line is appended after what was there |
| Storage.AppendedAll | exam_Bash_MLOps/src/train.py:93-100 | n logger calls leave at least n lines, and the last line is the last one logged |
| Storage.AppendedAllExtends | exam_Bash_MLOps/src/train.py:93-100 | n calls on a non-empty log append exactly the n lines, in call order, and rewrite nothing |
| Storage.AppendedAllFromNothing | exam_Bash_MLOps/src/preprocessed.py:68-75 | starting from an absent or empty log, n calls leave the header once, followed by the n lines in call order |
| Storage.FileStore.Write | exam_Bash_MLOps/src/train.py:154-155 | an open for writing replaces the file's content, or raises the path's OSError and changes nothing |
| Storage.FileStore.AppendLine | exam_Bash_MLOps/src/preprocessed.py:68-75 | the logger's new state is `AppendEffect` of the old one |
| Storage.WriteEffect | exam_Bash_MLOps/src/train.py:156-157 | a write touches only its own path |
| Storage.AppendEffect | exam_Bash_MLOps/src/train.py:93-100 | a log append touches only the log, and the log becomes `Appended` of its old content |
| Features.Labels | exam_Bash_MLOps/src/train.py:53 | the encoder's classes are exactly the values of the model column |
| Features.Code | exam_Bash_MLOps/src/train.py:53 | `transform` gives each label the number of classes that sort before it, never more than the number of classes |
| Features.CodeInRange | exam_Bash_MLOps/src/train.py:53 | every label gets a code from 0 to the number of classes minus 1 |
| Features.MissingCodedLast | exam_Bash_MLOps/src/train.py:53 | an empty (NaN) model cell gets the last code, after every other label |
| Features.CodeMonotone | exam_Bash_MLOps/src/train.py:53 | codes follow the sort order of the labels |
| Features.CodeInjective | exam_Bash_MLOps/src/train.py:53 | distinct labels get distinct codes |
| Features.Absent | exam_Bash_MLOps/src/train.py:57 | the absent features are exactly the wanted names that are not columns |
| Features.NoneAbsent | exam_Bash_MLOps/src/train.py:56-57 | nothing is absent exactly when all four features are columns |
| Features.SelectFeatures | exam_Bash_MLOps/src/train.py:56-57 | row i of X holds year, month, day_of_year and model_encoded at i, in that order |
| Features.AbsentAfterEncoding | exam_Bash_MLOps/src/train.py:53-57 | once `model_encoded` is added, no feature is absent exactly when the CSV has year, month and day_of_year |
| Features.Encoded | exam_Bash_MLOps/src/train.py:53-58 | after encoding, selection succeeds exactly when year, month, day_of_year and sales are columns; a missing feature raises the KeyError naming the absent features first, a missing `sales` raises its KeyError only after that; X holds the three features and the codes of the model column, and y is `sales` |
| Features.Prepare | exam_Bash_MLOps/src/train.py:45-60 | in code order: a missing `model` column raises KeyError `'model'`; mixed labels raise the TypeError (naming `float` too when a NaN is among them); then the KeyError naming the absent features; then the KeyError `'sales'`; otherwise X is the four features with the model codes last, and y is `sales` |
| Features.PreparedCodes | exam_Bash_MLOps/src/train.py:52-53 | two rows get the same code exactly when they have the same model name, and codes respect the order of the names |
| Normalizer.CsvFiles | exam_Bash_MLOps/src/preprocessed.py:33 | the loop reads exactly the `.csv` files, in listing order, each with its listing entry's content |
| Normalizer.Coerce | exam_Bash_MLOps/src/preprocessed.py:39-41 | coercion keeps every row; each timestamp becomes the parser's reading (None, i.e. NaT, when it cannot read it) and model, sales and the other columns are kept as they are |
| Normalizer.SortNewestFirst | exam_Bash_MLOps/src/preprocessed.py:42 | after the in-place sort, timestamps are non-increasing with NaT last, and the rows are a permutation of the old ones |
| Normalizer.FirstFailedRead | exam_Bash_MLOps/src/preprocessed.py:33-37 | the loop stops at the first file whose reading raises: every earlier file reads, that one does not |
| Normalizer.ReadAndSort | exam_Bash_MLOps/src/preprocessed.py:31-44 | fails with the first unreadable file's exception exactly when some file cannot be read; otherwise one table per `.csv` file, in order, each newest first and a permutation of that file's coerced rows |
| Normalizer.Concat | exam_Bash_MLOps/src/preprocessed.py:47 | the combined length is the sum of the per-file lengths |
| Normalizer.ConcatBlockAt | exam_Bash_MLOps/src/preprocessed.py:47 | each file's table sits unchanged at its offset in the combined table, in file order |
| Normalizer.ConcatKeepsBlockOrder | exam_Bash_MLOps/src/preprocessed.py:42-47 | within each file's block of the combined table, timestamps are non-increasing |
| Normalizer.KeepFirst | exam_Bash_MLOps/src/preprocessed.py:50 | dedupe never grows the table and invents no row |
| Normalizer.Keys | exam_Bash_MLOps/src/preprocessed.py:50 | every row's (timestamp, model, sales) key is among the table's keys |
| Normalizer.FirstPositions | exam_Bash_MLOps/src/preprocessed.py:50 | the kept positions lie inside the table |
| Normalizer.FirstPositionsSpec | exam_Bash_MLOps/src/preprocessed.py:50 | the kept positions are exactly the first occurrences of each key, increasing |
| Normalizer.KeepFirstSelects | exam_Bash_MLOps/src/preprocessed.py:50 | dedupe output is the subsequence of the input at the first-occurrence positions |
| Normalizer.KeepFirstKeys | exam_Bash_MLOps/src/preprocessed.py:50 | dedupe loses no key and adds none |
| Normalizer.KeepFirstDistinct | exam_Bash_MLOps/src/preprocessed.py:50 | after dedupe, no two rows share a key |
| Normalizer.KeepFirstLength | exam_Bash_MLOps/src/preprocessed.py:50 | the output length is the number of distinct keys, at most the input length |
| Normalizer.KeepFirstOfDistinct | exam_Bash_MLOps/src/preprocessed.py:50 | a table without repeated keys is left as it is |
| Normalizer.KeepFirstIdempotent | exam_Bash_MLOps/src/preprocessed.py:50 | deduping twice is deduping once |
| Normalizer.IngestLine | exam_Bash_MLOps/src/preprocessed.py:74 | the ingestion log line starts with the run's stamp and a `;` |
| Normalizer.ProcessedPath | exam_Bash_MLOps/src/preprocessed.py:57-59 | the output is `../data/processed/sales_processed_<stamp>.csv`, and it ends in `.csv` |
| Normalizer.IngestLineFields | exam_Bash_MLOps/src/preprocessed.py:72-75 | when no raw `.csv` name holds `;`, the log line splits into stamp, file count, row count and the comma-joined names, and the counts read back as the numbers written |
| Normalizer.PublishEffect | exam_Bash_MLOps/src/preprocessed.py:60-75 | the CSV is written first; the log line is appended only if that write succeeded |
| Normalizer.Preprocess | exam_Bash_MLOps/src/preprocessed.py:22-75 | the whole run: the `.csv` names, sorted blocks, deduped table and stamped path as above; a file that cannot be read raises its exception and nothing is written; no `.csv` file means the concat error and no change; otherwise the new file state is `PublishEffect` |
| Training.VersionedPathDistinct | exam_Bash_MLOps/src/train.py:149 | a versioned path never equals the canonical, encoder or log paths, and different stamps give different paths |
| Training.ModelPath | exam_Bash_MLOps/src/train.py:145-149 | the canonical path is chosen exactly when no canonical model exists |
| Training.ModelPathDecision | exam_Bash_MLOps/src/train.py:145-151 | the chosen model path is never the encoder path or a log path |
| Training.MetricsLine | exam_Bash_MLOps/src/train.py:99 | the training-log line starts with the run's stamp and a `;` |
| Training.MetricsLineFields | exam_Bash_MLOps/src/train.py:97-100 | the training-log line splits into stamp, model path and the three metrics |
| Training.ErrorLine | exam_Bash_MLOps/src/train.py:79 | the error line is the stamp, a `;`, then the exception's `str()` |
| Common.Message | exam_Bash_MLOps/src/train.py:79 | `str(e)`: an OSError, a read failure or a training failure keeps the library's text; every exception whose text the model fixes has a non-empty text; the mixed-labels text lists the sorted label types, `float` included when a NaN is present |
| Training.ErrorLineStamp | exam_Bash_MLOps/src/train.py:78-79 | the first field of an error line is the run's stamp, whatever the message holds |
| Training.LogError | exam_Bash_MLOps/src/train.py:64-79 | the error-log append is `AppendEffect` on `../logs/errors.logs` with the line `<stamp>;<message>` |
| Training.RecordMetrics | exam_Bash_MLOps/src/train.py:83-100 | the training-log append is `AppendEffect` on `../logs/train.logs` with the metrics line |
| Training.SaveEffect | exam_Bash_MLOps/src/train.py:145-162 | saving changes only the chosen model path, the encoder path and the training log |
| Training.SaveModel | exam_Bash_MLOps/src/train.py:138-162 | the intended save's result and new file state are `SaveEffect` of the old state |
| Training.SaveModelAsWritten | exam_Bash_MLOps/src/train.py:143-149 | as written, every call raises UnboundLocalError on `model_path`, and there is no modifies clause, so no file changes |
| Training.SaveSucceedsIff | exam_Bash_MLOps/src/train.py:154-160 | a save succeeds exactly when the model path, the encoder path and the training log can all be opened |
| Training.SaveKeepsCanonical | exam_Bash_MLOps/src/train.py:145-149 | an existing canonical model is never overwritten, whatever fails |
| Training.SaveSucceeds | exam_Bash_MLOps/src/train.py:145-160 | after a successful save, the model is under the decided path (the canonical one exactly when it was free), the encoder file is overwritten, and the metrics line for that path is appended to the training log |
| Training.SaveLogsReturnedPath | exam_Bash_MLOps/src/train.py:160-162 | the path a successful save returns is the path its log line records, and that line starts with the run's stamp |
| Training.SaveLogsOnlyAfterWrites | exam_Bash_MLOps/src/train.py:154-160 | if the training log changed, both the model and the encoder were written and the save succeeded |
| Training.SaveNoRollback | exam_Bash_MLOps/src/train.py:154-157 | when the encoder write fails, the model just written stays, the log is untouched, and the encoder's OSError escapes |
| Training.SuccessiveSaves | exam_Bash_MLOps/src/train.py:135-162 | two saves from an empty model directory: canonical first, versioned second; the canonical model survives, the encoder is the second one, and the log is the header plus both lines |
| Training.TrainOnFile | exam_Bash_MLOps/src/train.py:177-181 | a failed read escapes as the read error, a failed preparation as `Prepare`'s error, a failed training as the training error; a success means the file was read, the prepared data is `Prepare` of its table, and the model was trained on that data |
| Training.Upstream | exam_Bash_MLOps/src/train.py:172-181 | with no `.csv` file the run fails with the empty-`max` error before reading anything |
| Training.UpstreamUsesNewest | exam_Bash_MLOps/src/train.py:174-181 | after the locator, the run reads, prepares and trains on the newest `.csv` file |
| Training.Reraise | exam_Bash_MLOps/src/train.py:184-187 | on an exception, exactly one error line is appended and the same exception escapes, unless the error log cannot be opened, in which case that OSError escapes; on success, nothing is logged |
| Training.AsWrittenAttempt | exam_Bash_MLOps/src/train.py:172-182 | the try block as written always raises: the upstream error if there is one, otherwise UnboundLocalError on `model_path`; it writes no file |
| Training.IntendedAttempt | exam_Bash_MLOps/src/train.py:172-182 | the try block with the intended save: an upstream error escapes with no file changed; otherwise only the decided model path, the encoder and the training log can change |
| Training.TrainingRun | exam_Bash_MLOps/src/train.py:165-187 | `main` as written, with one stamp per run: its outcome and new state are `Reraise` of the as-written attempt |
| Training.TrainingRunIntended | exam_Bash_MLOps/src/train.py:165-187 | `main` with the intended save, with one stamp per run: its outcome and new state are `Reraise` of the intended attempt |
| Training.AsWrittenRunFails | exam_Bash_MLOps/src/train.py:143-187 | as written, every run raises, and the only change is one error line (plus the header if the log was new) |
| Training.IntendedRunOutcome | exam_Bash_MLOps/src/train.py:170-187 | the intended run raises exactly when a step fails; a failure appends one line carrying the stamp and keeps the partial writes; a success leaves the error log alone; an existing canonical model is never changed |
| Training.TrainsOnNewestIngestOutput | exam_Bash_MLOps/src/train.py:31-40 | wherever the listing puts it, the file the ingestion run writes, once it is newer than every other `.csv` entry of the processed directory, is exactly the path the locator returns |

## Left out

- Model fitting and evaluation (`train_test_split`, the XGBoost regressor, `calculate_metrics`) are floating-point code in foreign libraries. The `train` parameter of `Training.Upstream` stands for them. Metrics are the strings the `:.6f` format produces, treated as opaque.
- `to_csv` and the ISO-8601 parser are parameters: `render` and `parse`. In the training run `pd.read_csv` is the parameter `load`. In the ingestion run each listing entry carries what reading it gives: its rows, or the exception (pandas' own error, or the KeyError of a file without a `timestamp` column).
- Sales are integers, and extra columns are carried along unread. An empty `model` cell is modelled (NaN: `None` in the ingestion rows, `Missing` in the training table); an empty `sales` cell is not.
- Normalizer.Preprocess: the KeyError `drop_duplicates` raises at `preprocessed.py:50` when no `.csv` file has a `model` column, or none has a `sales` column, is not modelled: every ingestion row carries both fields. `pd.concat` at `preprocessed.py:47` is an outer join, so one file lacking `model` beside files that have it only gets NaN models, which the rows can hold (`None`). One file lacking `sales` beside others gets NaN sales, which integer sales cannot hold (see the line above).
- `os.listdir` of a missing directory (`preprocessed.py:23`, `train.py:33`) is not modelled: the listing is an input, so the FileNotFoundError, and its error-log line in the training run, do not occur in the model.
- Storage.WriteEffect: only an `open()` that raises is modelled. `open(path, "w")` and `open(path, "wb")` empty the file before anything is written, so a write that fails after the open (a full disk) leaves an empty or partial file. This holds for the shared encoder at `train.py:156-157`, the model at `train.py:154-155` and the processed CSV at `preprocessed.py:60`. The model cannot represent that state.
- pickle is left out. Artifacts are opaque line sequences, and `dumpEncoder` stands for pickling the fitted encoder.
- The clock (`datetime.now`, `pd.Timestamp.utcnow`) is a `Clock` parameter, read once per run. Years are limited to 1000..9999 because `%Y` is not padded the same way on every platform below 1000.
- The directory listing is an input: each entry carries its name and the mtime `os.path.getmtime` reports.
- `os.makedirs` and relative-path resolution are not modelled. Note that `os.makedirs("model")` at `train.py:141` creates a different directory from the `../model/` the writes use.
- `print` output is not modelled.
- Concurrent runs are not modelled. The code has no locking, so two runs can race on the canonical path or on a log header.
- Log lines are stored without their trailing newline. A message holding a newline would span several lines of the real log; the model keeps it as one.
- The exception texts follow CPython 3.12, pandas 2 and scikit-learn wording. `LoadFailed` and `TrainFailed` carry the library's text unchanged.
- `drop_duplicates(inplace=True)` is modelled as the function `Normalizer.KeepFirst` on the concatenated rows. pandas' in-place mutation of the frame is not modelled separately.
- The locator takes the maximum over the `.csv` entries and joins the winner's name to the directory afterwards. The source joins first. `getmtime` of a joined path is the entry's mtime, so the result is the same, but the model does not resolve paths.
- Normalizer.SortNewestFirst: states only order and permutation, not which of several equal timestamps comes first. pandas' default sort is not stable, so the source promises no more.
- Normalizer.IngestLineFields: assumes no raw `.csv` name holds `;`. The names are written unquoted at `preprocessed.py:74`, so a file named `a;b.csv` gives a line with more fields than the four-field header, and the lemma says nothing about it.
- Training.MetricsLineFields: assumes no metric text holds `;`. A number formatted with `:.6f` never does.

## Findings

| source | as written | input that shows it | evidently intended | confidence | as-written member | corrected member |
|---|---|---|---|---|---|---|
| exam_Bash_MLOps/src/train.py:143 | `os.path.exists(model_path)` reads the local `model_path` before either branch at lines 147/149 assigns it, so every call raises UnboundLocalError before any file is written, and every training run ends in the error log | any call of `save_model`, for example the first run on an empty model directory | check whether `../model/model.pkl` exists, then write to the canonical path or the versioned path | high; not executed | Training.SaveModelAsWritten, Training.AsWrittenRunFails | Training.SaveModel, Training.IntendedRunOutcome |
