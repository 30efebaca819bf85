/** The training pipeline (train.py): locate the newest processed CSV, prepare the features,
    train, save the model under the canonical or a versioned name, log the metrics; any
    exception is logged with the run's stamp and raised again. */
module Training {

  import opened Common
  import opened Text
  import opened Stamp
  import opened Listing
  import opened Storage
  import opened Features
  import Normalizer

  /** The locator's default directory. */
  const DataDir: string := "../data/processed/"
  const CanonicalPath: string := "../model/model.pkl"
  const EncoderPath: string := "../model/label_encoder.pkl"
  const TrainLogPath: string := "../logs/train.logs"
  const TrainLogHeader: string := "timestamp;model_path;rmse;mae;r2"
  const ErrorLogPath: string := "../logs/errors.logs"
  const ErrorLogHeader: string := "timestamp;error"

  /** RMSE, MAE and R², each already formatted with ":.6f". */
  datatype Metrics = Metrics(rmse: string, mae: string, r2: string)

  /** What train_model gives back: the fitted model, as pickle would dump it, and its metrics. */
  datatype Trained = Trained(model: seq<string>, metrics: Metrics)

  /** The name a later model is saved under. */
  function VersionedPath(stamp: string): string
  {
    "../model/model_" + stamp + ".pkl"
  }

  /** A versioned path is never one of the fixed paths, and different stamps give different paths. */
  lemma VersionedPathDistinct(stamp: string, stamp': string)
    requires StampShaped(stamp)
    ensures VersionedPath(stamp) !in {CanonicalPath, EncoderPath, TrainLogPath, ErrorLogPath}
    ensures VersionedPath(stamp) == VersionedPath(stamp') ==> stamp == stamp'
  {
    var p := VersionedPath(stamp);
    assert |p| == 32;
    if VersionedPath(stamp) == VersionedPath(stamp') {
      assert stamp == p[15..|p| - 4];
      assert stamp' == VersionedPath(stamp')[15..|VersionedPath(stamp')| - 4];
    }
  }

  /** The intended decision: the canonical name while it is free, a versioned name after. */
  function ModelPath(canonicalExists: bool, stamp: string): (path: string)
    ensures path == CanonicalPath <==> !canonicalExists
  {
    if !canonicalExists then CanonicalPath else VersionedPath(stamp)
  }

  /** The chosen model path is never the encoder or a log path. */
  lemma ModelPathDecision(canonicalExists: bool, stamp: string)
    requires StampShaped(stamp)
    ensures ModelPath(canonicalExists, stamp) !in {EncoderPath, TrainLogPath, ErrorLogPath}
  {
    VersionedPathDistinct(stamp, stamp);
  }

  /** "<stamp>;<model path>;<rmse>;<mae>;<r2>" */
  function MetricsLine(stamp: string, modelPath: string, m: Metrics): (line: string)
    ensures stamp + ";" <= line
  {
    JoinWith(";", [stamp, modelPath, m.rmse, m.mae, m.r2])
  }

  /** A formatted float never holds the log's separator. */
  predicate PlainMetrics(m: Metrics)
  {
    ';' !in m.rmse && ';' !in m.mae && ';' !in m.r2
  }

  /** The training log line reads back into its five fields; the second is the model path. */
  lemma MetricsLineFields(stamp: string, modelPath: string, m: Metrics)
    requires ';' !in stamp && ';' !in modelPath && PlainMetrics(m)
    ensures Split(';', MetricsLine(stamp, modelPath, m)) == [stamp, modelPath, m.rmse, m.mae, m.r2]
  {
    var fields := [stamp, modelPath, m.rmse, m.mae, m.r2];
    assert forall k :: 0 <= k < 5 ==> ';' !in fields[k];
    SplitJoin(';', fields);
  }

  /** "<stamp>;<str(e)>" */
  function ErrorLine(stamp: string, e: Error): (line: string)
    ensures |line| > |stamp| && line[..|stamp|] == stamp && line[|stamp|] == ';'
    ensures line[|stamp| + 1..] == Message(e)
  {
    stamp + ";" + Message(e)
  }

  /** The first field of an error line is the run's stamp, whatever the message holds. */
  lemma ErrorLineStamp(stamp: string, e: Error)
    requires StampShaped(stamp)
    ensures Split(';', ErrorLine(stamp, e))[0] == stamp
  {
    var message := Message(e);
    SplitFirstField(';', stamp, message);
    assert stamp + ";" + message == stamp + [';'] + message;
  }

  /** log_errors */
  method LogError(fs: FileStore, stamp: string, e: Error) returns (r: Outcome<Error>)
    modifies fs
    ensures (r, fs.files) == AppendEffect(old(fs.files), fs.unwritable, ErrorLogPath, ErrorLogHeader, ErrorLine(stamp, e))
  {
    r := fs.AppendLine(ErrorLogPath, ErrorLogHeader, ErrorLine(stamp, e));
  }

  /** display_and_save_metrics, without the display */
  method RecordMetrics(fs: FileStore, m: Metrics, modelPath: string, stamp: string) returns (r: Outcome<Error>)
    modifies fs
    ensures (r, fs.files) == AppendEffect(old(fs.files), fs.unwritable, TrainLogPath, TrainLogHeader, MetricsLine(stamp, modelPath, m))
  {
    r := fs.AppendLine(TrainLogPath, TrainLogHeader, MetricsLine(stamp, modelPath, m));
  }

  /** What the intended save_model does: decide the path, write the model, write the encoder,
      append the metrics line, return the path; the first failing open() stops it and nothing
      already written is undone. */
  function SaveEffect(files: map<string, seq<string>>, unwritable: map<string, string>, model: seq<string>,
                      encoder: seq<string>, m: Metrics, stamp: string)
    : (out: (Result<string, Error>, map<string, seq<string>>))
    requires StampShaped(stamp)
    ensures forall p :: p != ModelPath(CanonicalPath in files, stamp) && p != EncoderPath && p != TrainLogPath ==>
              Lookup(out.1, p) == Lookup(files, p)
  {
    ModelPathDecision(CanonicalPath in files, stamp);
    var path := ModelPath(CanonicalPath in files, stamp);
    var (w1, f1) := WriteEffect(files, unwritable, path, model);
    if w1.Fail? then (Failure(w1.error), f1)
    else
      var (w2, f2) := WriteEffect(f1, unwritable, EncoderPath, encoder);
      if w2.Fail? then (Failure(w2.error), f2)
      else
        var (w3, f3) := AppendEffect(f2, unwritable, TrainLogPath, TrainLogHeader, MetricsLine(stamp, path, m));
        if w3.Fail? then (Failure(w3.error), f3) else (Success(path), f3)
  }

  /** save_model as intended: the path decided before it is used. */
  method SaveModel(fs: FileStore, model: seq<string>, encoder: seq<string>, m: Metrics, stamp: string)
    returns (r: Result<string, Error>)
    requires StampShaped(stamp)
    modifies fs
    ensures (r, fs.files) == SaveEffect(old(fs.files), fs.unwritable, model, encoder, m, stamp)
  {
    ModelPathDecision(CanonicalPath in fs.files, stamp);
    var canonicalExists := CanonicalPath in fs.files;
    var path := ModelPath(canonicalExists, stamp);
    var written := fs.Write(path, model);
    if written.Fail? {
      return Failure(written.error);
    }
    written := fs.Write(EncoderPath, encoder);
    if written.Fail? {
      return Failure(written.error);
    }
    written := RecordMetrics(fs, m, path, stamp);
    if written.Fail? {
      return Failure(written.error);
    }
    r := Success(path);
  }

  /** save_model as written: the existence check reads model_path before either branch assigns
      it, so every call raises UnboundLocalError before any file is opened. No modifies clause:
      the files are untouched. */
  method SaveModelAsWritten(fs: FileStore, model: seq<string>, encoder: seq<string>, m: Metrics, stamp: string)
    returns (r: Result<string, Error>)
    ensures r == Failure(UnboundLocal("model_path"))
  {
    r := Failure(UnboundLocal("model_path"));
  }

  /** A save succeeds exactly when the model path, the encoder path and the training log can
      all be opened. */
  lemma SaveSucceedsIff(files: map<string, seq<string>>, unwritable: map<string, string>, model: seq<string>,
                        encoder: seq<string>, m: Metrics, stamp: string)
    requires StampShaped(stamp)
    ensures var path := ModelPath(CanonicalPath in files, stamp);
            SaveEffect(files, unwritable, model, encoder, m, stamp).0.Success? <==>
              path !in unwritable && EncoderPath !in unwritable && TrainLogPath !in unwritable
  {
    var path := ModelPath(CanonicalPath in files, stamp);
    ModelPathDecision(CanonicalPath in files, stamp);
    if path !in unwritable && EncoderPath !in unwritable {
      var f2 := files[path := model][EncoderPath := encoder];
      assert SaveEffect(files, unwritable, model, encoder, m, stamp).0.Success? <==>
               AppendEffect(f2, unwritable, TrainLogPath, TrainLogHeader, MetricsLine(stamp, path, m)).0.Pass?;
    }
  }

  /** When the canonical model exists, saving never changes it, whatever fails. */
  lemma SaveKeepsCanonical(files: map<string, seq<string>>, unwritable: map<string, string>, model: seq<string>,
                           encoder: seq<string>, m: Metrics, stamp: string)
    requires StampShaped(stamp) && CanonicalPath in files
    ensures var out := SaveEffect(files, unwritable, model, encoder, m, stamp);
            CanonicalPath in out.1 && out.1[CanonicalPath] == files[CanonicalPath]
  {
    VersionedPathDistinct(stamp, stamp);
    var out := SaveEffect(files, unwritable, model, encoder, m, stamp);
    assert Lookup(out.1, CanonicalPath) == Lookup(files, CanonicalPath);
  }

  /** A successful save puts the model under the decided name (the canonical one exactly when
      it was free), overwrites the shared encoder file and appends the metrics line for the
      path it returns. */
  lemma SaveSucceeds(files: map<string, seq<string>>, unwritable: map<string, string>, model: seq<string>,
                     encoder: seq<string>, m: Metrics, stamp: string)
    requires StampShaped(stamp)
    requires SaveEffect(files, unwritable, model, encoder, m, stamp).0.Success?
    ensures var out := SaveEffect(files, unwritable, model, encoder, m, stamp);
            var path := out.0.value;
            && (path == CanonicalPath <==> CanonicalPath !in files)
            && (CanonicalPath in files ==> path == VersionedPath(stamp))
            && path in out.1 && out.1[path] == model
            && EncoderPath in out.1 && out.1[EncoderPath] == encoder
            && TrainLogPath in out.1
            && out.1[TrainLogPath] == Appended(Lookup(files, TrainLogPath), TrainLogHeader, MetricsLine(stamp, path, m))
  {
    var canonicalExists := CanonicalPath in files;
    ModelPathDecision(canonicalExists, stamp);
    var path := ModelPath(canonicalExists, stamp);
    var f2 := files[path := model][EncoderPath := encoder];
    assert Lookup(f2, TrainLogPath) == Lookup(files, TrainLogPath);
  }

  /** The path a successful save returns is the one its metrics line records, and the line
      starts with the run's stamp. */
  lemma SaveLogsReturnedPath(files: map<string, seq<string>>, unwritable: map<string, string>, model: seq<string>,
                             encoder: seq<string>, m: Metrics, stamp: string)
    requires StampShaped(stamp) && PlainMetrics(m)
    requires SaveEffect(files, unwritable, model, encoder, m, stamp).0.Success?
    ensures var out := SaveEffect(files, unwritable, model, encoder, m, stamp);
            TrainLogPath in out.1 &&
            var log := out.1[TrainLogPath];
            Split(';', log[|log| - 1]) == [stamp, out.0.value, m.rmse, m.mae, m.r2]
  {
    SaveSucceeds(files, unwritable, model, encoder, m, stamp);
    var path := SaveEffect(files, unwritable, model, encoder, m, stamp).0.value;
    assert ';' !in stamp;
    assert ';' !in path by {
      ModelPathDecision(CanonicalPath in files, stamp);
    }
    MetricsLineFields(stamp, path, m);
  }

  /** The metrics line is appended only after both the model and the encoder are written:
      if the training log changed, both files hold the new content and the save succeeded. */
  lemma SaveLogsOnlyAfterWrites(files: map<string, seq<string>>, unwritable: map<string, string>, model: seq<string>,
                                encoder: seq<string>, m: Metrics, stamp: string)
    requires StampShaped(stamp)
    ensures var out := SaveEffect(files, unwritable, model, encoder, m, stamp);
            var path := ModelPath(CanonicalPath in files, stamp);
            Lookup(out.1, TrainLogPath) != Lookup(files, TrainLogPath) ==>
              && out.0.Success?
              && path in out.1 && out.1[path] == model
              && EncoderPath in out.1 && out.1[EncoderPath] == encoder
  {
    ModelPathDecision(CanonicalPath in files, stamp);
  }

  /** Nothing is rolled back: when the encoder cannot be written, the model file just written
      stays, the training log is untouched and the encoder's OSError escapes. */
  lemma SaveNoRollback(files: map<string, seq<string>>, unwritable: map<string, string>, model: seq<string>,
                       encoder: seq<string>, m: Metrics, stamp: string)
    requires StampShaped(stamp)
    requires ModelPath(CanonicalPath in files, stamp) !in unwritable && EncoderPath in unwritable
    ensures var out := SaveEffect(files, unwritable, model, encoder, m, stamp);
            var path := ModelPath(CanonicalPath in files, stamp);
            && out.0 == Failure(OsError(unwritable[EncoderPath]))
            && out.1 == files[path := model]
  {
    ModelPathDecision(CanonicalPath in files, stamp);
  }

  /** Two saves in a row from an empty model directory and no training log: the first model
      takes the canonical name, the second a versioned one, the canonical model survives, the
      encoder file holds the second encoder and the log holds the header and both lines. */
  lemma SuccessiveSaves(files: map<string, seq<string>>, unwritable: map<string, string>,
                        model1: seq<string>, encoder1: seq<string>, m1: Metrics, stamp1: string,
                        model2: seq<string>, encoder2: seq<string>, m2: Metrics, stamp2: string)
    requires StampShaped(stamp1) && StampShaped(stamp2)
    requires CanonicalPath !in files && TrainLogPath !in files
    requires VersionedPath(stamp2) !in unwritable
    requires CanonicalPath !in unwritable && EncoderPath !in unwritable && TrainLogPath !in unwritable
    ensures var first := SaveEffect(files, unwritable, model1, encoder1, m1, stamp1);
            var second := SaveEffect(first.1, unwritable, model2, encoder2, m2, stamp2);
            && first.0 == Success(CanonicalPath)
            && second.0 == Success(VersionedPath(stamp2))
            && second.1[CanonicalPath] == model1
            && second.1[VersionedPath(stamp2)] == model2
            && second.1[EncoderPath] == encoder2
            && second.1[TrainLogPath] ==
                 [TrainLogHeader, MetricsLine(stamp1, CanonicalPath, m1), MetricsLine(stamp2, VersionedPath(stamp2), m2)]
  {
    VersionedPathDistinct(stamp2, stamp2);
    var first := SaveEffect(files, unwritable, model1, encoder1, m1, stamp1);
    assert first.0 == Success(CanonicalPath);
    assert first.1[CanonicalPath] == model1;
    assert first.1[TrainLogPath] == [TrainLogHeader, MetricsLine(stamp1, CanonicalPath, m1)];
    SaveKeepsCanonical(first.1, unwritable, model2, encoder2, m2, stamp2);
  }

  /** The part of main's try block that works on the located file: read it (`load` stands for
      pd.read_csv), prepare the features, train (`train` stands for train_test_split, the
      XGBoost fit and the metrics). */
  function TrainOnFile(path: string, load: string -> Result<Table, string>, train: Prepared -> Result<Trained, string>)
    : (r: Result<(Prepared, Trained), Error>)
    ensures r.Success? ==> load(path).Success? && Prepare(load(path).value) == Success(r.value.0)
    ensures r.Success? ==> train(r.value.0) == Success(r.value.1)
    ensures load(path).Failure? ==> r == Failure(LoadFailed(load(path).error))
    ensures load(path).Success? && Prepare(load(path).value).Failure? ==> r == Failure(Prepare(load(path).value).error)
    ensures load(path).Success? && Prepare(load(path).value).Success? ==>
              var trained := train(Prepare(load(path).value).value);
              trained.Failure? ==> r == Failure(TrainFailed(trained.error))
  {
    var table := load(path);
    if table.Failure? then Failure(LoadFailed(table.error))
    else
      var prepared := Prepare(table.value);
      if prepared.Failure? then Failure(prepared.error)
      else
        var trained := train(prepared.value);
        if trained.Failure? then Failure(TrainFailed(trained.error))
        else Success((prepared.value, trained.value))
  }

  /** Everything main's try block does before saving: locate the newest processed file, then
      read it, prepare and train. */
  function Upstream(entries: seq<Entry>, load: string -> Result<Table, string>,
                    train: Prepared -> Result<Trained, string>)
    : (r: Result<(Prepared, Trained), Error>)
    ensures LatestFile(DataDir, entries).Failure? ==> r == Failure(EmptyArgMax)
  {
    var latest := LatestFile(DataDir, entries);
    if latest.Failure? then Failure(latest.error) else TrainOnFile(latest.value, load, train)
  }

  /** Whatever happens after the locator happens to the newest ".csv" file. */
  lemma UpstreamUsesNewest(entries: seq<Entry>, load: string -> Result<Table, string>,
                           train: Prepared -> Result<Trained, string>)
    requires LatestFile(DataDir, entries).Success?
    ensures exists i :: && NewestCsvAt(entries, i)
                        && Upstream(entries, load, train) == TrainOnFile(JoinPath(DataDir, entries[i].name), load, train)
  {
    var latest := LatestFile(DataDir, entries);
    var i :| NewestCsvAt(entries, i) && latest.value == JoinPath(DataDir, entries[i].name);
    assert Upstream(entries, load, train) == TrainOnFile(JoinPath(DataDir, entries[i].name), load, train);
  }

  /** The except clause: on an exception, append "<stamp>;<message>" to the error log and raise
      it again; if the error log itself cannot be opened, that OSError is what escapes. */
  function Reraise(unwritable: map<string, string>, stamp: string, attempt: (Result<string, Error>, map<string, seq<string>>))
    : (out: (Outcome<Error>, map<string, seq<string>>))
    ensures out.0.Pass? <==> attempt.0.Success?
    ensures attempt.0.Success? ==> out.1 == attempt.1
    ensures attempt.0.Failure? && ErrorLogPath !in unwritable ==>
              && out.0 == Fail(attempt.0.error)
              && out.1 == attempt.1[ErrorLogPath := Appended(Lookup(attempt.1, ErrorLogPath), ErrorLogHeader,
                                                             ErrorLine(stamp, attempt.0.error))]
    ensures attempt.0.Failure? && ErrorLogPath in unwritable ==>
              out == (Fail(OsError(unwritable[ErrorLogPath])), attempt.1)
  {
    if attempt.0.Success? then (Pass, attempt.1)
    else
      var (logged, files) := AppendEffect(attempt.1, unwritable, ErrorLogPath, ErrorLogHeader, ErrorLine(stamp, attempt.0.error));
      if logged.Fail? then (logged, files) else (Fail(attempt.0.error), files)
  }

  /** The try block with save_model as written. */
  function AsWrittenAttempt(files: map<string, seq<string>>, up: Result<(Prepared, Trained), Error>)
    : (r: (Result<string, Error>, map<string, seq<string>>))
    ensures r.0.Failure? && r.1 == files
    ensures up.Failure? ==> r.0.error == up.error
    ensures up.Success? ==> r.0.error == UnboundLocal("model_path")
  {
    if up.Failure? then (Failure(up.error), files) else (Failure(UnboundLocal("model_path")), files)
  }

  /** The try block with save_model as intended. */
  function IntendedAttempt(files: map<string, seq<string>>, unwritable: map<string, string>,
                           up: Result<(Prepared, Trained), Error>, dumpEncoder: Encoder -> seq<string>, stamp: string)
    : (r: (Result<string, Error>, map<string, seq<string>>))
    requires StampShaped(stamp)
    ensures up.Failure? ==> r == (Failure(up.error), files)
    ensures forall p :: p != ModelPath(CanonicalPath in files, stamp) && p != EncoderPath && p != TrainLogPath ==>
              Lookup(r.1, p) == Lookup(files, p)
  {
    if up.Failure? then (Failure(up.error), files)
    else SaveEffect(files, unwritable, up.value.1.model, dumpEncoder(up.value.0.encoder), up.value.1.metrics, stamp)
  }

  /** main as written. `now` is the UTC clock reading, taken once; `dumpEncoder` is what pickle
      writes for the fitted encoder. */
  method TrainingRun(fs: FileStore, entries: seq<Entry>, load: string -> Result<Table, string>,
                     train: Prepared -> Result<Trained, string>, dumpEncoder: Encoder -> seq<string>, now: Clock)
    returns (outcome: Outcome<Error>)
    requires ValidClock(now)
    modifies fs
    ensures (outcome, fs.files) == Reraise(fs.unwritable, Format(now), AsWrittenAttempt(old(fs.files), Upstream(entries, load, train)))
  {
    var stamp := Format(now);
    var up := Upstream(entries, load, train);
    var saved: Result<string, Error>;
    if up.Failure? {
      saved := Failure(up.error);
    } else {
      var (prepared, trained) := up.value;
      saved := SaveModelAsWritten(fs, trained.model, dumpEncoder(prepared.encoder), trained.metrics, stamp);
    }
    outcome := Pass;
    if saved.Failure? {
      var logged := LogError(fs, stamp, saved.error);
      outcome := if logged.Fail? then logged else Fail(saved.error);
    }
  }

  /** main with save_model as intended. */
  method TrainingRunIntended(fs: FileStore, entries: seq<Entry>, load: string -> Result<Table, string>,
                             train: Prepared -> Result<Trained, string>, dumpEncoder: Encoder -> seq<string>, now: Clock)
    returns (outcome: Outcome<Error>)
    requires ValidClock(now)
    modifies fs
    ensures (outcome, fs.files) ==
              Reraise(fs.unwritable, Format(now), IntendedAttempt(old(fs.files), fs.unwritable, Upstream(entries, load, train), dumpEncoder, Format(now)))
  {
    var stamp := Format(now);
    var up := Upstream(entries, load, train);
    var saved: Result<string, Error>;
    if up.Failure? {
      saved := Failure(up.error);
    } else {
      var (prepared, trained) := up.value;
      saved := SaveModel(fs, trained.model, dumpEncoder(prepared.encoder), trained.metrics, stamp);
    }
    outcome := Pass;
    if saved.Failure? {
      var logged := LogError(fs, stamp, saved.error);
      outcome := if logged.Fail? then logged else Fail(saved.error);
    }
  }

  /** As written, every run fails, and all it changes is one line appended to the error log
      (the header first if that log was absent or empty): no model, encoder or training log
      is written. */
  lemma AsWrittenRunFails(files: map<string, seq<string>>, unwritable: map<string, string>,
                          up: Result<(Prepared, Trained), Error>, stamp: string)
    ensures var out := Reraise(unwritable, stamp, AsWrittenAttempt(files, up));
            var e := if up.Failure? then up.error else UnboundLocal("model_path");
            && out.0.Fail?
            && (ErrorLogPath !in unwritable ==>
                  && out.0 == Fail(e)
                  && out.1 == files[ErrorLogPath := Appended(Lookup(files, ErrorLogPath), ErrorLogHeader, ErrorLine(stamp, e))])
            && (ErrorLogPath in unwritable ==> out == (Fail(OsError(unwritable[ErrorLogPath])), files))
  {
  }

  /** The intended run: it raises exactly when some step fails; a failure appends exactly one
      line carrying the run's stamp to the error log and re-raises, keeping whatever the save
      already wrote; a success leaves the error log alone and never changes an existing
      canonical model. */
  lemma IntendedRunOutcome(files: map<string, seq<string>>, unwritable: map<string, string>,
                           up: Result<(Prepared, Trained), Error>, dumpEncoder: Encoder -> seq<string>, stamp: string)
    requires StampShaped(stamp)
    ensures var attempt := IntendedAttempt(files, unwritable, up, dumpEncoder, stamp);
            var out := Reraise(unwritable, stamp, attempt);
            && (out.0.Pass? <==> attempt.0.Success?)
            && (out.0.Pass? ==> Lookup(out.1, ErrorLogPath) == Lookup(files, ErrorLogPath))
            && (attempt.0.Failure? && ErrorLogPath !in unwritable ==>
                  && out.0 == Fail(attempt.0.error)
                  && out.1[ErrorLogPath] == Appended(Lookup(files, ErrorLogPath), ErrorLogHeader, ErrorLine(stamp, attempt.0.error))
                  && Split(';', ErrorLine(stamp, attempt.0.error))[0] == stamp
                  && forall p :: p != ErrorLogPath ==> Lookup(out.1, p) == Lookup(attempt.1, p))
            && (CanonicalPath in files ==> CanonicalPath in out.1 && out.1[CanonicalPath] == files[CanonicalPath])
  {
    var attempt := IntendedAttempt(files, unwritable, up, dumpEncoder, stamp);
    VersionedPathDistinct(stamp, stamp);
    assert Lookup(attempt.1, ErrorLogPath) == Lookup(files, ErrorLogPath);
    if attempt.0.Failure? {
      ErrorLineStamp(stamp, attempt.0.error);
    }
    if CanonicalPath in files {
      if up.Success? {
        SaveKeepsCanonical(files, unwritable, up.value.1.model, dumpEncoder(up.value.0.encoder), up.value.1.metrics, stamp);
      }
    }
  }

  /** The two pipelines meet here: a file the ingestion run writes, once it is the newest
      ".csv" entry of the processed directory, wherever the listing puts it, is exactly the path
      the training run locates. */
  lemma TrainsOnNewestIngestOutput(entries: seq<Entry>, stamp: string, i: int)
    requires 0 <= i < |entries| && entries[i].name == Normalizer.ProcessedName(stamp)
    requires forall j :: 0 <= j < |entries| && j != i && IsCsv(entries[j].name) ==> entries[j].mtime < entries[i].mtime
    ensures Normalizer.ProcessedDir == DataDir
    ensures LatestFile(DataDir, entries) == Success(Normalizer.ProcessedPath(stamp))
  {
    var p := Normalizer.ProcessedPath(stamp);
    LatestFileIsNewest(DataDir, entries, i);
  }

}
