/** Feature preparation of the training pipeline (load_and_prepare_data, after the CSV is read):
    LabelEncoder codes for the model column, then the feature matrix and the target. */
module Features {

  import opened Common
  import opened Text

  /** A value read from the CSV: a number, a string, or an empty cell, which pandas reads as NaN. */
  datatype Cell = Num(n: int) | Str(s: string) | Missing

  /** Python's < on str: lexicographic by code point, a proper prefix first. */
  predicate StrLess(a: string, b: string)
    decreases |a|
  {
    if a == [] then b != []
    else if b == [] then false
    else if a[0] != b[0] then a[0] < b[0]
    else StrLess(a[1..], b[1..])
  }

  lemma {:induction false} StrLessIrreflexive(a: string)
    ensures !StrLess(a, a)
    decreases |a|
  {
    if a != [] {
      StrLessIrreflexive(a[1..]);
    }
  }

  lemma {:induction false} StrLessTransitive(a: string, b: string, c: string)
    requires StrLess(a, b) && StrLess(b, c)
    ensures StrLess(a, c)
    decreases |a|
  {
    if a != [] && b != [] && c != [] && a[0] == b[0] && b[0] == c[0] {
      StrLessTransitive(a[1..], b[1..], c[1..]);
    }
  }

  lemma {:induction false} StrLessTotal(a: string, b: string)
    requires a != b
    ensures StrLess(a, b) || StrLess(b, a)
    decreases |a|
  {
    if a != [] && b != [] && a[0] == b[0] {
      StrLessTotal(a[1..], b[1..]);
    }
  }

  /** The order LabelEncoder sorts its classes by: numbers numerically, strings as Python does,
      NaN after every other label; a number and a string are not comparable. */
  predicate Less(a: Cell, b: Cell)
  {
    match (a, b)
    case (Num(x), Num(y)) => x < y
    case (Str(x), Str(y)) => StrLess(x, y)
    case (Missing, _) => false
    case (_, Missing) => true
    case _ => false
  }

  lemma LessTransitive(a: Cell, b: Cell, c: Cell)
    requires Less(a, b) && Less(b, c)
    ensures Less(a, c)
  {
    if a.Str? && c.Str? {
      StrLessTransitive(a.s, b.s, c.s);
    }
  }

  /** Labels LabelEncoder can sort: no strings beside numbers (NaN goes with either). */
  predicate Homogeneous(labels: set<Cell>)
  {
    (forall c :: c in labels ==> !c.Str?) || (forall c :: c in labels ==> !c.Num?)
  }

  /** A fitted LabelEncoder: classes_ is the sorted array of these labels. */
  datatype Encoder = Encoder(classes: set<Cell>)

  /** transform: the position of c in the sorted classes, i.e. how many classes sort before it. */
  function Code(enc: Encoder, c: Cell): (code: nat)
    ensures code <= |enc.classes|
  {
    var below := set x | x in enc.classes && Less(x, c);
    SubsetCardinality(below, enc.classes);
    |below|
  }

  /** Every label gets a code in 0 .. |classes| - 1. */
  lemma CodeInRange(enc: Encoder, c: Cell)
    requires c in enc.classes
    ensures Code(enc, c) < |enc.classes|
  {
    var below := set x | x in enc.classes && Less(x, c);
    assert c !in below by {
      if c.Str? {
        StrLessIrreflexive(c.s);
      }
    }
    assert below <= enc.classes - {c};
    SubsetCardinality(below, enc.classes - {c});
  }

  /** An empty cell among the labels gets the last code, after every other label. */
  lemma MissingCodedLast(enc: Encoder)
    requires Missing in enc.classes
    ensures Code(enc, Missing) == |enc.classes| - 1
  {
    var below := set x | x in enc.classes && Less(x, Missing);
    assert below == enc.classes - {Missing};
  }

  /** Codes follow the sort order of the labels. */
  lemma CodeMonotone(enc: Encoder, a: Cell, b: Cell)
    requires a in enc.classes && b in enc.classes && Less(a, b)
    ensures Code(enc, a) < Code(enc, b)
  {
    var belowA := set x | x in enc.classes && Less(x, a);
    var belowB := set x | x in enc.classes && Less(x, b);
    forall x | x in belowA ensures x in belowB {
      LessTransitive(x, a, b);
    }
    assert a !in belowA by {
      if a.Str? {
        StrLessIrreflexive(a.s);
      }
    }
    assert belowA <= belowB - {a};
    SubsetCardinality(belowA, belowB - {a});
  }

  /** Distinct labels get distinct codes (equal labels trivially get equal ones). */
  lemma CodeInjective(enc: Encoder, a: Cell, b: Cell)
    requires Homogeneous(enc.classes)
    requires a in enc.classes && b in enc.classes && a != b
    ensures Code(enc, a) != Code(enc, b)
  {
    if a.Str? && b.Str? {
      StrLessTotal(a.s, b.s);
    }
    if Less(a, b) {
      CodeMonotone(enc, a, b);
    } else {
      CodeMonotone(enc, b, a);
    }
  }

  lemma {:induction false} SubsetCardinality<T>(a: set<T>, b: set<T>)
    requires a <= b
    ensures |a| <= |b|
    decreases |b|
  {
    if a != {} {
      var x :| x in a;
      SubsetCardinality(a - {x}, b - {x});
    }
  }

  /** The frame pd.read_csv gives: named columns of equal height. */
  datatype Frame = Frame(columns: map<string, seq<Cell>>, height: nat)

  type Table = f: Frame | forall c :: c in f.columns ==> |f.columns[c]| == f.height
    witness Frame(map[], 0)

  /** The feature columns, in the order the model is trained on them. */
  const FeatureNames: seq<string> := ["year", "month", "day_of_year", "model_encoded"]

  /** X, y and the fitted encoder. */
  datatype Prepared = Prepared(features: seq<seq<Cell>>, target: seq<Cell>, encoder: Encoder)

  function Labels(col: seq<Cell>): (labels: set<Cell>)
    ensures forall i :: 0 <= i < |col| ==> col[i] in labels
    ensures forall c :: c in labels ==> c in col
  {
    set i | 0 <= i < |col| :: col[i]
  }

  /** The names among `wanted` that are not columns, in order. */
  function Absent(wanted: seq<string>, columns: set<string>): (r: seq<string>)
    ensures forall n :: n in r <==> n in wanted && n !in columns
  {
    if wanted == [] then []
    else Absent(wanted[..|wanted| - 1], columns)
         + (if wanted[|wanted| - 1] in columns then [] else [wanted[|wanted| - 1]])
  }

  /** No feature is absent exactly when all four are columns. */
  lemma NoneAbsent(columns: set<string>)
    ensures Absent(FeatureNames, columns) == [] <==> forall k :: 0 <= k < 4 ==> FeatureNames[k] in columns
  {
    var missing := Absent(FeatureNames, columns);
    if missing != [] {
      assert missing[0] in missing;
    } else {
      forall k | 0 <= k < 4 ensures FeatureNames[k] in columns {
        assert FeatureNames[k] in FeatureNames;
      }
    }
  }

  /** df[features]: row i holds the four feature columns' values at i, in FeatureNames order. */
  function SelectFeatures(columns: map<string, seq<Cell>>, height: nat): (x: seq<seq<Cell>>)
    requires forall k :: 0 <= k < 4 ==> FeatureNames[k] in columns && |columns[FeatureNames[k]]| == height
    ensures |x| == height
    ensures forall i :: 0 <= i < height ==> |x[i]| == 4 && forall k :: 0 <= k < 4 ==> x[i][k] == columns[FeatureNames[k]][i]
  {
    seq(height, i requires 0 <= i < height => seq(4, k requires 0 <= k < 4 => columns[FeatureNames[k]][i]))
  }

  /** The three feature columns the CSV itself must provide. */
  predicate HasRawFeatures(columns: set<string>)
  {
    forall k :: 0 <= k < 3 ==> FeatureNames[k] in columns
  }

  /** Once "model_encoded" is added, no feature is absent exactly when the CSV has the other three. */
  lemma AbsentAfterEncoding(columns: set<string>)
    ensures Absent(FeatureNames, columns + {"model_encoded"}) == [] <==> HasRawFeatures(columns)
  {
    NoneAbsent(columns + {"model_encoded"});
  }

  /** The steps after the encoder is fitted: add "model_encoded" (the codes of the model
      column), select the four features (KeyError naming the absent ones) and the "sales"
      target (KeyError if absent). */
  function Encoded(t: Table, enc: Encoder): (r: Result<Prepared, Error>)
    requires "model" in t.columns
    ensures r.Success? <==> HasRawFeatures(t.columns.Keys) && "sales" in t.columns
    ensures !HasRawFeatures(t.columns.Keys) ==>
              r == Failure(MissingColumns(Absent(FeatureNames, t.columns.Keys + {"model_encoded"})))
    ensures HasRawFeatures(t.columns.Keys) && "sales" !in t.columns ==> r == Failure(MissingColumn("sales"))
    ensures r.Success? ==>
              && r.value.encoder == enc
              && r.value.target == t.columns["sales"]
              && |r.value.features| == t.height
              && forall i :: 0 <= i < t.height ==>
                   && |r.value.features[i]| == 4
                   && (forall k :: 0 <= k < 3 ==> r.value.features[i][k] == t.columns[FeatureNames[k]][i])
                   && r.value.features[i][3] == Num(Code(enc, t.columns["model"][i]))
  {
    var missing := Absent(FeatureNames, t.columns.Keys + {"model_encoded"});
    AbsentAfterEncoding(t.columns.Keys);
    if missing != [] then Failure(MissingColumns(missing))
    else if "sales" !in t.columns then Failure(MissingColumn("sales"))
    else
      var model := t.columns["model"];
      var codes := seq(t.height, i requires 0 <= i < t.height => Num(Code(enc, model[i])));
      var columns := t.columns["model_encoded" := codes];
      Success(Prepared(SelectFeatures(columns, t.height), t.columns["sales"], enc))
  }

  /** load_and_prepare_data once the CSV is read: fit_transform on "model" (KeyError if absent,
      TypeError on mixed labels), then the encoded features and the target. */
  function Prepare(t: Table): (r: Result<Prepared, Error>)
    ensures "model" !in t.columns ==> r == Failure(MissingColumn("model"))
    ensures "model" in t.columns && !Homogeneous(Labels(t.columns["model"])) ==>
              r == Failure(MixedLabels(Missing in Labels(t.columns["model"])))
    ensures "model" in t.columns && Homogeneous(Labels(t.columns["model"])) ==>
              && (!HasRawFeatures(t.columns.Keys) ==>
                    r == Failure(MissingColumns(Absent(FeatureNames, t.columns.Keys + {"model_encoded"}))))
              && (HasRawFeatures(t.columns.Keys) && "sales" !in t.columns ==> r == Failure(MissingColumn("sales")))
    ensures r.Success? <==>
              && "model" in t.columns && Homogeneous(Labels(t.columns["model"]))
              && HasRawFeatures(t.columns.Keys)
              && "sales" in t.columns
    ensures r.Success? ==>
              var model := t.columns["model"];
              && r.value.encoder.classes == Labels(model)
              && r.value.target == t.columns["sales"]
              && |r.value.features| == t.height
              && forall i :: 0 <= i < t.height ==>
                   && |r.value.features[i]| == 4
                   && (forall k :: 0 <= k < 3 ==> r.value.features[i][k] == t.columns[FeatureNames[k]][i])
                   && r.value.features[i][3] == Num(Code(r.value.encoder, model[i]))
  {
    if "model" !in t.columns then Failure(MissingColumn("model"))
    else
      var labels := Labels(t.columns["model"]);
      if !Homogeneous(labels) then Failure(MixedLabels(Missing in labels))
      else Encoded(t, Encoder(labels))
  }

  /** Rows with the same model name get the same code; rows with different names get different
      codes, and the codes respect the sort order of the names. */
  lemma PreparedCodes(t: Table, i: nat, j: nat)
    requires Prepare(t).Success?
    requires i < t.height && j < t.height
    ensures var p := Prepare(t).value;
            var model := t.columns["model"];
            && p.features[i][3].Num? && 0 <= p.features[i][3].n < |p.encoder.classes|
            && (p.features[i][3] == p.features[j][3] <==> model[i] == model[j])
            && (Less(model[i], model[j]) ==> p.features[i][3].n < p.features[j][3].n)
  {
    var p := Prepare(t).value;
    var model := t.columns["model"];
    CodeInRange(p.encoder, model[i]);
    if model[i] != model[j] {
      CodeInjective(p.encoder, model[i], model[j]);
    }
    if Less(model[i], model[j]) {
      CodeMonotone(p.encoder, model[i], model[j]);
    }
  }
}
