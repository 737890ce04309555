/**
 * The data-preparation stage of the loan-default analysis: seven fixed
 * label-to-code tables applied to the categorical columns, coercion of a
 * fixed list of columns to numbers, and removal of the `LoanID` column.
 */
module LoanDefault {
  import opened Wrappers
  import opened Frames

  // ---------------------------------------------------------------------
  // The label -> code tables
  // ---------------------------------------------------------------------

  const EducationMapping: map<string, int> :=
    map["High School" := 1, "Bachelor's" := 2, "Master's" := 3, "PhD" := 4]

  const EmploymentTypeMapping: map<string, int> :=
    map["Unemployed" := 1, "Self-employed" := 2, "Part-time" := 3, "Full-time" := 4]

  const MaritalStatusMapping: map<string, int> :=
    map["Single" := 1, "Married" := 2, "Divorced" := 3]

  /** Note the order: "Yes" is 0 here, unlike the other two Yes/No tables. */
  const HasMortgageMapping: map<string, int> :=
    map["Yes" := 0, "No" := 1]

  const LoanPurposeMapping: map<string, int> :=
    map["Auto" := 1, "Business" := 2, "Education" := 3, "Home" := 4, "Other" := 5]

  const HasDependentsMapping: map<string, int> :=
    map["Yes" := 1, "No" := 0]

  const HasCoSignerMapping: map<string, int> :=
    map["Yes" := 1, "No" := 0]

  /** One `df[column] = df[column].map(mapping)` statement. */
  datatype Encoding = Encoding(column: string, mapping: map<string, int>)

  /** The seven encodings, in the order the script applies them. */
  const Encodings: seq<Encoding> := [
    Encoding("Education", EducationMapping),
    Encoding("EmploymentType", EmploymentTypeMapping),
    Encoding("MaritalStatus", MaritalStatusMapping),
    Encoding("HasMortgage", HasMortgageMapping),
    Encoding("LoanPurpose", LoanPurposeMapping),
    Encoding("HasDependents", HasDependentsMapping),
    Encoding("HasCoSigner", HasCoSignerMapping)
  ]

  /** The columns handed to `pd.to_numeric`. */
  const NumericColumns: seq<string> := [
    "Age", "Income", "LoanAmount", "CreditScore", "MonthsEmployed",
    "NumCreditLines", "InterestRate", "LoanTerm", "DTIRatio",
    "Education", "EmploymentType", "MaritalStatus", "HasMortgage",
    "HasDependents", "LoanPurpose", "HasCoSigner", "Default"
  ]

  /** The identifier column dropped at the end. */
  const IdColumn: string := "LoanID"

  ghost predicate Injective(m: map<string, int>) {
    forall a, b :: a in m && b in m && a != b ==> m[a] != m[b]
  }

  /** The codes of `m` are exactly the integers from `lo` to `hi`. */
  ghost predicate CodesAre(m: map<string, int>, lo: int, hi: int) {
    && (forall k :: lo <= k <= hi ==> k in m.Values)
    && (forall v :: v in m.Values ==> lo <= v <= hi)
  }

  /** The label a code stands for, when the table has one. */
  ghost function Decode(m: map<string, int>, code: int): (r: Option<string>)
    ensures r.Some? ==> r.value in m && m[r.value] == code
    ensures r.None? <==> code !in m.Values
  {
    if code in m.Values then Some(var l :| l in m && m[l] == code; l) else None
  }

  /** With an injective table, decoding the code of a known label gives the
      label back. */
  lemma DecodeEncode(m: map<string, int>, key: string)
    requires Injective(m) && key in m
    ensures EncodeCell(m, Str(key)).Int?
    ensures Decode(m, EncodeCell(m, Str(key)).i) == Some(key)
  {
    assert m[key] in m.Values;
  }

  /** With an injective table, two cells that encode to the same code held
      the same label. */
  lemma EncodeCellInjective(m: map<string, int>, c: Cell, d: Cell)
    requires Injective(m)
    requires EncodeCell(m, c).Int? && EncodeCell(m, c) == EncodeCell(m, d)
    ensures c == d
  {
  }

  lemma EducationTable()
    ensures EducationMapping.Keys == {"High School", "Bachelor's", "Master's", "PhD"}
    ensures Injective(EducationMapping)
    ensures CodesAre(EducationMapping, 1, 4)
  {
    assert EducationMapping["High School"] == 1 && EducationMapping["Bachelor's"] == 2;
    assert EducationMapping["Master's"] == 3 && EducationMapping["PhD"] == 4;
  }

  lemma EmploymentTypeTable()
    ensures EmploymentTypeMapping.Keys == {"Unemployed", "Self-employed", "Part-time", "Full-time"}
    ensures Injective(EmploymentTypeMapping)
    ensures CodesAre(EmploymentTypeMapping, 1, 4)
  {
    assert EmploymentTypeMapping["Unemployed"] == 1 && EmploymentTypeMapping["Self-employed"] == 2;
    assert EmploymentTypeMapping["Part-time"] == 3 && EmploymentTypeMapping["Full-time"] == 4;
  }

  lemma MaritalStatusTable()
    ensures MaritalStatusMapping.Keys == {"Single", "Married", "Divorced"}
    ensures Injective(MaritalStatusMapping)
    ensures CodesAre(MaritalStatusMapping, 1, 3)
  {
    assert MaritalStatusMapping["Single"] == 1 && MaritalStatusMapping["Married"] == 2;
    assert MaritalStatusMapping["Divorced"] == 3;
  }

  lemma LoanPurposeTable()
    ensures LoanPurposeMapping.Keys == {"Auto", "Business", "Education", "Home", "Other"}
    ensures Injective(LoanPurposeMapping)
    ensures CodesAre(LoanPurposeMapping, 1, 5)
  {
    assert LoanPurposeMapping["Auto"] == 1 && LoanPurposeMapping["Business"] == 2;
    assert LoanPurposeMapping["Education"] == 3 && LoanPurposeMapping["Home"] == 4;
    assert LoanPurposeMapping["Other"] == 5;
  }

  /** The three Yes/No tables use the codes {0, 1}, and `HasMortgage` has
      them the other way round from `HasDependents` and `HasCoSigner`. */
  lemma YesNoTables()
    ensures HasMortgageMapping.Keys == HasDependentsMapping.Keys == HasCoSignerMapping.Keys == {"Yes", "No"}
    ensures Injective(HasMortgageMapping) && Injective(HasDependentsMapping) && Injective(HasCoSignerMapping)
    ensures CodesAre(HasMortgageMapping, 0, 1) && CodesAre(HasDependentsMapping, 0, 1) && CodesAre(HasCoSignerMapping, 0, 1)
    ensures HasMortgageMapping["Yes"] == 0 && HasMortgageMapping["No"] == 1
    ensures HasDependentsMapping["Yes"] == 1 && HasDependentsMapping["No"] == 0
    ensures HasCoSignerMapping["Yes"] == 1 && HasCoSignerMapping["No"] == 0
  {
    assert HasMortgageMapping["Yes"] == 0 && HasMortgageMapping["No"] == 1;
    assert HasDependentsMapping["Yes"] == 1 && HasDependentsMapping["No"] == 0;
    assert HasCoSignerMapping["Yes"] == 1 && HasCoSignerMapping["No"] == 0;
  }

  // ---------------------------------------------------------------------
  // The sequence of encodings
  // ---------------------------------------------------------------------

  ghost function TargetColumns(encs: seq<Encoding>): set<string> {
    set e | e in encs :: e.column
  }

  ghost predicate DistinctTargets(encs: seq<Encoding>) {
    forall i, j :: 0 <= i < j < |encs| ==> encs[i].column != encs[j].column
  }

  /** The encodings applied one after the other; the first one whose column
      is absent raises, and the later ones are not run. */
  function EncodeAll(t: Table, encs: seq<Encoding>): (r: Result<Table, Error>)
    requires t.Valid()
    ensures r.Success? ==>
      && r.value.Valid()
      && r.value.columns == t.columns
      && r.value.rows == t.rows
      && r.value.data.Keys == t.data.Keys
    decreases |encs|
  {
    if encs == [] then Success(t)
    else
      var last := encs[|encs| - 1];
      match EncodeAll(t, encs[..|encs| - 1])
      case Failure(e) => Failure(e)
      case Success(u) => EncodeColumn(u, last.column, last.mapping)
  }

  /** The step from a prefix of the encodings to the next longer prefix. */
  lemma EncodeAllStep(t: Table, encs: seq<Encoding>, i: nat)
    requires t.Valid() && i < |encs|
    ensures EncodeAll(t, encs[..i + 1]) ==
      match EncodeAll(t, encs[..i])
      case Failure(e) => Failure(e)
      case Success(u) => EncodeColumn(u, encs[i].column, encs[i].mapping)
  {
    assert encs[..i + 1][..i] == encs[..i];
  }

  /** Once a prefix raises, the whole sequence raises the same error. */
  lemma {:induction false} EncodeAllPrefixFailure(t: Table, encs: seq<Encoding>, i: nat)
    requires t.Valid() && i <= |encs|
    requires EncodeAll(t, encs[..i]).Failure?
    ensures EncodeAll(t, encs) == EncodeAll(t, encs[..i])
    decreases |encs| - i
  {
    if i < |encs| {
      EncodeAllStep(t, encs, i);
      EncodeAllPrefixFailure(t, encs, i + 1);
    } else {
      assert encs[..i] == encs;
    }
  }

  /** The encodings raise exactly when one of their columns is absent. */
  lemma {:induction false} EncodeAllSucceeds(t: Table, encs: seq<Encoding>)
    requires t.Valid()
    ensures EncodeAll(t, encs).Success? <==> TargetColumns(encs) <= t.data.Keys
    decreases |encs|
  {
    if encs != [] {
      var init := encs[..|encs| - 1];
      var last := encs[|encs| - 1];
      EncodeAllSucceeds(t, init);
      assert encs == init + [last];
      assert TargetColumns(encs) == TargetColumns(init) + {last.column};
    }
  }

  /** No encoding of `encs` writes to column `c`. */
  ghost predicate Untouched(encs: seq<Encoding>, c: string) {
    forall k :: 0 <= k < |encs| ==> encs[k].column != c
  }

  /** A successful run is a successful run of all but the last encoding,
      followed by the last one. */
  lemma EncodeAllLast(t: Table, encs: seq<Encoding>)
    requires t.Valid() && encs != []
    requires EncodeAll(t, encs).Success?
    ensures EncodeAll(t, encs[..|encs| - 1]).Success?
    ensures EncodeAll(t, encs) ==
      EncodeColumn(EncodeAll(t, encs[..|encs| - 1]).value, encs[|encs| - 1].column, encs[|encs| - 1].mapping)
  {
  }

  /** A column that no encoding writes to is left as it was. */
  lemma {:induction false} EncodeAllUntouched(t: Table, encs: seq<Encoding>, c: string)
    requires t.Valid() && EncodeAll(t, encs).Success?
    requires c in t.data && Untouched(encs, c)
    ensures EncodeAll(t, encs).value.data[c] == t.data[c]
    decreases |encs|
  {
    if encs != [] {
      var n := |encs| - 1;
      EncodeAllLast(t, encs);
      assert Untouched(encs[..n], c) by {
        forall k | 0 <= k < n ensures encs[..n][k].column != c {
          assert encs[..n][k] == encs[k];
        }
      }
      EncodeAllUntouched(t, encs[..n], c);
      assert encs[n].column != c;
    }
  }

  /** When the encodings touch distinct columns, each target column ends up
      as the encoding of its original cells. */
  lemma {:induction false} EncodeAllTarget(t: Table, encs: seq<Encoding>, k: nat)
    requires t.Valid() && DistinctTargets(encs)
    requires EncodeAll(t, encs).Success?
    requires k < |encs|
    ensures encs[k].column in t.data
    ensures EncodeAll(t, encs).value.data[encs[k].column] == EncodeSeq(encs[k].mapping, t.data[encs[k].column])
    decreases |encs|
  {
    var n := |encs| - 1;
    var init := encs[..n];
    EncodeAllLast(t, encs);
    if k < n {
      var u := EncodeAll(t, init).value;
      DistinctInit(encs);
      assert init[k] == encs[k];
      EncodeAllTarget(t, init, k);
      EncodeColumnOther(u, encs[n].column, encs[n].mapping, encs[k].column);
    } else {
      EncodeAllTargetLast(t, encs);
    }
  }

  /** The last encoding's column: no earlier encoding touched it. */
  lemma EncodeAllTargetLast(t: Table, encs: seq<Encoding>)
    requires t.Valid() && DistinctTargets(encs)
    requires EncodeAll(t, encs).Success? && encs != []
    ensures encs[|encs| - 1].column in t.data
    ensures EncodeAll(t, encs).value.data[encs[|encs| - 1].column] ==
      EncodeSeq(encs[|encs| - 1].mapping, t.data[encs[|encs| - 1].column])
  {
    var n := |encs| - 1;
    EncodeAllLast(t, encs);
    LastUntouched(encs);
    EncodeAllUntouched(t, encs[..n], encs[n].column);
  }

  /** Encoding one column leaves every other column as it was. */
  lemma EncodeColumnOther(u: Table, name: string, mapping: map<string, int>, c: string)
    requires u.Valid() && name in u.data && c in u.data && c != name
    ensures EncodeColumn(u, name, mapping).value.data[c] == u.data[c]
  {
  }

  /** Dropping the last encoding keeps the targets distinct. */
  lemma DistinctInit(encs: seq<Encoding>)
    requires DistinctTargets(encs) && encs != []
    ensures DistinctTargets(encs[..|encs| - 1])
  {
    var n := |encs| - 1;
    forall i, j | 0 <= i < j < n ensures encs[..n][i].column != encs[..n][j].column {
      assert encs[..n][i] == encs[i] && encs[..n][j] == encs[j];
    }
  }

  /** The last target is not among the other ones. */
  lemma LastUntouched(encs: seq<Encoding>)
    requires DistinctTargets(encs) && encs != []
    ensures Untouched(encs[..|encs| - 1], encs[|encs| - 1].column)
  {
    var n := |encs| - 1;
    forall i | 0 <= i < n ensures encs[..n][i].column != encs[n].column {
      assert encs[..n][i] == encs[i];
    }
  }

  /** The encodings touch distinct columns, so the order of applying them
      does not matter: any two orderings succeed together and then give the
      same table. (Which KeyError is raised does depend on the order.) */
  lemma {:induction false} EncodeOrderIrrelevant(t: Table, a: seq<Encoding>, b: seq<Encoding>)
    requires t.Valid() && DistinctTargets(a) && DistinctTargets(b)
    requires forall e :: e in a <==> e in b
    ensures EncodeAll(t, a).Success? <==> EncodeAll(t, b).Success?
    ensures EncodeAll(t, a).Success? ==> EncodeAll(t, a) == EncodeAll(t, b)
  {
    assert TargetColumns(a) == TargetColumns(b) by {
      SameTargets(a, b);
      SameTargets(b, a);
    }
    EncodeAllSucceeds(t, a);
    EncodeAllSucceeds(t, b);
    if EncodeAll(t, a).Success? {
      var ra := EncodeAll(t, a).value;
      var rb := EncodeAll(t, b).value;
      forall c | c in t.data ensures ra.data[c] == rb.data[c] {
        if i :| 0 <= i < |a| && a[i].column == c {
          assert a[i] in b;
          var j :| 0 <= j < |b| && b[j] == a[i];
          EncodeAllTarget(t, a, i);
          EncodeAllTarget(t, b, j);
        } else {
          assert Untouched(a, c);
          assert Untouched(b, c) by {
            forall j | 0 <= j < |b| ensures b[j].column != c {
              assert b[j] in a;
            }
          }
          EncodeAllUntouched(t, a, c);
          EncodeAllUntouched(t, b, c);
        }
      }
      assert ra.data == rb.data;
      assert ra == rb;
    }
  }

  lemma {:induction false} SameTargets(a: seq<Encoding>, b: seq<Encoding>)
    requires forall e :: e in a ==> e in b
    ensures TargetColumns(a) <= TargetColumns(b)
  {
    forall c | c in TargetColumns(a) ensures c in TargetColumns(b) {
      var e :| e in a && e.column == c;
      assert e in b;
    }
  }

  /** With distinct targets, no encoding occurs twice. */
  lemma {:induction false} CountDistinct(a: seq<Encoding>, x: Encoding)
    requires DistinctTargets(a)
    ensures multiset(a)[x] <= 1
  {
    if a != [] {
      assert a == [a[0]] + a[1..];
      assert DistinctTargets(a[1..]) by {
        forall i, j | 0 <= i < j < |a| - 1 ensures a[1..][i].column != a[1..][j].column {
          assert a[1..][i] == a[i + 1] && a[1..][j] == a[j + 1];
        }
      }
      CountDistinct(a[1..], x);
      forall j | 0 <= j < |a| - 1 ensures a[1..][j] != a[0] {
        assert a[1..][j] == a[j + 1];
      }
      assert a[0] !in a[1..];
    }
  }

  /** An encoding found at two positions occurs at least twice. */
  lemma CountTwice(b: seq<Encoding>, i: nat, j: nat)
    requires i < j < |b|
    ensures b[i] == b[j] ==> multiset(b)[b[i]] >= 2
  {
    assert b == b[..j] + [b[j]] + b[j + 1..];
    assert b[..j][i] == b[i];
  }

  /** A reordering of encodings with distinct targets has distinct targets. */
  lemma PermutedDistinct(a: seq<Encoding>, b: seq<Encoding>)
    requires DistinctTargets(a) && multiset(a) == multiset(b)
    ensures DistinctTargets(b)
  {
    forall i, j | 0 <= i < j < |b| ensures b[i].column != b[j].column {
      assert b[i] in multiset(a) && b[j] in multiset(a);
      var p :| 0 <= p < |a| && a[p] == b[i];
      var q :| 0 <= q < |a| && a[q] == b[j];
      assert b[i].column == b[j].column ==> p == q;
      CountTwice(b, i, j);
      CountDistinct(a, b[i]);
    }
  }

  /** The seven encodings rewrite seven different columns. */
  lemma EncodingsDistinct()
    ensures DistinctTargets(Encodings)
  {
    EncodingsAt();
  }

  /** The script's seven statements can be run in any order: every
      reordering succeeds exactly when the script's order does, and then
      leaves the same table. */
  lemma EncodingsAnyOrder(t: Table, b: seq<Encoding>)
    requires t.Valid() && multiset(b) == multiset(Encodings)
    ensures EncodeAll(t, b).Success? <==> EncodeAll(t, Encodings).Success?
    ensures EncodeAll(t, b).Success? ==> EncodeAll(t, b) == EncodeAll(t, Encodings)
  {
    EncodingsDistinct();
    PermutedDistinct(Encodings, b);
    forall e ensures e in Encodings <==> e in b {
      assert e in multiset(Encodings) <==> e in multiset(b);
    }
    EncodeOrderIrrelevant(t, Encodings, b);
  }

  /** The columns the seven encodings rewrite. */
  lemma EncodingTargets()
    ensures TargetColumns(Encodings) ==
      {"Education", "EmploymentType", "MaritalStatus", "HasMortgage", "LoanPurpose", "HasDependents", "HasCoSigner"}
  {
    EncodingsAt();
  }

  /** Every encoded column is also in the list handed to `pd.to_numeric`. */
  lemma TargetsNumeric()
    ensures forall e :: e in Encodings ==> e.column in NumericColumns
  {
    EncodingsAt();
    assert NumericColumns[9..16] ==
      ["Education", "EmploymentType", "MaritalStatus", "HasMortgage", "HasDependents", "LoanPurpose", "HasCoSigner"];
  }

  /** The identifier column is not coerced. */
  lemma IdNotNumeric()
    ensures IdColumn !in NumericColumns
  {
  }

  // ---------------------------------------------------------------------
  // The whole preparation
  // ---------------------------------------------------------------------

  /** The configuration is usable: the encodings touch distinct columns,
      each of them is later coerced, and the identifier is not coerced. */
  ghost predicate WellFormed(encs: seq<Encoding>, numeric: seq<string>, id: string) {
    && DistinctTargets(encs)
    && (forall e :: e in encs ==> e.column in numeric)
    && id !in numeric
  }

  /** Encode, coerce, drop the identifier, for a given configuration; the
      first step that raises ends the run with its error. */
  function PrepareWith(t: Table, encs: seq<Encoding>, numeric: seq<string>, id: string, parse: string -> Cell)
    : (r: Result<Table, Error>)
    requires t.Valid()
    ensures r.Success? ==>
      && r.value.Valid()
      && r.value.rows == t.rows
      && r.value.columns == Remove(t.columns, id)
      && r.value.data.Keys == t.data.Keys - {id}
  {
    match EncodeAll(t, encs)
    case Failure(e) => Failure(e)
    case Success(u) =>
      match CoerceColumns(u, numeric, parse)
      case Failure(e) => Failure(e)
      case Success(v) =>
        DropColumn(v, id)
  }

  lemma {:induction false} PrepareWithSucceeds(t: Table, encs: seq<Encoding>, numeric: seq<string>, id: string, parse: string -> Cell)
    requires t.Valid()
    requires forall e :: e in encs ==> e.column in numeric
    ensures PrepareWith(t, encs, numeric, id, parse).Success? <==>
      (forall n :: n in numeric ==> n in t.data) && id in t.data
  {
    EncodeAllSucceeds(t, encs);
    if forall n :: n in numeric ==> n in t.data {
      forall c | c in TargetColumns(encs) ensures c in t.data.Keys {
        var e :| e in encs && e.column == c;
      }
    }
  }

  lemma {:induction false} PrepareWithCategorical(t: Table, encs: seq<Encoding>, numeric: seq<string>, id: string, parse: string -> Cell, k: nat)
    requires t.Valid() && WellFormed(encs, numeric, id)
    requires PrepareWith(t, encs, numeric, id, parse).Success?
    requires k < |encs|
    ensures encs[k].column in t.data && encs[k].column in PrepareWith(t, encs, numeric, id, parse).value.data
    ensures PrepareWith(t, encs, numeric, id, parse).value.data[encs[k].column] ==
      EncodeSeq(encs[k].mapping, t.data[encs[k].column])
  {
    EncodeAllTarget(t, encs, k);
    var u := EncodeAll(t, encs).value;
    var v := CoerceColumns(u, numeric, parse).value;
    var c := encs[k].column;
    assert encs[k] in encs;
    assert c != id;
    CoerceKeepsNumericColumn(u, numeric, parse, c);
    assert PrepareWith(t, encs, numeric, id, parse) == DropColumn(v, id);
  }

  lemma {:induction false} PrepareWithOther(t: Table, encs: seq<Encoding>, numeric: seq<string>, id: string, parse: string -> Cell, c: string)
    requires t.Valid() && WellFormed(encs, numeric, id)
    requires PrepareWith(t, encs, numeric, id, parse).Success?
    requires c in t.data && c != id && c !in TargetColumns(encs)
    ensures c in numeric ==> PrepareWith(t, encs, numeric, id, parse).value.data[c] == CoerceSeq(parse, t.data[c])
    ensures c !in numeric ==> PrepareWith(t, encs, numeric, id, parse).value.data[c] == t.data[c]
  {
    assert Untouched(encs, c) by {
      forall k | 0 <= k < |encs| ensures encs[k].column != c {
        assert encs[k] in encs;
      }
    }
    EncodeAllUntouched(t, encs, c);
    var u := EncodeAll(t, encs).value;
    var v := CoerceColumns(u, numeric, parse).value;
    assert PrepareWith(t, encs, numeric, id, parse) == DropColumn(v, id);
  }

  lemma {:induction false} PrepareWithNumeric(t: Table, encs: seq<Encoding>, numeric: seq<string>, id: string, parse: string -> Cell, c: string)
    requires t.Valid() && WellFormed(encs, numeric, id)
    requires PrepareWith(t, encs, numeric, id, parse).Success?
    requires c in numeric
    ensures c in PrepareWith(t, encs, numeric, id, parse).value.data
    ensures forall k :: 0 <= k < |PrepareWith(t, encs, numeric, id, parse).value.data[c]| ==>
      IsNumber(PrepareWith(t, encs, numeric, id, parse).value.data[c][k]) ||
      PrepareWith(t, encs, numeric, id, parse).value.data[c][k].Missing?
  {
    var u := EncodeAll(t, encs).value;
    var v := CoerceColumns(u, numeric, parse).value;
    assert PrepareWith(t, encs, numeric, id, parse) == DropColumn(v, id);
  }

  /** Lines 14-71 of the script as one transformation. */
  function Prepare(t: Table, parse: string -> Cell): (r: Result<Table, Error>)
    requires t.Valid()
    ensures r.Success? ==>
      && r.value.Valid()
      && r.value.rows == t.rows
      && r.value.columns == Remove(t.columns, IdColumn)
      && IdColumn !in r.value.data
  {
    PrepareWith(t, Encodings, NumericColumns, IdColumn, parse)
  }

  lemma ConfigWellFormed()
    ensures WellFormed(Encodings, NumericColumns, IdColumn)
  {
    EncodingsDistinct();
    TargetsNumeric();
    IdNotNumeric();
  }

  /** The columns the preparation needs. */
  ghost predicate HasRequiredColumns(t: Table) {
    (forall n :: n in NumericColumns ==> n in t.data) && IdColumn in t.data
  }

  /** The preparation raises KeyError exactly when a required column is absent. */
  lemma {:induction false} PrepareSucceeds(t: Table, parse: string -> Cell)
    requires t.Valid()
    ensures Prepare(t, parse).Success? <==> HasRequiredColumns(t)
  {
    ConfigWellFormed();
    PrepareWithSucceeds(t, Encodings, NumericColumns, IdColumn, parse);
  }

  /** After preparation each categorical column holds exactly the encoding
      of its original labels; coercion leaves those codes alone. */
  lemma {:induction false} PrepareCategorical(t: Table, parse: string -> Cell, k: nat)
    requires t.Valid()
    requires HasRequiredColumns(t)
    requires k < |Encodings|
    ensures Prepare(t, parse).Success?
    ensures Encodings[k].column in t.data && Encodings[k].column in Prepare(t, parse).value.data
    ensures Prepare(t, parse).value.data[Encodings[k].column] == EncodeSeq(Encodings[k].mapping, t.data[Encodings[k].column])
  {
    PrepareSucceeds(t, parse);
    ConfigWellFormed();
    PrepareWithCategorical(t, Encodings, NumericColumns, IdColumn, parse, k);
  }

  /** The other listed columns are coerced from their original cells, and
      every column that is neither listed nor the identifier is unchanged. */
  lemma {:induction false} PrepareOtherColumns(t: Table, parse: string -> Cell, c: string)
    requires t.Valid()
    requires HasRequiredColumns(t)
    requires c in t.data && c != IdColumn && c !in TargetColumns(Encodings)
    ensures Prepare(t, parse).Success?
    ensures c in NumericColumns ==> Prepare(t, parse).value.data[c] == CoerceSeq(parse, t.data[c])
    ensures c !in NumericColumns ==> Prepare(t, parse).value.data[c] == t.data[c]
  {
    PrepareSucceeds(t, parse);
    ConfigWellFormed();
    PrepareWithOther(t, Encodings, NumericColumns, IdColumn, parse, c);
  }

  /** After preparation every listed column holds only numbers and NaN. */
  lemma {:induction false} PrepareNumeric(t: Table, parse: string -> Cell, c: string)
    requires t.Valid()
    requires HasRequiredColumns(t)
    requires c in NumericColumns
    ensures Prepare(t, parse).Success?
    ensures c in Prepare(t, parse).value.data
    ensures forall k :: 0 <= k < |Prepare(t, parse).value.data[c]| ==>
      IsNumber(Prepare(t, parse).value.data[c][k]) || Prepare(t, parse).value.data[c][k].Missing?
  {
    PrepareSucceeds(t, parse);
    ConfigWellFormed();
    PrepareWithNumeric(t, Encodings, NumericColumns, IdColumn, parse, c);
  }

  /** Every `Education` cell ends up as a code 1..4 or NaN; an unknown
      label such as "Associate" becomes NaN rather than raising. */
  lemma {:induction false} EducationCodes(t: Table, parse: string -> Cell, k: nat)
    requires t.Valid()
    requires HasRequiredColumns(t)
    requires k < t.rows
    ensures Prepare(t, parse).Success?
    ensures "Education" in t.data && "Education" in Prepare(t, parse).value.data
    ensures var cell := Prepare(t, parse).value.data["Education"][k];
      cell.Missing? || (cell.Int? && 1 <= cell.i <= 4)
    ensures t.data["Education"][k] == Str("Associate") ==> Prepare(t, parse).value.data["Education"][k] == Missing
  {
    PrepareCategorical(t, parse, 0);
    EducationFirst();
    EducationCell(t.data["Education"][k]);
  }

  /** The first encoding is the `Education` one. */
  lemma EducationFirst()
    ensures Encodings[0] == Encoding("Education", EducationMapping)
  {
  }

  /** One `Education` cell encodes to a code 1..4 or NaN, and "Associate",
      not one of the four levels, encodes to NaN. */
  lemma EducationCell(c: Cell)
    ensures var r := EncodeCell(EducationMapping, c); r.Missing? || (r.Int? && 1 <= r.i <= 4)
    ensures c == Str("Associate") ==> EncodeCell(EducationMapping, c) == Missing
  {
    EducationTable();
    UnknownEducation();
  }

  /** "Associate" is not one of the four education levels, so it encodes
      to NaN. */
  lemma UnknownEducation()
    ensures EncodeCell(EducationMapping, Str("Associate")) == Missing
  {
  }

  /** The seven labels of the worked example and their codes. */
  lemma ExampleLabelCodes()
    ensures EncodeCell(EducationMapping, Str("PhD")) == Int(4)
    ensures EncodeCell(EmploymentTypeMapping, Str("Full-time")) == Int(4)
    ensures EncodeCell(MaritalStatusMapping, Str("Divorced")) == Int(3)
    ensures EncodeCell(HasMortgageMapping, Str("No")) == Int(1)
    ensures EncodeCell(LoanPurposeMapping, Str("Home")) == Int(4)
    ensures EncodeCell(HasDependentsMapping, Str("Yes")) == Int(1)
    ensures EncodeCell(HasCoSignerMapping, Str("No")) == Int(0)
  {
  }

  /** A record with the labels PhD / Full-time / Divorced / No / Home /
      Yes / No encodes to 4, 4, 3, 1, 4, 1, 0, whatever else the table
      holds and whatever the number parser does. */
  lemma {:induction false} WorkedExample(t: Table, parse: string -> Cell, r: nat)
    requires t.Valid() && HasRequiredColumns(t) && r < t.rows
    requires "Education" in t.data && t.data["Education"][r] == Str("PhD")
    requires "EmploymentType" in t.data && t.data["EmploymentType"][r] == Str("Full-time")
    requires "MaritalStatus" in t.data && t.data["MaritalStatus"][r] == Str("Divorced")
    requires "HasMortgage" in t.data && t.data["HasMortgage"][r] == Str("No")
    requires "LoanPurpose" in t.data && t.data["LoanPurpose"][r] == Str("Home")
    requires "HasDependents" in t.data && t.data["HasDependents"][r] == Str("Yes")
    requires "HasCoSigner" in t.data && t.data["HasCoSigner"][r] == Str("No")
    ensures Prepare(t, parse).Success?
    ensures var d := Prepare(t, parse).value.data;
      && "Education" in d && d["Education"][r] == Int(4)
      && "EmploymentType" in d && d["EmploymentType"][r] == Int(4)
      && "MaritalStatus" in d && d["MaritalStatus"][r] == Int(3)
      && "HasMortgage" in d && d["HasMortgage"][r] == Int(1)
      && "LoanPurpose" in d && d["LoanPurpose"][r] == Int(4)
      && "HasDependents" in d && d["HasDependents"][r] == Int(1)
      && "HasCoSigner" in d && d["HasCoSigner"][r] == Int(0)
  {
    ExampleLabelCodes();
    PrepareCategorical(t, parse, 0);
    PrepareCategorical(t, parse, 1);
    PrepareCategorical(t, parse, 2);
    PrepareCategorical(t, parse, 3);
    PrepareCategorical(t, parse, 4);
    PrepareCategorical(t, parse, 5);
    PrepareCategorical(t, parse, 6);
  }

  // ---------------------------------------------------------------------
  // The script itself, statement by statement on one DataFrame
  // ---------------------------------------------------------------------

  /** The positions of the seven encodings in `Encodings`. */
  lemma EncodingsAt()
    ensures |Encodings| == 7
    ensures Encodings[0] == Encoding("Education", EducationMapping)
    ensures Encodings[1] == Encoding("EmploymentType", EmploymentTypeMapping)
    ensures Encodings[2] == Encoding("MaritalStatus", MaritalStatusMapping)
    ensures Encodings[3] == Encoding("HasMortgage", HasMortgageMapping)
    ensures Encodings[4] == Encoding("LoanPurpose", LoanPurposeMapping)
    ensures Encodings[5] == Encoding("HasDependents", HasDependentsMapping)
    ensures Encodings[6] == Encoding("HasCoSigner", HasCoSignerMapping)
  {
  }

  /** No encoding has run yet. */
  lemma EncodingsStart(t: Table)
    requires t.Valid()
    ensures EncodeAll(t, Encodings[..0]) == Success(t)
  {
    assert Encodings[..0] == [];
  }

  /** All seven encodings have run. */
  lemma EncodingsEnd(t: Table)
    requires t.Valid()
    ensures |Encodings| == 7 && EncodeAll(t, Encodings[..7]) == EncodeAll(t, Encodings)
  {
    assert Encodings[..7] == Encodings;
  }

  /** One more encoding on top of a successful prefix: the result of the
      next reassignment is the result of the longer prefix, and if that
      reassignment raises, the whole sequence raises the same error. */
  lemma EncodeAllAdvance(t: Table, encs: seq<Encoding>, i: nat, u: Table)
    requires t.Valid() && i < |encs| && EncodeAll(t, encs[..i]) == Success(u)
    ensures u.Valid()
    ensures EncodeAll(t, encs[..i + 1]) == EncodeColumn(u, encs[i].column, encs[i].mapping)
    ensures EncodeColumn(u, encs[i].column, encs[i].mapping).Failure? ==>
      EncodeAll(t, encs) == EncodeColumn(u, encs[i].column, encs[i].mapping)
  {
    EncodeAllStep(t, encs, i);
    if EncodeColumn(u, encs[i].column, encs[i].mapping).Failure? {
      EncodeAllPrefixFailure(t, encs, i + 1);
    }
  }

  /** `df` holds what the first `i` encodings make of the loaded table `t`. */
  ghost predicate Reached(df: DataFrame, t: Table, i: nat)
    reads df
  {
    t.Valid() && df.Valid() && i <= |Encodings| && EncodeAll(t, Encodings[..i]) == Success(df.Value())
  }

  /** `err` is the error the encodings raise on the loaded table `t`. */
  ghost predicate Raised(t: Table, err: Option<Error>) {
    t.Valid() && EncodeAll(t, Encodings).Failure? && err == Some(EncodeAll(t, Encodings).error)
  }

  /** A run of the encodings on the loaded table `t` raised `e` at the
      `i`-th statement, for some `i`: the first `i` succeeded and left `u`,
      and the `i`-th found its column absent in `u`. */
  ghost predicate StoppedAt(t: Table, u: Table, e: Error) {
    && t.Valid()
    && exists i ::
         && 0 <= i < |Encodings|
         && EncodeAll(t, Encodings[..i]) == Success(u)
         && EncodeColumn(u, Encodings[i].column, Encodings[i].mapping) == Failure(e)
  }

  /** Once the `i`-th encoding has raised, every longer prefix raises. */
  lemma PrefixFailsAfter(t: Table, i: nat, j: nat)
    requires t.Valid() && i < |Encodings| && j <= |Encodings|
    requires EncodeAll(t, Encodings[..i + 1]).Failure?
    ensures i < j ==> EncodeAll(t, Encodings[..j]).Failure?
  {
    if i < j {
      assert Encodings[..j][..i + 1] == Encodings[..i + 1];
      EncodeAllPrefixFailure(t, Encodings[..j], i + 1);
    }
  }

  /** Only one statement can be the one that raised: the error and the
      state it leaves behind are determined by the loaded table. */
  lemma StoppedAtDetermined(t: Table, u1: Table, e1: Error, u2: Table, e2: Error)
    requires StoppedAt(t, u1, e1) && StoppedAt(t, u2, e2)
    ensures u1 == u2 && e1 == e2
  {
    var i :| 0 <= i < |Encodings| && EncodeAll(t, Encodings[..i]) == Success(u1) &&
      EncodeColumn(u1, Encodings[i].column, Encodings[i].mapping) == Failure(e1);
    var j :| 0 <= j < |Encodings| && EncodeAll(t, Encodings[..j]) == Success(u2) &&
      EncodeColumn(u2, Encodings[j].column, Encodings[j].mapping) == Failure(e2);
    EncodeAllStep(t, Encodings, i);
    EncodeAllStep(t, Encodings, j);
    PrefixFailsAfter(t, i, j);
    PrefixFailsAfter(t, j, i);
  }

  /** One `df[name] = df[name].map(mapping)` statement of the script, the
      `i`-th of the encodings, run after the first `i` of them succeeded on
      the table `t` that was loaded. */
  method MapNext(df: DataFrame, name: string, mapping: map<string, int>, ghost t: Table, ghost i: nat)
    returns (err: Option<Error>)
    requires Reached(df, t, i) && i < |Encodings| && Encodings[i] == Encoding(name, mapping)
    modifies df
    ensures df.Valid() && df.rows == old(df.rows)
    ensures err.None? ==> Reached(df, t, i + 1)
    ensures err.Some? ==> Raised(t, err) && StoppedAt(t, df.Value(), err.value)
    ensures err.Some? ==>
      df.Value() == old(df.Value()) && EncodeColumn(old(df.Value()), name, mapping) == Failure(err.value)
  {
    err := df.MapColumn(name, mapping);
    EncodeAllAdvance(t, Encodings, i, old(df.Value()));
  }

  /** The last of the seven statements; once it succeeds, all encodings
      have been applied. */
  method MapLast(df: DataFrame, name: string, mapping: map<string, int>, ghost t: Table)
    returns (err: Option<Error>)
    requires Reached(df, t, 6) && |Encodings| == 7 && Encodings[6] == Encoding(name, mapping)
    modifies df
    ensures df.Valid() && df.rows == old(df.rows)
    ensures err.None? ==> EncodeAll(t, Encodings) == Success(df.Value())
    ensures err.Some? ==> Raised(t, err) && StoppedAt(t, df.Value(), err.value)
    ensures err.Some? ==>
      df.Value() == old(df.Value()) && EncodeColumn(old(df.Value()), name, mapping) == Failure(err.value)
  {
    err := MapNext(df, name, mapping, t, 6);
    EncodingsEnd(t);
  }

  /** Lines 14-43 run against the single `df`: the seven column
      reassignments, one after the other. A statement that raises stops the
      script, so the later ones do not run; the earlier assignments stay in
      place. */
  method EncodeCategoricals(df: DataFrame) returns (err: Option<Error>)
    requires df.Valid()
    modifies df
    ensures df.Valid() && df.rows == old(df.rows)
    ensures err.None? ==> EncodeAll(old(df.Value()), Encodings) == Success(df.Value())
    ensures err.Some? ==>
      && EncodeAll(old(df.Value()), Encodings).Failure?
      && err == Some(EncodeAll(old(df.Value()), Encodings).error)
      && StoppedAt(old(df.Value()), df.Value(), err.value)
  {
    ghost var t := df.Value();
    EncodingsStart(t);
    EncodingsAt();
    err := MapNext(df, "Education", EducationMapping, t, 0);
    if err.None? { err := MapNext(df, "EmploymentType", EmploymentTypeMapping, t, 1); }
    if err.None? { err := MapNext(df, "MaritalStatus", MaritalStatusMapping, t, 2); }
    if err.None? { err := MapNext(df, "HasMortgage", HasMortgageMapping, t, 3); }
    if err.None? { err := MapNext(df, "LoanPurpose", LoanPurposeMapping, t, 4); }
    if err.None? { err := MapNext(df, "HasDependents", HasDependentsMapping, t, 5); }
    if err.None? { err := MapLast(df, "HasCoSigner", HasCoSignerMapping, t); }
  }

  /** A run of lines 14-71 on `t` raised `e` and left `u`: one of the
      encodings raised, with the earlier ones applied; or the coercion
      raised, with all encodings applied; or the drop raised, with the
      encodings and the coercion applied. */
  ghost predicate Stopped(t: Table, u: Table, e: Error, parse: string -> Cell) {
    || StoppedAt(t, u, e)
    || (t.Valid() && EncodeAll(t, Encodings) == Success(u) &&
        CoerceColumns(u, NumericColumns, parse) == Failure(e))
    || (t.Valid() && EncodeAll(t, Encodings).Success? &&
        CoerceColumns(EncodeAll(t, Encodings).value, NumericColumns, parse) == Success(u) &&
        DropColumn(u, IdColumn) == Failure(e))
  }

  /** Lines 14-71 run against the single `df`: encode, coerce, drop. A
      statement that raises stops the script and leaves `df` as the earlier
      statements made it. */
  method PrepareFrame(df: DataFrame, parse: string -> Cell) returns (err: Option<Error>)
    requires df.Valid()
    modifies df
    ensures df.Valid() && df.rows == old(df.rows)
    ensures var r := Prepare(old(df.Value()), parse);
      && (r.Success? ==> err == None && df.Value() == r.value)
      && (r.Failure? ==> err == Some(r.error) && Stopped(old(df.Value()), df.Value(), r.error, parse))
  {
    ghost var t := df.Value();
    err := EncodeCategoricals(df);
    if err.Some? { return; }

    err := df.ToNumeric(NumericColumns, parse);
    if err.Some? {
      EncodingsEnd(t);
      return;
    }

    err := df.Drop(IdColumn);
  }
}
