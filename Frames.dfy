/**
 * The part of pandas DataFrame behaviour that the loan-default preparation
 * relies on: a table of named columns of equal length, element-wise
 * `Series.map(dict)`, `pd.to_numeric(..., errors="coerce")` over a block of
 * columns, and `DataFrame.drop(name, axis=1)`.
 */
module Frames {
  import opened Wrappers

  /** One cell of a table. `Int` is an integer and `Float` a float64
      value, kept as an exact real; the model keeps `Int(4)` and
      `Float(4.0)` apart, as the two dtypes are. `Missing` is pandas' NaN
      marker. */
  datatype Cell = Str(text: string) | Int(i: int) | Float(x: real) | Missing

  predicate IsNumber(c: Cell) {
    c.Int? || c.Float?
  }

  /** pandas raises KeyError, listing the labels it could not find. */
  datatype Error = KeyError(keys: seq<string>)

  type Column = seq<Cell>

  predicate Distinct(s: seq<string>) {
    forall i, j :: 0 <= i < j < |s| ==> s[i] != s[j]
  }

  /** A DataFrame as a value: column labels in order, the cells of each
      column, and the number of rows. */
  datatype Table = Table(columns: seq<string>, data: map<string, Column>, rows: nat) {
    /** Labels are unique, they are exactly the keys of `data`, and every
        column has one cell per row. */
    predicate Valid() {
      && Distinct(columns)
      && (forall c :: c in columns ==> c in data)
      && (forall c :: c in data ==> c in columns)
      && (forall c :: c in data ==> |data[c]| == rows)
    }
  }

  /** True when the two tables agree on every column except `name`. */
  predicate SameExcept(t: Table, u: Table, name: string) {
    forall c :: c in t.data && c != name ==> c in u.data && u.data[c] == t.data[c]
  }

  // ---------------------------------------------------------------------
  // Series.map(dict)
  // ---------------------------------------------------------------------

  /** A dict lookup applied to one cell: a string label present in the
      mapping becomes its code; every other cell (an unknown label, a
      number, NaN) becomes NaN. Never fails. */
  function EncodeCell(mapping: map<string, int>, c: Cell): (r: Cell)
    ensures r.Int? || r.Missing?
    ensures r.Int? ==> r.i in mapping.Values
    ensures r.Int? <==> c.Str? && c.text in mapping
    ensures c.Str? && c.text in mapping ==> r.i == mapping[c.text]
  {
    if c.Str? && c.text in mapping then Int(mapping[c.text]) else Missing
  }

  /** `Series.map(dict)`: the cell-wise encoding of a whole column. */
  function EncodeSeq(mapping: map<string, int>, col: Column): (r: Column)
    ensures |r| == |col|
    ensures forall k :: 0 <= k < |r| ==> r[k] == EncodeCell(mapping, col[k])
  {
    seq(|col|, k requires 0 <= k < |col| => EncodeCell(mapping, col[k]))
  }

  /** `df[name] = df[name].map(mapping)`. Reading the column raises
      KeyError when it is absent, and then nothing is assigned. */
  function EncodeColumn(t: Table, name: string, mapping: map<string, int>): (r: Result<Table, Error>)
    requires t.Valid()
    ensures r.Success? <==> name in t.data
    ensures r.Failure? ==> r.error == KeyError([name])
    ensures r.Success? ==>
      && r.value.Valid()
      && r.value.columns == t.columns
      && r.value.rows == t.rows
      && r.value.data.Keys == t.data.Keys
      && r.value.data[name] == EncodeSeq(mapping, t.data[name])
      && SameExcept(t, r.value, name)
  {
    if name !in t.data then Failure(KeyError([name]))
    else Success(t.(data := t.data[name := EncodeSeq(mapping, t.data[name])]))
  }

  // ---------------------------------------------------------------------
  // pd.to_numeric(..., errors="coerce")
  // ---------------------------------------------------------------------

  /** `pd.to_numeric` with `errors="coerce"` on one cell. Numbers and NaN
      are kept as they are; a string is handed to `parse`, which stands for
      pandas' number parser, and whatever it yields that is not a number
      becomes NaN. */
  function CoerceCell(parse: string -> Cell, c: Cell): (r: Cell)
    ensures IsNumber(r) || r.Missing?
    ensures !c.Str? ==> r == c
  {
    match c
    case Str(s) => if IsNumber(parse(s)) then parse(s) else Missing
    case _ => c
  }

  function CoerceSeq(parse: string -> Cell, col: Column): (r: Column)
    ensures |r| == |col|
    ensures forall k :: 0 <= k < |r| ==> r[k] == CoerceCell(parse, col[k])
  {
    seq(|col|, k requires 0 <= k < |col| => CoerceCell(parse, col[k]))
  }

  /** The labels of `names` that are not columns of `t`, each listed once
      even when `names` repeats it, in the order of their first occurrence,
      as pandas reports them. */
  function MissingKeys(t: Table, names: seq<string>): (r: seq<string>)
    ensures forall n :: n in r <==> n in names && n !in t.data
    ensures Distinct(r)
    ensures forall i, j :: 0 <= i < j < |r| ==> IndexOf(names, r[i]) < IndexOf(names, r[j])
    ensures |r| <= |names|
  {
    if names == [] then []
    else
      var init := names[..|names| - 1];
      var last := names[|names| - 1];
      assert names == init + [last];
      var m := MissingKeys(t, init);
      if last in t.data || last in m then m else m + [last]
  }

  /** `df[names] = df[names].apply(pd.to_numeric, errors="coerce")`.
      Selecting the block raises KeyError, listing every absent label,
      before anything is converted. */
  function CoerceColumns(t: Table, names: seq<string>, parse: string -> Cell): (r: Result<Table, Error>)
    requires t.Valid()
    ensures r.Success? <==> forall n :: n in names ==> n in t.data
    ensures r.Failure? ==> r.error.keys != [] && r.error == KeyError(MissingKeys(t, names))
    ensures r.Success? ==>
      && r.value.Valid()
      && r.value.columns == t.columns
      && r.value.rows == t.rows
      && r.value.data.Keys == t.data.Keys
      && (forall c :: c in t.data && c in names ==> r.value.data[c] == CoerceSeq(parse, t.data[c]))
      && (forall c :: c in t.data && c !in names ==> r.value.data[c] == t.data[c])
  {
    var missing := MissingKeys(t, names);
    if missing != [] then
      assert missing[0] in missing;
      Failure(KeyError(missing))
    else
      Success(t.(data := map c | c in t.data :: if c in names then CoerceSeq(parse, t.data[c]) else t.data[c]))
  }

  /** Converting an already converted column changes nothing. */
  lemma CoerceSeqIdempotent(parse: string -> Cell, col: Column)
    ensures CoerceSeq(parse, CoerceSeq(parse, col)) == CoerceSeq(parse, col)
  {
    var once := CoerceSeq(parse, col);
    var twice := CoerceSeq(parse, once);
    forall k | 0 <= k < |col| ensures twice[k] == once[k] {
      assert !once[k].Str?;
    }
  }

  /** Applying the coercion twice gives the same table as applying it once. */
  lemma CoerceColumnsIdempotent(t: Table, names: seq<string>, parse: string -> Cell)
    requires t.Valid()
    requires CoerceColumns(t, names, parse).Success?
    ensures CoerceColumns(CoerceColumns(t, names, parse).value, names, parse) == CoerceColumns(t, names, parse)
  {
    var once := CoerceColumns(t, names, parse).value;
    var twice := CoerceColumns(once, names, parse).value;
    forall c | c in once.data ensures twice.data[c] == once.data[c] {
      if c in names {
        CoerceSeqIdempotent(parse, t.data[c]);
      }
    }
    assert twice.data == once.data;
  }

  /** A listed column whose cells are all numbers or NaN comes out unchanged. */
  lemma CoerceKeepsNumericColumn(t: Table, names: seq<string>, parse: string -> Cell, c: string)
    requires t.Valid()
    requires CoerceColumns(t, names, parse).Success?
    requires c in t.data
    requires forall k :: 0 <= k < |t.data[c]| ==> IsNumber(t.data[c][k]) || t.data[c][k].Missing?
    ensures CoerceColumns(t, names, parse).value.data[c] == t.data[c]
  {
    if c in names {
      var col := CoerceColumns(t, names, parse).value.data[c];
      assert |col| == |t.data[c]|;
      forall k | 0 <= k < |col| ensures col[k] == t.data[c][k] {
        assert !t.data[c][k].Str?;
      }
    }
  }

  // ---------------------------------------------------------------------
  // DataFrame.drop(name, axis=1)
  // ---------------------------------------------------------------------

  /** The labels of `s` other than `x`, in their original order. */
  function Remove(s: seq<string>, x: string): (r: seq<string>)
    ensures forall y :: y in r <==> y in s && y != x
  {
    if s == [] then []
    else (if s[0] == x then [] else [s[0]]) + Remove(s[1..], x)
  }

  /** In a list without repetitions, removing a label that sits at index
      `k` removes exactly that one position and keeps the rest in order. */
  lemma {:induction false} RemoveAt(s: seq<string>, x: string, k: nat)
    requires Distinct(s)
    requires k < |s| && s[k] == x
    ensures Remove(s, x) == s[..k] + s[k + 1..]
  {
    if k == 0 {
      assert x !in s[1..];
      RemoveAbsent(s[1..], x);
    } else {
      RemoveAt(s[1..], x, k - 1);
      assert s[1..][..k - 1] == s[1..k];
      assert s[1..][k..] == s[k + 1..];
      assert [s[0]] + s[1..k] == s[..k];
    }
  }

  lemma {:induction false} RemoveAbsent(s: seq<string>, x: string)
    requires x !in s
    ensures Remove(s, x) == s
  {
    if s != [] {
      RemoveAbsent(s[1..], x);
    }
  }

  /** The position of a label that occurs in `s`. */
  function IndexOf(s: seq<string>, x: string): (k: nat)
    requires x in s
    ensures k < |s| && s[k] == x
    ensures forall j :: 0 <= j < k ==> s[j] != x
  {
    if s[0] == x then 0 else 1 + IndexOf(s[1..], x)
  }

  lemma DistinctWithout(s: seq<string>, k: nat)
    requires Distinct(s) && k < |s|
    ensures Distinct(s[..k] + s[k + 1..])
  {
    var r := s[..k] + s[k + 1..];
    forall i, j | 0 <= i < j < |r| ensures r[i] != r[j] {
      var i' := if i < k then i else i + 1;
      var j' := if j < k then j else j + 1;
      assert r[i] == s[i'] && r[j] == s[j'];
    }
  }

  /** `df.drop(name, axis=1)`: raises KeyError when the column is absent;
      otherwise removes exactly that column, keeping the row count and the
      order of the other columns. */
  function DropColumn(t: Table, name: string): (r: Result<Table, Error>)
    requires t.Valid()
    ensures r.Success? <==> name in t.data
    ensures r.Failure? ==> r.error == KeyError([name])
    ensures r.Success? ==>
      var k := IndexOf(t.columns, name);
      && r.value.Valid()
      && r.value.columns == t.columns[..k] + t.columns[k + 1..]
      && r.value.columns == Remove(t.columns, name)
      && |r.value.columns| == |t.columns| - 1
      && r.value.rows == t.rows
      && r.value.data.Keys == t.data.Keys - {name}
      && SameExcept(t, r.value, name)
  {
    if name !in t.data then Failure(KeyError([name]))
    else
      var k := IndexOf(t.columns, name);
      RemoveAt(t.columns, name, k);
      DropValid(t, name, k);
      Success(Table(Remove(t.columns, name), t.data - {name}, t.rows))
  }

  /** Dropping the same column a second time raises KeyError, as re-running
      the drop statement on an already dropped frame does. */
  lemma DropTwiceRaises(t: Table, name: string)
    requires t.Valid() && name in t.data
    ensures DropColumn(t, name).Success?
    ensures DropColumn(DropColumn(t, name).value, name) == Failure(KeyError([name]))
  {
  }

  /** Taking the label at `k` out of the order, and its column out of the
      data, leaves a valid table. */
  lemma DropValid(t: Table, name: string, k: nat)
    requires t.Valid() && k < |t.columns| && t.columns[k] == name
    ensures Table(t.columns[..k] + t.columns[k + 1..], t.data - {name}, t.rows).Valid()
  {
    var cs := t.columns[..k] + t.columns[k + 1..];
    DistinctWithout(t.columns, k);
    forall c | c in cs ensures c in t.data && c != name {
      var i :| 0 <= i < |cs| && cs[i] == c;
      SkipAt(t.columns, k, i);
    }
    forall c | c in t.data && c != name ensures c in cs {
      var j :| 0 <= j < |t.columns| && t.columns[j] == c;
      SkipAt(t.columns, k, if j < k then j else j - 1);
    }
  }

  /** Where the `i`-th label of the list without position `k` comes from. */
  lemma SkipAt(s: seq<string>, k: nat, i: nat)
    requires k < |s| && i < |s| - 1
    ensures (s[..k] + s[k + 1..])[i] == s[if i < k then i else i + 1]
  {
  }

  // ---------------------------------------------------------------------
  // The DataFrame object that the script updates in place
  // ---------------------------------------------------------------------

  /** The single `df` of the script. Each method performs one of the
      script's statements on it; a statement that raises leaves the
      object as it was. */
  class DataFrame {
    var columns: seq<string>
    var data: map<string, Column>
    var rows: nat

    function Value(): Table
      reads this
    {
      Table(columns, data, rows)
    }

    predicate Valid()
      reads this
    {
      Value().Valid()
    }

    /** The frame `pd.read_csv` produces; reading the file is not modelled. */
    constructor (t: Table)
      requires t.Valid()
      ensures Valid() && Value() == t
    {
      columns, data, rows := t.columns, t.data, t.rows;
    }

    /** `df[name] = df[name].map(mapping)`. */
    method MapColumn(name: string, mapping: map<string, int>) returns (err: Option<Error>)
      requires Valid()
      modifies this
      ensures Valid()
      ensures var r := EncodeColumn(old(Value()), name, mapping);
        && (r.Success? ==> err == None && Value() == r.value)
        && (r.Failure? ==> err == Some(r.error) && Value() == old(Value()))
    {
      if name !in data {
        return Some(KeyError([name]));
      }
      data := data[name := EncodeSeq(mapping, data[name])];
      err := None;
    }

    /** `df[names] = df[names].apply(pd.to_numeric, errors="coerce")`. */
    method ToNumeric(names: seq<string>, parse: string -> Cell) returns (err: Option<Error>)
      requires Valid()
      modifies this
      ensures Valid()
      ensures var r := CoerceColumns(old(Value()), names, parse);
        && (r.Success? ==> err == None && Value() == r.value)
        && (r.Failure? ==> err == Some(r.error) && Value() == old(Value()))
    {
      var missing := MissingKeys(Value(), names);
      if missing != [] {
        return Some(KeyError(missing));
      }
      data := map c | c in data :: if c in names then CoerceSeq(parse, data[c]) else data[c];
      err := None;
    }

    /** `df = df.drop(name, axis=1)`; the rebinding of `df` is modelled as
        an update of this object. */
    method Drop(name: string) returns (err: Option<Error>)
      requires Valid()
      modifies this
      ensures Valid()
      ensures var r := DropColumn(old(Value()), name);
        && (r.Success? ==> err == None && Value() == r.value)
        && (r.Failure? ==> err == Some(r.error) && Value() == old(Value()))
    {
      if name !in data {
        return Some(KeyError([name]));
      }
      RemoveAt(columns, name, IndexOf(columns, name));
      DistinctWithout(columns, IndexOf(columns, name));
      columns, data := Remove(columns, name), data - {name};
      err := None;
    }
  }
}
