/**
 * The table passed to the helper, seen only through what the helper asks of it:
 * its column names in order, whether each column has a numeric dtype, and how many
 * distinct values each column holds.
 */
module Tables {

  datatype Option<T> = None | Some(value: T)

  datatype Column = Column(name: string, isNumeric: bool, distinctCount: nat)

  /** A DataFrame: its columns in table order. */
  type Table = seq<Column>

  /** What the caller may pass as `data`. */
  datatype Data =
    | NoneValue
    | SeriesValue                 // a single named column
    | DataFrameValue(table: Table)
    | OtherValue                  // anything else

  /** `data.columns` */
  function Names(t: Table): (r: seq<string>)
    ensures |r| == |t|
    ensures forall i :: 0 <= i < |t| ==> r[i] == t[i].name
  {
    if t == [] then [] else [t[0].name] + Names(t[1..])
  }

  /** Column `i` is the first one called `name`. */
  predicate FirstWith(t: Table, name: string, i: int)
  {
    0 <= i < |t| && t[i].name == name && forall j :: 0 <= j < i ==> t[j].name != name
  }

  /** `data[f]`: the first column called `name`, if any. */
  function Find(t: Table, name: string): (r: Option<Column>)
    ensures r.Some? <==> name in Names(t)
    ensures r.Some? ==> r.value in t && r.value.name == name
  {
    if t == [] then None
    else if t[0].name == name then Some(t[0])
    else
      assert Names(t) == [t[0].name] + Names(t[1..]);
      Find(t[1..], name)
  }

  /** The column `Find` returns is the first one with that name. */
  lemma {:induction false} FindFirst(t: Table, name: string)
    ensures forall i :: FirstWith(t, name, i) ==> Find(t, name) == Some(t[i])
  {
    if t != [] && t[0].name != name {
      FindFirst(t[1..], name);
      forall i | FirstWith(t, name, i) ensures Find(t, name) == Some(t[i]) {
        assert FirstWith(t[1..], name, i - 1);
      }
    }
  }

  /** No two columns share a name. */
  predicate DistinctNames(t: Table)
  {
    forall i, j :: 0 <= i < j < |t| ==> t[i].name != t[j].name
  }

  /** With distinct names, looking a column up by its name finds that very column. */
  lemma {:induction false} FindColumn(t: Table, c: Column)
    requires DistinctNames(t) && c in t
    ensures Find(t, c.name) == Some(c)
  {
    if t[0] != c {
      assert t[0].name != c.name by {
        var j :| 0 <= j < |t| && t[j] == c;
      }
      FindColumn(t[1..], c);
    }
  }

  /** `pd.api.types.is_numeric_dtype(data[name])`: the flag of the first column so named. */
  predicate IsNumeric(t: Table, name: string)
    ensures name !in Names(t) ==> !IsNumeric(t, name)
    ensures forall i :: FirstWith(t, name, i) ==> (IsNumeric(t, name) <==> t[i].isNumeric)
  {
    FindFirst(t, name);
    match Find(t, name)
    case Some(c) => c.isNumeric
    case None => false
  }

  /** `len(data[name].unique())`: the count of the first column so named; 0 for an absent name. */
  function DistinctCount(t: Table, name: string): (r: nat)
    ensures name !in Names(t) ==> r == 0
    ensures forall i :: FirstWith(t, name, i) ==> r == t[i].distinctCount
  {
    FindFirst(t, name);
    match Find(t, name)
    case Some(c) => c.distinctCount
    case None => 0
  }
}
