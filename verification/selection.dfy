/**
 * `excluded_features`: which numeric columns to plot, given the optional
 * `include` and `exclude` lists and the `exclude_binary` flag.
 */
module Selection {
  import opened Errors
  import opened Seqs
  import opened Tables

  /** An `include` or `exclude` argument: None, a non-list value, or a list of names. */
  datatype Param = Absent | NotAList | List(names: seq<string>)

  /** Python truthiness of a parameter that passed validation: a non-empty list. */
  predicate Given(p: Param)
  {
    p.List? && p.names != []
  }

  /** The names a parameter lists, none when it is absent. */
  function Listed(p: Param): seq<string>
  {
    if p.List? then p.names else []
  }

  /** A parameter is acceptable when it is absent, or a list of names of the table. */
  predicate ParamOk(t: Table, p: Param)
  {
    !p.NotAList? && forall f :: f in Listed(p) ==> f in Names(t)
  }

  /** `[f for f in names if f not in data.columns]` */
  function Missing(t: Table, names: seq<string>): (r: seq<string>)
    ensures forall f :: f in r <==> f in names && f !in Names(t)
    ensures Subseq(r, names)
    ensures forall f :: multiset(r)[f] == if f !in Names(t) then multiset(names)[f] else 0
  {
    var absent := f => f !in Names(t);
    FilterIsSubseq(names, absent);
    FilterCounts(names, absent);
    Filter(names, absent)
  }

  /** The validation of one parameter; `notAList` is the error for a non-list value. */
  function CheckParam(t: Table, p: Param, notAList: Error): (r: Outcome)
    ensures r.Pass? <==> ParamOk(t, p)
    ensures p.NotAList? ==> r == Fail(notAList)
    ensures p.List? && r.Fail? ==>
      r.error.FeaturesNotFound? && Subseq(r.error.missing, p.names) &&
      forall f :: f in r.error.missing <==> f in p.names && f !in Names(t)
  {
    match p
    case Absent => Pass
    case NotAList => Fail(notAList)
    case List(names) =>
      var missing := Missing(t, names);
      if missing != [] then
        assert missing[0] in missing;
        Fail(FeaturesNotFound(missing))
      else Pass
  }

  /** `[f for f in data.columns if is_numerical(data[f])]` */
  function NumericColumns(t: Table): (r: seq<string>)
    ensures Subseq(r, Names(t))
    ensures forall f :: f in r <==> f in Names(t) && IsNumeric(t, f)
  {
    var numeric := f => IsNumeric(t, f);
    FilterIsSubseq(Names(t), numeric);
    Filter(Names(t), numeric)
  }

  /**
   * Step 1: the base candidate list. A non-empty `include` must be all numeric and
   * is then the base, in its own order; otherwise the base is every numeric column.
   */
  function BaseFeatures(t: Table, includes: Param): (r: Result<seq<string>>)
    ensures Given(includes) ==> (r.Ok? <==> forall f :: f in includes.names ==> IsNumeric(t, f))
    ensures Given(includes) && r.Ok? ==> r.value == includes.names
    ensures Given(includes) && r.Err? ==>
      r.error == NonNumericalIncluded(set f | f in includes.names && !IsNumeric(t, f))
    ensures !Given(includes) ==> r == Ok(NumericColumns(t))
  {
    if Given(includes) then
      var valid := NumericIn(t, includes.names);
      var nonNumerical := (set f | f in includes.names) - (set f | f in valid);
      NonNumericalNames(t, includes.names);
      if nonNumerical != {} then Err(NonNumericalIncluded(nonNumerical))
      else Ok(valid)
    else
      Ok(NumericColumns(t))
  }

  /** `[f for f in names if is_numerical(data[f])]` */
  function NumericIn(t: Table, names: seq<string>): (r: seq<string>)
    ensures forall f :: f in r <==> f in names && IsNumeric(t, f)
  {
    Filter(names, f => IsNumeric(t, f))
  }

  /**
   * `set(include) - set(valid_features)` is exactly the set of non-numeric names,
   * and when it is empty the numeric names are the whole list.
   */
  lemma NonNumericalNames(t: Table, names: seq<string>)
    ensures (set f | f in names) - (set f | f in NumericIn(t, names))
         == set f | f in names && !IsNumeric(t, f)
    ensures (set f | f in names && !IsNumeric(t, f)) == {} ==> NumericIn(t, names) == names
  {
    var bad := set f | f in names && !IsNumeric(t, f);
    if bad == {} {
      forall f | f in names ensures IsNumeric(t, f) {
        assert f in bad <==> !IsNumeric(t, f);
      }
      FilterKeepsAll(names, f => IsNumeric(t, f));
    }
  }

  /** Step 2: `[f for f in features if f not in exclude]` when `exclude` is truthy. */
  function ApplyExclude(features: seq<string>, excludes: Param): (r: seq<string>)
    ensures Subseq(r, features)
    ensures forall f :: f in r <==> f in features && f !in Listed(excludes)
    ensures forall f :: multiset(r)[f] == if f !in Listed(excludes) then multiset(features)[f] else 0
  {
    if Given(excludes) then
      var kept := f => f !in Listed(excludes);
      FilterIsSubseq(features, kept);
      FilterCounts(features, kept);
      Filter(features, kept)
    else
      SubseqRefl(features);
      features
  }

  /** Step 3: with the flag, drop every feature with exactly two distinct values. */
  function ApplyBinary(t: Table, features: seq<string>, excludeBinary: bool): (r: seq<string>)
    ensures Subseq(r, features)
    ensures forall f :: f in r <==> f in features && (excludeBinary ==> DistinctCount(t, f) != 2)
    ensures !excludeBinary ==> r == features
    ensures forall f ::
      multiset(r)[f] == if !excludeBinary || DistinctCount(t, f) != 2 then multiset(features)[f] else 0
  {
    if excludeBinary then
      var notBinary := f => DistinctCount(t, f) != 2;
      FilterIsSubseq(features, notBinary);
      FilterCounts(features, notBinary);
      Filter(features, notBinary)
    else
      SubseqRefl(features);
      features
  }

  /**
   * `excluded_features(data, include, exclude, exclude_binary)`: the parameters are
   * validated, `include` first, then the base list is narrowed by `exclude` and the flag.
   * Every name returned is a numeric column, none is excluded, and with the flag none is binary.
   */
  function ExcludedFeatures(t: Table, includes: Param, excludes: Param, excludeBinary: bool)
    : (r: Result<seq<string>>)
    ensures r.Ok? ==> forall f :: f in r.value ==> f in Names(t) && IsNumeric(t, f)
    ensures r.Ok? ==> forall f :: f in Listed(excludes) ==> f !in r.value
    ensures r.Ok? && excludeBinary ==> forall f :: f in r.value ==> DistinctCount(t, f) != 2
  {
    match CheckParam(t, includes, IncludeNotList)
    case Fail(e) => Err(e)
    case Pass =>
      match CheckParam(t, excludes, ExcludeNotList)
      case Fail(e) => Err(e)
      case Pass =>
        match BaseFeatures(t, includes)
        case Err(e) => Err(e)
        case Ok(base) => Ok(ApplyBinary(t, ApplyExclude(base, excludes), excludeBinary))
  }

  /** The base list the selection starts from once the parameters are valid. */
  function Base(t: Table, includes: Param): seq<string>
  {
    if Given(includes) then includes.names else NumericColumns(t)
  }

  /** Whether a base feature survives `exclude` and the binary filter. */
  predicate Keep(t: Table, excludes: Param, excludeBinary: bool, f: string)
  {
    f !in Listed(excludes) && (excludeBinary ==> DistinctCount(t, f) != 2)
  }

  /**
   * The selection fails exactly when a parameter is not a list or names an unknown
   * column, or when a non-empty `include` names a non-numeric column.
   */
  lemma SelectionFailsIff(t: Table, includes: Param, excludes: Param, excludeBinary: bool)
    ensures ExcludedFeatures(t, includes, excludes, excludeBinary).Err? <==>
      !ParamOk(t, includes) || !ParamOk(t, excludes) ||
      (Given(includes) && exists f :: f in includes.names && !IsNumeric(t, f))
  {
  }

  /**
   * Which error is raised: `include` is checked before `exclude`, and both before
   * the numeric check; each unknown-name error lists every absent name of that list.
   */
  lemma SelectionErrors(t: Table, includes: Param, excludes: Param, excludeBinary: bool)
    ensures var r := ExcludedFeatures(t, includes, excludes, excludeBinary);
      && (includes.NotAList? ==> r == Err(IncludeNotList))
      && (includes.List? && !ParamOk(t, includes) ==>
            r == Err(FeaturesNotFound(Missing(t, includes.names))))
      && (ParamOk(t, includes) && excludes.NotAList? ==> r == Err(ExcludeNotList))
      && (ParamOk(t, includes) && excludes.List? && !ParamOk(t, excludes) ==>
            r == Err(FeaturesNotFound(Missing(t, excludes.names))))
      && (ParamOk(t, includes) && ParamOk(t, excludes) && Given(includes) &&
          (exists f :: f in includes.names && !IsNumeric(t, f)) ==>
            r == Err(NonNumericalIncluded(set f | f in includes.names && !IsNumeric(t, f))))
  {
  }

  /** An empty `include` list is falsy, so it selects exactly as an absent one. */
  lemma EmptyIncludeIsAbsent(t: Table, excludes: Param, excludeBinary: bool)
    ensures ExcludedFeatures(t, List([]), excludes, excludeBinary)
         == ExcludedFeatures(t, Absent, excludes, excludeBinary)
  {
  }

  /** Steps 2 and 3 together are one filter of the base by `Keep`. */
  lemma {:induction false} NarrowIsFilter(t: Table, base: seq<string>, excludes: Param, excludeBinary: bool)
    ensures ApplyBinary(t, ApplyExclude(base, excludes), excludeBinary)
         == Filter(base, f => Keep(t, excludes, excludeBinary, f))
  {
    var keep := f => Keep(t, excludes, excludeBinary, f);
    var kept := f => f !in Listed(excludes);
    var notBinary := f => DistinctCount(t, f) != 2;
    if Given(excludes) && excludeBinary {
      var mid := ApplyExclude(base, excludes);
      assert mid == Filter(base, kept);
      FilterTwice(base, kept, notBinary, keep);
    } else if Given(excludes) {
      FilterExt(base, kept, keep);
    } else if excludeBinary {
      FilterExt(base, notBinary, keep);
    } else {
      FilterKeepsAll(base, keep);
    }
  }

  /** A successful selection narrows the base list that `Base` names. */
  lemma SelectionFromBase(t: Table, includes: Param, excludes: Param, excludeBinary: bool)
    requires ExcludedFeatures(t, includes, excludes, excludeBinary).Ok?
    ensures ExcludedFeatures(t, includes, excludes, excludeBinary).value
         == ApplyBinary(t, ApplyExclude(Base(t, includes), excludes), excludeBinary)
  {
  }

  /**
   * A successful selection is the base list filtered by `Keep`: the survivors keep
   * their relative order and every copy, and nothing but excluded and (with the
   * flag) binary features is removed.
   */
  lemma {:induction false} SelectionIsFilter(t: Table, includes: Param, excludes: Param, excludeBinary: bool)
    requires ExcludedFeatures(t, includes, excludes, excludeBinary).Ok?
    ensures var r := ExcludedFeatures(t, includes, excludes, excludeBinary).value;
      var base := Base(t, includes);
      && r == Filter(base, f => Keep(t, excludes, excludeBinary, f))
      && Subseq(r, base)
      && (forall f :: f in r <==> f in base && Keep(t, excludes, excludeBinary, f))
      && (forall f :: multiset(r)[f] == if Keep(t, excludes, excludeBinary, f) then multiset(base)[f] else 0)
  {
    var base := Base(t, includes);
    SelectionFromBase(t, includes, excludes, excludeBinary);
    NarrowIsFilter(t, base, excludes, excludeBinary);
    FilterIsSubseq(base, f => Keep(t, excludes, excludeBinary, f));
    FilterCounts(base, f => Keep(t, excludes, excludeBinary, f));
  }

  /** A non-empty `include` is the base: the result is drawn from it, in its order. */
  lemma IncludeOrder(t: Table, includes: Param, excludes: Param, excludeBinary: bool)
    requires Given(includes)
    requires ExcludedFeatures(t, includes, excludes, excludeBinary).Ok?
    ensures Subseq(ExcludedFeatures(t, includes, excludes, excludeBinary).value, includes.names)
  {
    SelectionIsFilter(t, includes, excludes, excludeBinary);
  }

  /**
   * Without a non-empty `include`, the base is every numeric column in table order,
   * and the result follows the table's column order.
   */
  lemma {:induction false} DefaultOrder(t: Table, includes: Param, excludes: Param, excludeBinary: bool)
    requires !Given(includes)
    requires ExcludedFeatures(t, includes, excludes, excludeBinary).Ok?
    ensures Subseq(ExcludedFeatures(t, includes, excludes, excludeBinary).value, Names(t))
  {
    var keep := f => Keep(t, excludes, excludeBinary, f);
    var numeric := f => IsNumeric(t, f);
    SelectionIsFilter(t, includes, excludes, excludeBinary);
    assert Base(t, includes) == Filter(Names(t), numeric);
    var both := f => IsNumeric(t, f) && Keep(t, excludes, excludeBinary, f);
    FilterTwice(Names(t), numeric, keep, both);
    FilterIsSubseq(Names(t), both);
  }

  /** With distinct column names, the default base holds exactly the numeric columns. */
  lemma NumericColumnsExact(t: Table)
    requires DistinctNames(t)
    ensures forall f :: f in NumericColumns(t) <==> exists c :: c in t && c.name == f && c.isNumeric
  {
    forall c | c in t { FindColumn(t, c); }
  }

  /** With the flag a feature is dropped exactly when it has two distinct values. */
  lemma BinaryExclusion(t: Table, includes: Param, excludes: Param)
    requires ExcludedFeatures(t, includes, excludes, true).Ok?
    ensures var r := ExcludedFeatures(t, includes, excludes, true).value;
      forall f :: f in Base(t, includes) && f !in Listed(excludes) ==>
        (f in r <==> DistinctCount(t, f) != 2)
  {
    SelectionIsFilter(t, includes, excludes, true);
  }

  /** Without the flag only `exclude` filters the base. */
  lemma NoBinaryExclusion(t: Table, includes: Param, excludes: Param)
    requires ExcludedFeatures(t, includes, excludes, false).Ok?
    ensures ExcludedFeatures(t, includes, excludes, false).value
         == ApplyExclude(Base(t, includes), excludes)
  {
  }
}
