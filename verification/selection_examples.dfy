/** The documented selection behaviours, shown on a small four-column table. */
module SelectionExamples {
  import opened Errors
  import opened Seqs
  import opened Tables
  import opened Selection

  /** A table with columns `a`, `b`, `c`, `d` in that order, of the kinds `SampleKinds` gives. */
  predicate SampleShape(t: Table)
  {
    Names(t) == ["a", "b", "c", "d"] && SampleKinds(t)
  }

  /** `a`, `b` and `d` are numeric and `c` is not; only `b` has two distinct values. */
  predicate SampleKinds(t: Table)
  {
    && IsNumeric(t, "a") && IsNumeric(t, "b") && !IsNumeric(t, "c") && IsNumeric(t, "d")
    && DistinctCount(t, "a") != 2 && DistinctCount(t, "b") == 2 && DistinctCount(t, "d") != 2
  }

  function SampleTable(): Table
  {
    [Column("a", true, 5), Column("b", true, 2), Column("c", false, 3), Column("d", true, 3)]
  }

  /** `SampleTable` has the sample shape, so the examples below are about a real table. */
  lemma SampleTableShape()
    ensures SampleShape(SampleTable())
  {
    SampleTableNames();
    SampleTableKinds();
  }

  lemma SampleTableNames()
    ensures Names(SampleTable()) == ["a", "b", "c", "d"]
  {
    var t := SampleTable();
    assert t[1..][1..][1..][1..] == [];
    assert Names(t[1..][1..][1..]) == ["d"];
    assert Names(t[1..][1..]) == ["c", "d"];
    assert Names(t[1..]) == ["b", "c", "d"];
  }

  lemma SampleTableKinds()
    ensures SampleKinds(SampleTable())
  {
    SampleTableFind();
  }

  lemma SampleTableFind()
    ensures var t := SampleTable();
      Find(t, "a") == Some(t[0]) && Find(t, "b") == Some(t[1]) &&
      Find(t, "c") == Some(t[2]) && Find(t, "d") == Some(t[3])
  {
    var t := SampleTable();
    assert Find(t, "a") == Some(t[0]);
    assert Find(t, "b") == Some(t[1]) by { assert t[1..][0] == t[1]; }
    SampleTableFindLast();
  }

  lemma SampleTableFindLast()
    ensures var t := SampleTable();
      Find(t, "c") == Some(t[2]) && Find(t, "d") == Some(t[3])
  {
    var t := SampleTable();
    assert Find(t, "c") == Some(t[2]) by { assert t[1..][1..][0] == t[2]; }
    assert Find(t, "d") == Some(t[3]) by { assert t[1..][1..][1..][0] == t[3]; }
  }

  /** `include=["a", "b"], exclude=["b"]` on numeric `a`, `b` selects exactly `["a"]`. */
  lemma IncludeExcludeExample(t: Table)
    requires SampleShape(t)
    ensures ExcludedFeatures(t, List(["a", "b"]), List(["b"]), false) == Ok(["a"])
  {
    var includes, excludes := List(["a", "b"]), List(["b"]);
    var r := ExcludedFeatures(t, includes, excludes, false);
    assert r.Ok? by {
      assert ParamOk(t, includes) && ParamOk(t, excludes);
      SelectionFailsIff(t, includes, excludes, false);
    }
    assert r.value == Filter(["a", "b"], f => Keep(t, excludes, false, f)) by {
      SelectionIsFilter(t, includes, excludes, false);
    }
    assert Filter(["a", "b"], f => Keep(t, excludes, false, f)) == ["a"] by {
      FilterCons("b", [], f => Keep(t, excludes, false, f));
      FilterCons("a", ["b"], f => Keep(t, excludes, false, f));
    }
  }

  /** By default every numeric column is selected, and with the flag the binary `b` goes. */
  lemma DefaultExamples(t: Table)
    requires SampleShape(t)
    ensures ExcludedFeatures(t, Absent, Absent, false) == Ok(["a", "b", "d"])
    ensures ExcludedFeatures(t, Absent, Absent, true) == Ok(["a", "d"])
  {
    SampleBase(t);
    DefaultExample(t, false);
    DefaultExample(t, true);
  }

  lemma SampleBase(t: Table)
    requires SampleShape(t)
    ensures Base(t, Absent) == ["a", "b", "d"]
  {
    SampleNumeric(t);
  }

  lemma SampleNumeric(t: Table)
    requires SampleKinds(t)
    ensures Filter(["a", "b", "c", "d"], f => IsNumeric(t, f)) == ["a", "b", "d"]
  {
    var numeric := f => IsNumeric(t, f);
    FilterCons("d", [], numeric);
    FilterCons("c", ["d"], numeric);
    FilterCons("b", ["c", "d"], numeric);
    FilterCons("a", ["b", "c", "d"], numeric);
  }

  lemma SampleKeepAll(t: Table)
    requires SampleKinds(t)
    ensures Filter(["a", "b", "d"], f => Keep(t, Absent, false, f)) == ["a", "b", "d"]
  {
    FilterKeepsAll(["a", "b", "d"], f => Keep(t, Absent, false, f));
  }

  lemma SampleDropBinary(t: Table)
    requires SampleKinds(t)
    ensures Filter(["a", "b", "d"], f => Keep(t, Absent, true, f)) == ["a", "d"]
  {
    var keep := f => Keep(t, Absent, true, f);
    SampleBinary(t);
    FilterCons("d", [], keep);
    FilterCons("b", ["d"], keep);
    FilterCons("a", ["b", "d"], keep);
  }

  lemma SampleBinary(t: Table)
    requires SampleKinds(t)
    ensures Keep(t, Absent, true, "a") && !Keep(t, Absent, true, "b") && Keep(t, Absent, true, "d")
  {
  }

  lemma DefaultExample(t: Table, excludeBinary: bool)
    requires SampleShape(t) && Base(t, Absent) == ["a", "b", "d"]
    ensures ExcludedFeatures(t, Absent, Absent, excludeBinary)
         == Ok(if excludeBinary then ["a", "d"] else ["a", "b", "d"])
  {
    SelectionFailsIff(t, Absent, Absent, excludeBinary);
    SelectionIsFilter(t, Absent, Absent, excludeBinary);
    if excludeBinary {
      SampleDropBinary(t);
    } else {
      SampleKeepAll(t);
    }
  }

  /** An unknown name is reported, and a non-list `exclude` is refused. */
  lemma ParameterExamples(t: Table)
    requires SampleShape(t)
    ensures ExcludedFeatures(t, List(["z"]), Absent, false) == Err(FeaturesNotFound(["z"]))
    ensures ExcludedFeatures(t, Absent, NotAList, false) == Err(ExcludeNotList)
  {
    var absent := f => f !in Names(t);
    FilterCons("z", [], absent);
    assert Missing(t, ["z"]) == ["z"];
    SelectionErrors(t, List(["z"]), Absent, false);
    SelectionErrors(t, Absent, NotAList, false);
  }

  /** A non-numeric name in `include` is reported. */
  lemma NonNumericExample(t: Table)
    requires SampleShape(t)
    ensures ExcludedFeatures(t, List(["a", "c"]), Absent, false) == Err(NonNumericalIncluded({"c"}))
  {
    var names: seq<string> := ["a", "c"];
    SampleNonNumeric(t);
    assert ParamOk(t, List(names));
    SelectionErrors(t, List(names), Absent, false);
  }

  lemma SampleNonNumeric(t: Table)
    requires SampleKinds(t)
    ensures (set f | f in ["a", "c"] && !IsNumeric(t, f)) == {"c"}
  {
    var s := set f | f in ["a", "c"] && !IsNumeric(t, f);
    assert "c" in s && "a" !in s;
  }
}
