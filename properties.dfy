/**
  What the composition functions promise beyond their own contracts: the
  structure of composed text, the behaviour of dialect reconciliation over
  whole input lists, and worked examples of the three combinators.
*/
module CompositionProperties {
  import opened Wrappers
  import opened Levels
  import opened SqlText
  import opened Composition

  // ---------------------------------------------------------------------------
  // Composed text

  /** Composing a concatenation is composing each half, joined by the clause:
      the terms appear once each, in input order. */
  lemma ComposedSplit(clause: Clause, a: seq<string>, b: seq<string>)
    requires |a| > 0 && |b| > 0
    ensures ComposedText(clause, a + b) == ComposedText(clause, a) + Separator(clause) + ComposedText(clause, b)
  {
    assert Parenthesised(a + b) == Parenthesised(a) + Parenthesised(b);
    JoinSplit(Separator(clause), Parenthesised(a), Parenthesised(b));
  }

  lemma SeparatorHasNoParens(clause: Clause)
    ensures '(' !in Separator(clause) && ')' !in Separator(clause)
  {
    match clause
    case AndClause => assert Separator(clause) == " AND ";
    case OrClause => assert Separator(clause) == " OR ";
  }

  lemma {:induction false} SumCountParenthesised(parts: seq<string>)
    ensures SumCount('(', Parenthesised(parts)) == |parts| + SumCount('(', parts)
    ensures SumCount(')', Parenthesised(parts)) == |parts| + SumCount(')', parts)
    decreases |parts|
  {
    if |parts| > 0 {
      var p := parts[0];
      assert Parenthesised(parts)[1..] == Parenthesised(parts[1..]);
      assert Count('(', "(") == 1 && Count(')', "(") == 0;
      assert Count('(', ")") == 0 && Count(')', ")") == 1;
      CountConcat('(', "(", p);
      CountConcat('(', "(" + p, ")");
      CountConcat(')', "(", p);
      CountConcat(')', "(" + p, ")");
      SumCountParenthesised(parts[1..]);
    }
  }

  /** A composition of n parts adds exactly n opening and n closing parentheses
      to those the parts already hold: one pair per term. */
  lemma ComposedParenCount(clause: Clause, parts: seq<string>)
    ensures Count('(', ComposedText(clause, parts)) == |parts| + SumCount('(', parts)
    ensures Count(')', ComposedText(clause, parts)) == |parts| + SumCount(')', parts)
  {
    var sep := Separator(clause);
    SeparatorHasNoParens(clause);
    assert ComposedText(clause, parts) == Join(sep, Parenthesised(parts));
    CountJoin('(', sep, Parenthesised(parts));
    CountJoin(')', sep, Parenthesised(parts));
    SumCountParenthesised(parts);
  }

  /** Composing balanced parts gives balanced text. */
  lemma ComposedBalanced(clause: Clause, parts: seq<string>)
    requires forall i :: 0 <= i < |parts| ==> Balanced(parts[i])
    ensures Balanced(ComposedText(clause, parts))
  {
    var sep := Separator(clause);
    SeparatorHasNoParens(clause);
    NoParensBalanced(sep);
    forall i | 0 <= i < |parts| ensures Balanced(Parenthesised(parts)[i]) {
      BalancedWrap(parts[i]);
    }
    JoinBalanced(sep, Parenthesised(parts));
  }

  // ---------------------------------------------------------------------------
  // Merged and negated levels

  /** The condition of a merge is one term per input, in input order: merging a
      concatenation gives the two halves' merged conditions joined by the clause. */
  lemma MergedConditionSplit(
    a: seq<LevelOrDict>, b: seq<LevelOrDict>, clause: Clause,
    labelForCharts: Option<string>, mProbability: Option<real>, isNullLevel: Option<bool>,
    std: Standardise)
    requires |a| > 0 && |b| > 0
    requires ClMerge(a + b, clause, labelForCharts, mProbability, isNullLevel, std).Success?
    ensures ClMerge(a, clause, labelForCharts, mProbability, isNullLevel, std).Success?
    ensures ClMerge(b, clause, labelForCharts, mProbability, isNullLevel, std).Success?
    ensures ClMerge(a + b, clause, labelForCharts, mProbability, isNullLevel, std).value.sqlCondition
      == ClMerge(a, clause, labelForCharts, mProbability, isNullLevel, std).value.sqlCondition
         + Separator(clause)
         + ClMerge(b, clause, labelForCharts, mProbability, isNullLevel, std).value.sqlCondition
  {
    var na, nb := Normalise(a), Normalise(b);
    assert Normalise(a + b) == na + nb;
    HalvesCarryFewerTags(na, nb);
    assert Conditions(Dicts(na + nb)) == Conditions(Dicts(na)) + Conditions(Dicts(nb));
    ComposedSplit(clause, Conditions(Dicts(na)), Conditions(Dicts(nb)));
  }

  /** Each half of a list of levels carries no more distinct dialects than the whole. */
  lemma HalvesCarryFewerTags(a: seq<ComparisonLevel>, b: seq<ComparisonLevel>)
    ensures |DialectTags(a)| <= |DialectTags(a + b)|
    ensures |DialectTags(b)| <= |DialectTags(a + b)|
  {
    var all := DialectTags(a + b);
    assert DialectTags(a) <= all;
    assert DialectTags(b) <= all;
    assert all == DialectTags(a) + (all - DialectTags(a));
    assert all == DialectTags(b) + (all - DialectTags(b));
  }

  /** When every input condition is balanced, so is the merged condition. */
  lemma MergedConditionBalanced(
    levels: seq<LevelOrDict>, clause: Clause,
    labelForCharts: Option<string>, mProbability: Option<real>, isNullLevel: Option<bool>,
    std: Standardise)
    requires forall i :: 0 <= i < |levels| ==> Balanced(ToComparisonLevel(levels[i]).sqlCondition)
    requires ClMerge(levels, clause, labelForCharts, mProbability, isNullLevel, std).Success?
    ensures Balanced(ClMerge(levels, clause, labelForCharts, mProbability, isNullLevel, std).value.sqlCondition)
  {
    ComposedBalanced(clause, Conditions(Dicts(Normalise(levels))));
  }

  /** Negating a balanced condition gives a balanced condition. */
  lemma NegatedConditionBalanced(x: LevelOrDict, labelForCharts: Option<string>, mProbability: Option<real>, std: Standardise)
    requires Balanced(ToComparisonLevel(x).sqlCondition)
    ensures Balanced(Not(x, labelForCharts, mProbability, std).sqlCondition)
  {
    var c := ToComparisonLevel(x).sqlCondition;
    NoParensBalanced("NOT ");
    BalancedWrap(c);
    BalancedConcat("NOT ", "(" + c + ")");
    assert "NOT (" + c + ")" == "NOT " + ("(" + c + ")");
  }

  /** With no label override, inputs that are not null levels and carry no label
      of their own give a label identical to the condition. */
  lemma LabelMirrorsCondition(
    levels: seq<LevelOrDict>, clause: Clause,
    labelForCharts: Option<string>, mProbability: Option<real>, isNullLevel: Option<bool>,
    std: Standardise)
    requires !IsTruthyLabel(labelForCharts)
    requires forall i :: 0 <= i < |levels| ==>
      ToComparisonLevel(levels[i]).isNullLevel != Some(true) && ToComparisonLevel(levels[i]).labelForCharts.None?
    requires ClMerge(levels, clause, labelForCharts, mProbability, isNullLevel, std).Success?
    ensures var r := ClMerge(levels, clause, labelForCharts, mProbability, isNullLevel, std).value;
      r.labelForCharts == Some(r.sqlCondition)
  {
    var r := ClMerge(levels, clause, labelForCharts, mProbability, isNullLevel, std).value;
    var ds := Dicts(Normalise(levels));
    assert EffectiveLabels(ds, r.dialect, std) == Conditions(ds);
  }

  /** A merge is a null level only when no input is anything else. */
  lemma NonNullInputClearsFlag(
    levels: seq<LevelOrDict>, k: nat, clause: Clause,
    labelForCharts: Option<string>, mProbability: Option<real>, isNullLevel: Option<bool>,
    std: Standardise)
    requires k < |levels| && ToComparisonLevel(levels[k]).isNullLevel != Some(true)
    requires ClMerge(levels, clause, labelForCharts, mProbability, isNullLevel, std).Success?
    ensures ClMerge(levels, clause, labelForCharts, mProbability, isNullLevel, std).value.isNullLevel == None
  {
    assert Normalise(levels)[k] == ToComparisonLevel(levels[k]);
  }

  // ---------------------------------------------------------------------------
  // Dialect reconciliation over lists

  /** Adding an untagged level anywhere never changes the reconciled dialect. */
  lemma UntaggedNeverConflicts(a: seq<ComparisonLevel>, cl: ComparisonLevel, b: seq<ComparisonLevel>)
    requires cl.dialect.None?
    ensures UnifySqlDialects(a + [cl] + b) == UnifySqlDialects(a + b)
  {
    var with, without := a + [cl] + b, a + b;
    assert DialectTags(with) == DialectTags(without) by {
      forall t ensures t in DialectTags(with) <==> t in DialectTags(without) {
        if t in DialectTags(with) {
          var c :| c in with && c.dialect == Some(t);
          assert c in without;
        }
        if t in DialectTags(without) {
          var c :| c in without && c.dialect == Some(t);
          assert c in with;
        }
      }
    }
  }

  /** Two levels tagged with different dialects cannot be combined. */
  lemma DistinctDialectsConflict(x: ComparisonLevel, y: ComparisonLevel)
    requires x.dialect.Some? && y.dialect.Some? && x.dialect != y.dialect
    ensures UnifySqlDialects([x, y]) == Failure(DialectConflict)
  {
    var tags := DialectTags([x, y]);
    assert x.dialect.value in tags && y.dialect.value in tags;
    assert {x.dialect.value, y.dialect.value} <= tags;
    assert tags == {x.dialect.value, y.dialect.value} + (tags - {x.dialect.value, y.dialect.value});
  }

  /** When every tagged level carries the same tag and at least one level is tagged,
      the levels reconcile to that tag. */
  lemma SharedDialect(cls: seq<ComparisonLevel>, k: nat, t: string)
    requires k < |cls| && cls[k].dialect == Some(t)
    requires forall i :: 0 <= i < |cls| && cls[i].dialect.Some? ==> cls[i].dialect == Some(t)
    ensures UnifySqlDialects(cls) == Success(Some(t))
  {
    assert DialectTags(cls) == {t} by {
      assert t in DialectTags(cls) by { assert cls[k] in cls; }
      forall u | u in DialectTags(cls) ensures u == t {
        var c :| c in cls && c.dialect == Some(u);
        var i :| 0 <= i < |cls| && cls[i] == c;
      }
    }
  }

  // ---------------------------------------------------------------------------
  // Worked examples

  /** Two raw conditions merged with AND, without overrides. */
  lemma AndExample(std: Standardise)
    ensures var r := And([Dict(LevelDict("a_l = a_r", None, Missing, None)),
                          Dict(LevelDict("b_l = b_r", None, Missing, None))], None, None, None, std);
      && r.Success?
      && r.value.sqlCondition == "(a_l = a_r) AND (b_l = b_r)"
      && r.value.labelForCharts == Some("(a_l = a_r) AND (b_l = b_r)")
      && r.value.isNullLevel == None
      && r.value.mProbability == None
      && r.value.dialect == None
  {
    var x := Dict(LevelDict("a_l = a_r", None, Missing, None));
    var y := Dict(LevelDict("b_l = b_r", None, Missing, None));
    var cls := Normalise([x, y]);
    assert cls == [ToComparisonLevel(x), ToComparisonLevel(y)];
    assert DialectTags(cls) == {};
    var ds := Dicts(cls);
    var parts := ["a_l = a_r", "b_l = b_r"];
    assert Conditions(ds) == parts;
    assert EffectiveLabels(ds, None, std) == parts;
    var r := And([x, y], None, None, None, std);
    assert r.Success?;
    assert r.value.dialect == None;
    AndExampleText();
    assert r.value.sqlCondition == Join(" AND ", Parenthesised(parts));
    assert r.value.labelForCharts == Some(Join(" AND ", Parenthesised(parts)));
  }

  lemma AndExampleText()
    ensures Join(" AND ", Parenthesised(["a_l = a_r", "b_l = b_r"])) == "(a_l = a_r) AND (b_l = b_r)"
  {
    TwoTermsJoined(" AND ", "a_l = a_r", "b_l = b_r");
  }

  lemma TwoTermsJoined(sep: string, p: string, q: string)
    ensures Join(sep, Parenthesised([p, q])) == "(" + p + ")" + sep + "(" + q + ")"
  {
    var ps := Parenthesised([p, q]);
    assert ps[1..] == ["(" + q + ")"];
  }

  /** An `is_null_level=False` override given to `or_` does not appear in the result:
      it only stops the automatic flag. */
  lemma OrOverrideExample(std: Standardise)
    ensures var r := Or([Dict(LevelDict("x", None, Missing, None)),
                         Dict(LevelDict("y", None, Flag(true), None))], None, None, Some(false), std);
      && r.Success?
      && r.value.sqlCondition == "(x) OR (y)"
      && r.value.isNullLevel == None
  {
    var x := Dict(LevelDict("x", None, Missing, None));
    var y := Dict(LevelDict("y", None, Flag(true), None));
    var cls := Normalise([x, y]);
    assert cls == [ToComparisonLevel(x), ToComparisonLevel(y)];
    assert DialectTags(cls) == {};
    assert Conditions(Dicts(cls)) == ["x", "y"];
    TwoTermsJoined(" OR ", "x", "y");
  }

  /** An `is_null_level=True` override given to `and_` does not appear in the result
      either: merging two null levels with it gives a level that is not a null level. */
  lemma AndTrueOverrideExample(std: Standardise)
    ensures var r := And([Dict(LevelDict("x", None, Flag(true), None)),
                          Dict(LevelDict("y", None, Flag(true), None))], None, None, Some(true), std);
      && r.Success?
      && r.value.isNullLevel == None
  {
    var x := Dict(LevelDict("x", None, Flag(true), None));
    var y := Dict(LevelDict("y", None, Flag(true), None));
    var cls := Normalise([x, y]);
    assert cls == [ToComparisonLevel(x), ToComparisonLevel(y)];
    assert DialectTags(cls) == {};
  }

  /** Negating a null level: the mapping binds `is_null_level` to `None`, and the
      label is the negated standardised condition. */
  lemma NotNullLevelExample(std: Standardise)
    ensures NotAttributes(LevelDict("a_l = a_r", None, Flag(true), None), None, None, None, std).isNullLevel == NoneValue
    ensures var r := Not(Dict(LevelDict("a_l = a_r", None, Flag(true), None)), None, None, std);
      && r.sqlCondition == "NOT (a_l = a_r)"
      && r.labelForCharts == Some("NOT (" + std("a_l = a_r", None) + ")")
      && r.isNullLevel == None
  {
  }
}
