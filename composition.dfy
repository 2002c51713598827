/**
  Composition of comparison levels with AND, OR and NOT: input normalisation,
  dialect reconciliation, condition and label composition, null-level
  propagation and assembly of the result.
*/
module Composition {
  import opened Wrappers
  import opened Levels
  import opened SqlText

  /** The logical operator joining the inputs of a merge. */
  datatype Clause = AndClause | OrClause

  /** The two ways a composition call fails. */
  datatype CompositionError = NoLevels | DialectConflict

  function Keyword(clause: Clause): string {
    match clause
    case AndClause => "AND"
    case OrClause => "OR"
  }

  /** The text placed between neighbouring terms: `f" {clause} "`. */
  function Separator(clause: Clause): string {
    " " + Keyword(clause) + " "
  }

  // ---------------------------------------------------------------------------
  // Input normalisation

  /** A level object is used as it is; a raw mapping becomes a level bound to no dialect. */
  function ToComparisonLevel(x: LevelOrDict): (cl: ComparisonLevel)
    ensures x.Level? ==> cl == x.level
    ensures x.Dict? ==> cl.dialect == None && cl.sqlCondition == x.dict.sqlCondition
    ensures x.Dict? ==> cl.labelForCharts == x.dict.labelForCharts && cl.mProbability == x.dict.mProbability
    ensures x.Dict? ==> (cl.isNullLevel == Some(true) <==> IsNullLevel(x.dict))
  {
    match x
    case Level(cl) => cl
    case Dict(d) => FromDict(d, None)
  }

  /** Every argument normalised, in the order given. */
  function Normalise(xs: seq<LevelOrDict>): (cls: seq<ComparisonLevel>)
    ensures |cls| == |xs|
    ensures forall i :: 0 <= i < |xs| ==> cls[i] == ToComparisonLevel(xs[i])
  {
    seq(|xs|, i requires 0 <= i < |xs| => ToComparisonLevel(xs[i]))
  }

  /** The levels in mapping form (`[cll.as_dict() for cll in clls]`). */
  function Dicts(cls: seq<ComparisonLevel>): (ds: seq<LevelDict>)
    ensures |ds| == |cls|
    ensures forall i :: 0 <= i < |cls| ==> ds[i] == AsDict(cls[i])
  {
    seq(|cls|, i requires 0 <= i < |cls| => AsDict(cls[i]))
  }

  // ---------------------------------------------------------------------------
  // Dialect reconciliation

  /** The distinct dialect tags the levels carry, untagged levels contributing nothing. */
  function DialectTags(cls: seq<ComparisonLevel>): set<string> {
    set cl | cl in cls && cl.dialect.Some? :: cl.dialect.value
  }

  /** The tag of the first tagged level, if any. */
  function FirstDialect(cls: seq<ComparisonLevel>): (t: Option<string>)
    ensures t.None? <==> DialectTags(cls) == {}
    ensures t.Some? ==> t.value in DialectTags(cls)
    decreases |cls|
  {
    if |cls| == 0 then None
    else
      assert cls == [cls[0]] + cls[1..];
      assert DialectTags(cls) == DialectTags([cls[0]]) + DialectTags(cls[1..]);
      if cls[0].dialect.Some? then
        assert cls[0].dialect.value in DialectTags([cls[0]]);
        cls[0].dialect
      else FirstDialect(cls[1..])
  }

  lemma SingletonSet(s: set<string>, t: string)
    requires |s| == 1 && t in s
    ensures s == {t}
  {
    assert |s - {t}| == 0;
  }

  /** `_unify_sql_dialects`: no tag gives `None`, one distinct tag gives that tag,
      two or more distinct tags are a conflict. */
  function UnifySqlDialects(cls: seq<ComparisonLevel>): (r: Result<Option<string>, CompositionError>)
    ensures r.Failure? <==> |DialectTags(cls)| > 1
    ensures r.Failure? ==> r.error == DialectConflict
    ensures r == Success(None) <==> DialectTags(cls) == {}
    ensures r.Success? && r.value.Some? ==> DialectTags(cls) == {r.value.value}
  {
    var tags := DialectTags(cls);
    if |tags| > 1 then Failure(DialectConflict)
    else if |tags| == 0 then Success(None)
    else
      var t := FirstDialect(cls);
      SingletonSet(tags, t.value);
      Success(t)
  }

  /** The arguments in mapping form, with the dialect they share. */
  datatype Parsed = Parsed(dicts: seq<LevelDict>, dialect: Option<string>)

  /** `_parse_comparison_levels`: normalises the arguments, serialises them in order
      and reconciles their dialects. */
  function ParseComparisonLevels(xs: seq<LevelOrDict>): (r: Result<Parsed, CompositionError>)
    ensures r.Failure? <==> |DialectTags(Normalise(xs))| > 1
    ensures r.Failure? ==> r.error == DialectConflict
    ensures r.Success? ==> r.value.dicts == Dicts(Normalise(xs))
    ensures r.Success? ==> (r.value.dialect == None <==> DialectTags(Normalise(xs)) == {})
    ensures r.Success? && r.value.dialect.Some? ==> DialectTags(Normalise(xs)) == {r.value.dialect.value}
  {
    var cls := Normalise(xs);
    match UnifySqlDialects(cls)
    case Failure(e) => Failure(e)
    case Success(dialect) => Success(Parsed(Dicts(cls), dialect))
  }

  // ---------------------------------------------------------------------------
  // Labels and conditions

  /** `_label_for_charts`: the label a level contributes to a composed label.
      A null level contributes its standardised condition; any other level its
      label if it has one, else its condition. */
  function LabelForCharts(d: LevelDict, dialect: Option<string>, std: Standardise): (effective: string)
    ensures IsNullLevel(d) ==> effective == std(d.sqlCondition, dialect)
    ensures !IsNullLevel(d) && d.labelForCharts.Some? ==> effective == d.labelForCharts.value
    ensures !IsNullLevel(d) && d.labelForCharts.None? ==> effective == d.sqlCondition
  {
    var backup := d.sqlCondition;
    var given := if d.labelForCharts.Some? then d.labelForCharts.value else backup;
    if IsNullLevel(d) then std(backup, dialect) else given
  }

  /** Each part in its own pair of parentheses. */
  function Parenthesised(parts: seq<string>): (ps: seq<string>)
    ensures |ps| == |parts|
    ensures forall i :: 0 <= i < |parts| ==> ps[i] == "(" + parts[i] + ")"
  {
    seq(|parts|, i requires 0 <= i < |parts| => "(" + parts[i] + ")")
  }

  /** The parts, each parenthesised, joined by the clause keyword. */
  function ComposedText(clause: Clause, parts: seq<string>): (r: string)
    ensures |parts| == 0 ==> r == ""
    ensures |parts| == 1 ==> r == "(" + parts[0] + ")"
  {
    Join(Separator(clause), Parenthesised(parts))
  }

  function Conditions(ds: seq<LevelDict>): (cs: seq<string>)
    ensures |cs| == |ds|
    ensures forall i :: 0 <= i < |ds| ==> cs[i] == ds[i].sqlCondition
  {
    seq(|ds|, i requires 0 <= i < |ds| => ds[i].sqlCondition)
  }

  function EffectiveLabels(ds: seq<LevelDict>, dialect: Option<string>, std: Standardise): (ls: seq<string>)
    ensures |ls| == |ds|
    ensures forall i :: 0 <= i < |ds| ==> ls[i] == LabelForCharts(ds[i], dialect, std)
  {
    seq(|ds|, i requires 0 <= i < |ds| => LabelForCharts(ds[i], dialect, std))
  }

  /** `all(d.get("is_null_level", False) for d in dicts)`. */
  predicate AllNullLevels(ds: seq<LevelDict>) {
    forall i :: 0 <= i < |ds| ==> IsNullLevel(ds[i])
  }

  /** A label override counts only when it is truthy: present and non-empty. */
  predicate IsTruthyLabel(given: Option<string>) {
    given.Some? && given.value != ""
  }

  /** A probability override counts only when it is truthy: present and non-zero. */
  predicate IsTruthyProbability(p: Option<real>) {
    p.Some? && p.value != 0.0
  }

  /** The probability a result stores: the caller's, when truthy; never an input's. */
  function StoredProbability(mProbability: Option<real>): (p: Option<real>)
    ensures p.Some? <==> IsTruthyProbability(mProbability)
    ensures p.Some? ==> p == mProbability
  {
    if IsTruthyProbability(mProbability) then mProbability else None
  }

  // ---------------------------------------------------------------------------
  // AND / OR

  /** The mapping `_cl_merge` hands to the level constructor. */
  function MergeAttributes(
    ds: seq<LevelDict>, dialect: Option<string>, clause: Clause,
    labelForCharts: Option<string>, mProbability: Option<real>, isNullLevel: Option<bool>,
    std: Standardise): (r: LevelDict)
    ensures r.isNullLevel == Flag(true) || r.isNullLevel == Missing
    ensures r.isNullLevel == Flag(true) <==> isNullLevel.None? && AllNullLevels(ds)
    ensures r.labelForCharts.Some?
  {
    var condition := ComposedText(clause, Conditions(ds));
    var flag := if isNullLevel.None? && AllNullLevels(ds) then Flag(true) else Missing;
    var chartLabel :=
      if IsTruthyLabel(labelForCharts) then labelForCharts.value
      else ComposedText(clause, EffectiveLabels(ds, dialect, std));
    LevelDict(condition, Some(chartLabel), flag, StoredProbability(mProbability))
  }

  /** Every input level has its null-level attribute set: AllNullLevels as seen on
      the levels themselves rather than on their mappings. ClMerge's contract uses
      this form because it speaks of the inputs the caller passed. */
  predicate AllNullInputs(cls: seq<ComparisonLevel>) {
    forall i :: 0 <= i < |cls| ==> cls[i].isNullLevel == Some(true)
  }

  /** `_cl_merge`: merges one or more levels with `clause`. */
  function ClMerge(
    levels: seq<LevelOrDict>, clause: Clause,
    labelForCharts: Option<string>, mProbability: Option<real>, isNullLevel: Option<bool>,
    std: Standardise): (r: Result<ComparisonLevel, CompositionError>)
    ensures r == Failure(NoLevels) <==> |levels| == 0
    ensures r == Failure(DialectConflict) <==> |levels| > 0 && |DialectTags(Normalise(levels))| > 1
    ensures r.Success? ==>
      var cls := Normalise(levels);
      && r.value.sqlCondition == ComposedText(clause, Conditions(Dicts(cls)))
      && (r.value.isNullLevel == Some(true) <==> isNullLevel.None? && AllNullInputs(cls))
      && (r.value.isNullLevel != Some(true) ==> r.value.isNullLevel == None)
      && (IsTruthyLabel(labelForCharts) ==> r.value.labelForCharts == labelForCharts)
      && (!IsTruthyLabel(labelForCharts) ==>
            r.value.labelForCharts == Some(ComposedText(clause, EffectiveLabels(Dicts(cls), r.value.dialect, std))))
      && r.value.mProbability == StoredProbability(mProbability)
      && (r.value.dialect == None <==> DialectTags(cls) == {})
      && (r.value.dialect.Some? ==> DialectTags(cls) == {r.value.dialect.value})
  {
    if |levels| == 0 then Failure(NoLevels)
    else
      match ParseComparisonLevels(levels)
      case Failure(e) => Failure(e)
      case Success(p) =>
        var ds := p.dicts;
        assert AllNullLevels(ds) <==> AllNullInputs(Normalise(levels)) by {
          assert forall i :: 0 <= i < |ds| ==> ds[i] == AsDict(Normalise(levels)[i]);
        }
        Success(FromDict(MergeAttributes(ds, p.dialect, clause, labelForCharts, mProbability, isNullLevel, std), p.dialect))
  }

  /** `and_`: the inputs' conditions, each parenthesised, joined by " AND ". */
  function And(
    levels: seq<LevelOrDict>,
    labelForCharts: Option<string>, mProbability: Option<real>, isNullLevel: Option<bool>,
    std: Standardise): (r: Result<ComparisonLevel, CompositionError>)
    ensures |levels| == 0 ==> r == Failure(NoLevels)
    ensures r.Success? ==> r.value.sqlCondition == Join(" AND ", Parenthesised(Conditions(Dicts(Normalise(levels)))))
    ensures r.Success? && !IsTruthyLabel(labelForCharts) ==>
      r.value.labelForCharts == Some(Join(" AND ", Parenthesised(EffectiveLabels(Dicts(Normalise(levels)), r.value.dialect, std))))
  {
    assert Separator(AndClause) == " AND ";
    ClMerge(levels, AndClause, labelForCharts, mProbability, isNullLevel, std)
  }

  /** `or_`: the inputs' conditions, each parenthesised, joined by " OR ". */
  function Or(
    levels: seq<LevelOrDict>,
    labelForCharts: Option<string>, mProbability: Option<real>, isNullLevel: Option<bool>,
    std: Standardise): (r: Result<ComparisonLevel, CompositionError>)
    ensures |levels| == 0 ==> r == Failure(NoLevels)
    ensures r.Success? ==> r.value.sqlCondition == Join(" OR ", Parenthesised(Conditions(Dicts(Normalise(levels)))))
    ensures r.Success? && !IsTruthyLabel(labelForCharts) ==>
      r.value.labelForCharts == Some(Join(" OR ", Parenthesised(EffectiveLabels(Dicts(Normalise(levels)), r.value.dialect, std))))
  {
    assert Separator(OrClause) == " OR ";
    ClMerge(levels, OrClause, labelForCharts, mProbability, isNullLevel, std)
  }

  // ---------------------------------------------------------------------------
  // NOT

  /** The mapping `not_` hands to the level constructor. A null-level input gives
      the key `is_null_level` bound to `None`; any other input leaves the key out. */
  function NotAttributes(
    cld: LevelDict, dialect: Option<string>,
    labelForCharts: Option<string>, mProbability: Option<real>, std: Standardise): (r: LevelDict)
    ensures IsNullLevel(cld) ==> r.isNullLevel == NoneValue
    ensures !IsNullLevel(cld) ==> r.isNullLevel == Missing
    ensures r.labelForCharts.Some?
  {
    var flag := if IsNullLevel(cld) then NoneValue else Missing;
    var chartLabel :=
      if IsTruthyLabel(labelForCharts) then labelForCharts.value
      else "NOT (" + LabelForCharts(cld, dialect, std) + ")";
    LevelDict("NOT (" + cld.sqlCondition + ")", Some(chartLabel), flag, StoredProbability(mProbability))
  }

  /** A single argument never carries two dialects, so parsing it cannot fail. */
  lemma SingleInputParses(x: LevelOrDict)
    ensures ParseComparisonLevels([x]).Success?
    ensures ParseComparisonLevels([x]).value.dicts == [AsDict(ToComparisonLevel(x))]
    ensures ParseComparisonLevels([x]).value.dialect == ToComparisonLevel(x).dialect
  {
    var cl := ToComparisonLevel(x);
    assert Normalise([x]) == [cl];
    assert DialectTags([cl]) == if cl.dialect.Some? then {cl.dialect.value} else {};
  }

  /** `not_`: negates one level. */
  function Not(x: LevelOrDict, labelForCharts: Option<string>, mProbability: Option<real>, std: Standardise): (r: ComparisonLevel)
    ensures r.sqlCondition == "NOT (" + ToComparisonLevel(x).sqlCondition + ")"
    ensures r.dialect == ToComparisonLevel(x).dialect
    ensures r.isNullLevel == None
    ensures IsTruthyLabel(labelForCharts) ==> r.labelForCharts == labelForCharts
    ensures !IsTruthyLabel(labelForCharts) ==>
      r.labelForCharts == Some("NOT (" + LabelForCharts(AsDict(ToComparisonLevel(x)), r.dialect, std) + ")")
    ensures r.mProbability == StoredProbability(mProbability)
  {
    SingleInputParses(x);
    var p := ParseComparisonLevels([x]).value;
    FromDict(NotAttributes(p.dicts[0], p.dialect, labelForCharts, mProbability, std), p.dialect)
  }
}
