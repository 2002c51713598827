# Composition of Splink comparison levels

This project models Splink's comparison-level composition
(`splink/comparison_level_composition.py`): the functions `and_`, `or_` and
`not_` that build a new comparison level from existing ones, together with
their helpers `_cl_merge`, `_label_for_charts`, `_parse_comparison_levels`,
`_to_comparison_level` and `_unify_sql_dialects`.

A comparison level is a SQL boolean condition plus metadata: an optional chart
label, an optional `is_null_level` flag, an optional `m_probability` and the SQL
dialect the level is bound to. Arguments may be level objects or raw mappings;
raw mappings become levels bound to no dialect. The inputs must carry at most
one distinct dialect. AND and OR parenthesise every input condition and join
them with `" AND "` or `" OR "`; the label is built the same way from each
input's effective label unless a truthy label is passed. NOT writes
`NOT (<condition>)`.

Files:

- `wrappers.dfy` (`Wrappers`): `Option` and `Result`.
- `levels.dfy` (`Levels`): the comparison level as a record (`ComparisonLevel`), its
  mapping form (`LevelDict`, with the three-way `NullFlag` for the `is_null_level`
  key), the level-or-mapping argument (`LevelOrDict`), and the constructor and
  `as_dict` as plain field mappings (`FromDict`, `AsDict`).
- `sql_text.dfy` (`SqlText`): `str.join`, character counts and balanced parentheses.
- `composition.dfy` (`Composition`): the operations.
- `properties.dfy` (`CompositionProperties`): lemmas about the operations and worked examples.

`standardise_colnames_in_sql` is passed to every operation as a function
parameter `std: (string, Option<string>) -> string`, so no lemma depends on what it does.

Two behaviours of the code are modelled as written:

- In `_cl_merge` an explicit `is_null_level` argument only stops the automatic
  flag (`splink/comparison_level_composition.py:213`). It is never written into
  the result. An override of `False` therefore gives a result without the key,
  not one with the key set to false, although the docstrings of `and_` and
  `or_` say any attribute can be overridden by keyword argument and that
  `is_null_level=True` stops m and u estimation (`:21-23`, `:33-35`, `:83-85`,
  `:95-97`). Equally, `and_` of two null levels with `is_null_level=True` gives
  a level that is not a null level. `OrOverrideExample` and
  `AndTrueOverrideExample` show both cases.
- The label and `m_probability` overrides are tested for truthiness
  (`:187`, `:191`, `:217`, `:223`): an empty label or a zero probability counts as not passed.

## Model

| member | source | states |
|---|---|---|
| `Composition.ToComparisonLevel` | splink/comparison_level_composition.py:248-252 | a level object is returned unchanged; a raw mapping becomes a level bound to no dialect that keeps the mapping's condition, label, probability and null flag |
| `Composition.UnifySqlDialects` | splink/comparison_level_composition.py:255-262 | fails with a dialect conflict exactly when the levels carry two or more distinct dialects; returns `None` exactly when none is tagged; otherwise returns the one tag all tagged levels share |
| `Composition.ParseComparisonLevels` | splink/comparison_level_composition.py:239-245 | fails exactly when the normalised arguments carry conflicting dialects; otherwise returns their mappings in argument order together with the reconciled dialect |
| `Composition.LabelForCharts` | splink/comparison_level_composition.py:229-236 | the effective label of a null level is the standardised condition for the dialect; for any other level it is its label if present, else its condition |
| `Composition.StoredProbability` | splink/comparison_level_composition.py:223-224 | the result holds a probability exactly when the caller passed a truthy one, and then it is the caller's |
| `Composition.MergeAttributes` | splink/comparison_level_composition.py:208-224 | the `is_null_level` key of the merged mapping is either `True` or absent, is `True` exactly when no override was passed and every input is a null level, so an override is never written; the label key is always present |
| `Composition.ClMerge` | splink/comparison_level_composition.py:197-226 | zero levels fail with the empty-input error, before any dialect check; otherwise a dialect conflict fails exactly when the inputs carry two or more tags; on success the condition is the inputs' conditions parenthesised and clause-joined in order, the null flag is true exactly when no override was passed and every input is a null level (else absent), a truthy label override is used verbatim, otherwise the label is the inputs' effective labels parenthesised and clause-joined, the probability is only the caller's truthy one, and the dialect is the reconciled one |
| `Composition.And` | splink/comparison_level_composition.py:62-68 | zero levels fail; on success the condition is `"(" + c + ")"` for each input condition joined by `" AND "` in input order, and without a label override the label is the effective labels joined the same way |
| `Composition.Or` | splink/comparison_level_composition.py:124-130 | zero levels fail; on success the condition is `"(" + c + ")"` for each input condition joined by `" OR "` in input order, and without a label override the label is the effective labels joined the same way |
| `Composition.NotAttributes` | splink/comparison_level_composition.py:178-192 | the negated mapping binds `is_null_level` to `None` when the input is a null level and leaves the key out otherwise; the label key is always present |
| `Composition.SingleInputParses` | splink/comparison_level_composition.py:177 | parsing a single argument never fails, yields that argument's mapping and keeps its dialect |
| `Composition.Not` | splink/comparison_level_composition.py:177-194 | the condition is `"NOT (" + c + ")"`; the level keeps the input's dialect; it is never a null level; a truthy label override is used verbatim, otherwise the label is `"NOT (" + effective label + ")"`; the probability is only the caller's truthy one |
| `CompositionProperties.ComposedSplit` | splink/comparison_level_composition.py:209-210 | composing a concatenation of two non-empty lists is composing each list and joining the two with the clause, so each term appears once and in input order |
| `CompositionProperties.ComposedParenCount` | splink/comparison_level_composition.py:209-210 | a composition of n parts has exactly n more opening and n more closing parentheses than the parts together: one parenthesised term per input |
| `CompositionProperties.ComposedBalanced` | splink/comparison_level_composition.py:220-221 | composing balanced parts gives balanced text |
| `CompositionProperties.MergedConditionSplit` | splink/comparison_level_composition.py:207-210 | when merging `a + b` succeeds, merging `a` and merging `b` succeed too, and the merged condition is theirs joined by the clause |
| `CompositionProperties.MergedConditionBalanced` | splink/comparison_level_composition.py:209-210 | if every input condition is balanced, so is the merged condition |
| `CompositionProperties.NegatedConditionBalanced` | splink/comparison_level_composition.py:180 | if the input condition is balanced, so is the negated one |
| `CompositionProperties.LabelMirrorsCondition` | splink/comparison_level_composition.py:217-221 | without a label override, when no input is a null level or has a label, the merged label equals the merged condition |
| `CompositionProperties.NonNullInputClearsFlag` | splink/comparison_level_composition.py:212-215 | a single input that is not a null level leaves the merged level without the flag |
| `CompositionProperties.UntaggedNeverConflicts` | splink/comparison_level_composition.py:256-257 | inserting an untagged level anywhere in the inputs never changes the reconciled dialect or causes a conflict |
| `CompositionProperties.DistinctDialectsConflict` | splink/comparison_level_composition.py:258-259 | two levels tagged with different dialects always conflict |
| `CompositionProperties.SharedDialect` | splink/comparison_level_composition.py:260-262 | when at least one level is tagged and every tagged level has the same tag, that tag is the reconciled dialect |
| `CompositionProperties.AndExample` | splink/comparison_level_composition.py:209-221 | `and_` of the raw conditions `a_l = a_r` and `b_l = b_r` gives condition and label `(a_l = a_r) AND (b_l = b_r)`, no flag, no probability, no dialect |
| `CompositionProperties.OrOverrideExample` | splink/comparison_level_composition.py:212-215 | `or_` of `x` and a null level `y` with `is_null_level=False` gives `(x) OR (y)` and a result without the flag |
| `CompositionProperties.AndTrueOverrideExample` | splink/comparison_level_composition.py:212-215 | `and_` of two null levels with `is_null_level=True` gives a result without the flag, because the override only suppresses the automatic flag and is never written |
| `CompositionProperties.NotNullLevelExample` | splink/comparison_level_composition.py:182-188 | negating a null level binds `is_null_level` to `None` in the mapping, and the label is the negated standardised condition |

## Left out

- `scripts/preprocess.py`: documentation include expansion over the filesystem; not part of the matching logic.
- The `ComparisonLevel` class and `standardise_colnames_in_sql` (`splink/comparison_level_composition.py:5-6`) are not part of this model. The class is a record built and serialised by plain field mappings (`FromDict`, `AsDict`): a mapping key bound to `None` and an absent key both give an absent attribute, and any other keys the real class adds or drops are not modelled. The standardisation function is a parameter about which nothing is assumed.
- `Composition.Not`: at the level of the returned record, an `is_null_level` key bound to `None` and an absent key look the same, because what the constructor does with a `None` value is outside the model; the difference is stated on `Composition.NotAttributes`.
- `m_probability` is an opaque real: floating-point values such as NaN are not modelled, and truthiness is "non-zero".
- Raw mappings hold only well-typed values: a label that is a string, a null flag that is a boolean or `None`. Python would accept any value there.
- The text of the two `ValueError` messages; they are the `NoLevels` and `DialectConflict` errors.
- `Not` takes exactly one level and named overrides. Python's signature `not_(cll, label_for_charts=None, m_probability=None)` (`:133-137`) also accepts a second and third positional argument and binds them to the label and probability overrides; it raises only for no argument or more than three. A level passed that way as the label would be stored verbatim as the label; the model does not represent such calls.
- Label and probability overrides that are not a string or a number are not modelled: `And`, `Or` and `Not` type them as `Option<string>` and `Option<real>`, whereas the code stores any truthy value verbatim (`:186-187`, `:191-192`, `:217-218`, `:223-224`).
- The docstring examples that use the DuckDB level libraries (`splink/comparison_level_composition.py:38-55`, `:100-117`, `:156-170`): that library code is not part of this model.
