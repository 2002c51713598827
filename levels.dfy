/**
  The comparison-level entity that the composition functions consume and produce.

  Its construction from a mapping and its serialisation back to one belong to a
  class that is not part of this model; they are represented here by the plain
  field mappings FromDict and AsDict.
*/
module Levels {
  import opened Wrappers

  /** What a level's mapping holds under the `is_null_level` key:
      no key at all, the key bound to `None`, or the key bound to a boolean. */
  datatype NullFlag = Missing | NoneValue | Flag(b: bool)

  /** A comparison level in mapping form. `labelForCharts` is the `label_for_charts` key
      and `mProbability` the `m_probability` key; `None` means the key is absent. */
  datatype LevelDict = LevelDict(
    sqlCondition: string,
    labelForCharts: Option<string>,
    isNullLevel: NullFlag,
    mProbability: Option<real>)

  /** A built comparison level: its attributes and the SQL dialect it is bound to, if any.
      The probability is only ever passed through, so its value is opaque here. */
  datatype ComparisonLevel = ComparisonLevel(
    sqlCondition: string,
    labelForCharts: Option<string>,
    isNullLevel: Option<bool>,
    mProbability: Option<real>,
    dialect: Option<string>)

  /** An argument of the combinators: a level object or a raw mapping. */
  datatype LevelOrDict = Level(level: ComparisonLevel) | Dict(dict: LevelDict)

  /** Rewrites the column references of a SQL fragment for a dialect.
      It is supplied by the caller, so nothing is known about what it returns. */
  type Standardise = (string, Option<string>) -> string

  /** `d.get("is_null_level", False)` is truthy. */
  predicate IsNullLevel(d: LevelDict) {
    d.isNullLevel == Flag(true)
  }

  /** The level constructor: builds a level from a mapping and a dialect tag. */
  function FromDict(d: LevelDict, dialect: Option<string>): ComparisonLevel {
    var flag := match d.isNullLevel
      case Flag(b) => Some(b)
      case _ => None;
    ComparisonLevel(d.sqlCondition, d.labelForCharts, flag, d.mProbability, dialect)
  }

  /** `as_dict`: the level's attributes as a mapping, with absent attributes left out. */
  function AsDict(cl: ComparisonLevel): LevelDict {
    var flag := match cl.isNullLevel
      case Some(b) => Flag(b)
      case None => Missing;
    LevelDict(cl.sqlCondition, cl.labelForCharts, flag, cl.mProbability)
  }
}
