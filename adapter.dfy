/**
 * The serializer `adapt_range`: a range value as the SQL text sent for a
 * query parameter, either the cast `'empty'::name` or a call of the range
 * type's constructor with both bounds and the bounds argument.
 */
module Adapter {
  import opened Wrappers

  /**
   * The attributes of a `spans` range that the serializer reads: the bounds,
   * the inclusivity flags, whether each side is unbounded, and whether the
   * range is empty (its truth value is the negation of this).
   */
  datatype RangeValue<T> = RangeValue(lower: T, upper: T, lowerInc: bool, upperInc: bool,
                                      lowerInf: bool, upperInf: bool, empty: bool)

  /** The argument of `adapt_range`: an instance of the `spans` base range type, or any other object. */
  datatype Adaptee<T> = Range(range: RangeValue<T>) | Other

  /** The `ValueError` raised for an argument that does not extend the base range type. */
  datatype AdaptError = NotARange

  /** The character of the bounds argument for the lower side: `[` inclusive, `(` exclusive. */
  function LowerMark(inc: bool): char { if inc then '[' else '(' }

  /** The character of the bounds argument for the upper side: `]` inclusive, `)` exclusive. */
  function UpperMark(inc: bool): char { if inc then ']' else ')' }

  /** A bound as SQL: `NULL` when that side is unbounded, else the driver's quoting of the value. */
  function BoundSql<T>(inf: bool, x: T, quote: T -> string): (sql: string)
    ensures inf ==> sql == "NULL"
    ensures !inf ==> sql == quote(x)
  {
    if inf then "NULL" else quote(x)
  }

  /** The SQL for an empty range of type `pgrange`. */
  function EmptySql(pgrange: string): string {
    "'empty'::" + pgrange
  }

  /**
   * `adapt_range(pgrange, value)`, with `quote` standing for the driver's
   * `adapt(x).getquoted()`.
   */
  function AdaptRange<T>(pgrange: string, value: Adaptee<T>, quote: T -> string): (r: Result<string, AdaptError>)
    ensures r.Err? <==> value.Other?
    ensures value.Range? && value.range.empty ==> r == Ok(EmptySql(pgrange))
    ensures value.Range? && !value.range.empty ==>
              var v := value.range;
              r == Ok(pgrange + "(" + BoundSql(v.lowerInf, v.lower, quote) + ", " + BoundSql(v.upperInf, v.upper, quote)
                      + ", '" + [LowerMark(v.lowerInc), UpperMark(v.upperInc)] + "')")
  {
    match value
    case Other => Err(NotARange)
    case Range(v) =>
      if v.empty then Ok(EmptySql(pgrange))
      else
        Ok(pgrange + "(" + BoundSql(v.lowerInf, v.lower, quote) + ", " + BoundSql(v.upperInf, v.upper, quote)
           + ", '" + [LowerMark(v.lowerInc), UpperMark(v.upperInc)] + "')")
  }

  /**
   * Reads the flags back from a constructor call: the two characters of its
   * bounds argument, which ends the call as `'xy')`.
   */
  function ReadFlags(sql: string): (bool, bool)
    requires |sql| >= 4
  {
    (sql[|sql| - 4] == '[', sql[|sql| - 3] == ']')
  }

  /**
   * For every non-empty range the call opens with the type name and reads back
   * to the range's own flags, whatever the bounds are quoted as.
   */
  lemma FlagsReadBack<T>(pgrange: string, v: RangeValue<T>, quote: T -> string)
    requires !v.empty
    ensures AdaptRange(pgrange, Range(v), quote).Ok?
    ensures var sql := AdaptRange(pgrange, Range(v), quote).value;
            |sql| >= 4 && sql[..|pgrange| + 1] == pgrange + "(" && sql[|sql| - 2..] == "')"
            && ReadFlags(sql) == (v.lowerInc, v.upperInc)
  {
    var sql := AdaptRange(pgrange, Range(v), quote).value;
    var head := pgrange + "(" + BoundSql(v.lowerInf, v.lower, quote) + ", " + BoundSql(v.upperInf, v.upper, quote) + ", '";
    var tail := [LowerMark(v.lowerInc), UpperMark(v.upperInc)] + "')";
    assert sql == head + tail;
    assert |tail| == 4;
    assert sql[|sql| - 4] == tail[0] && sql[|sql| - 3] == tail[1];
    assert sql[|sql| - 2..] == tail[2..];
    assert head[..|pgrange| + 1] == pgrange + "(";
  }

  /**
   * The empty-range cast and the constructor call cannot be confused: for any
   * type name, the result is the empty cast exactly when the range is empty,
   * because the call is longer than the cast.
   */
  lemma EmptyExactly<T>(pgrange: string, v: RangeValue<T>, quote: T -> string)
    ensures AdaptRange(pgrange, Range(v), quote) == Ok(EmptySql(pgrange)) <==> v.empty
  {
    if !v.empty {
      var sql := AdaptRange(pgrange, Range(v), quote).value;
      assert |sql| >= |pgrange| + 10 > |EmptySql(pgrange)|;
    }
  }
}
