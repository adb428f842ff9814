/**
 * The serializer's expected outputs from the package's unit tests. Scalars
 * stand for their own quoting here: `quote` is the identity on the text the
 * driver would produce for each bound.
 */
module AdaptExamples {
  import opened Wrappers
  import opened Adapter

  /** Quoting in these examples: each bound is already the driver's SQL text. */
  function AsQuoted(x: string): string { x }

  /** `intrange(1, 5)` is inclusive below and exclusive above. */
  lemma IntRangeExample()
    ensures AdaptRange("int4range", Range(RangeValue("1", "5", true, false, false, false, false)), AsQuoted)
            == Ok("int4range(1, 5, '[)')")
  {
    assert BoundSql(false, "1", AsQuoted) == "1";
    assert BoundSql(false, "5", AsQuoted) == "5";
    assert [LowerMark(true), UpperMark(false)] == "[)";
    assert "int4range" + "(" + "1" + ", " + "5" + ", '" + "[)" + "')" == "int4range(1, 5, '[)')";
  }

  /** `floatrange(2.5, 10.25, False)`: both sides exclusive. */
  lemma NumRangeExample()
    ensures AdaptRange("numrange", Range(RangeValue("2.5", "10.25", false, false, false, false, false)), AsQuoted)
            == Ok("numrange(2.5, 10.25, '()')")
  {
    assert BoundSql(false, "2.5", AsQuoted) == "2.5";
    assert BoundSql(false, "10.25", AsQuoted) == "10.25";
    assert [LowerMark(false), UpperMark(false)] == "()";
    assert "numrange" + "(" + "2.5" + ", " + "10.25" + ", '" + "()" + "')" == "numrange(2.5, 10.25, '()')";
  }

  /**
   * A date range: the driver quotes each date with a `::date` cast, and the
   * call places that text between the type name and the bounds argument.
   */
  lemma DateRangeExample()
    ensures AdaptRange("daterange", Range(RangeValue("'2013-01-01'::date", "'2013-02-15'::date", true, false, false, false, false)), AsQuoted)
            == Ok("daterange(" + "'2013-01-01'::date" + ", " + "'2013-02-15'::date" + ", '[)')")
  {
    var lo, hi := "'2013-01-01'::date", "'2013-02-15'::date";
    assert "daterange" + "(" == "daterange(";
    assert [LowerMark(true), UpperMark(false)] == "[)";
    assert ", '" + "[)" + "')" == ", '[)')";
    assert "daterange(" + lo + ", " + hi + ", '" + "[)" + "')" == "daterange(" + lo + ", " + hi + (", '" + "[)" + "')");
  }

  /** A timestamp range unbounded below: its lower bound is written `NULL` whatever the value holds. */
  lemma UnboundedBelowExample(anyLower: string)
    ensures AdaptRange("tsrange", Range(RangeValue(anyLower, "'2013-01-01T04:50:00'::timestamp", false, false, true, false, false)), AsQuoted)
            == Ok("tsrange(NULL, " + "'2013-01-01T04:50:00'::timestamp" + ", '()')")
  {
    var hi := "'2013-01-01T04:50:00'::timestamp";
    assert "tsrange" + "(" + "NULL" + ", " == "tsrange(NULL, ";
    assert [LowerMark(false), UpperMark(false)] == "()";
    assert ", '" + "()" + "')" == ", '()')";
    assert "tsrange(NULL, " + hi + ", '" + "()" + "')" == "tsrange(NULL, " + hi + (", '" + "()" + "')");
  }

  /** `intrange.empty()` becomes a cast of the literal `empty`. */
  lemma EmptyRangeExample(v: RangeValue<string>)
    requires v.empty
    ensures AdaptRange("int4range", Range(v), AsQuoted) == Ok("'empty'::int4range")
  {
    assert EmptySql("int4range") == "'empty'::int4range";
  }

  /** `None` is not a range and is refused. */
  lemma NotARangeExample()
    ensures AdaptRange<string>("int4range", Other, AsQuoted) == Err(NotARange)
  {
  }
}
