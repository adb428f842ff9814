/**
 * The bound caster `cast_raw_range_string`: from a column's text to a range
 * value. SQL NULL stays absent, `empty` becomes the range class's empty
 * value, anything else is parsed and its bounds optionally converted by the
 * cursor before the range class's constructor is called.
 */
module Caster {
  import opened Wrappers
  import opened Parser

  /**
   * A bound as the range constructor receives it: the raw text (None when
   * unbounded) when no conversion applies, or what the cursor made of it.
   */
  datatype Bound<T> = Text(text: Option<string>) | Typed(value: T)

  /**
   * The range class `pyrange` the caster builds with: `make` is its
   * constructor, called with both bounds and both flags, and `empty` the value
   * its `empty()` returns. Both are code this model does not see.
   */
  datatype RangeClass<!T, R> = RangeClass(make: (Bound<T>, Bound<T>, bool, bool) -> R, empty: R)

  /** The cursor's `cast(oid, text)`: the host driver's conversion of a scalar's text for a type oid. */
  type CursorCast<T> = (int, Option<string>) -> T

  /**
   * A bound on its way to the constructor: converted by the cursor for the
   * subtype oid when both are given (also when the bound is unbounded), left
   * as raw text otherwise.
   */
  function CastBound<T>(b: Option<string>, cur: Option<CursorCast<T>>, subtypeOid: Option<int>): (v: Bound<T>)
    ensures v.Typed? <==> cur.Some? && subtypeOid.Some?
    ensures v.Typed? ==> v.value == cur.value(subtypeOid.value, b)
    ensures v.Text? ==> v.text == b
  {
    if cur.Some? && subtypeOid.Some? then Typed(cur.value(subtypeOid.value, b)) else Text(b)
  }

  /**
   * `cast_raw_range_string(pyrange, text, cur, subtype_oid)`: Ok(None) for SQL
   * NULL, the parser's error for a literal it cannot read, and otherwise the
   * range the class builds.
   */
  function CastRawRangeString<T, R>(pyrange: RangeClass<T, R>, text: Option<string>,
                                    cur: Option<CursorCast<T>>, subtypeOid: Option<int>)
    : (r: Result<Option<R>, ParseError>)
    ensures text.None? ==> r == Ok(None)
    ensures r.Ok? && r.value.None? ==> text.None?
    ensures r.Err? <==> text.Some? && Parse(text.value).Err?
    ensures text == Some("empty") ==> r == Ok(Some(pyrange.empty))
    ensures text.Some? && Parse(text.value).Ok? && !Parse(text.value).value.empty ==>
              var raw := Parse(text.value).value;
              r == Ok(Some(pyrange.make(CastBound(raw.lower, cur, subtypeOid), CastBound(raw.upper, cur, subtypeOid),
                                        raw.lowerInc, raw.upperInc)))
  {
    match text
    case None => Ok(None)
    case Some(s) =>
      match Parse(s)
      case Err(e) => Err(e)
      case Ok(raw) =>
        if raw.empty then Ok(Some(pyrange.empty))
        else
          Ok(Some(pyrange.make(CastBound(raw.lower, cur, subtypeOid), CastBound(raw.upper, cur, subtypeOid),
                               raw.lowerInc, raw.upperInc)))
  }

  /** What decoding a written record should give: the class's empty value, or its constructor on the record's bounds and flags. */
  function Expected<T, R>(pyrange: RangeClass<T, R>, r: RawRange, cur: Option<CursorCast<T>>, subtypeOid: Option<int>): R {
    if r.empty then pyrange.empty
    else pyrange.make(CastBound(r.lower, cur, subtypeOid), CastBound(r.upper, cur, subtypeOid), r.lowerInc, r.upperInc)
  }

  /**
   * Decoding the literal of a record hands the range class exactly that
   * record's bounds and flags: unchanged text without a cursor, the
   * cursor's conversion of that text with one.
   */
  lemma DecodeWritten<T, R>(pyrange: RangeClass<T, R>, r: RawRange, cur: Option<CursorCast<T>>, subtypeOid: Option<int>)
    requires Writable(r) && !LoneComma(r.lower, r.upper)
    ensures CastRawRangeString(pyrange, Some(Render(r)), cur, subtypeOid) == Ok(Some(Expected(pyrange, r, cur, subtypeOid)))
  {
    RenderRoundTrip(r);
  }

  /** Without a cursor the decode pipeline is a text-only round trip: the constructor receives the written bounds verbatim. */
  lemma DecodeWrittenText<T, R>(pyrange: RangeClass<T, R>, r: RawRange, subtypeOid: Option<int>)
    requires Writable(r) && !LoneComma(r.lower, r.upper) && !r.empty
    ensures CastRawRangeString(pyrange, Some(Render(r)), None, subtypeOid)
            == Ok(Some(pyrange.make(Text(r.lower), Text(r.upper), r.lowerInc, r.upperInc)))
  {
    DecodeWritten(pyrange, r, None, subtypeOid);
  }
}
