/**
 * The literal parser `parse_raw_range_string`: the literal `empty` becomes
 * the empty sentinel; anything else is scanned and the bounds and flags are
 * read from fixed token positions, trusting the literal to be well formed.
 */
module Parser {
  import opened Wrappers
  import opened Lexer

  /** The `rawrange` record: the textual bounds (None where unbounded), the two inclusivity flags and the empty flag. */
  datatype RawRange = RawRange(lower: Option<string>, upper: Option<string>, lowerInc: bool, upperInc: bool, empty: bool)

  /** `empty_rawrange`, the one record for the literal `empty`: no bounds, no flags, `empty` set. */
  const EmptyRawRange: RawRange := RawRange(None, None, false, false, true)

  /** The `IndexError` raised by `tokens[2]` or `tokens[-3]` on a literal of fewer than three tokens. */
  datatype ParseError = IndexError

  /**
   * The record read from the token positions: the first and last tokens give
   * the flags, the token before a comma in third position is the lower
   * bound, the token after a comma in third-from-last position is the upper
   * bound. Nothing else about the tokens is checked.
   */
  function FromTokens(tokens: seq<string>): (r: Result<RawRange, ParseError>)
    ensures r.Err? <==> |tokens| < 3
    ensures r.Ok? ==> !r.value.empty
    ensures r.Ok? ==> (r.value.lowerInc <==> tokens[0] == "[")
    ensures r.Ok? ==> (r.value.upperInc <==> tokens[|tokens| - 1] == "]")
    ensures r.Ok? ==> (r.value.lower.Some? <==> tokens[2] == ",")
    ensures r.Ok? && r.value.lower.Some? ==> r.value.lower.value == tokens[1]
    ensures r.Ok? ==> (r.value.upper.Some? <==> tokens[|tokens| - 3] == ",")
    ensures r.Ok? && r.value.upper.Some? ==> r.value.upper.value == tokens[|tokens| - 2]
  {
    if |tokens| < 3 then Err(IndexError)
    else
      Ok(RawRange(
           if tokens[2] == "," then Some(tokens[1]) else None,
           if tokens[|tokens| - 3] == "," then Some(tokens[|tokens| - 2]) else None,
           tokens[0] == "[",
           tokens[|tokens| - 1] == "]",
           false))
  }

  /**
   * `parse_raw_range_string(s)`: the sentinel for `empty`, otherwise the
   * positional reading of the scanned tokens. Only the exact literal `empty`
   * yields a record marked empty.
   */
  function Parse(s: string): (r: Result<RawRange, ParseError>)
    ensures r.Ok? && r.value.empty <==> s == "empty"
    ensures r.Ok? && r.value.empty ==> r.value == EmptyRawRange
  {
    if s == "empty" then Ok(EmptyRawRange) else FromTokens(Scan(s).tokens)
  }

  /** The opening and closing delimiters for the given flags. */
  function Open(inc: bool): string { if inc then "[" else "(" }
  function Close(inc: bool): string { if inc then "]" else ")" }

  // ---------------------------------------------------------------------
  // Literals, and reading them back
  // ---------------------------------------------------------------------

  /** How one bound is spelled in a literal. */
  datatype Spelling =
    | Unbounded                          // nothing between the delimiter and the comma
    | Bare(text: string)                 // an unquoted value
    | Quoted(quote: char, body: string)  // a quoted value, its escapes still in place

  /** A spelling the scanner reads as exactly one token (or none, when unbounded), whatever punctuation follows. */
  predicate WellSpelled(sp: Spelling) {
    match sp
    case Unbounded => true
    case Bare(v) => |v| > 0 && !IsQuote(v[0]) && forall i :: 0 <= i < |v| ==> IsRunChar(v[i])
    case Quoted(q, b) => IsQuote(q) && Body(b, q)
  }

  /** The characters of a spelling. */
  function Spell(sp: Spelling): string {
    match sp
    case Unbounded => ""
    case Bare(v) => v
    case Quoted(q, b) => [q] + b + [q]
  }

  /** The bound text a spelling stands for: a quoted value with its escapes decoded. */
  function Meaning(sp: Spelling): Option<string> {
    match sp
    case Unbounded => None
    case Bare(v) => Some(v)
    case Quoted(_, b) => Some(Unescape(b))
  }

  /** A non-empty range literal: delimiters, the two bounds, the comma and the whitespace `gap` after it. */
  function Literal(lowerInc: bool, lower: Spelling, gap: string, upper: Spelling, upperInc: bool): string {
    Open(lowerInc) + Spell(lower) + "," + gap + Spell(upper) + Close(upperInc)
  }

  /** The tokens a bound yields: none when unbounded, its text when present. */
  function BoundTokens(b: Option<string>): seq<string> {
    match b
    case None => []
    case Some(v) => [v]
  }

  /**
   * Exactly one bound present, and its text is a single comma: once its
   * quotes are gone it reads as the comma token, and the positional reading
   * then finds a bound on both sides.
   */
  predicate LoneComma(lower: Option<string>, upper: Option<string>) {
    (lower == Some(",") && upper.None?) || (lower.None? && upper == Some(","))
  }

  /** A well-spelled bound followed by punctuation yields exactly the token of its meaning. */
  lemma ScanSpelling(sp: Spelling, rest: string)
    requires WellSpelled(sp)
    requires |rest| > 0 && IsPunct(rest[0])
    ensures Scan(Spell(sp) + rest).tokens == BoundTokens(Meaning(sp)) + Scan(rest).tokens
  {
    match sp
    case Unbounded =>
      assert Spell(sp) + rest == rest;
    case Bare(v) =>
      ScanUnquoted(v, rest);
    case Quoted(q, b) =>
      ScanQuoted(q, b, rest);
  }

  /** A literal, split at its punctuation. */
  lemma LiteralShape(lowerInc: bool, lower: Spelling, gap: string, upper: Spelling, upperInc: bool)
    ensures Literal(lowerInc, lower, gap, upper, upperInc)
            == [Open(lowerInc)[0]] + (Spell(lower) + ([','] + (gap + (Spell(upper) + [Close(upperInc)[0]]))))
  {
    assert Open(lowerInc) == [Open(lowerInc)[0]] && Close(upperInc) == [Close(upperInc)[0]];
    assert "," == [','];
    Nest(Open(lowerInc), Spell(lower), ",", gap, Spell(upper), Close(upperInc));
  }

  /** Regroups a six-piece concatenation to the right. */
  lemma Nest(a: string, b: string, c: string, d: string, e: string, f: string)
    ensures a + b + c + d + e + f == a + (b + (c + (d + (e + f))))
  {
  }

  /** Regroups the token sequence of a literal to the right. */
  lemma TokenSeq(o: string, a: seq<string>, b: seq<string>, c: string)
    ensures [o] + a + [","] + b + [c] == [o] + (a + ([","] + (b + [c])))
  {
  }

  /** The tokens of a literal: delimiter, lower bound if any, comma, upper bound if any, delimiter. */
  lemma LiteralTokens(lowerInc: bool, lower: Spelling, gap: string, upper: Spelling, upperInc: bool)
    requires WellSpelled(lower) && WellSpelled(upper) && AllSpace(gap)
    ensures Scan(Literal(lowerInc, lower, gap, upper, upperInc)).tokens
            == [Open(lowerInc)] + BoundTokens(Meaning(lower)) + [","] + BoundTokens(Meaning(upper)) + [Close(upperInc)]
  {
    var o, c := Open(lowerInc)[0], Close(upperInc)[0];
    assert Open(lowerInc) == [o] && Close(upperInc) == [c];
    var s3 := Spell(upper) + [c];
    var s2 := [','] + (gap + s3);
    var s1 := Spell(lower) + s2;
    var t4 := Scan([c]).tokens;
    ScanPunct(c, []);
    assert [c] + [] == [c];
    assert t4 == [[c]];
    var t3 := Scan(s3).tokens;
    ScanSpelling(upper, [c]);
    assert t3 == BoundTokens(Meaning(upper)) + t4;
    assert s3[0] == (if |Spell(upper)| > 0 then Spell(upper)[0] else c);
    ScanSpaces(gap, s3);
    var t2 := Scan(s2).tokens;
    ScanPunct(',', gap + s3);
    assert t2 == [","] + t3;
    var t1 := Scan(s1).tokens;
    ScanSpelling(lower, s2);
    assert t1 == BoundTokens(Meaning(lower)) + t2;
    ScanPunct(o, s1);
    LiteralShape(lowerInc, lower, gap, upper, upperInc);
    assert Literal(lowerInc, lower, gap, upper, upperInc) == [o] + s1;
    TokenSeq(Open(lowerInc), BoundTokens(Meaning(lower)), BoundTokens(Meaning(upper)), Close(upperInc));
  }

  /**
   * A literal reads as its delimiters' flags and its bounds' meanings,
   * except when exactly one bound is present and means a single comma.
   */
  lemma LiteralParse(lowerInc: bool, lower: Spelling, gap: string, upper: Spelling, upperInc: bool)
    requires WellSpelled(lower) && WellSpelled(upper) && AllSpace(gap)
    ensures Parse(Literal(lowerInc, lower, gap, upper, upperInc))
              == Ok(RawRange(Meaning(lower), Meaning(upper), lowerInc, upperInc, false))
            <==> !LoneComma(Meaning(lower), Meaning(upper))
  {
    LiteralTokens(lowerInc, lower, gap, upper, upperInc);
    var s := Literal(lowerInc, lower, gap, upper, upperInc);
    assert s != "empty" by {
      LiteralShape(lowerInc, lower, gap, upper, upperInc);
      assert s[0] == '[' || s[0] == '(';
    }
  }

  // ---------------------------------------------------------------------
  // Writing a record as a literal
  // ---------------------------------------------------------------------

  /** How `Render` spells a bound: bare when it can be, else double-quoted with backslash escapes. */
  function SpellingOf(b: Option<string>): Spelling {
    match b
    case None => Unbounded
    case Some(v) => if WellSpelled(Bare(v)) then Bare(v) else Quoted('"', Escape(v))
  }

  /**
   * A range literal in PostgreSQL's input syntax (section 8.17.5 of the
   * PostgreSQL manual) for a record: `empty`, or the delimiters around the
   * two bounds separated by a comma.
   */
  function Render(r: RawRange): string {
    if r.empty then "empty"
    else Literal(r.lowerInc, SpellingOf(r.lower), "", SpellingOf(r.upper), r.upperInc)
  }

  /** True when every character of `v` is ASCII. */
  predicate Ascii(v: string) {
    forall i :: 0 <= i < |v| ==> v[i] < '\U{80}'
  }

  /**
   * A bound `Render` has to quote is ASCII: `_unquote_token` encodes the
   * quoted body as UTF-8 and decodes the bytes one by one, so any other
   * character would come back as its bytes read as Latin-1.
   */
  predicate QuotedAscii(b: Option<string>) {
    b.Some? && !WellSpelled(Bare(b.value)) ==> Ascii(b.value)
  }

  /**
   * A record the literal syntax carries back unchanged: the canonical empty
   * record, or bounds without U+0001 whose quoted spellings are ASCII.
   */
  predicate Writable(r: RawRange) {
    && (r.empty ==> r == EmptyRawRange)
    && (r.lower.Some? ==> Ctrl1 !in r.lower.value)
    && (r.upper.Some? ==> Ctrl1 !in r.upper.value)
    && QuotedAscii(r.lower) && QuotedAscii(r.upper)
  }

  /** `Render` spells every bound without U+0001 so that it means itself. */
  lemma SpellingOfMeans(b: Option<string>)
    requires b.Some? ==> Ctrl1 !in b.value
    ensures WellSpelled(SpellingOf(b)) && Meaning(SpellingOf(b)) == b
  {
    if b.Some? && !WellSpelled(Bare(b.value)) {
      EscapeIsBody(b.value);
      UnescapeEscape(b.value);
    }
  }

  /**
   * Reading back a written record gives the same record, except in the one
   * case the positional reading cannot tell apart: a lone bound whose text is
   * a comma.
   */
  lemma RenderRoundTrip(r: RawRange)
    requires Writable(r)
    ensures Parse(Render(r)) == Ok(r) <==> !LoneComma(r.lower, r.upper)
  {
    if !r.empty {
      SpellingOfMeans(r.lower);
      SpellingOfMeans(r.upper);
      LiteralParse(r.lowerInc, SpellingOf(r.lower), "", SpellingOf(r.upper), r.upperInc);
    }
  }

  /** `[,)`, `(,)`, `(,]` and `[,]`: both bounds absent, the flags given by the delimiters. */
  lemma UnboundedLiteral(lowerInc: bool, upperInc: bool)
    ensures Parse(Open(lowerInc) + "," + Close(upperInc)) == Ok(RawRange(None, None, lowerInc, upperInc, false))
  {
    assert Literal(lowerInc, Unbounded, "", Unbounded, upperInc) == Open(lowerInc) + "," + Close(upperInc);
    LiteralParse(lowerInc, Unbounded, "", Unbounded, upperInc);
  }

  /** `[",",)`: the lone lower bound, once unquoted, is read as both bounds. */
  lemma LoneCommaMisread()
    ensures Parse("[\",\",)") == Ok(RawRange(Some(","), Some(","), true, false, false))
  {
    var lo := Quoted('"', ",");
    assert WellSpelled(lo) && Meaning(lo) == Some(",") by {
      var b := ",";
      assert b[1..] == [] && b[0] == ',';
      assert Unescape(b) == [b[0]] + Unescape(b[1..]);
      assert Unescape(b[1..]) == [];
      assert [b[0]] + [] == b;
    }
    LiteralParse(true, lo, "", Unbounded, false);
    var s := Literal(true, lo, "", Unbounded, false);
    LiteralTokens(true, lo, "", Unbounded, false);
    assert Parse(s) == Ok(RawRange(Some(","), Some(","), true, false, false));
    assert s == "[\",\",)";
  }
}
