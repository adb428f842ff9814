/**
 * The literals of the parser's unit tests (test_psycospans.py:45-75), each
 * written as a `Literal` and read through `LiteralParse`.
 */
module ParseExamples {
  import opened Wrappers
  import opened Lexer
  import opened Parser

  /** `[,)`: no bounds, lower inclusive. */
  lemma ClosedOpenUnbounded()
    ensures Parse("[,)") == Ok(RawRange(None, None, true, false, false))
  {
    assert Open(true) + "," + Close(false) == "[,)";
    UnboundedLiteral(true, false);
  }

  /** `(,)`: no bounds, both exclusive. */
  lemma OpenOpenUnbounded()
    ensures Parse("(,)") == Ok(RawRange(None, None, false, false, false))
  {
    assert Open(false) + "," + Close(false) == "(,)";
    UnboundedLiteral(false, false);
  }

  /** `(,]`: no bounds, upper inclusive. */
  lemma OpenClosedUnbounded()
    ensures Parse("(,]") == Ok(RawRange(None, None, false, true, false))
  {
    assert Open(false) + "," + Close(true) == "(,]";
    UnboundedLiteral(false, true);
  }

  /** `[,]`: no bounds, both inclusive. */
  lemma ClosedClosedUnbounded()
    ensures Parse("[,]") == Ok(RawRange(None, None, true, true, false))
  {
    assert Open(true) + "," + Close(true) == "[,]";
    UnboundedLiteral(true, true);
  }

  /** `[1, )`: a lower bound and no upper bound. */
  lemma LowerOnlyExample()
    ensures Parse("[1, )") == Ok(RawRange(Some("1"), None, true, false, false))
  {
    assert AllSpace(" ") && WellSpelled(Bare("1"));
    assert Literal(true, Bare("1"), " ", Unbounded, false) == "[1, )";
    LiteralParse(true, Bare("1"), " ", Unbounded, false);
  }

  /** `[, 2]`: an upper bound and no lower bound. */
  lemma UpperOnlyExample()
    ensures Parse("[, 2]") == Ok(RawRange(None, Some("2"), true, true, false))
  {
    assert AllSpace(" ") && WellSpelled(Bare("2"));
    assert Literal(true, Unbounded, " ", Bare("2"), true) == "[, 2]";
    LiteralParse(true, Unbounded, " ", Bare("2"), true);
  }

  /** `(3, 4)`: both bounds, both exclusive. */
  lemma BothBoundsExample()
    ensures Parse("(3, 4)") == Ok(RawRange(Some("3"), Some("4"), false, false, false))
  {
    assert AllSpace(" ") && WellSpelled(Bare("3")) && WellSpelled(Bare("4"));
    assert Literal(false, Bare("3"), " ", Bare("4"), false) == "(3, 4)";
    LiteralParse(false, Bare("3"), " ", Bare("4"), false);
  }

  /** `[3.5, 4.7)`: bounds longer than one character. */
  lemma DecimalBoundsExample()
    ensures Parse("[3.5, 4.7)") == Ok(RawRange(Some("3.5"), Some("4.7"), true, false, false))
  {
    assert AllSpace(" ") && WellSpelled(Bare("3.5")) && WellSpelled(Bare("4.7"));
    assert Literal(true, Bare("3.5"), " ", Bare("4.7"), false) == "[3.5, 4.7)";
    LiteralParse(true, Bare("3.5"), " ", Bare("4.7"), false);
  }

  /** An escape pair the codec decodes, in front of more body. */
  lemma PairStep(x: char, d: char, rest: string, q: char)
    requires EscapeValue(x) == Some(d) && x != '\n'
    ensures Unescape(['\\', x] + rest) == [d] + Unescape(rest)
    ensures Body(['\\', x] + rest, q) == Body(rest, q)
  {
    assert (['\\', x] + rest)[2..] == rest;
  }

  /** A plain character in front of more body. */
  lemma PlainStep(c: char, rest: string, q: char)
    requires c != '\\'
    ensures Unescape([c] + rest) == [c] + Unescape(rest)
    ensures Body([c] + rest, q) == (c != q && c != Ctrl1 && Body(rest, q))
  {
    assert ([c] + rest)[1..] == rest;
  }

  /** The body `\\, \' \\` quoted with `'`: escaped backslash, comma, space, escaped quote, space, escaped backslash. */
  lemma FirstBody()
    ensures Body("\\\\, \\' \\\\", '\'') && Unescape("\\\\, \\' \\\\") == "\\, ' \\"
  {
    var q := '\'';
    var b5 := ['\\', '\\'] + [];
    var b4 := [' '] + b5;
    var b3 := ['\\', '\''] + b4;
    var b2 := [' '] + b3;
    var b1 := [','] + b2;
    var b0 := ['\\', '\\'] + b1;
    PairStep('\\', '\\', [], q);
    PlainStep(' ', b5, q);
    PairStep('\'', '\'', b4, q);
    PlainStep(' ', b3, q);
    PlainStep(',', b2, q);
    PairStep('\\', '\\', b1, q);
    assert b0 == "\\\\, \\' \\\\";
    assert Unescape(b0) == "\\, ' \\";
  }

  /** The body `\\, \"\' \\` quoted with `'`: both quote characters escaped. */
  lemma SecondBody()
    ensures Body("\\\\, \\\"\\' \\\\", '\'') && Unescape("\\\\, \\\"\\' \\\\") == "\\, \"' \\"
  {
    var q := '\'';
    var b6 := ['\\', '\\'] + [];
    var b5 := [' '] + b6;
    var b4 := ['\\', '\''] + b5;
    var b3 := ['\\', '"'] + b4;
    var b2 := [' '] + b3;
    var b1 := [','] + b2;
    var b0 := ['\\', '\\'] + b1;
    PairStep('\\', '\\', [], q);
    PlainStep(' ', b6, q);
    PairStep('\'', '\'', b5, q);
    PairStep('"', '"', b4, q);
    PlainStep(' ', b3, q);
    PlainStep(',', b2, q);
    PairStep('\\', '\\', b1, q);
    assert b0 == "\\\\, \\\"\\' \\\\";
    assert Unescape(b0) == "\\, \"' \\";
  }

  /** The body `test`. */
  lemma TestBody()
    ensures Body("test", '\'') && Unescape("test") == "test"
  {
    var q := '\'';
    PlainStep('t', [], q);
    PlainStep('s', ['t'], q);
    PlainStep('e', ['s', 't'], q);
    PlainStep('t', ['e', 's', 't'], q);
    assert ['t'] + ['e', 's', 't'] == "test";
  }

  /** The quoted bounds of the escaping examples, as written in the tests. */
  const FirstSpelling: Spelling := Quoted('\'', "\\\\, \\' \\\\")
  const SecondSpelling: Spelling := Quoted('\'', "\\\\, \\\"\\' \\\\")
  const TestSpelling: Spelling := Quoted('\'', "test")

  lemma QuotedExampleSpelled()
    ensures Literal(true, FirstSpelling, " ", TestSpelling, true) == "['\\\\, \\' \\\\', 'test']"
  {
  }

  lemma QuotedExampleRead()
    ensures Parse(Literal(true, FirstSpelling, " ", TestSpelling, true))
            == Ok(RawRange(Some("\\, ' \\"), Some("test"), true, true, false))
  {
    FirstBody();
    TestBody();
    assert AllSpace(" ");
    LiteralParse(true, FirstSpelling, " ", TestSpelling, true);
  }

  /** `['\\, \' \\', 'test']`: escape pairs collapse, and a comma inside quotes stays part of the bound. */
  lemma QuotedExample()
    ensures Parse("['\\\\, \\' \\\\', 'test']") == Ok(RawRange(Some("\\, ' \\"), Some("test"), true, true, false))
  {
    QuotedExampleSpelled();
    QuotedExampleRead();
  }

  lemma MixedQuotesSpelled()
    ensures Literal(true, SecondSpelling, " ", Bare("1"), true) == "['\\\\, \\\"\\' \\\\', 1]"
  {
  }

  lemma MixedQuotesRead()
    ensures Parse(Literal(true, SecondSpelling, " ", Bare("1"), true))
            == Ok(RawRange(Some("\\, \"' \\"), Some("1"), true, true, false))
  {
    SecondBody();
    assert AllSpace(" ") && WellSpelled(Bare("1"));
    LiteralParse(true, SecondSpelling, " ", Bare("1"), true);
  }

  /** `['\\, \"\' \\', 1]`: a quoted lower bound holding both quote characters, an unquoted upper bound. */
  lemma MixedQuotesExample()
    ensures Parse("['\\\\, \\\"\\' \\\\', 1]") == Ok(RawRange(Some("\\, \"' \\"), Some("1"), true, true, false))
  {
    MixedQuotesSpelled();
    MixedQuotesRead();
  }

  lemma QuotedUpperSpelled()
    ensures Literal(true, Bare("1"), " ", FirstSpelling, true) == "[1, '\\\\, \\' \\\\']"
  {
  }

  lemma QuotedUpperRead()
    ensures Parse(Literal(true, Bare("1"), " ", FirstSpelling, true))
            == Ok(RawRange(Some("1"), Some("\\, ' \\"), true, true, false))
  {
    FirstBody();
    assert AllSpace(" ") && WellSpelled(Bare("1"));
    LiteralParse(true, Bare("1"), " ", FirstSpelling, true);
  }

  /** `[1, '\\, \' \\']`: the quoted bound in upper position. */
  lemma QuotedUpperExample()
    ensures Parse("[1, '\\\\, \\' \\\\']") == Ok(RawRange(Some("1"), Some("\\, ' \\"), true, true, false))
  {
    QuotedUpperSpelled();
    QuotedUpperRead();
  }

  /** `empty` and nothing else is the empty sentinel. */
  lemma EmptyExample()
    ensures Parse("empty") == Ok(EmptyRawRange)
    ensures Parse("Empty").Err?
  {
    assert "Empty" != "empty";
    var s := "Empty";
    assert s == ['E'] + s[1..];
    assert RunLen(s) == 5 by {
      assert forall i :: 0 <= i < |s| ==> IsRunChar(s[i]);
    }
    assert s[5..] == [] && s[..5] == s;
    assert Scan(s[5..]).tokens == [];
    assert Scan(s).tokens == [s];
  }

  /**
   * A quote that never closes does not start a quoted value: the unquoted
   * rule takes the run, quote included, verbatim.
   */
  lemma UnclosedQuoteExample()
    ensures Scan("'ab,").tokens == ["'ab", ","]
  {
    var v, rest := "'ab", ",";
    assert (v + rest)[1..] == "ab,";
    var t := "ab,";
    assert BodyLen(t, '\'').None?;
    ScanUnquoted(v, rest);
    assert rest == [','] + [];
    ScanPunct(',', []);
    assert v + rest == "'ab,";
  }

  /**
   * A no-break space is not whitespace to the scanner: it stays in the
   * unquoted run it opens, so `[1,\u00A02)` has upper bound `\u00A02`.
   */
  lemma NoBreakSpaceExample()
    ensures Parse("[1,\U{A0}2)") == Ok(RawRange(Some("1"), Some("\U{A0}2"), true, false, false))
  {
    assert !IsSpace('\U{A0}');
    assert AllSpace("") && WellSpelled(Bare("1")) && WellSpelled(Bare("\U{A0}2"));
    assert Literal(true, Bare("1"), "", Bare("\U{A0}2"), false) == "[1,\U{A0}2)";
    LiteralParse(true, Bare("1"), "", Bare("\U{A0}2"), false);
  }
}
