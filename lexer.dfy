/**
 * The lexer of the range-literal codec: the four-rule scanner table
 * `raw_range_scanner` and its quoted-value action `_unquote_token`.
 *
 * `re.Scanner` tries its rules in order at the front of the unread text,
 * takes the first that matches, runs that rule's action on the matched text
 * and goes on after the match; it stops where no rule matches and returns the
 * tokens together with the unread remainder. `Match` is one such step and
 * `Scan` the whole loop, written as recursion over the remaining suffix.
 */
module Lexer {
  import opened Wrappers

  /** `[`, `]`, `(`, `)` and `,`: each one is a token of its own. */
  predicate IsPunct(c: char) {
    c == '[' || c == ']' || c == '(' || c == ')' || c == ','
  }

  /** The two characters that can open a quoted value. */
  predicate IsQuote(c: char) {
    c == '\'' || c == '"'
  }

  /**
   * `\s` in the scanner's rules: space, tab, line feed, vertical tab, form
   * feed and carriage return. `re.Scanner` compiles its combined pattern
   * without the UNICODE flag, so `\s` is this ASCII set on text patterns too.
   */
  predicate IsSpace(c: char) {
    c == ' ' || ('\t' <= c <= '\r')
  }

  /** A character the unquoted-value class `[^\[\]\(\),\s]` admits (quote characters included). */
  predicate IsRunChar(c: char) {
    !IsPunct(c) && !IsSpace(c)
  }

  /**
   * Inside the character class `[^\1\\]` the `\1` is not a back-reference but
   * the octal escape for U+0001: the class excludes this character and the
   * backslash, and nothing else (either quote character may appear).
   */
  const Ctrl1: char := '\U{1}'

  // ---------------------------------------------------------------------
  // Quoted values: (['"])(?:[^\1\\]|\\.)*?\1
  // ---------------------------------------------------------------------

  /**
   * `b` is a complete body of a value quoted with `q`: a sequence of plain
   * characters (anything but `q`, a backslash or U+0001) and escape pairs (a
   * backslash and one more character other than a newline, which `.` does
   * not match). A `q` can only occur escaped, so the body ends at the first
   * same quote that is not part of an escape pair.
   */
  predicate Body(b: string, q: char)
    decreases |b|
  {
    if |b| == 0 then true
    else if b[0] == '\\' then |b| >= 2 && b[1] != '\n' && Body(b[2..], q)
    else b[0] != q && b[0] != Ctrl1 && Body(b[1..], q)
  }

  /**
   * The length of the body of a value quoted with `q`, where `t` is the text
   * after the opening quote, or None when the rule does not match. The lazy
   * `*?` first tries to close with `q`; otherwise exactly one alternative
   * can consume the next character, so the walk is deterministic.
   */
  function BodyLen(t: string, q: char): (r: Option<nat>)
    requires IsQuote(q)
    ensures r.Some? ==> r.value < |t| && t[r.value] == q && Body(t[..r.value], q)
    decreases |t|
  {
    if |t| == 0 then None
    else if t[0] == q then Some(0)
    else if t[0] == '\\' then
      if |t| >= 2 && t[1] != '\n' then
        match BodyLen(t[2..], q)
        case None => None
        case Some(n) =>
          assert t[..n + 2][2..] == t[2..][..n];
          Some(n + 2)
      else None
    else if t[0] == Ctrl1 then None
    else
      match BodyLen(t[1..], q)
      case None => None
      case Some(n) =>
        assert t[..n + 1][1..] == t[1..][..n];
        Some(n + 1)
  }

  /** The quoted rule closes a value exactly at the first same quote that ends a complete body. */
  lemma {:induction false} BodyLenIsFirstClose(t: string, q: char, n: nat)
    requires IsQuote(q)
    ensures BodyLen(t, q) == Some(n) <==> (n < |t| && t[n] == q && Body(t[..n], q))
    decreases n
  {
    if n < |t| && t[n] == q && Body(t[..n], q) && n > 0 {
      if t[0] == '\\' {
        assert t[..n][2..] == t[2..][..n - 2];
        BodyLenIsFirstClose(t[2..], q, n - 2);
      } else {
        assert t[..n][1..] == t[1..][..n - 1];
        BodyLenIsFirstClose(t[1..], q, n - 1);
      }
    }
  }

  /**
   * The character an escape pair `\c` stands for under Python's
   * `unicode_escape` codec, for the single-character escapes; None for a pair
   * this model keeps as it is.
   */
  function EscapeValue(c: char): Option<char> {
    match c
    case '\\' => Some('\\')
    case '\'' => Some('\'')
    case '"' => Some('"')
    case 'a' => Some('\U{7}')
    case 'b' => Some('\U{8}')
    case 'f' => Some('\U{C}')
    case 'n' => Some('\n')
    case 'r' => Some('\r')
    case 't' => Some('\t')
    case 'v' => Some('\U{B}')
    case _ => None
  }

  /**
   * The escape decoding `_unquote_token` applies to a quoted body: each
   * escape pair collapses to the character it denotes; any other character
   * stands for itself.
   */
  function Unescape(b: string): (u: string)
    ensures |u| <= |b|
    decreases |b|
  {
    if |b| == 0 then []
    else if b[0] == '\\' && |b| >= 2 then
      (match EscapeValue(b[1]) case Some(d) => [d] case None => b[..2]) + Unescape(b[2..])
    else [b[0]] + Unescape(b[1..])
  }

  /** A body without backslashes decodes to itself: only escape pairs change. */
  lemma {:induction false} UnescapePlain(b: string)
    requires '\\' !in b
    ensures Unescape(b) == b
    decreases |b|
  {
    if |b| > 0 {
      assert '\\' !in b[1..] by {
        assert forall i :: 0 <= i < |b| - 1 ==> b[1..][i] == b[i + 1];
      }
      UnescapePlain(b[1..]);
      assert b == [b[0]] + b[1..];
    }
  }

  /** Writes `v` as the body of a double-quoted value: a backslash before each backslash and each double quote. */
  function Escape(v: string): (e: string)
    ensures |e| >= |v|
    decreases |v|
  {
    if |v| == 0 then []
    else (if v[0] == '\\' || v[0] == '"' then ['\\', v[0]] else [v[0]]) + Escape(v[1..])
  }

  /** Decoding undoes `Escape`: a double-quoted body written by `Escape` reads back as the original text. */
  lemma {:induction false} UnescapeEscape(v: string)
    ensures Unescape(Escape(v)) == v
    decreases |v|
  {
    if |v| > 0 {
      UnescapeEscape(v[1..]);
      var e := Escape(v);
      if v[0] == '\\' || v[0] == '"' {
        assert e[0] == '\\' && e[1] == v[0] && e[2..] == Escape(v[1..]);
      } else {
        assert e[0] == v[0] && e[1..] == Escape(v[1..]);
      }
    }
  }

  /** `Escape` yields a complete double-quoted body for every text without U+0001. */
  lemma {:induction false} EscapeIsBody(v: string)
    requires Ctrl1 !in v
    ensures Body(Escape(v), '"')
    decreases |v|
  {
    if |v| > 0 {
      EscapeIsBody(v[1..]);
      var e := Escape(v);
      if v[0] == '\\' || v[0] == '"' {
        assert e[2..] == Escape(v[1..]);
      } else {
        assert e[1..] == Escape(v[1..]);
      }
    }
  }

  // ---------------------------------------------------------------------
  // Unquoted values and whitespace
  // ---------------------------------------------------------------------

  /** The length of the maximal unquoted value at the front of `s` (the greedy `[^\[\]\(\),\s]+`). */
  function RunLen(s: string): (n: nat)
    ensures n <= |s|
    ensures forall i :: 0 <= i < n ==> IsRunChar(s[i])
    ensures n < |s| ==> !IsRunChar(s[n])
    decreases |s|
  {
    if |s| == 0 || !IsRunChar(s[0]) then 0 else 1 + RunLen(s[1..])
  }

  /** The length of the maximal run of whitespace at the front of `s` (the greedy `\s+`). */
  function SpaceLen(s: string): (n: nat)
    ensures n <= |s|
    ensures forall i :: 0 <= i < n ==> IsSpace(s[i])
    ensures n < |s| ==> !IsSpace(s[n])
    decreases |s|
  {
    if |s| == 0 || !IsSpace(s[0]) then 0 else 1 + SpaceLen(s[1..])
  }

  // ---------------------------------------------------------------------
  // The scanner
  // ---------------------------------------------------------------------

  /** The four rules of the table, in the order the scanner tries them. */
  datatype Rule = QuotedValue | Punctuation | UnquotedValue | Whitespace

  /**
   * One scanner step: the first rule that matches at the front of `s` and
   * the length of its match. Some rule matches at every character: an
   * opening quote that never closes falls through to the unquoted rule, which
   * admits quote characters.
   */
  function Match(s: string): (m: Option<(Rule, nat)>)
    ensures m.None? <==> |s| == 0
    ensures m.Some? ==> 0 < m.value.1 <= |s|
  {
    if |s| == 0 then None
    else if IsQuote(s[0]) && BodyLen(s[1..], s[0]).Some? then
      Some((QuotedValue, BodyLen(s[1..], s[0]).value + 2))
    else if IsPunct(s[0]) then Some((Punctuation, 1))
    else if RunLen(s) > 0 then Some((UnquotedValue, RunLen(s)))
    else Some((Whitespace, SpaceLen(s)))
  }

  /**
   * The rule's action on the matched text: `_unquote_token` drops the first
   * and last character of a quoted value and decodes its escapes,
   * `_raw_token` keeps punctuation and unquoted values, whitespace has none.
   */
  function Action(rule: Rule, text: string): (r: seq<string>)
    requires rule == QuotedValue ==> |text| >= 2
    ensures r == [] <==> rule == Whitespace
    ensures rule != Whitespace ==> |r| == 1
    ensures rule == Punctuation || rule == UnquotedValue ==> r == [text]
    ensures rule == QuotedValue ==> |r[0]| <= |text| - 2
  {
    match rule
    case QuotedValue => [Unescape(text[1..|text| - 1])]
    case Punctuation => [text]
    case UnquotedValue => [text]
    case Whitespace => []
  }

  /** What `scan` returns: the tokens, and the text it could not read. */
  datatype Scanned = Scanned(tokens: seq<string>, rest: string)

  /**
   * `raw_range_scanner.scan(s)`. Every character is covered by some rule, so
   * the remainder the parser discards is always empty; each step consumes at
   * least one character and yields at most one token.
   */
  function Scan(s: string): (r: Scanned)
    ensures r.rest == []
    ensures |r.tokens| <= |s|
    decreases |s|
  {
    match Match(s)
    case None => Scanned([], s)
    case Some((rule, n)) =>
      var tail := Scan(s[n..]);
      Scanned(Action(rule, s[..n]) + tail.tokens, tail.rest)
  }

  /** A quoted value at the front yields its decoded body as one token, whatever follows. */
  lemma ScanQuoted(q: char, b: string, rest: string)
    requires IsQuote(q) && Body(b, q)
    ensures Scan([q] + b + [q] + rest).tokens == [Unescape(b)] + Scan(rest).tokens
  {
    var s := [q] + b + [q] + rest;
    assert s[1..] == b + [q] + rest;
    assert (b + [q] + rest)[..|b|] == b;
    BodyLenIsFirstClose(b + [q] + rest, q, |b|);
    assert s[..|b| + 2][1..|b| + 1] == b;
    assert s[|b| + 2..] == rest;
  }

  /** A punctuation character at the front is a token of its own. */
  lemma ScanPunct(c: char, rest: string)
    requires IsPunct(c)
    ensures Scan([c] + rest).tokens == [[c]] + Scan(rest).tokens
  {
    assert ([c] + rest)[1..] == rest;
  }

  /** True when every character of `w` is whitespace. */
  predicate AllSpace(w: string) {
    forall i :: 0 <= i < |w| ==> IsSpace(w[i])
  }

  /** Whitespace before a token is skipped. */
  lemma ScanSpaces(w: string, rest: string)
    requires AllSpace(w)
    requires |rest| > 0 ==> !IsSpace(rest[0])
    ensures Scan(w + rest).tokens == Scan(rest).tokens
  {
    var s := w + rest;
    if |w| == 0 {
      assert s == rest;
    } else {
      assert !IsRunChar(s[0]) && !IsPunct(s[0]) && !IsQuote(s[0]);
      assert |w| < |s| ==> s[|w|] == rest[0];
      assert SpaceLen(s) == |w|;
      assert s[|w|..] == rest;
    }
  }

  /**
   * A maximal unquoted value is one token, verbatim. It may start with a
   * quote that never closes: the quoted rule then fails and the unquoted rule,
   * which admits quote characters, takes the run.
   */
  lemma ScanUnquoted(v: string, rest: string)
    requires |v| > 0 && forall i :: 0 <= i < |v| ==> IsRunChar(v[i])
    requires IsQuote(v[0]) ==> BodyLen((v + rest)[1..], v[0]).None?
    requires |rest| > 0 ==> !IsRunChar(rest[0])
    ensures Scan(v + rest).tokens == [v] + Scan(rest).tokens
  {
    var s := v + rest;
    assert |rest| > 0 ==> s[|v|] == rest[0];
    assert RunLen(s) == |v|;
    assert s[..|v|] == v && s[|v|..] == rest;
  }

  // ---------------------------------------------------------------------
  // A reference reading of text without quote characters
  // ---------------------------------------------------------------------

  /** True when `s` holds no quote character, so that only three rules apply. */
  predicate QuoteFree(s: string) {
    forall i :: 0 <= i < |s| ==> !IsQuote(s[i])
  }

  /** The unquoted value collected so far, as a token list of at most one element. */
  function Flush(word: string): seq<string> {
    if word == [] then [] else [word]
  }

  /**
   * The three rules for quote-free text read one character at a time:
   * `word` is the unquoted value being collected; punctuation and whitespace
   * end it, punctuation is a token of its own, whitespace yields nothing.
   */
  function Words(s: string, word: string): seq<string>
    decreases |s|
  {
    if |s| == 0 then Flush(word)
    else if IsPunct(s[0]) then Flush(word) + [[s[0]]] + Words(s[1..], [])
    else if IsSpace(s[0]) then Flush(word) + Words(s[1..], [])
    else Words(s[1..], word + [s[0]])
  }

  /** Collecting the first `k` characters of a run extends the word by exactly them. */
  lemma {:induction false} WordsCollect(s: string, word: string, k: nat)
    requires k <= |s| && forall i :: 0 <= i < k ==> IsRunChar(s[i])
    ensures Words(s, word) == Words(s[k..], word + s[..k])
    decreases k
  {
    if k > 0 {
      assert IsRunChar(s[0]);
      assert Words(s, word) == Words(s[1..], word + [s[0]]);
      WordsCollect(s[1..], word + [s[0]], k - 1);
      assert s[1..][k - 1..] == s[k..];
      assert word + [s[0]] + s[1..][..k - 1] == word + s[..k];
    } else {
      assert s[k..] == s && word + s[..k] == word;
    }
  }

  /** A whitespace run between tokens contributes nothing. */
  lemma {:induction false} WordsSkip(s: string, k: nat)
    requires k <= |s| && forall i :: 0 <= i < k ==> IsSpace(s[i])
    ensures Words(s, []) == Words(s[k..], [])
    decreases k
  {
    if k > 0 {
      WordsSkip(s[1..], k - 1);
      assert s[1..][k - 1..] == s[k..];
    }
  }

  /** A collected word is emitted as soon as the run ends. */
  lemma WordsEnd(s: string, word: string)
    requires word != []
    requires |s| > 0 ==> !IsRunChar(s[0])
    ensures Words(s, word) == [word] + Words(s, [])
  {
  }

  /**
   * On quote-free text the scanner agrees with the character-at-a-time
   * reading: each punctuation character is a token, each maximal run of other
   * non-whitespace characters is a token verbatim, and whitespace is dropped.
   */
  lemma {:induction false} ScanQuoteFree(s: string)
    requires QuoteFree(s)
    ensures Scan(s).tokens == Words(s, [])
    decreases |s|
  {
    if |s| > 0 {
      var n := Match(s).value.1;
      assert QuoteFree(s[n..]);
      ScanQuoteFree(s[n..]);
      if IsPunct(s[0]) {
        assert s[..n] == [s[0]];
      } else if RunLen(s) > 0 {
        WordsCollect(s, [], n);
        assert [] + s[..n] == s[..n];
        WordsEnd(s[n..], s[..n]);
      } else {
        WordsSkip(s, n);
      }
    }
  }

  /** A token of the reference reading: one punctuation character, or a non-empty unquoted value. */
  predicate IsToken(t: string) {
    (|t| == 1 && IsPunct(t[0])) || (|t| > 0 && forall i :: 0 <= i < |t| ==> IsRunChar(t[i]))
  }

  /** The reference reading yields only punctuation tokens and non-empty unquoted values. */
  lemma {:induction false} WordsAreTokens(s: string, word: string)
    requires forall i :: 0 <= i < |word| ==> IsRunChar(word[i])
    ensures forall t :: t in Words(s, word) ==> IsToken(t)
    decreases |s|
  {
    if |s| > 0 {
      if IsPunct(s[0]) || IsSpace(s[0]) {
        WordsAreTokens(s[1..], []);
      } else {
        WordsAreTokens(s[1..], word + [s[0]]);
      }
    }
  }

  /** Joined together, the reference reading's tokens spell the input without its whitespace. */
  lemma {:induction false} WordsSpellInput(s: string, word: string)
    ensures Concat(Words(s, word)) == word + NonSpace(s)
    decreases |s|
  {
    FlushSpells(word);
    if |s| > 0 {
      var c := s[0];
      var tail := Words(s[1..], []);
      if IsPunct(c) {
        WordsSpellInput(s[1..], []);
        assert Words(s, word) == Flush(word) + [[c]] + tail;
        assert NonSpace(s) == [c] + NonSpace(s[1..]);
        ConcatAppend(Flush(word) + [[c]], tail);
        ConcatAppend(Flush(word), [[c]]);
        assert Concat([[c]]) == [c];
      } else if IsSpace(c) {
        WordsSpellInput(s[1..], []);
        assert Words(s, word) == Flush(word) + tail;
        assert NonSpace(s) == NonSpace(s[1..]);
        ConcatAppend(Flush(word), tail);
      } else {
        assert Words(s, word) == Words(s[1..], word + [c]);
        assert NonSpace(s) == [c] + NonSpace(s[1..]);
        WordsSpellInput(s[1..], word + [c]);
      }
    }
  }

  lemma FlushSpells(word: string)
    ensures Concat(Flush(word)) == word
  {
    if word != [] {
      assert Concat([word]) == word + Concat([]);
    }
  }

  /** All tokens joined together. */
  function Concat(ts: seq<string>): string
    decreases |ts|
  {
    if |ts| == 0 then [] else ts[0] + Concat(ts[1..])
  }

  /** `s` without its whitespace. */
  function NonSpace(s: string): string
    decreases |s|
  {
    if |s| == 0 then [] else (if IsSpace(s[0]) then [] else [s[0]]) + NonSpace(s[1..])
  }

  lemma {:induction false} ConcatAppend(a: seq<string>, b: seq<string>)
    ensures Concat(a + b) == Concat(a) + Concat(b)
    decreases |a|
  {
    if |a| > 0 {
      assert (a + b)[1..] == a[1..] + b;
      ConcatAppend(a[1..], b);
    } else {
      assert a + b == b;
    }
  }
}
