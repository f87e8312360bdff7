/**
 * The string codecs of js/ui/format.js: HTML escaping, table-cell
 * formatting, Esri SQL string literals and error messages.
 */
module Format {
  import opened Values

  /** `s.replaceAll(c, rep)` for a one-character pattern. */
  function ReplaceChar(s: string, c: char, rep: string): string {
    if s == [] then [] else (if s[0] == c then rep else [s[0]]) + ReplaceChar(s[1..], c, rep)
  }

  lemma {:induction false} ReplaceCharConcat(a: string, b: string, c: char, rep: string)
    ensures ReplaceChar(a + b, c, rep) == ReplaceChar(a, c, rep) + ReplaceChar(b, c, rep)
    decreases |a|
  {
    if a != [] {
      assert (a + b)[1..] == a[1..] + b;
      ReplaceCharConcat(a[1..], b, c, rep);
    } else {
      assert a + b == b;
    }
  }

  lemma {:induction false} ReplaceCharAbsent(s: string, c: char, rep: string)
    requires c !in s
    ensures ReplaceChar(s, c, rep) == s
    decreases |s|
  {
    if s != [] {
      ReplaceCharAbsent(s[1..], c, rep);
    }
  }

  // ---------------------------------------------------------------
  // escapeHtml
  // ---------------------------------------------------------------

  /** The five `replaceAll` steps of `escapeHtml`, in their order: `&` first. */
  const EscapeSteps: seq<(char, string)> :=
    [('&', "&amp;"), ('<', "&lt;"), ('>', "&gt;"), ('"', "&quot;"), ('\'', "&#039;")]

  /** Applies `replaceAll` steps one after the other. */
  function ApplySteps(s: string, steps: seq<(char, string)>): string
    decreases |steps|
  {
    if steps == [] then s else ApplySteps(ReplaceChar(s, steps[0].0, steps[0].1), steps[1..])
  }

  /** The chain of `escapeHtml`. */
  function EscapeText(s: string): string {
    ApplySteps(s, EscapeSteps)
  }

  /** `escapeHtml(v)`: `String(v ?? '')` escaped. */
  function EscapeHtml(v: Value): (r: string)
    ensures IsNullish(v) ==> r == ""
  {
    EscapeText(ToStrOrEmpty(v))
  }

  /** The characters HTML markup could be built from. */
  predicate IsMarkup(c: char) {
    c == '<' || c == '>' || c == '"' || c == '\''
  }

  /** What one input character becomes. */
  function EscapeChar(c: char): string {
    if c == '&' then "&amp;"
    else if c == '<' then "&lt;"
    else if c == '>' then "&gt;"
    else if c == '"' then "&quot;"
    else if c == '\'' then "&#039;"
    else [c]
  }

  /** Escaping character by character. */
  function EscapeEach(s: string): string {
    if s == [] then [] else EscapeChar(s[0]) + EscapeEach(s[1..])
  }

  lemma {:induction false} ApplyStepsConcat(a: string, b: string, steps: seq<(char, string)>)
    ensures ApplySteps(a + b, steps) == ApplySteps(a, steps) + ApplySteps(b, steps)
    decreases |steps|
  {
    if steps != [] {
      ReplaceCharConcat(a, b, steps[0].0, steps[0].1);
      ApplyStepsConcat(ReplaceChar(a, steps[0].0, steps[0].1), ReplaceChar(b, steps[0].0, steps[0].1), steps[1..]);
    }
  }

  lemma {:induction false} ApplyStepsAbsent(s: string, steps: seq<(char, string)>)
    requires forall k :: 0 <= k < |steps| ==> steps[k].0 !in s
    ensures ApplySteps(s, steps) == s
    decreases |steps|
  {
    if steps != [] {
      ReplaceCharAbsent(s, steps[0].0, steps[0].1);
      ApplyStepsAbsent(s, steps[1..]);
    }
  }

  lemma ReplaceCharSingle(c: char, x: char, rep: string)
    ensures ReplaceChar([c], x, rep) == if c == x then rep else [c]
  {
    assert [c][1..] == [];
  }

  /**
   * A character untouched by the steps before position `j`, replaced at
   * `j`, whose entity no later step touches, comes out as that entity.
   */
  lemma {:induction false} ApplyStepsHit(c: char, steps: seq<(char, string)>, j: nat)
    requires j < |steps| && steps[j].0 == c
    requires forall k :: 0 <= k < j ==> steps[k].0 != c
    requires forall k :: j < k < |steps| ==> steps[k].0 !in steps[j].1
    ensures ApplySteps([c], steps) == steps[j].1
    decreases j
  {
    ReplaceCharSingle(c, steps[0].0, steps[0].1);
    if j == 0 {
      ApplyStepsAbsent(steps[0].1, steps[1..]);
    } else {
      ApplyStepsHit(c, steps[1..], j - 1);
    }
  }

  /** The chain replaces each character independently. */
  lemma EscapeTextChar(c: char)
    ensures EscapeText([c]) == EscapeChar(c)
  {
    var S := EscapeSteps;
    if c == '&' {
      ApplyStepsHit(c, S, 0);
    } else if c == '<' {
      ApplyStepsHit(c, S, 1);
    } else if c == '>' {
      ApplyStepsHit(c, S, 2);
    } else if c == '"' {
      ApplyStepsHit(c, S, 3);
    } else if c == '\'' {
      ApplyStepsHit(c, S, 4);
    } else {
      ApplyStepsAbsent([c], S);
    }
  }

  /** The `replaceAll` chain equals the per-character escape. */
  lemma {:induction false} EscapeTextIsEscapeEach(s: string)
    ensures EscapeText(s) == EscapeEach(s)
    decreases |s|
  {
    if s == [] {
    } else {
      assert s == [s[0]] + s[1..];
      ApplyStepsConcat([s[0]], s[1..], EscapeSteps);
      EscapeTextChar(s[0]);
      EscapeTextIsEscapeEach(s[1..]);
    }
  }

  /**
   * Escaped text: a sequence of the five entities and of characters that
   * are neither markup nor `&`.
   */
  predicate WellEscaped(r: string)
    decreases |r|
  {
    if r == [] then true
    else if r[0] == '&' then
      (StartsWith(r, "&amp;") && WellEscaped(r[5..]))
      || (StartsWith(r, "&lt;") && WellEscaped(r[4..]))
      || (StartsWith(r, "&gt;") && WellEscaped(r[4..]))
      || (StartsWith(r, "&quot;") && WellEscaped(r[6..]))
      || (StartsWith(r, "&#039;") && WellEscaped(r[6..]))
    else !IsMarkup(r[0]) && WellEscaped(r[1..])
  }

  lemma WellEscapedPrefix(e: string, w: string, c: char)
    requires e == EscapeChar(c) && WellEscaped(w)
    ensures WellEscaped(e + w)
  {
    var r := e + w;
    assert r[|e|..] == w;
    if c == '&' {
      assert r[..5] == "&amp;";
    } else if c == '<' {
      assert r[..4] == "&lt;";
    } else if c == '>' {
      assert r[..4] == "&gt;";
    } else if c == '"' {
      assert r[..6] == "&quot;";
    } else if c == '\'' {
      assert r[..6] == "&#039;";
    } else {
      assert r[0] == c && r[1..] == w;
    }
  }

  lemma {:induction false} EscapeEachWellEscaped(s: string)
    ensures WellEscaped(EscapeEach(s))
    decreases |s|
  {
    if s != [] {
      EscapeEachWellEscaped(s[1..]);
      WellEscapedPrefix(EscapeChar(s[0]), EscapeEach(s[1..]), s[0]);
    }
  }

  lemma {:induction false} WellEscapedNoMarkup(r: string)
    requires WellEscaped(r)
    ensures forall i :: 0 <= i < |r| ==> !IsMarkup(r[i])
    decreases |r|
  {
    if r == [] {
    } else if r[0] == '&' {
      var k := if StartsWith(r, "&amp;") && WellEscaped(r[5..]) then 5
        else if StartsWith(r, "&lt;") && WellEscaped(r[4..]) then 4
        else if StartsWith(r, "&gt;") && WellEscaped(r[4..]) then 4
        else 6;
      WellEscapedNoMarkup(r[k..]);
      forall i | 0 <= i < |r| ensures !IsMarkup(r[i]) {
        if i >= k { assert r[i] == r[k..][i - k]; }
      }
    } else {
      WellEscapedNoMarkup(r[1..]);
      forall i | 0 <= i < |r| ensures !IsMarkup(r[i]) {
        if i >= 1 { assert r[i] == r[1..][i - 1]; }
      }
    }
  }

  /**
   * `escapeHtml` output is well escaped: no `<`, `>`, `"` or `'` survives,
   * and every `&` begins one of the five entities.
   */
  lemma EscapeTextSafe(s: string)
    ensures WellEscaped(EscapeText(s))
    ensures forall i :: 0 <= i < |EscapeText(s)| ==> !IsMarkup(EscapeText(s)[i])
  {
    EscapeTextIsEscapeEach(s);
    EscapeEachWellEscaped(s);
    WellEscapedNoMarkup(EscapeText(s));
  }

  /** Entity decoding, the inverse of escaping. */
  function Unescape(r: string): string
    decreases |r|
  {
    if r == [] then []
    else if StartsWith(r, "&amp;") then "&" + Unescape(r[5..])
    else if StartsWith(r, "&lt;") then "<" + Unescape(r[4..])
    else if StartsWith(r, "&gt;") then ">" + Unescape(r[4..])
    else if StartsWith(r, "&quot;") then "\"" + Unescape(r[6..])
    else if StartsWith(r, "&#039;") then "'" + Unescape(r[6..])
    else [r[0]] + Unescape(r[1..])
  }

  lemma UnescapePlain(r: string)
    requires r != [] && r[0] != '&'
    ensures Unescape(r) == [r[0]] + Unescape(r[1..])
  {
    assert !StartsWith(r, "&amp;") && !StartsWith(r, "&lt;") && !StartsWith(r, "&gt;")
      && !StartsWith(r, "&quot;") && !StartsWith(r, "&#039;") by {
      if |r| >= 4 { assert r[..4][0] == r[0]; }
    }
  }

  lemma NotPrefixAt(r: string, p: string, i: nat)
    requires i < |p| && i < |r| && r[i] != p[i]
    ensures !StartsWith(r, p)
  {
  }

  lemma UnescapeStep(c: char, w: string)
    ensures Unescape(EscapeChar(c) + w) == [c] + Unescape(w)
  {
    var e := EscapeChar(c);
    var r := e + w;
    assert r[|e|..] == w;
    if c == '&' {
      assert r[..5] == "&amp;";
    } else if c == '<' {
      assert r[..4] == "&lt;" && r[1] == 'l';
      NotPrefixAt(r, "&amp;", 1);
    } else if c == '>' {
      assert r[..4] == "&gt;" && r[1] == 'g';
      NotPrefixAt(r, "&amp;", 1);
      NotPrefixAt(r, "&lt;", 1);
    } else if c == '"' {
      assert r[..6] == "&quot;" && r[1] == 'q';
      NotPrefixAt(r, "&amp;", 1);
      NotPrefixAt(r, "&lt;", 1);
      NotPrefixAt(r, "&gt;", 1);
    } else if c == '\'' {
      assert r[..6] == "&#039;" && r[1] == '#';
      NotPrefixAt(r, "&amp;", 1);
      NotPrefixAt(r, "&lt;", 1);
      NotPrefixAt(r, "&gt;", 1);
      NotPrefixAt(r, "&quot;", 1);
    } else {
      assert r[0] == c;
      UnescapePlain(r);
    }
  }

  lemma {:induction false} UnescapeEscapeEach(s: string)
    ensures Unescape(EscapeEach(s)) == s
    decreases |s|
  {
    if s != [] {
      UnescapeStep(s[0], EscapeEach(s[1..]));
      UnescapeEscapeEach(s[1..]);
      assert s == [s[0]] + s[1..];
    }
  }

  /** Escaping loses nothing: decoding the entities gives the text back. */
  lemma UnescapeEscape(s: string)
    ensures Unescape(EscapeText(s)) == s
  {
    EscapeTextIsEscapeEach(s);
    UnescapeEscapeEach(s);
  }

  // ---------------------------------------------------------------
  // formatCellValue
  // ---------------------------------------------------------------

  /** `/^https?:\/\//i.test(t)` (the pattern has only ASCII letters). */
  predicate IsHttpUrl(t: string) {
    StartsWith(ToLower(t), "http://") || StartsWith(ToLower(t), "https://")
  }

  const LinkOpen: string := "<a class=\"project-link-btn\" href=\""
  const LinkClose: string := "\" target=\"_blank\" rel=\"noopener noreferrer\">View Page</a>"

  /** `formatCellValue(v)` */
  function FormatCellValue(v: Value): (r: string)
    ensures IsNullish(v) ==> r == ""
  {
    if IsNullish(v) then ""
    else
      var s := ToStr(v);
      var t := Trim(s);
      if IsHttpUrl(t) then LinkOpen + EscapeText(t) + LinkClose
      else ReplaceChar(EscapeText(s), '\n', "<br>")
  }

  /** Turns each `<br>` back into a line break. */
  function BreaksToNewlines(r: string): string
    decreases |r|
  {
    if r == [] then []
    else if StartsWith(r, "<br>") then "\n" + BreaksToNewlines(r[4..])
    else [r[0]] + BreaksToNewlines(r[1..])
  }

  lemma {:induction false} BreaksRoundTrip(e: string)
    requires '<' !in e
    ensures BreaksToNewlines(ReplaceChar(e, '\n', "<br>")) == e
    decreases |e|
  {
    if e != [] {
      var rest := ReplaceChar(e[1..], '\n', "<br>");
      var r := ReplaceChar(e, '\n', "<br>");
      BreaksRoundTrip(e[1..]);
      if e[0] == '\n' {
        assert r == "<br>" + rest;
        assert r[..4] == "<br>" && r[4..] == rest;
      } else {
        assert r == [e[0]] + rest;
        assert r[1..] == rest;
      }
      assert e == [e[0]] + e[1..];
    }
  }

  /**
   * A value that is not an http(s) URL is shown as its own text: decoding
   * `<br>` and then the entities gives `String(v)` back, and no raw line
   * break or markup character remains.
   */
  lemma FormatCellText(v: Value)
    requires !IsNullish(v) && !IsHttpUrl(Trim(ToStr(v)))
    ensures Unescape(BreaksToNewlines(FormatCellValue(v))) == ToStr(v)
    ensures '\n' !in FormatCellValue(v)
    ensures forall i :: 0 <= i < |FormatCellValue(v)| ==> FormatCellValue(v)[i] != '"'
  {
    var s := ToStr(v);
    var e := EscapeText(s);
    EscapeTextSafe(s);
    assert '<' !in e;
    BreaksRoundTrip(e);
    UnescapeEscape(s);
    assert '"' !in e;
    assert '"' !in "<br>";
    ReplaceCharNotIn(e, '\n', "<br>", '"');
    ReplaceCharRemoves(e, '\n', "<br>");
  }

  lemma {:induction false} ReplaceCharRemoves(s: string, c: char, rep: string)
    requires c !in rep
    ensures c !in ReplaceChar(s, c, rep)
    decreases |s|
  {
    if s != [] {
      ReplaceCharRemoves(s[1..], c, rep);
    }
  }

  lemma {:induction false} ReplaceCharNotIn(s: string, c: char, rep: string, d: char)
    requires d !in s && d !in rep
    ensures d !in ReplaceChar(s, c, rep)
    decreases |s|
  {
    if s != [] {
      ReplaceCharNotIn(s[1..], c, rep, d);
    }
  }

  /**
   * A value whose trimmed text starts with `http://` or `https://` in any
   * case becomes the "View Page" link whose href is the escaped trimmed
   * text; the href cannot close its attribute and decodes to the URL.
   */
  lemma FormatCellLink(v: Value)
    requires !IsNullish(v) && IsHttpUrl(Trim(ToStr(v)))
    ensures FormatCellValue(v) == LinkOpen + EscapeText(Trim(ToStr(v))) + LinkClose
    ensures '"' !in EscapeText(Trim(ToStr(v)))
    ensures Unescape(EscapeText(Trim(ToStr(v)))) == Trim(ToStr(v))
  {
    var t := Trim(ToStr(v));
    var e := EscapeText(t);
    EscapeTextSafe(t);
    UnescapeEscape(t);
    assert '"' !in e;
  }

  // ---------------------------------------------------------------
  // safeSqlString and the where clauses built from it
  // ---------------------------------------------------------------

  /** Esri SQL literal escaping of a string: every `'` doubled. */
  function SqlEscape(s: string): string {
    ReplaceChar(s, '\'', "''")
  }

  /** `safeSqlString(v)` */
  function SafeSqlString(v: Value): (r: string)
    ensures IsNullish(v) ==> r == ""
  {
    SqlEscape(ToStrOrEmpty(v))
  }

  /** Each quote costs exactly one extra character. */
  lemma {:induction false} SqlEscapeLength(s: string)
    ensures |SqlEscape(s)| == |s| + Count(s, '\'')
    decreases |s|
  {
    if s != [] {
      SqlEscapeLength(s[1..]);
    }
  }

  /**
   * Reads the body of a SQL string literal whose opening quote has been
   * consumed: `''` stands for one quote, a lone `'` closes the literal.
   * Gives the body and what follows the closing quote.
   */
  function ReadQuoted(r: string): Option<(string, string)>
    decreases |r|
  {
    if r == [] then None
    else if r[0] == '\'' then
      if |r| >= 2 && r[1] == '\'' then
        match ReadQuoted(r[2..])
        case None => None
        case Some(p) => Some(("'" + p.0, p.1))
      else Some(("", r[1..]))
    else
      match ReadQuoted(r[1..])
      case None => None
      case Some(p) => Some(([r[0]] + p.0, p.1))
  }

  /**
   * The escaped text, closed by one quote, reads back as exactly the
   * original string: no input can end the literal early.
   */
  lemma {:induction false} ReadQuotedEscape(s: string, rest: string)
    requires rest == [] || rest[0] != '\''
    ensures ReadQuoted(SqlEscape(s) + "'" + rest) == Some((s, rest))
    decreases |s|
  {
    var r := SqlEscape(s) + "'" + rest;
    if s == [] {
      assert r == "'" + rest;
      assert r[1..] == rest;
    } else {
      var tail := SqlEscape(s[1..]) + "'" + rest;
      ReadQuotedEscape(s[1..], rest);
      assert SqlEscape(s) == (if s[0] == '\'' then "''" else [s[0]]) + SqlEscape(s[1..]);
      if s[0] == '\'' {
        assert r == "''" + tail;
        assert r[0] == '\'' && r[1] == '\'' && r[2..] == tail;
        assert ReadQuoted(r) == Some(("'" + s[1..], rest));
      } else {
        assert r == [s[0]] + tail;
        assert r[0] != '\'' && r[1..] == tail;
        assert ReadQuoted(r) == Some(([s[0]] + s[1..], rest));
      }
      assert s == [s[0]] + s[1..];
    }
  }

  /** `<column> = '<safeSqlString(v)>'` */
  function EqualsLiteral(column: string, v: Value): string {
    column + " = '" + SafeSqlString(v) + "'"
  }

  /** Recovers the literal of a clause `<column> = '...'`, if it is one. */
  function ParseEqualsLiteral(w: string, column: string): Option<string> {
    var head := column + " = '";
    if StartsWith(w, head) then
      match ReadQuoted(w[|head|..])
      case Some(p) => if p.1 == [] then Some(p.0) else None
      case None => None
    else None
  }

  /** The clause compares the column with exactly `String(v ?? '')`. */
  lemma EqualsLiteralRoundTrip(column: string, v: Value)
    ensures ParseEqualsLiteral(EqualsLiteral(column, v), column) == Some(ToStrOrEmpty(v))
  {
    var head := column + " = '";
    var w := EqualsLiteral(column, v);
    assert w == head + (SqlEscape(ToStrOrEmpty(v)) + "'" + []);
    assert w[|head|..] == SqlEscape(ToStrOrEmpty(v)) + "'" + [];
    ReadQuotedEscape(ToStrOrEmpty(v), []);
  }

  // ---------------------------------------------------------------
  // esriErrorToString
  // ---------------------------------------------------------------

  /**
   * What `esriErrorToString` may be given: a primitive, an `Error`, or a
   * plain object with its `message` and the `message` of its `error`
   * property (`undefined` when there is no `error`).
   */
  datatype EsriError =
    | Primitive(v: Value)
    | ErrorInstance(errorMessage: string)
    | Plain(message: Value, innerMessage: Value)

  /**
   * `esriErrorToString(err)`; `None` stands for the `JSON.stringify`
   * fallback, which is not part of this model.
   */
  function EsriErrorToString(e: EsriError): (r: Option<Value>)
    ensures e.Primitive? && !Truthy(e.v) ==> r == Some(Str("Unknown error"))
    ensures e.ErrorInstance? ==> r == Some(Str(e.errorMessage))
    ensures e.Primitive? && e.v.Str? && Truthy(e.v) ==> r == Some(e.v)
    ensures e.Plain? && Truthy(e.message) ==> r == Some(e.message)
    ensures e.Plain? && !Truthy(e.message) && Truthy(e.innerMessage) ==> r == Some(e.innerMessage)
    ensures r.None? <==>
      (e.Primitive? && Truthy(e.v) && !e.v.Str?)
      || (e.Plain? && !Truthy(e.message) && !Truthy(e.innerMessage))
    ensures r.Some? && !e.ErrorInstance? && !(e.Primitive? && !Truthy(e.v)) ==> Truthy(r.value)
  {
    match e
    case Primitive(v) =>
      if !Truthy(v) then Some(Str("Unknown error"))
      else if v.Str? then Some(v)
      else None
    case ErrorInstance(m) => Some(Str(m))
    case Plain(m, inner) =>
      if Truthy(m) then Some(m)
      else if Truthy(inner) then Some(inner)
      else None
  }
}
