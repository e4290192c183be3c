/** String literals in T-SQL defaults. `Escape` is `escape_string_literal`; `ReadLiteral` is an
    independent reader of a quoted character-string literal following ISO/IEC 9075-2,
    section 5.3 (<character string literal>): the literal is delimited by single quotes and a
    doubled quote inside it stands for one quote. The lemmas show that quoting an escaped value
    always reads back as that value. */
module SqlStringLiteral {
  import opened Wrappers
  import opened Text

  /** `escape_string_literal`: every `'` doubled. */
  function Escape(s: string): string {
    Replace(s, '\'', "''")
  }

  /** One more character per quote; no other growth. */
  lemma {:induction false} EscapeLength(s: string)
    ensures |Escape(s)| == |s| + Count(s, '\'')
  {
    if s != [] {
      EscapeLength(s[1..]);
    }
  }

  /** `'` + value + `'`, the literal the renderer writes for a string default. */
  function QuotedLiteral(s: string): string {
    "'" + Escape(s) + "'"
  }

  /** Reads a literal body up to its closing quote: returns the value and what follows the
      closing quote, or None when no lone closing quote is found. */
  function ReadBody(t: string): Option<(string, string)>
    decreases |t|
  {
    if t == [] then None
    else if t[0] == '\'' then
      if |t| > 1 && t[1] == '\'' then
        match ReadBody(t[2..])
        case None => None
        case Some(p) => Some(("'" + p.0, p.1))
      else Some(("", t[1..]))
    else
      match ReadBody(t[1..])
      case None => None
      case Some(p) => Some(([t[0]] + p.0, p.1))
  }

  /** The value of a whole quoted literal, or None when `s` is not exactly one literal. */
  function ReadLiteral(s: string): Option<string> {
    if |s| > 0 && s[0] == '\'' then
      match ReadBody(s[1..])
      case Some(p) => if p.1 == "" then Some(p.0) else None
      case None => None
    else None
  }

  lemma {:induction false} ReadBodyEscape(s: string, tail: string)
    requires tail == [] || tail[0] != '\''
    ensures ReadBody(Escape(s) + "'" + tail) == Some((s, tail))
  {
    if s == [] {
      assert Escape(s) == "";
      assert Escape(s) + "'" + tail == "'" + tail;
    } else {
      ReadBodyEscape(s[1..], tail);
      var t := Escape(s) + "'" + tail;
      if s[0] == '\'' {
        assert t == "''" + (Escape(s[1..]) + "'" + tail);
        assert t[2..] == Escape(s[1..]) + "'" + tail;
        assert s == "'" + s[1..];
      } else {
        assert t == [s[0]] + (Escape(s[1..]) + "'" + tail);
        assert t[1..] == Escape(s[1..]) + "'" + tail;
        assert s == [s[0]] + s[1..];
      }
    }
  }

  /** The literal written for `s` reads back as `s`: undoubling gives back the input. */
  lemma LiteralRoundTrip(s: string)
    ensures ReadLiteral(QuotedLiteral(s)) == Some(s)
  {
    var q := QuotedLiteral(s);
    assert q[1..] == Escape(s) + "'" + "";
    ReadBodyEscape(s, "");
  }
}
