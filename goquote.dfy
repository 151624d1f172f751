/**
 * `strconv.Unquote` for double-quoted Go string literals, restricted to the
 * one-character escapes (\a \b \f \n \r \t \v \\ \"). `Quote` is its partner: it
 * writes a literal that `Unquote` reads back exactly.
 */
module GoQuote {
  import opened Wrappers

  /** The character a one-character escape stands for, if `c` names one allowed in "..." literals. */
  function Escaped(c: char): Option<char> {
    match c
    case 'a' => Some('\U{0007}')
    case 'b' => Some('\U{0008}')
    case 'f' => Some('\U{000C}')
    case 'n' => Some('\n')
    case 'r' => Some('\r')
    case 't' => Some('\t')
    case 'v' => Some('\U{000B}')
    case '\\' => Some('\\')
    case '"' => Some('"')
    case _ => None
  }

  /** The text between the quotes: an unescaped '"' or a newline is a syntax error. */
  function UnquoteBody(body: string): Option<string>
    decreases |body|
  {
    if body == [] then Some([])
    else if body[0] == '"' || body[0] == '\n' then None
    else if body[0] == '\\' then
      if |body| < 2 then None
      else
        match Escaped(body[1])
        case None => None
        case Some(c) =>
          match UnquoteBody(body[2..])
          case None => None
          case Some(rest) => Some([c] + rest)
    else
      match UnquoteBody(body[1..])
      case None => None
      case Some(rest) => Some([body[0]] + rest)
  }

  /** `strconv.Unquote` of a double-quoted literal; `None` stands for `strconv.ErrSyntax`. */
  function Unquote(s: string): (r: Option<string>)
    ensures r.Some? ==> |s| >= 2 && s[0] == '"' && s[|s| - 1] == '"'
  {
    if |s| < 2 || s[0] != '"' || s[|s| - 1] != '"' then None
    else UnquoteBody(s[1..|s| - 1])
  }

  /** The escape written for a character that cannot appear literally, if any. */
  function EscapeFor(c: char): Option<char> {
    match c
    case '\U{0007}' => Some('a')
    case '\U{0008}' => Some('b')
    case '\U{000C}' => Some('f')
    case '\n' => Some('n')
    case '\r' => Some('r')
    case '\t' => Some('t')
    case '\U{000B}' => Some('v')
    case '\\' => Some('\\')
    case '"' => Some('"')
    case _ => None
  }

  /** One character as written inside a literal: its escape, or itself. */
  function QuoteChar(c: char): string {
    match EscapeFor(c)
    case Some(e) => ['\\', e]
    case None => [c]
  }

  function QuoteBody(s: string): string {
    if s == [] then [] else QuoteChar(s[0]) + QuoteBody(s[1..])
  }

  /** A double-quoted literal for `s`. */
  function Quote(s: string): string {
    "\"" + QuoteBody(s) + "\""
  }

  /** Each escape `Quote` writes is read back as the character it stands for. */
  lemma EscapeRoundTrip(c: char)
    ensures EscapeFor(c).Some? ==> Escaped(EscapeFor(c).value) == Some(c)
    ensures EscapeFor(c).None? ==> c != '"' && c != '\n' && c != '\\'
  {
  }

  lemma UnquoteChar(c: char, t: string)
    ensures UnquoteBody(QuoteChar(c) + t)
            == match UnquoteBody(t) case None => None case Some(r) => Some([c] + r)
  {
    EscapeRoundTrip(c);
    var q := QuoteChar(c) + t;
    if EscapeFor(c).Some? {
      assert q[2..] == t;
    } else {
      assert q[1..] == t;
    }
  }

  lemma {:induction false} UnquoteQuoteBody(s: string)
    ensures UnquoteBody(QuoteBody(s)) == Some(s)
  {
    if s != [] {
      UnquoteQuoteBody(s[1..]);
      UnquoteChar(s[0], QuoteBody(s[1..]));
      assert s == [s[0]] + s[1..];
    }
  }

  /** `Unquote` reads back what `Quote` wrote. */
  lemma UnquoteQuote(s: string)
    ensures Unquote(Quote(s)) == Some(s)
  {
    var q := Quote(s);
    assert q[1..|q| - 1] == QuoteBody(s);
    UnquoteQuoteBody(s);
  }

  /** A literal with no backslash, quote or newline inside unquotes to its inner text. */
  lemma {:induction false} UnquotePlain(body: string)
    requires forall i :: 0 <= i < |body| ==> body[i] != '\\' && body[i] != '"' && body[i] != '\n'
    ensures UnquoteBody(body) == Some(body)
  {
    if body != [] {
      assert forall i :: 0 <= i < |body[1..]| ==> body[1..][i] == body[i + 1];
      UnquotePlain(body[1..]);
      assert body == [body[0]] + body[1..];
    }
  }
}
