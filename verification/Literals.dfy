/**
 * Values as string literals of fix statements (sync_diff_inspector/utils/utils.go), and how the server reads them back
 * (section 9.1.1 of the MySQL 8.0 Reference Manual).  Characters stand for bytes.
 */
module Literals {
  import opened Sequences
  import opened Wrappers

  /** Every occurrence of one character is replaced by a string. */
  function ReplaceAll(s: string, c: char, text: string): string {
    if s == "" then "" else (if s[0] == c then text else [s[0]]) + ReplaceAll(s[1..], c, text)
  }

  /** Backslashes are doubled, then quotes get a backslash. */
  function EscapeString(s: string): string {
    ReplaceAll(ReplaceAll(s, '\\', "\\\\"), '\'', "\\'")
  }

  /** The character an escape sequence stands for. */
  function Unescaped(c: char): string {
    if c == '0' then "\0" else if c == 'b' then "\U{0008}" else if c == 'n' then "\n" else if c == 'r' then "\r"
    else if c == 't' then "\t" else if c == 'Z' then "\U{001A}"
    else if c == '%' || c == '_' then ['\\', c]
    else [c]
  }

  /**
   * Reads a quoted literal from behind its opening quote: its value, and the text behind its closing quote; nothing
   * when the text ends before that.  Two quotes in a row stand for one.
   */
  function ReadLiteral(s: string): Option<(string, string)> {
    if s == "" then None
    else if s[0] == '\\' then
      if |s| == 1 then None
      else match ReadLiteral(s[2..])
        case None => None
        case Some((value, rest)) => Some((Unescaped(s[1]) + value, rest))
    else if s[0] == '\'' then
      if |s| > 1 && s[1] == '\'' then
        match ReadLiteral(s[2..])
        case None => None
        case Some((value, rest)) => Some(("'" + value, rest))
      else Some(("", s[1..]))
    else match ReadLiteral(s[1..])
      case None => None
      case Some((value, rest)) => Some(([s[0]] + value, rest))
  }

  lemma {:induction false} ReplaceAllAppend(a: string, b: string, c: char, text: string)
    ensures ReplaceAll(a + b, c, text) == ReplaceAll(a, c, text) + ReplaceAll(b, c, text)
  {
    if a == "" {
      assert a + b == b;
    } else {
      assert (a + b)[1..] == a[1..] + b;
      ReplaceAllAppend(a[1..], b, c, text);
    }
  }

  /** How one character is written. */
  function EscapeChar(c: char): string {
    if c == '\\' then "\\\\" else if c == '\'' then "\\'" else [c]
  }

  lemma {:induction false} EscapeFirst(s: string)
    requires s != ""
    ensures EscapeString(s) == EscapeChar(s[0]) + EscapeString(s[1..])
  {
    var rest := ReplaceAll(s[1..], '\\', "\\\\");
    if s[0] == '\\' {
      ReplaceAllAppend("\\\\", rest, '\'', "\\'");
      assert ReplaceAll("\\\\", '\'', "\\'") == "\\\\" by {
        assert "\\\\"[1..] == "\\" && "\\"[1..] == "";
      }
    } else {
      ReplaceAllAppend([s[0]], rest, '\'', "\\'");
      assert [s[0]][1..] == "";
    }
  }

  /** Reading one written character and then the rest. */
  lemma {:induction false} ReadFirst(c: char, rest: string)
    ensures ReadLiteral(EscapeChar(c) + rest) ==
            match ReadLiteral(rest)
            case None => None
            case Some((value, behind)) => Some(([c] + value, behind))
  {
    var s := EscapeChar(c) + rest;
    if c == '\\' || c == '\'' {
      assert s[2..] == rest && s[0] == '\\' && s[1] == c;
    } else {
      assert s[1..] == rest && s[0] == c;
    }
  }

  /**
   * An escaped value between quotes is read back as the value, up to its own closing quote: no quote inside ends it
   * early and none is left over.
   */
  lemma {:induction false} LiteralRoundTrip(s: string, behind: string)
    requires behind == "" || behind[0] != '\''
    ensures ReadLiteral(EscapeString(s) + "'" + behind) == Some((s, behind))
  {
    if s == "" {
      assert EscapeString(s) + "'" + behind == "'" + behind;
      assert ("'" + behind)[1..] == behind;
    } else {
      EscapeFirst(s);
      LiteralRoundTrip(s[1..], behind);
      var rest := EscapeString(s[1..]) + "'" + behind;
      Associate(EscapeChar(s[0]), EscapeString(s[1..]), "'");
      Associate(EscapeChar(s[0]), EscapeString(s[1..]) + "'", behind);
      ReadFirst(s[0], rest);
      assert [s[0]] + s[1..] == s;
    }
  }

  /** Different values are written differently. */
  lemma {:induction false} EscapeInjective(a: string, b: string)
    requires EscapeString(a) == EscapeString(b)
    ensures a == b
  {
    LiteralRoundTrip(a, "");
    LiteralRoundTrip(b, "");
  }
}
