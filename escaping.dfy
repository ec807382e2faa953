/** Quoting the commit message into the `git commit -m "…"` command line.
    The source escapes `"` and `$` only. Read as a POSIX shell word in
    double quotes, a backtick still starts a command substitution and a
    backslash still escapes the next character, so the command carries the
    message only when it has neither. `ShellEscape` also escapes those two;
    `ShellCommitCommand` is the command built with it. */
module Escaping {
  import opened Wrappers

  /** `s.replace(/c/g, r)`: every occurrence of the character `c` replaced
      by `r`. */
  function ReplaceAll(s: string, c: char, r: string): (t: string)
    ensures c !in r ==> c !in t
  {
    if s == [] then ""
    else (if s[0] == c then r else [s[0]]) + ReplaceAll(s[1..], c, r)
  }

  /** The escape as the source writes it: first every `"` becomes `\"`,
      then every `$` becomes `\$`. */
  function QuoteEscape(message: string): string
  {
    ReplaceAll(ReplaceAll(message, '"', "\\\""), '$', "\\$")
  }

  /** The same escape, one character at a time: a backslash is put before
      each `"` and each `$`, every other character is kept. */
  function EscapeQuoteDollar(message: string): string
  {
    if message == [] then ""
    else (if message[0] == '"' || message[0] == '$' then ['\\', message[0]] else [message[0]])
         + EscapeQuoteDollar(message[1..])
  }

  lemma {:induction false} ReplaceAllConcat(a: string, b: string, c: char, r: string)
    ensures ReplaceAll(a + b, c, r) == ReplaceAll(a, c, r) + ReplaceAll(b, c, r)
  {
    if a == [] {
      assert a + b == b;
    } else {
      assert (a + b)[0] == a[0] && (a + b)[1..] == a[1..] + b;
      ReplaceAllConcat(a[1..], b, c, r);
    }
  }

  /** The two chained replacements do not interfere: the first inserts no
      `$`, so the chain escapes each character on its own. */
  lemma {:induction false} QuoteEscapePerCharacter(message: string)
    ensures QuoteEscape(message) == EscapeQuoteDollar(message)
  {
    if message != [] {
      var head := if message[0] == '"' then "\\\"" else [message[0]];
      var once := ReplaceAll(message, '"', "\\\"");
      assert once == head + ReplaceAll(message[1..], '"', "\\\"");
      ReplaceAllConcat(head, ReplaceAll(message[1..], '"', "\\\""), '$', "\\$");
      QuoteEscapePerCharacter(message[1..]);
      if message[0] == '"' {
        assert ReplaceAll(head, '$', "\\$") == ['\\'] + ReplaceAll(['"'], '$', "\\$");
      }
    }
  }

  /** Removing the backslash the escape inserts before `"` and `$`. */
  function Unescape(s: string): string
  {
    if s == [] then ""
    else if |s| >= 2 && s[0] == '\\' && (s[1] == '"' || s[1] == '$') then [s[1]] + Unescape(s[2..])
    else [s[0]] + Unescape(s[1..])
  }

  /** Removing the inserted backslashes gives back the message. */
  lemma {:induction false} UnescapeQuoteEscape(message: string)
    ensures Unescape(QuoteEscape(message)) == message
  {
    QuoteEscapePerCharacter(message);
    UnescapeEach(message);
  }

  lemma {:induction false} UnescapeEach(message: string)
    ensures Unescape(EscapeQuoteDollar(message)) == message
  {
    if message != [] {
      UnescapeEach(message[1..]);
      var rest := EscapeQuoteDollar(message[1..]);
      if message[0] == '"' || message[0] == '$' {
        assert EscapeQuoteDollar(message) == ['\\', message[0]] + rest;
        assert (['\\', message[0]] + rest)[2..] == rest;
      } else {
        assert EscapeQuoteDollar(message) == [message[0]] + rest;
        assert ([message[0]] + rest)[1..] == rest;
      }
    }
  }

  function Prepend(c: char, r: Option<string>): Option<string>
  {
    match r
    case Some(t) => Some([c] + t)
    case None => None
  }

  /** What a POSIX shell makes of the text after an opening double quote,
      when that text is the last word of the command line: the characters
      up to the closing quote, which must be the last character. A `$` or a
      backtick that is not escaped may expand, and yields none; so does a
      missing closing quote. A backslash escapes `$`, backtick, `"`, `\` and
      newline (the pair backslash-newline is removed) and is kept before any
      other character. */
  function DoubleQuoted(s: string): Option<string>
  {
    if s == [] then None
    else if s[0] == '"' then (if |s| == 1 then Some("") else None)
    else if s[0] == '$' || s[0] == '`' then None
    else if s[0] == '\\' then
      if |s| == 1 then None
      else if s[1] == '$' || s[1] == '`' || s[1] == '"' || s[1] == '\\' then Prepend(s[1], DoubleQuoted(s[2..]))
      else if s[1] == '\n' then DoubleQuoted(s[2..])
      else Prepend('\\', DoubleQuoted(s[1..]))
    else Prepend(s[0], DoubleQuoted(s[1..]))
  }

  /** The message "`", an unescaped backtick, does not survive the source's
      quoting: it opens a command substitution and never reaches git. */
  lemma BacktickNotQuoted()
    ensures DoubleQuoted(QuoteEscape("`") + "\"") == None
  {
    assert QuoteEscape("`") == "`";
  }

  /** The message of two backslashes reaches git as one. */
  lemma BackslashesCollapse()
    ensures DoubleQuoted(QuoteEscape("\\\\") + "\"") == Some("\\")
  {
    assert QuoteEscape("\\\\") == "\\\\";
    assert ("\\\\" + "\"")[2..] == "\"";
  }

  function ShellEscapeChar(c: char): string
  {
    if c == '\\' || c == '"' || c == '$' || c == '`' then ['\\', c] else [c]
  }

  /** The escape the double-quoted word needs: a backslash before each `\`,
      `"`, `$` and backtick. */
  function ShellEscape(message: string): string
  {
    if message == [] then "" else ShellEscapeChar(message[0]) + ShellEscape(message[1..])
  }

  /** Every message, whatever it contains, reaches git unchanged. */
  lemma {:induction false} ShellEscapeRoundTrip(message: string)
    ensures DoubleQuoted(ShellEscape(message) + "\"") == Some(message)
  {
    if message != [] {
      var c := message[0];
      var tail := ShellEscape(message[1..]) + "\"";
      ShellEscapeRoundTrip(message[1..]);
      assert ShellEscape(message) + "\"" == ShellEscapeChar(c) + tail;
      if c == '\\' || c == '"' || c == '$' || c == '`' {
        assert (ShellEscapeChar(c) + tail)[0] == '\\' && (ShellEscapeChar(c) + tail)[1] == c;
        assert (ShellEscapeChar(c) + tail)[2..] == tail;
        assert DoubleQuoted(ShellEscapeChar(c) + tail) == Prepend(c, DoubleQuoted(tail));
      } else {
        assert ShellEscapeChar(c) == [c];
        assert (ShellEscapeChar(c) + tail)[0] == c && (ShellEscapeChar(c) + tail)[1..] == tail;
        assert DoubleQuoted(ShellEscapeChar(c) + tail) == Prepend(c, DoubleQuoted(tail));
      }
      assert message == [c] + message[1..];
    }
  }

  /** Without backslashes and backticks, the per-character escape reads
      back as the message. */
  lemma {:induction false} EscapeQuoteDollarRoundTrip(message: string)
    requires '\\' !in message && '`' !in message
    ensures DoubleQuoted(EscapeQuoteDollar(message) + "\"") == Some(message)
  {
    if message != [] {
      var c := message[0];
      var tail := EscapeQuoteDollar(message[1..]) + "\"";
      assert forall x :: x in message[1..] ==> x in message;
      EscapeQuoteDollarRoundTrip(message[1..]);
      var head := if c == '"' || c == '$' then ['\\', c] else [c];
      assert EscapeQuoteDollar(message) + "\"" == head + tail;
      if c == '"' || c == '$' {
        assert (head + tail)[0] == '\\' && (head + tail)[1] == c && (head + tail)[2..] == tail;
      } else {
        assert (head + tail)[0] == c && (head + tail)[1..] == tail;
      }
      assert DoubleQuoted(head + tail) == Prepend(c, DoubleQuoted(tail));
      assert message == [c] + message[1..];
    }
  }

  const CommitPrefix: string := "git commit -m "

  /** The command the source runs to create the commit with `message`: the
      message escaped as written, between double quotes. */
  function CommitCommand(message: string): (cmd: string)
    ensures |cmd| >= |CommitPrefix| + 2 && cmd[..|CommitPrefix|] == CommitPrefix && cmd[|CommitPrefix|] == '"'
    ensures cmd[|CommitPrefix| + 1..] == QuoteEscape(message) + "\""
  {
    assert CommitPrefix + "\"" + QuoteEscape(message) + "\"" == CommitPrefix + ("\"" + (QuoteEscape(message) + "\""));
    CommitPrefix + "\"" + QuoteEscape(message) + "\""
  }

  /** The source's command carries a message without backslashes and
      backticks as its last word; `"` and `$` are read back literally. */
  lemma CommitCommandPlainMessage(message: string)
    requires '\\' !in message && '`' !in message
    ensures DoubleQuoted(CommitCommand(message)[|CommitPrefix| + 1..]) == Some(message)
  {
    QuoteEscapePerCharacter(message);
    EscapeQuoteDollarRoundTrip(message);
  }

  /** A message with a backtick makes the source's command run a command
      substitution instead of committing the message. */
  lemma CommitCommandBacktick()
    ensures DoubleQuoted(CommitCommand("`")[|CommitPrefix| + 1..]) == None
  {
    BacktickNotQuoted();
  }

  /** The corrected command: the message escaped with `ShellEscape`. */
  function ShellCommitCommand(message: string): (cmd: string)
    ensures |cmd| == |CommitPrefix| + 2 + |ShellEscape(message)|
  {
    CommitPrefix + "\"" + ShellEscape(message) + "\""
  }

  /** The last word of the corrected commit command is the message itself. */
  lemma ShellCommitCommandCarriesMessage(message: string)
    ensures var cmd := ShellCommitCommand(message);
            && cmd[..|CommitPrefix|] == CommitPrefix && cmd[|CommitPrefix|] == '"'
            && DoubleQuoted(cmd[|CommitPrefix| + 1..]) == Some(message)
  {
    var cmd := ShellCommitCommand(message);
    assert cmd == CommitPrefix + ("\"" + (ShellEscape(message) + "\""));
    assert cmd[|CommitPrefix| + 1..] == ShellEscape(message) + "\"";
    ShellEscapeRoundTrip(message);
  }
}
