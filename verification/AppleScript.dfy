/** Quoting of notification texts (internal/platform/notify_darwin.go). */
module AppleScript {
  import opened Lists

  const BACKSLASH: char := '\\'
  const QUOTE: char := '"'

  /** strings.ReplaceAll for a one-character pattern. */
  function ReplaceAll(s: string, target: char, image: string): string {
    if s == "" then "" else (if s[0] == target then image else [s[0]]) + ReplaceAll(s[1..], target, image)
  }

  function Escape(s: string): string {
    [QUOTE] + ReplaceAll(ReplaceAll(s, BACKSLASH, [BACKSLASH, BACKSLASH]), QUOTE, [BACKSLASH, QUOTE]) + [QUOTE]
  }

  /** The script passed to osascript. */
  function Script(title: string, message: string): string {
    "display notification " + Escape(message) + " with title " + Escape(title)
  }

  /** One pass over the text, one character at a time. */
  function EscapeBody(s: string): string {
    if s == "" then "" else
      (if s[0] == BACKSLASH || s[0] == QUOTE then [BACKSLASH, s[0]] else [s[0]]) + EscapeBody(s[1..])
  }

  datatype Literal = Literal(text: string, rest: string)

  /** Reads characters up to the first unescaped quote: the content of the literal and what follows it. */
  function ReadBody(s: string): Option<Literal> {
    if s == "" then None else
    if s[0] == QUOTE then Some(Literal("", s[1..])) else
    if s[0] == BACKSLASH then
      if |s| < 2 then None else
        match ReadBody(s[2..])
        case None => None
        case Some(l) => Some(Literal([s[1]] + l.text, l.rest))
    else
      match ReadBody(s[1..])
      case None => None
      case Some(l) => Some(Literal([s[0]] + l.text, l.rest))
  }

  /** Reads a string literal at the start of `s`. */
  function ReadLiteral(s: string): Option<Literal> {
    if s == "" || s[0] != QUOTE then None else ReadBody(s[1..])
  }

  function Expect(word: string, s: string): Option<string> {
    if word <= s then Some(s[|word|..]) else None
  }

  /** Reads back a notification script: the message and the title, nothing else allowed. */
  function ReadScript(s: string): Option<(string, string)> {
    match Expect("display notification ", s)
    case None => None
    case Some(afterVerb) =>
      match ReadLiteral(afterVerb)
      case None => None
      case Some(message) =>
        match Expect(" with title ", message.rest)
        case None => None
        case Some(afterWith) =>
          match ReadLiteral(afterWith)
          case None => None
          case Some(title) => if title.rest == "" then Some((message.text, title.text)) else None
  }

  lemma {:induction false} ReplaceAllConcat(a: string, b: string, target: char, image: string)
    ensures ReplaceAll(a + b, target, image) == ReplaceAll(a, target, image) + ReplaceAll(b, target, image)
  {
    if a == "" {
      assert a + b == b;
    } else {
      assert (a + b)[1..] == a[1..] + b;
      ReplaceAllConcat(a[1..], b, target, image);
    }
  }

  /** The two replacements, in that order, are one character map. */
  lemma {:induction false} TwoPassesAreOne(s: string)
    ensures ReplaceAll(ReplaceAll(s, BACKSLASH, [BACKSLASH, BACKSLASH]), QUOTE, [BACKSLASH, QUOTE]) == EscapeBody(s)
  {
    if s != "" {
      TwoPassesAreOne(s[1..]);
      var first := if s[0] == BACKSLASH then [BACKSLASH, BACKSLASH] else [s[0]];
      var rest := ReplaceAll(s[1..], BACKSLASH, [BACKSLASH, BACKSLASH]);
      ReplaceAllConcat(first, rest, QUOTE, [BACKSLASH, QUOTE]);
      assert ReplaceAll(first, QUOTE, [BACKSLASH, QUOTE])
          == if s[0] == BACKSLASH || s[0] == QUOTE then [BACKSLASH, s[0]] else [s[0]] by {
        assert first[1..] == if s[0] == BACKSLASH then [BACKSLASH] else "";
        assert [BACKSLASH][1..] == "";
      }
    }
  }

  function Prepend(c: char, l: Option<Literal>): Option<Literal> {
    match l
    case None => None
    case Some(l) => Some(Literal([c] + l.text, l.rest))
  }

  lemma ReadEscaped(c: char, tail: string)
    ensures ReadBody([BACKSLASH, c] + tail) == Prepend(c, ReadBody(tail))
  {
    assert ([BACKSLASH, c] + tail)[2..] == tail;
  }

  lemma ReadPlain(c: char, tail: string)
    requires c != QUOTE && c != BACKSLASH
    ensures ReadBody([c] + tail) == Prepend(c, ReadBody(tail))
  {
    assert ([c] + tail)[1..] == tail;
  }

  lemma {:induction false} ReadBodyInverts(s: string, rest: string)
    ensures ReadBody(EscapeBody(s) + ([QUOTE] + rest)) == Some(Literal(s, rest))
  {
    hide ReadBody;
    if s == "" {
      ReadEnd(rest);
      assert EscapeBody(s) + ([QUOTE] + rest) == [QUOTE] + rest;
    } else {
      var tail := EscapeBody(s[1..]) + ([QUOTE] + rest);
      ReadBodyInverts(s[1..], rest);
      if s[0] == BACKSLASH || s[0] == QUOTE {
        ReadEscaped(s[0], tail);
        ConcatAssociative([BACKSLASH, s[0]], EscapeBody(s[1..]), [QUOTE] + rest);
      } else {
        ReadPlain(s[0], tail);
        ConcatAssociative([s[0]], EscapeBody(s[1..]), [QUOTE] + rest);
      }
      assert [s[0]] + s[1..] == s;
    }
  }

  lemma ReadEnd(rest: string)
    ensures ReadBody([QUOTE] + rest) == Some(Literal("", rest))
  {
  }

  /** Whatever follows a quoted text, a reader recovers the text and stops exactly at its last character:
      the only unescaped quotes of `Escape(s)` are the first and the last. */
  lemma EscapeRoundTrip(s: string, rest: string)
    ensures ReadLiteral(Escape(s) + rest) == Some(Literal(s, rest))
  {
    TwoPassesAreOne(s);
    var text := Escape(s) + rest;
    assert text[1..] == EscapeBody(s) + ([QUOTE] + rest);
    ReadBodyInverts(s, rest);
  }

  lemma EscapeInjective(a: string, b: string)
    requires Escape(a) == Escape(b)
    ensures a == b
  {
    EscapeRoundTrip(a, "");
    EscapeRoundTrip(b, "");
  }

  lemma ExpectPrefix(word: string, rest: string)
    ensures Expect(word, word + rest) == Some(rest)
  {
  }

  /** No title or message can change the shape of the script: reading it gives both texts back. */
  lemma ScriptRoundTrip(title: string, message: string)
    ensures ReadScript(Script(title, message)) == Some((message, title))
  {
    var verb, joint := "display notification ", " with title ";
    var afterMessage := joint + Escape(title);
    ScriptParts(verb, Escape(message), joint, Escape(title));
    ExpectPrefix(verb, Escape(message) + afterMessage);
    EscapeRoundTrip(message, afterMessage);
    ExpectPrefix(joint, Escape(title));
    EscapeRoundTrip(title, "");
    assert Escape(title) + "" == Escape(title);
  }

  lemma ScriptParts(a: string, b: string, c: string, d: string)
    ensures a + b + c + d == a + (b + (c + d))
  {
  }
}
