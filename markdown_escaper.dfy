/**
 * Context-sensitive escaping of Markdown text.
 *
 * Each region of a Markdown document has its own set of characters that carry
 * syntactic meaning there; escaping puts the escaping character in front of every
 * such character and copies every other character, line breaks included.
 */
module MarkdownEscaper {

  /** Characters with a meaning in plain inline text. */
  const InlineSpecials: set<char> :=
    {'\\', '`', '*', '_', '{', '}', '[', ']', '(', ')', '#', '+', '-', '.', '!', '<', '>'}

  /** Characters that would open or close link text `[...]`, an inline code span or an autolink. */
  const LinkTextSpecials: set<char> := {'`', '[', ']', '<', '>'}

  /** Characters that would close a link destination `(...)`. */
  const LinkUrlSpecials: set<char> := {'(', ')'}

  /** The character that would close a link title `"..."`. */
  const LinkTitleSpecials: set<char> := {'"'}

  /** The escaping character used by the default strategy. */
  const DefaultEscapingChar: char := '\\'

  /** Plain inline text: only printable ASCII punctuation is escaped, never a letter, a digit or white space. */
  predicate ShouldBeEscaped(ch: char): (b: bool)
    ensures b ==> '!' <= ch <= '~'
    ensures b ==> !('a' <= ch <= 'z' || 'A' <= ch <= 'Z' || '0' <= ch <= '9')
  {
    ch in InlineSpecials
  }

  /** Link text: a subset of what plain text escapes. */
  predicate ShouldBeEscapedInLinkText(ch: char): (b: bool)
    ensures b ==> ShouldBeEscaped(ch)
  {
    ch in LinkTextSpecials
  }

  /** Link URL: escaped in plain text too, but not in link text. */
  predicate ShouldBeEscapedInLinkUrl(ch: char): (b: bool)
    ensures b ==> ShouldBeEscaped(ch) && !ShouldBeEscapedInLinkText(ch)
  {
    ch in LinkUrlSpecials
  }

  /** Link title: the one character here is escaped in no other region. */
  predicate ShouldBeEscapedInLinkTitle(ch: char): (b: bool)
    ensures b ==> !ShouldBeEscaped(ch) && !ShouldBeEscapedInLinkText(ch) && !ShouldBeEscapedInLinkUrl(ch)
  {
    ch in LinkTitleSpecials
  }

  /** The output produced for one input character. */
  function EscapeChar(ch: char, shouldBeEscaped: char -> bool, escapingChar: char): (r: seq<char>)
  {
    if shouldBeEscaped(ch) then [escapingChar, ch] else [ch]
  }

  /**
   * The general form: every character accepted by `shouldBeEscaped` is preceded by
   * `escapingChar`, every other character is copied.
   */
  function EscapeWith(text: seq<char>, shouldBeEscaped: char -> bool, escapingChar: char): (r: seq<char>)
    ensures |r| >= |text|
    // the text comes back unchanged exactly when it holds nothing to escape
    ensures r == text <==> forall c | c in text :: !shouldBeEscaped(c)
    // the output never starts with a character to escape, unless it is the escaping character
    ensures r != [] ==> r[0] == escapingChar || !shouldBeEscaped(r[0])
  {
    if text == [] then []
    else EscapeChar(text[0], shouldBeEscaped, escapingChar) + EscapeWith(text[1..], shouldBeEscaped, escapingChar)
  }

  /** Plain inline text, escaped with the default predicate and a backslash. */
  function Escape(text: seq<char>): (r: seq<char>)
    ensures |r| >= |text|
    ensures r == text <==> forall c | c in text :: !ShouldBeEscaped(c)
  {
    EscapeWith(text, ShouldBeEscaped, DefaultEscapingChar)
  }

  /**
   * Reads an escaped text back: an escaping character followed by a character to
   * escape stands for that character. The inverse of `EscapeWith`.
   */
  function Unescape(r: seq<char>, shouldBeEscaped: char -> bool, escapingChar: char): (text: seq<char>)
    decreases |r|
  {
    if r == [] then []
    else if |r| >= 2 && r[0] == escapingChar && shouldBeEscaped(r[1]) then
      [r[1]] + Unescape(r[2..], shouldBeEscaped, escapingChar)
    else
      [r[0]] + Unescape(r[1..], shouldBeEscaped, escapingChar)
  }

  /** Escaping distributes over concatenation: characters are escaped independently. */
  lemma {:induction false} EscapeConcat(a: seq<char>, b: seq<char>, shouldBeEscaped: char -> bool, escapingChar: char)
    ensures EscapeWith(a + b, shouldBeEscaped, escapingChar)
         == EscapeWith(a, shouldBeEscaped, escapingChar) + EscapeWith(b, shouldBeEscaped, escapingChar)
  {
    if a == [] {
      assert a + b == b;
    } else {
      assert (a + b)[0] == a[0];
      assert (a + b)[1..] == a[1..] + b;
      EscapeConcat(a[1..], b, shouldBeEscaped, escapingChar);
    }
  }

  /** Escaping loses nothing: unescaping the output gives back the input, whatever the predicate. */
  lemma {:induction false} UnescapeEscape(text: seq<char>, shouldBeEscaped: char -> bool, escapingChar: char)
    ensures Unescape(EscapeWith(text, shouldBeEscaped, escapingChar), shouldBeEscaped, escapingChar) == text
  {
    if text != [] {
      var rest := EscapeWith(text[1..], shouldBeEscaped, escapingChar);
      UnescapeEscape(text[1..], shouldBeEscaped, escapingChar);
      if shouldBeEscaped(text[0]) {
        var r := [escapingChar, text[0]] + rest;
        assert r[2..] == rest;
      } else {
        var r := [text[0]] + rest;
        assert r[1..] == rest;
        assert !(|r| >= 2 && r[0] == escapingChar && shouldBeEscaped(r[1]));
      }
    }
  }

  /** A text that holds nothing to escape (such as a line break) splits the escaping into independent parts. */
  lemma EscapeLineByLine(before: seq<char>, newLine: seq<char>, after: seq<char>,
                         shouldBeEscaped: char -> bool, escapingChar: char)
    requires forall c | c in newLine :: !shouldBeEscaped(c)
    ensures EscapeWith(before + newLine + after, shouldBeEscaped, escapingChar)
         == EscapeWith(before, shouldBeEscaped, escapingChar) + newLine + EscapeWith(after, shouldBeEscaped, escapingChar)
  {
    EscapeConcat(before + newLine, after, shouldBeEscaped, escapingChar);
    EscapeConcat(before, newLine, shouldBeEscaped, escapingChar);
  }

  /** With the default predicate, line breaks pass through and each line is escaped on its own. */
  lemma EscapeKeepsLineBreaks(before: seq<char>, newLine: seq<char>, after: seq<char>)
    requires forall c | c in newLine :: c == '\n' || c == '\r'
    ensures Escape(before + newLine + after) == Escape(before) + newLine + Escape(after)
  {
    EscapeLineByLine(before, newLine, after, ShouldBeEscaped, DefaultEscapingChar);
  }

  /** One character, for any predicate: the escaping character in front when the predicate accepts it, itself otherwise. */
  lemma EscapeWithSingleChar(ch: char, shouldBeEscaped: char -> bool, escapingChar: char)
    ensures EscapeWith([ch], shouldBeEscaped, escapingChar) == if shouldBeEscaped(ch) then [escapingChar, ch] else [ch]
  {
  }

  /** One character: a backslash in front when it has a meaning in inline text, itself otherwise. */
  lemma EscapeSingleChar(ch: char)
    ensures Escape([ch]) == if ShouldBeEscaped(ch) then ['\\', ch] else [ch]
  {
  }

  /** A predicate that accepts nothing makes escaping the identity. */
  lemma NeverEscapeIsIdentity(text: seq<char>, escapingChar: char)
    ensures EscapeWith(text, _ => false, escapingChar) == text
  {
  }

  /** One character to escape between two runs of characters that need none. */
  lemma EscapeOneSpecial(head: seq<char>, ch: char, tail: seq<char>)
    requires forall c | c in head :: !ShouldBeEscaped(c)
    requires forall c | c in tail :: !ShouldBeEscaped(c)
    requires ShouldBeEscaped(ch)
    ensures Escape(head + [ch] + tail) == head + [DefaultEscapingChar, ch] + tail
  {
    EscapeConcat(head + [ch], tail, ShouldBeEscaped, DefaultEscapingChar);
    EscapeConcat(head, [ch], ShouldBeEscaped, DefaultEscapingChar);
    assert [ch][1..] == [];
  }

  /** Only the dot of "Pi is 3.14159" is escaped in plain text. */
  lemma EscapePiExample()
    ensures Escape("Pi is 3.14159") == "Pi is 3\\.14159"
  {
    var head, tail := "Pi is 3", "14159";
    assert forall c | c in head :: !ShouldBeEscaped(c);
    assert forall c | c in tail :: !ShouldBeEscaped(c);
    EscapeOneSpecial(head, '.', tail);
    assert head + ['.'] + tail == "Pi is 3.14159";
    assert head + [DefaultEscapingChar, '.'] + tail == "Pi is 3\\.14159";
  }

  /** The probe table for plain inline text. */
  lemma ShouldBeEscapedProbes()
    ensures ShouldBeEscaped('\\') && ShouldBeEscaped('`') && ShouldBeEscaped('*') && ShouldBeEscaped('_')
    ensures ShouldBeEscaped('{') && ShouldBeEscaped('}') && ShouldBeEscaped('[') && ShouldBeEscaped(']')
    ensures ShouldBeEscaped('(') && ShouldBeEscaped(')') && ShouldBeEscaped('#') && ShouldBeEscaped('+')
    ensures ShouldBeEscaped('-') && ShouldBeEscaped('.') && ShouldBeEscaped('!') && ShouldBeEscaped('<')
    ensures ShouldBeEscaped('>')
    ensures !ShouldBeEscaped('"') && !ShouldBeEscaped('\'')
  {
  }

  /** The probe table for link text. */
  lemma ShouldBeEscapedInLinkTextProbes()
    ensures ShouldBeEscapedInLinkText('`') && ShouldBeEscapedInLinkText('[') && ShouldBeEscapedInLinkText(']')
    ensures ShouldBeEscapedInLinkText('<') && ShouldBeEscapedInLinkText('>')
    ensures !ShouldBeEscapedInLinkText('\\') && !ShouldBeEscapedInLinkText('*') && !ShouldBeEscapedInLinkText('_')
    ensures !ShouldBeEscapedInLinkText('{') && !ShouldBeEscapedInLinkText('}') && !ShouldBeEscapedInLinkText('(')
    ensures !ShouldBeEscapedInLinkText(')') && !ShouldBeEscapedInLinkText('#') && !ShouldBeEscapedInLinkText('+')
    ensures !ShouldBeEscapedInLinkText('-') && !ShouldBeEscapedInLinkText('.') && !ShouldBeEscapedInLinkText('!')
    ensures !ShouldBeEscapedInLinkText('"') && !ShouldBeEscapedInLinkText('\'')
  {
  }

  /** The probe table for a link URL. */
  lemma ShouldBeEscapedInLinkUrlProbes()
    ensures ShouldBeEscapedInLinkUrl('(') && ShouldBeEscapedInLinkUrl(')')
    ensures !ShouldBeEscapedInLinkUrl('\\') && !ShouldBeEscapedInLinkUrl('`') && !ShouldBeEscapedInLinkUrl('*')
    ensures !ShouldBeEscapedInLinkUrl('_') && !ShouldBeEscapedInLinkUrl('{') && !ShouldBeEscapedInLinkUrl('}')
    ensures !ShouldBeEscapedInLinkUrl('[') && !ShouldBeEscapedInLinkUrl(']') && !ShouldBeEscapedInLinkUrl('#')
    ensures !ShouldBeEscapedInLinkUrl('+') && !ShouldBeEscapedInLinkUrl('-') && !ShouldBeEscapedInLinkUrl('.')
    ensures !ShouldBeEscapedInLinkUrl('!') && !ShouldBeEscapedInLinkUrl('<') && !ShouldBeEscapedInLinkUrl('>')
    ensures !ShouldBeEscapedInLinkUrl('"') && !ShouldBeEscapedInLinkUrl('\'')
  {
  }

  /** The probe table for a link title. */
  lemma ShouldBeEscapedInLinkTitleProbes()
    ensures ShouldBeEscapedInLinkTitle('"')
    ensures !ShouldBeEscapedInLinkTitle('\\') && !ShouldBeEscapedInLinkTitle('`') && !ShouldBeEscapedInLinkTitle('*')
    ensures !ShouldBeEscapedInLinkTitle('_') && !ShouldBeEscapedInLinkTitle('{') && !ShouldBeEscapedInLinkTitle('}')
    ensures !ShouldBeEscapedInLinkTitle('[') && !ShouldBeEscapedInLinkTitle(']') && !ShouldBeEscapedInLinkTitle('(')
    ensures !ShouldBeEscapedInLinkTitle(')') && !ShouldBeEscapedInLinkTitle('#') && !ShouldBeEscapedInLinkTitle('+')
    ensures !ShouldBeEscapedInLinkTitle('-') && !ShouldBeEscapedInLinkTitle('.') && !ShouldBeEscapedInLinkTitle('!')
    ensures !ShouldBeEscapedInLinkTitle('<') && !ShouldBeEscapedInLinkTitle('>')
    ensures !ShouldBeEscapedInLinkTitle('\'')
  {
  }

  /**
   * An escaping strategy: the predicate consulted for inline text and the escaping
   * character put in front of what it accepts.
   */
  datatype MarkdownCharEscaper = MarkdownCharEscaper(shouldBeEscaped: char -> bool, escapingChar: char) {

    /** Full punctuation escaping with a backslash. */
    static const Default: MarkdownCharEscaper := MarkdownCharEscaper(ShouldBeEscaped, DefaultEscapingChar)

    /** Escapes nothing. */
    static const NoEscape: MarkdownCharEscaper := MarkdownCharEscaper(_ => false, DefaultEscapingChar)

    function Escape(text: seq<char>): (r: seq<char>)
      ensures |r| >= |text|
      ensures r == text <==> forall c | c in text :: !shouldBeEscaped(c)
    {
      EscapeWith(text, shouldBeEscaped, escapingChar)
    }
  }

  /** The default strategy is the plain-text escaper. */
  lemma DefaultStrategyEscapes(text: seq<char>)
    ensures MarkdownCharEscaper.Default.Escape(text) == Escape(text)
  {
  }

  /** The no-escape strategy copies any text unchanged. */
  lemma NoEscapeStrategyIsIdentity(text: seq<char>)
    ensures MarkdownCharEscaper.NoEscape.Escape(text) == text
  {
  }
}
