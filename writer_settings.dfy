/**
 * The immutable configuration of a Markdown writer: output format, the characters
 * written for a line break, how line breaks are handled, whether the destination is
 * closed with the writer, and the escaping strategy.
 */
module WriterSettings {
  import Wrappers
  import opened MarkdownEscaper

  /**
   * An output format profile. Its contents are not part of this model; `handle`
   * stands for the identity of the format object, so that two formats are equal
   * exactly when they are the same object.
   */
  datatype MarkdownFormat = MarkdownFormat(handle: nat) {
    static const Default: MarkdownFormat := MarkdownFormat(0)
    static const Debugging: MarkdownFormat := MarkdownFormat(1)
  }

  /** How the writer treats line breaks in emitted text; only the value is modelled. */
  datatype NewLineHandling = Replace | None

  /** The line terminator of the host environment: known only to be some string. */
  const EnvironmentNewLine: string

  datatype MarkdownWriterSettings = MarkdownWriterSettings(
    format: MarkdownFormat,
    newLineChars: string,
    newLineHandling: NewLineHandling,
    closeOutput: bool,
    escaper: MarkdownCharEscaper)
  {

    /** A copy with another format; the escaper falls back to the default one. */
    function WithFormat(format': MarkdownFormat): (r: MarkdownWriterSettings)
      ensures r.format == format'
      ensures r.newLineChars == newLineChars && r.newLineHandling == newLineHandling && r.closeOutput == closeOutput
      ensures r.escaper == MarkdownCharEscaper.Default
    {
      NewSettings(Wrappers.Some(format'), Wrappers.Some(newLineChars), newLineHandling, closeOutput, Wrappers.None)
    }

    /** A copy with other line-break characters; the escaper falls back to the default one. */
    function WithNewLineChars(newLineChars': string): (r: MarkdownWriterSettings)
      ensures r.newLineChars == newLineChars'
      ensures r.format == format && r.newLineHandling == newLineHandling && r.closeOutput == closeOutput
      ensures r.escaper == MarkdownCharEscaper.Default
    {
      NewSettings(Wrappers.Some(format), Wrappers.Some(newLineChars'), newLineHandling, closeOutput, Wrappers.None)
    }

    /** A copy with another line-break handling; the escaper falls back to the default one. */
    function WithNewLineHandling(newLineHandling': NewLineHandling): (r: MarkdownWriterSettings)
      ensures r.newLineHandling == newLineHandling'
      ensures r.format == format && r.newLineChars == newLineChars && r.closeOutput == closeOutput
      ensures r.escaper == MarkdownCharEscaper.Default
    {
      NewSettings(Wrappers.Some(format), Wrappers.Some(newLineChars), newLineHandling', closeOutput, Wrappers.None)
    }

    /** A copy with another close-output flag; the escaper falls back to the default one. */
    function WithCloseOutput(closeOutput': bool): (r: MarkdownWriterSettings)
      ensures r.closeOutput == closeOutput'
      ensures r.format == format && r.newLineChars == newLineChars && r.newLineHandling == newLineHandling
      ensures r.escaper == MarkdownCharEscaper.Default
    {
      NewSettings(Wrappers.Some(format), Wrappers.Some(newLineChars), newLineHandling, closeOutput', Wrappers.None)
    }

    /** A copy with another escaper; the other four fields are kept. */
    function WithDefaultEscaper(escaper': MarkdownCharEscaper): (r: MarkdownWriterSettings)
      ensures r.escaper == escaper'
      ensures r.format == format && r.newLineChars == newLineChars
      ensures r.newLineHandling == newLineHandling && r.closeOutput == closeOutput
    {
      NewSettings(Wrappers.Some(format), Wrappers.Some(newLineChars), newLineHandling, closeOutput, Wrappers.Some(escaper'))
    }
  }

  /**
   * The constructor. An absent format, line-break string or escaper falls back to
   * the default format, the host line terminator and the default escaper.
   */
  function NewSettings(format: Wrappers.Option<MarkdownFormat>,
                       newLineChars: Wrappers.Option<string>,
                       newLineHandling: NewLineHandling,
                       closeOutput: bool,
                       escapeStrategy: Wrappers.Option<MarkdownCharEscaper>): (r: MarkdownWriterSettings)
    ensures r.format == if format.Some? then format.value else MarkdownFormat.Default
    ensures r.newLineChars == if newLineChars.Some? then newLineChars.value else EnvironmentNewLine
    ensures r.newLineHandling == newLineHandling && r.closeOutput == closeOutput
    ensures r.escaper == if escapeStrategy.Some? then escapeStrategy.value else MarkdownCharEscaper.Default
  {
    MarkdownWriterSettings(
      format.GetOr(MarkdownFormat.Default),
      newLineChars.GetOr(EnvironmentNewLine),
      newLineHandling,
      closeOutput,
      escapeStrategy.GetOr(MarkdownCharEscaper.Default))
  }

  /** The constructor called with every optional argument left out. */
  const Default: MarkdownWriterSettings := NewSettings(Wrappers.None, Wrappers.None, Replace, false, Wrappers.None)

  const DefaultCloseOutput: MarkdownWriterSettings := Default.WithCloseOutput(true)

  const Debugging: MarkdownWriterSettings :=
    NewSettings(Wrappers.Some(MarkdownFormat.Debugging), Wrappers.None, Replace, false, Wrappers.None)

  /**
   * Settings for a format: the `Default` value when the format is absent or is the
   * default format object, otherwise fresh settings for that format.
   */
  function From(format: Wrappers.Option<MarkdownFormat>): (r: MarkdownWriterSettings)
    ensures format.None? || format.value == MarkdownFormat.Default ==> r == Default
    ensures format.Some? ==> r.format == format.value
    ensures r.newLineChars == EnvironmentNewLine && r.newLineHandling == Replace
    ensures !r.closeOutput && r.escaper == MarkdownCharEscaper.Default
  {
    if format.None? || format.value == MarkdownFormat.Default then Default
    else NewSettings(format, Wrappers.None, Replace, false, Wrappers.None)
  }

  /** The defaults of the constructor. */
  lemma DefaultFields()
    ensures Default.format == MarkdownFormat.Default && Default.newLineChars == EnvironmentNewLine
    ensures Default.newLineHandling == Replace && !Default.closeOutput
    ensures Default.escaper == MarkdownCharEscaper.Default
  {
  }

  /** `DefaultCloseOutput` differs from `Default` in the close-output flag alone. */
  lemma DefaultCloseOutputFields()
    ensures DefaultCloseOutput.closeOutput
    ensures DefaultCloseOutput == Default.(closeOutput := true)
  {
  }

  /** `Debugging` has the debugging format and defaults elsewhere. */
  lemma DebuggingFields()
    ensures Debugging.format == MarkdownFormat.Debugging
    ensures Debugging == Default.(format := MarkdownFormat.Debugging)
  {
  }

  /** Constructing settings from all five fields of a value gives that value back. */
  lemma NewSettingsFromFields(s: MarkdownWriterSettings)
    ensures NewSettings(Wrappers.Some(s.format), Wrappers.Some(s.newLineChars), s.newLineHandling,
                        s.closeOutput, Wrappers.Some(s.escaper)) == s
  {
  }

  /** The fast path of `From` is only an optimisation: it agrees with the constructor. */
  lemma FromIsConstructor(format: Wrappers.Option<MarkdownFormat>)
    ensures From(format) == NewSettings(format, Wrappers.None, Replace, false, Wrappers.None)
  {
  }

  /** Each derivation taken twice with the same value is the derivation taken once. */
  lemma DerivationsIdempotent(s: MarkdownWriterSettings, f: MarkdownFormat, chars: string,
                              h: NewLineHandling, b: bool, e: MarkdownCharEscaper)
    ensures s.WithFormat(f).WithFormat(f) == s.WithFormat(f)
    ensures s.WithNewLineChars(chars).WithNewLineChars(chars) == s.WithNewLineChars(chars)
    ensures s.WithNewLineHandling(h).WithNewLineHandling(h) == s.WithNewLineHandling(h)
    ensures s.WithCloseOutput(b).WithCloseOutput(b) == s.WithCloseOutput(b)
    ensures s.WithDefaultEscaper(e).WithDefaultEscaper(e) == s.WithDefaultEscaper(e)
  {
  }

  /** A later derivation of the same field overrides an earlier one. */
  lemma LastDerivationWins(s: MarkdownWriterSettings, b1: bool, b2: bool, e1: MarkdownCharEscaper, e2: MarkdownCharEscaper)
    ensures s.WithCloseOutput(b1).WithCloseOutput(b2) == s.WithCloseOutput(b2)
    ensures s.WithDefaultEscaper(e1).WithDefaultEscaper(e2) == s.WithDefaultEscaper(e2)
  {
  }

  /**
   * An escaper chosen with `WithDefaultEscaper` does not survive a later derivation
   * of any other field: that derivation builds settings with the default escaper.
   */
  lemma DerivationDropsEscaper(s: MarkdownWriterSettings, e: MarkdownCharEscaper, f: MarkdownFormat,
                               chars: string, h: NewLineHandling, b: bool)
    ensures s.WithDefaultEscaper(e).WithFormat(f) == s.WithFormat(f)
    ensures s.WithDefaultEscaper(e).WithNewLineChars(chars) == s.WithNewLineChars(chars)
    ensures s.WithDefaultEscaper(e).WithNewLineHandling(h) == s.WithNewLineHandling(h)
    ensures s.WithDefaultEscaper(e).WithCloseOutput(b) == s.WithCloseOutput(b)
    ensures Default.WithDefaultEscaper(MarkdownCharEscaper.NoEscape).WithCloseOutput(true).escaper
         != MarkdownCharEscaper.NoEscape
  {
    var dropped := Default.WithDefaultEscaper(MarkdownCharEscaper.NoEscape).WithCloseOutput(true).escaper;
    assert dropped.shouldBeEscaped('.') != MarkdownCharEscaper.NoEscape.shouldBeEscaped('.');
  }

  /** Settings with the no-escape strategy leave "Pi is 3.14159" alone; the default ones escape its dot. */
  lemma NoEscapeSettingsExample()
    ensures Default.WithDefaultEscaper(MarkdownCharEscaper.NoEscape).escaper.Escape("Pi is 3.14159") == "Pi is 3.14159"
    ensures Default.escaper.Escape("Pi is 3.14159") == "Pi is 3\\.14159"
  {
    NoEscapeStrategyIsIdentity("Pi is 3.14159");
    DefaultStrategyEscapes("Pi is 3.14159");
    EscapePiExample();
  }
}
