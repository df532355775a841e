# DotMarkdown: character escaping and writer settings

A Dafny model of two deterministic pieces of the DotMarkdown library, which writes
Markdown text.

- **The escaper (`MarkdownEscaper`, in `markdown_escaper.dfy`).** Four predicates say
  which characters have a meaning in four regions of a Markdown document. The regions
  are plain inline text, link text, a link URL and a link title. Each predicate is
  exact membership in a fixed character set. `EscapeWith(text, shouldBeEscaped,
  escapingChar)` is the general escaping function. It puts `escapingChar` in front of
  every character the predicate accepts and copies every other character, line
  breaks included. `Escape(text)` is that function with `ShouldBeEscaped` and a
  backslash. An escaping strategy, `MarkdownCharEscaper`, is a value holding a
  predicate and an escaping character. Its two stock values are
  `MarkdownCharEscaper.Default` (plain-text escaping) and `MarkdownCharEscaper.NoEscape`
  (escapes nothing).
- **The writer settings (`WriterSettings`, in `writer_settings.dfy`).** An immutable
  value with five fields: format, line-break characters, line-break handling,
  close-output flag and escaper. The model has the defaulting constructor
  (`NewSettings`), the five `With*` derivations, the stock values `Default`,
  `DefaultCloseOutput` and `Debugging`, and the resolver `From`.
- `wrappers.dfy` holds `Option`, which stands for a C# argument that may be null.

Everything is pure: datatypes, functions and lemmas, as in the source.

One might expect each derivation to change exactly one field. In the code,
`WithFormat`, `WithNewLineChars`, `WithNewLineHandling` and `WithCloseOutput` call
the constructor without an escaper. So the escaper of the result falls back to
`MarkdownCharEscaper.Default` (src/DotMarkdown/MarkdownWriterSettings.cs:22, :45,
:50, :55, :60). Only `WithDefaultEscaper` keeps the other four fields.
`DerivationDropsEscaper` proves that an escaper chosen earlier is lost.

`Unescape` is not in the source. It is a reference definition: the inverse of
`EscapeWith`. `UnescapeEscape` proves the round trip, so escaping never loses
information, for any predicate and escaping character.

## Model

| member | source | states |
|---|---|---|
| `MarkdownEscaper.EscapeWith` | src/Tests/DotMarkdown.Tests/MarkdownEscaperTests.cs:77-82 | the output is never shorter than the input; it equals the input exactly when no character of the input is accepted by the predicate; it never starts with an accepted character other than the escaping character |
| `MarkdownEscaper.EscapeWithSingleChar` | src/Tests/DotMarkdown.Tests/MarkdownEscaperTests.cs:77-82 | for any predicate, one character comes out as the escaping character followed by it when the predicate accepts it, and unchanged otherwise; with `EscapeConcat` this fixes the output of the general form |
| `MarkdownEscaper.Escape` | src/Tests/DotMarkdown.Tests/MarkdownEscaperTests.cs:26-30 | the one-argument form: never shorter than its input, and equal to it exactly when no character of it is escaped in plain text |
| `MarkdownEscaper.ShouldBeEscaped` | src/Tests/DotMarkdown.Tests/MarkdownEscaperTests.cs:84-107 | only printable ASCII punctuation is escaped in plain text, never a letter, digit or white space (the last part rests on reading the probed table as exact membership) |
| `MarkdownEscaper.ShouldBeEscapedInLinkText` | src/Tests/DotMarkdown.Tests/MarkdownEscaperTests.cs:109-132 | every character escaped in link text is escaped in plain text as well |
| `MarkdownEscaper.ShouldBeEscapedInLinkUrl` | src/Tests/DotMarkdown.Tests/MarkdownEscaperTests.cs:134-157 | every character escaped in a link URL is escaped in plain text and not in link text |
| `MarkdownEscaper.ShouldBeEscapedInLinkTitle` | src/Tests/DotMarkdown.Tests/MarkdownEscaperTests.cs:159-182 | the character escaped in a link title is escaped in no other region |
| `MarkdownEscaper.MarkdownCharEscaper.Escape` | src/Tests/DotMarkdown.Tests/MarkdownEscaperTests.cs:13-23 | a strategy escapes with its own predicate and escaping character: the result is never shorter than the text and equals it exactly when the strategy's predicate accepts none of its characters |
| `MarkdownEscaper.EscapeConcat` | src/Tests/DotMarkdown.Tests/MarkdownEscaperTests.cs:28-29 | escaping a concatenation is the concatenation of the escaped parts |
| `MarkdownEscaper.UnescapeEscape` | src/Tests/DotMarkdown.Tests/MarkdownEscaperTests.cs:52-55 | a property of the model's own inverse `Unescape`, which the source does not have: unescaping the escaped text gives back the input, for every predicate and escaping character, so escaping loses no information |
| `MarkdownEscaper.EscapeLineByLine` | src/Tests/DotMarkdown.Tests/MarkdownEscaperTests.cs:29 | a separator that holds nothing to escape is copied, and the text on each side of it is escaped on its own |
| `MarkdownEscaper.EscapeKeepsLineBreaks` | src/Tests/DotMarkdown.Tests/MarkdownEscaperTests.cs:26-30 | with the default predicate, a run of CR and LF characters passes through and `Escape(a + nl + b) == Escape(a) + nl + Escape(b)` |
| `MarkdownEscaper.EscapeSingleChar` | src/Tests/DotMarkdown.Tests/MarkdownEscaperTests.cs:32-55 | `Escape([c])` is a backslash followed by `c` when `ShouldBeEscaped(c)`, and `[c]` otherwise |
| `MarkdownEscaper.NeverEscapeIsIdentity` | src/Tests/DotMarkdown.Tests/MarkdownEscaperTests.cs:57-82 | escaping with the predicate `ch => false` returns the text unchanged, whatever the escaping character |
| `MarkdownEscaper.EscapeOneSpecial` | src/Tests/DotMarkdown.Tests/MarkdownEscaperTests.cs:52-55 | one escaped character between two runs of characters that need no escaping gets a backslash in front, and the runs are copied |
| `MarkdownEscaper.EscapePiExample` | src/Tests/DotMarkdown.Tests/MarkdownEscaperTests.cs:15-19 | in plain text, "Pi is 3.14159" becomes "Pi is 3\.14159": only the dot is escaped |
| `MarkdownEscaper.ShouldBeEscapedProbes` | src/Tests/DotMarkdown.Tests/MarkdownEscaperTests.cs:84-107 | ``\ ` * _ { } [ ] ( ) # + - . ! < >`` are escaped in plain text; `"` and `'` are not |
| `MarkdownEscaper.ShouldBeEscapedInLinkTextProbes` | src/Tests/DotMarkdown.Tests/MarkdownEscaperTests.cs:109-132 | ``` ` [ ] < > ``` are escaped in link text; the other fourteen probed characters are not |
| `MarkdownEscaper.ShouldBeEscapedInLinkUrlProbes` | src/Tests/DotMarkdown.Tests/MarkdownEscaperTests.cs:134-157 | only `(` and `)` among the probed characters are escaped in a link URL |
| `MarkdownEscaper.ShouldBeEscapedInLinkTitleProbes` | src/Tests/DotMarkdown.Tests/MarkdownEscaperTests.cs:159-182 | only `"` among the probed characters is escaped in a link title; `'` is not |
| `MarkdownEscaper.DefaultStrategyEscapes` | src/DotMarkdown/MarkdownWriterSettings.cs:22 | the default strategy escapes exactly as `Escape` does |
| `MarkdownEscaper.NoEscapeStrategyIsIdentity` | src/Tests/DotMarkdown.Tests/MarkdownEscaperTests.cs:13-23 | the no-escape strategy returns every text unchanged |
| `WriterSettings.NewSettings` | src/DotMarkdown/MarkdownWriterSettings.cs:11-23 | an absent format becomes the default format, absent line-break characters become the host line terminator, an absent escaper becomes the default escaper; handling and close-output are taken as given |
| `WriterSettings.MarkdownWriterSettings.WithFormat` | src/DotMarkdown/MarkdownWriterSettings.cs:43-46 | sets the format, keeps line-break characters, handling and close-output, and resets the escaper to the default |
| `WriterSettings.MarkdownWriterSettings.WithNewLineChars` | src/DotMarkdown/MarkdownWriterSettings.cs:48-51 | sets the line-break characters, keeps format, handling and close-output, and resets the escaper to the default |
| `WriterSettings.MarkdownWriterSettings.WithNewLineHandling` | src/DotMarkdown/MarkdownWriterSettings.cs:53-56 | sets the handling, keeps format, line-break characters and close-output, and resets the escaper to the default |
| `WriterSettings.MarkdownWriterSettings.WithCloseOutput` | src/DotMarkdown/MarkdownWriterSettings.cs:58-61 | sets close-output, keeps format, line-break characters and handling, and resets the escaper to the default |
| `WriterSettings.MarkdownWriterSettings.WithDefaultEscaper` | src/DotMarkdown/MarkdownWriterSettings.cs:63-64 | sets the escaper and keeps the other four fields |
| `WriterSettings.From` | src/DotMarkdown/MarkdownWriterSettings.cs:66-75 | an absent format or the default format object gives `Default`; any other format gives settings with that format, the host line terminator, `Replace`, no close-output and the default escaper |
| `WriterSettings.DefaultFields` | src/DotMarkdown/MarkdownWriterSettings.cs:26 | `Default` has the default format, the host line terminator, `Replace`, no close-output and the default escaper |
| `WriterSettings.DefaultCloseOutputFields` | src/DotMarkdown/MarkdownWriterSettings.cs:28 | `DefaultCloseOutput` is `Default` with close-output set and nothing else changed |
| `WriterSettings.DebuggingFields` | src/DotMarkdown/MarkdownWriterSettings.cs:30 | `Debugging` is `Default` with the debugging format and nothing else changed |
| `WriterSettings.NewSettingsFromFields` | src/DotMarkdown/MarkdownWriterSettings.cs:11-40 | constructing settings from all five fields of a value gives that value back |
| `WriterSettings.FromIsConstructor` | src/DotMarkdown/MarkdownWriterSettings.cs:66-75 | the fast path of `From` agrees with the constructor called with that format alone |
| `WriterSettings.DerivationsIdempotent` | src/DotMarkdown/MarkdownWriterSettings.cs:43-64 | each of the five derivations applied twice with the same value equals it applied once |
| `WriterSettings.LastDerivationWins` | src/DotMarkdown/MarkdownWriterSettings.cs:58-64 | deriving close-output, or the escaper, twice keeps only the later value |
| `WriterSettings.DerivationDropsEscaper` | src/DotMarkdown/MarkdownWriterSettings.cs:43-61 | `WithFormat`, `WithNewLineChars`, `WithNewLineHandling` or `WithCloseOutput` after `WithDefaultEscaper(e)` is the same as without it: the chosen escaper is lost, so a no-escape choice does not survive |
| `WriterSettings.NoEscapeSettingsExample` | src/Tests/DotMarkdown.Tests/MarkdownEscaperTests.cs:13-23 | the escaper of `Default.WithDefaultEscaper(NoEscape)` leaves "Pi is 3.14159" unchanged, while the default escaper escapes its dot |

## Left out

- The writer that emits text (`MarkdownStringWriter`, `WriteString`, `Close`, the string builder destination). Only the escaper that writer consults is modelled.
- Null arguments. A null text or predicate makes the C# code throw an argument exception. Dafny sequences and functions cannot be null, so there is no such path here.
- The implementation file of `MarkdownEscaper` is not part of this model. The escaping function is defined from its tests. Each predicate is exact membership in the set the tests probe; characters the tests do not probe are taken as not escaped.
- Whether the C# code avoids allocating when nothing needs escaping is not modelled. Only the returned characters are.
- The contents of the test helpers `Chars`, `CharsEscaped` and `NewLine` are not part of this model. The line-by-line property is stated for every text and every line break made of CR and LF characters.
- The host line terminator (`Environment.NewLine`) is a constant string of unknown value.
- `MarkdownFormat` is opaque. A format is represented only by an identity handle, so reference equality becomes equality of values. `Default` and `Debugging` are two distinct handles.
- `NewLineHandling` is an enumeration whose declaring file is not part of this model. Only the `Replace` value is used by the code shown; the second value, `None`, is an assumption. What the writer does with either value is not modelled.
- From: the model is value-based, so it cannot tell the `Default` singleton from an equal new value. Its contract states that the result equals `Default`, not that it is the same object.
- Characters: a Dafny `char` is a Unicode scalar value, while a C# `char` is a UTF-16 code unit. A character above U+FFFF is one element here and two (a surrogate pair) in C#, so lengths count different units, and a lone surrogate has no counterpart here. Every character the source's tables name is in the Basic Multilingual Plane, where the two agree.
- Null arguments to the derivations: `WithFormat`, `WithNewLineChars` and `WithDefaultEscaper` take a value that is always present here. In C# a null argument still reaches the constructor and falls back to the default format, the host line terminator or the default escaper through `??`. The model reaches those fallbacks only through `NewSettings`.
- `MarkdownCharEscaper` is a class whose declaring file is not part of this model. Its shape here is an assumption: one plain-text predicate and one escaping character, with no per-region predicates. So are its two stock values: `Default` is taken to be `ShouldBeEscaped` with a backslash, and `NoEscape` is taken to use a backslash too, which has no observable effect because it escapes nothing.
- The debugger display attribute is a presentation aid with no behaviour.
