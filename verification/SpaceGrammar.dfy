/**
 * The default tokenizer as a recursive reader of the whole remaining input.
 * It has no state variable: being inside a quote or after a backslash is which function is running.
 */
module SpaceGrammar {
  import opened Bytes
  import opened TokenStep

  predicate IsBlank(b: Byte) {
    b == SPACE || b == TAB
  }

  predicate IsSeparator(b: Byte) {
    IsBlank(b) || b == NEWLINE
  }

  predicate IsQuote(b: Byte) {
    b == SINGLE_QUOTE || b == DOUBLE_QUOTE
  }

  /** What ended a word. */
  datatype Terminator = AtBlank | AtNewline | AtEof | NewlineInQuote | EofInQuote | EofAfterBackslash

  datatype Scan = Scan(text: Bytes, end: Terminator, rest: Bytes)

  function Prefixed(text: Bytes, scan: Scan): Scan {
    scan.(text := text + scan.text)
  }

  function ScanWord(s: Bytes): (r: Scan)
    ensures |r.rest| <= |s|
    ensures r.end.AtBlank? || r.end.AtNewline? ==> |r.rest| < |s|
    ensures r.end.AtEof? ==> r.rest == []
    decreases |s|
  {
    if s == [] then Scan([], AtEof, [])
    else if IsBlank(s[0]) then Scan([], AtBlank, s[1..])
    else if s[0] == NEWLINE then Scan([], AtNewline, s[1..])
    else if IsQuote(s[0]) then ScanQuoted(s[0], s[1..])
    else if s[0] == BACKSLASH then ScanEscaped(s[1..])
    else Prefixed([s[0]], ScanWord(s[1..]))
  }

  function ScanQuoted(quote: Byte, s: Bytes): (r: Scan)
    ensures |r.rest| <= |s|
    ensures r.end.AtBlank? || r.end.AtNewline? ==> |r.rest| < |s|
    ensures r.end.AtEof? ==> r.rest == []
    decreases |s|
  {
    if s == [] then Scan([], EofInQuote, [])
    else if s[0] == quote then ScanWord(s[1..])
    else if s[0] == NEWLINE then Scan([], NewlineInQuote, s[1..])
    else Prefixed([s[0]], ScanQuoted(quote, s[1..]))
  }

  function ScanEscaped(s: Bytes): (r: Scan)
    ensures |r.rest| <= |s|
    ensures r.end.AtBlank? || r.end.AtNewline? ==> |r.rest| < |s|
    ensures r.end.AtEof? ==> r.rest == []
    decreases |s|
  {
    if s == [] then Scan([], EofAfterBackslash, [])
    else Prefixed([s[0]], ScanWord(s[1..]))
  }

  function SkipSeparators(s: Bytes): (r: Bytes)
    ensures |r| <= |s|
    ensures r != [] ==> !IsSeparator(r[0])
  {
    if s == [] || !IsSeparator(s[0]) then s else SkipSeparators(s[1..])
  }

  /** A finished word is compared with the logical end-of-input marker before it is delivered. */
  function Deliver(marker: Option<CString>, text: Bytes, lineEnds: bool, rest: Bytes): Step {
    if marker == Some(CStr(text)) then Stop(Marker, lineEnds, rest)
    else Token(CStr(text), lineEnds, rest)
  }

  function Finish(marker: Option<CString>, scan: Scan, fails: bool): (r: Step)
    ensures r.rest == scan.rest
  {
    match scan.end
    case AtBlank => Deliver(marker, scan.text, false, scan.rest)
    case AtNewline => Deliver(marker, scan.text, true, scan.rest)
    case NewlineInQuote => Stop(UnterminatedQuote, false, scan.rest)
    case AtEof =>
      if fails then Stop(IoError, false, scan.rest) else Deliver(marker, scan.text, true, scan.rest)
    case EofInQuote =>
      Stop(if fails then IoError else UnterminatedQuote, false, scan.rest)
    case EofAfterBackslash =>
      Stop(if fails then IoError else BackslashAtEof, false, scan.rest)
  }

  /** One call: skip separators, read one word, judge how it ended. fails: reading ends in an I/O error. */
  function SpaceStep(marker: Option<CString>, s: Bytes, fails: bool): (r: Step)
    ensures |r.rest| <= |s|
    ensures r.Token? ==> |r.rest| < |s|
  {
    var word := SkipSeparators(s);
    if word == [] then Stop(if fails then IoError else CleanEnd, false, [])
    else Finish(marker, ScanWord(word), fails)
  }
}
