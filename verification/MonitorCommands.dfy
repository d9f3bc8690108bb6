/** The monitor commands of the debug server: their texts, and the log level they set and show. */
module MonitorCommands {
  import opened Options
  import opened Numerals

  type Int32 = n: int | -0x8000_0000 <= n < 0x8000_0000

  /** The number of log severities; a level at or above it is refused. */
  const NUM_SEVERITIES := 4

  // ----- Decimal numbers -----

  /** fxl::StringToNumberWithError<int> in base 10. */
  function ParseDecimal(s: string): Option<Int32> {
    var negative := s != "" && s[0] == '-';
    var digits := if negative then s[1..] else s;
    var magnitude: Option<nat> := if digits == "" then None else Digits(digits, Ten);
    if magnitude.None? then None
    else if negative then (if magnitude.value <= 0x8000_0000 then Some(0 - magnitude.value) else None)
    else (if magnitude.value < 0x8000_0000 then Some(magnitude.value) else None)
  }

  function Magnitude(n: int): nat { if n < 0 then -n else n }

  /** fxl::NumberToString<int>. */
  function PrintDecimal(n: Int32): string {
    if n < 0 then "-" + Print(Magnitude(n), Ten) else Print(Magnitude(n), Ten)
  }

  lemma DecimalRoundTrip(n: Int32)
    ensures ParseDecimal(PrintDecimal(n)) == Some(n)
  {
    var magnitude := Magnitude(n);
    PrintDigits(magnitude, Ten);
    assert IsUpper(Print(magnitude, Ten)[0]);
    if n < 0 { assert PrintDecimal(n)[1..] == Print(magnitude, Ten); }
  }

  predicate AllBytes(s: string) {
    forall c | c in s :: IsByte(c)
  }

  lemma PrintDecimalIsShort(n: Int32)
    ensures |PrintDecimal(n)| <= 11 && AllBytes(PrintDecimal(n))
  {
    var magnitude := Magnitude(n);
    assert Power(4, Ten) == 10000 by { assert Power(2, Ten) == 100; }
    assert Power(8, Ten) == 100000000 by { assert Power(6, Ten) == 1000000; }
    assert Power(10, Ten) == 10000000000;
    PrintLength(magnitude, 10, Ten);
    forall c | c in Print(magnitude, Ten) ensures IsByte(c) {
      var i :| 0 <= i < |Print(magnitude, Ten)| && Print(magnitude, Ten)[i] == c;
    }
  }

  // ----- Texts -----

  const INVALID_COMMAND := "Invalid command\n"
  const INVALID_MONITOR_COMMAND := "Invalid monitor command\n"
  /** The first line stands for the help text, which has 189 characters. */
  const HELP := "help - print this help text\n"

  lemma TextsAreShort()
    ensures AllBytes(INVALID_COMMAND) && AllBytes(INVALID_MONITOR_COMMAND) && AllBytes(HELP)
    ensures |INVALID_COMMAND| <= 32 && |INVALID_MONITOR_COMMAND| <= 32 && |HELP| <= 32
  {
    BytesByIndex(INVALID_COMMAND);
    BytesByIndex(INVALID_MONITOR_COMMAND);
    BytesByIndex(HELP);
  }

  lemma BytesByIndex(s: string)
    requires forall i | 0 <= i < |s| :: IsByte(s[i])
    ensures AllBytes(s)
  {
  }

  /** What a monitor command may be answered. */
  datatype Answer = Okay | InvalidCommand | InvalidMonitorCommand | HelpText | Level(level: Int32)

  /** The text of an answer, before it is encoded; "OK" is sent as it is. */
  function TextOf(a: Answer): (s: string)
    ensures AllBytes(s) && |s| <= 32
  {
    TextsAreShort();
    match a
    case Okay => ""
    case InvalidCommand => INVALID_COMMAND
    case InvalidMonitorCommand => INVALID_MONITOR_COMMAND
    case HelpText => HELP
    case Level(n) =>
      PrintDecimalIsShort(n);
      "Value is " + PrintDecimal(n) + "\n"
  }

  // ----- What a monitor command does -----

  datatype Verb = Quit | Help | Set | Show | Other

  function VerbOf(word: string): Verb {
    if word == "quit" || word == "exit" then Quit
    else if word == "help" then Help
    else if word == "set" then Set
    else if word == "show" then Show
    else Other
  }

  predicate IsLevel(parameter: string, value: string) {
    && parameter == "verbosity"
    && ParseDecimal(value).Some? && ParseDecimal(value).value < NUM_SEVERITIES
  }

  predicate SetsLevel(argv: seq<string>) {
    |argv| == 3 && VerbOf(argv[0]) == Set && IsLevel(argv[1], argv[2])
  }

  function LevelAfter(argv: seq<string>, level: Int32): Int32 {
    if SetsLevel(argv) then ParseDecimal(argv[2]).value else level
  }

  predicate Quits(argv: seq<string>) {
    |argv| == 1 && VerbOf(argv[0]) == Quit
  }

  function AnswerFor(argv: seq<string>, level: Int32): Answer {
    if argv == [] || Quits(argv) || SetsLevel(argv) then Okay
    else
      match VerbOf(argv[0])
      case Help => if |argv| == 1 then HelpText else InvalidCommand
      case Show => if |argv| == 2 && argv[1] == "verbosity" then Level(level) else InvalidCommand
      case Other => InvalidMonitorCommand
      case _ => InvalidCommand
  }

  /** A level that was set is the one shown. */
  lemma SetThenShow(level: Int32, before: Int32)
    requires level < NUM_SEVERITIES
    ensures var set_ := ["set", "verbosity", PrintDecimal(level)];
      LevelAfter(set_, before) == level && AnswerFor(set_, before) == Okay
    ensures TextOf(AnswerFor(["show", "verbosity"], level)) == "Value is " + PrintDecimal(level) + "\n"
  {
    DecimalRoundTrip(level);
  }

  /** No level at or above the number of severities can be set. */
  lemma LevelsStayBelow(argv: seq<string>, level: Int32)
    requires level < NUM_SEVERITIES
    ensures LevelAfter(argv, level) < NUM_SEVERITIES
    ensures LevelAfter(argv, level) != level ==> AnswerFor(argv, level) == Okay && |argv| == 3 && argv[0] == "set"
  {
  }
}
