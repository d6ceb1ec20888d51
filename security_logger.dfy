/** The security audit log (easyWslLib/SecurityLogger.cs): the format of an
    entry, the sanitising of values written into it, and the log itself as
    a sequence of entries that each event appends to. */
module SecurityLogger {
  import opened Text

  /** A UTC clock reading. */
  datatype DateTime = DateTime(year: nat, month: nat, day: nat, hour: nat, minute: nat, second: nat)

  /** A reading DateTime.UtcNow can return. */
  type UtcTime = t: DateTime | 1 <= t.year <= 9999 && 1 <= t.month <= 12 && 1 <= t.day <= 31
                              && t.hour < 24 && t.minute < 60 && t.second < 60
    witness DateTime(1, 1, 1, 0, 0, 0)

  function Digits2(n: nat): (s: string)
    requires n < 100
    ensures |s| == 2 && IsAsciiDigit(s[0]) && IsAsciiDigit(s[1])
  {
    [DigitChar(n / 10), DigitChar(n % 10)]
  }

  function Digits4(n: nat): (s: string)
    requires n < 10000
    ensures |s| == 4 && forall k :: 0 <= k < 4 ==> IsAsciiDigit(s[k])
  {
    Digits2(n / 100) + Digits2(n % 100)
  }

  /** The timestamp format "yyyy-MM-dd HH:mm:ss". */
  function Timestamp(t: UtcTime): (s: string)
    ensures |s| == 19
    ensures s[4] == '-' && s[7] == '-' && s[10] == ' ' && s[13] == ':' && s[16] == ':'
    ensures '\n' !in s
  {
    Digits4(t.year) + "-" + Digits2(t.month) + "-" + Digits2(t.day) + " "
    + Digits2(t.hour) + ":" + Digits2(t.minute) + ":" + Digits2(t.second)
  }

  function Status(isSuccess: bool): string
  {
    if isSuccess then "SUCCESS" else "FAILURE"
  }

  /** One line of security.log. */
  function Entry(timestamp: string, eventType: string, details: string, isSuccess: bool): string
  {
    "[" + timestamp + "] [" + Status(isSuccess) + "] " + eventType + ": " + details + "\n"
  }

  /** An entry ends in a newline and holds no other one exactly when none of
      the timestamp, the event type and the details holds one: a newline in
      any of them splits the event over several lines of the log. */
  lemma EntryIsOneLine(timestamp: string, eventType: string, details: string, isSuccess: bool)
    ensures var e := Entry(timestamp, eventType, details, isSuccess);
      e[|e| - 1] == '\n'
      && ('\n' !in e[..|e| - 1] <==> '\n' !in timestamp && '\n' !in eventType && '\n' !in details)
  {
    var e := Entry(timestamp, eventType, details, isSuccess);
    var body := "[" + timestamp + "] [" + Status(isSuccess) + "] " + eventType + ": " + details;
    assert e == body + "\n";
    assert e[..|e| - 1] == body;
  }

  /** A character that could forge a new log line or column. */
  predicate IsLogControl(c: char) { c == '\n' || c == '\r' || c == '\t' }

  function LogSafe(c: char): char { if IsLogControl(c) then ' ' else c }

  const MaxLoggedValue: nat := 100

  /** Replacing newline, carriage return and tab by a space, one after the
      other, turns each character into its LogSafe form. */
  lemma ReplaceLogControls(v: string)
    ensures var r := Replace(Replace(Replace(v, "\n", " "), "\r", " "), "\t", " ");
      |r| == |v| && forall k :: 0 <= k < |v| ==> r[k] == LogSafe(v[k])
  {
    var a := Replace(v, "\n", " ");
    var b := Replace(a, "\r", " ");
    ReplaceCharMap(v, '\n', ' ');
    ReplaceCharMap(a, '\r', ' ');
    ReplaceCharMap(b, '\t', ' ');
  }

  /** SanitizeForLog: "[empty]" for an empty value; otherwise the value cut to
      its first 100 characters followed by "..." when longer, with every
      newline, carriage return and tab turned into a space. */
  function SanitizeForLog(value: string): (r: string)
    ensures value == [] ==> r == "[empty]"
    ensures value != [] ==> |r| == (if |value| > MaxLoggedValue then MaxLoggedValue + 3 else |value|)
    ensures value != [] ==> forall k :: 0 <= k < |value| && k < MaxLoggedValue ==> r[k] == LogSafe(value[k])
    ensures |value| > MaxLoggedValue ==> r[MaxLoggedValue..] == "..."
    ensures forall k :: 0 <= k < |r| ==> !IsLogControl(r[k])
    ensures '\n' !in r && '\r' !in r && '\t' !in r
  {
    if value == [] then
      assert forall k :: 0 <= k < 7 ==> !IsLogControl("[empty]"[k]);
      "[empty]"
    else
      var v := if |value| > MaxLoggedValue then value[..MaxLoggedValue] + "..." else value;
      ReplaceLogControls(v);
      Replace(Replace(Replace(v, "\n", " "), "\r", " "), "\t", " ")
  }

  /** Values that are already short and clean are logged as they are. */
  lemma {:induction false} SanitizeKeepsCleanValues(value: string)
    requires 0 < |value| <= MaxLoggedValue
    requires forall k :: 0 <= k < |value| ==> !IsLogControl(value[k])
    ensures SanitizeForLog(value) == value
  {
    var r := SanitizeForLog(value);
    assert forall k :: 0 <= k < |value| ==> r[k] == value[k];
  }

  const MaxCommandPreview: nat := 50

  /** The part of a command that LogCommandExecution writes: the command
      itself up to 50 characters, else its first 50 and "...". */
  function CommandPreview(command: string): (r: string)
    ensures |command| <= MaxCommandPreview ==> r == command
    ensures |command| > MaxCommandPreview ==>
      (|r| == MaxCommandPreview + 3 && r[..MaxCommandPreview] == command[..MaxCommandPreview]
       && r[MaxCommandPreview..] == "...")
  {
    if |command| > MaxCommandPreview then command[..MaxCommandPreview] + "..." else command
  }

  function ValidationFailureDetails(inputType: string, value: string, reason: string): string
  {
    "Type=" + inputType + ", Value=" + SanitizeForLog(value) + ", Reason=" + reason
  }

  function CommandExecutionDetails(command: string, distroName: string): string
  {
    "Distro=" + distroName + ", Command=" + CommandPreview(command)
  }

  function FileOperationDetails(operation: string, path: string): string
  {
    "Operation=" + operation + ", Path=" + SanitizeForLog(path)
  }

  function PathTraversalDetails(attemptedPath: string, baseDirectory: string): string
  {
    "Attempted=" + SanitizeForLog(attemptedPath) + ", Base=" + SanitizeForLog(baseDirectory)
  }

  /** The details of a validation failure hold a newline only where the
      input type or the reason does. */
  lemma ValidationFailureDetailsOneLine(inputType: string, value: string, reason: string)
    requires '\n' !in inputType && '\n' !in reason
    ensures '\n' !in ValidationFailureDetails(inputType, value, reason)
  {
    var v := SanitizeForLog(value);
    assert '\n' !in "Type=" && '\n' !in ", Value=" && '\n' !in ", Reason=";
  }

  /** Whatever value failed validation, its entry stays on one line of the
      log, because the value goes through SanitizeForLog. */
  lemma ValidationFailureIsOneLine(t: UtcTime, inputType: string, value: string, reason: string)
    requires '\n' !in inputType && '\n' !in reason
    ensures var e := Entry(Timestamp(t), "VALIDATION_FAILURE", ValidationFailureDetails(inputType, value, reason), false);
      '\n' !in e[..|e| - 1]
  {
    ValidationFailureDetailsOneLine(inputType, value, reason);
    assert '\n' !in "VALIDATION_FAILURE";
    EntryIsOneLine(Timestamp(t), "VALIDATION_FAILURE", ValidationFailureDetails(inputType, value, reason), false);
  }

  /** The details of a path-traversal attempt never hold a newline. */
  lemma PathTraversalDetailsOneLine(attemptedPath: string, baseDirectory: string)
    ensures '\n' !in PathTraversalDetails(attemptedPath, baseDirectory)
  {
    var a := SanitizeForLog(attemptedPath);
    var b := SanitizeForLog(baseDirectory);
    assert '\n' !in "Attempted=" && '\n' !in ", Base=";
  }

  /** A path-traversal entry stays on one line whatever the two paths hold. */
  lemma PathTraversalIsOneLine(t: UtcTime, attemptedPath: string, baseDirectory: string)
    ensures var e := Entry(Timestamp(t), "PATH_TRAVERSAL_ATTEMPT", PathTraversalDetails(attemptedPath, baseDirectory), false);
      '\n' !in e[..|e| - 1]
  {
    PathTraversalDetailsOneLine(attemptedPath, baseDirectory);
    assert '\n' !in "PATH_TRAVERSAL_ATTEMPT";
    EntryIsOneLine(Timestamp(t), "PATH_TRAVERSAL_ATTEMPT", PathTraversalDetails(attemptedPath, baseDirectory), false);
  }

  /** The command preview is not sanitised: a short command holding a
      newline splits its entry over two lines. */
  lemma CommandExecutionMayBreakLine(t: UtcTime)
    ensures var e := Entry(Timestamp(t), "COMMAND_EXECUTION", CommandExecutionDetails("id\nx", "d"), true);
      '\n' in e[..|e| - 1]
  {
    var details := CommandExecutionDetails("id\nx", "d");
    assert details == "Distro=d, Command=id\nx";
    assert '\n' in details by { assert details[20] == '\n'; }
    EntryIsOneLine(Timestamp(t), "COMMAND_EXECUTION", details, true);
  }

  /** security.log: the entries written so far, oldest first. */
  class SecurityLog {
    var entries: seq<string>
    /** Whether File.AppendAllText on the log path succeeds. */
    var writable: bool
    /** The value DateTime.UtcNow gives. It is one reading: every event of
        this log is stamped with it, and the time passing between events is
        not modelled. */
    var clock: UtcTime

    constructor (writable: bool, clock: UtcTime)
      ensures entries == [] && this.writable == writable && this.clock == clock
    {
      entries := [];
      this.writable := writable;
      this.clock := clock;
    }

    /** The entries an event adds: its line when the log can be written,
        nothing otherwise (the failure is swallowed). */
    function Appended(eventType: string, details: string, isSuccess: bool): (a: seq<string>)
      reads this
      ensures |a| <= 1 && (a != [] <==> writable)
      ensures forall k :: 0 <= k < |a| ==> a[k] != [] && a[k][|a[k]| - 1] == '\n'
    {
      if writable then [Entry(Timestamp(clock), eventType, details, isSuccess)] else []
    }

    method LogSecurityEvent(eventType: string, details: string, isSuccess: bool)
      modifies this`entries
      ensures entries == old(entries) + Appended(eventType, details, isSuccess)
    {
      var entry := Entry(Timestamp(clock), eventType, details, isSuccess);
      if writable {
        entries := entries + [entry];
      }
    }

    method LogValidationFailure(inputType: string, value: string, reason: string)
      modifies this`entries
      ensures entries == old(entries) + Appended("VALIDATION_FAILURE", ValidationFailureDetails(inputType, value, reason), false)
    {
      LogSecurityEvent("VALIDATION_FAILURE", ValidationFailureDetails(inputType, value, reason), false);
    }

    method LogCommandExecution(command: string, distroName: string)
      modifies this`entries
      ensures entries == old(entries) + Appended("COMMAND_EXECUTION", CommandExecutionDetails(command, distroName), true)
    {
      LogSecurityEvent("COMMAND_EXECUTION", CommandExecutionDetails(command, distroName), true);
    }

    method LogFileOperation(operation: string, path: string, isSuccess: bool)
      modifies this`entries
      ensures entries == old(entries) + Appended("FILE_OPERATION", FileOperationDetails(operation, path), isSuccess)
    {
      LogSecurityEvent("FILE_OPERATION", FileOperationDetails(operation, path), isSuccess);
    }

    method LogPathTraversalAttempt(attemptedPath: string, baseDirectory: string)
      modifies this`entries
      ensures entries == old(entries) + Appended("PATH_TRAVERSAL_ATTEMPT", PathTraversalDetails(attemptedPath, baseDirectory), false)
    {
      LogSecurityEvent("PATH_TRAVERSAL_ATTEMPT", PathTraversalDetails(attemptedPath, baseDirectory), false);
    }
  }
}
