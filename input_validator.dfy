/** Input validation and sanitising (easyWslLib/InputValidator.cs): the check
    cascades for distribution names, user names, paths and image references,
    and the string transformers that quote or clean values before they reach
    a shell, a WSL path or the file system. */
module InputValidator {
  import opened Text
  import SecurityLogger

  /** The (IsValid, Error) pair every validator returns. */
  datatype Validation = Validation(isValid: bool, error: string)

  /** Outcome of a validator that logs its failures: the reason written to
      the security log and the message returned to the caller. */
  datatype Verdict = Accept | Reject(reason: string, message: string)

  function ToValidation(v: Verdict): Validation
  {
    match v
    case Accept => Validation(true, "")
    case Reject(_, message) => Validation(false, message)
  }

  /** What Path.GetFullPath gives: the full path, or the message of the
      exception it throws. */
  datatype FullPath = Resolved(full: string) | Unresolvable(message: string)

  /** Path.GetInvalidFileNameChars() on Windows: NUL, the control characters
      U+0001 to U+001F and  " < > | : * ? \ / */
  const WindowsInvalidFileNameChars: seq<char> :=
    seq(32, k requires 0 <= k < 32 => k as char) + ['"', '<', '>', '|', ':', '*', '?', '\\', '/']

  function ContainsAny(s: string, chars: set<char>): bool
  {
    exists k :: 0 <= k < |s| && s[k] in chars
  }

  // -----------------------------------------------------------------------
  // ValidateDistroName
  // -----------------------------------------------------------------------

  const MaxDistroNameLength: nat := 255

  const ExtraInvalidDistroNameChars: set<char> := {' ', '/', '\\', ':', '*', '?', '"', '<', '>', '|'}

  const ReservedNames: seq<string> :=
    ["CON", "PRN", "AUX", "NUL", "COM1", "COM2", "COM3", "COM4", "COM5", "COM6", "COM7", "COM8", "COM9",
     "LPT1", "LPT2", "LPT3", "LPT4", "LPT5", "LPT6", "LPT7", "LPT8", "LPT9"]

  /** The cascade of ValidateDistroName; the file-name characters the
      platform forbids are a parameter. The length limit counts UTF-16 code
      units, as String.Length does. */
  function DistroNameVerdict(name: string, invalidFileNameChars: set<char>): (r: Verdict)
    ensures r.Accept? <==>
      !IsBlank(name) && Utf16Length(name) <= MaxDistroNameLength
      && (forall k :: 0 <= k < |name| ==> name[k] !in invalidFileNameChars + ExtraInvalidDistroNameChars)
      && ToUpper(name) !in ReservedNames
    ensures IsBlank(name) ==> r == Reject("Empty name", "Distribution name cannot be empty")
    ensures !IsBlank(name) && Utf16Length(name) > MaxDistroNameLength ==>
      r == Reject("Name too long", "Distribution name is too long (max 255 characters)")
    ensures (!IsBlank(name) && Utf16Length(name) <= MaxDistroNameLength
             && ContainsAny(name, invalidFileNameChars + ExtraInvalidDistroNameChars)) ==>
      r == Reject("Contains invalid characters", "Distribution name contains invalid characters")
    ensures (!IsBlank(name) && Utf16Length(name) <= MaxDistroNameLength
             && !ContainsAny(name, invalidFileNameChars + ExtraInvalidDistroNameChars)
             && ToUpper(name) in ReservedNames) ==>
      r == Reject("Reserved system name", "Distribution name is a reserved system name")
  {
    if IsBlank(name) then Reject("Empty name", "Distribution name cannot be empty")
    else if Utf16Length(name) > MaxDistroNameLength then Reject("Name too long", "Distribution name is too long (max 255 characters)")
    else if ContainsAny(name, invalidFileNameChars + ExtraInvalidDistroNameChars) then
      Reject("Contains invalid characters", "Distribution name contains invalid characters")
    else if ToUpper(name) in ReservedNames then
      Reject("Reserved system name", "Distribution name is a reserved system name")
    else Accept
  }

  /** A name made of letters and digits holds no character the platform
      forbids when the platform forbids none of them either. */
  lemma AlphanumericNameIsClean(name: string, invalidFileNameChars: set<char>)
    requires forall k :: 0 <= k < |name| ==> IsAsciiLetterOrDigit(name[k]) && name[k] !in invalidFileNameChars
    ensures !ContainsAny(name, invalidFileNameChars + ExtraInvalidDistroNameChars)
  {
  }

  /** Reserved device names are refused whatever their case, but only as the
      whole name. */
  lemma ReservedNamesIgnoreCase()
    ensures DistroNameVerdict("con", {}) == Reject("Reserved system name", "Distribution name is a reserved system name")
  {
    var name := "con";
    assert !IsBlank(name) by { assert !IsWhiteSpace(name[0]); }
    assert ToUpper(name) == ReservedNames[0];
    AlphanumericNameIsClean(name, {});
  }

  lemma ReservedNamesAreWholeNames()
    ensures DistroNameVerdict("com10", {}) == Accept
  {
    var name := "com10";
    assert !IsBlank(name) by { assert !IsWhiteSpace(name[0]); }
    assert |ToUpper(name)| == 5;
    assert forall k :: 0 <= k < |ReservedNames| ==> |ReservedNames[k]| <= 4;
    AlphanumericNameIsClean(name, {});
  }

  /** The length limit counts UTF-16 code units: 200 emoji take 400 of
      them, so such a name is too long although it has 200 characters. */
  lemma SupplementaryCharactersCountTwice()
    ensures DistroNameVerdict(seq(200, _ => '\U{1F600}'), {})
      == Reject("Name too long", "Distribution name is too long (max 255 characters)")
  {
    var name := seq(200, _ => '\U{1F600}');
    assert !IsBlank(name) by { assert !IsWhiteSpace(name[0]); }
    assert Utf16Length(name) == 400;
  }

  /** ValidateDistroName: the verdict, with a VALIDATION_FAILURE entry for
      type "DistroName" logged when it rejects. */
  method ValidateDistroName(name: string, invalidFileNameChars: set<char>, log: SecurityLogger.SecurityLog)
    returns (v: Validation)
    modifies log`entries
    ensures v == ToValidation(DistroNameVerdict(name, invalidFileNameChars))
    ensures log.entries == old(log.entries) + RejectionLog(log, "DistroName", name, DistroNameVerdict(name, invalidFileNameChars))
  {
    var verdict := DistroNameVerdict(name, invalidFileNameChars);
    if verdict.Reject? {
      log.LogValidationFailure("DistroName", name, verdict.reason);
    }
    v := ToValidation(verdict);
  }

  /** The entries a logging validator adds for a verdict. */
  function RejectionLog(log: SecurityLogger.SecurityLog, inputType: string, value: string, v: Verdict): seq<string>
    reads log
  {
    match v
    case Accept => []
    case Reject(reason, _) =>
      log.Appended("VALIDATION_FAILURE", SecurityLogger.ValidationFailureDetails(inputType, value, reason), false)
  }

  // -----------------------------------------------------------------------
  // ValidateUserName
  // -----------------------------------------------------------------------

  const MaxUserNameLength: nat := 32

  predicate IsUserNameChar(c: char) { IsAsciiLetterOrDigit(c) || c == '_' || c == '-' }

  /** ValidateUserName (it logs nothing). The length limit counts UTF-16
      code units, as String.Length does. */
  function ValidateUserName(userName: string): (r: Validation)
    ensures r.isValid <==>
      |userName| > 0 && !IsBlank(userName) && Utf16Length(userName) <= MaxUserNameLength
      && IsAsciiLetter(userName[0]) && forall k :: 0 <= k < |userName| ==> IsUserNameChar(userName[k])
    ensures r.isValid <==> r.error == ""
    ensures IsBlank(userName) ==> r.error == "Username cannot be empty"
    ensures !IsBlank(userName) && Utf16Length(userName) > MaxUserNameLength ==> r.error == "Username is too long (max 32 characters)"
    ensures !IsBlank(userName) && Utf16Length(userName) <= MaxUserNameLength && !IsAsciiLetter(userName[0]) ==>
      r.error == "Username must start with a letter"
    ensures (!IsBlank(userName) && Utf16Length(userName) <= MaxUserNameLength && IsAsciiLetter(userName[0])
             && exists k :: 0 <= k < |userName| && !IsUserNameChar(userName[k])) ==>
      r.error == "Username can only contain letters, digits, underscores, and hyphens"
  {
    if IsBlank(userName) then Validation(false, "Username cannot be empty")
    else if Utf16Length(userName) > MaxUserNameLength then Validation(false, "Username is too long (max 32 characters)")
    else if !IsAsciiLetter(userName[0]) then Validation(false, "Username must start with a letter")
    else if !(forall k :: 0 <= k < |userName| ==> IsUserNameChar(userName[k])) then
      Validation(false, "Username can only contain letters, digits, underscores, and hyphens")
    else Validation(true, "")
  }

  // -----------------------------------------------------------------------
  // ValidatePath
  // -----------------------------------------------------------------------

  /** ValidatePath: blank paths and paths Path.GetFullPath refuses are invalid. */
  function ValidatePath(path: string, fullPath: FullPath): (r: Validation)
    ensures r.isValid <==> !IsBlank(path) && fullPath.Resolved?
    ensures IsBlank(path) ==> r.error == "Path cannot be empty"
    ensures !IsBlank(path) && fullPath.Unresolvable? ==> r.error == "Invalid path: " + fullPath.message
  {
    if IsBlank(path) then Validation(false, "Path cannot be empty")
    else match fullPath
      case Resolved(_) => Validation(true, "")
      case Unresolvable(message) => Validation(false, "Invalid path: " + message)
  }

  // -----------------------------------------------------------------------
  // ValidateDockerImage
  // -----------------------------------------------------------------------

  const MaxImageLength: nat := 256
  const MaxTagLength: nat := 128

  predicate IsLowerAlnum(c: char) { 'a' <= c <= 'z' || '0' <= c <= '9' }

  predicate IsNameSeparator(c: char) { c == '.' || c == '_' || c == '-' }

  /** A string of [a-z0-9]+([._-][a-z0-9]+)*: lower-case alphanumeric runs
      joined by single separators. */
  predicate IsNameComponent(s: string)
  {
    |s| > 0 && IsLowerAlnum(s[0]) && IsLowerAlnum(s[|s| - 1])
    && (forall k :: 0 <= k < |s| ==> IsLowerAlnum(s[k]) || IsNameSeparator(s[k]))
    && (forall k :: 0 <= k < |s| - 1 && IsNameSeparator(s[k]) ==> IsLowerAlnum(s[k + 1]))
  }

  /** The name pattern of ValidateDockerImage: components separated by '/'. */
  predicate IsImageName(s: string)
  {
    forall p :: p in Split(s, '/') ==> IsNameComponent(p)
  }

  /** The tag pattern [a-zA-Z0-9_][a-zA-Z0-9._-]{0,127}. */
  predicate IsImageTag(s: string)
  {
    1 <= |s| <= MaxTagLength && IsWordChar(s[0])
    && forall k :: 1 <= k < |s| ==> IsWordChar(s[k]) || s[k] == '.' || s[k] == '-'
  }

  /** A .NET pattern ending in $ also matches before a final newline. */
  predicate NameMatches(s: string)
  {
    IsImageName(s) || (|s| > 0 && s[|s| - 1] == '\n' && IsImageName(s[..|s| - 1]))
  }

  predicate TagMatches(s: string)
  {
    IsImageTag(s) || (|s| > 0 && s[|s| - 1] == '\n' && IsImageTag(s[..|s| - 1]))
  }

  /** The cascade of ValidateDockerImage. */
  function DockerImageVerdict(image: string): (r: Verdict)
  {
    if IsBlank(image) then Reject("Empty image name", "Docker image name cannot be empty")
    else if ContainsSubstring(image, "://") then
      Reject("Contains URL protocol", "Full URLs are not allowed. Use registry/image:tag format")
    else if Utf16Length(image) > MaxImageLength then Reject("Name too long", "Docker image name is too long (max 256 characters)")
    else
      var parts := Split(image, ':');
      if |parts| > 2 then Reject("Invalid format - multiple colons", "Invalid Docker image format")
      else if !NameMatches(parts[0]) then Reject("Invalid name format", "Invalid Docker image name format")
      else if |parts| == 2 && !TagMatches(parts[1]) then Reject("Invalid tag format", "Invalid Docker image tag format")
      else Accept
  }

  /** An image is accepted exactly when it is not blank, holds no "://", has
      at most 256 UTF-16 code units and at most one ':', the text before the ':'
      matches the name pattern and the text after it, if any, the tag
      pattern. */
  lemma DockerImageAccepted(image: string)
    ensures DockerImageVerdict(image).Accept? <==>
      !IsBlank(image) && !ContainsSubstring(image, "://") && Utf16Length(image) <= MaxImageLength
      && Count(image, ':') <= 1
      && NameMatches(UpTo(image, ':'))
      && (':' in image ==> TagMatches(After(image, ':')))
  {
    ColonParts(image);
  }

  /** How the pieces of Split(image, ':') relate to the colons of image. */
  lemma ColonParts(image: string)
    ensures var parts := Split(image, ':');
      && (|parts| <= 2 <==> Count(image, ':') <= 1)
      && parts[0] == UpTo(image, ':')
      && (|parts| == 2 <==> ':' in image && Count(image, ':') <= 1)
      && (|parts| == 2 ==> parts[1] == After(image, ':'))
  {
    SplitCount(image, ':');
    if ':' in image && Count(image, ':') <= 1 {
      SplitAtOnlyColon(image);
    } else if ':' !in image {
      CountAbsent(image, ':');
    }
  }

  /** With a single ':', Split gives the text before it and the text after. */
  lemma SplitAtOnlyColon(image: string)
    requires ':' in image && Count(image, ':') <= 1
    ensures Split(image, ':') == [UpTo(image, ':'), After(image, ':')]
  {
    var rest := After(image, ':');
    SplitCount(image, ':');
    SplitCount(rest, ':');
    assert Split(image, ':') == [UpTo(image, ':')] + Split(rest, ':');
    assert ':' !in rest;
  }

  /** The failure reason names the first check that fails, in the order
      blank, URL, length, colons, name, tag. */
  lemma DockerImageRejectionOrder(image: string)
    ensures IsBlank(image) ==> DockerImageVerdict(image) == Reject("Empty image name", "Docker image name cannot be empty")
    ensures !IsBlank(image) && ContainsSubstring(image, "://") ==>
      DockerImageVerdict(image) == Reject("Contains URL protocol", "Full URLs are not allowed. Use registry/image:tag format")
    ensures !IsBlank(image) && !ContainsSubstring(image, "://") && Utf16Length(image) > MaxImageLength ==>
      DockerImageVerdict(image) == Reject("Name too long", "Docker image name is too long (max 256 characters)")
    ensures (!IsBlank(image) && !ContainsSubstring(image, "://") && Utf16Length(image) <= MaxImageLength
             && Count(image, ':') >= 2) ==>
      DockerImageVerdict(image) == Reject("Invalid format - multiple colons", "Invalid Docker image format")
    ensures (!IsBlank(image) && !ContainsSubstring(image, "://") && Utf16Length(image) <= MaxImageLength
             && Count(image, ':') <= 1 && !NameMatches(UpTo(image, ':'))) ==>
      DockerImageVerdict(image) == Reject("Invalid name format", "Invalid Docker image name format")
    ensures (!IsBlank(image) && !ContainsSubstring(image, "://") && Utf16Length(image) <= MaxImageLength
             && Count(image, ':') <= 1 && NameMatches(UpTo(image, ':'))
             && ':' in image && !TagMatches(After(image, ':'))) ==>
      DockerImageVerdict(image) == Reject("Invalid tag format", "Invalid Docker image tag format")
  {
    ColonParts(image);
  }

  /** A reference that names a registry port and a tag, such as
      "registry:5000/app:1.0", has two colons and is refused as malformed
      (once it is non-blank, holds no "://" and is short enough). */
  lemma RegistryPortRejected(registry: string, rest: string, tag: string)
    requires ':' !in registry && ':' !in rest && ':' !in tag
    requires var image := registry + ":" + rest + ":" + tag;
      !IsBlank(image) && !ContainsSubstring(image, "://") && Utf16Length(image) <= MaxImageLength
    ensures DockerImageVerdict(registry + ":" + rest + ":" + tag)
      == Reject("Invalid format - multiple colons", "Invalid Docker image format")
  {
    var image := registry + ":" + rest + ":" + tag;
    assert image == registry + [':'] + (rest + [':'] + tag);
    UpToAfterConcat(registry, ':', rest + [':'] + tag);
    UpToAfterConcat(rest, ':', tag);
    assert |Split(image, ':')| >= 3 by {
      assert Split(image, ':') == [registry] + Split(rest + [':'] + tag, ':');
    }
    DockerImageRejectionOrder(image);
    ColonParts(image);
  }

  /** A string matching the name pattern starts with a lower-case letter or
      digit and holds only those, '.', '_', '-' and '/'. */
  lemma ImageNameChars(name: string)
    requires IsImageName(name)
    ensures name != [] && IsLowerAlnum(name[0])
    ensures forall k :: 0 <= k < |name| ==> IsLowerAlnum(name[k]) || IsNameSeparator(name[k]) || name[k] == '/'
  {
    var first := Split(name, '/')[0];
    assert IsNameComponent(first);
    assert name[0] == first[0];
    forall k | 0 <= k < |name| && name[k] != '/'
      ensures IsLowerAlnum(name[k]) || IsNameSeparator(name[k])
    {
      SplitCovers(name, '/', name[k]);
      var p :| p in Split(name, '/') && name[k] in p;
      assert IsNameComponent(p);
    }
  }

  /** Any name matching the pattern, at most 256 characters long, is
      accepted without a tag: its characters are ASCII, so each is one
      UTF-16 code unit. */
  lemma UntaggedImageAccepted(name: string)
    requires IsImageName(name) && |name| <= MaxImageLength
    ensures DockerImageVerdict(name).Accept?
  {
    ImageNameChars(name);
    assert !IsBlank(name) by { assert !IsWhiteSpace(name[0]); }
    assert ':' !in name;
    NoSubstringWithoutPair(name, "://");
  }

  lemma ImageCharIsAscii(c: char)
    requires IsLowerAlnum(c) || IsNameSeparator(c) || IsWordChar(c) || c == '/'
    ensures c as int < 0x80
  {
  }

  /** A matching name and tag are ASCII, one UTF-16 code unit a character. */
  lemma TaggedImageLength(name: string, tag: string)
    requires IsImageName(name) && IsImageTag(tag)
    ensures Utf16Length(name + ":" + tag) == |name| + 1 + |tag|
  {
    ImageNameChars(name);
    forall k | 0 <= k < |name| ensures name[k] as int < 0x80 { ImageCharIsAscii(name[k]); }
    forall k | 0 <= k < |tag| ensures tag[k] as int < 0x80 {
      if k == 0 {
        assert IsWordChar(tag[0]);
      } else {
        assert IsWordChar(tag[k]) || tag[k] == '.' || tag[k] == '-';
      }
      ImageCharIsAscii(tag[k]);
    }
    AsciiUtf16Length(name);
    AsciiUtf16Length(tag);
    assert Utf16Length(":") == 1;
    Utf16LengthAppend(name, ":");
    Utf16LengthAppend(name + ":", tag);
  }

  /** A matching name and a matching tag joined by ':' are accepted. */
  lemma TaggedImageAccepted(name: string, tag: string)
    requires IsImageName(name) && IsImageTag(tag) && |name| + 1 + |tag| <= MaxImageLength
    ensures DockerImageVerdict(name + ":" + tag).Accept?
  {
    var image := name + ":" + tag;
    TaggedImageLength(name, tag);
    ImageNameChars(name);
    assert ':' !in name && ':' !in tag;
    assert !IsBlank(image) by { assert !IsWhiteSpace(image[0]); }
    forall k | 0 <= k < |image| - 1 && image[k] == ':' ensures image[k + 1] != '/' {
      assert k == |name|;
      assert image[k + 1] == tag[0];
    }
    NoSubstringWithoutPair(image, "://");
    UpToAfterConcat(name, ':', tag);
    assert Split(image, ':') == [name] + Split(tag, ':');
  }

  /** Because .NET's $ also matches before a final newline, such a name
      followed by a newline is accepted too. */
  lemma TrailingNewlineAccepted(name: string)
    requires IsImageName(name) && |name| < MaxImageLength
    ensures DockerImageVerdict(name + "\n").Accept?
  {
    var image := name + "\n";
    ImageNameChars(name);
    assert !IsBlank(image) by { assert !IsWhiteSpace(image[0]); }
    assert ':' !in image;
    NoSubstringWithoutPair(image, "://");
    assert image[..|image| - 1] == name;
  }

  /** ValidateDockerImage: the verdict, with a VALIDATION_FAILURE entry for
      type "DockerImage" logged when it rejects. */
  method ValidateDockerImage(image: string, log: SecurityLogger.SecurityLog) returns (v: Validation)
    modifies log`entries
    ensures v == ToValidation(DockerImageVerdict(image))
    ensures log.entries == old(log.entries) + RejectionLog(log, "DockerImage", image, DockerImageVerdict(image))
  {
    var verdict := DockerImageVerdict(image);
    if verdict.Reject? {
      log.LogValidationFailure("DockerImage", image, verdict.reason);
    }
    v := ToValidation(verdict);
  }

  // -----------------------------------------------------------------------
  // EscapeShellArgument
  // -----------------------------------------------------------------------

  /** What the shell reads for one quote in the escaped text. */
  const EscapedQuote: string := "'\\''"

  /** EscapeShellArgument: "" for an empty argument, otherwise the argument
      in single quotes with each ' written as '\''. */
  function EscapeShellArgument(argument: string): (r: string)
    ensures argument == [] ==> r == "\"\""
    ensures argument != [] ==> |r| >= 2 && r[0] == '\'' && r[|r| - 1] == '\''
  {
    if argument == [] then "\"\"" else "'" + Replace(argument, "'", EscapedQuote) + "'"
  }

  /** Undoing the replacement gives back the argument. */
  lemma {:induction false} UnescapeQuotes(argument: string)
    ensures Replace(Replace(argument, "'", EscapedQuote), EscapedQuote, "'") == argument
  {
    if argument != [] {
      var rest := Replace(argument[1..], "'", EscapedQuote);
      UnescapeQuotes(argument[1..]);
      if argument[0] == '\'' {
        assert Replace(argument, "'", EscapedQuote) == EscapedQuote + rest;
        assert (EscapedQuote + rest)[|EscapedQuote|..] == rest;
      } else {
        assert Replace(argument, "'", EscapedQuote) == [argument[0]] + rest;
        assert !(EscapedQuote <= [argument[0]] + rest);
        assert ([argument[0]] + rest)[1..] == rest;
      }
    }
  }

  datatype ShellMode = Unquoted | InSingleQuotes | InDoubleQuotes

  /** Characters a POSIX shell gives a meaning to outside quotes. */
  predicate IsShellSpecial(c: char)
  {
    c in {' ', '\t', '\n', '|', '&', ';', '<', '>', '(', ')', '$', '`', '\\', '"', '\'', '*', '?', '[', '#', '~'}
  }

  function Prepend(prefix: string, word: Option<string>): Option<string>
  {
    match word
    case None => None
    case Some(w) => Some(prefix + w)
  }

  /** The single word a POSIX shell reads from s when s is made of
      single-quoted runs, backslash escapes, double-quoted runs without
      expansions, and characters with no special meaning; None for any
      other text. */
  function ShellWord(s: string, mode: ShellMode): Option<string>
    decreases |s|
  {
    match mode
    case Unquoted =>
      if s == [] then Some([])
      else if s[0] == '\'' then ShellWord(s[1..], InSingleQuotes)
      else if s[0] == '"' then ShellWord(s[1..], InDoubleQuotes)
      else if s[0] == '\\' then
        if |s| < 2 then None
        else if s[1] == '\n' then ShellWord(s[2..], Unquoted)
        else Prepend([s[1]], ShellWord(s[2..], Unquoted))
      else if IsShellSpecial(s[0]) then None
      else Prepend([s[0]], ShellWord(s[1..], Unquoted))
    case InSingleQuotes =>
      if s == [] then None
      else if s[0] == '\'' then ShellWord(s[1..], Unquoted)
      else Prepend([s[0]], ShellWord(s[1..], InSingleQuotes))
    case InDoubleQuotes =>
      if s == [] then None
      else if s[0] == '"' then ShellWord(s[1..], Unquoted)
      else if s[0] in {'$', '`', '\\'} then None
      else Prepend([s[0]], ShellWord(s[1..], InDoubleQuotes))
  }

  /** Inside single quotes, the escaped quote closes the run, yields a
      quote and opens a new run. */
  lemma ShellReadsEscapedQuote(tail: string)
    ensures ShellWord(EscapedQuote + tail, InSingleQuotes) == Prepend("'", ShellWord(tail, InSingleQuotes))
  {
    var s := EscapedQuote + tail;
    var s1 := s[1..];
    assert s1 == "\\''" + tail;
    var s2 := s1[2..];
    assert s2 == "'" + tail;
    assert s2[1..] == tail;
    assert ShellWord(s2, Unquoted) == ShellWord(tail, InSingleQuotes);
    assert s1[0] == '\\' && s1[1] == '\'';
    assert ShellWord(s1, Unquoted) == Prepend([s1[1]], ShellWord(s2, Unquoted));
  }

  lemma PrependTwice(x: string, y: string, word: Option<string>)
    ensures Prepend(x, Prepend(y, word)) == Prepend(x + y, word)
  {
    match word
    case None =>
    case Some(w) => assert x + (y + w) == (x + y) + w;
  }

  lemma {:induction false} ShellReadsQuotedRun(a: string, rest: string)
    ensures ShellWord(Replace(a, "'", EscapedQuote) + rest, InSingleQuotes)
         == Prepend(a, ShellWord(rest, InSingleQuotes))
  {
    if a == [] {
      assert Replace(a, "'", EscapedQuote) + rest == rest;
      match ShellWord(rest, InSingleQuotes)
      case None =>
      case Some(w) => assert [] + w == w;
    } else {
      var tail := Replace(a[1..], "'", EscapedQuote) + rest;
      ShellReadsQuotedRun(a[1..], rest);
      ReplaceCharStep(a, '\'', EscapedQuote);
      if a[0] == '\'' {
        assert Replace(a, "'", EscapedQuote) + rest == EscapedQuote + tail;
        ShellReadsEscapedQuote(tail);
      } else {
        var s := [a[0]] + tail;
        assert Replace(a, "'", EscapedQuote) + rest == s;
        assert s[1..] == tail;
      }
      PrependTwice([a[0]], a[1..], ShellWord(rest, InSingleQuotes));
      assert [a[0]] + a[1..] == a;
    }
  }

  /** The shell reads the escaped text back as exactly the argument, as one
      word, whatever characters the argument holds. */
  lemma EscapeShellArgumentRoundTrip(argument: string)
    ensures ShellWord(EscapeShellArgument(argument), Unquoted) == Some(argument)
  {
    if argument == [] {
      assert ShellWord("\"\"", Unquoted) == ShellWord("\"", InDoubleQuotes);
    } else {
      var inner := Replace(argument, "'", EscapedQuote);
      var s := "'" + inner + "'";
      assert s[1..] == inner + "'";
      ShellReadsQuotedRun(argument, "'");
      assert ShellWord("'", InSingleQuotes) == Some([]);
      assert argument + [] == argument;
    }
  }

  // -----------------------------------------------------------------------
  // SanitizePathForWSL
  // -----------------------------------------------------------------------

  /** SanitizePathForWSL: an invalid path throws ArgumentException("Invalid
      path"); a valid one has every backslash doubled, then every double
      quote preceded by a backslash. */
  function SanitizePathForWSL(windowsPath: string, fullPath: FullPath): (r: Result<string, string>)
    ensures r.Failure? <==> !ValidatePath(windowsPath, fullPath).isValid
    ensures r.Failure? ==> r.error == "Invalid path"
    ensures r.Success? ==> UnescapeBackslashes(r.value) == windowsPath
    ensures r.Success? ==> |r.value| == |windowsPath| + Count(windowsPath, '\\') + Count(windowsPath, '"')
  {
    if !ValidatePath(windowsPath, fullPath).isValid then Failure("Invalid path")
    else
      SanitizedPathRoundTrip(windowsPath);
      SanitizedPathLength(windowsPath);
      Success(Replace(Replace(windowsPath, "\\", "\\\\"), "\"", "\\\""))
  }

  /** Reading backslash escapes: a backslash stands for the character after it. */
  function UnescapeBackslashes(s: string): string
    decreases |s|
  {
    if s == [] then []
    else if s[0] == '\\' && |s| >= 2 then [s[1]] + UnescapeBackslashes(s[2..])
    else [s[0]] + UnescapeBackslashes(s[1..])
  }

  /** What the two replacements make of one character. */
  function EscapedChar(c: char): string
  {
    if c == '\\' then "\\\\" else if c == '"' then "\\\"" else [c]
  }

  /** The two replacements work character by character. */
  lemma EscapeStep(p: string)
    requires p != []
    ensures Replace(Replace(p, "\\", "\\\\"), "\"", "\\\"")
         == EscapedChar(p[0]) + Replace(Replace(p[1..], "\\", "\\\\"), "\"", "\\\"")
  {
    var inner := Replace(p[1..], "\\", "\\\\");
    var c := p[0];
    var head := if c == '\\' then "\\\\" else [c];
    ReplaceCharStep(p, '\\', "\\\\");
    ReplaceCharAppend(head, inner, '"', "\\\"");
    if c == '\\' {
      ReplaceCharAbsent(head, '"', "\\\"");
    } else {
      ReplaceCharStep(head, '"', "\\\"");
      assert head[1..] == [];
    }
  }

  /** The escaping loses nothing: reading the escapes gives the path back. */
  lemma {:induction false} SanitizedPathRoundTrip(p: string)
    ensures UnescapeBackslashes(Replace(Replace(p, "\\", "\\\\"), "\"", "\\\"")) == p
  {
    if p != [] {
      var rest := Replace(Replace(p[1..], "\\", "\\\\"), "\"", "\\\"");
      EscapeStep(p);
      SanitizedPathRoundTrip(p[1..]);
      var e := EscapedChar(p[0]) + rest;
      if p[0] == '\\' || p[0] == '"' {
        assert e[0] == '\\' && e[1] == p[0] && e[2..] == rest;
      } else {
        assert e[0] == p[0] && e[1..] == rest;
      }
    }
  }

  /** Escaping adds one backslash per backslash and per double quote. */
  lemma {:induction false} SanitizedPathLength(p: string)
    ensures |Replace(Replace(p, "\\", "\\\\"), "\"", "\\\"")| == |p| + Count(p, '\\') + Count(p, '"')
  {
    if p != [] {
      EscapeStep(p);
      SanitizedPathLength(p[1..]);
    }
  }

  // -----------------------------------------------------------------------
  // ValidatePathWithinBase
  // -----------------------------------------------------------------------

  /** The cascade of ValidatePathWithinBase on the two full paths. */
  function PathWithinBaseVerdict(fullPath: FullPath, fullBase: FullPath): (r: Verdict)
    ensures r.Accept? <==> fullPath.Resolved? && fullBase.Resolved? && StartsWithIgnoreCase(fullPath.full, fullBase.full)
    ensures fullPath.Unresolvable? ==> r == Reject("", "Invalid path: " + fullPath.message)
    ensures fullPath.Resolved? && fullBase.Unresolvable? ==> r == Reject("", "Invalid path: " + fullBase.message)
  {
    match (fullPath, fullBase)
    case (Unresolvable(m), _) => Reject("", "Invalid path: " + m)
    case (_, Unresolvable(m)) => Reject("", "Invalid path: " + m)
    case (Resolved(p), Resolved(b)) =>
      if !StartsWithIgnoreCase(p, b) then
        Reject("traversal", "Path attempts to access location outside allowed directory")
      else Accept
  }

  /** The containment test is a bare prefix test: a sibling directory whose
      name extends the base passes, and case does not matter. */
  lemma PathWithinBaseExamples()
    ensures PathWithinBaseVerdict(Resolved("C:\\base2\\x"), Resolved("C:\\base")).Accept?
    ensures PathWithinBaseVerdict(Resolved("c:\\BASE\\x"), Resolved("C:\\base")).Accept?
    ensures PathWithinBaseVerdict(Resolved("C:\\other"), Resolved("C:\\base")).Reject?
  {
    assert ToUpper("C:\\base") == "C:\\BASE";
    assert ToUpper("C:\\base2\\x"[..7]) == "C:\\BASE";
    assert ToUpper("c:\\BASE\\x"[..7]) == "C:\\BASE";
    assert ToUpper("C:\\other"[..7]) == "C:\\OTHE";
  }

  /** ValidatePathWithinBase, given what Path.GetFullPath makes of the path
      and of the base: a PATH_TRAVERSAL_ATTEMPT entry is logged (with the
      paths as given) only when both resolve and the prefix test fails. */
  method ValidatePathWithinBase(path: string, baseDirectory: string, fullPath: FullPath, fullBase: FullPath,
                                log: SecurityLogger.SecurityLog) returns (v: Validation)
    modifies log`entries
    ensures v == ToValidation(PathWithinBaseVerdict(fullPath, fullBase))
    ensures log.entries == old(log.entries) +
      (if fullPath.Resolved? && fullBase.Resolved? && !StartsWithIgnoreCase(fullPath.full, fullBase.full)
       then log.Appended("PATH_TRAVERSAL_ATTEMPT", SecurityLogger.PathTraversalDetails(path, baseDirectory), false)
       else [])
  {
    var verdict := PathWithinBaseVerdict(fullPath, fullBase);
    if fullPath.Resolved? && fullBase.Resolved? && verdict.Reject? {
      log.LogPathTraversalAttempt(path, baseDirectory);
    }
    v := ToValidation(verdict);
  }

  // -----------------------------------------------------------------------
  // SanitizeFileName
  // -----------------------------------------------------------------------

  /** A device path on Windows: "\\.\" or "\\?\" (with either separator)
      or "\??\". */
  predicate IsDevicePath(p: string)
  {
    |p| >= 4
    && ((p[0] == '\\' && (p[1] == '\\' || p[1] == '?') && p[2] == '?' && p[3] == '\\')
        || (IsDirectorySeparator(p[0]) && IsDirectorySeparator(p[1]) && (p[2] == '.' || p[2] == '?')
            && IsDirectorySeparator(p[3])))
  }

  /** A device path to a share: "\\?\UNC\server\share". */
  predicate IsDeviceUnc(p: string)
  {
    |p| >= 8 && IsDevicePath(p) && IsDirectorySeparator(p[7]) && p[4] == 'U' && p[5] == 'N' && p[6] == 'C'
  }

  /** The scan past "server\share" from i: it crosses the first separator it
      meets and stops at the second, or at the end of the path. */
  function ShareEnd(p: string, i: nat, separators: nat): (j: nat)
    requires i <= |p| && separators >= 1
    ensures i <= j <= |p|
    decreases |p| - i
  {
    if i == |p| then i
    else if !IsDirectorySeparator(p[i]) then ShareEnd(p, i + 1, separators)
    else if separators > 1 then ShareEnd(p, i + 1, separators - 1)
    else i
  }

  /** The scan past a device name from i: up to the next separator. */
  function DeviceNameEnd(p: string, i: nat): (j: nat)
    requires i <= |p|
    ensures i <= j <= |p|
    decreases |p| - i
  {
    if i == |p| || IsDirectorySeparator(p[i]) then i else DeviceNameEnd(p, i + 1)
  }

  /** The length of the root of a Windows path, as Path.GetPathRoot finds
      it: a share ("\\server\share"), a device ("\\.\device\"), a leading
      separator, or a drive ("C:" or "C:\"); 0 for a relative path. */
  function RootLength(p: string): (n: nat)
    ensures n <= |p|
  {
    var device := IsDevicePath(p);
    var deviceUnc := device && IsDeviceUnc(p);
    if (!device || deviceUnc) && |p| > 0 && IsDirectorySeparator(p[0]) then
      if deviceUnc || (|p| > 1 && IsDirectorySeparator(p[1])) then
        ShareEnd(p, if deviceUnc then 8 else 2, 2)
      else 1
    else if device then
      var i := DeviceNameEnd(p, 4);
      if i < |p| && i > 4 && IsDirectorySeparator(p[i]) then i + 1 else i
    else if |p| >= 2 && p[1] == ':' && IsAsciiLetter(p[0]) then
      if |p| > 2 && IsDirectorySeparator(p[2]) then 3 else 2
    else 0
  }

  /** The text after the last separator. */
  function AfterLastSeparator(path: string): (r: string)
    ensures forall k :: 0 <= k < |r| ==> !IsDirectorySeparator(r[k])
    ensures |r| <= |path| && r == path[|path| - |r|..]
    ensures |r| < |path| ==> IsDirectorySeparator(path[|path| - |r| - 1])
  {
    if path == [] then []
    else if IsDirectorySeparator(path[|path| - 1]) then []
    else AfterLastSeparator(path[..|path| - 1]) + [path[|path| - 1]]
  }

  /** Path.GetFileName on Windows: the text after the last separator, but
      never reaching into the root of the path. */
  function FileNamePart(path: string): (r: string)
    ensures forall k :: 0 <= k < |r| ==> !IsDirectorySeparator(r[k])
    ensures |r| <= |path| && r == path[|path| - |r|..]
    ensures |path| - |r| >= RootLength(path)
    ensures |path| - |r| > RootLength(path) ==> IsDirectorySeparator(path[|path| - |r| - 1])
  {
    var tail := AfterLastSeparator(path);
    var root := RootLength(path);
    if |path| - |tail| < root then path[root..] else tail
  }

  /** Without a root, the file name is the text after the last separator. */
  lemma RelativeFileName(path: string)
    requires RootLength(path) == 0
    ensures FileNamePart(path) == AfterLastSeparator(path)
  {
  }

  /** A drive-relative path: "C:foo" names the file "foo" on drive C. */
  lemma DriveRelativeFileName()
    ensures FileNamePart("C:foo") == "foo"
  {
    var p := "C:foo";
    assert !IsDevicePath(p);
    assert RootLength(p) == 2;
    assert forall k :: 0 <= k < |p| ==> !IsDirectorySeparator(p[k]);
    assert AfterLastSeparator(p) == p;
  }

  /** The share scan runs through characters that are not separators. */
  lemma {:induction false} ShareEndSkips(p: string, i: nat, j: nat, separators: nat)
    requires i <= j <= |p| && separators >= 1
    requires forall k :: i <= k < j ==> !IsDirectorySeparator(p[k])
    ensures ShareEnd(p, i, separators) == ShareEnd(p, j, separators)
    decreases j - i
  {
    if i < j {
      ShareEndSkips(p, i + 1, j, separators);
    }
  }

  /** A share's root names no file: "\\server\share" gives "". */
  lemma ShareRootHasNoFileName()
    ensures FileNamePart("\\\\server\\share") == ""
  {
    var p := "\\\\server\\share";
    assert |p| == 14 && p[8] == '\\';
    assert !IsDevicePath(p) by { assert p[2] == 's'; }
    ShareEndSkips(p, 2, 8, 2);
    ShareEndSkips(p, 9, 14, 1);
    assert RootLength(p) == |p|;
  }

  /** The foreach loop over the invalid characters: each is removed in turn. */
  function RemoveEach(s: string, chars: seq<char>): string
    decreases |chars|
  {
    if chars == [] then s else RemoveEach(Replace(s, [chars[0]], ""), chars[1..])
  }

  /** The name SanitizeFileName builds before its final blank check. */
  function SanitizedName(fileName: string, invalidFileNameChars: seq<char>): string
  {
    var n := FileNamePart(fileName);
    var n1 := Replace(n, "..", "");
    var n2 := Replace(n1, "/", "");
    var n3 := Replace(n2, "\\", "");
    RemoveEach(n3, invalidFileNameChars)
  }

  lemma {:induction false} RemoveEachFromNothing(chars: seq<char>)
    ensures RemoveEach("", chars) == ""
    decreases |chars|
  {
    if chars != [] {
      RemoveEachFromNothing(chars[1..]);
    }
  }

  /** A share's root is not blank, but its file name is empty: SanitizeFileName
      refuses it as invalid after sanitization, whatever the platform forbids. */
  lemma ShareRootFailsSanitizing(invalidFileNameChars: seq<char>)
    ensures !IsBlank("\\\\server\\share")
    ensures SanitizedName("\\\\server\\share", invalidFileNameChars) == ""
  {
    var p := "\\\\server\\share";
    assert !IsWhiteSpace(p[2]);
    ShareRootHasNoFileName();
    RemoveEachFromNothing(invalidFileNameChars);
  }

  /** SanitizeFileName: blank input and a blank result throw ArgumentException;
      a returned name holds no separator and none of the invalid characters. */
  method SanitizeFileName(fileName: string, invalidFileNameChars: seq<char>) returns (r: Result<string, string>)
    ensures IsBlank(fileName) ==> r == Failure("Filename cannot be empty")
    ensures !IsBlank(fileName) && IsBlank(SanitizedName(fileName, invalidFileNameChars)) ==>
      r == Failure("Filename is invalid after sanitization")
    ensures !IsBlank(fileName) && !IsBlank(SanitizedName(fileName, invalidFileNameChars)) ==>
      r == Success(SanitizedName(fileName, invalidFileNameChars))
    ensures r.Success? ==> '/' !in r.value && '\\' !in r.value
    ensures r.Success? ==> forall c :: c in invalidFileNameChars ==> c !in r.value
  {
    if IsBlank(fileName) {
      return Failure("Filename cannot be empty");
    }
    var name := FileNamePart(fileName);
    name := Replace(name, "..", "");
    name := Replace(name, "/", "");
    name := Replace(name, "\\", "");
    ghost var start := name;
    for i := 0 to |invalidFileNameChars|
      invariant RemoveEach(name, invalidFileNameChars[i..]) == RemoveEach(start, invalidFileNameChars)
      invariant '/' !in name && '\\' !in name
      invariant forall j :: 0 <= j < i ==> invalidFileNameChars[j] !in name
    {
      assert invalidFileNameChars[i..][1..] == invalidFileNameChars[i + 1..];
      name := Replace(name, [invalidFileNameChars[i]], "");
    }
    assert invalidFileNameChars[|invalidFileNameChars|..] == [];
    if IsBlank(name) {
      return Failure("Filename is invalid after sanitization");
    }
    r := Success(name);
  }

  /** The Windows list holds '|' but not '.'. */
  lemma WindowsInvalidChars()
    ensures '|' in WindowsInvalidFileNameChars && '.' !in WindowsInvalidFileNameChars
  {
    assert WindowsInvalidFileNameChars[35] == '|';
    forall j | 0 <= j < |WindowsInvalidFileNameChars|
      ensures WindowsInvalidFileNameChars[j] != '.'
    {
      if j < 32 { assert WindowsInvalidFileNameChars[j] as int < 32; }
    }
  }

  /** ".|." is its own file name and holds no "..". */
  lemma DotBarDotFileName()
    ensures FileNamePart(".|.") == ".|."
  {
    var s := ".|.";
    assert RootLength(s) == 0;
    assert forall k :: 0 <= k < |s| ==> !IsDirectorySeparator(s[k]);
    assert AfterLastSeparator(s) == s;
  }

  lemma DotBarDotHasNoDotDot()
    ensures Replace(".|.", "..", "") == ".|."
  {
    var s := ".|.";
    assert !(".." <= s) by { assert s[1] == '|' && ".."[1] == '.'; }
    assert s[1..] == "|.";
    assert !(".." <= "|.") by { assert "|."[0] == '|'; }
    assert "|."[1..] == ".";
    assert !(".." <= ".") && "."[1..] == [];
  }

  /** ".|." goes through the first four steps of SanitizedName unchanged. */
  lemma DotBarDotKeptBySeparatorSteps()
    ensures var s := ".|.";
      var n1 := Replace(FileNamePart(s), "..", "");
      n1 == s && Replace(Replace(n1, "/", ""), "\\", "") == s
  {
    DotBarDotFileName();
    DotBarDotHasNoDotDot();
    ReplaceCharAbsent(".|.", '/', "");
    ReplaceCharAbsent(".|.", '\\', "");
  }

  /** Removing ".." happens before the other removals, so ".." can come
      back: whenever '|' is invalid and '.' is not, as on Windows, ".|."
      becomes "..". */
  lemma SanitizedNameMayHoldDotDot(invalidFileNameChars: seq<char>)
    requires '|' in invalidFileNameChars && '.' !in invalidFileNameChars
    ensures SanitizedName(".|.", invalidFileNameChars) == ".."
  {
    DotBarDotKeptBySeparatorSteps();
    RemoveEachOnDots(".|.", invalidFileNameChars);
  }

  lemma {:induction false} RemoveEachOnDots(s: string, chars: seq<char>)
    requires s == ".." || s == ".|."
    requires '.' !in chars
    ensures RemoveEach(s, chars) == (if s == ".." || '|' in chars then ".." else ".|.")
    decreases |chars|
  {
    if chars != [] {
      var c := chars[0];
      var t := Replace(s, [c], "");
      assert t == (if s == ".|." && c == '|' then ".." else s) by {
        ReplaceCharStep(s, c, "");
        ReplaceCharStep(s[1..], c, "");
        assert s[1..][1..] == s[2..];
        if s == ".." {
          assert s[2..] == [];
        } else {
          assert s[2..] == ".";
          ReplaceCharStep(s[2..], c, "");
          assert s[2..][1..] == [];
        }
      }
      assert '|' in chars <==> c == '|' || '|' in chars[1..];
      RemoveEachOnDots(t, chars[1..]);
    }
  }
}
