# easyWSL library core in Dafny

This project models the logic of the easyWSL library. easyWSL turns a Docker
Hub image into a WSL distribution. The model covers:

- **DockerDownloader**:
  - it reads an image reference;
  - it scans the registry manifest for layer digests and sizes;
  - it refuses images over its resource limits;
  - it downloads each layer with a fresh token, recording the layer's path;
  - it builds the `tar` arguments that combine the layers.
- **InputValidator**: the check cascades for distribution names, user names,
  paths and image references, and the transformers that quote or clean
  values before they reach a shell, a WSL path or the file system.
- **SecurityLogger**: the format of a security-log line, the sanitising of
  logged values, and the log as a sequence of lines that grows.
- **SecurePasswordHelper**: the `user:password` line for `chpasswd`, the
  temporary file name, and the secure deletion. Secure deletion overwrites a
  file with random bytes through a 4096-byte buffer, then deletes it.
- **Helpers**: the lower-case hex rendering of a SHA-256 digest, and the
  recursive directory size.

Each source file is one module: `docker_downloader.dfy`,
`input_validator.dfy`, `security_logger.dfy`, `secure_password_helper.dfy`
and `helpers.dfy`. `text.dfy` (module `Text`) models the .NET string
operations they use:
- `Split`, `Replace`, `IndexOf` and `Path.Combine`;
- `string.IsNullOrWhiteSpace`;
- `ToUpperInvariant` on ASCII;
- `String.Length` in UTF-16 code units;
- `Path.GetFileName`, with the Windows path root;
- decimal rendering of numbers.

Things the code gets from outside become parameters:
- HTTP replies are oracles: `auth(k)` answers the k-th token request, and
  `download(k)` says whether layer k's download completes;
- `Path.GetFullPath` results, the invalid file-name characters and the GUID
  text are passed in;
- the clock and the random-number generator are fields of the log and of
  the random source.

Stateful parts are classes whose methods are proved against specification
functions:
- the downloader's `layersPaths` list;
- the security log;
- the file system and the random source of the secure deletion.

Loops keep their source form, proved with invariants: the overwrite loop,
the hex loop, the directory-size loops, the per-layer loop, the size check
loop, the `tar` argument loop and the invalid-character loop.

Where the behaviour is surprising, a lemma states the source's behaviour as
written:
- `"a/b/c:t"` keeps its `:` in the repository and gets the tag `latest`;
- `"name:"` gives an empty tag;
- the size list keeps the config blob's size;
- the path containment test is a bare prefix test;
- `SanitizeFileName` can return `..`;
- an unsanitised command preview can split a log line.

## Model

| member | source | states |
|---|---|---|
| Text.Split | easyWslLib/InputValidator.cs:108 | `String.Split(char)`: at least one piece, the first is the text before the first separator, and no piece holds the separator |
| Text.SplitJoin | easyWslLib/InputValidator.cs:108 | joining the pieces with the separator gives the input back, so splitting loses nothing |
| Text.SplitCount | easyWslLib/InputValidator.cs:108-109 | there is one more piece than separators, so `parts.Length > 2` means more than one `:` |
| Text.Utf16Length | easyWslLib/InputValidator.cs:24 | `String.Length`: one UTF-16 code unit a character, two for a character beyond U+FFFF; exactly the character count when there is none |
| Text.Utf16LengthAppend | easyWslLib/InputValidator.cs:100 | the length of two texts joined is the sum of their lengths |
| Text.AsciiUtf16Length | easyWslLib/InputValidator.cs:100 | ASCII text has as many code units as characters |
| Text.ToUpper | easyWslLib/InputValidator.cs:41 | `ToUpperInvariant` keeps the length and maps each character to its upper case |
| Text.Replace | easyWslLib/InputValidator.cs:143 | `String.Replace` adds no character foreign to the input and the replacement; a single character replaced by text without it disappears |
| Text.ReplaceCharMap | easyWslLib/SecurityLogger.cs:117 | replacing one character by another keeps the length and maps each position |
| Text.NatToStringRoundTrip | easyWslLib/DockerDownloader.cs:191 | the decimal text of a layer number reads back as that number |
| Text.NatToStringInjective | easyWslLib/DockerDownloader.cs:191 | distinct layer numbers give distinct texts |
| SecurityLogger.Timestamp | easyWslLib/SecurityLogger.cs:40 | `yyyy-MM-dd HH:mm:ss`: 19 characters, separators at fixed places, no newline |
| SecurityLogger.EntryIsOneLine | easyWslLib/SecurityLogger.cs:41-42 | an entry ends in a newline and holds no other one exactly when its timestamp, event type and details hold none |
| SecurityLogger.ReplaceLogControls | easyWslLib/SecurityLogger.cs:117 | the three replacements keep the length and turn each newline, carriage return and tab into a space |
| SecurityLogger.SanitizeForLog | easyWslLib/SecurityLogger.cs:107-120 | `[empty]` for an empty value; otherwise the first 100 characters plus `...` when longer, at most 103 characters, no newline, carriage return or tab, other characters kept in place |
| SecurityLogger.SanitizeKeepsCleanValues | easyWslLib/SecurityLogger.cs:107-120 | a non-empty value of at most 100 characters without control characters is logged unchanged |
| SecurityLogger.CommandPreview | easyWslLib/SecurityLogger.cs:73 | the command itself up to 50 characters, otherwise its first 50 characters and `...` |
| SecurityLogger.ValidationFailureDetailsOneLine | easyWslLib/SecurityLogger.cs:62 | the details hold no newline when the input type and the reason hold none, whatever the value |
| SecurityLogger.ValidationFailureIsOneLine | easyWslLib/SecurityLogger.cs:58-65 | a validation failure is a FAILURE entry on one line, whatever value failed |
| SecurityLogger.PathTraversalDetailsOneLine | easyWslLib/SecurityLogger.cs:99 | both paths are sanitised, so the details never hold a newline |
| SecurityLogger.PathTraversalIsOneLine | easyWslLib/SecurityLogger.cs:95-102 | a path-traversal attempt is a FAILURE entry on one line, whatever the paths |
| SecurityLogger.CommandExecutionMayBreakLine | easyWslLib/SecurityLogger.cs:70-78 | the preview is not sanitised: the command `id\nx` splits its SUCCESS entry over two lines |
| SecurityLogger.SecurityLog.constructor | easyWslLib/SecurityLogger.cs:11-31 | a log starts with no entries |
| SecurityLogger.SecurityLog.Appended | easyWslLib/SecurityLogger.cs:38-52 | an event adds at most one newline-terminated line, and one exactly when the file can be appended to |
| SecurityLogger.SecurityLog.LogSecurityEvent | easyWslLib/SecurityLogger.cs:36-53 | the log grows by the event's line, or stays as it is when appending fails; nothing is thrown |
| SecurityLogger.SecurityLog.LogValidationFailure | easyWslLib/SecurityLogger.cs:58-65 | appends a `VALIDATION_FAILURE` FAILURE line with the sanitised value |
| SecurityLogger.SecurityLog.LogCommandExecution | easyWslLib/SecurityLogger.cs:70-78 | appends a `COMMAND_EXECUTION` SUCCESS line with the distribution and the preview |
| SecurityLogger.SecurityLog.LogFileOperation | easyWslLib/SecurityLogger.cs:83-90 | appends a `FILE_OPERATION` line with the sanitised path and the given status |
| SecurityLogger.SecurityLog.LogPathTraversalAttempt | easyWslLib/SecurityLogger.cs:95-102 | appends a `PATH_TRAVERSAL_ATTEMPT` FAILURE line with both paths sanitised |
| InputValidator.DistroNameVerdict | easyWslLib/InputValidator.cs:16-47 | accepted iff not blank, at most 255 UTF-16 code units, no invalid character, upper case not a reserved name; each rejection has the reason and message of the first failing check |
| InputValidator.AlphanumericNameIsClean | easyWslLib/InputValidator.cs:10-14 | a name of letters and digits holds none of the extra invalid characters |
| InputValidator.ReservedNamesIgnoreCase | easyWslLib/InputValidator.cs:37-44 | `con` is refused as a reserved name |
| InputValidator.ReservedNamesAreWholeNames | easyWslLib/InputValidator.cs:37-47 | `com10` is accepted: only whole names are reserved |
| InputValidator.SupplementaryCharactersCountTwice | easyWslLib/InputValidator.cs:24-28 | a name of 200 emoji is 400 code units long and refused as too long |
| InputValidator.ValidateDistroName | easyWslLib/InputValidator.cs:16-48 | returns the verdict's pair and logs a `DistroName` validation failure exactly when it rejects |
| InputValidator.ValidateUserName | easyWslLib/InputValidator.cs:50-66 | valid iff not blank, at most 32 UTF-16 code units, starting with a letter, only letters, digits, `_` and `-`; otherwise the message of the first failing check, each of the four stated |
| InputValidator.ValidatePath | easyWslLib/InputValidator.cs:68-82 | valid iff not blank and the full path resolves; the messages of both failures |
| InputValidator.DockerImageAccepted | easyWslLib/InputValidator.cs:84-134 | accepted iff not blank, no `://`, at most 256 UTF-16 code units, at most one `:`, a matching name before it and, if present, a matching tag after it |
| InputValidator.ColonParts | easyWslLib/InputValidator.cs:108-109 | at most two pieces iff at most one `:`; the pieces are the text before and after it |
| InputValidator.SplitAtOnlyColon | easyWslLib/InputValidator.cs:108 | with a single `:`, `Split` gives the name and the tag |
| InputValidator.DockerImageRejectionOrder | easyWslLib/InputValidator.cs:86-113 | rejections come in the order blank, URL, length, colons, name, tag, each with its reason and message |
| InputValidator.RegistryPortRejected | easyWslLib/InputValidator.cs:108-113 | `registry:5000/app:tag` is refused as having multiple colons |
| InputValidator.ImageNameChars | easyWslLib/InputValidator.cs:116 | a matching name starts with a lower-case letter or digit and holds only those, `.`, `_`, `-` and `/` |
| InputValidator.UntaggedImageAccepted | easyWslLib/InputValidator.cs:115-134 | a matching name of at most 256 characters is accepted without a tag |
| InputValidator.TaggedImageLength | easyWslLib/InputValidator.cs:100 | a matching name and tag joined by `:` are as many code units long as characters |
| InputValidator.TaggedImageAccepted | easyWslLib/InputValidator.cs:115-134 | a matching name and a matching tag joined by `:` are accepted |
| InputValidator.TrailingNewlineAccepted | easyWslLib/InputValidator.cs:116-117 | because `$` also matches before a final newline, a matching name followed by a newline is accepted |
| InputValidator.ValidateDockerImage | easyWslLib/InputValidator.cs:84-135 | returns the verdict's pair and logs a `DockerImage` validation failure exactly when it rejects |
| InputValidator.EscapeShellArgument | easyWslLib/InputValidator.cs:137-144 | `""` for an empty argument, otherwise text opening and closing with a single quote |
| InputValidator.UnescapeQuotes | easyWslLib/InputValidator.cs:143 | replacing `'\''` back by `'` recovers the argument |
| InputValidator.ShellReadsEscapedQuote | easyWslLib/InputValidator.cs:143 | inside single quotes, `'\''` yields one quote and reopens the quotes |
| InputValidator.ShellReadsQuotedRun | easyWslLib/InputValidator.cs:143 | a POSIX shell reads the escaped text, quoted, back as the text |
| InputValidator.EscapeShellArgumentRoundTrip | easyWslLib/InputValidator.cs:137-144 | a POSIX shell reads the escaped argument as exactly one word equal to the argument, whatever it holds |
| InputValidator.SanitizePathForWSL | easyWslLib/InputValidator.cs:146-155 | fails with `Invalid path` exactly when `ValidatePath` refuses the path; otherwise reading the backslash escapes gives the path back, and the result is longer by the number of backslashes and double quotes |
| InputValidator.EscapeStep | easyWslLib/InputValidator.cs:154 | the two replacements escape one character at a time |
| InputValidator.SanitizedPathRoundTrip | easyWslLib/InputValidator.cs:154 | reading the backslash escapes gives the path back |
| InputValidator.SanitizedPathLength | easyWslLib/InputValidator.cs:154 | the result is longer by the number of backslashes and double quotes |
| InputValidator.PathWithinBaseVerdict | easyWslLib/InputValidator.cs:160-180 | valid iff both paths resolve and the full path starts with the full base, ignoring case; an unresolvable path gives its message |
| InputValidator.PathWithinBaseExamples | easyWslLib/InputValidator.cs:168 | `C:\base2\x` passes for `C:\base`, case is ignored, `C:\other` fails |
| InputValidator.ValidatePathWithinBase | easyWslLib/InputValidator.cs:160-180 | returns the verdict's pair and logs a path-traversal attempt only when both paths resolve and the prefix test fails |
| InputValidator.FileNamePart | easyWslLib/InputValidator.cs:191 | `Path.GetFileName` on Windows: a suffix of the path without separators that starts after the path's root and right after a separator when past the root |
| InputValidator.RelativeFileName | easyWslLib/InputValidator.cs:191 | for a path without a root, the text after the last separator |
| InputValidator.DriveRelativeFileName | easyWslLib/InputValidator.cs:191 | `C:foo` names the file `foo` |
| InputValidator.ShareRootHasNoFileName | easyWslLib/InputValidator.cs:191 | `\\server\share` names no file |
| InputValidator.ShareRootFailsSanitizing | easyWslLib/InputValidator.cs:187-205 | `\\server\share` is not blank but sanitises to the empty name, so it is refused as invalid after sanitization |
| InputValidator.SanitizeFileName | easyWslLib/InputValidator.cs:185-208 | fails on blank input and on a blank result; otherwise returns the sanitised name, which holds no `/`, no `\` and no invalid character |
| InputValidator.WindowsInvalidChars | easyWslLib/InputValidator.cs:199 | the Windows invalid characters include `\|` and not `.` |
| InputValidator.DotBarDotFileName | easyWslLib/InputValidator.cs:191 | `.\|.` is its own file name |
| InputValidator.DotBarDotHasNoDotDot | easyWslLib/InputValidator.cs:194 | `.\|.` has no `..` to remove |
| InputValidator.DotBarDotKeptBySeparatorSteps | easyWslLib/InputValidator.cs:191-196 | `.\|.` passes the first four steps unchanged |
| InputValidator.RemoveEachOnDots | easyWslLib/InputValidator.cs:199-202 | removing characters other than `.` from `..` or `.\|.` leaves `..`, or `.\|.` when `\|` is not removed |
| InputValidator.SanitizedNameMayHoldDotDot | easyWslLib/InputValidator.cs:191-202 | `..` is removed before the invalid characters, so `.\|.` becomes `..` on Windows |
| DockerDownloader.ParseReference | easyWslLib/DockerDownloader.cs:73-102 | refused iff no `/` and no `:`; with `/`, the tag comes from the second piece or is `latest`; without, `library/` + name and the tag after the first `:` |
| DockerDownloader.OfficialImageParsed | easyWslLib/DockerDownloader.cs:92-101 | `name:tag` gives `library/name` and `tag` |
| DockerDownloader.NamespacedImageParsed | easyWslLib/DockerDownloader.cs:73-85 | `namespace/name:tag` gives `namespace/name` and `tag` |
| DockerDownloader.NamespacedUntaggedParsed | easyWslLib/DockerDownloader.cs:86-90 | `namespace/name` gets the tag `latest` |
| DockerDownloader.DeepReferenceKeepsColon | easyWslLib/DockerDownloader.cs:81-90 | in `a/b/c:t` the tag is `latest` and the repository keeps `:t` |
| DockerDownloader.EmptyTagAccepted | easyWslLib/DockerDownloader.cs:94-101 | `name:` gives an empty tag and is not refused |
| DockerDownloader.DigestMatchesFrom | easyWslLib/DockerDownloader.cs:127 | the positions found hold `sha256:` and 64 word characters, increase and do not overlap |
| DockerDownloader.DigestScanStep | easyWslLib/DockerDownloader.cs:127 | a match is taken and the search resumes after it; otherwise it moves on by one |
| DockerDownloader.DigestScanComplete | easyWslLib/DockerDownloader.cs:127 | every match position lies inside a match found |
| DockerDownloader.Digests | easyWslLib/DockerDownloader.cs:127-128 | one digest text per match, in text order |
| DockerDownloader.FirstDigestIsLeftmost | easyWslLib/DockerDownloader.cs:127-129 | no match starts before the first one reported, so the removed one is the config's |
| DockerDownloader.DigitRun | easyWslLib/DockerDownloader.cs:131 | the greedy `\d*`: the longest run of digits at a position |
| DockerDownloader.NoSizeKeyInside | easyWslLib/DockerDownloader.cs:131 | no size match starts inside another |
| DockerDownloader.SizeMatchesFrom | easyWslLib/DockerDownloader.cs:131 | the size matches are exactly the key positions, in increasing order |
| DockerDownloader.SizeValues | easyWslLib/DockerDownloader.cs:132 | one value per match, in order, when every digit string converts; `SizeUnreadable` otherwise |
| DockerDownloader.ReadManifest | easyWslLib/DockerDownloader.cs:127-132 | no digest fails like `RemoveAt(0)`; the layers are the digests without the first; the sizes are the values of every size match, the config's included; with digests, it fails exactly when some size does not convert |
| DockerDownloader.SumBoundsEach | easyWslLib/DockerDownloader.cs:146 | the total is at least each size |
| DockerDownloader.FirstOversized | easyWslLib/DockerDownloader.cs:160-173 | the first index over 5 GiB, or none when no size exceeds it |
| DockerDownloader.TooManyLayersMessage | easyWslLib/DockerDownloader.cs:137-141 | `Too many layers: <n> (max 100)` |
| DockerDownloader.ImageTooLargeMessage | easyWslLib/DockerDownloader.cs:149-155 | `Image too large: <GB> GB (max 20 GB)` |
| DockerDownloader.LayerTooLargeMessage | easyWslLib/DockerDownloader.cs:164-170 | `Layer <i+1> too large: <GB> GB (max 5 GB)` |
| DockerDownloader.HugeLayerBlocksImage | easyWslLib/DockerDownloader.cs:146-173 | a single size over 20 GiB makes the total check block the image (or the sum overflow) before the per-layer check |
| DockerDownloader.GuardAdmits | easyWslLib/DockerDownloader.cs:135-173 | admitted iff at most 100 layers, a total of at most 20 GiB and no size over 5 GiB: the limits are inclusive |
| DockerDownloader.GuardOrder | easyWslLib/DockerDownloader.cs:135-157 | the layer count is checked first, then the checked sum's overflow, then the total |
| DockerDownloader.GuardNamesFirstOversized | easyWslLib/DockerDownloader.cs:159-173 | within the total, the first size over 5 GiB is the one blocked |
| DockerDownloader.CheckResourceLimits | easyWslLib/DockerDownloader.cs:135-173 | returns the guard's outcome and logs one `DOCKER_DOWNLOAD_BLOCKED` failure with its message exactly when it blocks |
| DockerDownloader.TokenOf | easyWslLib/DockerDownloader.cs:105-110 | a token is usable iff the response was read, is not null and holds a non-empty token; otherwise `DockerException`, or the request's own failure |
| DockerDownloader.LayerPaths | easyWslLib/DockerDownloader.cs:191-194 | the k-th recorded path is `tmpDirectory\layer<k>.tar.bz` |
| DockerDownloader.LayerPathsDistinct | easyWslLib/DockerDownloader.cs:191-194 | distinct layers get distinct paths |
| DockerDownloader.LayerLoopStopsAtFirstFailure | easyWslLib/DockerDownloader.cs:178-203 | the loop completes iff every layer's token and download go through; otherwise it stops at the first that does not, with its reason |
| DockerDownloader.LayerStepRefused | easyWslLib/DockerDownloader.cs:183-189 | a refused token ends the loop after its token request |
| DockerDownloader.LayerStepBroken | easyWslLib/DockerDownloader.cs:191-202 | a broken download ends the loop after the token request and the blob request |
| DockerDownloader.LayerStepDone | easyWslLib/DockerDownloader.cs:178-203 | a layer that goes through issues two requests and the loop moves on |
| DockerDownloader.LayerRequestsWhenAllOk | easyWslLib/DockerDownloader.cs:178-203 | when every layer goes through, a token request then its blob's download per digest, in manifest order |
| DockerDownloader.LayerBlobsCarryTokens | easyWslLib/DockerDownloader.cs:183-202 | every blob download of the loop targets the repository with a non-empty token |
| DockerDownloader.DownloadSucceedsIff | easyWslLib/DockerDownloader.cs:73-203 | success iff the reference parses, the first token is usable, the manifest is read, the guard admits and every layer goes through; then one path per digest after the config |
| DockerDownloader.RequestsOnSuccess | easyWslLib/DockerDownloader.cs:104-203 | a successful download requests the token, the manifest, then each layer's token and blob, in manifest order |
| DockerDownloader.PrepareRequestsHaveNoBlob | easyWslLib/DockerDownloader.cs:104-125 | before the guard, at most two requests and no blob download |
| DockerDownloader.NoBlobWithoutAdmission | easyWslLib/DockerDownloader.cs:135-203 | unless the guard admits a read manifest, no blob is downloaded and no path recorded |
| DockerDownloader.BlobsCarryTokens | easyWslLib/DockerDownloader.cs:183-202 | every blob download targets the parsed repository with a non-empty token |
| DockerDownloader.EarlyStops | easyWslLib/DockerDownloader.cs:104-173 | a refused first token stops after one request; a blocked image, or an empty manifest body, fails with `DockerException` after the manifest request |
| DockerDownloader.TarInputsAppend | easyWslLib/DockerDownloader.cs:216-220 | the tar inputs of two lists joined are the two inputs joined: each path keeps its place |
| DockerDownloader.TarInputsOfLayers | easyWslLib/DockerDownloader.cs:194 | the inputs of layers 1 to n end with ` @` and layer n's path |
| DockerDownloader.Downloader.constructor | easyWslLib/DockerDownloader.cs:23-32 | a downloader starts with no recorded paths |
| DockerDownloader.Downloader.FetchLayer | easyWslLib/DockerDownloader.cs:181-202 | one turn: a token request; with a usable token, the path is recorded and the blob requested |
| DockerDownloader.Downloader.FetchLayers | easyWslLib/DockerDownloader.cs:178-203 | the loop's result and requests are the specification's, and the recorded paths grow by the paths of the layers started |
| DockerDownloader.Downloader.FetchManifest | easyWslLib/DockerDownloader.cs:73-132 | the parsed reference, token and manifest, and the requests before the guard, as the specification gives them |
| DockerDownloader.Downloader.DownloadImage | easyWslLib/DockerDownloader.cs:53-204 | the result, the requests, the paths appended to `layersPaths` and the log entries are those of `ExpectedRun` |
| DockerDownloader.Downloader.CombineLayers | easyWslLib/DockerDownloader.cs:206-225 | one path is copied to `install.tar.bz`; any other number gives ` cf <install path>` then ` @<path>` per path, in order |
| SecurePasswordHelper.PasswordLineRoundTrip | easyWslLib/SecurePasswordHelper.cs:28 | `chpasswd` reads back the user name and password written, when the name has no `:` and neither has a newline |
| SecurePasswordHelper.PasswordNewlineTruncates | easyWslLib/SecurePasswordHelper.cs:28 | a newline in the password ends the line: only the part before it is set |
| SecurePasswordHelper.TempFileNameInjective | easyWslLib/SecurePasswordHelper.cs:23 | distinct GUIDs give distinct `wsl_pass_<guid>.tmp` names |
| SecurePasswordHelper.Utf8Ascii | easyWslLib/SecurePasswordHelper.cs:28 | ASCII text is written one byte per character |
| SecurePasswordHelper.ChunkSizesCover | easyWslLib/SecurePasswordHelper.cs:82-89 | the writes sum to the length, each is 1 to 4096 bytes, all but the last fill the buffer, and there are ⌈length/4096⌉ of them |
| SecurePasswordHelper.RandomBytes | easyWslLib/SecurePasswordHelper.cs:86 | the next `count` bytes of the random source |
| SecurePasswordHelper.OverwriteStep | easyWslLib/SecurePasswordHelper.cs:86-88 | writing the next chunk extends the random prefix of the file |
| SecurePasswordHelper.FileSystem.WriteAllText | easyWslLib/SecurePasswordHelper.cs:28 | creates or replaces the file unless it cannot be written |
| SecurePasswordHelper.FileSystem.Write | easyWslLib/SecurePasswordHelper.cs:87 | writes the buffer's first `count` bytes at the position and records the write |
| SecurePasswordHelper.FileSystem.Delete | easyWslLib/SecurePasswordHelper.cs:96 | records the call and removes the file unless it cannot be deleted |
| SecurePasswordHelper.RandomSource.GetBytes | easyWslLib/SecurePasswordHelper.cs:86 | fills the buffer's first `count` bytes with the next random bytes and leaves the rest |
| SecurePasswordHelper.OverwriteWithRandom | easyWslLib/SecurePasswordHelper.cs:77-93 | the file becomes `length` fresh random bytes, written in the chunks of `ChunkSizesCover` |
| SecurePasswordHelper.SecureDelete | easyWslLib/SecurePasswordHelper.cs:64-103 | a missing file is left alone; a writable non-empty file is overwritten, an empty one is not; delete follows, retried once after a failure |
| SecurePasswordHelper.CreateSecurePasswordFile | easyWslLib/SecurePasswordHelper.cs:20-58 | on success the temp file holds exactly the UTF-8 password line, and nothing is overwritten, drawn or deleted; on failure a deletable file is gone and every other file is kept with its contents; a failed write draws no random bytes, writes nothing and only deletes a file already at the path (twice when it is empty and cannot be deleted); when setting the access rules fails, the file was overwritten with fresh random bytes in `ChunkSizes` chunks and deleted once, or twice when it cannot be deleted, in which case it holds only those bytes |
| Helpers.HexDigit | easyWslLib/Helpers.cs:74 | a nibble is rendered as a lower-case hex digit |
| Helpers.ByteHex | easyWslLib/Helpers.cs:74 | `x2`: two lower-case hex digits per byte |
| Helpers.Hex | easyWslLib/Helpers.cs:71-76 | two characters per byte, all in `0-9a-f` |
| Helpers.HexLayout | easyWslLib/Helpers.cs:72-75 | characters 2i and 2i+1 are the high and low nibble of byte i |
| Helpers.ByteHexRoundTrip | easyWslLib/Helpers.cs:74 | the two digits of a byte read back as the byte |
| Helpers.UnhexHex | easyWslLib/Helpers.cs:71-76 | decoding the rendering gives the bytes back |
| Helpers.HexInjective | easyWslLib/Helpers.cs:71-76 | distinct digests render differently |
| Helpers.ComputeSha256Hash | easyWslLib/Helpers.cs:65-78 | the result is the rendering of the digest: 64 lower-case hex digits |
| Helpers.DirSize | easyWslLib/Helpers.cs:132-148 | the files' lengths plus each subdirectory's size |
| Helpers.SizeIsTotalOfAllFiles | easyWslLib/Helpers.cs:132-148 | a directory's size is the total length of every file in its tree |
| Helpers.SubdirectoriesSizeIsTotal | easyWslLib/Helpers.cs:142-146 | the subdirectories' sizes add up to the total length of the files below them |
| Helpers.TotalNonNegative | easyWslLib/Helpers.cs:136-140 | non-negative lengths have a non-negative total |
| Helpers.SizeNonNegative | easyWslLib/Helpers.cs:132-148 | with no negative file length in the tree, the size is not negative |
| Helpers.EmptyDirectorySize | easyWslLib/Helpers.cs:134-147 | an empty directory has size 0 |

## Left out

- HTTP and JSON: `GetRequest`, `GetRequestWithHeader`, `DownloadFileAsync` and the JSON reading of the token are oracles. Header contents other than the token are not modelled.
- Processes: `ExecuteProcessAsynch`, `StartWSLDistro`, `ExecuteCommandInWSLAsync` and `ExecuteProcessAndGetOutputAsynch` start foreign programs; only the `tar` argument string is modelled.
- File-system side effects of the downloader: the temporary directory's clean-up (DockerDownloader.cs:55-64), `Directory.CreateDirectory`, `CopyFileAsync` and `Trace.WriteLine` are external effects with no bearing on the modelled results.
- The logger's file path, directory creation and lock: the log is a sequence of lines, and appending either succeeds or is swallowed.
- SecurityLogger.SecurityLog.LogSecurityEvent: `DateTime.UtcNow` is one reading held by the log, so every entry of one log carries the same timestamp; the time passing between events is not modelled.
- SecurityLogger.Timestamp: the invariant culture is assumed. Under a culture with another time separator (`.` in Finnish) or another default calendar (the Thai Buddhist year), `ToString("yyyy-MM-dd HH:mm:ss")` writes other text; it still holds no newline.
- `RandomNumberGenerator`: a sequence of bytes, a field of the random source.
- `Guid.NewGuid()`: its text is a parameter.
- Windows access control: whether setting the rules throws is a parameter.
- SHA-256: a parameter that returns 32 bytes.
- `Path.GetFullPath` and `Path.GetInvalidFileNameChars`: their results are parameters; the Windows list is given as a constant for the lemmas about it.
- `Stream.Flush` and disposing the stream: no modelled effect.
- Asynchrony: `async`/`await` runs as sequential code.
- The command-line program, which only wires these calls together.
- DockerDownloader.ParseReference: `String.Split` on a string holding `/` always gives two pieces, so the `imageArray.Length < 2` branch (lines 76-79) cannot happen and has no counterpart.
- DockerDownloader.DownloadSucceedsIff: `catch (WebException)` around the manifest request cannot fire, because the helper wraps HTTP failures in a plain exception; a failed manifest request is `RequestFailed`.
- DockerDownloader.SizeValues: `Convert.ToInt64` is modelled as failing on an empty or out-of-range digit string, not with its distinct exception types.
- DockerDownloader.Guard: the checked `Sum` is modelled by comparing the exact total with the largest `long`; the sizes are non-negative, so a partial sum overflows exactly when the total does.
- Helpers.DirSize: file lengths are unbounded integers; the `long` accumulator cannot wrap for any real directory tree, so wrap-around is not modelled.
- Helpers.Hex: `ToString("x2")` is modelled for bytes only, as in the source.
- InputValidator.ValidateUserName: `char.IsLetter` and `char.IsLetterOrDigit` are modelled on ASCII letters and digits; other Unicode letters count as neither.
- Text.ToUpper: `ToUpperInvariant` is modelled on ASCII; other characters are kept as they are. The reserved names are ASCII, and the only non-ASCII characters whose invariant upper case is ASCII are `ı` (U+0131) and `ſ` (U+017F), which become `I` and `S`, letters no reserved name holds. So InputValidator.DistroNameVerdict does not depend on the difference.
- InputValidator.PathWithinBaseVerdict: `OrdinalIgnoreCase` is modelled as ASCII upper-casing. Paths that differ only in the case of a non-ASCII letter (`C:\Users\jörg\x` under `C:\USERS\JÖRG`) are accepted by the source and refused, with a traversal logged, by the model.
- InputValidator.FileNamePart: the root rules are those of `Path.GetFileName` in .NET (Core) on Windows; the older .NET Framework rules are not modelled.
- InputValidator.DockerImageAccepted: the name and tag patterns are predicates over characters, not a regular-expression engine.
- InputValidator.EscapeShellArgument: `null` arguments are not modelled (Dafny strings are never null); the empty string takes the same branch.
- SecurityLogger.SanitizeForLog: `null` values are not modelled; the empty value takes the same branch.
- SecurityLogger.SanitizeForLog: the 100 limit and the cut count characters, not UTF-16 code units. A value holding characters beyond U+FFFF is cut later than `Substring(0, 100)` cuts it, and a cut through a surrogate pair, which leaves half a character, cannot be represented.
- SecurityLogger.CommandPreview: the 50 limit and the cut count characters, not UTF-16 code units, as for SanitizeForLog.
- DockerDownloader.DigestAt: `\w` is modelled as ASCII letters, digits and `_`; .NET's class also holds other Unicode letters and digits, so a digest with such characters is found by the source and not by the model.
- DockerDownloader.DigitRun: `\d` is modelled as ASCII digits. .NET's class holds every Unicode decimal digit, so for `"size": 5٣` the source's match takes `5٣` and `Convert.ToInt64` throws, where the model reads the size 5.
- SecurePasswordHelper.SecureDelete: an exception thrown mid-overwrite by the stream is not modelled. Only the read-only case, where `File.OpenWrite` throws, and delete failures are.
- SecurePasswordHelper.Utf8Char: `File.WriteAllText` writes UTF-8 without a byte-order mark; that is what is modelled.
