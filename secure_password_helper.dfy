/** The temporary password file handed to chpasswd
    (easyWslLib/SecurePasswordHelper.cs): its name, its one line, and the
    secure deletion that overwrites it in chunks of random bytes before
    deleting it. */
module SecurePasswordHelper {
  import opened Text

  // -----------------------------------------------------------------------
  // The password line and the file name
  // -----------------------------------------------------------------------

  /** Line 28: the line chpasswd reads, "user:password" and a newline. */
  function PasswordLine(userName: string, password: string): string
  {
    userName + ":" + password + "\n"
  }

  /** How chpasswd reads a line: the user name is the text before the first
      ':', the password the rest up to the first newline. */
  function ChpasswdEntry(text: string): Option<(string, string)>
  {
    var line := UpTo(text, '\n');
    if ':' in line then Some((UpTo(line, ':'), After(line, ':'))) else None
  }

  /** chpasswd reads back the user name and password written, when the name
      holds no ':' and neither holds a newline. */
  lemma PasswordLineRoundTrip(userName: string, password: string)
    requires ':' !in userName && '\n' !in userName && '\n' !in password
    ensures ChpasswdEntry(PasswordLine(userName, password)) == Some((userName, password))
  {
    var body := userName + ":" + password;
    assert PasswordLine(userName, password) == body + ['\n'] + [];
    UpToAfterConcat(body, '\n', []);
    assert body == userName + [':'] + password;
    UpToAfterConcat(userName, ':', password);
  }

  /** A newline in the password ends the line early: chpasswd sets only the
      part before it. */
  lemma PasswordNewlineTruncates(userName: string, first: string, second: string)
    requires ':' !in userName && '\n' !in userName && '\n' !in first
    ensures ChpasswdEntry(PasswordLine(userName, first + "\n" + second)) == Some((userName, first))
  {
    var body := userName + ":" + first;
    assert PasswordLine(userName, first + "\n" + second) == body + ['\n'] + (second + "\n");
    UpToAfterConcat(body, '\n', second + "\n");
    assert body == userName + [':'] + first;
    UpToAfterConcat(userName, ':', first);
  }

  /** Line 23: the name of the temporary file, from a fresh GUID's text. */
  function TempFileName(guid: string): string
  {
    "wsl_pass_" + guid + ".tmp"
  }

  /** The path of the temporary file in the temporary directory. */
  function TempFilePath(tempDirectory: string, guid: string): string
  {
    PathCombine(tempDirectory, TempFileName(guid))
  }

  /** Different GUIDs give different file names. */
  lemma TempFileNameInjective(a: string, b: string)
    requires TempFileName(a) == TempFileName(b)
    ensures a == b
  {
    var x := TempFileName(a);
    assert a == x[9..|x| - 4];
    assert b == x[9..|x| - 4];
  }

  // -----------------------------------------------------------------------
  // UTF-8, the encoding File.WriteAllText uses
  // -----------------------------------------------------------------------

  function Utf8Char(c: char): (bytes: seq<byte>)
    ensures 1 <= |bytes| <= 4
  {
    var n := c as int;
    if n < 0x80 then [n as byte]
    else if n < 0x800 then [(0xC0 + n / 64) as byte, (0x80 + n % 64) as byte]
    else if n < 0x10000 then [(0xE0 + n / 4096) as byte, (0x80 + n / 64 % 64) as byte, (0x80 + n % 64) as byte]
    else [(0xF0 + n / 262144) as byte, (0x80 + n / 4096 % 64) as byte, (0x80 + n / 64 % 64) as byte,
          (0x80 + n % 64) as byte]
  }

  function Utf8(s: string): seq<byte>
  {
    if s == [] then [] else Utf8Char(s[0]) + Utf8(s[1..])
  }

  predicate IsAscii(s: string)
  {
    forall k :: 0 <= k < |s| ==> s[k] as int < 0x80
  }

  /** ASCII text is written one byte per character, each its code. */
  lemma {:induction false} Utf8Ascii(s: string)
    requires IsAscii(s)
    ensures |Utf8(s)| == |s|
    ensures forall k :: 0 <= k < |s| ==> Utf8(s)[k] as int == s[k] as int
  {
    if s != [] {
      Utf8Ascii(s[1..]);
      assert Utf8(s) == [s[0] as int as byte] + Utf8(s[1..]);
    }
  }

  // -----------------------------------------------------------------------
  // The overwrite chunks
  // -----------------------------------------------------------------------

  /** The size of the buffer the overwrite goes through. */
  const BufferSize: nat := 4096

  function Min(a: nat, b: nat): nat { if a < b then a else b }

  /** The sizes of the writes that overwrite `remaining` bytes: as much of
      the buffer as is left to write, each time. */
  function ChunkSizes(remaining: nat): seq<nat>
    decreases remaining
  {
    if remaining == 0 then []
    else [Min(BufferSize, remaining)] + ChunkSizes(remaining - Min(BufferSize, remaining))
  }

  function SumOf(s: seq<nat>): nat
  {
    if s == [] then 0 else s[0] + SumOf(s[1..])
  }

  /** The writes cover the file exactly, each takes between 1 and 4096
      bytes, every one but the last fills the buffer, and there are as many
      as the length needs buffers. */
  lemma {:induction false} ChunkSizesCover(length: nat)
    ensures SumOf(ChunkSizes(length)) == length
    ensures forall i :: 0 <= i < |ChunkSizes(length)| ==> 1 <= ChunkSizes(length)[i] <= BufferSize
    ensures forall i :: 0 <= i < |ChunkSizes(length)| - 1 ==> ChunkSizes(length)[i] == BufferSize
    ensures |ChunkSizes(length)| == (length + BufferSize - 1) / BufferSize
    decreases length
  {
    if length > 0 {
      var head := Min(BufferSize, length);
      var rest := ChunkSizes(length - head);
      ChunkSizesCover(length - head);
      assert ChunkSizes(length) == [head] + rest;
      assert forall i :: 1 <= i < |ChunkSizes(length)| ==> ChunkSizes(length)[i] == rest[i - 1];
      if length > BufferSize {
        assert rest != [] by { assert SumOf(rest) == length - head; }
      }
    }
  }

  /** The bytes the random source gives from its `start`-th one on. */
  function RandomBytes(source: nat -> byte, start: nat, count: nat): (r: seq<byte>)
    ensures |r| == count && forall k :: 0 <= k < count ==> r[k] == source(start + k)
  {
    seq(count, k requires 0 <= k < count => source(start + k))
  }

  /** content with data written over it from position on, extended when the
      data runs past the end. */
  function Overwrite(content: seq<byte>, position: nat, data: seq<byte>): (r: seq<byte>)
    requires position <= |content|
  {
    content[..position] + data + (if position + |data| < |content| then content[position + |data|..] else [])
  }

  /** Writing the next random chunk after the random prefix extends it. */
  lemma OverwriteStep(source: nat -> byte, start: nat, original: seq<byte>, written: nat, count: nat)
    requires written + count <= |original|
    ensures Overwrite(RandomBytes(source, start, written) + original[written..], written,
                      RandomBytes(source, start + written, count))
         == RandomBytes(source, start, written + count) + original[written + count..]
  {
    var content := RandomBytes(source, start, written) + original[written..];
    var r := Overwrite(content, written, RandomBytes(source, start + written, count));
    var expected := RandomBytes(source, start, written + count) + original[written + count..];
    assert |r| == |expected|;
    forall k | 0 <= k < |r|
      ensures r[k] == expected[k]
    {
      if k < written {
        assert r[k] == content[k];
      } else if k < written + count {
        assert r[k] == source(start + written + (k - written));
      } else {
        assert r[k] == content[k] == original[k];
      }
    }
  }

  // -----------------------------------------------------------------------
  // The file system and the random source
  // -----------------------------------------------------------------------

  /** The files, the files that cannot be written or deleted, and the writes
      and deletions issued so far. */
  class FileSystem {
    var files: map<string, seq<byte>>
    /** Files File.OpenWrite and File.WriteAllText refuse. */
    const readOnly: set<string>
    /** Files File.Delete refuses (in use by another process, say). */
    const undeletable: set<string>
    /** The sizes of the writes issued, oldest first. */
    var writes: seq<nat>
    /** The paths File.Delete was called on, oldest first. */
    var deletions: seq<string>

    constructor (files: map<string, seq<byte>>, readOnly: set<string>, undeletable: set<string>)
      ensures this.files == files && this.readOnly == readOnly && this.undeletable == undeletable
      ensures writes == [] && deletions == []
    {
      this.files := files;
      this.readOnly := readOnly;
      this.undeletable := undeletable;
      writes := [];
      deletions := [];
    }

    /** File.WriteAllText: creates or replaces the file unless it is
        read-only. */
    method WriteAllText(path: string, content: seq<byte>) returns (ok: bool)
      modifies this`files
      ensures ok <==> path !in readOnly
      ensures files == if ok then old(files)[path := content] else old(files)
    {
      ok := path !in readOnly;
      if ok {
        files := files[path := content];
      }
    }

    /** Stream.Write on a stream opened with File.OpenWrite. */
    method Write(path: string, position: nat, buffer: array<byte>, count: nat)
      requires path in files && position <= |files[path]| && count <= buffer.Length
      modifies this`files, this`writes
      ensures files == old(files)[path := Overwrite(old(files)[path], position, buffer[..count])]
      ensures writes == old(writes) + [count]
    {
      files := files[path := Overwrite(files[path], position, buffer[..count])];
      writes := writes + [count];
    }

    /** File.Delete: the call is recorded; it fails on an undeletable file. */
    method Delete(path: string) returns (ok: bool)
      modifies this`files, this`deletions
      ensures ok <==> path !in undeletable
      ensures files == if ok then old(files) - {path} else old(files)
      ensures deletions == old(deletions) + [path]
    {
      deletions := deletions + [path];
      ok := path !in undeletable;
      if ok {
        files := files - {path};
      }
    }
  }

  /** RandomNumberGenerator: an endless sequence of bytes, of which the
      first `drawn` are used up. */
  class RandomSource {
    const source: nat -> byte
    var drawn: nat

    constructor (source: nat -> byte)
      ensures this.source == source && drawn == 0
    {
      this.source := source;
      drawn := 0;
    }

    /** GetBytes(buffer, 0, count): the next count bytes into the front of
        the buffer. */
    method GetBytes(buffer: array<byte>, count: nat)
      requires count <= buffer.Length
      modifies this`drawn, buffer
      ensures drawn == old(drawn) + count
      ensures buffer[..count] == RandomBytes(source, old(drawn), count)
      ensures buffer[count..] == old(buffer[count..])
    {
      forall j | 0 <= j < count {
        buffer[j] := source(drawn + j);
      }
      drawn := drawn + count;
    }
  }

  // -----------------------------------------------------------------------
  // SecureDelete and CreateSecurePasswordFile
  // -----------------------------------------------------------------------

  /** Whether SecureDelete overwrites the file: it is not empty and can be
      opened for writing. */
  predicate Overwrites(fs: FileSystem, path: string)
    reads fs
  {
    path in fs.files && |fs.files[path]| > 0 && path !in fs.readOnly
  }

  /** Lines 77-93: the loop that overwrites the whole file with random
      bytes, at most a buffer's worth per write. */
  method OverwriteWithRandom(fs: FileSystem, rng: RandomSource, path: string)
    requires path in fs.files
    modifies fs`files, fs`writes, rng`drawn
    ensures var length := |old(fs.files)[path]|;
      && fs.files == old(fs.files)[path := RandomBytes(rng.source, old(rng.drawn), length)]
      && fs.writes == old(fs.writes) + ChunkSizes(length)
      && rng.drawn == old(rng.drawn) + length
  {
    var length := |fs.files[path]|;
    var buffer := new byte[BufferSize];
    ghost var original := fs.files[path];
    ghost var start := rng.drawn;
    ghost var emitted: seq<nat> := [];
    var written := 0;
    assert RandomBytes(rng.source, start, 0) + original[0..] == original;
    assert fs.files == old(fs.files)[path := original];
    while written < length
      invariant written <= length
      invariant path in fs.files
      invariant fs.files == old(fs.files)[path := RandomBytes(rng.source, start, written) + original[written..]]
      invariant rng.drawn == start + written
      invariant fs.writes == old(fs.writes) + emitted
      invariant emitted + ChunkSizes(length - written) == ChunkSizes(length)
      decreases length - written
    {
      var toWrite := Min(buffer.Length, length - written);
      rng.GetBytes(buffer, toWrite);
      fs.Write(path, written, buffer, toWrite);
      OverwriteStep(rng.source, start, original, written, toWrite);
      AppendAssociative(emitted, [toWrite], ChunkSizes(length - written - toWrite));
      emitted := emitted + [toWrite];
      written := written + toWrite;
    }
    assert RandomBytes(rng.source, start, length) + original[length..] == RandomBytes(rng.source, start, length);
  }

  /** Lines 64-103: a missing file is left alone. Otherwise a non-empty file
      that can be opened is overwritten with random bytes, chunk by chunk
      through a 4096-byte buffer, then deleted; when the overwrite or the
      delete throws, the delete is tried once more and any failure is
      swallowed. */
  method SecureDelete(fs: FileSystem, rng: RandomSource, path: string)
    modifies fs`files, fs`writes, fs`deletions, rng`drawn
    ensures path !in old(fs.files) ==>
      fs.files == old(fs.files) && fs.writes == old(fs.writes) && fs.deletions == old(fs.deletions)
      && rng.drawn == old(rng.drawn)
    ensures path in old(fs.files) ==>
      var length := |old(fs.files)[path]|;
      var overwrite := old(Overwrites(fs, path));
      && fs.writes == old(fs.writes) + (if overwrite then ChunkSizes(length) else [])
      && rng.drawn == old(rng.drawn) + (if overwrite then length else 0)
      && fs.deletions == old(fs.deletions)
         + (if path in fs.undeletable && (overwrite || length == 0) then [path, path] else [path])
      && fs.files == if path !in fs.undeletable then old(fs.files) - {path}
                     else old(fs.files)[path := if overwrite then RandomBytes(rng.source, old(rng.drawn), length)
                                                else old(fs.files)[path]]
  {
    if path !in fs.files {
      return;
    }
    if |fs.files[path]| > 0 {
      if path in fs.readOnly {
        // File.OpenWrite throws: the catch block deletes.
        var _ := fs.Delete(path);
        return;
      }
      OverwriteWithRandom(fs, rng, path);
    }
    var deleted := fs.Delete(path);
    if !deleted {
      // File.Delete throws: the catch block tries once more.
      var _ := fs.Delete(path);
    }
  }

  /** Why CreateSecurePasswordFile throws. */
  datatype CreateError = WriteFailed | AccessControlFailed

  /** Lines 20-58: the line is written to wsl_pass_<guid>.tmp in the
      temporary directory and its access rules are set; when either step
      throws, a file left at that path is securely deleted and the exception
      is passed on. Whether setting the access rules succeeds is a
      parameter. */
  method CreateSecurePasswordFile(fs: FileSystem, rng: RandomSource, tempDirectory: string, guid: string,
                                  userName: string, password: string, accessControlFails: bool)
    returns (r: Result<string, CreateError>)
    modifies fs`files, fs`writes, fs`deletions, rng`drawn
    ensures var path := TempFilePath(tempDirectory, guid);
      && (r.Success? <==> path !in fs.readOnly && !accessControlFails)
      && (r.Success? ==> r.value == path && fs.files == old(fs.files)[path := Utf8(PasswordLine(userName, password))])
      && (r.Failure? && path !in fs.undeletable ==> path !in fs.files)
      && (r.Failure? ==> forall other :: other != path ==> (other in fs.files <==> other in old(fs.files)))
    ensures var path := TempFilePath(tempDirectory, guid);
      var n := |Utf8(PasswordLine(userName, password))|;
      r == Failure(AccessControlFailed) ==>
        && fs.writes == old(fs.writes) + ChunkSizes(n)
        && rng.drawn == old(rng.drawn) + n
        && (path in fs.undeletable ==> path in fs.files && fs.files[path] == RandomBytes(rng.source, old(rng.drawn), n))
    ensures var path := TempFilePath(tempDirectory, guid);
      && (r.Failure? ==> fs.files - {path} == old(fs.files) - {path})
      && (r == Failure(WriteFailed) ==> fs.writes == old(fs.writes) && rng.drawn == old(rng.drawn))
      && (r == Failure(WriteFailed) ==>
            fs.deletions == old(fs.deletions)
                            + (if path !in old(fs.files) then []
                               else if path in fs.undeletable && |old(fs.files)[path]| == 0 then [path, path]
                               else [path]))
      && (r.Success? ==> fs.writes == old(fs.writes) && rng.drawn == old(rng.drawn) && fs.deletions == old(fs.deletions))
      && (r == Failure(AccessControlFailed) ==>
            fs.deletions == old(fs.deletions) + (if path in fs.undeletable then [path, path] else [path]))
  {
    var tempPath := TempFilePath(tempDirectory, guid);
    var written := fs.WriteAllText(tempPath, Utf8(PasswordLine(userName, password)));
    if !written {
      if tempPath in fs.files {
        SecureDelete(fs, rng, tempPath);
      }
      return Failure(WriteFailed);
    }
    if accessControlFails {
      SecureDelete(fs, rng, tempPath);
      return Failure(AccessControlFailed);
    }
    return Success(tempPath);
  }
}
