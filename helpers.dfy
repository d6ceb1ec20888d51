/** Two helpers of easyWslLib/Helpers.cs: the lower-case hex rendering of a
    SHA-256 digest in ComputeSha256Hash, and the recursive DirSize. */
module Helpers {
  import opened Text

  // -----------------------------------------------------------------------
  // ComputeSha256Hash
  // -----------------------------------------------------------------------

  const HexDigits: string := "0123456789abcdef"

  predicate IsLowerHexDigit(c: char) { '0' <= c <= '9' || 'a' <= c <= 'f' }

  /** Text made of whole pairs of lower-case hex digits. */
  predicate IsHexText(s: string)
  {
    |s| % 2 == 0 && forall k :: 0 <= k < |s| ==> IsLowerHexDigit(s[k])
  }

  function HexDigit(d: nat): (c: char)
    requires d < 16
    ensures IsLowerHexDigit(c)
  {
    HexDigits[d]
  }

  /** byte.ToString("x2"): the high nibble, then the low one. */
  function ByteHex(b: byte): (pair: string)
    ensures |pair| == 2 && IsLowerHexDigit(pair[0]) && IsLowerHexDigit(pair[1])
  {
    [HexDigit(b as int / 16), HexDigit(b as int % 16)]
  }

  /** The bytes rendered one after the other. */
  function Hex(bytes: seq<byte>): (h: string)
    ensures |h| == 2 * |bytes| && IsHexText(h)
  {
    if bytes == [] then "" else Hex(bytes[..|bytes| - 1]) + ByteHex(bytes[|bytes| - 1])
  }

  /** Characters 2i and 2i + 1 give the high and the low nibble of byte i. */
  lemma {:induction false} HexLayout(bytes: seq<byte>)
    ensures forall i :: 0 <= i < |bytes| ==>
      Hex(bytes)[2 * i] == HexDigit(bytes[i] as int / 16) && Hex(bytes)[2 * i + 1] == HexDigit(bytes[i] as int % 16)
  {
    if bytes != [] {
      var front := bytes[..|bytes| - 1];
      var h := Hex(bytes);
      assert h == Hex(front) + ByteHex(bytes[|bytes| - 1]);
      HexLayout(front);
      forall i | 0 <= i < |bytes|
        ensures h[2 * i] == HexDigit(bytes[i] as int / 16) && h[2 * i + 1] == HexDigit(bytes[i] as int % 16)
      {
        if i < |front| {
          assert bytes[i] == front[i];
        }
      }
    }
  }

  /** The value of a lower-case hex digit. */
  function HexValue(c: char): (d: nat)
    requires IsLowerHexDigit(c)
    ensures d < 16
  {
    if c <= '9' then c as int - '0' as int else c as int - 'a' as int + 10
  }

  lemma HexValueOfDigit(d: nat)
    requires d < 16
    ensures HexValue(HexDigit(d)) == d
  {
    assert HexDigits == ['0', '1', '2', '3', '4', '5', '6', '7', '8', '9', 'a', 'b', 'c', 'd', 'e', 'f'];
  }

  /** The byte two hex digits stand for. */
  function PairValue(high: char, low: char): byte
    requires IsLowerHexDigit(high) && IsLowerHexDigit(low)
  {
    (HexValue(high) * 16 + HexValue(low)) as byte
  }

  /** Reading hex text back into bytes, two digits per byte. */
  function Unhex(s: string): seq<byte>
    requires IsHexText(s)
  {
    if s == [] then []
    else Unhex(s[..|s| - 2]) + [PairValue(s[|s| - 2], s[|s| - 1])]
  }

  /** The two digits of one byte read back as that byte. */
  lemma ByteHexRoundTrip(b: byte)
    ensures PairValue(ByteHex(b)[0], ByteHex(b)[1]) == b
  {
    HexValueOfDigit(b as int / 16);
    HexValueOfDigit(b as int % 16);
  }

  /** Decoding text that ends in two more digits. */
  lemma UnhexAppend(s: string, pair: string)
    requires IsHexText(s)
    requires |pair| == 2 && IsLowerHexDigit(pair[0]) && IsLowerHexDigit(pair[1])
    ensures Unhex(s + pair) == Unhex(s) + [PairValue(pair[0], pair[1])]
  {
    var t := s + pair;
    assert t[..|t| - 2] == s;
  }

  /** The rendering is decodable, hence injective. */
  lemma {:induction false} UnhexHex(bytes: seq<byte>)
    ensures Unhex(Hex(bytes)) == bytes
  {
    if bytes != [] {
      var front := bytes[..|bytes| - 1];
      var b := bytes[|bytes| - 1];
      var pair := ByteHex(b);
      calc {
        Unhex(Hex(bytes));
        Unhex(Hex(front) + pair);
        { UnhexAppend(Hex(front), pair); }
        Unhex(Hex(front)) + [PairValue(pair[0], pair[1])];
        { ByteHexRoundTrip(b); }
        Unhex(Hex(front)) + [b];
        { UnhexHex(front); }
        front + [b];
        bytes;
      }
    }
  }

  lemma HexInjective(a: seq<byte>, b: seq<byte>)
    requires Hex(a) == Hex(b)
    ensures a == b
  {
    UnhexHex(a);
    UnhexHex(b);
  }

  /** What SHA256.ComputeHash returns: 32 bytes. */
  type Digest = s: seq<byte> | |s| == 32 witness seq(32, _ => 0 as byte)

  /** Lines 67-78: hash the data, then append each byte of the digest as
      two lower-case hex digits. SHA-256 itself is a parameter. */
  method ComputeSha256Hash(rawData: seq<byte>, sha256: seq<byte> -> Digest) returns (hash: string)
    ensures hash == Hex(sha256(rawData))
    ensures |hash| == 64 && forall k :: 0 <= k < 64 ==> IsLowerHexDigit(hash[k])
  {
    var bytes := sha256(rawData);
    var builder := "";
    for i := 0 to |bytes|
      invariant builder == Hex(bytes[..i])
    {
      assert bytes[..i + 1][..i] == bytes[..i];
      builder := builder + ByteHex(bytes[i]);
    }
    assert bytes[..|bytes|] == bytes;
    hash := builder;
  }

  // -----------------------------------------------------------------------
  // DirSize
  // -----------------------------------------------------------------------

  /** A directory: the lengths of its files and its subdirectories, in the
      order GetFiles and GetDirectories list them. */
  datatype Directory = Directory(fileLengths: seq<int>, subdirectories: seq<Directory>)

  function Total(lengths: seq<int>): int
  {
    if lengths == [] then 0 else Total(lengths[..|lengths| - 1]) + lengths[|lengths| - 1]
  }

  /** The size of a directory: its files' lengths, then each subdirectory's
      size, added up. */
  function Size(d: Directory): int
    decreases d, 1
  {
    Total(d.fileLengths) + SubdirectoriesSize(d.subdirectories)
  }

  function SubdirectoriesSize(ds: seq<Directory>): int
    decreases ds, 0
  {
    if ds == [] then 0 else SubdirectoriesSize(ds[..|ds| - 1]) + Size(ds[|ds| - 1])
  }

  /** Lines 132-148: add up the files' lengths, then the subdirectories'
      sizes, recursively. */
  method DirSize(d: Directory) returns (size: int)
    ensures size == Size(d)
    decreases d
  {
    size := 0;
    var fis := d.fileLengths;
    for i := 0 to |fis|
      invariant size == Total(fis[..i])
    {
      assert fis[..i + 1][..i] == fis[..i];
      size := size + fis[i];
    }
    assert fis[..|fis|] == fis;
    var dis := d.subdirectories;
    for i := 0 to |dis|
      invariant size == Total(fis) + SubdirectoriesSize(dis[..i])
    {
      assert dis[..i + 1][..i] == dis[..i];
      assert dis[i] in dis;
      var sub := DirSize(dis[i]);
      size := size + sub;
    }
    assert dis[..|dis|] == dis;
  }

  /** Every file length in the tree, the directory's own first, then each
      subdirectory's in turn. */
  function AllFiles(d: Directory): seq<int>
    decreases d, 1
  {
    d.fileLengths + AllFilesBelow(d.subdirectories)
  }

  function AllFilesBelow(ds: seq<Directory>): seq<int>
    decreases ds, 0
  {
    if ds == [] then [] else AllFilesBelow(ds[..|ds| - 1]) + AllFiles(ds[|ds| - 1])
  }

  lemma {:induction false} TotalAppend(a: seq<int>, b: seq<int>)
    ensures Total(a + b) == Total(a) + Total(b)
    decreases |b|
  {
    if b == [] {
      assert a + b == a;
    } else {
      assert (a + b)[..|a + b| - 1] == a + b[..|b| - 1];
      assert (a + b)[|a + b| - 1] == b[|b| - 1];
      TotalAppend(a, b[..|b| - 1]);
    }
  }

  /** The size of a directory is the total length of every file in its
      tree. */
  lemma {:induction false} SizeIsTotalOfAllFiles(d: Directory)
    ensures Size(d) == Total(AllFiles(d))
    decreases d, 1
  {
    SubdirectoriesSizeIsTotal(d.subdirectories);
    TotalAppend(d.fileLengths, AllFilesBelow(d.subdirectories));
  }

  lemma {:induction false} SubdirectoriesSizeIsTotal(ds: seq<Directory>)
    ensures SubdirectoriesSize(ds) == Total(AllFilesBelow(ds))
    decreases ds, 0
  {
    if ds != [] {
      SubdirectoriesSizeIsTotal(ds[..|ds| - 1]);
      SizeIsTotalOfAllFiles(ds[|ds| - 1]);
      TotalAppend(AllFilesBelow(ds[..|ds| - 1]), AllFiles(ds[|ds| - 1]));
    }
  }

  lemma {:induction false} TotalNonNegative(lengths: seq<int>)
    requires forall k :: 0 <= k < |lengths| ==> lengths[k] >= 0
    ensures Total(lengths) >= 0
    decreases |lengths|
  {
    if lengths != [] {
      TotalNonNegative(lengths[..|lengths| - 1]);
    }
  }

  /** With no negative file length anywhere in the tree, the size is not
      negative; a directory with nothing in it has size 0. */
  lemma SizeNonNegative(d: Directory)
    requires forall k :: 0 <= k < |AllFiles(d)| ==> AllFiles(d)[k] >= 0
    ensures Size(d) >= 0
  {
    SizeIsTotalOfAllFiles(d);
    TotalNonNegative(AllFiles(d));
  }

  lemma EmptyDirectorySize()
    ensures Size(Directory([], [])) == 0
  {
  }
}
