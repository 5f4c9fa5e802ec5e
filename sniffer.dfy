/**
 * Content-type sniffing of a downloaded artifact: `detect_file_extension`
 * (file_download_helper.py:6-33). The classification looks only at the
 * leading bytes of the blob; it never sees a file name.
 */
module Sniffer {

  type byte = bv8

  /** The labels the sniffer can produce, one per extension string. */
  datatype Extension = Docx | Xlsx | Pptx | Zip | Pdf | Doc | Bin

  /** The extension string, including its dot, that the source returns. */
  function Suffix(e: Extension): (r: string)
    ensures |r| >= 4 && r[0] == '.'
    ensures r in [".docx", ".xlsx", ".pptx", ".zip", ".pdf", ".doc", ".bin"]
  {
    match e
    case Docx => ".docx"
    case Xlsx => ".xlsx"
    case Pptx => ".pptx"
    case Zip => ".zip"
    case Pdf => ".pdf"
    case Doc => ".doc"
    case Bin => ".bin"
  }

  /** Distinct labels have distinct extension strings. */
  lemma SuffixInjective(e1: Extension, e2: Extension)
    ensures Suffix(e1) == Suffix(e2) <==> e1 == e2
  {
  }

  /** ZIP local-file-header signature `PK\x03\x04`. */
  const ZipMagic: seq<byte> := [0x50, 0x4B, 0x03, 0x04]
  /** `%PDF`. */
  const PdfMagic: seq<byte> := [0x25, 0x50, 0x44, 0x46]
  /** OLE2 compound-document signature `D0 CF 11 E0`. */
  const OleMagic: seq<byte> := [0xD0, 0xCF, 0x11, 0xE0]
  /** Office Open XML part-path prefixes `word/`, `xl/`, `ppt/`. */
  const WordPart: seq<byte> := [0x77, 0x6F, 0x72, 0x64, 0x2F]
  const XlPart: seq<byte> := [0x78, 0x6C, 0x2F]
  const PptPart: seq<byte> := [0x70, 0x70, 0x74, 0x2F]
  /** Only this many leading bytes are searched for the part paths. */
  const SniffWindow: nat := 2000

  predicate StartsWith(s: seq<byte>, prefix: seq<byte>) {
    |prefix| <= |s| && s[..|prefix|] == prefix
  }

  /** `s[:n]` in Python: the first `n` bytes, or all of `s` when it is shorter. */
  function Window(s: seq<byte>): (w: seq<byte>)
    ensures |w| == if |s| < SniffWindow then |s| else SniffWindow
    ensures w <= s
  {
    if |s| < SniffWindow then s else s[..SniffWindow]
  }

  /** `p` occurs in `s` at offset `i`. */
  ghost predicate OccursAt(s: seq<byte>, p: seq<byte>, i: int) {
    0 <= i && i + |p| <= |s| && forall k :: 0 <= k < |p| ==> s[i + k] == p[k]
  }

  /** Python's `p in s` for byte strings, stated as the existence of an offset. */
  ghost predicate Occurs(s: seq<byte>, p: seq<byte>) {
    exists i :: OccursAt(s, p, i)
  }

  /** Substring test by scanning `s` from the left. */
  function Contains(s: seq<byte>, p: seq<byte>): bool
    decreases |s|
  {
    if |s| < |p| then false
    else s[..|p|] == p || Contains(s[1..], p)
  }

  /** An occurrence in the tail `s[1..]` is an occurrence in `s` one byte further on. */
  lemma OccursAtShift(s: seq<byte>, p: seq<byte>, i: int)
    requires |s| > 0 && 0 <= i
    ensures OccursAt(s[1..], p, i) <==> OccursAt(s, p, i + 1)
  {
  }

  lemma {:induction false} ContainsIffOccurs(s: seq<byte>, p: seq<byte>)
    ensures Contains(s, p) <==> Occurs(s, p)
    decreases |s|
  {
    if |s| < |p| {
    } else if s[..|p|] == p {
      assert OccursAt(s, p, 0);
    } else {
      ContainsIffOccurs(s[1..], p);
      if Occurs(s[1..], p) {
        var i :| OccursAt(s[1..], p, i);
        OccursAtShift(s, p, i);
      }
      if Occurs(s, p) {
        var i :| OccursAt(s, p, i);
        assert i != 0;
        OccursAtShift(s, p, i - 1);
      }
    }
  }

  /**
   * `detect_file_extension`: the ZIP signature wins and is refined by the
   * part paths in the first 2000 bytes (`word/` before `xl/` before `ppt/`);
   * otherwise `%PDF`, then the OLE2 signature; everything else is `.bin`.
   * `DetectFileExtensionSpec` states its result in terms of `Occurs`.
   */
  function DetectFileExtension(content: seq<byte>): Extension {
    var w := Window(content);
    if StartsWith(content, ZipMagic) then
      if Contains(w, WordPart) then Docx
      else if Contains(w, XlPart) then Xlsx
      else if Contains(w, PptPart) then Pptx
      else Zip
    else if StartsWith(content, PdfMagic) then Pdf
    else if StartsWith(content, OleMagic) then Doc
    else Bin
  }

  /** Each label is given exactly when its signature, and for ZIP its part path, is present and no earlier test fired. */
  lemma DetectFileExtensionSpec(content: seq<byte>)
    ensures var r := DetectFileExtension(content);
      && (r == Docx <==> StartsWith(content, ZipMagic) && Occurs(Window(content), WordPart))
      && (r == Xlsx <==> StartsWith(content, ZipMagic) && !Occurs(Window(content), WordPart)
                         && Occurs(Window(content), XlPart))
      && (r == Pptx <==> StartsWith(content, ZipMagic) && !Occurs(Window(content), WordPart)
                         && !Occurs(Window(content), XlPart) && Occurs(Window(content), PptPart))
      && (r == Zip <==> StartsWith(content, ZipMagic) && !Occurs(Window(content), WordPart)
                        && !Occurs(Window(content), XlPart) && !Occurs(Window(content), PptPart))
      && (r == Pdf <==> !StartsWith(content, ZipMagic) && StartsWith(content, PdfMagic))
      && (r == Doc <==> !StartsWith(content, ZipMagic) && !StartsWith(content, PdfMagic)
                        && StartsWith(content, OleMagic))
      && (r == Bin <==> !StartsWith(content, ZipMagic) && !StartsWith(content, PdfMagic)
                        && !StartsWith(content, OleMagic))
  {
    var w := Window(content);
    ContainsIffOccurs(w, WordPart);
    ContainsIffOccurs(w, XlPart);
    ContainsIffOccurs(w, PptPart);
  }

  /** The Office labels and `.zip` are given only to blobs with the ZIP signature. */
  lemma ZipFamilyNeedsZipMagic(content: seq<byte>)
    ensures DetectFileExtension(content) in {Docx, Xlsx, Pptx, Zip} <==> StartsWith(content, ZipMagic)
  {
    DetectFileExtensionSpec(content);
  }

  /** A `%PDF` blob is `.pdf` whatever follows the signature. */
  lemma PdfRegardlessOfTrailingBytes(tail: seq<byte>)
    ensures DetectFileExtension(PdfMagic + tail) == Pdf
  {
    var c := PdfMagic + tail;
    assert c[..4] == PdfMagic;
    assert c[0] != ZipMagic[0];
  }

  /** An OLE2 blob is `.doc` whatever follows the signature. */
  lemma OleRegardlessOfTrailingBytes(tail: seq<byte>)
    ensures DetectFileExtension(OleMagic + tail) == Doc
  {
    var c := OleMagic + tail;
    assert c[..4] == OleMagic;
    assert c[0] != ZipMagic[0] && c[0] != PdfMagic[0];
  }

  /** Bytes at offset 2000 and beyond never change the classification. */
  lemma {:induction false} OnlyWindowMatters(content: seq<byte>, tail: seq<byte>)
    requires |content| >= SniffWindow
    ensures DetectFileExtension(content + tail) == DetectFileExtension(content)
  {
    var c := content + tail;
    assert Window(c) == Window(content) by {
      assert c[..SniffWindow] == content[..SniffWindow];
    }
    assert c[..4] == content[..4];
  }

  /** Classifying a blob and classifying its first 2000 bytes agree. */
  lemma {:induction false} WindowAlone(content: seq<byte>)
    ensures DetectFileExtension(Window(content)) == DetectFileExtension(content)
  {
    var w := Window(content);
    assert Window(w) == w;
    if |content| >= SniffWindow {
      assert w[..4] == content[..4];
    }
  }
}
