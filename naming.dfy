/**
 * How `download_skill_files` names a downloaded artifact
 * (file_download_helper.py:76-80, 121-148): a truthy `default_filename`
 * wins; otherwise, in the nested-response branch, a filename mentioned in
 * the tool's stdout, with its extension replaced by the sniffed one when the
 * two disagree; otherwise `skill_output_` + the last eight characters of
 * the identifier + the sniffed extension.
 *
 * `defaultFilename == ""` stands for the falsy values `None` and `""`, and
 * `stdout == ""` for a missing, `None` or empty transcript.
 */
module Naming {
  import opened Wrappers
  import opened Sniffer
  import opened Paths
  import opened FilenameSearch

  const SynthesizedPrefix: string := "skill_output_"

  /** The matched text is a dot-free, separator-free root followed by the claimed extension. */
  lemma SplitMatchedText(s: string, t: Token)
    requires MatchesAt(s, t.start, t.dot, t.ext)
    ensures SplitExt(MatchedText(s, t)) == (s[t.start..t.dot], Suffix(t.ext))
  {
    var root := s[t.start..t.dot];
    assert forall k :: 0 <= k < |root| ==> IsNameChar(root[k]);
    SplitExtOfRootAndExt(root, Suffix(t.ext));
  }

  function ResolveFilename(defaultFilename: string, stdout: string, fileId: string, detected: Extension): (name: string)
    ensures defaultFilename != "" ==> name == defaultFilename
    ensures defaultFilename == "" ==> EndsWith(name, Suffix(detected))
    ensures defaultFilename == "" && FindFilename(stdout).Some? ==>
      var t := FindFilename(stdout).value;
      && name == stdout[t.start..t.dot] + Suffix(detected)
      && (t.ext == detected ==> name == MatchedText(stdout, t))
    ensures defaultFilename == "" && FindFilename(stdout).None? ==>
      name == SynthesizedPrefix + LastChars(fileId, 8) + Suffix(detected)
  {
    var filename := defaultFilename;
    var found := FindFilename(stdout);
    if filename == "" && stdout != "" && found.Some? then
      var extracted := MatchedText(stdout, found.value);
      SplitMatchedText(stdout, found.value);
      var (root, extractedExt) := SplitExt(extracted);
      SuffixInjective(found.value.ext, detected);
      if extractedExt == Suffix(detected) then extracted
      else root + Suffix(detected)
    else if filename == "" then
      SynthesizedPrefix + LastChars(fileId, 8) + Suffix(detected)
    else
      filename
  }

  /** `re.search` finds `Report.pptx` in the transcript `Report.pptx`. */
  lemma ReportTokenFound()
    ensures FindFilename("Report.pptx") == Some(Token(0, 6, Pptx))
  {
    var name, ext := "Report", ".pptx";
    var s := name + ext;
    assert s == "Report.pptx";
    assert s[|name|..] == ext;
    assert s[6..11] == s[6..];
    assert SuffixAt(s, 6, Pptx);
    assert MatchesAt(s, 0, 6, Pptx);
  }

  /** A transcript naming `Report.pptx` for content sniffed as a workbook yields `Report.xlsx`. */
  lemma ClaimedExtensionIsOverridden(fileId: string)
    ensures ResolveFilename("", "Report.pptx", fileId, Xlsx) == "Report.xlsx"
  {
    ReportTokenFound();
    var name := "Report";
    assert "Report.pptx" == name + ".pptx";
    assert (name + ".pptx")[0..|name|] == name;
    assert name + Suffix(Xlsx) == "Report.xlsx";
  }

  /** Without a transcript or a default, the name is built from the identifier's last eight characters. */
  lemma SynthesizedFromLastEight()
    ensures ResolveFilename("", "", "abcdefgh12345678", Xlsx) == "skill_output_12345678.xlsx"
  {
    assert FindFilename("").None?;
    assert LastChars("abcdefgh12345678", 8) == "12345678";
  }

  /** An identifier shorter than eight characters is used whole. */
  lemma ShortIdentifierUsedWhole(fileId: string, detected: Extension)
    requires |fileId| < 8
    ensures ResolveFilename("", "", fileId, detected) == SynthesizedPrefix + fileId + Suffix(detected)
  {
    assert FindFilename("").None?;
  }
}
