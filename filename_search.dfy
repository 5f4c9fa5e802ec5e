/**
 * The stdout filename heuristic of `download_skill_files`
 * (file_download_helper.py:128-131): Python's
 * `re.search(r"[\w\-]+\.(pptx|xlsx|docx|pdf)", stdout)`.
 *
 * A match is a non-empty run of name characters, a dot and one of the four
 * claimable extensions. `re.search` reports the leftmost match; at that
 * start the greedy `[\w\-]+` and the ordered alternation leave exactly one
 * candidate, which is what `FindFilename` returns.
 */
module FilenameSearch {
  import opened Wrappers
  import opened Sniffer

  /** `[\w\-]`, with `\w` read as ASCII letters, digits and underscore. */
  predicate IsNameChar(c: char)
    ensures IsNameChar(c) ==> c != '.' && c != '/' && c != ' '
  {
    ('a' <= c <= 'z') || ('A' <= c <= 'Z') || ('0' <= c <= '9') || c == '_' || c == '-'
  }

  /** The alternatives of `(pptx|xlsx|docx|pdf)`. */
  predicate Claimable(e: Extension) {
    e == Pptx || e == Xlsx || e == Docx || e == Pdf
  }

  /** `s` holds `Suffix(e)` (dot included) at offset `j`. */
  predicate SuffixAt(s: string, j: nat, e: Extension) {
    j + |Suffix(e)| <= |s| && s[j..j + |Suffix(e)|] == Suffix(e)
  }

  /** The pattern matches `s[i..j + |Suffix(e)|]`, with the name part `s[i..j]`. */
  ghost predicate MatchesAt(s: string, i: int, j: int, e: Extension) {
    && Claimable(e)
    && 0 <= i < j <= |s|
    && (forall k :: i <= k < j ==> IsNameChar(s[k]))
    && SuffixAt(s, j, e)
  }

  /** The match `re.search` reports: name part `s[start..dot]`, then `Suffix(ext)`. */
  datatype Token = Token(start: nat, dot: nat, ext: Extension)

  /** End of the run of name characters that begins at `i`. */
  function RunEnd(s: string, i: nat): (k: nat)
    requires i <= |s|
    ensures i <= k <= |s|
    ensures forall m :: i <= m < k ==> IsNameChar(s[m])
    ensures k < |s| ==> !IsNameChar(s[k])
    decreases |s| - i
  {
    if i < |s| && IsNameChar(s[i]) then RunEnd(s, i + 1) else i
  }

  /** The claimable extensions are told apart by their dotted spelling. */
  lemma SuffixAtUnique(s: string, j: nat, e1: Extension, e2: Extension)
    requires Claimable(e1) && Claimable(e2)
    requires SuffixAt(s, j, e1) && SuffixAt(s, j, e2)
    ensures e1 == e2
  {
    assert s[j + 1] == Suffix(e1)[1] == Suffix(e2)[1];
    assert s[j + 2] == Suffix(e1)[2] == Suffix(e2)[2];
  }

  /** The first alternative of `(pptx|xlsx|docx|pdf)` that matches after the dot at `j`. */
  function ExtAt(s: string, j: nat): (r: Option<Extension>)
    ensures r.Some? ==> Claimable(r.value) && SuffixAt(s, j, r.value)
    ensures r.None? ==> forall e :: Claimable(e) ==> !SuffixAt(s, j, e)
  {
    if SuffixAt(s, j, Pptx) then Some(Pptx)
    else if SuffixAt(s, j, Xlsx) then Some(Xlsx)
    else if SuffixAt(s, j, Docx) then Some(Docx)
    else if SuffixAt(s, j, Pdf) then Some(Pdf)
    else None
  }

  /** Any match starting at `i` has its dot exactly where the run of name characters ends. */
  lemma MatchDotIsRunEnd(s: string, i: nat, j: int, e: Extension)
    requires i <= |s|
    requires MatchesAt(s, i, j, e)
    ensures j == RunEnd(s, i)
  {
    assert s[j] == Suffix(e)[0] == '.';
  }

  /** Leftmost match starting at offset `i` or later. */
  function SearchFrom(s: string, i: nat): (r: Option<Token>)
    requires i <= |s|
    ensures r.Some? ==> i <= r.value.start && MatchesAt(s, r.value.start, r.value.dot, r.value.ext)
    ensures r.Some? ==> forall i', j, e :: i <= i' < r.value.start ==> !MatchesAt(s, i', j, e)
    ensures r.Some? ==> forall j, e :: MatchesAt(s, r.value.start, j, e) ==> j == r.value.dot && e == r.value.ext
    ensures r.None? ==> forall i', j, e :: i <= i' ==> !MatchesAt(s, i', j, e)
    decreases |s| - i
  {
    if i == |s| then None
    else
      var k := RunEnd(s, i);
      var ext := ExtAt(s, k);
      if k > i && ext.Some? then
        assert forall j, e :: MatchesAt(s, i, j, e) ==> j == k && e == ext.value by {
          forall j, e | MatchesAt(s, i, j, e) ensures j == k && e == ext.value {
            MatchDotIsRunEnd(s, i, j, e);
            SuffixAtUnique(s, k, e, ext.value);
          }
        }
        Some(Token(i, k, ext.value))
      else
        assert forall j, e :: !MatchesAt(s, i, j, e) by {
          forall j, e | MatchesAt(s, i, j, e) ensures false {
            MatchDotIsRunEnd(s, i, j, e);
          }
        }
        SearchFrom(s, i + 1)
  }

  /**
   * `re.search` on the stdout text: `None` exactly when no part of `s`
   * matches; otherwise the leftmost match, which is the only match
   * starting there.
   */
  function FindFilename(s: string): (r: Option<Token>)
    ensures r.None? <==> forall i, j, e :: !MatchesAt(s, i, j, e)
    ensures r.Some? ==> MatchesAt(s, r.value.start, r.value.dot, r.value.ext)
    ensures r.Some? ==> forall i, j, e :: i < r.value.start ==> !MatchesAt(s, i, j, e)
    ensures r.Some? ==> forall j, e :: MatchesAt(s, r.value.start, j, e) ==> j == r.value.dot && e == r.value.ext
  {
    SearchFrom(s, 0)
  }

  /** `match.group(0)`: the matched text. */
  function MatchedText(s: string, t: Token): (m: string)
    requires MatchesAt(s, t.start, t.dot, t.ext)
    ensures m == s[t.start..t.dot] + Suffix(t.ext)
  {
    s[t.start..t.dot + |Suffix(t.ext)|]
  }
}
