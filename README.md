# Artifact recovery helper, modelled in Dafny

This project models `file_download_helper.py`, the one piece of logic in a
finance multi-agent configuration repository. The helper pulls the files an
LLM's code-execution tool produced back out of a provider response.

- `detect_file_extension` sniffs a blob's type from its leading bytes. A ZIP
  header is refined into `.docx`, `.xlsx` or `.pptx` by the Office part paths
  in the first 2000 bytes, and is `.zip` otherwise. After that come `%PDF`,
  the OLE2 signature (`.doc`) and the fallback `.bin`.
- `download_skill_files` walks the response. The response is either a dict
  with `file_ids`, or a tree of `bash_code_execution_tool_result` blocks
  whose output blocks carry a `file_id`. The routine fetches each identifier
  once through an injected client and sniffs its bytes. It then names the
  file (default name, stdout regex, or `skill_output_<last 8><ext>`), writes
  it and returns the written paths. A failure for one identifier is skipped.

Modules, one file each:

| file | module | models |
|---|---|---|
| `wrappers.dfy` | `Wrappers` | `Option` |
| `sniffer.dfy` | `Sniffer` | `detect_file_extension` |
| `paths.dfy` | `Paths` | `os.path.join`, `os.path.splitext`, `file_id[-8:]` |
| `filename_search.dfy` | `FilenameSearch` | `re.search(r"[\w\-]+\.(pptx|xlsx|docx|pdf)", stdout)` |
| `naming.dfy` | `Naming` | the filename precedence |
| `envelope.dfy` | `Envelope` | the two response shapes and their traversal |
| `downloader.dfy` | `Downloader` | the batch loop, the disk, one identifier's `try` block |
| `downloader_props.dfy` | `DownloaderProps` | what one call does, as lemmas |

How the model is built:

- The batch loop is imperative Dafny. `DownloadSkillFiles` dispatches on the
  response shape. `DownloadListed` and `DownloadNested`/`DownloadOutputs` are
  the source's `for` loops, and `VisitFile` is one iteration: the
  `seen_file_ids` test, then the `try` block (`TryDownload`).
- The disk is a `FileSystem` object whose `files` map the methods update.
- Each loop is proved to end in the state given by `Downloader.Steps`. This
  is a fold over the identifiers in traversal order (`Envelope.Requests`).
  `DownloaderProps` proves what the source promises about that fold: fetch
  once, first-occurrence order, exactly the successful paths, failure
  isolation, last write wins.
- The fold takes the per-identifier outcome as a function (`OutcomeOf(cfg)`).
  This keeps the batch lemmas independent of the sniffing and naming details.

Modelling choices:

- Bytes are `bv8`.
- The client is a `map` from identifier to bytes. An identifier missing from
  it is one whose `download` or `read` raises.
- Paths in `FileSystem.unwritable` are those whose `open(..., "wb")` raises.
- `default_filename == ""` stands for both falsy values, `None` and `""`.
- `stdout == ""` stands for a missing, `None` or empty transcript.
- The list branch is modelled as requests with an empty transcript. With an
  empty transcript the nested branch's naming is exactly the list branch's
  `default_filename or skill_output_...`.

Two behaviours of the code worth noting:

- The code writes inside the `try` (lines 84-85 and 152-153), so a
  failed write is swallowed like a failed download. It is not fatal to the call.
- The code never creates `output_dir`. A missing directory shows up as
  unwritable paths.
- The code sniffs the whole downloaded content: `startswith` on all of it,
  the substring search on its first 2000 bytes. `Sniffer.WindowAlone` shows
  that classifying only the first 2000 bytes gives the same answer.

## Model

| member | source | states |
|---|---|---|
| `Sniffer.Suffix` | file_download_helper.py:14-33 | the sniffer's result is one of `.docx`, `.xlsx`, `.pptx`, `.zip`, `.pdf`, `.doc`, `.bin` |
| `Sniffer.StartsWith` | file_download_helper.py:17-29 | `bytes.startswith` for the three signatures; its meaning in the classification is stated by `DetectFileExtensionSpec` |
| `Sniffer.Window` | file_download_helper.py:19-23 | `file_content[:2000]` is a prefix of the content of length `min(2000, len)` |
| `Sniffer.Contains` | file_download_helper.py:19-23 | Python's byte-string `in`; its meaning is the next row, `ContainsIffOccurs` |
| `Sniffer.ContainsIffOccurs` | file_download_helper.py:19-23 | the scanning substring test agrees with "the part path occurs at some offset" |
| `Sniffer.DetectFileExtension` | file_download_helper.py:6-33 | `detect_file_extension`; its contract is the lemma `DetectFileExtensionSpec` in the next row |
| `Sniffer.DetectFileExtensionSpec` | file_download_helper.py:17-33 | each label is returned exactly when its signature is present and every earlier test failed: `word/` before `xl/` before `ppt/` before `.zip`, searched in the first 2000 bytes, then `%PDF`, then OLE2, else `.bin` |
| `Sniffer.ZipFamilyNeedsZipMagic` | file_download_helper.py:17-26 | the three Office labels and `.zip` are given exactly to blobs that begin with `PK\x03\x04` |
| `Sniffer.PdfRegardlessOfTrailingBytes` | file_download_helper.py:27-28 | `%PDF` followed by any bytes is `.pdf` |
| `Sniffer.OleRegardlessOfTrailingBytes` | file_download_helper.py:29-31 | `D0 CF 11 E0` followed by any bytes is `.doc` |
| `Sniffer.OnlyWindowMatters` | file_download_helper.py:19-23 | appending bytes beyond offset 2000 never changes the classification |
| `Sniffer.WindowAlone` | file_download_helper.py:17-26 | classifying the first 2000 bytes gives the same label as classifying the whole blob |
| `FilenameSearch.IsNameChar` | file_download_helper.py:129 | the class `[\w\-]`; a name character is never a dot, a path separator or a space, so a match's name part holds neither |
| `FilenameSearch.ExtAt` | file_download_helper.py:129 | the alternation `(pptx|xlsx|docx|pdf)` after a dot: the alternative it reports matches, and `None` means none does |
| `FilenameSearch.SearchFrom` | file_download_helper.py:128-131 | the leftmost match at or after an offset: it is a match, nothing starts earlier, it is the only match at its start, and `None` means no match from there on |
| `FilenameSearch.FindFilename` | file_download_helper.py:128-132 | `re.search` returns `None` exactly when no substring matches; otherwise a match with nothing starting further left, and the only match at its start |
| `FilenameSearch.MatchedText` | file_download_helper.py:133 | `match.group(0)` is the name part followed by the claimed extension |
| `Paths.RFind` | file_download_helper.py:134-142 | `str.rfind` as used inside `splitext`: the index of the last occurrence of the character, or -1 when there is none |
| `Paths.Join` | file_download_helper.py:81 | `os.path.join(output_dir, filename)` ends with the filename; an absolute filename replaces the directory; otherwise the path is the directory, then exactly one `/` when the directory is non-empty and does not end in `/` (none otherwise), then the filename |
| `Paths.JoinBaseName` | file_download_helper.py:150 | a filename without separators is the base name of the joined path |
| `Paths.SplitExt` | file_download_helper.py:134-142 | `os.path.splitext` splits a name into root and extension that concatenate back to it, the extension empty or starting with a dot |
| `Paths.SplitExtOfRootAndExt` | file_download_helper.py:134-142 | splitting a dot-free root followed by a one-dot extension gives back exactly that root and extension |
| `Paths.LastChars` | file_download_helper.py:79 | `file_id[-8:]` is a suffix of the identifier of length `min(8, len)` |
| `Naming.SplitMatchedText` | file_download_helper.py:133-142 | `splitext` of the regex match gives its name part and its claimed extension |
| `Naming.ResolveFilename` | file_download_helper.py:121-148 | a truthy default is used verbatim; otherwise the stdout match's base name plus the sniffed extension (the match verbatim when the extensions agree); otherwise `skill_output_` + last 8 + sniffed extension; a falsy default always yields a name ending in the sniffed extension |
| `Naming.ReportTokenFound` | file_download_helper.py:128-133 | the search finds `Report.pptx`, name part `Report`, in the transcript `Report.pptx` |
| `Naming.ClaimedExtensionIsOverridden` | file_download_helper.py:132-143 | stdout `Report.pptx` with workbook content gives `Report.xlsx` |
| `Naming.SynthesizedFromLastEight` | file_download_helper.py:145-148 | identifier `abcdefgh12345678` with workbook content gives `skill_output_12345678.xlsx` |
| `Naming.ShortIdentifierUsedWhole` | file_download_helper.py:79 | an identifier shorter than 8 characters appears whole in the synthesized name |
| `Envelope.IdRequests` | file_download_helper.py:55-56 | the list branch meets every listed identifier, in order, without a transcript |
| `Envelope.ScannedOutputs` | file_download_helper.py:100-102 | the three guards on a block: its `type` is `bash_code_execution_tool_result`, it has a `content.content`, and that is a list; its meaning is stated by `BlocksRequestsExactly` |
| `Envelope.BlockRequests` | file_download_helper.py:100-105 | the scan of one block; its meaning is stated by `BlocksRequestsExactly` |
| `Envelope.OutputRequests` | file_download_helper.py:103-105 | the inner traversal of one tool result's outputs; its contract is `OutputRequestsExactly` in the next row |
| `Envelope.OutputRequestsExactly` | file_download_helper.py:103-105 | an output list yields exactly the identifiers of the output blocks that have a `file_id`, each with the block's stdout |
| `Envelope.BlocksRequests` | file_download_helper.py:99-105 | the traversal of the content blocks; its contract is `BlocksRequestsExactly` in the next row |
| `Envelope.BlocksRequestsAppend` | file_download_helper.py:99-105 | the blocks are walked in order: the walk over two lists of blocks is the walk over the first, then over the second |
| `Envelope.BlocksRequestsExactly` | file_download_helper.py:99-105 | the nested branch meets exactly the identifiers of output blocks with a `file_id` inside `bash_code_execution_tool_result` blocks whose `content.content` is a list |
| `Envelope.Requests` | file_download_helper.py:55-105 | the dispatch on the response shape; the list branch is `IdRequests`, the nested one `BlocksRequestsExactly`, anything else meets no identifier |
| `Downloader.FileSystem.WriteBytes` | file_download_helper.py:84-85 | a write either replaces the file at the path with the full bytes or raises and changes nothing |
| `Downloader.Outcome` | file_download_helper.py:63-91 | the `try` block as a value; what it promises is stated by `SavedFilesAreFetchedBytes`, `OutcomeUnderDefault` and `OutcomeCarriesSniffedExtension` |
| `Downloader.Attempt` | file_download_helper.py:61-91 | the download attempt after the seen test, in both loops (also lines 111-159); its meaning is stated by `StepsClosedForm` |
| `Downloader.Step` | file_download_helper.py:56-91 | one iteration of either loop; its meaning is given by `StepsClosedForm` and `SeenRequestsAreSkipped` |
| `Downloader.Steps` | file_download_helper.py:56-159 | the loop as a fold; `StepsClosedForm` gives it in closed form |
| `Downloader.TryDownload` | file_download_helper.py:63-91 | one identifier's `try` block: fetch, sniff, name, join and write; the written path, or nothing when any step raised |
| `Downloader.VisitFile` | file_download_helper.py:57-91 | one loop iteration: a seen identifier is skipped; otherwise it is added to `seen_file_ids` before the attempt, and a written path is appended |
| `Downloader.DownloadListed` | file_download_helper.py:55-93 | the list branch ends in the state the fold gives for the listed identifiers |
| `Downloader.DownloadOutputs` | file_download_helper.py:103-159 | the inner loop continues the fold over one tool result's output blocks |
| `Downloader.DownloadNested` | file_download_helper.py:99-161 | the nested branch ends in the state the fold gives for the blocks |
| `Downloader.DownloadSkillFiles` | file_download_helper.py:36-161 | the result, the fetches and the disk are those of the fold over the response's identifiers; an unrecognised response returns `[]` and touches nothing |
| `DownloaderProps.FirstIndices` | file_download_helper.py:56-59 | the positions of first occurrences of each identifier, in increasing order, and all of them |
| `DownloaderProps.FirstsAtFirstIndices` | file_download_helper.py:56-59 | the requests the call acts on are those at the first-occurrence positions |
| `DownloaderProps.FirstsHaveDistinctIds` | file_download_helper.py:107-109 | no two acted-on requests share an identifier |
| `DownloaderProps.FileIdsOfFirsts` | file_download_helper.py:56-59 | every identifier met is acted on |
| `DownloaderProps.StepsClosedForm` | file_download_helper.py:51-93 | the call ends with `seen_file_ids` = all identifiers met, one fetch per first occurrence, the result = the paths of the successful first occurrences in order, the disk = those writes applied in order |
| `DownloaderProps.EachIdentifierFetchedOnce` | file_download_helper.py:107-111 | the downloader is called once per distinct identifier, a failed one included, never twice, in first-occurrence order |
| `DownloaderProps.DownloadedBound` | file_download_helper.py:87 | the result has no more entries than there are distinct identifiers |
| `DownloaderProps.SavesAppend` | file_download_helper.py:90-91 | the successful writes of a concatenation are those of each part, in order |
| `DownloaderProps.SavedFilesAreFetchedBytes` | file_download_helper.py:81-87 | every written file holds the complete bytes fetched for an identifier met, at the path resolved from those bytes, and that path was writable |
| `DownloaderProps.OutcomeUnderDefault` | file_download_helper.py:121 | under a truthy default a fetched, writable identifier is saved at `join(output_dir, default_filename)` with its bytes |
| `DownloaderProps.OutcomeCarriesSniffedExtension` | file_download_helper.py:145-150 | under a falsy default a saved path ends with the extension sniffed from its bytes |
| `DownloaderProps.DefaultFilenameEverywhere` | file_download_helper.py:76-78 | with a truthy default every file goes to `join(output_dir, default_filename)` |
| `DownloaderProps.SavedNamesCarrySniffedExtension` | file_download_helper.py:123-148 | with a falsy default every written path ends with the extension sniffed from its bytes |
| `DownloaderProps.SeenRequestsAreSkipped` | file_download_helper.py:107-108 | requests for identifiers already seen change nothing |
| `DownloaderProps.RepeatsChangeNothing` | file_download_helper.py:56-59 | identifiers met again later, with any transcript, add no fetch, no path and no write |
| `DownloaderProps.FetchFailureIsPermanent` | file_download_helper.py:113-118 | an identifier the client cannot serve fails whatever transcript accompanies it |
| `DownloaderProps.SameButSeenIsKept` | file_download_helper.py:158-159 | two runs differing only in having seen an always-failing identifier stay that way |
| `DownloaderProps.FailedFetchLeavesNoTrace` | file_download_helper.py:113-159 | an identifier that always fails leaves the result and the disk as if it had not been in the response |
| `DownloaderProps.PartialFailure` | file_download_helper.py:63-91 | A, B, C with only B failing gives exactly the paths of A and C, in that order |
| `DownloaderProps.SamePathTwice` | file_download_helper.py:150-155 | two identifiers saved at one path: the path is listed twice and the second write wins |
| `DownloaderProps.DefaultFilenameOverwrites` | file_download_helper.py:76-87 | with a default name, two downloaded identifiers give the same path twice and the disk keeps the second file |
| `DownloaderProps.WrittenDomain` | file_download_helper.py:84-85 | writing adds exactly the written paths to the disk |
| `DownloaderProps.WrittenUntouched` | file_download_helper.py:84-85 | a path never written keeps its content |
| `DownloaderProps.WrittenLastWins` | file_download_helper.py:152-153 | a path holds the bytes of the last write to it |
| `DownloaderProps.DiskAfterCall` | file_download_helper.py:150-155 | after the call the disk has exactly the old files plus the result's paths, untouched files unchanged, each path holding the bytes of its last write |

## Left out

- `\w` is read as ASCII `[A-Za-z0-9_]`. Python's Unicode word characters (accented letters, other scripts) are not modelled.
- The client is a fixed map. A client whose answers change between calls, and the `betas` argument of the download call, are not modelled.
- Progress and failure messages (`print`) are not modelled. Nor is the exception text.
- `Downloader.FileSystem.WriteBytes` does not model a write that fails after `open` has truncated the file. Such a write leaves an empty or partial file; the model leaves the disk unchanged.
- The identifiers are strings. Non-string identifiers are not modelled; an unhashable one raises out of the call at the `seen_file_ids` test, a hashable one is handed to the client.
- Two source errors propagate out of the call and are not modelled: a content block without a `type` attribute raises, and so does a non-iterable `response.content`.
- A `file_ids` value that is not a list of strings is not modelled.
- `os.path.join` and `os.path.splitext` follow POSIX `posixpath` for two arguments. Windows path rules are not modelled.
- The disk is a map keyed by the path string. Two strings that name one file, such as `./a.pdf` and `a.pdf`, or `Report.xlsx` and `report.xlsx` on a case-insensitive file system, are separate keys in the model, so `DiskAfterCall`'s "old files plus the result's paths" counts such a file twice.
- `output_dir` is never created by the code, and the model does not create it either.
- `main.py` is not part of this model. It is declarative agent configuration for a third-party framework, with a placeholder download function and commented-out code.
- `data_.py` is not part of this model. It is HTTP downloads into a directory tree.
