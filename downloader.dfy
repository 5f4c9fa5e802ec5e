/**
 * `download_skill_files` (file_download_helper.py:36-161): walk the
 * response, fetch every identifier the first time it is met, sniff the
 * bytes, name the file, write it under the output directory and collect the
 * written paths. A failure anywhere in fetching, reading or writing one
 * identifier is swallowed and the walk goes on.
 *
 * The functions below are the specification of one call, as a fold over
 * the identifiers in traversal order; `DownloadSkillFiles` is the loop the
 * source runs, proved to end in the state the fold describes.
 */
module Downloader {
  import opened Wrappers
  import opened Sniffer
  import opened Paths
  import opened Naming
  import opened Envelope

  /**
   * What does not change during one call. `client` is the injected
   * downloader: an identifier absent from it is one whose download or read
   * raises. `unwritable` holds the paths whose `open(..., "wb")` raises.
   */
  datatype Config = Config(
    client: map<string, seq<byte>>,
    outputDir: string,
    defaultFilename: string,
    unwritable: set<string>)

  /** A file written by the call. */
  datatype Saved = Saved(path: string, data: seq<byte>)

  /** The body of the `try` for one identifier: `None` when it raised. */
  function Outcome(cfg: Config, r: Request): Option<Saved> {
    if r.fileId !in cfg.client then None
    else
      var data := cfg.client[r.fileId];
      var path := Join(cfg.outputDir, ResolveFilename(cfg.defaultFilename, r.stdout, r.fileId, DetectFileExtension(data)));
      if path in cfg.unwritable then None else Some(Saved(path, data))
  }

  /** The `try` block as a function of the request, for the fold below. */
  function OutcomeOf(cfg: Config): Request -> Option<Saved> {
    r => Outcome(cfg, r)
  }

  /**
   * The state of a call: `seen_file_ids`, the identifiers handed to the
   * downloader so far, `downloaded_files`, and the files on disk.
   */
  datatype Progress = Progress(
    seen: set<string>,
    fetched: seq<string>,
    downloaded: seq<string>,
    files: map<string, seq<byte>>)

  function Start(files: map<string, seq<byte>>): Progress {
    Progress({}, [], [], files)
  }

  /**
   * Fetch, name and write one identifier, without looking at `seen`; `out`
   * says what the `try` block achieves for it.
   */
  function Attempt(out: Request -> Option<Saved>, st: Progress, r: Request): Progress {
    var st' := st.(fetched := st.fetched + [r.fileId]);
    match out(r)
    case None => st'
    case Some(s) => st'.(downloaded := st'.downloaded + [s.path], files := st'.files[s.path := s.data])
  }

  /** One iteration of either loop: skip a seen identifier, else mark it seen and attempt it. */
  function Step(out: Request -> Option<Saved>, st: Progress, r: Request): Progress {
    if r.fileId in st.seen then st
    else Attempt(out, st.(seen := st.seen + {r.fileId}), r)
  }

  function Steps(out: Request -> Option<Saved>, st: Progress, rs: seq<Request>): Progress {
    if rs == [] then st else Step(out, Steps(out, st, rs[..|rs| - 1]), rs[|rs| - 1])
  }

  lemma {:induction false} StepsAppend(out: Request -> Option<Saved>, st: Progress, rs: seq<Request>, more: seq<Request>)
    ensures Steps(out, st, rs + more) == Steps(out, Steps(out, st, rs), more)
    decreases |more|
  {
    if more == [] {
      assert rs + more == rs;
    } else {
      var init := more[..|more| - 1];
      assert (rs + more)[..|rs + more| - 1] == rs + init;
      StepsAppend(out, st, rs, init);
    }
  }

  lemma StepsSnoc(out: Request -> Option<Saved>, st: Progress, rs: seq<Request>, r: Request)
    ensures Steps(out, st, rs + [r]) == Step(out, Steps(out, st, rs), r)
  {
    assert (rs + [r])[..|rs|] == rs;
  }

  /** The disk. Writing a path in `unwritable` raises and changes nothing. */
  class FileSystem {
    var files: map<string, seq<byte>>
    const unwritable: set<string>

    constructor (files: map<string, seq<byte>>, unwritable: set<string>)
      ensures this.files == files && this.unwritable == unwritable
    {
      this.files := files;
      this.unwritable := unwritable;
    }

    /** `with open(path, "wb") as f: f.write(data)`, overwriting any earlier file. */
    method WriteBytes(path: string, data: seq<byte>) returns (ok: bool)
      modifies this
      ensures ok <==> path !in unwritable
      ensures files == if ok then old(files)[path := data] else old(files)
    {
      ok := path !in unwritable;
      if ok {
        files := files[path := data];
      }
    }
  }

  /**
   * The `try` block for one identifier: the written path, or `None` when
   * the download, the read or the write raised.
   */
  method TryDownload(fileId: string, stdout: string, client: map<string, seq<byte>>,
                     outputDir: string, defaultFilename: string, fs: FileSystem)
    returns (saved: Option<string>)
    modifies fs
    ensures var o := Outcome(Config(client, outputDir, defaultFilename, fs.unwritable), Request(fileId, stdout));
      && saved == (if o.Some? then Some(o.value.path) else None)
      && fs.files == (if o.Some? then old(fs.files)[o.value.path := o.value.data] else old(fs.files))
  {
    if fileId !in client {
      return None;
    }
    var fileData := client[fileId];
    var detectedExt := DetectFileExtension(fileData);
    var filename := ResolveFilename(defaultFilename, stdout, fileId, detectedExt);
    var filepath := Join(outputDir, filename);
    var ok := fs.WriteBytes(filepath, fileData);
    if !ok {
      return None;
    }
    return Some(filepath);
  }

  /**
   * One iteration of either loop (file_download_helper.py:57-91 and
   * 107-159): skip an identifier already in `seen_file_ids`; otherwise add
   * it, hand it to the downloader and append the written path on success.
   */
  method VisitFile(fileId: string, stdout: string, client: map<string, seq<byte>>,
                   outputDir: string, defaultFilename: string, fs: FileSystem,
                   seen: set<string>, ghost fetched: seq<string>, downloaded: seq<string>)
    returns (seen': set<string>, ghost fetched': seq<string>, downloaded': seq<string>)
    modifies fs
    ensures Progress(seen', fetched', downloaded', fs.files)
            == Step(OutcomeOf(Config(client, outputDir, defaultFilename, fs.unwritable)),
                    Progress(seen, fetched, downloaded, old(fs.files)), Request(fileId, stdout))
  {
    seen', fetched', downloaded' := seen, fetched, downloaded;
    if fileId in seen {
      return;
    }
    seen' := seen + {fileId};
    fetched' := fetched + [fileId];
    var saved := TryDownload(fileId, stdout, client, outputDir, defaultFilename, fs);
    if saved.Some? {
      downloaded' := downloaded + [saved.value];
    }
  }

  /** The list branch (file_download_helper.py:55-93). */
  method DownloadListed(fileIds: seq<string>, client: map<string, seq<byte>>,
                        outputDir: string, defaultFilename: string, fs: FileSystem)
    returns (downloadedFiles: seq<string>, ghost fetched: seq<string>)
    modifies fs
    ensures var final := Steps(OutcomeOf(Config(client, outputDir, defaultFilename, fs.unwritable)),
                               Start(old(fs.files)), IdRequests(fileIds));
      && downloadedFiles == final.downloaded
      && fetched == final.fetched
      && fs.files == final.files
  {
    ghost var out := OutcomeOf(Config(client, outputDir, defaultFilename, fs.unwritable));
    ghost var start := Start(fs.files);
    downloadedFiles, fetched := [], [];
    var seenFileIds: set<string> := {};
    for i := 0 to |fileIds|
      invariant Progress(seenFileIds, fetched, downloadedFiles, fs.files)
                == Steps(out, start, IdRequests(fileIds[..i]))
    {
      StepsSnoc(out, start, IdRequests(fileIds[..i]), Request(fileIds[i], ""));
      assert IdRequests(fileIds[..i + 1]) == IdRequests(fileIds[..i]) + [Request(fileIds[i], "")];
      seenFileIds, fetched, downloadedFiles :=
        VisitFile(fileIds[i], "", client, outputDir, defaultFilename, fs, seenFileIds, fetched, downloadedFiles);
    }
    assert fileIds[..|fileIds|] == fileIds;
  }

  /** The inner loop of the nested branch, over the output blocks of one tool result. */
  method DownloadOutputs(outputs: seq<OutputBlock>, stdout: string, client: map<string, seq<byte>>,
                         outputDir: string, defaultFilename: string, fs: FileSystem,
                         seen: set<string>, ghost fetched: seq<string>, downloaded: seq<string>)
    returns (seen': set<string>, ghost fetched': seq<string>, downloaded': seq<string>)
    modifies fs
    ensures Progress(seen', fetched', downloaded', fs.files)
            == Steps(OutcomeOf(Config(client, outputDir, defaultFilename, fs.unwritable)),
                     Progress(seen, fetched, downloaded, old(fs.files)), OutputRequests(outputs, stdout))
  {
    ghost var out := OutcomeOf(Config(client, outputDir, defaultFilename, fs.unwritable));
    ghost var st := Progress(seen, fetched, downloaded, fs.files);
    seen', fetched', downloaded' := seen, fetched, downloaded;
    for o := 0 to |outputs|
      invariant Progress(seen', fetched', downloaded', fs.files)
                == Steps(out, st, OutputRequests(outputs[..o], stdout))
    {
      assert outputs[..o + 1] == outputs[..o] + [outputs[o]];
      assert OutputRequests(outputs[..o + 1], stdout) == OutputRequests(outputs[..o], stdout)
        + (if outputs[o].fileId.Some? then [Request(outputs[o].fileId.value, stdout)] else []);
      if outputs[o].fileId.Some? {
        StepsSnoc(out, st, OutputRequests(outputs[..o], stdout), Request(outputs[o].fileId.value, stdout));
        ghost var before := Progress(seen', fetched', downloaded', fs.files);
        seen', fetched', downloaded' :=
          VisitFile(outputs[o].fileId.value, stdout, client, outputDir, defaultFilename, fs, seen', fetched', downloaded');
        assert Progress(seen', fetched', downloaded', fs.files) == Step(out, before, Request(outputs[o].fileId.value, stdout));
      } else {
        assert OutputRequests(outputs[..o + 1], stdout) == OutputRequests(outputs[..o], stdout);
      }
    }
    assert outputs[..|outputs|] == outputs;
  }

  /** The nested branch (file_download_helper.py:99-161). */
  method DownloadNested(content: seq<Block>, client: map<string, seq<byte>>,
                        outputDir: string, defaultFilename: string, fs: FileSystem)
    returns (downloadedFiles: seq<string>, ghost fetched: seq<string>)
    modifies fs
    ensures var final := Steps(OutcomeOf(Config(client, outputDir, defaultFilename, fs.unwritable)),
                               Start(old(fs.files)), BlocksRequests(content));
      && downloadedFiles == final.downloaded
      && fetched == final.fetched
      && fs.files == final.files
  {
    ghost var out := OutcomeOf(Config(client, outputDir, defaultFilename, fs.unwritable));
    ghost var start := Start(fs.files);
    downloadedFiles, fetched := [], [];
    var seenFileIds: set<string> := {};
    for b := 0 to |content|
      invariant Progress(seenFileIds, fetched, downloadedFiles, fs.files)
                == Steps(out, start, BlocksRequests(content[..b]))
    {
      var block := content[b];
      assert content[..b + 1] == content[..b] + [block];
      if block.blockType == ToolResultType && block.content.Some? && block.content.value.outputs.Some? {
        StepsAppend(out, start, BlocksRequests(content[..b]), BlockRequests(block));
        seenFileIds, fetched, downloadedFiles :=
          DownloadOutputs(block.content.value.outputs.value, block.content.value.stdout, client,
                          outputDir, defaultFilename, fs, seenFileIds, fetched, downloadedFiles);
      } else {
        assert BlockRequests(block) == [];
        assert BlocksRequests(content[..b + 1]) == BlocksRequests(content[..b]);
      }
    }
    assert content[..|content|] == content;
  }

  /**
   * `download_skill_files(response, client, output_dir, default_filename)`.
   * `fetched` is the sequence of identifiers handed to the downloader.
   */
  method DownloadSkillFiles(response: Response, client: map<string, seq<byte>>,
                            outputDir: string, defaultFilename: string, fs: FileSystem)
    returns (downloadedFiles: seq<string>, ghost fetched: seq<string>)
    modifies fs
    ensures var final := Steps(OutcomeOf(Config(client, outputDir, defaultFilename, fs.unwritable)),
                               Start(old(fs.files)), Requests(response));
      && downloadedFiles == final.downloaded
      && fetched == final.fetched
      && fs.files == final.files
    ensures response.Other? ==> downloadedFiles == [] && fetched == [] && fs.files == old(fs.files)
  {
    match response
    case IdList(fileIds) =>
      downloadedFiles, fetched := DownloadListed(fileIds, client, outputDir, defaultFilename, fs);
    case Blocks(content) =>
      downloadedFiles, fetched := DownloadNested(content, client, outputDir, defaultFilename, fs);
    case Other =>
      downloadedFiles, fetched := [], [];
  }
}
