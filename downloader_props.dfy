/**
 * What one call of `download_skill_files` does, stated about the fold
 * `Downloader.Steps` that `DownloadSkillFiles` is proved to follow:
 * every identifier is fetched once, in first-occurrence order; the result
 * lists exactly the successful writes, in that order; failures leave no
 * trace; and the disk ends up holding the last bytes written to each path.
 */
module DownloaderProps {
  import opened Wrappers
  import opened Sniffer
  import opened Paths
  import opened Naming
  import opened Envelope
  import opened Downloader

  /** The identifiers of `rs`. */
  function FileIds(rs: seq<Request>): set<string> {
    if rs == [] then {} else FileIds(rs[..|rs| - 1]) + {rs[|rs| - 1].fileId}
  }

  lemma {:induction false} InFileIds(rs: seq<Request>, id: string)
    ensures id in FileIds(rs) <==> exists i :: 0 <= i < |rs| && rs[i].fileId == id
    decreases |rs|
  {
    if rs != [] {
      var n := |rs| - 1;
      InFileIds(rs[..n], id);
      if id in FileIds(rs[..n]) {
        var i :| 0 <= i < n && rs[..n][i].fileId == id;
        assert rs[i].fileId == id;
      }
    }
  }

  /** No earlier request of `rs` carries the identifier of `rs[i]`. */
  ghost predicate IsFirstOccurrence(rs: seq<Request>, i: int) {
    0 <= i < |rs| && forall j :: 0 <= j < i ==> rs[j].fileId != rs[i].fileId
  }

  /** The positions of first occurrences, in increasing order, and all of them. */
  function FirstIndices(rs: seq<Request>): (fi: seq<nat>)
    ensures forall k :: 0 <= k < |fi| ==> IsFirstOccurrence(rs, fi[k])
    ensures forall k1, k2 :: 0 <= k1 < k2 < |fi| ==> fi[k1] < fi[k2]
    ensures forall i :: IsFirstOccurrence(rs, i) ==> i in fi
    decreases |rs|
  {
    if rs == [] then []
    else
      var n := |rs| - 1;
      var init := rs[..n];
      var fi := FirstIndices(init);
      InFileIds(init, rs[n].fileId);
      assert forall i :: 0 <= i < n ==> (IsFirstOccurrence(rs, i) <==> IsFirstOccurrence(init, i));
      fi + (if rs[n].fileId in FileIds(init) then [] else [n])
  }

  /** The first request for each identifier, in traversal order. */
  function Firsts(rs: seq<Request>): seq<Request> {
    if rs == [] then []
    else
      var init := rs[..|rs| - 1];
      var last := rs[|rs| - 1];
      Firsts(init) + (if last.fileId in FileIds(init) then [] else [last])
  }

  lemma {:induction false} FirstsAtFirstIndices(rs: seq<Request>)
    ensures |Firsts(rs)| == |FirstIndices(rs)|
    ensures forall k :: 0 <= k < |Firsts(rs)| ==> Firsts(rs)[k] == rs[FirstIndices(rs)[k]]
    decreases |rs|
  {
    if rs != [] {
      FirstsAtFirstIndices(rs[..|rs| - 1]);
    }
  }

  /** No two first occurrences share an identifier. */
  lemma FirstsHaveDistinctIds(rs: seq<Request>)
    ensures forall k1, k2 :: 0 <= k1 < k2 < |Firsts(rs)| ==> Firsts(rs)[k1].fileId != Firsts(rs)[k2].fileId
  {
    FirstsAtFirstIndices(rs);
    var fi := FirstIndices(rs);
    forall k1, k2 | 0 <= k1 < k2 < |Firsts(rs)|
      ensures Firsts(rs)[k1].fileId != Firsts(rs)[k2].fileId
    {
      assert IsFirstOccurrence(rs, fi[k2]) && fi[k1] < fi[k2];
    }
  }

  lemma {:induction false} FileIdsOfFirsts(rs: seq<Request>)
    ensures FileIds(Firsts(rs)) == FileIds(rs)
    decreases |rs|
  {
    if rs != [] {
      var init := rs[..|rs| - 1];
      var last := rs[|rs| - 1];
      FileIdsOfFirsts(init);
      FileIdsAppend(Firsts(init), if last.fileId in FileIds(init) then [] else [last]);
      if last.fileId !in FileIds(init) {
        assert FileIds([last]) == {last.fileId} by { assert [last][..0] == []; }
      }
    }
  }

  lemma {:induction false} FileIdsAppend(a: seq<Request>, b: seq<Request>)
    ensures FileIds(a + b) == FileIds(a) + FileIds(b)
    decreases |b|
  {
    if b == [] {
      assert a + b == a;
    } else {
      assert (a + b)[..|a + b| - 1] == a + b[..|b| - 1];
      FileIdsAppend(a, b[..|b| - 1]);
    }
  }

  /** A request sequence without repeated identifiers has as many identifiers as requests. */
  lemma {:induction false} DistinctIdsCount(rs: seq<Request>)
    requires forall k1, k2 :: 0 <= k1 < k2 < |rs| ==> rs[k1].fileId != rs[k2].fileId
    ensures |FileIds(rs)| == |rs|
    decreases |rs|
  {
    if rs != [] {
      var n := |rs| - 1;
      DistinctIdsCount(rs[..n]);
      InFileIds(rs[..n], rs[n].fileId);
    }
  }

  /** The identifiers of `rs`, in order. */
  function IdsOf(rs: seq<Request>): (ids: seq<string>)
    ensures |ids| == |rs| && forall k :: 0 <= k < |rs| ==> ids[k] == rs[k].fileId
  {
    if rs == [] then [] else IdsOf(rs[..|rs| - 1]) + [rs[|rs| - 1].fileId]
  }

  /** The files written for `rs` when every request is attempted: the successful outcomes, in order. */
  function Saves(out: Request -> Option<Saved>, rs: seq<Request>): seq<Saved> {
    if rs == [] then []
    else
      var last := rs[|rs| - 1];
      Saves(out, rs[..|rs| - 1]) + (match out(last) case Some(s) => [s] case None => [])
  }

  /** `Saves` keeps each request's own outcome and the order: a failure elsewhere changes nothing. */
  lemma {:induction false} SavesAppend(out: Request -> Option<Saved>, a: seq<Request>, b: seq<Request>)
    ensures Saves(out, a + b) == Saves(out, a) + Saves(out, b)
    decreases |b|
  {
    if b == [] {
      assert a + b == a;
    } else {
      assert (a + b)[..|a + b| - 1] == a + b[..|b| - 1];
      SavesAppend(out, a, b[..|b| - 1]);
    }
  }

  function PathsOf(saves: seq<Saved>): (paths: seq<string>)
    ensures |paths| == |saves| && forall k :: 0 <= k < |saves| ==> paths[k] == saves[k].path
  {
    if saves == [] then [] else PathsOf(saves[..|saves| - 1]) + [saves[|saves| - 1].path]
  }

  /** The disk after writing `saves` in order over `files`. */
  function Written(files: map<string, seq<byte>>, saves: seq<Saved>): map<string, seq<byte>> {
    if saves == [] then files
    else Written(files, saves[..|saves| - 1])[saves[|saves| - 1].path := saves[|saves| - 1].data]
  }

  /** Writing adds exactly the written paths to the disk. */
  lemma {:induction false} WrittenDomain(files: map<string, seq<byte>>, saves: seq<Saved>, p: string)
    ensures p in Written(files, saves) <==> p in files || p in PathsOf(saves)
    decreases |saves|
  {
    if saves != [] {
      var init := saves[..|saves| - 1];
      WrittenDomain(files, init, p);
      assert PathsOf(saves) == PathsOf(init) + [saves[|saves| - 1].path];
    }
  }

  /** A path that is never written keeps its old content. */
  lemma {:induction false} WrittenUntouched(files: map<string, seq<byte>>, saves: seq<Saved>, p: string)
    requires p in files && p !in PathsOf(saves)
    ensures p in Written(files, saves) && Written(files, saves)[p] == files[p]
    decreases |saves|
  {
    if saves != [] {
      var init := saves[..|saves| - 1];
      assert PathsOf(saves) == PathsOf(init) + [saves[|saves| - 1].path];
      WrittenUntouched(files, init, p);
    }
  }

  /** Last write wins: a path holds the bytes of the last file written to it. */
  lemma {:induction false} WrittenLastWins(files: map<string, seq<byte>>, saves: seq<Saved>, k: nat)
    requires k < |saves|
    requires forall j :: k < j < |saves| ==> saves[j].path != saves[k].path
    ensures saves[k].path in Written(files, saves) && Written(files, saves)[saves[k].path] == saves[k].data
    decreases |saves|
  {
    var n := |saves| - 1;
    if k < n {
      WrittenLastWins(files, saves[..n], k);
    }
  }

  lemma SavesSnoc(out: Request -> Option<Saved>, rs: seq<Request>, r: Request)
    ensures Saves(out, rs + [r]) == Saves(out, rs) + (match out(r) case Some(s) => [s] case None => [])
  {
    assert (rs + [r])[..|rs|] == rs;
  }

  /**
   * The whole call in closed form: `seen_file_ids` ends as the set of all
   * identifiers met; the downloader is called once per identifier, for its
   * first occurrence; the result lists the paths of the successful first
   * occurrences; the disk has had exactly those files written, in order.
   */
  function ClosedForm(out: Request -> Option<Saved>, files: map<string, seq<byte>>, rs: seq<Request>): Progress {
    var saves := Saves(out, Firsts(rs));
    Progress(FileIds(rs), IdsOf(Firsts(rs)), PathsOf(saves), Written(files, saves))
  }

  lemma ClosedFormSnoc(out: Request -> Option<Saved>, files: map<string, seq<byte>>, init: seq<Request>, last: Request)
    ensures Step(out, ClosedForm(out, files, init), last) == ClosedForm(out, files, init + [last])
  {
    var rs := init + [last];
    assert rs[..|rs| - 1] == init;
    var f := Firsts(init);
    var sv := Saves(out, f);
    if last.fileId !in FileIds(init) {
      assert Firsts(rs) == f + [last];
      assert (f + [last])[..|f|] == f;
      assert IdsOf(f + [last]) == IdsOf(f) + [last.fileId];
      SavesSnoc(out, f, last);
      match out(last)
      case None =>
        assert sv + [] == sv;
      case Some(s) =>
        var sv' := sv + [s];
        assert sv'[..|sv|] == sv;
        assert PathsOf(sv') == PathsOf(sv) + [s.path];
        assert Written(files, sv') == Written(files, sv)[s.path := s.data];
    } else {
      assert Firsts(rs) == f + [] == f;
      assert FileIds(rs) == FileIds(init);
    }
  }

  lemma {:induction false} StepsClosedForm(out: Request -> Option<Saved>, files: map<string, seq<byte>>, rs: seq<Request>)
    ensures Steps(out, Start(files), rs) == ClosedForm(out, files, rs)
    decreases |rs|
  {
    if rs != [] {
      var init := rs[..|rs| - 1];
      var last := rs[|rs| - 1];
      StepsClosedForm(out, files, init);
      ClosedFormSnoc(out, files, init, last);
      assert init + [last] == rs;
    }
  }

  /**
   * Each identifier is handed to the downloader exactly once per call: the
   * fetches have no repeats, cover every identifier met (a failed one
   * included), and follow first-occurrence order.
   */
  lemma EachIdentifierFetchedOnce(out: Request -> Option<Saved>, files: map<string, seq<byte>>, rs: seq<Request>)
    ensures var final := Steps(out, Start(files), rs);
      && final.seen == FileIds(rs)
      && (forall k1, k2 :: 0 <= k1 < k2 < |final.fetched| ==> final.fetched[k1] != final.fetched[k2])
      && (forall id :: id in final.fetched <==> id in FileIds(rs))
      && |final.fetched| == |FirstIndices(rs)|
      && (forall k :: 0 <= k < |final.fetched| ==> final.fetched[k] == rs[FirstIndices(rs)[k]].fileId)
  {
    StepsClosedForm(out, files, rs);
    FirstsHaveDistinctIds(rs);
    FirstsAtFirstIndices(rs);
    FileIdsOfFirsts(rs);
    var f := Firsts(rs);
    forall id ensures id in IdsOf(f) <==> id in FileIds(rs) {
      InFileIds(f, id);
    }
  }

  /** The result lists no more paths than there are distinct identifiers. */
  lemma DownloadedBound(out: Request -> Option<Saved>, files: map<string, seq<byte>>, rs: seq<Request>)
    ensures |Steps(out, Start(files), rs).downloaded| <= |FileIds(rs)|
  {
    StepsClosedForm(out, files, rs);
    FirstsHaveDistinctIds(rs);
    DistinctIdsCount(Firsts(rs));
    FileIdsOfFirsts(rs);
    SavesShorter(out, Firsts(rs));
  }

  lemma {:induction false} SavesShorter(out: Request -> Option<Saved>, rs: seq<Request>)
    ensures |Saves(out, rs)| <= |rs|
    decreases |rs|
  {
    if rs != [] {
      SavesShorter(out, rs[..|rs| - 1]);
    }
  }

  /**
   * Every file written holds the complete bytes the downloader returned for
   * some identifier met, under the name resolved from those bytes.
   */
  lemma {:induction false} SavedFilesAreFetchedBytes(cfg: Config, rs: seq<Request>)
    ensures forall s :: s in Saves(OutcomeOf(cfg), rs) ==>
      exists r :: r in rs && r.fileId in cfg.client && s.data == cfg.client[r.fileId]
        && s.path == Join(cfg.outputDir, ResolveFilename(cfg.defaultFilename, r.stdout, r.fileId, DetectFileExtension(s.data)))
        && s.path !in cfg.unwritable
    decreases |rs|
  {
    if rs != [] {
      var init := rs[..|rs| - 1];
      SavedFilesAreFetchedBytes(cfg, init);
      assert forall r :: r in init ==> r in rs;
    }
  }

  /** A successful outcome under a truthy default is written to the default name. */
  lemma OutcomeUnderDefault(cfg: Config, r: Request)
    requires cfg.defaultFilename != ""
    ensures Outcome(cfg, r).Some? ==> Outcome(cfg, r).value.path == Join(cfg.outputDir, cfg.defaultFilename)
    ensures r.fileId in cfg.client && Join(cfg.outputDir, cfg.defaultFilename) !in cfg.unwritable ==>
            Outcome(cfg, r) == Some(Saved(Join(cfg.outputDir, cfg.defaultFilename), cfg.client[r.fileId]))
  {
  }

  /** A successful outcome under a falsy default is written to a path ending with the sniffed extension. */
  lemma OutcomeCarriesSniffedExtension(cfg: Config, r: Request)
    requires cfg.defaultFilename == ""
    ensures Outcome(cfg, r).Some? ==>
            EndsWith(Outcome(cfg, r).value.path, Suffix(DetectFileExtension(Outcome(cfg, r).value.data)))
  {
    if r.fileId in cfg.client {
      var data := cfg.client[r.fileId];
      var ext := DetectFileExtension(data);
      var name := ResolveFilename(cfg.defaultFilename, r.stdout, r.fileId, ext);
      EndsWithTransitive(Join(cfg.outputDir, name), name, Suffix(ext));
    }
  }

  /** With a truthy `default_filename`, every file goes to the same path. */
  lemma {:induction false} DefaultFilenameEverywhere(cfg: Config, rs: seq<Request>)
    requires cfg.defaultFilename != ""
    ensures forall s :: s in Saves(OutcomeOf(cfg), rs) ==> s.path == Join(cfg.outputDir, cfg.defaultFilename)
    decreases |rs|
  {
    if rs != [] {
      DefaultFilenameEverywhere(cfg, rs[..|rs| - 1]);
      OutcomeUnderDefault(cfg, rs[|rs| - 1]);
    }
  }

  /** With a falsy `default_filename`, every path written ends with the extension sniffed from its bytes. */
  lemma {:induction false} SavedNamesCarrySniffedExtension(cfg: Config, rs: seq<Request>)
    requires cfg.defaultFilename == ""
    ensures forall s :: s in Saves(OutcomeOf(cfg), rs) ==> EndsWith(s.path, Suffix(DetectFileExtension(s.data)))
    decreases |rs|
  {
    if rs != [] {
      SavedNamesCarrySniffedExtension(cfg, rs[..|rs| - 1]);
      OutcomeCarriesSniffedExtension(cfg, rs[|rs| - 1]);
    }
  }

  /** Requests whose identifiers were all seen already change nothing. */
  lemma {:induction false} SeenRequestsAreSkipped(out: Request -> Option<Saved>, st: Progress, more: seq<Request>)
    requires FileIds(more) <= st.seen
    ensures Steps(out, st, more) == st
    decreases |more|
  {
    if more != [] {
      var init := more[..|more| - 1];
      assert FileIds(init) <= FileIds(more);
      SeenRequestsAreSkipped(out, st, init);
    }
  }

  /**
   * Meeting identifiers again later in the same call, with any transcript,
   * fetches nothing and writes nothing: listing the same identifiers twice
   * gives one fetch and one file each.
   */
  lemma RepeatsChangeNothing(out: Request -> Option<Saved>, files: map<string, seq<byte>>, rs: seq<Request>, more: seq<Request>)
    requires FileIds(more) <= FileIds(rs)
    ensures Steps(out, Start(files), rs + more) == Steps(out, Start(files), rs)
  {
    StepsAppend(out, Start(files), rs, more);
    StepsClosedForm(out, files, rs);
    SeenRequestsAreSkipped(out, Steps(out, Start(files), rs), more);
  }

  /** Every request for `id` fails. */
  ghost predicate AlwaysFails(out: Request -> Option<Saved>, id: string) {
    forall q: Request :: q.fileId == id ==> out(q).None?
  }

  /** When the downloader cannot serve an identifier, no request for it succeeds. */
  lemma FetchFailureIsPermanent(cfg: Config, id: string)
    requires id !in cfg.client
    ensures AlwaysFails(OutcomeOf(cfg), id)
  {
  }

  /** `a` and `b` differ only in that `a` has also seen `id`. */
  ghost predicate SameButSeen(a: Progress, b: Progress, id: string) {
    a.seen == b.seen + {id} && a.downloaded == b.downloaded && a.files == b.files
  }

  lemma {:induction false} SameButSeenIsKept(out: Request -> Option<Saved>, a: Progress, b: Progress, id: string, rs: seq<Request>)
    requires AlwaysFails(out, id)
    requires SameButSeen(a, b, id)
    ensures SameButSeen(Steps(out, a, rs), Steps(out, b, rs), id)
    decreases |rs|
  {
    if rs != [] {
      SameButSeenIsKept(out, a, b, id, rs[..|rs| - 1]);
    }
  }

  /**
   * Failure isolation: an identifier for which every attempt fails leaves
   * the result and the disk exactly as if it had not been in the response.
   */
  lemma FailedFetchLeavesNoTrace(out: Request -> Option<Saved>, files: map<string, seq<byte>>,
                                 before: seq<Request>, r: Request, after: seq<Request>)
    requires AlwaysFails(out, r.fileId)
    ensures var withIt := Steps(out, Start(files), before + [r] + after);
            var without := Steps(out, Start(files), before + after);
            withIt.downloaded == without.downloaded && withIt.files == without.files
  {
    var st := Steps(out, Start(files), before);
    StepsAppend(out, Start(files), before + [r], after);
    StepsAppend(out, Start(files), before, after);
    StepsSnoc(out, Start(files), before, r);
    var a := Step(out, st, r);
    assert SameButSeen(a, st, r.fileId);
    SameButSeenIsKept(out, a, st, r.fileId, after);
  }

  /**
   * With A, B and C met in that order and the downloader failing only for
   * B, the result holds the paths of A and C, in that order.
   */
  lemma PartialFailure(out: Request -> Option<Saved>, files: map<string, seq<byte>>, a: Request, b: Request, c: Request)
    requires a.fileId != c.fileId
    requires AlwaysFails(out, b.fileId)
    requires out(a).Some? && out(c).Some?
    ensures Steps(out, Start(files), [a, b, c]).downloaded == [out(a).value.path, out(c).value.path]
  {
    FailedFetchLeavesNoTrace(out, files, [a], b, [c]);
    assert [a] + [b] + [c] == [a, b, c];
    assert [a] + [c] == [a, c];
    assert [a, c][..1] == [a];
    assert [a][..0] == [];
    var st := Step(out, Start(files), a);
    assert st.downloaded == [out(a).value.path] && st.seen == {a.fileId};
    StepsSnoc(out, Start(files), [], a);
    StepsSnoc(out, Start(files), [a], c);
    assert [] + [a] == [a];
  }

  /** Two identifiers written to the same path: both paths are listed and the second write wins. */
  lemma SamePathTwice(out: Request -> Option<Saved>, files: map<string, seq<byte>>, a: Request, b: Request, path: string)
    requires a.fileId != b.fileId
    requires out(a).Some? && out(a).value.path == path
    requires out(b).Some? && out(b).value.path == path
    ensures var final := Steps(out, Start(files), [a, b]);
            && final.downloaded == [path, path]
            && path in final.files && final.files[path] == out(b).value.data
  {
    StepsSnoc(out, Start(files), [], a);
    StepsSnoc(out, Start(files), [a], b);
    assert [] + [a] == [a] && [a] + [b] == [a, b];
  }

  /**
   * With a truthy `default_filename`, two identifiers that both download
   * are written to the same path: the result lists it twice and the disk
   * keeps the second file's bytes.
   */
  lemma DefaultFilenameOverwrites(cfg: Config, files: map<string, seq<byte>>, a: Request, b: Request)
    requires cfg.defaultFilename != "" && a.fileId != b.fileId
    requires a.fileId in cfg.client && b.fileId in cfg.client
    requires Join(cfg.outputDir, cfg.defaultFilename) !in cfg.unwritable
    ensures var final := Steps(OutcomeOf(cfg), Start(files), [a, b]);
            var path := Join(cfg.outputDir, cfg.defaultFilename);
            && final.downloaded == [path, path]
            && path in final.files && final.files[path] == cfg.client[b.fileId]
  {
    OutcomeUnderDefault(cfg, a);
    OutcomeUnderDefault(cfg, b);
    SamePathTwice(OutcomeOf(cfg), files, a, b, Join(cfg.outputDir, cfg.defaultFilename));
  }

  /**
   * The disk after a call: the paths in the result are added, nothing else
   * changes, and each path holds the bytes of the last write to it.
   */
  lemma DiskAfterCall(out: Request -> Option<Saved>, files: map<string, seq<byte>>, rs: seq<Request>)
    ensures var final := Steps(out, Start(files), rs);
      && (forall p :: p in final.files <==> p in files || p in final.downloaded)
      && (forall p :: p in files && p !in final.downloaded ==> final.files[p] == files[p])
      && |Saves(out, Firsts(rs))| == |final.downloaded|
      && (forall k :: 0 <= k < |final.downloaded|
                      && (forall j :: k < j < |final.downloaded| ==> final.downloaded[j] != final.downloaded[k])
                      ==> final.files[final.downloaded[k]] == Saves(out, Firsts(rs))[k].data)
  {
    StepsClosedForm(out, files, rs);
    var sv := Saves(out, Firsts(rs));
    forall p ensures p in Written(files, sv) <==> p in files || p in PathsOf(sv) {
      WrittenDomain(files, sv, p);
    }
    forall p | p in files && p !in PathsOf(sv) ensures Written(files, sv)[p] == files[p] {
      WrittenUntouched(files, sv, p);
    }
    forall k | 0 <= k < |sv| && (forall j :: k < j < |sv| ==> sv[j].path != sv[k].path)
      ensures Written(files, sv)[sv[k].path] == sv[k].data
    {
      WrittenLastWins(files, sv, k);
    }
  }
}
