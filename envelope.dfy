/**
 * The two response shapes `download_skill_files` accepts
 * (file_download_helper.py:55, 96-104), and the sequence of identifiers,
 * each with the transcript that may name it, that walking them produces.
 */
module Envelope {
  import opened Wrappers

  /** The block type whose outputs carry file identifiers. */
  const ToolResultType: string := "bash_code_execution_tool_result"

  /** An output block; `fileId` is `None` when it has no `file_id` attribute. */
  datatype OutputBlock = OutputBlock(fileId: Option<string>)

  /**
   * `block.content` of a tool-result block. `outputs` is `None` when
   * `block.content.content` is missing or is not a list; `stdout` is `""`
   * when the attribute is missing or falsy.
   */
  datatype ToolResult = ToolResult(outputs: Option<seq<OutputBlock>>, stdout: string)

  /** A content block; `content` is `None` when the block has no `content` attribute. */
  datatype Block = Block(blockType: string, content: Option<ToolResult>)

  /**
   * `IdList`: a dict holding `file_ids`. `Blocks`: an object with a
   * `content` attribute. `Other`: anything else, a dict without
   * `file_ids` included.
   */
  datatype Response = IdList(fileIds: seq<string>) | Blocks(content: seq<Block>) | Other

  /** One identifier met during the walk, with the transcript of the block it came from. */
  datatype Request = Request(fileId: string, stdout: string)

  /** The outputs of a block that the walk scans, or nothing. */
  function ScannedOutputs(b: Block): Option<seq<OutputBlock>> {
    if b.blockType == ToolResultType && b.content.Some? then b.content.value.outputs else None
  }

  /** The list branch: every identifier, with no transcript. */
  function IdRequests(ids: seq<string>): (rs: seq<Request>)
    ensures |rs| == |ids|
    ensures forall k :: 0 <= k < |ids| ==> rs[k] == Request(ids[k], "")
  {
    if ids == [] then [] else IdRequests(ids[..|ids| - 1]) + [Request(ids[|ids| - 1], "")]
  }

  /** The output blocks of one tool result that carry a `file_id`, in order. */
  function OutputRequests(outputs: seq<OutputBlock>, stdout: string): seq<Request> {
    if outputs == [] then []
    else
      var last := outputs[|outputs| - 1];
      OutputRequests(outputs[..|outputs| - 1], stdout)
        + (if last.fileId.Some? then [Request(last.fileId.value, stdout)] else [])
  }

  function BlockRequests(b: Block): seq<Request> {
    match ScannedOutputs(b)
    case Some(outputs) => OutputRequests(outputs, b.content.value.stdout)
    case None => []
  }

  /** The nested branch: block after block, output after output. */
  function BlocksRequests(blocks: seq<Block>): seq<Request> {
    if blocks == [] then [] else BlocksRequests(blocks[..|blocks| - 1]) + BlockRequests(blocks[|blocks| - 1])
  }

  /** Every identifier the walk meets, in traversal order. */
  function Requests(response: Response): seq<Request> {
    match response
    case IdList(ids) => IdRequests(ids)
    case Blocks(blocks) => BlocksRequests(blocks)
    case Other => []
  }

  /** The blocks are walked in order: the walk over `a + b` is the walk over `a`, then over `b`. */
  lemma {:induction false} BlocksRequestsAppend(a: seq<Block>, b: seq<Block>)
    ensures BlocksRequests(a + b) == BlocksRequests(a) + BlocksRequests(b)
    decreases |b|
  {
    if b == [] {
      assert a + b == a;
    } else {
      var c, init, last := a + b, b[..|b| - 1], b[|b| - 1];
      assert c[..|c| - 1] == a + init;
      assert c[|c| - 1] == last;
      BlocksRequestsAppend(a, init);
      calc {
        BlocksRequests(c);
        BlocksRequests(a + init) + BlockRequests(last);
        BlocksRequests(a) + (BlocksRequests(init) + BlockRequests(last));
        BlocksRequests(a) + BlocksRequests(b);
      }
    }
  }

  /** `r` is what some output block of a scanned tool result of `blocks` yields. */
  ghost predicate ScannedFrom(blocks: seq<Block>, r: Request) {
    exists b, o :: b in blocks && ScannedOutputs(b).Some? && o in ScannedOutputs(b).value
                   && o.fileId == Some(r.fileId) && r.stdout == b.content.value.stdout
  }

  lemma {:induction false} OutputRequestsExactly(outputs: seq<OutputBlock>, stdout: string, r: Request)
    ensures r in OutputRequests(outputs, stdout) <==>
            r.stdout == stdout && exists o :: o in outputs && o.fileId == Some(r.fileId)
    decreases |outputs|
  {
    if outputs != [] {
      var init := outputs[..|outputs| - 1];
      var last := outputs[|outputs| - 1];
      OutputRequestsExactly(init, stdout, r);
      assert outputs == init + [last];
      if r.stdout == stdout && last.fileId == Some(r.fileId) {
        assert r in OutputRequests(outputs, stdout);
      }
    }
  }

  /**
   * The nested branch meets exactly the identifiers of output blocks that
   * have a `file_id` and sit in a `bash_code_execution_tool_result` block
   * whose inner content is a list, each with that block's stdout.
   */
  lemma {:induction false} BlocksRequestsExactly(blocks: seq<Block>, r: Request)
    ensures r in BlocksRequests(blocks) <==> ScannedFrom(blocks, r)
    decreases |blocks|
  {
    if blocks != [] {
      var init := blocks[..|blocks| - 1];
      var last := blocks[|blocks| - 1];
      BlocksRequestsExactly(init, r);
      assert blocks == init + [last];
      if ScannedOutputs(last).Some? {
        OutputRequestsExactly(ScannedOutputs(last).value, last.content.value.stdout, r);
      }
      if ScannedFrom(blocks, r) && !ScannedFrom(init, r) {
        var b, o :| b in blocks && ScannedOutputs(b).Some? && o in ScannedOutputs(b).value
                    && o.fileId == Some(r.fileId) && r.stdout == b.content.value.stdout;
        assert b == last;
      }
    }
  }
}
