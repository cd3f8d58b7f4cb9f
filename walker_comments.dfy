/** Comment harvesting and filtering (walker_comments.go): the file visitor keeps
    the comment groups that mention "OpenAPI", and the detectors pick the blocks
    that carry a given annotation keyword, ignoring case. */
module Comments {
  import opened Strings

  /** A block matches a keyword when its lowercase form contains the lowercase keyword. */
  predicate Matches(block: string, keyword: string) {
    Contains(ToLower(block), ToLower(keyword))
  }

  /** The blocks of `blocks` that match `keyword`, in their original order. */
  function Detected(blocks: seq<string>, keyword: string): (r: seq<string>)
    ensures |r| <= |blocks|
    ensures forall k :: 0 <= k < |r| ==> Matches(r[k], keyword)
  {
    if blocks == [] then []
    else
      var last := blocks[|blocks| - 1];
      Detected(blocks[..|blocks| - 1], keyword) + (if Matches(last, keyword) then [last] else [])
  }

  /** `detectComments`. */
  method DetectComments(commentBlocks: seq<string>, keyword: string) returns (detectedBlocks: seq<string>)
    ensures detectedBlocks == Detected(commentBlocks, keyword)
  {
    var lowered := ToLower(keyword);
    detectedBlocks := [];
    for k := 0 to |commentBlocks|
      invariant detectedBlocks == Detected(commentBlocks[..k], keyword)
    {
      assert commentBlocks[..k + 1][..k] == commentBlocks[..k];
      var comment := commentBlocks[k];
      if Contains(ToLower(comment), lowered) {
        detectedBlocks := detectedBlocks + [comment];
      }
    }
    assert commentBlocks[..|commentBlocks|] == commentBlocks;
  }

  /** Filtering is compositional: the blocks of a concatenation are the blocks of each part. */
  lemma {:induction false} DetectedAppend(a: seq<string>, b: seq<string>, keyword: string)
    ensures Detected(a + b, keyword) == Detected(a, keyword) + Detected(b, keyword)
    decreases |b|
  {
    if b == [] {
      assert a + b == a;
    } else {
      var b' := b[..|b| - 1];
      assert (a + b)[..|a + b| - 1] == a + b';
      assert (a + b)[|a + b| - 1] == b[|b| - 1];
      DetectedAppend(a, b', keyword);
    }
  }

  /** A single block is kept, unmodified, exactly when it matches. */
  lemma DetectedSingle(block: string, keyword: string)
    ensures Detected([block], keyword) == if Matches(block, keyword) then [block] else []
  {
    assert [block][..0] == [];
  }

  /** Every kept block comes from the input, and every matching input block is kept. */
  lemma {:induction false} DetectedMembers(blocks: seq<string>, keyword: string, x: string)
    ensures x in Detected(blocks, keyword) <==> x in blocks && Matches(x, keyword)
  {
    if blocks != [] {
      var init := blocks[..|blocks| - 1];
      DetectedMembers(init, keyword, x);
      assert blocks == init + [blocks[|blocks| - 1]];
    }
  }

  /** Filtering twice with the same keyword is filtering once. */
  lemma {:induction false} DetectedIdempotent(blocks: seq<string>, keyword: string)
    ensures Detected(Detected(blocks, keyword), keyword) == Detected(blocks, keyword)
  {
    if blocks != [] {
      var init := blocks[..|blocks| - 1];
      var last := blocks[|blocks| - 1];
      var tail := if Matches(last, keyword) then [last] else [];
      DetectedIdempotent(init, keyword);
      DetectedAppend(Detected(init, keyword), tail, keyword);
      DetectedSingle(last, keyword);
    }
  }

  /** The keyword's own case does not matter. */
  lemma DetectedIgnoresKeywordCase(blocks: seq<string>, keyword: string)
    ensures Detected(blocks, ToLower(keyword)) == Detected(blocks, keyword)
  {
    ToLowerIdempotent(keyword);
  }

  const OperationKeyword := "OpenAPI Path:"
  const ApiKeyword := "OpenAPI API Title:"
  const TagKeyword := "OpenAPI Tags:"

  /** `detectOperationComments`: the blocks that describe a path. */
  method DetectOperationComments(commentBlocks: seq<string>) returns (r: seq<string>)
    ensures r == Detected(commentBlocks, OperationKeyword)
  {
    r := DetectComments(commentBlocks, OperationKeyword);
  }

  /** `detectApiCommentBlocks`: the blocks that carry the API title. */
  method DetectApiCommentBlocks(commentBlocks: seq<string>) returns (r: seq<string>)
    ensures r == Detected(commentBlocks, ApiKeyword)
  {
    r := DetectComments(commentBlocks, ApiKeyword);
  }

  /** `detectTagComments`: the blocks that declare tags. */
  method DetectTagComments(commentBlocks: seq<string>) returns (r: seq<string>)
    ensures r == Detected(commentBlocks, TagKeyword)
  {
    r := DetectComments(commentBlocks, TagKeyword);
  }

  // ---- the file visitor ----

  /** The comment groups of `groups` that mention "OpenAPI", matched with case. */
  function OpenApiGroups(groups: seq<string>): (r: seq<string>)
    ensures |r| <= |groups|
    ensures forall k :: 0 <= k < |r| ==> Contains(r[k], "OpenAPI")
  {
    if groups == [] then []
    else
      var last := groups[|groups| - 1];
      OpenApiGroups(groups[..|groups| - 1]) + (if Contains(last, "OpenAPI") then [last] else [])
  }

  lemma {:induction false} OpenApiGroupsMembers(groups: seq<string>, x: string)
    ensures x in OpenApiGroups(groups) <==> x in groups && Contains(x, "OpenAPI")
  {
    if groups != [] {
      var init := groups[..|groups| - 1];
      OpenApiGroupsMembers(init, x);
      assert groups == init + [groups[|groups| - 1]];
    }
  }

  /** The syntax nodes the visitor tells apart; a file is known by the texts of its comment groups. */
  datatype Node = File(commentGroups: seq<string>) | OtherNode

  class CommentVisitor {
    /** Whether the visitor was given a file set (`Fset != nil`). */
    var hasFileSet: bool
    var comments: seq<string>

    constructor (hasFileSet: bool)
      ensures this.hasFileSet == hasFileSet && comments == []
    {
      this.hasFileSet := hasFileSet;
      comments := [];
    }

    /** `CommentVisitor.Visit`: without a file set nothing happens and the walk
        stops; a file contributes its "OpenAPI" comment groups and is not
        descended into; any other node is descended into. */
    method Visit(node: Node) returns (descend: bool)
      modifies this
      ensures hasFileSet == old(hasFileSet)
      ensures descend <==> old(hasFileSet) && node.OtherNode?
      ensures comments == if old(hasFileSet) && node.File? then old(comments) + OpenApiGroups(node.commentGroups) else old(comments)
    {
      if !hasFileSet {
        return false;
      }
      match node
      case File(groups) =>
        ghost var start := comments;
        for k := 0 to |groups|
          invariant hasFileSet == old(hasFileSet)
          invariant comments == start + OpenApiGroups(groups[..k])
        {
          assert groups[..k + 1][..k] == groups[..k];
          var s := groups[k];
          if Contains(s, "OpenAPI") {
            comments := comments + [s];
          }
        }
        assert groups[..|groups|] == groups;
        return false;
      case OtherNode =>
        return true;
    }
  }
}
