/** The whole of `SplitMessage` (pkg/utils/message.go:7-114), on every text for which its loop ends. */
module SplitMessage {
  import opened Splitter
  import opened SplitterContent
  import SplitterFences
  import SplitterTermination

  method Split(text: string, maxLen: nat) returns (messages: seq<string>)
    requires 5 <= maxLen
    requires Halts(text, maxLen)
    ensures exists n: nat :: After(text, maxLen, n) == "" && messages == Chunks(text, maxLen, n)
    ensures forall m <- messages :: |m| <= maxLen
    ensures 9 <= maxLen && SplitterFences.Shaped(text) && Balanced(text) ==> forall m <- messages :: Balanced(m)
    ensures FenceFree(text) ==> NonSpace(Concat(messages)) == NonSpace(text)
  {
    hide Next, Chunk, LastUnclosed, SplitterFences.Shaped, NonSpace, Concat, FenceFree;
    ghost var n: nat :| After(text, maxLen, n) == "";
    ghost var turns: nat := 0;
    messages := [];
    var content := text;
    while |content| > 0
      invariant turns <= n
      invariant content == After(text, maxLen, turns)
      invariant messages == Chunks(text, maxLen, turns)
      decreases n - turns
    {
      var chunk;
      chunk, content := Turn(content, maxLen);
      messages := messages + [chunk];
      turns := turns + 1;
    }
    SplitterTermination.ChunksFit(text, maxLen, turns);
    if 9 <= maxLen && SplitterFences.Shaped(text) && Balanced(text) {
      SplitterFences.ChunksBalanced(text, maxLen, turns);
    }
    if FenceFree(text) {
      FenceFreeContent(text, maxLen, turns);
      NothingYet("");
    }
  }
}
