/** Node ids in the graph editor (frontend/src/studio/utils.ts). */
module StudioUtils {
  /** `svelvetNodeIdToBlockId`: the editor prefixes ids with "N-"; one leading prefix is
      removed, anything else is kept. */
  function SvelvetNodeIdToBlockId(id: string): (r: string)
    ensures |id| - |r| == 0 || |id| - |r| == 2
    ensures r == id[|id| - |r|..]
    ensures |id| - |r| == 2 <==> |id| >= 2 && id[..2] == "N-"
  {
    if |id| >= 2 && id[..2] == "N-" then id[2..] else id
  }

  /** The id given to the editor comes back from it. */
  lemma NodeIdRoundTrip(blockId: string)
    ensures SvelvetNodeIdToBlockId("N-" + blockId) == blockId
  {
    assert ("N-" + blockId)[..2] == "N-";
  }

  /** Only one prefix is removed, so the conversion is not idempotent. */
  lemma NodeIdNotIdempotent()
    ensures SvelvetNodeIdToBlockId("N-N-x") == "N-x"
    ensures SvelvetNodeIdToBlockId(SvelvetNodeIdToBlockId("N-N-x")) == "x"
  {
    NodeIdRoundTrip("N-x");
    NodeIdRoundTrip("x");
  }
}
