/** The backend user flow (telebot_constructor/user_flow/__init__.py): the entrypoints and
    the blocks of a bot, with the blocks indexed by id. Blocks and entrypoints are kept
    abstract (type parameters); only a block's id is looked at. */
module UserFlowPy {
  import opened Base
  import opened Strings
  import PyUtils

  /** `block_by_id` is a dict; its values, in insertion order, are `blocks` once the ids
      are known to be distinct. */
  datatype UserFlow<E, B> = UserFlow(entrypoints: seq<E>, blockById: map<string, B>, blocks: seq<B>)

  function BlockIds<B>(blocks: seq<B>, blockId: B -> string): seq<string>
  {
    Map(blocks, blockId)
  }

  /** The dict comprehension `{block.block_id: block for block in blocks}`: a later block
      with the same id replaces an earlier one. */
  function BlockById<B>(blocks: seq<B>, blockId: B -> string): (r: map<string, B>)
    ensures forall k :: k in r <==> exists i :: 0 <= i < |blocks| && blockId(blocks[i]) == k
    ensures forall i :: 0 <= i < |blocks| && (forall j :: i < j < |blocks| ==> blockId(blocks[j]) != blockId(blocks[i])) ==>
      r[blockId(blocks[i])] == blocks[i]
  {
    if blocks == [] then map[]
    else
      var init := blocks[..|blocks| - 1];
      var last := blocks[|blocks| - 1];
      var prev := BlockById(init, blockId);
      assert forall i :: 0 <= i < |init| ==> init[i] == blocks[i];
      prev[blockId(last) := last]
  }

  const DUPLICATES_PREFIX: string := "Duplicate block ids detected: "

  /** With distinct ids, every block is the one its id maps to. */
  lemma DistinctIdsIndexBlocks<B>(blocks: seq<B>, blockId: B -> string)
    requires Distinct(BlockIds(blocks, blockId))
    ensures forall i :: 0 <= i < |blocks| ==> BlockById(blocks, blockId)[blockId(blocks[i])] == blocks[i]
  {
    var ids := BlockIds(blocks, blockId);
    forall i, j | 0 <= i < j < |blocks| ensures blockId(blocks[j]) != blockId(blocks[i]) {
      assert ids[i] == blockId(blocks[i]) && ids[j] == blockId(blocks[j]);
    }
  }

  /** Sorting the repeated ids leaves a non-empty list exactly when some id repeats. */
  lemma {:induction false} SortedDuplicatesEmpty(ids: seq<string>)
    ensures SortStrings(PyUtils.Duplicates(ids)) == [] <==> Distinct(ids)
  {
    var duplicates := PyUtils.Duplicates(ids);
    PyUtils.DistinctCount(ids);
    assert |SortStrings(duplicates)| == |duplicates|;
    if |duplicates| > 0 {
      RepeatedNotDistinct(ids, duplicates[0]);
    } else {
      forall x ensures Count(ids, x) <= 1 {
        assert x !in duplicates;
      }
      assert Distinct(ids);
    }
  }

  lemma RepeatedNotDistinct(ids: seq<string>, d: string)
    requires Count(ids, d) > 1
    ensures !Distinct(ids)
  {
    PyUtils.DistinctCount(ids);
  }

  /** `UserFlow.__init__`: raises when some block id repeats, naming the repeated ids
      sorted, as a Python list. */
  function NewUserFlow<E, B>(entrypoints: seq<E>, blocks: seq<B>, blockId: B -> string): (r: Throws<UserFlow<E, B>>)
    ensures r.Raises? <==> !Distinct(BlockIds(blocks, blockId))
    ensures r.Raises? ==> r.message == DUPLICATES_PREFIX + PyListRepr(SortStrings(PyUtils.Duplicates(BlockIds(blocks, blockId))))
    ensures r.Returns? ==> r.value.entrypoints == entrypoints && r.value.blocks == blocks
    ensures r.Returns? ==> forall k :: k in r.value.blockById <==> exists i :: 0 <= i < |blocks| && blockId(blocks[i]) == k
    ensures r.Returns? ==> forall i :: 0 <= i < |blocks| ==> r.value.blockById[blockId(blocks[i])] == blocks[i]
  {
    var ids := BlockIds(blocks, blockId);
    var duplicates := SortStrings(PyUtils.Duplicates(ids));
    SortedDuplicatesEmpty(ids);
    if |duplicates| > 0 then
      Raises(DUPLICATES_PREFIX + PyListRepr(duplicates))
    else
      DistinctIdsIndexBlocks(blocks, blockId);
      Returns(UserFlow(entrypoints, BlockById(blocks, blockId), blocks))
  }

  /** `_enter_block`: the block with the given id; entering an unknown id raises. */
  function EnterBlock<E, B>(flow: UserFlow<E, B>, id: string): (r: Throws<B>)
    ensures r.Raises? <==> id !in flow.blockById
    ensures r.Raises? ==> r.message == "Attempt to enter non-existent block with id " + id
    ensures r.Returns? ==> r.value == flow.blockById[id]
  {
    if id !in flow.blockById then Raises("Attempt to enter non-existent block with id " + id)
    else Returns(flow.blockById[id])
  }

  /** Every block of a flow that was constructed can be entered by its id, and entering it
      reaches that block. */
  lemma EveryBlockEnterable<E, B>(entrypoints: seq<E>, blocks: seq<B>, blockId: B -> string, i: nat)
    requires NewUserFlow(entrypoints, blocks, blockId).Returns? && i < |blocks|
    ensures EnterBlock(NewUserFlow(entrypoints, blocks, blockId).value, blockId(blocks[i])) == Returns(blocks[i])
  {
  }

  /** One call of a component's `setup`. */
  datatype SetupCall<E, B> = SetupEntryPoint(entrypoint: E) | SetupBlock(block: B)

  /** `UserFlow.setup`: the setup calls made, in order. */
  method Setup<E, B>(flow: UserFlow<E, B>) returns (calls: seq<SetupCall<E, B>>)
    ensures |calls| == |flow.entrypoints| + |flow.blocks|
    ensures forall i :: 0 <= i < |flow.entrypoints| ==> calls[i] == SetupEntryPoint(flow.entrypoints[i])
    ensures forall j :: 0 <= j < |flow.blocks| ==> calls[|flow.entrypoints| + j] == SetupBlock(flow.blocks[j])
    ensures forall i, j :: 0 <= i < |calls| && 0 <= j < |calls| && calls[i].SetupEntryPoint? && calls[j].SetupBlock? ==> i < j
  {
    calls := [];
    for i := 0 to |flow.entrypoints|
      invariant |calls| == i
      invariant forall k :: 0 <= k < i ==> calls[k] == SetupEntryPoint(flow.entrypoints[k])
    {
      calls := calls + [SetupEntryPoint(flow.entrypoints[i])];
    }
    for j := 0 to |flow.blocks|
      invariant |calls| == |flow.entrypoints| + j
      invariant forall k :: 0 <= k < |flow.entrypoints| ==> calls[k] == SetupEntryPoint(flow.entrypoints[k])
      invariant forall k :: 0 <= k < j ==> calls[|flow.entrypoints| + k] == SetupBlock(flow.blocks[k])
    {
      calls := calls + [SetupBlock(flow.blocks[j])];
    }
    forall i | |flow.entrypoints| <= i < |calls| ensures calls[i].SetupBlock? {
      assert calls[|flow.entrypoints| + (i - |flow.entrypoints|)] == SetupBlock(flow.blocks[i - |flow.entrypoints|]);
    }
  }
}
