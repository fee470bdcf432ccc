/** What setting up a block or entrypoint yields (telebot_constructor/user_flow/types.py):
    background jobs and extra endpoints, kept abstract as the element types. */
module SetupResultPy {
  datatype SetupResult<J, A> = SetupResult(backgroundJobs: seq<J>, auxEndpoints: seq<A>)

  /** `SetupResult.empty`. */
  function Empty<J, A>(): (r: SetupResult<J, A>)
    ensures |r.backgroundJobs| == 0 && |r.auxEndpoints| == 0
  {
    SetupResult([], [])
  }

  /** `SetupResult.merge`: field by field, this result's items before the other's. */
  function Merge<J, A>(self: SetupResult<J, A>, other: SetupResult<J, A>): (r: SetupResult<J, A>)
    ensures |r.backgroundJobs| == |self.backgroundJobs| + |other.backgroundJobs|
    ensures |r.auxEndpoints| == |self.auxEndpoints| + |other.auxEndpoints|
    ensures r.backgroundJobs[..|self.backgroundJobs|] == self.backgroundJobs && r.backgroundJobs[|self.backgroundJobs|..] == other.backgroundJobs
    ensures r.auxEndpoints[..|self.auxEndpoints|] == self.auxEndpoints && r.auxEndpoints[|self.auxEndpoints|..] == other.auxEndpoints
  {
    SetupResult(self.backgroundJobs + other.backgroundJobs, self.auxEndpoints + other.auxEndpoints)
  }

  /** The empty result is a left and a right identity of merging. */
  lemma EmptyIsIdentity<J, A>(x: SetupResult<J, A>)
    ensures Merge(Empty(), x) == x && Merge(x, Empty()) == x
  {
    assert [] + x.backgroundJobs == x.backgroundJobs && x.backgroundJobs + [] == x.backgroundJobs;
    assert [] + x.auxEndpoints == x.auxEndpoints && x.auxEndpoints + [] == x.auxEndpoints;
  }

  /** Merging is associative, so results can be combined in any grouping. */
  lemma MergeAssociative<J, A>(x: SetupResult<J, A>, y: SetupResult<J, A>, z: SetupResult<J, A>)
    ensures Merge(Merge(x, y), z) == Merge(x, Merge(y, z))
  {
    assert x.backgroundJobs + y.backgroundJobs + z.backgroundJobs == x.backgroundJobs + (y.backgroundJobs + z.backgroundJobs);
    assert x.auxEndpoints + y.auxEndpoints + z.auxEndpoints == x.auxEndpoints + (y.auxEndpoints + z.auxEndpoints);
  }
}
