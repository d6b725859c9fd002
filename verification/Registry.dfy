/** internal/database/registry.go: ownership of opened sources. Each opened source ends up
    owned by a registry and open, or closed exactly once. */
module Registry {
  import opened Text
  import opened SortedStrings

  datatype CloseError = CloseError(message: string)

  datatype RegistryError = DuplicateSource(id: string) | OpenFailed(id: string)

  /** One connected source. `closes` counts calls that reach its connection pool, whose
      answer is `failure`; the once-guard lets one call through. */
  class Source {
    const id: string
    const failure: Option<CloseError>
    var done: bool
    var closeErr: Option<CloseError>
    var closes: nat

    constructor (id: string, failure: Option<CloseError>)
      ensures this.id == id && this.failure == failure && Valid() && closes == 0
    {
      this.id := id;
      this.failure := failure;
      done, closeErr, closes := false, None, 0;
    }

    predicate Valid()
      reads this
    {
      closes == (if done then 1 else 0) && closeErr == (if done then failure else None)
    }

    method Close() returns (err: Option<CloseError>)
      requires Valid()
      modifies this
      ensures Valid() && closes == 1 && err == failure
    {
      if !done {
        done := true;
        closes := closes + 1;
        closeErr := failure;
      }
      err := closeErr;
    }
  }

  ghost predicate AllOpen(sources: seq<Source>)
    reads sources
  {
    forall s <- sources :: s.Valid() && s.closes == 0
  }

  ghost predicate AllClosedOnce(sources: seq<Source>)
    reads sources
  {
    forall s <- sources :: s.Valid() && s.closes == 1
  }

  /** Closes every source; with the once-guard a source listed twice is still closed once. */
  method CloseSources(sources: seq<Source>)
    requires forall s <- sources :: s.Valid()
    modifies sources
    ensures AllClosedOnce(sources)
  {
    for i := 0 to |sources|
      invariant forall s <- sources :: s.Valid()
      invariant forall k :: 0 <= k < i ==> sources[k].closes == 1
    {
      var _ := sources[i].Close();
    }
  }

  class Registry {
    const sources: map<string, Source>
    var closed: bool
    var closeErr: seq<CloseError>
    /** The order in which a map iteration closed the sources. */
    ghost var order: seq<string>

    constructor (sources: map<string, Source>)
      requires forall id <- sources :: sources[id].id == id && sources[id].Valid() && sources[id].closes == 0
      ensures this.sources == sources && Valid() && !closed
    {
      this.sources := sources;
      closed, closeErr, order := false, [], [];
    }

    /** The failures of the listed sources, in that order: what errors.Join is given. */
    ghost function Failures(ids: seq<string>): seq<CloseError>
      requires forall id <- ids :: id in sources
    {
      if ids == [] then []
      else
        Failures(ids[..|ids| - 1]) +
        (match sources[ids[|ids| - 1]].failure case Some(error) => [error] case None => [])
    }

    lemma {:induction false} FailuresAreTheirs(ids: seq<string>, e: CloseError)
      requires forall id <- ids :: id in sources
      ensures e in Failures(ids) <==> exists id :: id in ids && sources[id].failure == Some(e)
    {
      if ids == [] {
      } else {
        var last := ids[|ids| - 1];
        FailuresAreTheirs(ids[..|ids| - 1], e);
        assert forall id :: id in ids <==> id in ids[..|ids| - 1] || id == last;
      }
    }

    ghost predicate IsOrder(ids: seq<string>, keys: set<string>) {
      && (forall id :: id in ids <==> id in keys)
      && (forall i, j :: 0 <= i < j < |ids| ==> ids[i] != ids[j])
    }

    ghost predicate Valid()
      reads this, sources.Values
    {
      && (forall id <- sources :: sources[id].id == id && sources[id].Valid())
      && (forall id <- sources :: sources[id].closes == if closed then 1 else 0)
      && (closed ==> IsOrder(order, sources.Keys) && closeErr == Failures(order))
      && (!closed ==> closeErr == [])
    }

    ghost predicate ClosedExcept(rest: set<string>)
      reads sources.Values
    {
      && (forall id <- sources :: sources[id].id == id && sources[id].Valid())
      && (forall id <- sources :: sources[id].closes == if id in rest then 0 else 1)
    }

    method CloseNext(id: string, ghost rest: set<string>) returns (err: Option<CloseError>)
      requires id in rest && rest <= sources.Keys && ClosedExcept(rest)
      modifies sources.Values
      ensures ClosedExcept(rest - {id}) && err == sources[id].failure
    {
      assert forall other <- sources :: other != id ==> sources[other] != sources[id];
      err := sources[id].Close();
    }

    /** The map iteration, in some order. */
    method CloseEach() returns (errs: seq<CloseError>, ghost done: seq<string>)
      requires ClosedExcept(sources.Keys)
      modifies sources.Values
      ensures ClosedExcept({}) && IsOrder(done, sources.Keys) && errs == Failures(done)
    {
      errs, done := [], [];
      var rest := sources.Keys;
      while rest != {}
        invariant rest <= sources.Keys && ClosedExcept(rest)
        invariant IsOrder(done, sources.Keys - rest) && errs == Failures(done)
        decreases |rest|
      {
        var id :| id in rest;
        var err := CloseNext(id, rest);
        assert (done + [id])[..|done|] == done;
        errs := errs + (match err case Some(error) => [error] case None => []);
        done := done + [id];
        rest := rest - {id};
      }
    }

    /** Closes every owned source once and joins the failures; later calls only repeat the answer. */
    method Close() returns (err: seq<CloseError>)
      requires Valid()
      modifies this, sources.Values
      ensures Valid() && closed && err == closeErr
      ensures forall id <- sources :: sources[id].closes == 1
      ensures old(closed) ==> err == old(closeErr) && order == old(order)
      ensures forall e :: e in err <==> exists id :: id in sources && sources[id].failure == Some(e)
    {
      if !closed {
        var errs, done := CloseEach();
        closeErr, order, closed := errs, done, true;
      }
      err := closeErr;
      forall e
        ensures e in err <==> exists id :: id in sources && sources[id].failure == Some(e)
      {
        FailuresAreTheirs(order, e);
      }
    }

    lemma {:induction false} AllListed(ids: seq<string>, r: seq<Source>)
      requires Valid() && Members(ids) == sources.Keys && |r| == |ids|
      requires forall k :: 0 <= k < |ids| ==> ids[k] in Members(ids) && r[k] == sources[ids[k]]
      ensures forall s :: s in r <==> s in sources.Values
    {
      forall s | s in sources.Values
        ensures s in r
      {
        assert s.id in Members(ids) && s.id in ids;
        var k :| 0 <= k < |ids| && ids[k] == s.id;
        assert r[k] == sources[s.id];
      }
    }

    /** Every owned source once, in ascending order of ID. */
    method Sources() returns (r: seq<Source>)
      requires Valid()
      ensures |r| == |sources.Keys|
      ensures Ascending(seq(|r|, i requires 0 <= i < |r| => r[i].id))
      ensures forall s :: s in r <==> s in sources.Values
    {
      var ids := Sorted(sources.Keys);
      SortedSound(sources.Keys);
      assert forall i :: 0 <= i < |ids| ==> ids[i] in Members(ids);
      r := [];
      for i := 0 to |ids|
        invariant |r| == i
        invariant forall k :: 0 <= k < i ==> r[k] == sources[ids[k]]
      {
        r := r + [sources[ids[i]]];
      }
      AllListed(ids, r);
      assert seq(|r|, i requires 0 <= i < |r| => r[i].id) == ids;
    }
  }

  /** The first ID that was there before. */
  predicate IsFirstRepeat(ids: seq<string>, id: string) {
    exists k :: 0 <= k < |ids| && ids[k] == id && id in ids[..k] &&
                forall i, j :: 0 <= i < j < k ==> ids[i] != ids[j]
  }

  function IDsOf(sources: seq<Source>): (ids: seq<string>)
    ensures |ids| == |sources| && forall i :: 0 <= i < |ids| ==> ids[i] == sources[i].id
  {
    seq(|sources|, i requires 0 <= i < |sources| => sources[i].id)
  }

  /** A registry of the given open sources, or all of them closed when two share an ID. */
  method NewRegistry(sources: seq<Source>) returns (registry: Option<Registry>, error: Option<RegistryError>)
    requires AllOpen(sources)
    modifies sources
    ensures registry.None? <==> exists i, j :: 0 <= i < j < |sources| && sources[i].id == sources[j].id
    ensures registry.Some? ==>
              && fresh(registry.value) && registry.value.Valid() && !registry.value.closed
              && (forall s :: s in sources <==> s in registry.value.sources.Values)
              && AllOpen(sources)
    ensures registry.Some? ==> error == None
    ensures registry.None? ==>
              && AllClosedOnce(sources)
              && error.Some? && error.value.DuplicateSource? && IsFirstRepeat(IDsOf(sources), error.value.id)
  {
    var byID: map<string, Source> := map[];
    for i := 0 to |sources|
      invariant AllOpen(sources)
      invariant forall k :: 0 <= k < i ==> sources[k].id in byID && byID[sources[k].id] == sources[k]
      invariant forall id <- byID :: byID[id].id == id && byID[id] in sources[..i]
      invariant forall j, k :: 0 <= j < k < i ==> sources[j].id != sources[k].id
    {
      if sources[i].id in byID {
        var j :| 0 <= j < i && sources[j] == byID[sources[i].id];
        assert sources[j].id == sources[i].id;
        assert IDsOf(sources)[j] in IDsOf(sources)[..i];
        CloseSources(sources);
        return None, Some(DuplicateSource(sources[i].id));
      }
      byID := byID[sources[i].id := sources[i]];
    }
    var r := new Registry(byID);
    forall s | s in sources
      ensures s in byID.Values
    {
      assert byID[s.id] == s;
    }
    return Some(r), None;
  }

  /** What the factory does for each configured source. */
  datatype Opening = Opens(failure: Option<CloseError>) | Refuses

  /** Opens the configured sources in order. On any failure - the factory refusing one, or
      two sharing an ID - every source opened so far is closed exactly once; otherwise the
      registry owns them all, open. */
  method OpenRegistry(names: seq<string>, factory: seq<Opening>)
    returns (registry: Option<Registry>, error: Option<RegistryError>, ghost made: seq<Source>)
    requires |factory| == |names|
    ensures registry.Some? <==>
              (forall i :: 0 <= i < |names| ==> factory[i].Opens?) &&
              (forall i, j :: 0 <= i < j < |names| ==> names[i] != names[j])
    ensures |made| <= |names| && (forall i :: 0 <= i < |made| ==> factory[i].Opens? && made[i].id == names[i])
    ensures |made| < |names| ==> factory[|made|].Refuses?
    ensures fresh(made)
    ensures registry.Some? ==>
              && registry.value.Valid() && !registry.value.closed && |made| == |names|
              && (forall s :: s in made <==> s in registry.value.sources.Values)
              && AllOpen(made)
    ensures registry.Some? ==> error == None
    ensures registry.None? ==>
              && AllClosedOnce(made)
              && error.Some?
              && (|made| < |names| ==> error.value == OpenFailed(names[|made|]))
              && (|made| == |names| ==> error.value.DuplicateSource? && IsFirstRepeat(names, error.value.id))
  {
    var sources: seq<Source> := [];
    for i := 0 to |names|
      invariant |sources| == i && AllOpen(sources)
      invariant fresh(sources)
      invariant forall k :: 0 <= k < i ==> factory[k].Opens? && sources[k].id == names[k]
    {
      match factory[i]
      case Refuses =>
        CloseSources(sources);
        return None, Some(OpenFailed(names[i])), sources;
      case Opens(failure) =>
        var source := new Source(names[i], failure);
        sources := sources + [source];
    }
    registry, error := NewRegistry(sources);
    made := sources;
    assert IDsOf(sources) == names;
  }
}
