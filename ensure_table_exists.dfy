/**
  `ensure_all_tables_exist`: one listing of the existing tables, then the three
  creators in a fixed order against that one snapshot, stopping at the first error.
*/
module EnsureTables {
  import opened Wrappers
  import opened AppErrors
  import opened TableStore
  import opened JobPostingTables

  /** The creators' requests, in the order they run. */
  function TableRequests(): (r: seq<CreateTableRequest>)
    ensures |r| == 3
  {
    [JobPostingsRequest(), JobCategoriesRequest(), JobApplicationsRequest()]
  }

  const TableNames: set<string> := {"JobPostings", "JobCategories", "JobApplications"}

  const ListFailurePrefix := "Failed to retrieve tables list from db client: "

  /** The creators run one after the other against the same snapshot; the first error ends the run. */
  function CreateAll(env: Environment, listed: set<string>, s: StoreState, requests: seq<CreateTableRequest>)
    : (st: Step<Result<(), AppError>>)
    ensures s.tables <= st.state.tables
    ensures s.log <= st.state.log && |st.state.log| <= |s.log| + |requests|
    decreases |requests|
  {
    if requests == [] then Step(Ok(()), s)
    else
      var first := CreateIfAbsent(env, listed, s, requests[0]);
      if first.result.Err? then first else CreateAll(env, listed, first.state, requests[1..])
  }

  /** The whole run: the listing, then the creators; a failed listing ends the run with its own error. */
  function EnsureAll(env: Environment, s: StoreState): (st: Step<Result<(), AppError>>)
    ensures s.tables <= st.state.tables
    ensures s.log + [ListTablesCall] <= st.state.log && |st.state.log| <= |s.log| + 1 + 3
  {
    var listing := ListStep(env, s);
    match listing.result
    case Err(cause) => Step(Err(DatabaseError(ListFailurePrefix + DebugString(cause))), listing.state)
    case Ok(listed) => CreateAll(env, listed, listing.state, TableRequests())
  }

  /** `ensure_all_tables_exist`. */
  method EnsureAllTablesExist(store: Store) returns (r: Result<(), AppError>)
    modifies store
    ensures Step(r, store.State()) == EnsureAll(store.env, old(store.State()))
  {
    var listing := store.ListTables();
    if listing.Err? {
      return Err(DatabaseError(ListFailurePrefix + DebugString(listing.error)));
    }
    var listed := listing.value;
    ghost var requests := TableRequests();
    ghost var afterListing := store.State();
    assert requests[1..][1..] == [JobApplicationsRequest()];

    r := CreateJobPostingsTable(listed, store);
    if r.Err? {
      return;
    }
    ghost var afterFirst := store.State();
    assert CreateAll(store.env, listed, afterListing, requests)
        == CreateAll(store.env, listed, afterFirst, requests[1..]);

    r := CreateJobCategoriesTable(listed, store);
    if r.Err? {
      return;
    }
    ghost var afterSecond := store.State();
    assert CreateAll(store.env, listed, afterFirst, requests[1..])
        == CreateAll(store.env, listed, afterSecond, [JobApplicationsRequest()]);

    r := CreateJobApplicationsTable(listed, store);
  }

  // ---------------------------------------------------------------------------
  // Properties of the run
  // ---------------------------------------------------------------------------

  /** The requests, in order, of the tables missing from the snapshot. */
  function Unlisted(listed: set<string>, requests: seq<CreateTableRequest>): (r: seq<CreateTableRequest>)
    ensures |r| <= |requests|
    ensures forall x :: x in r <==> x in requests && x.tableName !in listed
    decreases |requests|
  {
    if requests == [] then []
    else
      var rest := Unlisted(listed, requests[1..]);
      assert forall x :: x in requests <==> x == requests[0] || x in requests[1..];
      if requests[0].tableName in listed then rest else [requests[0]] + rest
  }

  /** Filtering keeps the order: the unlisted requests of `a + b` are those of `a`, then those of `b`. */
  lemma {:induction false} UnlistedConcat(listed: set<string>, a: seq<CreateTableRequest>, b: seq<CreateTableRequest>)
    ensures Unlisted(listed, a + b) == Unlisted(listed, a) + Unlisted(listed, b)
    decreases |a|
  {
    if a == [] {
      assert a + b == b;
    } else {
      assert (a + b)[0] == a[0];
      assert (a + b)[1..] == a[1..] + b;
      UnlistedConcat(listed, a[1..], b);
    }
  }

  /** The tables `requests` name. */
  function NamesOf(requests: seq<CreateTableRequest>): (r: set<string>)
    ensures forall t :: t in r <==> exists x :: x in requests && x.tableName == t
    decreases |requests|
  {
    if requests == [] then {}
    else
      assert forall x :: x in requests <==> x == requests[0] || x in requests[1..];
      {requests[0].tableName} + NamesOf(requests[1..])
  }

  /** The schemas after the service created the tables of `requests`, in order. */
  function Install(schemas: map<string, CreateTableRequest>, requests: seq<CreateTableRequest>)
    : (r: map<string, CreateTableRequest>)
    decreases |requests|
  {
    if requests == [] then schemas
    else
      var rest := requests[1..];
      Install(schemas[requests[0].tableName := requests[0]], rest)
  }

  /**
    Starting from `s0`, the service accepted every request of `accepted` (none named a
    table of `s0` or one it rejects), and `s` holds exactly the tables of `s0` and the
    tables of `accepted`, the schemas of `s0` with those of `accepted` recorded, and
    nothing else.
  */
  predicate Created(env: Environment, s0: StoreState, s: StoreState, accepted: seq<CreateTableRequest>)
  {
    && (forall i :: 0 <= i < |accepted| ==>
          accepted[i].tableName !in s0.tables && accepted[i].tableName !in env.rejected)
    && s.tables == s0.tables + NamesOf(accepted)
    && s.schemas == Install(s0.schemas, accepted)
  }

  /** The state after the service accepted `x` in `s0`. */
  function Accept(s0: StoreState, x: CreateTableRequest): (s: StoreState)
    ensures s.tables == s0.tables + {x.tableName} && s.log == s0.log + [CreateTableCall(x)]
  {
    s0.(tables := s0.tables + {x.tableName}, schemas := s0.schemas[x.tableName := x], log := s0.log + [CreateTableCall(x)])
  }

  /** Recording schemas adds exactly the requests' tables, and keeps every other table's schema. */
  lemma {:induction false} InstallFrame(schemas: map<string, CreateTableRequest>, requests: seq<CreateTableRequest>)
    ensures Install(schemas, requests).Keys == schemas.Keys + NamesOf(requests)
    ensures forall t :: t in schemas && t !in NamesOf(requests) ==> Install(schemas, requests)[t] == schemas[t]
    decreases |requests|
  {
    if requests != [] {
      InstallFrame(schemas[requests[0].tableName := requests[0]], requests[1..]);
    }
  }

  /** One accepted request in front of accepted requests. */
  lemma CreatedCons(env: Environment, s0: StoreState, s: StoreState, x: CreateTableRequest,
                    accepted: seq<CreateTableRequest>)
    requires x.tableName !in s0.tables && x.tableName !in env.rejected
    requires Created(env, Accept(s0, x), s, accepted)
    ensures Created(env, s0, s, [x] + accepted)
  {
    var xs := [x] + accepted;
    assert xs[0] == x && xs[1..] == accepted;
    assert forall i :: 0 < i < |xs| ==> xs[i] == accepted[i - 1];
    assert NamesOf(xs) == {x.tableName} + NamesOf(accepted);
    assert Install(s0.schemas, xs) == Install(s0.schemas[x.tableName := x], accepted);
  }

  /**
    The error of a creator whose request for `tableName` the service refused, given
    the tables that existed then (a refusal leaves them unchanged, and the run stops).
  */
  predicate RefusedOn(env: Environment, st: Step<Result<(), AppError>>, tableName: string)
  {
    && st.result.Err?
    && (tableName in st.state.tables || tableName in env.rejected)
    && st.result.error == CreateFailure(tableName, Refusal(env, st.state.tables, tableName))
  }

  /**
    The run `st`, started in `s0`, sent exactly the create requests for the first `k` of
    `unlisted`, in order. On `Ok` that is all of them, and the service accepted and
    created each; on an error it accepted and created each before the last one, and the
    last one is the one it refused, with the environment's text for the refusal in the
    error. Either way the tables and schemas at the end are those of `s0` plus those of
    the accepted requests, and no others.
  */
  ghost predicate SentPrefix(env: Environment, s0: StoreState, st: Step<Result<(), AppError>>,
                             unlisted: seq<CreateTableRequest>, k: int)
  {
    && 0 <= k <= |unlisted|
    && st.state.log == s0.log + CreateRequests(unlisted[..k])
    && (st.result.Ok? ==> k == |unlisted| && Created(env, s0, st.state, unlisted))
    && (st.result.Err? ==>
          && 0 < k && Created(env, s0, st.state, unlisted[..k - 1])
          && RefusedOn(env, st, unlisted[k - 1].tableName))
  }

  /** One more request in front of a sent prefix: one the service accepted in `s0`. */
  lemma SentPrefixCons(env: Environment, s0: StoreState, st: Step<Result<(), AppError>>,
                       x: CreateTableRequest, unlisted: seq<CreateTableRequest>, k: int)
    requires x.tableName !in s0.tables && x.tableName !in env.rejected
    requires SentPrefix(env, Accept(s0, x), st, unlisted, k)
    ensures SentPrefix(env, s0, st, [x] + unlisted, k + 1)
  {
    var xs := [x] + unlisted;
    assert xs[..k + 1] == [x] + unlisted[..k];
    LogCons(s0.log, x, unlisted[..k]);
    if st.result.Ok? {
      assert xs[..k + 1] == xs;
      CreatedCons(env, s0, st.state, x, unlisted);
    } else {
      assert xs[..k] == [x] + unlisted[..k - 1];
      CreatedCons(env, s0, st.state, x, unlisted[..k - 1]);
    }
  }

  /** The log of one create request followed by others. */
  lemma LogCons(before: seq<Call>, x: CreateTableRequest, sent: seq<CreateTableRequest>)
    ensures before + [CreateTableCall(x)] + CreateRequests(sent) == before + CreateRequests([x] + sent)
  {
    assert CreateRequests([x] + sent) == [CreateTableCall(x)] + CreateRequests(sent);
  }

  /**
    Fail-fast, in order: the create requests sent are the first `k` of the unlisted
    tables' requests, in order. On `Ok` that is all of them, each accepted; on an error,
    the earlier ones were accepted, the last one sent is the one the service refused,
    and the error is its creator's, carrying the environment's text for that refusal.
    The run adds exactly the accepted requests' tables and schemas, and changes no
    other table or schema.
  */
  lemma {:induction false} CreateAllFailFast(env: Environment, listed: set<string>, s: StoreState,
                                             requests: seq<CreateTableRequest>)
    ensures exists k :: SentPrefix(env, s, CreateAll(env, listed, s, requests), Unlisted(listed, requests), k)
    decreases |requests|
  {
    var st := CreateAll(env, listed, s, requests);
    var unlisted := Unlisted(listed, requests);
    if requests == [] {
      assert Created(env, s, st.state, []);
      assert SentPrefix(env, s, st, unlisted, 0);
    } else {
      var first := CreateIfAbsent(env, listed, s, requests[0]);
      var rest := requests[1..];
      if requests[0].tableName in listed {
        assert unlisted == Unlisted(listed, rest);
        CreateAllFailFast(env, listed, s, rest);
      } else {
        assert unlisted == [requests[0]] + Unlisted(listed, rest);
        CreateWhenUnlisted(env, listed, s, requests[0]);
        if first.result.Err? {
          assert st == first;
          assert RefusedOn(env, st, unlisted[0].tableName);
          assert unlisted[..1] == [requests[0]] && unlisted[..0] == [];
          assert Created(env, s, st.state, unlisted[..0]);
          assert SentPrefix(env, s, st, unlisted, 1);
        } else {
          assert first.state == Accept(s, requests[0]);
          CreateAllFailFast(env, listed, first.state, rest);
          var k :| SentPrefix(env, first.state, st, Unlisted(listed, rest), k);
          SentPrefixCons(env, s, st, requests[0], Unlisted(listed, rest), k);
        }
      }
    }
  }

  /** Tables never disappear, and after `Ok` every table is either in the snapshot or exists. */
  lemma {:induction false} CreateAllCovers(env: Environment, listed: set<string>, s: StoreState,
                                           requests: seq<CreateTableRequest>)
    ensures s.tables <= CreateAll(env, listed, s, requests).state.tables
    ensures CreateAll(env, listed, s, requests).result.Ok? ==>
      forall x :: x in requests ==> x.tableName in listed || x.tableName in CreateAll(env, listed, s, requests).state.tables
    decreases |requests|
  {
    if requests != [] {
      var first := CreateIfAbsent(env, listed, s, requests[0]);
      assert forall x :: x in requests <==> x == requests[0] || x in requests[1..];
      if requests[0].tableName !in listed {
        CreateWhenUnlisted(env, listed, s, requests[0]);
      }
      if first.result.Ok? {
        CreateAllCovers(env, listed, first.state, requests[1..]);
      }
    }
  }

  /** When every table is in the snapshot, nothing is sent and the result is `Ok`. */
  lemma {:induction false} CreateAllSkipsListed(env: Environment, listed: set<string>, s: StoreState,
                                                requests: seq<CreateTableRequest>)
    requires forall x :: x in requests ==> x.tableName in listed
    ensures CreateAll(env, listed, s, requests) == Step(Ok(()), s)
    decreases |requests|
  {
    if requests != [] {
      assert requests[0] in requests;
      CreateAllSkipsListed(env, listed, s, requests[1..]);
    }
  }

  /** Every recorded schema satisfies `WellFormed`. */
  predicate SchemasWellFormed(s: StoreState)
  {
    forall t :: t in s.schemas ==> WellFormed(s.schemas[t])
  }

  /** Every schema the run records satisfies `WellFormed`, given that the ones already there do. */
  lemma {:induction false} CreateAllKeepsWellFormed(env: Environment, listed: set<string>, s: StoreState,
                                                    requests: seq<CreateTableRequest>)
    requires forall x :: x in requests ==> WellFormed(x)
    requires SchemasWellFormed(s)
    ensures SchemasWellFormed(CreateAll(env, listed, s, requests).state)
    decreases |requests|
  {
    if requests != [] {
      assert requests[0] in requests;
      var first := CreateIfAbsent(env, listed, s, requests[0]);
      if requests[0].tableName !in listed {
        assert first.state == CreateStep(env, s, requests[0]).state;
        CreateWhenUnlisted(env, listed, s, requests[0]);
      }
      assert forall x :: x in requests[1..] ==> x in requests;
      if first.result.Ok? {
        assert CreateAll(env, listed, s, requests) == CreateAll(env, listed, first.state, requests[1..]);
        CreateAllKeepsWellFormed(env, listed, first.state, requests[1..]);
      } else {
        assert CreateAll(env, listed, s, requests) == first;
      }
    }
  }

  lemma TableRequestsNames()
    ensures TableRequests()[0].tableName == "JobPostings"
    ensures TableRequests()[1].tableName == "JobCategories"
    ensures TableRequests()[2].tableName == "JobApplications"
    ensures forall x :: x in TableRequests() ==> x.tableName in TableNames
    ensures forall t :: t in TableNames ==> exists x :: x in TableRequests() && x.tableName == t
  {
    var r := TableRequests();
    assert forall x :: x in r ==> x == r[0] || x == r[1] || x == r[2];
    assert r[0] in r && r[1] in r && r[2] in r;
  }

  lemma TableRequestsWellFormed()
    ensures forall x :: x in TableRequests() ==> WellFormed(x)
  {
    forall x | x in TableRequests() ensures WellFormed(x) {
      if x == JobPostingsRequest() {
        JobPostingsRequestWellFormed();
      } else if x == JobCategoriesRequest() {
        JobCategoriesRequestWellFormed();
      } else {
        JobApplicationsRequestWellFormed();
      }
    }
  }

  /** A failed listing: a `DatabaseError` carrying the cause, the one listing request, and no create request. */
  lemma ListFailureStops(env: Environment, s: StoreState)
    requires env.listError.Some?
    ensures EnsureAll(env, s) ==
      Step(Err(DatabaseError(ListFailurePrefix + DebugString(env.listError.value))), s.(log := s.log + [ListTablesCall]))
  {
  }

  /**
    On a successful listing, the run sends one listing request and then, in the fixed
    order, create requests for a prefix of the tables missing from that snapshot,
    stopping after the first that fails.
  */
  lemma EnsureAllFailFast(env: Environment, s: StoreState)
    requires env.listError.None?
    ensures exists k ::
      SentPrefix(env, s.(log := s.log + [ListTablesCall]), EnsureAll(env, s), Unlisted(s.tables, TableRequests()), k)
  {
    var listed := s.(log := s.log + [ListTablesCall]);
    assert EnsureAll(env, s) == CreateAll(env, s.tables, listed, TableRequests());
    CreateAllFailFast(env, s.tables, listed, TableRequests());
  }

  /**
    Nothing else changes: whatever the outcome, the run adds no table but the three it
    creates, records no schema but theirs, and keeps the schema of every table that
    existed before it and of every other table.
  */
  lemma EnsureAllFrame(env: Environment, s: StoreState)
    ensures var after := EnsureAll(env, s).state;
      && after.tables <= s.tables + TableNames
      && after.schemas.Keys <= s.schemas.Keys + TableNames
      && forall t :: t in s.schemas && (t in s.tables || t !in TableNames) ==>
           t in after.schemas && after.schemas[t] == s.schemas[t]
  {
    if env.listError.None? {
      var s0 := s.(log := s.log + [ListTablesCall]);
      var st := EnsureAll(env, s);
      var unlisted := Unlisted(s.tables, TableRequests());
      EnsureAllFailFast(env, s);
      var k :| SentPrefix(env, s0, st, unlisted, k);
      var accepted := if st.result.Ok? then unlisted else unlisted[..k - 1];
      assert Created(env, s0, st.state, accepted);
      InstallFrame(s.schemas, accepted);
      TableRequestsNames();
      assert forall x :: x in accepted ==> x in unlisted;
      assert NamesOf(accepted) <= TableNames;
      assert forall t :: t in NamesOf(accepted) ==> t !in s.tables;
    }
  }

  /** On `Ok`, all three tables exist. */
  lemma OkMeansAllExist(env: Environment, s: StoreState)
    requires EnsureAll(env, s).result.Ok?
    ensures TableNames <= EnsureAll(env, s).state.tables
  {
    var listing := ListStep(env, s);
    CreateAllCovers(env, s.tables, listing.state, TableRequests());
    TableRequestsNames();
    forall t | t in TableNames ensures t in EnsureAll(env, s).state.tables {
      var x :| x in TableRequests() && x.tableName == t;
    }
  }

  /**
    A second run against the store a successful run left sends only the listing, and
    returns `Ok`, whatever the service would refuse by then, as long as listing works.
  */
  lemma Idempotent(env: Environment, env2: Environment, s: StoreState)
    requires EnsureAll(env, s).result.Ok?
    requires env2.listError.None?
    ensures var after := EnsureAll(env, s).state;
      EnsureAll(env2, after) == Step(Ok(()), after.(log := after.log + [ListTablesCall]))
  {
    var after := EnsureAll(env, s).state;
    OkMeansAllExist(env, s);
    TableRequestsNames();
    CreateAllSkipsListed(env2, after.tables, after.(log := after.log + [ListTablesCall]), TableRequests());
  }

  /** The run keeps the recorded schemas well formed. */
  lemma EnsureAllKeepsWellFormed(env: Environment, s: StoreState)
    requires SchemasWellFormed(s)
    ensures SchemasWellFormed(EnsureAll(env, s).state)
  {
    if env.listError.None? {
      var listed := s.(log := s.log + [ListTablesCall]);
      assert EnsureAll(env, s) == CreateAll(env, s.tables, listed, TableRequests());
      TableRequestsWellFormed();
      CreateAllKeepsWellFormed(env, s.tables, listed, TableRequests());
    }
  }

  /** Against an empty store that accepts every request, the run creates exactly the three tables, in order. */
  lemma FreshStore(env: Environment, s: StoreState)
    requires env.listError.None? && s.tables == {}
    requires forall t :: t in TableNames ==> t !in env.rejected
    ensures var st := EnsureAll(env, s);
      && st.result == Ok(())
      && st.state.tables == TableNames
      && st.state.schemas == s.schemas["JobPostings" := JobPostingsRequest()]
           ["JobCategories" := JobCategoriesRequest()]["JobApplications" := JobApplicationsRequest()]
      && st.state.log == s.log + [ListTablesCall, CreateTableCall(JobPostingsRequest()),
           CreateTableCall(JobCategoriesRequest()), CreateTableCall(JobApplicationsRequest())]
  {
    var r := TableRequests();
    assert r[1..][1..] == [JobApplicationsRequest()];
  }

  /**
    With `JobPostings` already there, only the other two are requested: the snapshot
    is consulted, not the store.
  */
  lemma JobPostingsAlreadyThere(env: Environment, s: StoreState)
    requires env.listError.None? && s.tables == {"JobPostings"}
    requires "JobCategories" !in env.rejected && "JobApplications" !in env.rejected
    ensures var st := EnsureAll(env, s);
      && st.result == Ok(())
      && st.state.tables == TableNames
      && st.state.log == s.log + [ListTablesCall, CreateTableCall(JobCategoriesRequest()),
           CreateTableCall(JobApplicationsRequest())]
  {
    var r := TableRequests();
    assert r[1..][1..] == [JobApplicationsRequest()];
  }
}
