/**
  The three job-board tables: the `CreateTable` request each creator submits, and
  the skip-if-listed, create-otherwise step the creators share.
*/
module JobPostingTables {
  import opened Wrappers
  import opened AttributeValues
  import opened AppErrors
  import opened TableStore
  import JobPostings

  // ---------------------------------------------------------------------------
  // The submitted schemas
  // ---------------------------------------------------------------------------

  function StringAttribute(name: string): AttributeDefinition
  {
    AttributeDefinition(name, ScalarS)
  }

  function HashKey(name: string): KeySchemaElement
  {
    KeySchemaElement(name, Hash)
  }

  /** A global secondary index on one hash-key attribute, projecting every attribute. */
  function HashIndex(indexName: string, attribute: string): GlobalSecondaryIndex
  {
    GlobalSecondaryIndex(indexName, [HashKey(attribute)], All)
  }

  /** An index of a table: its name and its hash-key attribute. */
  datatype IndexSpec = IndexSpec(indexName: string, attribute: string)

  /**
    The shape all three creators follow: per-request billing, the string attribute
    `id` and then each index's key attribute declared as a string, the hash key `id`,
    and one all-projecting hash index per `IndexSpec`, in order.
  */
  function TableRequest(tableName: string, indexes: seq<IndexSpec>): (r: CreateTableRequest)
    ensures r.tableName == tableName
    ensures |r.attributeDefinitions| == |indexes| + 1 && |r.globalSecondaryIndexes| == |indexes|
  {
    CreateTableRequest(
      tableName,
      PayPerRequest,
      [StringAttribute("id")] + seq(|indexes|, i requires 0 <= i < |indexes| => StringAttribute(indexes[i].attribute)),
      [HashKey("id")],
      seq(|indexes|, i requires 0 <= i < |indexes| => HashIndex(indexes[i].indexName, indexes[i].attribute)))
  }

  /** The request `create_job_postings_table` submits. */
  function JobPostingsRequest(): (r: CreateTableRequest)
    ensures r == CreateTableRequest("JobPostings", PayPerRequest,
      [StringAttribute("id"), StringAttribute("employer_name"), StringAttribute("job_type"),
       StringAttribute("city"), StringAttribute("created_at")],
      [HashKey("id")],
      [HashIndex("EmployerIndex", "employer_name"), HashIndex("JobTypeIndex", "job_type"),
       HashIndex("LocationIndex", "city"), HashIndex("CreatedAtIndex", "created_at")])
  {
    TableRequest("JobPostings", [
      IndexSpec("EmployerIndex", "employer_name"),
      IndexSpec("JobTypeIndex", "job_type"),
      IndexSpec("LocationIndex", "city"),
      IndexSpec("CreatedAtIndex", "created_at")])
  }

  /** The request `create_job_categories_table` submits. */
  function JobCategoriesRequest(): (r: CreateTableRequest)
    ensures r == CreateTableRequest("JobCategories", PayPerRequest,
      [StringAttribute("id"), StringAttribute("category_name")],
      [HashKey("id")],
      [HashIndex("CategoryNameIndex", "category_name")])
  {
    TableRequest("JobCategories", [IndexSpec("CategoryNameIndex", "category_name")])
  }

  /** The request `create_job_applications_table` submits. */
  function JobApplicationsRequest(): (r: CreateTableRequest)
    ensures r == CreateTableRequest("JobApplications", PayPerRequest,
      [StringAttribute("id"), StringAttribute("job_posting_id"), StringAttribute("applicant_email"),
       StringAttribute("application_status")],
      [HashKey("id")],
      [HashIndex("JobPostingIndex", "job_posting_id"), HashIndex("ApplicantIndex", "applicant_email"),
       HashIndex("StatusIndex", "application_status")])
  {
    TableRequest("JobApplications", [
      IndexSpec("JobPostingIndex", "job_posting_id"),
      IndexSpec("ApplicantIndex", "applicant_email"),
      IndexSpec("StatusIndex", "application_status")])
  }

  /** The attribute names a request declares. */
  function DeclaredNames(request: CreateTableRequest): set<string>
  {
    var defs := request.attributeDefinitions;
    set i | 0 <= i < |defs| :: defs[i].attributeName
  }

  /** The attribute names a request uses as a key, of the table or of an index. */
  function KeyNames(request: CreateTableRequest): set<string>
  {
    var keys := request.keySchema;
    var indexes := request.globalSecondaryIndexes;
    (set i | 0 <= i < |keys| :: keys[i].attributeName)
    + (set i, j | 0 <= i < |indexes| && 0 <= j < |indexes[i].keySchema| :: indexes[i].keySchema[j].attributeName)
  }

  /**
    What every creator's request satisfies: billing per request; the declared
    attributes are exactly the key attributes, each declared once and as a string;
    the table's only key is the hash key `id`; index names are distinct, and each
    index has a single hash key and projects every attribute.
  */
  predicate WellFormed(request: CreateTableRequest)
  {
    var defs := request.attributeDefinitions;
    var indexes := request.globalSecondaryIndexes;
    && request.billingMode == PayPerRequest
    && DeclaredNames(request) == KeyNames(request)
    && (forall i, j :: 0 <= i < j < |defs| ==> defs[i].attributeName != defs[j].attributeName)
    && (forall i :: 0 <= i < |defs| ==> defs[i].attributeType == ScalarS)
    && request.keySchema == [HashKey("id")]
    && (forall i, j :: 0 <= i < j < |indexes| ==> indexes[i].indexName != indexes[j].indexName)
    && (forall i :: 0 <= i < |indexes| ==>
          |indexes[i].keySchema| == 1 && indexes[i].keySchema[0].keyType == Hash && indexes[i].projection == All)
  }

  /** Index names and key attributes that are distinct, and no index keyed on `id`, give a well-formed request. */
  lemma TableRequestWellFormed(tableName: string, indexes: seq<IndexSpec>)
    requires forall i, j :: 0 <= i < j < |indexes| ==>
      indexes[i].indexName != indexes[j].indexName && indexes[i].attribute != indexes[j].attribute
    requires forall i :: 0 <= i < |indexes| ==> indexes[i].attribute != "id"
    ensures WellFormed(TableRequest(tableName, indexes))
  {
    var r := TableRequest(tableName, indexes);
    var defs := r.attributeDefinitions;
    var gsis := r.globalSecondaryIndexes;
    assert forall i :: 0 < i < |defs| ==> defs[i] == StringAttribute(indexes[i - 1].attribute);
    forall n | n in DeclaredNames(r) ensures n in KeyNames(r) {
      var i :| 0 <= i < |defs| && defs[i].attributeName == n;
      if i == 0 {
        assert r.keySchema[0].attributeName == n;
      } else {
        assert gsis[i - 1].keySchema[0].attributeName == n;
      }
    }
    forall n | n in KeyNames(r) ensures n in DeclaredNames(r) {
      if n in (set i | 0 <= i < |r.keySchema| :: r.keySchema[i].attributeName) {
        assert defs[0].attributeName == n;
      } else {
        var i, j :| 0 <= i < |gsis| && 0 <= j < |gsis[i].keySchema| && gsis[i].keySchema[j].attributeName == n;
        assert defs[i + 1].attributeName == n;
      }
    }
  }

  lemma JobPostingsRequestWellFormed()
    ensures WellFormed(JobPostingsRequest())
  {
    TableRequestWellFormed("JobPostings", [
      IndexSpec("EmployerIndex", "employer_name"),
      IndexSpec("JobTypeIndex", "job_type"),
      IndexSpec("LocationIndex", "city"),
      IndexSpec("CreatedAtIndex", "created_at")]);
  }

  lemma JobCategoriesRequestWellFormed()
    ensures WellFormed(JobCategoriesRequest())
  {
    TableRequestWellFormed("JobCategories", [IndexSpec("CategoryNameIndex", "category_name")]);
  }

  lemma JobApplicationsRequestWellFormed()
    ensures WellFormed(JobApplicationsRequest())
  {
    TableRequestWellFormed("JobApplications", [
      IndexSpec("JobPostingIndex", "job_posting_id"),
      IndexSpec("ApplicantIndex", "applicant_email"),
      IndexSpec("StatusIndex", "application_status")]);
  }

  /** `JobPostings` has exactly the four indexes on employer, job type, city and creation time. */
  lemma JobPostingsIndexes()
    ensures JobPostingsRequest().attributeDefinitions == [StringAttribute("id"),
      StringAttribute("employer_name"), StringAttribute("job_type"), StringAttribute("city"),
      StringAttribute("created_at")]
    ensures var indexes := JobPostingsRequest().globalSecondaryIndexes;
      && |indexes| == 4
      && indexes[0].indexName == "EmployerIndex" && indexes[0].keySchema == [HashKey("employer_name")]
      && indexes[1].indexName == "JobTypeIndex" && indexes[1].keySchema == [HashKey("job_type")]
      && indexes[2].indexName == "LocationIndex" && indexes[2].keySchema == [HashKey("city")]
      && indexes[3].indexName == "CreatedAtIndex" && indexes[3].keySchema == [HashKey("created_at")]
  {
  }

  /**
    Every index key of `JobPostings` is an attribute `to_item` always writes, and
    writes as a string; the table is the one the entity names.
  */
  lemma IndexKeysWrittenAsStrings(jp: JobPostings.JobPosting)
    ensures JobPostingsRequest().tableName == JobPostings.TableName
    ensures var indexes := JobPostingsRequest().globalSecondaryIndexes;
      forall i :: 0 <= i < |indexes| ==>
        var key := indexes[i].keySchema[0].attributeName;
        key in JobPostings.EncodeItem(jp) && JobPostings.EncodeItem(jp)[key].S?
  {
    JobPostingsIndexes();
    JobPostings.EncodeItemEmployer(jp);
    JobPostings.EncodeItemLocation(jp);
    JobPostings.EncodeItemDetails(jp);
  }

  // ---------------------------------------------------------------------------
  // Skip if listed, create otherwise
  // ---------------------------------------------------------------------------

  const CreateFailurePrefix := "Failed to create "

  /** The error a creator returns when the service rejects its request: it starts with the table's name in context. */
  function CreateFailure(tableName: string, cause: string): (e: AppError)
    ensures e.DatabaseError?
    ensures CreateFailurePrefix + tableName + " table: " <= e.message
  {
    DatabaseError(CreateFailurePrefix + tableName + " table: " + DebugString(cause))
  }

  /** `s` occurs somewhere in `t`. */
  predicate Mentions(t: string, s: string)
  {
    exists i :: 0 <= i <= |t| && s <= t[i..]
  }

  /** A creator's error names its table. */
  lemma FailureNamesTable(tableName: string, cause: string)
    ensures Mentions(CreateFailure(tableName, cause).message, tableName)
  {
    var m := CreateFailure(tableName, cause).message;
    var i := |CreateFailurePrefix|;
    assert m[..i + |tableName|] == CreateFailurePrefix + tableName;
    assert tableName <= m[i..];
  }

  /**
    The body every creator shares, given the listing snapshot `listed`: a table
    already listed is skipped without a request; otherwise the one create request
    is sent, and its failure becomes a `DatabaseError` naming the table.
  */
  function CreateIfAbsent(env: Environment, listed: set<string>, s: StoreState, request: CreateTableRequest)
    : (st: Step<Result<(), AppError>>)
    ensures s.tables <= st.state.tables
    ensures st.result.Ok? ==> request.tableName in listed || request.tableName in st.state.tables
  {
    if request.tableName in listed then Step(Ok(()), s)
    else
      var created := CreateStep(env, s, request);
      match created.result
      case Ok(_) => Step(Ok(()), created.state)
      case Err(cause) => Step(Err(CreateFailure(request.tableName, cause)), created.state)
  }

  /** A listed table: `Ok`, and nothing is sent or changed. */
  lemma SkipWhenListed(env: Environment, listed: set<string>, s: StoreState, request: CreateTableRequest)
    requires request.tableName in listed
    ensures CreateIfAbsent(env, listed, s, request) == Step(Ok(()), s)
  {
  }

  /**
    An unlisted table: exactly one request, the given one, is sent; the result is `Ok`
    exactly when the service creates the table, which then exists with that schema and nothing else changes;
    on failure the tables are unchanged and the error names the table and carries the
    environment's text for the refusal.
  */
  lemma CreateWhenUnlisted(env: Environment, listed: set<string>, s: StoreState, request: CreateTableRequest)
    requires request.tableName !in listed
    ensures var st := CreateIfAbsent(env, listed, s, request);
      && st.state.log == s.log + [CreateTableCall(request)]
      && (st.result.Ok? <==> request.tableName !in s.tables && request.tableName !in env.rejected)
      && (st.result.Ok? ==>
            st.state.tables == s.tables + {request.tableName} && st.state.schemas == s.schemas[request.tableName := request])
      && (st.result.Err? ==> st.state.tables == s.tables && st.state.schemas == s.schemas)
      && (st.result.Err? ==>
            st.result.error.DatabaseError? && Mentions(st.result.error.message, request.tableName))
      && (st.result.Err? ==>
            st.result.error == CreateFailure(request.tableName, Refusal(env, s.tables, request.tableName)))
  {
    var created := CreateStep(env, s, request);
    if created.result.Err? {
      FailureNamesTable(request.tableName, created.result.error);
    }
  }

  /** `create_*_table`: the shared body, sent through the client. */
  method CreateTableIfAbsent(listed: set<string>, store: Store, request: CreateTableRequest)
    returns (r: Result<(), AppError>)
    modifies store
    ensures Step(r, store.State()) == CreateIfAbsent(store.env, listed, old(store.State()), request)
  {
    if request.tableName in listed {
      return Ok(());
    }
    var created := store.CreateTable(request);
    match created
    case Ok(_) => r := Ok(());
    case Err(cause) => r := Err(CreateFailure(request.tableName, cause));
  }

  /** `create_job_postings_table`. */
  method CreateJobPostingsTable(listed: set<string>, store: Store) returns (r: Result<(), AppError>)
    modifies store
    ensures Step(r, store.State()) == CreateIfAbsent(store.env, listed, old(store.State()), JobPostingsRequest())
  {
    r := CreateTableIfAbsent(listed, store, JobPostingsRequest());
  }

  /** `create_job_categories_table`. */
  method CreateJobCategoriesTable(listed: set<string>, store: Store) returns (r: Result<(), AppError>)
    modifies store
    ensures Step(r, store.State()) == CreateIfAbsent(store.env, listed, old(store.State()), JobCategoriesRequest())
  {
    r := CreateTableIfAbsent(listed, store, JobCategoriesRequest());
  }

  /** `create_job_applications_table`. */
  method CreateJobApplicationsTable(listed: set<string>, store: Store) returns (r: Result<(), AppError>)
    modifies store
    ensures Step(r, store.State()) == CreateIfAbsent(store.env, listed, old(store.State()), JobApplicationsRequest())
  {
    r := CreateTableIfAbsent(listed, store, JobApplicationsRequest());
  }
}
