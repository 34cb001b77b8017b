/**
  The part of the DynamoDB service that table provisioning talks to: the request
  types of `CreateTable`, and a store that answers `ListTables` and `CreateTable`.

  The service is deterministic here. An `Environment` fixes, once and for all,
  whether listing fails and which create requests the service rejects (with
  the text of the error); creating a table that already exists is rejected too, with
  a text of its own.
*/
module TableStore {
  import opened Wrappers

  datatype ScalarAttributeType = ScalarS | ScalarN | ScalarB

  datatype KeyType = Hash | Range

  datatype AttributeDefinition = AttributeDefinition(attributeName: string, attributeType: ScalarAttributeType)

  datatype KeySchemaElement = KeySchemaElement(attributeName: string, keyType: KeyType)

  datatype ProjectionType = All | KeysOnly | Include

  datatype GlobalSecondaryIndex = GlobalSecondaryIndex(
    indexName: string,
    keySchema: seq<KeySchemaElement>,
    projection: ProjectionType)

  datatype BillingMode = PayPerRequest | Provisioned

  datatype CreateTableRequest = CreateTableRequest(
    tableName: string,
    billingMode: BillingMode,
    attributeDefinitions: seq<AttributeDefinition>,
    keySchema: seq<KeySchemaElement>,
    globalSecondaryIndexes: seq<GlobalSecondaryIndex>)

  /** A request sent to the service. */
  datatype Call = ListTablesCall | CreateTableCall(request: CreateTableRequest)

  /**
    What the service answers that the model does not compute itself: whether listing
    fails, the error text for a create request naming an existing table, and the
    create requests rejected for other reasons, with their error texts.
  */
  datatype Environment = Environment(listError: Option<string>, inUse: string, rejected: map<string, string>)

  /** The tables that exist, the schema each was created with, and every request sent so far. */
  datatype StoreState = StoreState(tables: set<string>, schemas: map<string, CreateTableRequest>, log: seq<Call>)

  /** The result of one or more requests, and the state they leave. */
  datatype Step<R> = Step(result: R, state: StoreState)

  function CreateRequests(calls: seq<CreateTableRequest>): (r: seq<Call>)
    ensures |r| == |calls| && forall i :: 0 <= i < |calls| ==> r[i] == CreateTableCall(calls[i])
  {
    seq(|calls|, i requires 0 <= i < |calls| => CreateTableCall(calls[i]))
  }

  /** `ListTables`: records the request and, unless the environment makes it fail, returns the table names. */
  function ListStep(env: Environment, s: StoreState): (st: Step<Result<set<string>, string>>)
    ensures st.state == s.(log := s.log + [ListTablesCall])
    ensures st.result.Ok? <==> env.listError.None?
    ensures st.result.Ok? ==> st.result.value == s.tables
  {
    var after := s.(log := s.log + [ListTablesCall]);
    if env.listError.Some? then Step(Err(env.listError.value), after) else Step(Ok(s.tables), after)
  }

  /** The service's reason for refusing to create `name` while `tables` exist. */
  function Refusal(env: Environment, tables: set<string>, name: string): string
    requires name in tables || name in env.rejected
  {
    if name in tables then env.inUse else env.rejected[name]
  }

  /**
    `CreateTable`: records the request; it fails when the table exists already or the
    environment rejects it, and otherwise adds the table with the submitted schema.
  */
  function CreateStep(env: Environment, s: StoreState, request: CreateTableRequest): (st: Step<Result<(), string>>)
    ensures st.state.log == s.log + [CreateTableCall(request)]
    ensures st.result.Ok? <==> request.tableName !in s.tables && request.tableName !in env.rejected
    ensures st.result.Ok? ==>
      st.state.tables == s.tables + {request.tableName} && st.state.schemas == s.schemas[request.tableName := request]
    ensures st.result.Err? ==> st.state.tables == s.tables && st.state.schemas == s.schemas
    ensures st.result.Err? ==> st.result.error == Refusal(env, s.tables, request.tableName)
  {
    var name := request.tableName;
    var after := s.(log := s.log + [CreateTableCall(request)]);
    if name in s.tables then Step(Err(env.inUse), after)
    else if name in env.rejected then Step(Err(env.rejected[name]), after)
    else Step(Ok(()), after.(tables := s.tables + {name}, schemas := s.schemas[name := request]))
  }

  /** Tables only come into existence with a recorded schema. */
  predicate Recorded(s: StoreState)
  {
    s.tables == s.schemas.Keys
  }

  lemma CreatePreservesRecorded(env: Environment, s: StoreState, request: CreateTableRequest)
    requires Recorded(s)
    ensures Recorded(CreateStep(env, s, request).state)
    ensures request.tableName in CreateStep(env, s, request).state.tables ==>
      request.tableName in s.tables || CreateStep(env, s, request).state.schemas[request.tableName] == request
  {
  }

  /** The DynamoDB client, with the service behind it. */
  class Store {
    var tables: set<string>
    var schemas: map<string, CreateTableRequest>
    var log: seq<Call>
    const env: Environment

    function State(): StoreState
      reads this
    {
      StoreState(tables, schemas, log)
    }

    /** A store holding the `existing` tables with their schemas, and no requests yet. */
    constructor (existing: map<string, CreateTableRequest>, env: Environment)
      ensures State() == StoreState(existing.Keys, existing, [])
      ensures this.env == env
    {
      tables := existing.Keys;
      schemas := existing;
      log := [];
      this.env := env;
    }

    method ListTables() returns (r: Result<set<string>, string>)
      modifies this
      ensures Step(r, State()) == ListStep(env, old(State()))
    {
      log := log + [ListTablesCall];
      if env.listError.Some? {
        r := Err(env.listError.value);
      } else {
        r := Ok(tables);
      }
    }

    method CreateTable(request: CreateTableRequest) returns (r: Result<(), string>)
      modifies this
      ensures Step(r, State()) == CreateStep(env, old(State()), request)
    {
      log := log + [CreateTableCall(request)];
      var name := request.tableName;
      if name in tables {
        r := Err(env.inUse);
      } else if name in env.rejected {
        r := Err(env.rejected[name]);
      } else {
        tables := tables + {name};
        schemas := schemas[name := request];
        r := Ok(());
      }
    }
  }
}
