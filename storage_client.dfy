/**
 * The storage client's model lookup and table naming: reserved models are
 * searched first and the client's own models only after them; a schema is
 * found by model and schema number; every schema gets its table name.
 */
module StorageClients {
  import opened Wrappers
  import opened JavaInts

  /** Which of the two built-in schema objects a schema is, if either. */
  datatype BuiltIn = ModelSchemaObject | MetaSchemaObject | NotBuiltIn

  /**
   * A schema: the model it belongs to, its number in that model, and, for
   * an internal schema, the name of its internal kind.
   */
  datatype Schema = Schema(modelID: Int64, modelSchemaNumber: Int32, internal: Option<string>, builtIn: BuiltIn)

  datatype Model = Model(id: Int64, schemata: seq<Schema>)

  datatype LookupError =
    | UnknownModel(modelID: Int64, schemaNumber: Option<Int32>, schemaName: Option<string>)
    | IndexOutOfBounds(index: Int32)

  /**
   * A storage client: the models `getReservedModels` returns, and the
   * models `getClientModel` knows, by ID (an ID it does not know is an
   * unknown-model failure).
   */
  datatype StorageClient = StorageClient(reservedModels: seq<Model>, clientModels: map<Int64, Model>)

  /** The base class's `getReservedModels`: no reserved models. */
  function BaseReservedModels(): (r: seq<Model>)
    ensures r == []
  {
    []
  }

  /** The position of the first model with the ID, if any. */
  function FirstWithID(models: seq<Model>, modelID: Int64): (r: Option<nat>)
    ensures r.Some? ==> r.value < |models| && models[r.value].id == modelID
    ensures r.Some? ==> forall j :: 0 <= j < r.value ==> models[j].id != modelID
    ensures r.None? ==> forall j :: 0 <= j < |models| ==> models[j].id != modelID
    decreases |models|
  {
    if |models| == 0 then None
    else if models[0].id == modelID then Some(0)
    else
      match FirstWithID(models[1..], modelID)
      case None => None
      case Some(k) => Some(k + 1)
  }

  /** `getClientModel`: the client's model with the ID, or an unknown-model failure. */
  function ClientModel(client: StorageClient, modelID: Int64): (r: Result<Model, LookupError>)
    ensures r.Success? <==> modelID in client.clientModels
    ensures r.Success? ==> r.value == client.clientModels[modelID]
    ensures r.Failure? ==> r.error == UnknownModel(modelID, None, None)
  {
    if modelID in client.clientModels then Success(client.clientModels[modelID])
    else Failure(UnknownModel(modelID, None, None))
  }

  /** What `getModel` answers: the first reserved model with the ID, else the client's. */
  function ModelLookup(client: StorageClient, modelID: Int64): Result<Model, LookupError>
  {
    match FirstWithID(client.reservedModels, modelID)
    case Some(k) => Success(client.reservedModels[k])
    case None => ClientModel(client, modelID)
  }

  /** `getModel`: search the reserved models in order, returning the first match; only then ask the client. */
  method GetModel(client: StorageClient, modelID: Int64) returns (r: Result<Model, LookupError>)
    ensures r == ModelLookup(client, modelID)
  {
    var models := client.reservedModels;
    var i := 0;
    while i < |models|
      invariant 0 <= i <= |models|
      invariant forall j :: 0 <= j < i ==> models[j].id != modelID
    {
      if models[i].id == modelID {
        FirstWithIDIsFirst(models, modelID, i);
        return Success(models[i]);
      }
      i := i + 1;
    }
    FirstWithIDIsFirst(models, modelID, |models|);
    r := ClientModel(client, modelID);
  }

  /** The search result is pinned down by the first position holding the ID. */
  lemma {:induction false} FirstWithIDIsFirst(models: seq<Model>, modelID: Int64, i: nat)
    requires i <= |models|
    requires forall j :: 0 <= j < i ==> models[j].id != modelID
    requires i < |models| ==> models[i].id == modelID
    ensures FirstWithID(models, modelID) == if i < |models| then Some(i) else None
    decreases |models|
  {
    if |models| > 0 && i > 0 {
      FirstWithIDIsFirst(models[1..], modelID, i - 1);
    }
  }

  /** A reserved model hides a client model with the same ID; a found model has the ID asked for. */
  lemma ReservedModelsComeFirst(client: StorageClient, modelID: Int64)
    ensures (exists m :: m in client.reservedModels && m.id == modelID) ==>
      ModelLookup(client, modelID).Success? && ModelLookup(client, modelID).value in client.reservedModels &&
      ModelLookup(client, modelID).value.id == modelID
    ensures (forall m :: m in client.reservedModels ==> m.id != modelID) ==>
      ModelLookup(client, modelID) == ClientModel(client, modelID)
  {
    var models := client.reservedModels;
    if exists m :: m in models && m.id == modelID {
      var m :| m in models && m.id == modelID;
      var k :| 0 <= k < |models| && models[k] == m;
      assert FirstWithID(models, modelID).Some?;
    }
  }

  /** With the base class's reserved models, `getModel` is `getClientModel`. */
  lemma BaseClientDelegates(clientModels: map<Int64, Model>, modelID: Int64)
    ensures ModelLookup(StorageClient(BaseReservedModels(), clientModels), modelID)
         == ClientModel(StorageClient(BaseReservedModels(), clientModels), modelID)
  {
  }

  /** `Model.getSchema`: the schema at the number, or an index failure. */
  function SchemaAt(model: Model, schemaNumber: Int32): (r: Result<Schema, LookupError>)
    ensures r.Success? <==> 0 <= schemaNumber < |model.schemata|
    ensures r.Success? ==> r.value == model.schemata[schemaNumber]
    ensures r.Failure? ==> r.error == IndexOutOfBounds(schemaNumber)
  {
    if 0 <= schemaNumber < |model.schemata| then Success(model.schemata[schemaNumber])
    else Failure(IndexOutOfBounds(schemaNumber))
  }

  /**
   * `getSchema`: the schema of the model found; an unknown model is
   * reported again with the schema number and name, an index failure
   * passes unchanged. The two-argument form passes no name.
   */
  method GetSchema(client: StorageClient, modelID: Int64, schemaNumber: Int32, schemaName: Option<string>)
    returns (r: Result<Schema, LookupError>)
    ensures ModelLookup(client, modelID).Failure? ==> r == Failure(UnknownModel(modelID, Some(schemaNumber), schemaName))
    ensures ModelLookup(client, modelID).Success? ==> r == SchemaAt(ModelLookup(client, modelID).value, schemaNumber)
    ensures r.Failure? && r.error.UnknownModel? ==> r.error.schemaNumber == Some(schemaNumber)
  {
    var model := GetModel(client, modelID);
    if model.Failure? {
      UnknownIsOnlyLookupFailure(client, modelID);
      return Failure(UnknownModel(modelID, Some(schemaNumber), schemaName));
    }
    r := SchemaAt(model.value, schemaNumber);
  }

  /** The model lookup fails only with an unknown-model failure, the one `getSchema` catches. */
  lemma UnknownIsOnlyLookupFailure(client: StorageClient, modelID: Int64)
    ensures ModelLookup(client, modelID).Failure? ==>
      ModelLookup(client, modelID).error == UnknownModel(modelID, None, None)
  {
  }

  // ---------------------------------------------------------------------
  // Table names
  // ---------------------------------------------------------------------

  predicate IsDigit(c: char)
  {
    '0' <= c <= '9'
  }

  function DigitChar(d: nat): (c: char)
    requires d < 10
    ensures IsDigit(c)
  {
    (('0' as int) + d) as char
  }

  /** The decimal digits of a natural number, no leading zeros. */
  function NatToString(n: nat): (r: string)
    ensures |r| > 0 && forall i :: 0 <= i < |r| ==> IsDigit(r[i])
    decreases n
  {
    if n < 10 then [DigitChar(n)] else NatToString(n / 10) + [DigitChar(n % 10)]
  }

  /** Java's decimal form of an integer: a minus sign for negatives. */
  function IntToString(i: int): (r: string)
    ensures |r| > 0 && forall k :: 0 <= k < |r| ==> IsDigit(r[k]) || r[k] == '-'
  {
    if i < 0 then "-" + NatToString(-i) else NatToString(i)
  }

  function ParseDigits(s: string): nat
    decreases |s|
  {
    if |s| == 0 then 0
    else
      var c := s[|s| - 1];
      ParseDigits(s[..|s| - 1]) * 10 + (if IsDigit(c) then (c as int) - ('0' as int) else 0)
  }

  function ParseInt(s: string): int
  {
    if |s| > 0 && s[0] == '-' then 0 - ParseDigits(s[1..]) as int else ParseDigits(s)
  }

  lemma {:induction false} NatToStringRoundTrip(n: nat)
    ensures ParseDigits(NatToString(n)) == n
    decreases n
  {
    if n >= 10 {
      NatToStringRoundTrip(n / 10);
      var s := NatToString(n);
      assert s[..|s| - 1] == NatToString(n / 10);
    }
  }

  /** The decimal form of an integer reads back as that integer. */
  lemma IntToStringRoundTrip(i: int)
    ensures ParseInt(IntToString(i)) == i
  {
    if i < 0 {
      NatToStringRoundTrip(-i);
      assert IntToString(i)[1..] == NatToString(-i);
    } else {
      NatToStringRoundTrip(i);
    }
  }

  /** `getTableName`. */
  function GetTableName(schema: Schema): (r: string)
    ensures schema.builtIn == ModelSchemaObject ==> r == "Models"
    ensures schema.builtIn == MetaSchemaObject ==> r == "Schemata"
    ensures schema.builtIn == NotBuiltIn && schema.internal.Some? ==> r == schema.internal.value
    ensures schema.builtIn == NotBuiltIn && schema.internal.None? ==> |r| > 6 && r[..6] == "Table_"
  {
    if schema.builtIn == ModelSchemaObject then "Models"
    else if schema.builtIn == MetaSchemaObject then "Schemata"
    else if schema.internal.None? then "Table_" + IntToString(schema.modelID) + "_" + IntToString(schema.modelSchemaNumber)
    else schema.internal.value
  }

  /** The position of the first underscore, or the length when there is none. */
  function FirstUnderscore(s: string): (r: nat)
    ensures r <= |s|
    decreases |s|
  {
    if |s| == 0 || s[0] == '_' then 0 else 1 + FirstUnderscore(s[1..])
  }

  lemma {:induction false} FirstUnderscoreOfJoin(x: string, y: string)
    requires forall k :: 0 <= k < |x| ==> x[k] != '_'
    ensures FirstUnderscore(x + "_" + y) == |x|
    decreases |x|
  {
    if |x| > 0 {
      assert (x + "_" + y)[1..] == x[1..] + "_" + y;
      FirstUnderscoreOfJoin(x[1..], y);
    }
  }

  /** Two strings without an underscore, each followed by an underscore and more, split the same way. */
  lemma SplitAtUnderscore(x: string, y: string, x': string, y': string)
    requires forall k :: 0 <= k < |x| ==> x[k] != '_'
    requires forall k :: 0 <= k < |x'| ==> x'[k] != '_'
    requires x + "_" + y == x' + "_" + y'
    ensures x == x' && y == y'
  {
    var s := x + "_" + y;
    FirstUnderscoreOfJoin(x, y);
    FirstUnderscoreOfJoin(x', y');
    assert x == s[..|x|] == x';
    assert y == s[|x| + 1..] == y';
  }

  /**
   * Ordinary schemas of different models or with different numbers get
   * different tables: the table name determines both.
   */
  lemma OrdinaryTableNamesAreDistinct(a: Schema, b: Schema)
    requires a.builtIn == NotBuiltIn && a.internal.None?
    requires b.builtIn == NotBuiltIn && b.internal.None?
    requires GetTableName(a) == GetTableName(b)
    ensures a.modelID == b.modelID && a.modelSchemaNumber == b.modelSchemaNumber
  {
    var x, y := IntToString(a.modelID), IntToString(a.modelSchemaNumber);
    var x', y' := IntToString(b.modelID), IntToString(b.modelSchemaNumber);
    assert "Table_" + x + "_" + y == "Table_" + (x + "_" + y);
    assert "Table_" + x' + "_" + y' == "Table_" + (x' + "_" + y');
    assert x + "_" + y == GetTableName(a)[6..] == GetTableName(b)[6..] == x' + "_" + y';
    SplitAtUnderscore(x, y, x', y');
    IntToStringRoundTrip(a.modelID);
    IntToStringRoundTrip(b.modelID);
    IntToStringRoundTrip(a.modelSchemaNumber);
    IntToStringRoundTrip(b.modelSchemaNumber);
  }

  /** An ordinary schema's table is never the Models or Schemata table. */
  lemma OrdinaryTableNamesAreNotReserved(schema: Schema)
    requires schema.builtIn == NotBuiltIn && schema.internal.None?
    ensures GetTableName(schema) != "Models" && GetTableName(schema) != "Schemata"
  {
    assert GetTableName(schema)[0] == 'T';
  }

  /** The table of schema 0 of model 12. */
  lemma TableNameExample()
    ensures GetTableName(Schema(12, 0, None, NotBuiltIn)) == "Table_12_0"
  {
    assert NatToString(12) == NatToString(1) + [DigitChar(2)];
  }
}
