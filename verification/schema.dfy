/**
 * Schema provisioning (CassandraDDL.createSchema): the CQL statements as
 * data, what executing one does to the cluster's schema, and the session
 * that executes them in order.
 */
module Schema {

  import opened Wrappers

  const RetailKs: string := "retail_ks"

  datatype CqlType =
    | Ascii | Boolean | Double | Int | Uuid | TimeUuid | Timestamp
    | ListOf(element: CqlType)
    | Frozen(inner: CqlType)
    | UserType(typeName: string)

  datatype Column = Column(name: string, cqlType: CqlType)

  datatype SortOrder = Asc | Desc

  datatype ClusteringColumn = ClusteringColumn(name: string, order: SortOrder)

  /** A table: its columns, its partition key columns and its clustering columns. */
  datatype TableDef = TableDef(
    name: string, columns: seq<Column>, partitionKey: seq<string>, clustering: seq<ClusteringColumn>)

  /** A user-defined type. */
  datatype TypeDef = TypeDef(name: string, fields: seq<Column>)

  datatype KeyspaceDef = KeyspaceDef(
    replicationFactor: nat, types: map<string, TypeDef>, tables: map<string, TableDef>)

  /** The cluster's schema: keyspaces by name. */
  type Cluster = map<string, KeyspaceDef>

  /** The statements createSchema issues; the creates are all `if not exists`, the drop `if exists`. */
  datatype Statement =
    | DropKeyspace(keyspace: string)
    | CreateKeyspace(keyspace: string, replicationFactor: nat)
    | CreateType(keyspace: string, typeDef: TypeDef)
    | CreateTable(keyspace: string, table: TableDef)

  datatype CqlError =
    | InvalidRequest  // the statement names something that does not exist or is malformed
    | Unavailable     // the cluster did not answer

  /** The type of the column `name`, if declared. */
  function ColumnType(columns: seq<Column>, name: string): Option<CqlType>
    decreases |columns|
  {
    if columns == [] then None
    else if columns[0].name == name then Some(columns[0].cqlType)
    else ColumnType(columns[1..], name)
  }

  /** The user-defined types a column type mentions. */
  function TypesUsed(t: CqlType): set<string> {
    match t
    case ListOf(e) => TypesUsed(e)
    case Frozen(i) => TypesUsed(i)
    case UserType(n) => {n}
    case _ => {}
  }

  /** Every user-defined type the columns mention is declared. */
  predicate ColumnsUseKnownTypes(columns: seq<Column>, types: map<string, TypeDef>) {
    forall i :: 0 <= i < |columns| ==> TypesUsed(columns[i].cqlType) <= types.Keys
  }

  /** Key columns are declared, the partition key is not empty, clustering columns are not partition columns. */
  predicate KeysDeclared(t: TableDef) {
    |t.partitionKey| > 0
    && (forall i :: 0 <= i < |t.partitionKey| ==> ColumnType(t.columns, t.partitionKey[i]).Some?)
    && (forall i :: 0 <= i < |t.clustering| ==>
          ColumnType(t.columns, t.clustering[i].name).Some? && t.clustering[i].name !in t.partitionKey)
  }

  /** What one statement does to the schema. */
  function Execute(c: Cluster, st: Statement): (r: Result<Cluster, CqlError>)
    ensures st.DropKeyspace? || st.CreateKeyspace? ==> r.Ok?
    ensures r.Ok? && !st.DropKeyspace? ==> st.keyspace in r.value
  {
    match st
    case DropKeyspace(k) => Ok(c - {k})
    case CreateKeyspace(k, rf) =>
      if k in c then Ok(c) else Ok(c[k := KeyspaceDef(rf, map[], map[])])
    case CreateType(k, u) =>
      if k !in c then Err(InvalidRequest)
      else if u.name in c[k].types then Ok(c)
      else if !ColumnsUseKnownTypes(u.fields, c[k].types) then Err(InvalidRequest)
      else Ok(c[k := c[k].(types := c[k].types[u.name := u])])
    case CreateTable(k, t) =>
      if k !in c then Err(InvalidRequest)
      else if t.name in c[k].tables then Ok(c)
      else if !ColumnsUseKnownTypes(t.columns, c[k].types) || !KeysDeclared(t) then Err(InvalidRequest)
      else Ok(c[k := c[k].(tables := c[k].tables[t.name := t])])
  }

  /**
   * A create succeeds only once its keyspace exists, a new table only once
   * the types its columns use exist and its key columns are declared; no
   * statement touches another keyspace.
   */
  lemma ExecuteNeedsDependencies(c: Cluster, st: Statement)
    ensures Execute(c, st).Ok? && (st.CreateType? || st.CreateTable?) ==> st.keyspace in c
    ensures Execute(c, st).Ok? && st.CreateTable? && st.keyspace in c
            && st.table.name !in c[st.keyspace].tables ==>
      ColumnsUseKnownTypes(st.table.columns, c[st.keyspace].types) && KeysDeclared(st.table)
    ensures Execute(c, st).Ok? ==>
      forall k :: k in c && k != st.keyspace ==> k in Execute(c, st).value && Execute(c, st).value[k] == c[k]
  {
  }

  /** No statement of `stmts` names keyspace `k`. */
  predicate Untouched(stmts: seq<Statement>, k: string) {
    forall i :: 0 <= i < |stmts| ==> stmts[i].keyspace != k
  }

  /** A keyspace no statement names is named neither by the first statement nor by the rest. */
  lemma UntouchedTail(stmts: seq<Statement>)
    requires stmts != []
    ensures forall k {:trigger Untouched(stmts, k)} ::
      Untouched(stmts, k) ==> stmts[0].keyspace != k && Untouched(stmts[1..], k)
  {
    forall k | Untouched(stmts, k) ensures Untouched(stmts[1..], k) {
      forall i | 0 <= i < |stmts| - 1 ensures stmts[1..][i].keyspace != k {
        assert stmts[1..][i] == stmts[i + 1];
      }
    }
  }

  /** Executes statements in order; the first failure ends the run; keyspaces no statement names keep their definition. */
  function Run(stmts: seq<Statement>, c: Cluster): (r: Result<Cluster, CqlError>)
    ensures r.Ok? ==> forall k {:trigger Untouched(stmts, k)} ::
      k in c && Untouched(stmts, k) ==> k in r.value && r.value[k] == c[k]
    decreases |stmts|
  {
    if stmts == [] then Ok(c)
    else
      ExecuteNeedsDependencies(c, stmts[0]);
      UntouchedTail(stmts);
      match Execute(c, stmts[0])
      case Err(e) => Err(e)
      case Ok(c') => Run(stmts[1..], c')
  }

  /** Running a + [st] is running a, then st. */
  lemma {:induction false} RunSnoc(a: seq<Statement>, st: Statement, c: Cluster)
    ensures Run(a + [st], c) == match Run(a, c)
      case Err(e) => Err(e)
      case Ok(c') => Execute(c', st)
    decreases |a|
  {
    if a == [] {
      assert a + [st] == [st];
    } else {
      assert (a + [st])[1..] == a[1..] + [st];
      match Execute(c, a[0])
      case Err(_) =>
      case Ok(c') => RunSnoc(a[1..], st, c');
    }
  }

  // The statements of createSchema, in order.

  const ProductCatalog: TableDef := TableDef(
    "product_catalog",
    [Column("color", Ascii), Column("description", Ascii), Column("image", Ascii),
     Column("in_store_availability", Boolean), Column("manufacturer", Ascii),
     Column("model_number", Ascii), Column("name", Ascii), Column("regular_price", Double),
     Column("short_description", Ascii), Column("sku", Ascii), Column("thumbnail_image", Ascii),
     Column("upc", Ascii)],
    ["sku"], [])

  const OrderLineType: TypeDef := TypeDef(
    "order_line",
    [Column("sku", Ascii), Column("product_name", Ascii), Column("quantity", Int),
     Column("unit_price", Double), Column("total_price", Double)])

  const OrdersTable: TableDef := TableDef(
    "orders",
    [Column("customer_id", Uuid), Column("order_id", TimeUuid), Column("date", Timestamp),
     Column("order_lines", ListOf(Frozen(UserType("order_line"))))],
    ["customer_id"], [ClusteringColumn("order_id", Desc)])

  const Top50SellingProducts: TableDef := TableDef(
    "top50_selling_products",
    [Column("sku", Ascii), Column("sale_count", Int)],
    ["sku", "sale_count"], [])

  const TopSellingProductsByCustomer: TableDef := TableDef(
    "top_selling_products_by_customer",
    [Column("customer_id", Uuid), Column("sku", Ascii), Column("sale_count", Int)],
    ["customer_id"], [ClusteringColumn("sale_count", Desc)])

  function SchemaStatements(): (stmts: seq<Statement>)
    ensures |stmts| == 7 && stmts[0] == DropKeyspace(RetailKs)
    ensures forall k :: k != RetailKs ==> Untouched(stmts, k)
  {
    [ DropKeyspace(RetailKs),
      CreateKeyspace(RetailKs, 1),
      CreateTable(RetailKs, ProductCatalog),
      CreateType(RetailKs, OrderLineType),
      CreateTable(RetailKs, OrdersTable),
      CreateTable(RetailKs, Top50SellingProducts),
      CreateTable(RetailKs, TopSellingProductsByCustomer) ]
  }

  /** The keyspace createSchema leaves behind. */
  function RetailSchema(): KeyspaceDef {
    KeyspaceDef(
      1,
      map["order_line" := OrderLineType],
      map["product_catalog" := ProductCatalog, "orders" := OrdersTable,
          "top50_selling_products" := Top50SellingProducts,
          "top_selling_products_by_customer" := TopSellingProductsByCustomer])
  }

  /** product_catalog: keyed by sku, scalar columns only. */
  lemma ProductCatalogWellFormed()
    ensures KeysDeclared(ProductCatalog) && ColumnsUseKnownTypes(ProductCatalog.columns, map[])
  {
    ProductCatalogKey();
    ProductCatalogScalar();
  }

  /** No column of product_catalog uses a user-defined type. */
  lemma ProductCatalogScalar()
    ensures ColumnsUseKnownTypes(ProductCatalog.columns, map[])
  {
    var cols := ProductCatalog.columns;
    assert |cols| == 12;
    forall i | 0 <= i < 6 ensures TypesUsed(cols[i].cqlType) == {} {
      assert i == 0 || i == 1 || i == 2 || i == 3 || i == 4 || i == 5;
    }
    forall i | 6 <= i < 12 ensures TypesUsed(cols[i].cqlType) == {} {
      assert i == 6 || i == 7 || i == 8 || i == 9 || i == 10 || i == 11;
    }
  }

  /** The partition key column sku is declared as ascii. */
  lemma ProductCatalogKey()
    ensures ColumnType(ProductCatalog.columns, "sku") == Some(Ascii)
  {
    var cols := ProductCatalog.columns;
    assert cols[9..] == [Column("sku", Ascii), Column("thumbnail_image", Ascii), Column("upc", Ascii)];
    assert ColumnType(cols[9..], "sku") == Some(Ascii);
    assert ColumnType(cols[8..], "sku") == Some(Ascii);
    assert ColumnType(cols[7..], "sku") == Some(Ascii);
    assert ColumnType(cols[6..], "sku") == Some(Ascii);
    assert ColumnType(cols[5..], "sku") == Some(Ascii);
    assert ColumnType(cols[4..], "sku") == Some(Ascii);
    assert ColumnType(cols[3..], "sku") == Some(Ascii);
    assert ColumnType(cols[2..], "sku") == Some(Ascii);
    assert ColumnType(cols[1..], "sku") == Some(Ascii);
  }

  /** The order_line type needs no other user-defined type. */
  lemma OrderLineWellFormed()
    ensures ColumnsUseKnownTypes(OrderLineType.fields, map[])
  {
    var cols := OrderLineType.fields;
    forall i | 0 <= i < |cols| ensures TypesUsed(cols[i].cqlType) == {} {
      assert i == 0 || i == 1 || i == 2 || i == 3 || i == 4;
    }
  }

  /** orders: keyed by customer_id and order_id, its only user-defined type is order_line. */
  lemma OrdersWellFormed(types: map<string, TypeDef>)
    requires "order_line" in types
    ensures KeysDeclared(OrdersTable) && ColumnsUseKnownTypes(OrdersTable.columns, types)
  {
    var cols := OrdersTable.columns;
    forall i | 0 <= i < |cols| ensures TypesUsed(cols[i].cqlType) <= {"order_line"} {
      assert i == 0 || i == 1 || i == 2 || i == 3;
    }
    assert ColumnType(cols, "customer_id") == Some(Uuid);
    assert ColumnType(cols, "order_id") == Some(TimeUuid);
  }

  /** The two aggregate tables: declared keys, scalar columns. */
  lemma AggregatesWellFormed(types: map<string, TypeDef>)
    ensures KeysDeclared(Top50SellingProducts) && ColumnsUseKnownTypes(Top50SellingProducts.columns, types)
    ensures KeysDeclared(TopSellingProductsByCustomer)
    ensures ColumnsUseKnownTypes(TopSellingProductsByCustomer.columns, types)
  {
    var top50 := Top50SellingProducts.columns;
    forall i | 0 <= i < |top50| ensures TypesUsed(top50[i].cqlType) == {} {
      assert i == 0 || i == 1;
    }
    var byCustomer := TopSellingProductsByCustomer.columns;
    forall i | 0 <= i < |byCustomer| ensures TypesUsed(byCustomer[i].cqlType) == {} {
      assert i == 0 || i == 1 || i == 2;
    }
  }

  /** From a freshly created, empty retail_ks, the five creates build the retail keyspace. */
  lemma CreatesFromEmptyKeyspace(c2: Cluster)
    requires RetailKs in c2 && c2[RetailKs] == KeyspaceDef(1, map[], map[])
    ensures Run(SchemaStatements()[2..], c2) == Ok(c2[RetailKs := RetailSchema()])
  {
    ProductCatalogWellFormed();
    OrderLineWellFormed();
    OrdersWellFormed(map["order_line" := OrderLineType]);
    AggregatesWellFormed(map["order_line" := OrderLineType]);
    var s := SchemaStatements();
    var c3 := c2[RetailKs := KeyspaceDef(1, map[], map["product_catalog" := ProductCatalog])];
    var c4 := c3[RetailKs := KeyspaceDef(1, map["order_line" := OrderLineType],
                                          map["product_catalog" := ProductCatalog])];
    var c5 := c4[RetailKs := KeyspaceDef(1, map["order_line" := OrderLineType],
                                          map["product_catalog" := ProductCatalog, "orders" := OrdersTable])];
    var c6 := c5[RetailKs := KeyspaceDef(1, map["order_line" := OrderLineType],
                                          map["product_catalog" := ProductCatalog, "orders" := OrdersTable,
                                              "top50_selling_products" := Top50SellingProducts])];
    assert Execute(c2, s[2]) == Ok(c3);
    assert Execute(c3, s[3]) == Ok(c4);
    assert Execute(c4, s[4]) == Ok(c5);
    assert Execute(c5, s[5]) == Ok(c6);
    var c7 := c6[RetailKs := RetailSchema()];
    assert Execute(c6, s[6]) == Ok(c7);
    ReplaceTwice(c5, RetailKs, c6[RetailKs], RetailSchema());
    ReplaceTwice(c4, RetailKs, c5[RetailKs], RetailSchema());
    ReplaceTwice(c3, RetailKs, c4[RetailKs], RetailSchema());
    ReplaceTwice(c2, RetailKs, c3[RetailKs], RetailSchema());
    assert Run(s[6..], c6) == Ok(c7);
    assert Run(s[5..], c5) == Ok(c7);
    assert Run(s[4..], c4) == Ok(c7);
    assert Run(s[3..], c3) == Ok(c7);
  }

  /**
   * Whatever the schema before, createSchema succeeds, leaves every other
   * keyspace alone and replaces retail_ks by the provisioned keyspace: the
   * drop comes first, so nothing from an earlier run survives.
   */
  lemma RunFromAnyState(c: Cluster)
    ensures Run(SchemaStatements(), c) == Ok(c[RetailKs := RetailSchema()])
  {
    var s := SchemaStatements();
    var c1 := c - {RetailKs};
    var c2 := c1[RetailKs := KeyspaceDef(1, map[], map[])];
    assert Execute(c, s[0]) == Ok(c1);
    assert Execute(c1, s[1]) == Ok(c2);
    CreatesFromEmptyKeyspace(c2);
    RecreateAfterDrop(c, RetailKs, KeyspaceDef(1, map[], map[]), RetailSchema());
    assert Run(s[1..], c1) == Ok(c[RetailKs := RetailSchema()]);
  }

  /** Replacing a keyspace twice is replacing it with the second definition. */
  lemma ReplaceTwice(c: Cluster, k: string, first: KeyspaceDef, second: KeyspaceDef)
    ensures c[k := first][k := second] == c[k := second]
  {
    assert c[k := first][k := second].Keys == c[k := second].Keys;
  }

  /** Dropping a keyspace, creating it and then replacing it is replacing it. */
  lemma RecreateAfterDrop(c: Cluster, k: string, created: KeyspaceDef, final: KeyspaceDef)
    ensures (c - {k})[k := created][k := final] == c[k := final]
  {
    var lhs := (c - {k})[k := created][k := final];
    assert lhs.Keys == c[k := final].Keys;
  }

  /** Provisioning twice leaves the same schema as provisioning once. */
  lemma ProvisioningIdempotent(c: Cluster)
    ensures Run(SchemaStatements(), c).Ok?
    ensures Run(SchemaStatements(), Run(SchemaStatements(), c).value) == Run(SchemaStatements(), c)
  {
    RunFromAnyState(c);
    RunFromAnyState(c[RetailKs := RetailSchema()]);
    ReplaceTwice(c, RetailKs, RetailSchema(), RetailSchema());
  }

  /** The key layout of the provisioned keyspace. */
  predicate RetailLayout(ks: KeyspaceDef) {
    ks.replicationFactor == 1
    && "order_line" in ks.types
    && "product_catalog" in ks.tables && "orders" in ks.tables
    && "top50_selling_products" in ks.tables && "top_selling_products_by_customer" in ks.tables
    && ks.tables["product_catalog"].partitionKey == ["sku"]
    && ks.tables["product_catalog"].clustering == []
    && ks.tables["orders"].partitionKey == ["customer_id"]
    && ks.tables["orders"].clustering == [ClusteringColumn("order_id", Desc)]
    && ColumnType(ks.tables["orders"].columns, "order_lines") == Some(ListOf(Frozen(UserType("order_line"))))
    && ks.tables["top50_selling_products"].partitionKey == ["sku", "sale_count"]
    && ks.tables["top50_selling_products"].clustering == []
    && ks.tables["top_selling_products_by_customer"].partitionKey == ["customer_id"]
    && ks.tables["top_selling_products_by_customer"].clustering == [ClusteringColumn("sale_count", Desc)]
  }

  /** The provisioned keyspace has the key layout of createSchema's statements. */
  lemma RetailSchemaLayout()
    ensures RetailLayout(RetailSchema())
  {
    var ks := RetailSchema();
    assert ks.tables["product_catalog"] == ProductCatalog;
    assert ks.tables["orders"] == OrdersTable;
    assert ks.tables["top50_selling_products"] == Top50SellingProducts;
    assert ks.tables["top_selling_products_by_customer"] == TopSellingProductsByCustomer;
    assert ColumnType(OrdersTable.columns, "order_lines") == Some(ListOf(Frozen(UserType("order_line"))));
  }

  /** Whatever the schema before, createSchema provisions retail_ks with that key layout. */
  lemma ProvisionedLayout(c: Cluster)
    ensures Run(SchemaStatements(), c).Ok? && RetailKs in Run(SchemaStatements(), c).value
    ensures RetailLayout(Run(SchemaStatements(), c).value[RetailKs])
  {
    RunFromAnyState(c);
    RetailSchemaLayout();
  }

  /** Creating `orders` before its `order_line` type fails: the order of the statements matters. */
  lemma OrdersNeedOrderLine(c: Cluster)
    ensures Run([DropKeyspace(RetailKs), CreateKeyspace(RetailKs, 1), CreateTable(RetailKs, OrdersTable)], c)
         == Err(InvalidRequest)
  {
    var s := [DropKeyspace(RetailKs), CreateKeyspace(RetailKs, 1), CreateTable(RetailKs, OrdersTable)];
    var c2 := (c - {RetailKs})[RetailKs := KeyspaceDef(1, map[], map[])];
    assert Execute(c2, s[2]) == Err(InvalidRequest) by {
      assert OrdersTable.columns[3].cqlType == ListOf(Frozen(UserType("order_line")));
      assert !(TypesUsed(OrdersTable.columns[3].cqlType) <= c2[RetailKs].types.Keys);
    }
    assert Run(s[2..], c2) == Err(InvalidRequest);
    assert Run(s[1..], c - {RetailKs}) == Err(InvalidRequest);
  }

  /** A run that succeeds succeeds on every prefix. */
  lemma {:induction false} RunPrefixOk(a: seq<Statement>, b: seq<Statement>, c: Cluster)
    requires Run(a + b, c).Ok?
    ensures Run(a, c).Ok?
    decreases |a|
  {
    if a != [] {
      assert (a + b)[0] == a[0] && (a + b)[1..] == a[1..] + b;
      RunPrefixOk(a[1..], b, Execute(c, a[0]).value);
    }
  }

  /** In a run that succeeds, the statement after any prefix succeeds too. */
  lemma NextStatementSucceeds(stmts: seq<Statement>, c: Cluster, i: nat, c': Cluster)
    requires Run(stmts, c).Ok?
    requires i < |stmts| && Run(stmts[..i], c) == Ok(c')
    ensures Execute(c', stmts[i]).Ok?
  {
    assert stmts[..i + 1] == stmts[..i] + [stmts[i]];
    RunSnoc(stmts[..i], stmts[i], c);
    assert stmts == stmts[..i + 1] + stmts[i + 1..];
    RunPrefixOk(stmts[..i + 1], stmts[i + 1..], c);
  }

  /** The driver session; only the schema it holds is modelled. */
  class Session {

    var cluster: Cluster

    constructor (initial: Cluster)
      ensures cluster == initial
    {
      cluster := initial;
    }

    /**
     * `session.execute` of one schema statement. When the cluster does not
     * answer the statement fails with Unavailable and changes nothing.
     */
    method ExecuteStatement(st: Statement, answered: bool) returns (failure: Option<CqlError>)
      modifies this
      ensures !answered ==> failure == Some(Unavailable) && cluster == old(cluster)
      ensures answered ==> match Execute(old(cluster), st)
        case Ok(c') => failure == None && cluster == c'
        case Err(e) => failure == Some(e) && cluster == old(cluster)
    {
      if !answered {
        return Some(Unavailable);
      }
      match Execute(cluster, st)
      case Ok(c') =>
        cluster := c';
        failure := None;
      case Err(e) =>
        failure := Some(e);
    }

    /**
     * Executes statements in order; the first failure is thrown and ends the
     * sequence with the schema half built. `rejected` holds the numbers of
     * the statements the cluster does not answer.
     */
    method ExecuteInOrder(stmts: seq<Statement>, rejected: set<nat>)
      returns (executed: nat, failure: Option<CqlError>)
      modifies this
      ensures executed <= |stmts|
      ensures Run(stmts[..executed], old(cluster)) == Ok(cluster)
      ensures failure.None? <==> executed == |stmts|
      ensures failure.Some? ==>
        (executed in rejected && failure == Some(Unavailable))
        || (executed !in rejected && Execute(cluster, stmts[executed]) == Err(failure.value))
    {
      executed, failure := 0, None;
      while executed < |stmts|
        invariant executed <= |stmts|
        invariant Run(stmts[..executed], old(cluster)) == Ok(cluster)
        invariant failure == None
      {
        failure := ExecuteStatement(stmts[executed], executed !in rejected);
        if failure.Some? {
          return;
        }
        assert stmts[..executed + 1] == stmts[..executed] + [stmts[executed]];
        RunSnoc(stmts[..executed], stmts[executed], old(cluster));
        executed := executed + 1;
      }
      assert stmts[..executed] == stmts;
    }

    /**
     * createSchema: its statements in order. Only a statement the cluster
     * does not answer can stop it; otherwise retail_ks ends up provisioned.
     */
    method CreateSchema(rejected: set<nat>) returns (executed: nat, failure: Option<CqlError>)
      modifies this
      ensures executed <= |SchemaStatements()|
      ensures Run(SchemaStatements()[..executed], old(cluster)) == Ok(cluster)
      ensures failure.None? <==> executed == |SchemaStatements()|
      ensures failure.Some? ==> executed in rejected && failure == Some(Unavailable)
      ensures failure.None? ==> cluster == old(cluster)[RetailKs := RetailSchema()]
    {
      ghost var before := cluster;
      var stmts := SchemaStatements();
      executed, failure := ExecuteInOrder(stmts, rejected);
      RunFromAnyState(before);
      if failure.Some? && executed !in rejected {
        NextStatementSucceeds(stmts, before, executed, cluster);
      }
      if failure.None? {
        assert stmts[..executed] == stmts;
      }
    }
  }
}
