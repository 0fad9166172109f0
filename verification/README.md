# CassandraDDL data generator, modelled in Dafny

This project models `CassandraDDL`, the retail data generator. The generator does three things:

1. It provisions the `retail_ks` keyspace (createSchema).
2. It loads a product catalog from a BestBuy JSON export (loadJson).
3. It places 100001 random orders against that catalog (placeOrders).

The modules follow the program's parts:

- `Wrappers`: `Option` and `Result`.
- `Decimal`: Java's `Integer.toString` / `Long.toString`, with the parse that undoes them.
- `Customers`: the customer id the order loop builds. A draw in [700, 800] is appended to the fixed prefix `a4a70900-24e1-11df-8924-001ff3591`.
- `Schema`: the schema statements as data.
  - `Execute` and `Run` give the effect of each statement on the cluster's schema.
  - A `Session` class holds that schema and executes the statements in order.
- `Catalog`: loadJson over an already parsed JSON document.
  - The casts run in source order. `Long.toString` of a null sku throws NullPointerException between the sku cast and the thumbnailImage cast. Then come the bindings, then one insert per product with a TTL of 172800 seconds.
  - The first exception ends the load.
- `Orders`: placeOrders.
  - It builds the product array from the catalog rows.
  - Each iteration picks a customer, a quantity and a product, then builds one order.
  - The driver loop runs 100001 times and prints a checkpoint every 1000 iterations.

Randomness, time-based ids, the write time stamp and the store's answers are parameters.

- `Draws` holds the values `nextInt` returned.
- `Tick` adds the order id and date.
- `rejected` holds the numbers of the writes the store refuses.

The model follows the code where it differs from its comments (the header at lines 9-12 and the comments at lines 212, 219 and 226):

- The header comment promises 100 customers. `nextInt((800 - 700) + 1) + 700` draws 101, and `Customers.PoolSize` proves 101 distinct ids.
- The quantity clamp at lines 221-223 never fires. `nextInt(99) + 1` already lies in 1..99.
- The product index is `nextInt(n) + 1`, clamped to 99. Index 0 is never chosen. With 1 to 99 products, the last draw reads one entry past the array (`Orders.SmallCatalogLastDrawFails`).
- No `try` surrounds the order insert (lines 238-255). A refused write ends placeOrders; the model does not skip that order and carry on.
- loadJson's `catch` lies outside its `while` (lines 125-173). The first failing product ends the load, and the returned counter counts the inserts done before it.

## Model

| member | source | states |
|---|---|---|
| Decimal.JavaToString | src/com/datastax/robotoil/CassandraDDL.java:146 | The text is never empty, and it starts with a digit exactly when the number is non-negative |
| Decimal.JavaToStringRoundTrip | src/com/datastax/robotoil/CassandraDDL.java:145-146 | Parsing `Long.toString(x)` gives `x` back for every long, negative ones included |
| Decimal.JavaToStringInjective | src/com/datastax/robotoil/CassandraDDL.java:146 | Distinct numbers get distinct decimal texts, so distinct JSON skus stay distinct keys |
| Customers.CustomerFromDraw | src/com/datastax/robotoil/CassandraDDL.java:213 | The customer number lies in [700, 800] for every value `nextInt(101)` can return |
| Customers.EncodeCustomer | src/com/datastax/robotoil/CassandraDDL.java:214-215 | The id built for a pool number is 36 characters long and a canonical lower-case UUID text |
| Customers.EncodedLayout | src/com/datastax/robotoil/CassandraDDL.java:214-216 | A customer id has 36 characters: the 33-character fixed prefix, then the three digits of the number. It is a canonical 8-4-4-4-12 lower-case hex UUID text, so `UUID.fromString` accepts it |
| Customers.DecodeCustomer | src/com/datastax/robotoil/CassandraDDL.java:213-216 | Whatever it decodes is a customer number of the pool |
| Customers.DecodeEncode | src/com/datastax/robotoil/CassandraDDL.java:213-216 | Decoding the id built for customer `c` gives `c` back |
| Customers.EncodeDecode | src/com/datastax/robotoil/CassandraDDL.java:213-216 | Every id that decodes is exactly the id built for the decoded number |
| Customers.EncodeInjective | src/com/datastax/robotoil/CassandraDDL.java:213-216 | Two draws give the same id if and only if they drew the same number |
| Customers.PoolSize | src/com/datastax/robotoil/CassandraDDL.java:212-216 | The generator produces exactly 101 distinct customer ids, not the 100 its comment promises |
| Orders.QuantityFromDraw | src/com/datastax/robotoil/CassandraDDL.java:219-223 | The quantity is the draw plus one, always in 1..99; the clamp above 100 never changes it |
| Orders.ProductIndex | src/com/datastax/robotoil/CassandraDDL.java:225-230 | The index lies in 1..min(n, 99). It is inside the array exactly when there are more than 99 products or the draw was not the last one |
| Orders.SelectableIndicesRange | src/com/datastax/robotoil/CassandraDDL.java:227-230 | The indices some draw can produce are exactly 1..min(n, 99): entry 0 is never ordered, and neither is any entry above 99 |
| Orders.NameText | src/com/datastax/robotoil/CassandraDDL.java:250 | String concatenation writes a present name as itself and a null name as "null", so a null name and the name "null" end up the same |
| Orders.PlaceOne | src/com/datastax/robotoil/CassandraDDL.java:212-255 | A successful iteration builds a one-line order carrying the tick's order id and date |
| Orders.PlaceOneOutcome | src/com/datastax/robotoil/CassandraDDL.java:212-255 | One iteration has exactly four outcomes. It fails on an empty product array (`nextInt(0)`). It runs past the end exactly when the index equals the length. It fails on a null entry. Otherwise it succeeds |
| Orders.PlaceOneOrder | src/com/datastax/robotoil/CassandraDDL.java:212-253 | A successful iteration builds the order for the drawn customer and quantity, with the tick's order id and date. Its line total is quantity times unit price, and its sku, name and unit price are those of the entry the draw selects. A null name is written as the text "null" |
| Orders.PlaceOneValid | src/com/datastax/robotoil/CassandraDDL.java:212-253 | Every order an iteration builds is valid: one line, a customer id that decodes to a pool number, a quantity in 1..99, and a line taken from some product entry 1..99, with a null name written as "null" |
| Orders.LargeCatalogNeverFails | src/com/datastax/robotoil/CassandraDDL.java:225-235 | With at least 100 filled entries, every iteration builds its order |
| Orders.SmallCatalogLastDrawFails | src/com/datastax/robotoil/CassandraDDL.java:225-234 | With 1 to 99 entries, the last draw reads one past the end of the array |
| Orders.Checkpoints | src/com/datastax/robotoil/CassandraDDL.java:200-203 | The progress lines of the first m iterations are strictly increasing iteration numbers below m, each a multiple of 1000 |
| Orders.CheckpointsAreMultiples | src/com/datastax/robotoil/CassandraDDL.java:200-203 | After m iterations, the k-th progress line is k*1000, and there are ceil(m/1000) of them |
| Orders.CheckpointMembership | src/com/datastax/robotoil/CassandraDDL.java:200-203 | A progress line is printed at iteration i if and only if i < m and i % 1000 == 0 |
| Orders.FullRunCheckpoints | src/com/datastax/robotoil/CassandraDDL.java:200-203 | A full run prints 101 progress lines, from 0 to 100000 |
| Orders.GeneratedOrdersValid | src/com/datastax/robotoil/CassandraDDL.java:200-255 | Every order the loop writes is a valid order over the product array |
| Orders.GenerateOrders | src/com/datastax/robotoil/CassandraDDL.java:196-256 | The orders written are those of the first iterations, in order, with their checkpoints. A full run writes 100001 of them. Otherwise the loop stopped at the first iteration that threw, or whose write was refused, after printing that iteration's checkpoint |
| Orders.Materialized | src/com/datastax/robotoil/CassandraDDL.java:183-194 | The array has n entries. Entry k holds row k when there is such a row, and is null otherwise |
| Orders.BuildProductList | src/com/datastax/robotoil/CassandraDDL.java:181-194 | The fresh array has `getAvailableWithoutFetching` entries. Its first ones hold the rows in result order and the rest stay null. More rows than entries run off the end |
| Orders.PlaceOrders | src/com/datastax/robotoil/CassandraDDL.java:179-256 | An overflowing result ends placeOrders before any order. Otherwise the order loop runs over the materialized product array as GenerateOrders states |
| Catalog.ConvertItem | src/com/datastax/robotoil/CassandraDDL.java:133-164 | A null product throws NullPointerException. A product that converts is a JSON object, and its row's description is " " |
| Catalog.ConvertItemSucceeds | src/com/datastax/robotoil/CassandraDDL.java:133-164 | A product converts without exception if and only if it is an object in which each cast field is null or of the cast's type, the sku is a non-null integer, and inStoreAvailability and regularPrice are non-null |
| Catalog.ConvertedRow | src/com/datastax/robotoil/CassandraDDL.java:136-164 | The bound row has the sku as its decimal text, the description as " ", and the availability and price unboxed. Every other column holds the item's text, or null |
| Catalog.ProductItems | src/com/datastax/robotoil/CassandraDDL.java:126-131 | The items of the "products" array. An unreadable document fails to parse. A null document, or a missing or null member, throws NullPointerException. Any other shape fails its cast |
| Catalog.LoadJson | src/com/datastax/robotoil/CassandraDDL.java:106-176 | The inserts are those of the leading products, in order, each with TTL 172800. The returned counter equals their number. The load ran to the end, or stopped at the first product that threw or whose write was refused |
| Catalog.LoadedRows | src/com/datastax/robotoil/CassandraDDL.java:120-162 | Every stored row came from an object with an integer sku. Its sku text is non-empty and parses back to that number, its description is " ", and its TTL is 48 hours |
| Catalog.CatalogTableKeyedBySku | src/com/datastax/robotoil/CassandraDDL.java:53-67 | In the table built from the inserts, every row sits under its own sku and every inserted sku is present |
| Catalog.CatalogTableSize | src/com/datastax/robotoil/CassandraDDL.java:53-67 | Because sku is the primary key, the table has at most as many rows as inserts |
| Schema.SchemaStatements | src/com/datastax/robotoil/CassandraDDL.java:49-102 | createSchema sends seven statements. The first drops retail_ks, and no statement names any other keyspace |
| Schema.Execute | src/com/datastax/robotoil/CassandraDDL.java:49-102 | Dropping or creating a keyspace always succeeds. Any other statement that succeeds leaves its keyspace in the schema |
| Schema.Run | src/com/datastax/robotoil/CassandraDDL.java:49-102 | A run that succeeds leaves every keyspace no statement names exactly as it was |
| Schema.ExecuteNeedsDependencies | src/com/datastax/robotoil/CassandraDDL.java:48-103 | A create succeeds only once its keyspace exists. A new table also needs its column types to exist and its key columns to be declared. No statement touches another keyspace |
| Schema.ProductCatalogWellFormed | src/com/datastax/robotoil/CassandraDDL.java:53-67 | product_catalog declares its key column sku and uses no user-defined type |
| Schema.OrderLineWellFormed | src/com/datastax/robotoil/CassandraDDL.java:70-76 | The order_line type uses no other user-defined type |
| Schema.OrdersWellFormed | src/com/datastax/robotoil/CassandraDDL.java:79-86 | orders declares customer_id and order_id. Once order_line exists, all its column types are known |
| Schema.AggregatesWellFormed | src/com/datastax/robotoil/CassandraDDL.java:89-102 | The two aggregate tables declare their key columns and use only scalar types |
| Schema.CreatesFromEmptyKeyspace | src/com/datastax/robotoil/CassandraDDL.java:53-103 | In a new, empty retail_ks, the five creates succeed in their order and build the retail keyspace |
| Schema.RunFromAnyState | src/com/datastax/robotoil/CassandraDDL.java:48-103 | From any prior schema, the statements succeed and replace retail_ks by the provisioned keyspace. Every other keyspace is left as it was; nothing of an earlier retail_ks survives the drop |
| Schema.ProvisioningIdempotent | src/com/datastax/robotoil/CassandraDDL.java:48-103 | Running createSchema twice leaves the same schema as running it once |
| Schema.RetailSchemaLayout | src/com/datastax/robotoil/CassandraDDL.java:53-102 | The provisioned keys are as follows. product_catalog is keyed by sku. orders is keyed by customer_id, then order_id descending, and its order_lines are a list of frozen order_line. top50 has the composite partition key (sku, sale_count). top_selling_products_by_customer is keyed by customer_id, then sale_count descending |
| Schema.ProvisionedLayout | src/com/datastax/robotoil/CassandraDDL.java:48-103 | After createSchema from any state, retail_ks exists with that key layout |
| Schema.OrdersNeedOrderLine | src/com/datastax/robotoil/CassandraDDL.java:70-87 | Creating orders before the order_line type fails, so the statement order matters |
| Schema.Session.ExecuteStatement | src/com/datastax/robotoil/CassandraDDL.java:49 | An answered statement applies its effect or fails with the schema unchanged. An unanswered one throws Unavailable and changes nothing |
| Schema.Session.ExecuteInOrder | src/com/datastax/robotoil/CassandraDDL.java:48-103 | The schema is that of the statements executed so far. The run stops at the first failure, and the failure is the cause: an unanswered statement or an invalid one |
| Schema.Session.CreateSchema | src/com/datastax/robotoil/CassandraDDL.java:48-104 | Only an unanswered statement can stop createSchema, and the schema is then that of the statements before it. Otherwise retail_ks ends up provisioned and nothing else changes |

## Left out

- connect, close and main (lines 30-45 and 260 onward): cluster bootstrapping, host listing and argument handling do no computation the model needs.
- JSON text parsing and file reading: `LoadJson` takes the parsed document as a `Json` value, or `None` when reading or parsing failed.
- `java.util.Random`: the values `nextInt` returns are parameters, limited to the ranges `nextInt` documents.
- `Thread.sleep` and the interrupt it may raise: the pause changes no state the model tracks.
- `UUIDs.timeBased()` and `dateof(now())`: opaque values passed in with each iteration.
- Floating point: prices are reals. `Double.toString` followed by `Double.parseDouble` is taken to give the same value back, and the product `quantity * price` is exact.
- Catalog.ConvertItem: the text columns of product_catalog are `ascii` (lines 54-65), and the driver refuses or mangles a non-ASCII value bound with `setString`, depending on its version: it throws InvalidTypeException, or it replaces each such character by `?`. The model binds the Java string as it is, so `ConvertItemSucceeds` and `ConvertedRow` describe ASCII text. A refused bind can be expressed through `rejected`, which ends the load as the catch at line 171 does.
- The CQL text of the statements and of the order insert: statements are modelled as data. The quoting of product names inside the generated insert is not modelled: a name holding a quote character is taken to be written as it is.
- The store's answers: a write either is accepted or fails (`rejected`); timeouts, retries and partial writes are not modelled.
- `session.prepare` in loadJson (line 107) and the product query in placeOrders (line 181) lie outside any `try`. Their failure is not modelled.
- The result's paging: `getAvailableWithoutFetching` is a parameter (`available`), and the rows are the ones the result yields.
- TTL expiry and the storage engine's ordering of clustering columns: the model records the TTL and the declared clustering order only.
- Console output other than the progress checkpoints: the printed stack trace and the table-created lines are not modelled.
