/**
 * Catalog load (CassandraDDL.loadJson): every product object of the parsed
 * document becomes one insert into `product_catalog` with a 48-hour TTL,
 * until the first exception, which ends the whole loop.
 */
module Catalog {

  import opened Wrappers
  import opened Decimal

  /** The values json-simple produces: Long for integers, Double for decimals. */
  datatype Json =
    | JNull
    | JBool(b: bool)
    | JLong(i: int)
    | JDouble(d: real)
    | JString(s: string)
    | JArray(items: seq<Json>)
    | JObject(fields: map<string, Json>)

  /** `USING ttl 172800`: catalog rows expire after 48 hours. */
  const ProductTtl: nat := 172800

  /** Every product is stored with this description, whatever the input says. */
  const StoredDescription: string := " "

  /** The twelve bound columns of one `product_catalog` insert; None is a bound null. */
  datatype ProductRow = ProductRow(
    color: Option<string>,
    description: Option<string>,
    image: Option<string>,
    inStoreAvailability: bool,
    manufacturer: Option<string>,
    modelNumber: Option<string>,
    name: Option<string>,
    regularPrice: real,
    shortDescription: Option<string>,
    sku: string,
    thumbnailImage: Option<string>,
    upc: Option<string>)

  /** One executed insert: the bound row and its TTL in seconds. */
  datatype Insert = Insert(row: ProductRow, ttl: nat)

  /** The exceptions loadJson catches (and prints). */
  datatype LoadError =
    | ParseFailed   // the file could not be read or parsed
    | ClassCast     // a value of another JSON type than the cast expects
    | NullPointer   // a null unboxed, or no "products" member
    | WriteFailed   // the store refused the insert

  /** `JSONObject.get`: null when the key is absent. */
  function Get(fields: map<string, Json>, key: string): Json {
    if key in fields then fields[key] else JNull
  }

  /** `(String) v` */
  function CastString(v: Json): Result<Option<string>, LoadError> {
    match v
    case JNull => Ok(None)
    case JString(s) => Ok(Some(s))
    case _ => Err(ClassCast)
  }

  /** `(Boolean) v` */
  function CastBoolean(v: Json): Result<Option<bool>, LoadError> {
    match v
    case JNull => Ok(None)
    case JBool(b) => Ok(Some(b))
    case _ => Err(ClassCast)
  }

  /** `(Double) v`: an integral JSON number is a Long and does not cast. */
  function CastDouble(v: Json): Result<Option<real>, LoadError> {
    match v
    case JNull => Ok(None)
    case JDouble(d) => Ok(Some(d))
    case _ => Err(ClassCast)
  }

  /** `(Long) v` */
  function CastLong(v: Json): Result<Option<int>, LoadError> {
    match v
    case JNull => Ok(None)
    case JLong(i) => Ok(Some(i))
    case _ => Err(ClassCast)
  }

  predicate StringOrNull(fields: map<string, Json>, key: string) {
    Get(fields, key).JNull? || Get(fields, key).JString?
  }

  /** The product objects that load without an exception. */
  predicate Convertible(item: Json) {
    item.JObject?
    && var f := item.fields;
       StringOrNull(f, "color") && StringOrNull(f, "description") && StringOrNull(f, "image")
       && Get(f, "inStoreAvailability").JBool?
       && StringOrNull(f, "manufacturer") && StringOrNull(f, "modelNumber") && StringOrNull(f, "name")
       && Get(f, "regularPrice").JDouble?
       && StringOrNull(f, "shortDescription")
       && Get(f, "sku").JLong?
       && StringOrNull(f, "thumbnailImage") && StringOrNull(f, "upc")
  }

  /** The text field `key` as it is bound. */
  function TextField(f: map<string, Json>, key: string): Option<string> {
    if Get(f, key).JString? then Some(Get(f, key).s) else None
  }

  /**
   * One loop iteration before the execute: the casts in source order (a null
   * item passes its cast and fails on the first `get`), then
   * `Long.toString(skuin)` and the bindings, where a null Boolean or Double
   * fails to unbox. The description is always bound to " ".
   */
  function ConvertItem(item: Json): (r: Result<ProductRow, LoadError>)
    ensures item.JNull? ==> r == Err(NullPointer)
    ensures r.Ok? ==> item.JObject? && r.value.description == Some(StoredDescription)
  {
    if item.JNull? then Err(NullPointer)
    else if !item.JObject? then Err(ClassCast)
    else
      var f := item.fields;
      var color :- CastString(Get(f, "color"));
      var description :- CastString(Get(f, "description"));
      var image :- CastString(Get(f, "image"));
      var inStore :- CastBoolean(Get(f, "inStoreAvailability"));
      var manufacturer :- CastString(Get(f, "manufacturer"));
      var modelNumber :- CastString(Get(f, "modelNumber"));
      var name :- CastString(Get(f, "name"));
      var price :- CastDouble(Get(f, "regularPrice"));
      var shortDescription :- CastString(Get(f, "shortDescription"));
      var skuIn :- CastLong(Get(f, "sku"));
      if skuIn.None? then Err(NullPointer)
      else
        var thumbnailImage :- CastString(Get(f, "thumbnailImage"));
        var upc :- CastString(Get(f, "upc"));
        if inStore.None? || price.None? then Err(NullPointer)
        else
          Ok(ProductRow(color, Some(StoredDescription), image, inStore.value, manufacturer,
                        modelNumber, name, price.value, shortDescription,
                        JavaToString(skuIn.value), thumbnailImage, upc))
  }


  /** An item converts exactly when it is an object whose fields have the types the casts expect. */
  lemma ConvertItemSucceeds(item: Json)
    ensures ConvertItem(item).Ok? <==> Convertible(item)
  {
    if Convertible(item) {
      ConvertibleConverts(item);
    }
  }

  lemma ConvertibleConverts(item: Json)
    requires Convertible(item)
    ensures ConvertItem(item).Ok?
  {
    var f := item.fields;
    assert CastString(Get(f, "color")).Ok? && CastString(Get(f, "description")).Ok?;
    assert CastString(Get(f, "image")).Ok? && CastBoolean(Get(f, "inStoreAvailability")).Ok?;
    assert CastString(Get(f, "manufacturer")).Ok? && CastString(Get(f, "modelNumber")).Ok?;
    assert CastString(Get(f, "name")).Ok? && CastDouble(Get(f, "regularPrice")).Ok?;
    assert CastString(Get(f, "shortDescription")).Ok? && CastLong(Get(f, "sku")).value.Some?;
    assert CastString(Get(f, "thumbnailImage")).Ok? && CastString(Get(f, "upc")).Ok?;
  }

  /**
   * A converted row binds the sku as its decimal text, the description as
   * " ", the flag and the price unboxed, and every other column as the text
   * the item holds for it (null when the item holds null or nothing).
   */
  lemma ConvertedRow(item: Json)
    requires ConvertItem(item).Ok?
    ensures var f := item.fields; var row := ConvertItem(item).value;
      row.sku == JavaToString(Get(f, "sku").i)
      && row.description == Some(StoredDescription)
      && row.regularPrice == Get(f, "regularPrice").d
      && row.inStoreAvailability == Get(f, "inStoreAvailability").b
      && row.name == TextField(f, "name") && row.color == TextField(f, "color")
      && row.image == TextField(f, "image") && row.upc == TextField(f, "upc")
      && row.manufacturer == TextField(f, "manufacturer")
      && row.modelNumber == TextField(f, "modelNumber")
      && row.shortDescription == TextField(f, "shortDescription")
      && row.thumbnailImage == TextField(f, "thumbnailImage")
  {
    ConvertItemSucceeds(item);
    var f := item.fields;
    assert CastString(Get(f, "color")) == Ok(TextField(f, "color"));
    assert CastString(Get(f, "image")) == Ok(TextField(f, "image"));
    assert CastString(Get(f, "manufacturer")) == Ok(TextField(f, "manufacturer"));
    assert CastString(Get(f, "modelNumber")) == Ok(TextField(f, "modelNumber"));
    assert CastString(Get(f, "name")) == Ok(TextField(f, "name"));
    assert CastString(Get(f, "shortDescription")) == Ok(TextField(f, "shortDescription"));
    assert CastString(Get(f, "thumbnailImage")) == Ok(TextField(f, "thumbnailImage"));
    assert CastString(Get(f, "upc")) == Ok(TextField(f, "upc"));
  }

  /**
   * `(JSONArray) ((JSONObject) obj).get("products")`, then its iterator: the
   * items of the "products" array; a document that could not be read fails
   * to parse, a null document or a missing or null "products" member fails
   * on the next call, and any other shape fails its cast.
   */
  function ProductItems(parsed: Option<Json>): (r: Result<seq<Json>, LoadError>)
    ensures r.Ok? <==> parsed.Some? && parsed.value.JObject?
                       && Get(parsed.value.fields, "products").JArray?
    ensures r.Ok? ==> r.value == Get(parsed.value.fields, "products").items
    ensures r == Err(ParseFailed) <==> parsed.None?
    ensures r == Err(NullPointer) <==>
      parsed == Some(JNull) || (parsed.Some? && parsed.value.JObject? && Get(parsed.value.fields, "products").JNull?)
  {
    match parsed
    case None => Err(ParseFailed)
    case Some(JNull) => Err(NullPointer)
    case Some(JObject(f)) =>
      (match Get(f, "products")
       case JArray(items) => Ok(items)
       case JNull => Err(NullPointer)
       case _ => Err(ClassCast))
    case Some(_) => Err(ClassCast)
  }

  /** Each insert holds the row its item converts to, with the product TTL, and the store accepted it. */
  predicate Accepted(items: seq<Json>, rejected: set<nat>, inserts: seq<Insert>)
    requires |inserts| <= |items|
  {
    forall i :: 0 <= i < |inserts| ==>
      ConvertItem(items[i]) == Ok(inserts[i].row) && inserts[i].ttl == ProductTtl
      && i !in rejected
  }

  lemma AcceptedSnoc(items: seq<Json>, rejected: set<nat>, inserts: seq<Insert>, row: ProductRow)
    requires |inserts| < |items| && Accepted(items, rejected, inserts)
    requires ConvertItem(items[|inserts|]) == Ok(row) && |inserts| !in rejected
    ensures Accepted(items, rejected, inserts + [Insert(row, ProductTtl)])
  {
    var next := inserts + [Insert(row, ProductTtl)];
    forall i | 0 <= i < |next|
      ensures ConvertItem(items[i]) == Ok(next[i].row) && next[i].ttl == ProductTtl && i !in rejected
    {
      if i < |inserts| {
        assert next[i] == inserts[i];
      }
    }
  }

  /**
   * What the loop leaves behind: the inserts of the leading items that
   * converted and were accepted, in order, with the row counter equal to
   * their number; the loop ran to the end or stopped at the first failure.
   */
  predicate Loaded(items: seq<Json>, rejected: set<nat>,
                   rowCounter: nat, inserts: seq<Insert>, failure: Option<LoadError>)
  {
    rowCounter == |inserts| <= |items|
    && Accepted(items, rejected, inserts)
    && (failure.None? <==> rowCounter == |items|)
    && (failure.Some? ==>
          match ConvertItem(items[rowCounter])
          case Err(e) => failure == Some(e)
          case Ok(_) => rowCounter in rejected && failure == Some(WriteFailed))
  }

  /**
   * loadJson over an already parsed document. `rejected` holds the numbers
   * of the inserts the store refuses. The returned counter counts the
   * completed inserts; the exception, if any, is the one printed.
   */
  method LoadJson(parsed: Option<Json>, rejected: set<nat>)
    returns (rowCounter: nat, inserts: seq<Insert>, failure: Option<LoadError>)
    ensures ProductItems(parsed).Err? ==>
      rowCounter == 0 && inserts == [] && failure == Some(ProductItems(parsed).error)
    ensures ProductItems(parsed).Ok? ==>
      Loaded(ProductItems(parsed).value, rejected, rowCounter, inserts, failure)
  {
    rowCounter, inserts, failure := 0, [], None;
    var itemList := ProductItems(parsed);
    if itemList.Err? {
      failure := Some(itemList.error);
      return;
    }
    var items := itemList.value;
    while rowCounter < |items|
      invariant rowCounter == |inserts| <= |items|
      invariant Accepted(items, rejected, inserts)
    {
      var row := ConvertItem(items[rowCounter]);
      if row.Err? {
        failure := Some(row.error);
        return;
      }
      if rowCounter in rejected {
        failure := Some(WriteFailed);
        return;
      }
      AcceptedSnoc(items, rejected, inserts, row.value);
      inserts := inserts + [Insert(row.value, ProductTtl)];
      rowCounter := rowCounter + 1;
    }
  }

  /** Every stored row has a non-empty sku that reads back as the input's number, and description " ". */
  lemma LoadedRows(items: seq<Json>, rejected: set<nat>,
                   rowCounter: nat, inserts: seq<Insert>, failure: Option<LoadError>)
    requires Loaded(items, rejected, rowCounter, inserts, failure)
    ensures forall i :: 0 <= i < |inserts| ==>
      items[i].JObject? && Get(items[i].fields, "sku").JLong?
      && ParseJavaLong(inserts[i].row.sku) == Some(Get(items[i].fields, "sku").i)
      && |inserts[i].row.sku| > 0
      && inserts[i].row.description == Some(StoredDescription)
      && inserts[i].ttl == 172800
  {
    forall i | 0 <= i < |inserts|
      ensures items[i].JObject? && Get(items[i].fields, "sku").JLong?
      ensures ParseJavaLong(inserts[i].row.sku) == Some(Get(items[i].fields, "sku").i)
    {
      assert ConvertItem(items[i]) == Ok(inserts[i].row);
      ConvertItemSucceeds(items[i]);
      ConvertedRow(items[i]);
      JavaToStringRoundTrip(Get(items[i].fields, "sku").i);
    }
  }

  /**
   * The catalog table after the inserts: sku is the primary key, so a later
   * insert with the same sku replaces the earlier row.
   */
  function CatalogTable(inserts: seq<Insert>): map<string, ProductRow>
    decreases |inserts|
  {
    if inserts == [] then map[]
    else
      var last := inserts[|inserts| - 1].row;
      CatalogTable(inserts[..|inserts| - 1])[last.sku := last]
  }

  /** The table is keyed by sku and holds every inserted sku. */
  lemma {:induction false} CatalogTableKeyedBySku(inserts: seq<Insert>)
    ensures forall sku :: sku in CatalogTable(inserts) ==> CatalogTable(inserts)[sku].sku == sku
    ensures forall i :: 0 <= i < |inserts| ==> inserts[i].row.sku in CatalogTable(inserts)
    decreases |inserts|
  {
    if inserts != [] {
      var front := inserts[..|inserts| - 1];
      CatalogTableKeyedBySku(front);
      assert forall i :: 0 <= i < |front| ==> inserts[i] == front[i];
    }
  }

  /** Because sku is the primary key, the table has at most as many rows as inserts. */
  lemma {:induction false} CatalogTableSize(inserts: seq<Insert>)
    ensures |CatalogTable(inserts)| <= |inserts|
    decreases |inserts|
  {
    if inserts != [] {
      var front := inserts[..|inserts| - 1];
      CatalogTableSize(front);
      var last := inserts[|inserts| - 1].row;
      assert CatalogTable(inserts).Keys == CatalogTable(front).Keys + {last.sku};
    }
  }
}
