/** How the layers meet: the JSON a client sends is the body the POST route
    reads, and the envelope a route answers with is what the page and the
    store read back. */
module Integration {
  import opened JsValues
  import opened Text
  import opened Catalog
  import opened ProductStore
  import opened HomePage
  import opened CreatePage
  import opened ProductsRoute

  /** `JSON.parse(JSON.stringify(p))` as the POST route reads it; `NaN`
      serialises as `null`, and there is no category. */
  function PayloadBody(p: NewProduct): (b: RequestBody)
    ensures b.Object? && b.name == Str(p.name) && b.image == Str(p.image) && b.category == Undefined
    ensures p.price.NaN? ==> b.price == Null
    ensures p.price.Finite? ==> b.price == Num(p.price)
  {
    Object(Str(p.name), if p.price.NaN? then Null else Num(p.price), Str(p.image), Undefined)
  }

  /** The store's field guard and the POST route's field check agree on
      every payload: the store sends exactly what the route accepts. */
  lemma StoreGuardMatchesRoute(p: NewProduct)
    ensures Filled(p) <==> FieldsPresent(PayloadBody(p))
  {
    if p.price.NaN? {
      assert !Truthy(Null) && !Truthy(Num(NaN));
    }
  }

  /** A form that passes validation yields a payload that passes both the
      store's guard and the route's field check, so a create from it is
      answered with 201 unless the database fails. */
  lemma ValidFormIsAccepted(f: FormData, editing: Option<Product>, connect: Call<()>, create: Call<Product>)
    requires IsValid(f)
    ensures Filled(SaveRequestFor(f, editing).payload)
    ensures FieldsPresent(PayloadBody(SaveRequestFor(f, editing).payload))
    ensures connect.Returned? && create.Returned? ==>
              PostResponse(connect, Returned(PayloadBody(SaveRequestFor(f, editing).payload)), create).status == 201
  {
    var p := SaveRequestFor(f, editing).payload;
    assert !Blank(f.name) && !Blank(f.image);
    assert p.name != "" && p.image != "";
    StoreGuardMatchesRoute(p);
  }

  /** `response.ok`: a status from 200 to 299. */
  predicate Ok(status: int)
  {
    200 <= status <= 299
  }

  /** An envelope as the list page parses it: an object with a `data`
      member and no `products` member. */
  function PageBody(e: Envelope): (b: Body)
    ensures b.ObjectBody? && b.products == NoData && b.data == e.data
  {
    ObjectBody(NoData, e.data)
  }

  /** The list page's response is `ok` exactly when the GET succeeded, and
      then it unwraps exactly the records the database returned. */
  lemma PageReadsGetResponse(connect: Call<()>, find: Call<seq<Product>>)
    ensures Ok(GetResponse(connect, find).status) <==> connect.Returned? && find.Returned?
    ensures Ok(GetResponse(connect, find).status) ==> Unwrap(PageBody(GetResponse(connect, find).body)) == find.value
  {
  }

  /** An envelope as the store reads it into an `ApiResponse` of one record. */
  function RecordReply(e: Envelope): (r: Reply<Product>)
    ensures r.success == e.success && r.message == e.message
    ensures r.data.Some? <==> e.data.One?
    ensures e.data.One? ==> r.data.value == e.data.record
  {
    Reply(e.success, e.message, if e.data.One? then Some(e.data.record) else None)
  }

  /** An envelope as the store reads it into an `ApiResponse` of a list. */
  function ListReply(e: Envelope): (r: Reply<seq<Product>>)
    ensures r.success == e.success && r.message == e.message
    ensures r.data.Some? <==> e.data.Many?
    ensures e.data.Many? ==> r.data.value == e.data.records
  {
    Reply(e.success, e.message, if e.data.Many? then Some(e.data.records) else None)
  }

  /** A store create answered by the POST route: a 201 appends the new
      record and reports success. A 500 leaves the list alone, yet the
      source's `createProduct` reports it as a created product; the
      corrected `CreateResult` reports the server's message instead. */
  lemma StoreReadsPostResponse(ps: seq<Product>, connect: Call<()>, body: Call<RequestBody>, create: Call<Product>)
    ensures var e := PostResponse(connect, body, create).body;
            PostResponse(connect, body, create).status == 201 ==>
              AfterCreate(ps, RecordReply(e).data) == ps + [create.value] &&
              CreateResultAsWritten(RecordReply(e)) == Result(true, Some(CreatedMessage)) &&
              CreateResult(RecordReply(e)) == Result(true, Some(CreatedMessage))
    ensures var e := PostResponse(connect, body, create).body;
            PostResponse(connect, body, create).status == 500 ==>
              AfterCreate(ps, RecordReply(e).data) == ps &&
              CreateResultAsWritten(RecordReply(e)) == Result(true, Some(CreatedMessage)) &&
              CreateResult(RecordReply(e)) == Result(false, Some(ServerErrorMessage))
  {
  }

  /** A store fetch answered by the GET route: on success the list becomes
      the records the database returned; on a server error it is kept. */
  lemma StoreReadsGetResponse(connect: Call<()>, find: Call<seq<Product>>)
    ensures var r := ListReply(GetResponse(connect, find).body);
            (connect.Returned? && find.Returned? ==> r.data == Some(find.value)) &&
            (connect.Threw? || find.Threw? ==> r.data.None?)
  {
  }

  /** The route checks only that the price is truthy, so it accepts a
      negative price that the form rejects. */
  lemma RouteAcceptsWhatFormRejects()
    ensures FieldsPresent(PayloadBody(NewProduct("Phone", Finite(-5.0), "phone.png")))
    ensures ErrorsFor(FormData("Phone", "-5", "phone.png")).price == Some(PriceNotPositive)
  {
    var t := "-5";
    assert !IsSpace(t[0]) && !IsSpace(t[|t| - 1]);
    ParseNumberUnpadded(t);
    assert t[1..] == IntText(5);
    ParseUnsignedIntText(5);
  }
}
