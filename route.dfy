/** The `/api/products` route handlers: the lazy database connection, the
    GET that lists every product and the POST that creates one. The database
    itself is outside the model; what each database call returns or throws
    is an input. */
module ProductsRoute {
  import opened JsValues
  import opened Catalog

  /** What `await request.json()` gives the handler: an object (with the
      fields the handler reads), `null`, or any other JSON value, whose
      fields are all `undefined`. Malformed JSON makes the call throw. */
  datatype RequestBody = Object(name: Value, price: Value, image: Value, category: Value) | NullBody | Other

  /** A JSON response: status code and envelope. */
  datatype Response = Response(status: int, body: Envelope)

  const ServerErrorMessage := "Server error"
  const MissingFieldsMessage := "Please provide all fields"

  const ServerError := Envelope(false, Some(ServerErrorMessage), NoData)

  /** `!body.name || !body.price || !body.image` is false. */
  predicate FieldsPresent(b: RequestBody)
  {
    b.Object? && Truthy(b.name) && Truthy(b.price) && Truthy(b.image)
  }

  /** How `await connectDB()` settles: immediately when the flag is set,
      otherwise as the connection attempt does. */
  function ConnectOutcome(isConnected: bool, attempt: Call<()>): (r: Call<()>)
    ensures isConnected ==> r.Returned?
    ensures !isConnected ==> r == attempt
  {
    if isConnected then Returned(()) else attempt
  }

  /** The GET handler: 200 with every product when both the connection and
      `Product.find({})` succeed, and a 500 server error otherwise. */
  function GetResponse(connect: Call<()>, find: Call<seq<Product>>): (r: Response)
    ensures r.status == 200 || r.status == 500
    ensures r.status == 200 <==> connect.Returned? && find.Returned?
    ensures r.body.success <==> r.status == 200
    ensures r.status == 200 ==> r.body.data == Many(find.value) && r.body.message.None?
    ensures r.status == 500 ==> r.body == ServerError
  {
    if connect.Threw? || find.Threw? then Response(500, ServerError)
    else Response(200, Envelope(true, None, Many(find.value)))
  }

  /** The POST handler: a failed connection, an unreadable body or a failed
      `Product.create` is a 500 server error; a body missing a truthy name,
      price or image is a 400; otherwise 201 with the new record. Reading a
      field of `null` throws, so a `null` body is a 500, not a 400. */
  function PostResponse(connect: Call<()>, body: Call<RequestBody>, create: Call<Product>): (r: Response)
    ensures r.status == 201 || r.status == 400 || r.status == 500
    ensures r.body.success <==> r.status == 201
    ensures r.status == 400 <==>
              connect.Returned? && body.Returned? && !body.value.NullBody? && !FieldsPresent(body.value)
    ensures r.status == 201 <==>
              connect.Returned? && body.Returned? && FieldsPresent(body.value) && create.Returned?
    ensures r.status == 201 ==> r.body.data == One(create.value) && r.body.message.None?
    ensures r.status == 400 ==> r.body == Envelope(false, Some(MissingFieldsMessage), NoData)
    ensures r.status == 500 ==> r.body == ServerError
  {
    if connect.Threw? || body.Threw? || body.value.NullBody? then Response(500, ServerError)
    else if !FieldsPresent(body.value) then Response(400, Envelope(false, Some(MissingFieldsMessage), NoData))
    else if create.Threw? then Response(500, ServerError)
    else Response(201, Envelope(true, None, One(create.value)))
  }

  /** The module-level state of the route file. */
  class Route {
    var isConnected: bool

    constructor()
      ensures !isConnected
    {
      isConnected := false;
    }

    /** `connectDB()`: connects once; after the first success every call
        returns at once without a new attempt. A failed attempt leaves the
        flag unset and rethrows. */
    method ConnectDB(attempt: Call<()>) returns (r: Call<()>, attempted: bool)
      modifies this`isConnected
      ensures attempted <==> !old(isConnected)
      ensures r == ConnectOutcome(old(isConnected), attempt)
      ensures isConnected <==> old(isConnected) || attempt.Returned?
    {
      if isConnected {
        return Returned(()), false;
      }
      attempted := true;
      if attempt.Threw? {
        return attempt, attempted;
      }
      isConnected := true;
      r := attempt;
    }

    /** `GET()`; `find` is consulted only once connected. */
    method Get(attempt: Call<()>, find: Call<seq<Product>>) returns (resp: Response)
      modifies this`isConnected
      ensures resp == GetResponse(ConnectOutcome(old(isConnected), attempt), find)
      ensures isConnected <==> old(isConnected) || attempt.Returned?
    {
      var connected, _ := ConnectDB(attempt);
      if connected.Threw? {
        return Response(500, ServerError);
      }
      if find.Threw? {
        return Response(500, ServerError);
      }
      resp := Response(200, Envelope(true, None, Many(find.value)));
    }

    /** `POST(request)`; the body is read only once connected, and
        `Product.create` is called (`createCalled`) only for a body with all
        fields, so a rejected body never reaches the database. */
    method Post(attempt: Call<()>, body: Call<RequestBody>, create: Call<Product>) returns (resp: Response, createCalled: bool)
      modifies this`isConnected
      ensures resp == PostResponse(ConnectOutcome(old(isConnected), attempt), body, create)
      ensures createCalled <==> ConnectOutcome(old(isConnected), attempt).Returned? && body.Returned? && FieldsPresent(body.value)
      ensures isConnected <==> old(isConnected) || attempt.Returned?
    {
      var connected, _ := ConnectDB(attempt);
      if connected.Threw? || body.Threw? {
        return Response(500, ServerError), false;
      }
      var b := body.value;
      if b.NullBody? {
        return Response(500, ServerError), false;
      }
      // every field of a non-object body is `undefined`
      if !b.Object? || !Truthy(b.name) || !Truthy(b.price) || !Truthy(b.image) {
        return Response(400, Envelope(false, Some(MissingFieldsMessage), NoData)), false;
      }
      createCalled := true;
      if create.Threw? {
        return Response(500, ServerError), createCalled;
      }
      resp := Response(201, Envelope(true, None, One(create.value)));
    }
  }
}
