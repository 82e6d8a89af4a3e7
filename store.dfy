/** The client-side product store (`useProductStore`): a `products` list that
    every operation replaces, guarded by a field check or by the server's
    `success` flag. The server's reply to each request is an input. */
module ProductStore {
  import opened JsValues
  import opened Catalog

  /** An `ApiResponse<T>` as the store reads it from the server. */
  datatype Reply<T> = Reply(success: bool, message: Option<string>, data: Option<T>)

  /** What a store operation resolves to: `{success, message}`. */
  datatype Result = Result(success: bool, message: Option<string>)

  const FillAllFields := "Please fill in all fields."
  const CreatedMessage := "Product created successfully"

  /** The guard of `createProduct`: name, image and price all truthy
      (so a price of 0 or NaN counts as missing). */
  predicate Filled(p: NewProduct)
  {
    Truthy(Str(p.name)) && Truthy(Str(p.image)) && Truthy(Num(p.price))
  }

  /** The list after a create reply: the returned record appended, if there is one. */
  function AfterCreate(ps: seq<Product>, data: Option<Product>): (r: seq<Product>)
    ensures data.None? ==> r == ps
    ensures data.Some? ==> |r| == |ps| + 1 && r[..|ps|] == ps && r[|ps|] == data.value
  {
    if data.Some? then ps + [data.value] else ps
  }

  /** What the source's `createProduct` resolves to once the POST has
      answered: success, whatever the server replied. */
  function CreateResultAsWritten(reply: Reply<Product>): (r: Result)
    ensures r.success && r.message == Some(CreatedMessage)
  {
    Result(true, Some(CreatedMessage))
  }

  /** A server error reply (the database is unreachable) is reported to the
      caller as a created product. */
  lemma CreateReportsServerErrorAsSuccess()
    ensures CreateResultAsWritten(Reply(false, Some("Server error"), None)).success
  {
  }

  /** What `createProduct` evidently means to resolve to: the server's
      `success` flag decides, as in `deleteProduct` and `updateProduct`; a
      success is reported with the creation message and a failure with the
      server's message. It agrees with the source on every successful reply. */
  function CreateResult(reply: Reply<Product>): (r: Result)
    ensures r.success <==> reply.success
    ensures r.success ==> r.message == Some(CreatedMessage)
    ensures !r.success ==> r.message == reply.message
    ensures reply.success ==> r == CreateResultAsWritten(reply)
  {
    if reply.success then Result(true, Some(CreatedMessage)) else Result(false, reply.message)
  }

  /** The list the source's `updateProduct` computes after a successful reply:
      every product with the id becomes `data.data`, which is `undefined`
      (here `None`) when the reply carries no data. */
  function UpdatedListAsWritten(ps: seq<Product>, id: string, data: Option<Product>): (r: seq<Option<Product>>)
    ensures |r| == |ps|
    ensures forall i :: 0 <= i < |ps| ==> r[i] == if ps[i].id == id then data else Some(ps[i])
  {
    if ps == [] then [] else [if ps[0].id == id then data else Some(ps[0])] + UpdatedListAsWritten(ps[1..], id, data)
  }

  /** A successful update reply without data puts `undefined` into the list
      wherever the id occurs. */
  lemma UpdateWithoutDataLeavesUndefined(ps: seq<Product>, id: string, i: nat)
    requires i < |ps| && ps[i].id == id
    ensures None in UpdatedListAsWritten(ps, id, None)
  {
    assert UpdatedListAsWritten(ps, id, None)[i] == None;
  }

  /** The list after a successful update reply, as the model uses it: the
      returned record replaces every product with the id, and without a
      returned record the list is left as it is. It keeps length and order,
      holds no hole, and agrees with the source's list wherever that holds a
      product. */
  function UpdatedList(ps: seq<Product>, id: string, data: Option<Product>): (r: seq<Product>)
    ensures |r| == |ps|
    ensures forall i :: 0 <= i < |ps| ==> r[i] == if ps[i].id == id && data.Some? then data.value else ps[i]
    ensures forall i :: 0 <= i < |ps| && UpdatedListAsWritten(ps, id, data)[i].Some? ==>
              r[i] == UpdatedListAsWritten(ps, id, data)[i].value
  {
    if data.Some? then ReplacedById(ps, id, data.value) else ps
  }

  class Store {
    var products: seq<Product>

    constructor()
      ensures products == []
    {
      products := [];
    }

    /** `setProducts(xs)` */
    method SetProducts(xs: seq<Product>)
      modifies this
      ensures products == xs
    {
      products := xs;
    }

    /** `createProduct(p)`. The guard runs before any request; `reply` is
        what the POST returns, consulted only once the guard has passed. The
        returned record, if any, is appended, and the result is success
        whatever the reply says (see `CreateResultAsWritten`). */
    method CreateProduct(p: NewProduct, reply: Call<Reply<Product>>) returns (r: Call<Result>, requested: bool)
      modifies this
      ensures requested == Filled(p)
      ensures !Filled(p) ==> r == Returned(Result(false, Some(FillAllFields))) && products == old(products)
      ensures Filled(p) && reply.Threw? ==> r == Threw(reply.message) && products == old(products)
      ensures Filled(p) && reply.Returned? ==>
                r == Returned(CreateResultAsWritten(reply.value)) &&
                products == AfterCreate(old(products), reply.value.data)
    {
      if !Filled(p) {
        return Returned(Result(false, Some(FillAllFields))), false;
      }
      requested := true;
      if reply.Threw? {
        return Threw(reply.message), requested;
      }
      var data := reply.value;
      if data.data.Some? {
        products := products + [data.data.value];
      }
      r := Returned(CreateResultAsWritten(data));
    }

    /** `fetchProducts()`: the list is replaced only when the reply carries data. */
    method FetchProducts(reply: Call<Reply<seq<Product>>>) returns (r: Call<()>)
      modifies this
      ensures reply.Threw? ==> r == Threw(reply.message) && products == old(products)
      ensures reply.Returned? ==>
                r == Returned(()) &&
                products == if reply.value.data.Some? then reply.value.data.value else old(products)
    {
      if reply.Threw? {
        return Threw(reply.message);
      }
      if reply.value.data.Some? {
        products := reply.value.data.value;
      }
      r := Returned(());
    }

    /** `deleteProduct(pid)`: on a successful reply the product is removed locally. */
    method DeleteProduct(pid: string, reply: Call<Reply<()>>) returns (r: Call<Result>)
      modifies this
      ensures reply.Threw? ==> r == Threw(reply.message) && products == old(products)
      ensures reply.Returned? && !reply.value.success ==>
                r == Returned(Result(false, reply.value.message)) && products == old(products)
      ensures reply.Returned? && reply.value.success ==>
                r == Returned(Result(true, reply.value.message)) && products == WithoutId(old(products), pid)
    {
      if reply.Threw? {
        return Threw(reply.message);
      }
      var data := reply.value;
      if !data.success {
        return Returned(Result(false, data.message));
      }
      products := WithoutId(products, pid);
      r := Returned(Result(true, data.message));
    }

    /** `updateProduct(pid, patch)`: on a successful reply every product with
        the id is replaced by the returned record. The patch itself only goes
        into the request body, so it is not a parameter here. */
    method UpdateProduct(pid: string, reply: Call<Reply<Product>>) returns (r: Call<Result>)
      modifies this
      ensures reply.Threw? ==> r == Threw(reply.message) && products == old(products)
      ensures reply.Returned? && !reply.value.success ==>
                r == Returned(Result(false, reply.value.message)) && products == old(products)
      ensures reply.Returned? && reply.value.success ==>
                r == Returned(Result(true, reply.value.message)) &&
                products == UpdatedList(old(products), pid, reply.value.data)
    {
      if reply.Threw? {
        return Threw(reply.message);
      }
      var data := reply.value;
      if !data.success {
        return Returned(Result(false, data.message));
      }
      if data.data.Some? {
        products := ReplacedById(products, pid, data.data.value);
      }
      r := Returned(Result(true, data.message));
    }
  }
}
