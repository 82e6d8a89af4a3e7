/** The catalog's one entity, the product record, and the shapes in which
    the server wraps records in its JSON responses. */
module Catalog {
  import opened JsValues
  import opened Lists

  /** A product as the client holds it: the store-assigned `_id`, the name,
      a price the backend may send as a number or as a string (or omit), and
      an optional image URL and category. Timestamps are not modelled. */
  datatype Product = Product(id: string, name: string, price: Value, image: Option<string>, category: Option<string>)

  const Uncategorized := "Uncategorized"

  /** The category a product is listed under: its own, or 'Uncategorized' when it has none. */
  function EffectiveCategory(p: Product): (c: string)
    ensures c != ""
    ensures c == Uncategorized || p.category == Some(c)
    ensures (p.category.None? || p.category == Some("")) ==> c == Uncategorized
    ensures p.category.Some? && p.category.value != "" ==> c == p.category.value
  {
    if p.category.Some? && p.category.value != "" then p.category.value else Uncategorized
  }

  /** `Number(p.price) || 0`: a missing or non-numeric price counts as 0. */
  function PriceValue(p: Product): real
  {
    OrZero(ToNumber(p.price))
  }

  /** `CreateProductPayload`: what the client sends to create or save a product. */
  datatype NewProduct = NewProduct(name: string, price: Number, image: string)

  /** The `data` member of a server response: absent, one record, or an array of records. */
  datatype Payload = NoData | One(record: Product) | Many(records: seq<Product>)

  /** The server's response envelope `{success, message?, data?}`. */
  datatype Envelope = Envelope(success: bool, message: Option<string>, data: Payload)

  function IdDiffers(id: string): Product -> bool
  {
    (p: Product) => p.id != id
  }

  /** The products whose id is not `id`, in their original order. */
  function WithoutId(ps: seq<Product>, id: string): (r: seq<Product>)
    ensures |r| <= |ps|
  {
    Filter(ps, IdDiffers(id))
  }

  /** Removing an id keeps exactly the products with another id, each as often
      as before and in their original order, so the list cannot grow; a list
      without that id is left as it is. */
  lemma WithoutIdSpec(ps: seq<Product>, id: string)
    ensures forall p :: p in WithoutId(ps, id) <==> p in ps && p.id != id
    ensures forall p :: multiset(WithoutId(ps, id))[p] == if p.id != id then multiset(ps)[p] else 0
    ensures IsSubsequence(WithoutId(ps, id), ps)
    ensures |WithoutId(ps, id)| <= |ps|
    ensures (forall p :: p in ps ==> p.id != id) ==> WithoutId(ps, id) == ps
  {
    FilterMembership(ps, IdDiffers(id));
    FilterCount(ps, IdDiffers(id));
    FilterSubsequence(ps, IdDiffers(id));
    SubsequenceLength(WithoutId(ps, id), ps);
    if forall p :: p in ps ==> p.id != id {
      FilterAll(ps, IdDiffers(id));
    }
  }

  /** `ps.map(p => p._id === id ? r : p)`: same length and order, every
      product with the id replaced by `r`, every other product unchanged. */
  function ReplacedById(ps: seq<Product>, id: string, r: Product): (out: seq<Product>)
    ensures |out| == |ps|
    ensures forall i :: 0 <= i < |ps| ==> out[i] == if ps[i].id == id then r else ps[i]
  {
    if ps == [] then [] else [if ps[0].id == id then r else ps[0]] + ReplacedById(ps[1..], id, r)
  }
}
