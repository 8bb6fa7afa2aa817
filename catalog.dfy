/** Products, their size variants and their prices. Money is held in
    integer cents. */
module Catalog {
  import opened Results

  /** Generated row identifiers. */
  type Id = nat

  datatype Size = Small | Medium | Large

  /** One price entry of a product: the value (in cents) charged for a size. */
  datatype Price = Price(size: Size, value: int)

  datatype Product = Product(name: string, stock: int, prices: seq<Price>)

  /** `prices.find(p => p.size === size)`: the value of the FIRST entry for
      `size`, or nothing when the product has no price for it. */
  function FindPrice(prices: seq<Price>, size: Size): (r: Option<int>)
    ensures r.None? <==> forall i :: 0 <= i < |prices| ==> prices[i].size != size
    ensures r.Some? ==> exists i :: 0 <= i < |prices| && prices[i] == Price(size, r.value)
                                   && forall j :: 0 <= j < i ==> prices[j].size != size
  {
    if prices == [] then None
    else if prices[0].size == size then Some(prices[0].value)
    else
      var rest := FindPrice(prices[1..], size);
      assert forall i :: 1 <= i < |prices| ==> prices[i] == prices[1..][i - 1];
      rest
  }
}
