/**
 * The static product catalog and the first-match look-up `addToCart` runs
 * on it twice (`Array.prototype.find` by product id, then by size label).
 */
module Catalog {

  datatype Option<T> = None | Some(value: T)

  /** One priced size variant of a product. */
  datatype SizeOption = SizeOption(size: string, price: int)

  datatype Product = Product(
    id: string,
    title: string,
    subtitle: string,
    description: string,
    thumb: string,
    options: seq<SizeOption>,
    minOrder: int)

  /** The storefront sells a single product: a 4 mm metal poster in five sizes. */
  const Products: seq<Product> := [
    Product(
      "metal_uv_poster",
      "Постер на металле (УФ\U{2011}печать)",
      "Металл 4 мм \U{2022} УФ\U{2011}принтер \U{2022} дизайн включён",
      "Премиальная печать на металле толщиной 4 мм. После оформления мы уточним стиль, текст и детали \U{2014} и пришлём макет на согласование в Telegram.",
      "assets/examples/61172187-24DB-4B08-84A6-8BD3E0CD5D3A.jpeg",
      [ SizeOption("60\U{00D7}80", 9404),
        SizeOption("70\U{00D7}100", 12110),
        SizeOption("80\U{00D7}120", 15308),
        SizeOption("120\U{00D7}100", 18260),
        SizeOption("100\U{00D7}150", 21950) ],
      9404)
  ]

  /** The field each look-up compares: a product's id, a variant's size. */
  function IdOf(p: Product): string { p.id }

  function SizeOf(o: SizeOption): string { o.size }

  /** `s.find(x => field(x) === want)`: the first element whose field is
      `want`, or `None` when there is none. */
  function Find<T>(s: seq<T>, field: T -> string, want: string): (r: Option<T>)
    ensures r.None? <==> forall k :: 0 <= k < |s| ==> field(s[k]) != want
    ensures r.Some? ==> exists k :: 0 <= k < |s| && s[k] == r.value && field(r.value) == want
                                    && forall j :: 0 <= j < k ==> field(s[j]) != want
  {
    if |s| == 0 then None
    else if field(s[0]) == want then
      Some(s[0])
    else
      var r := Find(s[1..], field, want);
      assert forall k :: 1 <= k < |s| ==> s[k] == s[1..][k - 1];
      r
  }

  /** Every variant of the catalog costs at least its product's minimum order,
      so a single poster of any size already meets the minimum. */
  lemma CatalogMeetsMinimum()
    ensures forall p :: p in Products ==> p.minOrder > 0
    ensures forall p, o :: p in Products && o in p.options ==> o.price >= p.minOrder
  {
  }
}
