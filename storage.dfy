/**
 * The one persisted slot that holds the cart between events (localStorage
 * key `autoposter_cart_v2`) and the operations that read and rewrite it.
 * Every change is a whole load, change and store cycle: the array is loaded,
 * changed, and written back over the slot.
 */
module Storage {
  import opened Catalog
  import opened Cart

  /** What the slot can hold, as `loadCart` tells the cases apart: nothing,
      the empty string, text that `JSON.parse` rejects, JSON that is not an
      array, and an array of cart lines. */
  datatype Slot = Absent | Blank | Unparsable | NonArray | Lines(items: seq<CartLine>)

  /** The lines `loadCart` returns for a slot: the stored array unchanged,
      and the empty cart for every other content. */
  function Loaded(slot: Slot): (items: seq<CartLine>) {
    if slot.Lines? then slot.items else []
  }

  /** A cart the storefront's own buttons can leave behind: well formed, and
      every unit price at least the product's minimum order, since every
      catalog variant costs that much. */
  predicate Reachable(items: seq<CartLine>) {
    WellFormed(items) && PricesAtLeast(items, Products[0].minOrder)
  }

  class CartStorage {
    var slot: Slot

    constructor (initial: Slot)
      ensures slot == initial
    {
      slot := initial;
    }

    /** `loadCart`: a missing, empty, unparsable or non-array slot reads as
        the empty cart; a stored array comes back unchanged. */
    method LoadCart() returns (items: seq<CartLine>)
      ensures slot.Lines? ==> items == slot.items
      ensures !slot.Lines? ==> items == []
      ensures items == Loaded(slot)
    {
      match slot
      case Absent => items := [];
      case Blank => items := [];
      case Unparsable => items := [];
      case NonArray => items := [];
      case Lines(stored) => items := stored;
    }

    /** `saveCart`: the whole array replaces what the slot held, and loading
        it again gives the same lines back. */
    method SaveCart(items: seq<CartLine>)
      modifies this
      ensures slot == Lines(items)
      ensures Loaded(slot) == items
    {
      slot := Lines(items);
    }

    /** `addToCart`: bump the first line with the variant's key, or push a
        new line with quantity 1 and the variant's current price, then save.
        The product must exist. The size need not: an already stored line
        with that key is bumped without the variant being looked at, and only
        a new line needs the variant's price. The slot is written even when
        what it held could not be read. */
    method AddToCart(productId: string, size: string)
      requires Find(Products, IdOf, productId).Some?
      requires || Find(Find(Products, IdOf, productId).value.options, SizeOf, size).Some?
               || IndexOf(Loaded(slot), KeyOf(productId, size)) < |Loaded(slot)|
      modifies this
      ensures var items := Loaded(old(slot));
              var i := IndexOf(items, KeyOf(productId, size));
              i < |items| ==> slot == Lines(items[i := Bumped(items[i], 1)])
      ensures var p := Find(Products, IdOf, productId).value;
              var o := Find(p.options, SizeOf, size);
              o.Some? ==> slot == Lines(Added(Loaded(old(slot)), NewLine(p, o.value)))
      ensures old(WellFormed(Loaded(slot))) ==> WellFormed(Loaded(slot))
      ensures old(Reachable(Loaded(slot))) ==> Reachable(Loaded(slot))
      ensures Count(Loaded(slot)) == old(Count(Loaded(slot))) + 1
    {
      var product := Find(Products, IdOf, productId).value;
      var opt := Find(product.options, SizeOf, size);
      var items := LoadCart();
      var key := KeyOf(productId, size);
      var i := FindLine(items, key);
      var next;
      if i < |items| {
        next := items[i := Bumped(items[i], 1)];
      } else {
        var o := opt.value;
        next := items + [CartLine(key, productId, product.title, size, o.price, product.thumb, 1)];
      }
      CatalogMeetsMinimum();
      AddOutcome(items, product, opt, size, Products[0].minOrder, next);
      SaveCart(next);
    }

    /** `changeQty`: add `delta` to the first line with `key` and splice it
        out once its quantity is zero or below, then save. An unknown key
        returns before anything is written, so the slot keeps what it held. */
    method ChangeQty(key: string, delta: int)
      modifies this
      ensures IndexOf(Loaded(old(slot)), key) == |Loaded(old(slot))| ==> slot == old(slot)
      ensures IndexOf(Loaded(old(slot)), key) < |Loaded(old(slot))| ==>
                slot == Lines(Changed(Loaded(old(slot)), key, delta))
      ensures old(WellFormed(Loaded(slot))) ==> WellFormed(Loaded(slot))
      ensures old(Reachable(Loaded(slot))) ==> Reachable(Loaded(slot))
    {
      var items := LoadCart();
      var i := FindLine(items, key);
      if i == |items| {
        return;
      }
      ChangeKeepsWellFormed(items, key, delta, Products[0].minOrder);
      ghost var before := items;
      items := items[i := Bumped(items[i], delta)];
      if items[i].qty <= 0 {
        // findIndex finds the same line again: its key did not change
        var idx := FindLine(items, key);
        assert idx == i by {
          assert forall j :: 0 <= j < |items| ==> items[j].key == before[j].key;
        }
        items := items[..idx] + items[idx + 1..];
      }
      SaveCart(items);
    }

    /** `clearCart`: the slot is overwritten with the empty array. */
    method ClearCart()
      modifies this
      ensures slot == Lines([])
      ensures Loaded(slot) == [] && Count(Loaded(slot)) == 0 && Total(Loaded(slot)) == 0
      ensures Reachable(Loaded(slot))
    {
      SaveCart([]);
    }
  }

  /** What `addToCart` saves, for product `p` and the variant look-up `opt`:
      a stored line with the key is bumped; otherwise the variant's line is
      appended. Either way it is the add of the variant's new line when the
      variant exists, the invariant and a price floor the variant meets are
      kept, and the count grows by one. */
  lemma AddOutcome(items: seq<CartLine>, p: Product, opt: Option<SizeOption>, size: string, floor: int,
                   next: seq<CartLine>)
    requires opt.Some? ==> opt.value.size == size && opt.value.price >= floor
    requires var i := IndexOf(items, KeyOf(p.id, size));
             && (opt.Some? || i < |items|)
             && next == if i < |items| then items[i := Bumped(items[i], 1)]
                        else items + [CartLine(KeyOf(p.id, size), p.id, p.title, size, opt.value.price, p.thumb, 1)]
    ensures opt.Some? ==> next == Added(items, NewLine(p, opt.value))
    ensures WellFormed(items) ==> WellFormed(next)
    ensures PricesAtLeast(items, floor) ==> PricesAtLeast(next, floor)
    ensures Count(next) == Count(items) + 1
  {
    var key := KeyOf(p.id, size);
    var i := IndexOf(items, key);
    var pushed := if i < |items| then items[i].(qty := 1) else NewLine(p, opt.value);
    assert next == Added(items, pushed);
    AddKeepsWellFormed(items, pushed, floor);
    if i < |items| {
      AddPresentCountTotal(items, pushed);
    } else {
      AddAbsentCountTotal(items, pushed);
    }
  }
}
