/**
 * The cart as a value: its lines, the `productId__size` key, the two folds
 * `cartCount` and `cartTotal`, and what `addToCart` and `changeQty` do to the
 * list of lines once it has been loaded. The storage slot that holds the list
 * between calls is in module Storage.
 */
module Cart {
  import opened Catalog

  /** One cart line as `addToCart` writes it. `price` is the unit price copied
      from the catalog when the line was created. */
  datatype CartLine = CartLine(
    key: string,
    productId: string,
    title: string,
    size: string,
    price: int,
    thumb: string,
    qty: int)

  /** The template literal `${productId}__${size}`. */
  function KeyOf(productId: string, size: string): (key: string)
    ensures |key| == |productId| + 2 + |size|
    ensures key[..|productId|] == productId
    ensures key[|productId|..|productId| + 2] == "__"
    ensures key[|productId| + 2..] == size
  {
    productId + "__" + size
  }

  predicate UniqueKeys(items: seq<CartLine>) {
    forall i, j :: 0 <= i < j < |items| ==> items[i].key != items[j].key
  }

  predicate PositiveQuantities(items: seq<CartLine>) {
    forall i :: 0 <= i < |items| ==> items[i].qty >= 1
  }

  /** Every line's unit price is `floor` or more. */
  predicate PricesAtLeast(items: seq<CartLine>, floor: int) {
    forall i :: 0 <= i < |items| ==> items[i].price >= floor
  }

  predicate PositivePrices(items: seq<CartLine>) {
    PricesAtLeast(items, 1)
  }

  /** The cart invariant: at most one line per key, and no line whose
      quantity has dropped to zero or below. */
  predicate WellFormed(items: seq<CartLine>) {
    UniqueKeys(items) && PositiveQuantities(items)
  }

  predicate Lacks(items: seq<CartLine>, key: string) {
    forall j :: 0 <= j < |items| ==> items[j].key != key
  }

  /** Index of the first line with `key`, or `|items|` when there is none:
      what `items.find(i => i.key === key)` and `items.findIndex(...)` locate. */
  function IndexOf(items: seq<CartLine>, key: string): (i: nat)
    ensures i <= |items|
    ensures i < |items| ==> items[i].key == key
    ensures forall j :: 0 <= j < i ==> items[j].key != key
  {
    if |items| == 0 || items[0].key == key then 0
    else 1 + IndexOf(items[1..], key)
  }

  /** The linear search `find` runs over the loaded array. */
  method FindLine(items: seq<CartLine>, key: string) returns (i: nat)
    ensures i <= |items|
    ensures i < |items| ==> items[i].key == key
    ensures forall j :: 0 <= j < i ==> items[j].key != key
    ensures i == IndexOf(items, key)
  {
    i := 0;
    while i < |items| && items[i].key != key
      invariant i <= |items|
      invariant forall j :: 0 <= j < i ==> items[j].key != key
    {
      i := i + 1;
    }
  }

  /** `items.reduce((s, it) => s + (it.qty || 0), 0)`, folded from the left. */
  function Count(items: seq<CartLine>): (c: int)
    ensures PositiveQuantities(items) ==> c >= |items|
  {
    if |items| == 0 then 0 else Count(items[..|items| - 1]) + items[|items| - 1].qty
  }

  /** What one line adds to the total: `it.price * it.qty`. */
  function LineTotal(line: CartLine): int {
    line.price * line.qty
  }

  /** `items.reduce((s, it) => s + it.price * it.qty, 0)`, folded from the left. */
  function Total(items: seq<CartLine>): (t: int)
    ensures PositiveQuantities(items) && PricesAtLeast(items, 0) ==> t >= 0
  {
    if |items| == 0 then 0 else Total(items[..|items| - 1]) + LineTotal(items[|items| - 1])
  }

  /** Both folds distribute over concatenation of carts. */
  lemma {:induction false} FoldsConcat(a: seq<CartLine>, b: seq<CartLine>)
    ensures Count(a + b) == Count(a) + Count(b)
    ensures Total(a + b) == Total(a) + Total(b)
    decreases |b|
  {
    if |b| == 0 {
      assert a + b == a;
    } else {
      var c := a + b;
      assert c[..|c| - 1] == a + b[..|b| - 1];
      FoldsConcat(a, b[..|b| - 1]);
    }
  }

  /** Replacing one line changes each fold by that line's contribution only. */
  lemma FoldsUpdate(items: seq<CartLine>, i: nat, line: CartLine)
    requires i < |items|
    ensures Count(items[i := line]) == Count(items) - items[i].qty + line.qty
    ensures Total(items[i := line]) == Total(items) - LineTotal(items[i]) + LineTotal(line)
  {
    var pre, post := items[..i], items[i + 1..];
    var upto, upto' := items[..i + 1], pre + [line];
    assert items == upto + post;
    assert items[i := line] == upto' + post;
    FoldsConcat(upto, post);
    FoldsConcat(upto', post);
    assert upto[..|upto| - 1] == pre && upto[|upto| - 1] == items[i];
    assert upto'[..|upto'| - 1] == pre && upto'[|upto'| - 1] == line;
    assert Count(upto) == Count(pre) + items[i].qty;
    assert Total(upto) == Total(pre) + LineTotal(items[i]);
    assert Count(upto') == Count(pre) + line.qty;
    assert Total(upto') == Total(pre) + LineTotal(line);
  }

  /** Removing one line takes exactly its contribution out of each fold. */
  lemma FoldsRemove(items: seq<CartLine>, i: nat)
    requires i < |items|
    ensures Count(items[..i] + items[i + 1..]) == Count(items) - items[i].qty
    ensures Total(items[..i] + items[i + 1..]) == Total(items) - LineTotal(items[i])
  {
    var pre, post, upto := items[..i], items[i + 1..], items[..i + 1];
    assert items == upto + post;
    FoldsConcat(upto, post);
    assert upto[..|upto| - 1] == pre && upto[|upto| - 1] == items[i];
    assert Count(upto) == Count(pre) + items[i].qty;
    assert Total(upto) == Total(pre) + LineTotal(items[i]);
    FoldsConcat(pre, post);
  }


  /** In a cart of positive quantities and prices, each line adds at least one
      to the total, so the total is positive exactly when the cart is not
      empty. (The matching bound on the count is `Count`'s own contract.) */
  lemma {:induction false} FoldsPositive(items: seq<CartLine>)
    requires PositiveQuantities(items) && PositivePrices(items)
    ensures Total(items) >= |items|
    ensures Total(items) > 0 <==> |items| > 0
  {
    if |items| > 0 {
      var last := items[|items| - 1];
      FoldsPositive(items[..|items| - 1]);
      assert LineTotal(last) >= 1 by {
        assert last.price >= 1 && last.qty >= 1;
        MulAtLeastOne(last.price, last.qty);
      }
    }
  }

  /** A non-empty cart whose lines all cost `floor` or more apiece, with
      positive quantities, totals at least `floor`. */
  lemma {:induction false} TotalMeetsFloor(items: seq<CartLine>, floor: int)
    requires PositiveQuantities(items) && PricesAtLeast(items, floor)
    requires floor >= 0
    requires |items| > 0
    ensures Total(items) >= floor
  {
    var last := items[|items| - 1];
    assert LineTotal(last) >= floor by {
      MulAtLeastSelf(last.price, last.qty);
    }
    if |items| > 1 {
      TotalMeetsFloor(items[..|items| - 1], floor);
    }
  }

  lemma MulAtLeastSelf(a: int, b: int)
    requires a >= 0 && b >= 1
    ensures a * b >= a
  {
  }

  lemma MulAtLeastOne(a: int, b: int)
    requires a >= 1 && b >= 1
    ensures a * b >= 1
  {
  }

  /** Changing a line's quantity by `delta` changes what it adds to the
      total by `delta` times its unit price. */
  lemma BumpedLineTotal(line: CartLine, delta: int)
    ensures LineTotal(Bumped(line, delta)) == LineTotal(line) + line.price * delta
  {
    assert line.price * (line.qty + delta) == line.price * line.qty + line.price * delta;
  }

  /** `line` with `delta` added to its quantity, as `line.qty += delta` leaves it. */
  function Bumped(line: CartLine, delta: int): (r: CartLine)
    ensures r.qty == line.qty + delta
    ensures r.key == line.key && r.productId == line.productId && r.title == line.title
    ensures r.size == line.size && r.price == line.price && r.thumb == line.thumb
  {
    line.(qty := line.qty + delta)
  }

  /** The line `addToCart` pushes for a key it has not seen: the key, the
      product's id, title and thumbnail, the size label, the variant's price
      at this moment, and quantity 1. */
  function NewLine(p: Product, o: SizeOption): (line: CartLine)
    ensures line.key == KeyOf(p.id, o.size) && line.productId == p.id && line.size == o.size
    ensures line.title == p.title && line.thumb == p.thumb
    ensures line.price == o.price && line.qty == 1
  {
    CartLine(KeyOf(p.id, o.size), p.id, p.title, o.size, o.price, p.thumb, 1)
  }

  /** The array `addToCart` saves, given the line it would push: the first
      line with that key gets one more, and a key not yet in the cart is
      appended as the new line. */
  function Added(items: seq<CartLine>, pushed: CartLine): (r: seq<CartLine>)
    ensures |r| == if IndexOf(items, pushed.key) < |items| then |items| else |items| + 1
    ensures IndexOf(items, pushed.key) < |r| && r[IndexOf(items, pushed.key)].key == pushed.key
  {
    var i := IndexOf(items, pushed.key);
    if i < |items| then items[i := Bumped(items[i], 1)]
    else items + [pushed]
  }

  /** Adding a variant already in the cart raises that line's quantity by
      exactly one; no line is added, nothing else on that line changes (its
      price stays the one captured when it was created), and every other line
      stays where it was. */
  lemma AddPresentIncrements(items: seq<CartLine>, pushed: CartLine)
    requires IndexOf(items, pushed.key) < |items|
    ensures var i := IndexOf(items, pushed.key);
            var r := Added(items, pushed);
            && |r| == |items|
            && r[i] == Bumped(items[i], 1)
            && forall j :: 0 <= j < |items| && j != i ==> r[j] == items[j]
  {
  }

  /** Adding a variant not yet in the cart appends the new line at the end;
      the lines before it are untouched and it is the only line with its key. */
  lemma AddAbsentAppends(items: seq<CartLine>, pushed: CartLine)
    requires IndexOf(items, pushed.key) == |items|
    ensures var r := Added(items, pushed);
            && |r| == |items| + 1
            && r[..|items|] == items
            && r[|items|] == pushed
            && Lacks(items, pushed.key)
  {
    var r := Added(items, pushed);
    assert r[..|items|] == items;
  }

  /** Adding keeps the cart invariant, and a price floor every line meets
      stays met when the pushed line meets it too. */
  lemma AddKeepsWellFormed(items: seq<CartLine>, pushed: CartLine, floor: int)
    requires pushed.qty == 1
    ensures WellFormed(items) ==> WellFormed(Added(items, pushed))
    ensures PricesAtLeast(items, floor) && pushed.price >= floor ==> PricesAtLeast(Added(items, pushed), floor)
  {
  }

  /** Adding to a line already in the cart raises the count by one and the
      total by that line's own unit price, the one captured when it was
      created, whatever the catalog says now. */
  lemma AddPresentCountTotal(items: seq<CartLine>, pushed: CartLine)
    requires IndexOf(items, pushed.key) < |items|
    ensures Count(Added(items, pushed)) == Count(items) + 1
    ensures Total(Added(items, pushed)) == Total(items) + items[IndexOf(items, pushed.key)].price
  {
    var i := IndexOf(items, pushed.key);
    var line := Bumped(items[i], 1);
    assert Added(items, pushed) == items[i := line];
    FoldsUpdate(items, i, line);
    BumpedLineTotal(items[i], 1);
  }

  /** Adding a new line of quantity 1 raises the count by one and the total
      by the new line's price. */
  lemma {:induction false} AddAbsentCountTotal(items: seq<CartLine>, pushed: CartLine)
    requires IndexOf(items, pushed.key) == |items|
    requires pushed.qty == 1
    ensures Count(Added(items, pushed)) == Count(items) + 1
    ensures Total(Added(items, pushed)) == Total(items) + pushed.price
  {
    assert Added(items, pushed) == items + [pushed];
    FoldsConcat(items, [pushed]);
  }

  /** `n` successive adds of the same variant. */
  function AddTimes(items: seq<CartLine>, pushed: CartLine, n: nat): seq<CartLine>
    decreases n
  {
    if n == 0 then items else Added(AddTimes(items, pushed, n - 1), pushed)
  }

  /** Starting from a cart without the variant, `n >= 1` adds of it leave the
      other lines alone and append exactly one line with its key, whose
      quantity is `n`. */
  lemma {:induction false} RepeatedAdds(items: seq<CartLine>, pushed: CartLine, n: nat)
    requires Lacks(items, pushed.key)
    requires pushed.qty == 1
    requires n >= 1
    ensures AddTimes(items, pushed, n) == items + [pushed.(qty := n)]
    ensures IndexOf(AddTimes(items, pushed, n), pushed.key) == |items|
    decreases n
  {
    if n == 1 {
      assert IndexOf(items, pushed.key) == |items|;
      assert pushed.(qty := 1) == pushed;
    } else {
      RepeatedAdds(items, pushed, n - 1);
      var last := pushed.(qty := n - 1);
      var prev := AddTimes(items, pushed, n - 1);
      assert prev == items + [last];
      assert Added(prev, pushed) == prev[|items| := Bumped(last, 1)];
      assert Bumped(last, 1) == pushed.(qty := n);
      assert prev[|items| := pushed.(qty := n)] == items + [pushed.(qty := n)];
    }
    AppendedKeyIndex(items, pushed.(qty := n));
  }

  /** A line appended to a cart that lacks its key is found at the end. */
  lemma AppendedKeyIndex(items: seq<CartLine>, line: CartLine)
    requires Lacks(items, line.key)
    ensures IndexOf(items + [line], line.key) == |items|
  {
    var r := items + [line];
    assert forall j :: 0 <= j < |items| ==> r[j] == items[j];
    assert r[|items|] == line;
  }

  /** The array `changeQty` saves, or leaves unsaved: for the first line with
      `key`, its quantity plus `delta`, and the line removed once that reaches
      zero or below. An unknown key leaves the lines as they are. */
  function Changed(items: seq<CartLine>, key: string, delta: int): (r: seq<CartLine>)
    ensures |items| - 1 <= |r| <= |items| && IndexOf(items, key) <= |r|
    ensures forall j :: 0 <= j < IndexOf(items, key) ==> r[j] == items[j]
  {
    var i := IndexOf(items, key);
    if i == |items| then items
    else if items[i].qty + delta <= 0 then items[..i] + items[i + 1..]
    else items[i := Bumped(items[i], delta)]
  }

  /** A change for a key that is not in the cart changes nothing. */
  lemma ChangeAbsentIsNoOp(items: seq<CartLine>, key: string, delta: int)
    requires Lacks(items, key)
    ensures Changed(items, key, delta) == items
  {
  }

  /** A change that leaves the quantity positive updates that line in place
      and touches no other line. */
  lemma ChangeInPlace(items: seq<CartLine>, key: string, delta: int)
    requires IndexOf(items, key) < |items|
    requires items[IndexOf(items, key)].qty + delta > 0
    ensures var i := IndexOf(items, key);
            var r := Changed(items, key, delta);
            && |r| == |items|
            && r[i] == Bumped(items[i], delta)
            && forall j :: 0 <= j < |items| && j != i ==> r[j] == items[j]
  {
  }

  /** A change that takes the quantity to zero or below removes that line
      alone; the lines before and after it keep their order. In a cart with
      unique keys, the key is then gone. */
  lemma ChangeRemovesLine(items: seq<CartLine>, key: string, delta: int)
    requires IndexOf(items, key) < |items|
    requires items[IndexOf(items, key)].qty + delta <= 0
    ensures var i := IndexOf(items, key);
            var r := Changed(items, key, delta);
            && |r| == |items| - 1
            && (forall j :: 0 <= j < i ==> r[j] == items[j])
            && (forall j :: i <= j < |r| ==> r[j] == items[j + 1])
            && (UniqueKeys(items) ==> Lacks(r, key))
  {
    var i := IndexOf(items, key);
    assert Changed(items, key, delta) == items[..i] + items[i + 1..];
    RemoveAt(items, i);
    if UniqueKeys(items) {
      RemoveUniqueKey(items, i);
    }
  }

  /** What splicing out position `i` leaves: the elements before it in
      place, and the ones after it shifted down by one. */
  lemma RemoveAt<T>(s: seq<T>, i: nat)
    requires i < |s|
    ensures var r := s[..i] + s[i + 1..];
            && |r| == |s| - 1
            && (forall j :: 0 <= j < i ==> r[j] == s[j])
            && (forall j :: i <= j < |r| ==> r[j] == s[j + 1])
  {
  }

  /** With unique keys, splicing out a line removes its key from the cart. */
  lemma RemoveUniqueKey(items: seq<CartLine>, i: nat)
    requires UniqueKeys(items) && i < |items|
    ensures Lacks(items[..i] + items[i + 1..], items[i].key)
  {
    var r := items[..i] + items[i + 1..];
    RemoveAt(items, i);
    forall j | 0 <= j < |r|
      ensures r[j].key != items[i].key
    {
      if j < i {
        assert r[j] == items[j];
      } else {
        assert r[j] == items[j + 1];
      }
    }
  }

  /** A change keeps the cart invariant: keys stay unique and no line with a
      quantity of zero or below is left. */
  lemma ChangeKeepsWellFormed(items: seq<CartLine>, key: string, delta: int, floor: int)
    ensures WellFormed(items) ==> WellFormed(Changed(items, key, delta))
    ensures PricesAtLeast(items, floor) ==> PricesAtLeast(Changed(items, key, delta), floor)
  {
    var i := IndexOf(items, key);
    if i < |items| && items[i].qty + delta <= 0 {
      ChangeRemovesLine(items, key, delta);
    }
  }

  /** What one change does to the count and the total. */
  lemma ChangeCountTotal(items: seq<CartLine>, key: string, delta: int)
    ensures var i := IndexOf(items, key);
            var r := Changed(items, key, delta);
            && (i == |items| ==> Count(r) == Count(items) && Total(r) == Total(items))
            && (i < |items| && items[i].qty + delta > 0 ==>
                  Count(r) == Count(items) + delta
                  && Total(r) == Total(items) + items[i].price * delta)
            && (i < |items| && items[i].qty + delta <= 0 ==>
                  Count(r) == Count(items) - items[i].qty
                  && Total(r) == Total(items) - LineTotal(items[i]))
  {
    var i := IndexOf(items, key);
    if i < |items| {
      if items[i].qty + delta > 0 {
        var line := Bumped(items[i], delta);
        FoldsUpdate(items, i, line);
        BumpedLineTotal(items[i], delta);
      } else {
        FoldsRemove(items, i);
      }
    }
  }

  function Sum(ds: seq<int>): int {
    if |ds| == 0 then 0 else ds[0] + Sum(ds[1..])
  }

  /** Every running quantity `q + ds[0]`, `q + ds[0] + ds[1]`, ... is positive. */
  predicate StaysPositive(q: int, ds: seq<int>)
    decreases |ds|
  {
    |ds| == 0 || (q + ds[0] > 0 && StaysPositive(q + ds[0], ds[1..]))
  }

  /** One change that keeps the quantity positive leaves the line where it
      was, under the same key, and keys unique. */
  lemma ChangeStepInPlace(items: seq<CartLine>, key: string, delta: int)
    requires UniqueKeys(items)
    requires IndexOf(items, key) < |items|
    requires items[IndexOf(items, key)].qty + delta > 0
    ensures var i := IndexOf(items, key);
            var next := Changed(items, key, delta);
            && next == items[i := Bumped(items[i], delta)]
            && UniqueKeys(next)
            && IndexOf(next, key) == i
  {
    var i := IndexOf(items, key);
    var next := Changed(items, key, delta);
    assert forall j :: 0 <= j < |next| ==> next[j].key == items[j].key;
  }

  lemma UpdateTwice<T>(s: seq<T>, i: nat, x: T, y: T)
    requires i < |s|
    ensures s[i := x][i := y] == s[i := y]
  {
  }

  lemma UpdateThenSplice<T>(s: seq<T>, i: nat, x: T)
    requires i < |s|
    ensures s[i := x][..i] + s[i := x][i + 1..] == s[..i] + s[i + 1..]
  {
    assert s[i := x][..i] == s[..i];
    assert s[i := x][i + 1..] == s[i + 1..];
  }

  /** Successive `changeQty(key, d)` calls, one per delta, in order. */
  function ApplyChanges(items: seq<CartLine>, key: string, ds: seq<int>): seq<CartLine>
    decreases |ds|
  {
    if |ds| == 0 then items else ApplyChanges(Changed(items, key, ds[0]), key, ds[1..])
  }

  /** Changes for a key the cart does not hold are all no-ops. */
  lemma {:induction false} ChangesOnAbsentKey(items: seq<CartLine>, key: string, ds: seq<int>)
    requires Lacks(items, key)
    ensures ApplyChanges(items, key, ds) == items
    decreases |ds|
  {
    if |ds| > 0 {
      ChangeAbsentIsNoOp(items, key, ds[0]);
      ChangesOnAbsentKey(items, key, ds[1..]);
    }
  }

  /** A run of changes on one line of a cart with unique keys: as long as every
      running quantity stays positive, the line stays where it is with its
      starting quantity plus the sum of the deltas; as soon as one running
      quantity reaches zero or below the line is removed, and later changes,
      even positive ones, find no line and leave the cart as it is. */
  lemma {:induction false} ChangesFollowRunningQuantity(items: seq<CartLine>, key: string, ds: seq<int>)
    requires UniqueKeys(items)
    requires IndexOf(items, key) < |items|
    ensures var i := IndexOf(items, key);
            ApplyChanges(items, key, ds) ==
              if StaysPositive(items[i].qty, ds) then items[i := Bumped(items[i], Sum(ds))]
              else items[..i] + items[i + 1..]
    decreases |ds|
  {
    var i := IndexOf(items, key);
    var q := items[i].qty;
    if |ds| == 0 {
      assert items[i := Bumped(items[i], 0)] == items;
    } else {
      var d, rest := ds[0], ds[1..];
      var next := Changed(items, key, d);
      if q + d > 0 {
        ChangeStepInPlace(items, key, d);
        ChangesFollowRunningQuantity(next, key, rest);
        var once := Bumped(items[i], d);
        assert Bumped(once, Sum(rest)) == Bumped(items[i], Sum(ds));
        UpdateTwice(items, i, once, Bumped(items[i], Sum(ds)));
        UpdateThenSplice(items, i, once);
      } else {
        ChangeRemovesLine(items, key, d);
        ChangesOnAbsentKey(next, key, rest);
      }
    }
  }
}
