/**
 * The minimum-order rule, which the storefront applies twice: once when the
 * drawer is redrawn (the warning and the checkout button), and once more
 * when the checkout button is pressed, before anything is sent.
 */
module Checkout {
  import opened Catalog
  import opened Cart
  import opened OrderMessage
  import opened Storage

  /** What the drawer shows after a redraw: whether the minimum-order
      warning is visible and whether the checkout button is disabled. */
  datatype DrawerGate = DrawerGate(minWarning: bool, checkoutDisabled: bool)

  /** The drawer's decision in `updateCartUI`: a positive total under the
      minimum shows the warning and disables checkout; otherwise the warning
      is hidden and the button is disabled only for an empty cart. */
  function DrawerGateOf(items: seq<CartLine>, minOrder: int): (g: DrawerGate)
    ensures g.minWarning ==> g.checkoutDisabled
    ensures g.minWarning <==> 0 < Total(items) < minOrder
    ensures !g.checkoutDisabled <==> |items| > 0 && !(0 < Total(items) < minOrder)
  {
    var total := Total(items);
    if total > 0 && total < minOrder then DrawerGate(true, true)
    else DrawerGate(false, |items| == 0)
  }

  /** How pressing checkout ends: nothing happens for an empty cart, a toast
      refuses a total under the minimum, and otherwise the message is sent. */
  datatype Submission = EmptyCart | BelowMinimum | Dispatch(message: string)

  /** The decision in `openTelegramOrder`, and the message it dispatches. */
  function Submit(items: seq<CartLine>, ctx: OrderContext, minOrder: int, fmtRub: int -> string): (s: Submission)
    ensures s.EmptyCart? <==> |items| == 0
    ensures s.BelowMinimum? <==> |items| > 0 && Total(items) < minOrder
    ensures s.Dispatch? <==> |items| > 0 && Total(items) >= minOrder
    ensures s.Dispatch? ==> s.message == BuildOrderMessage(items, ctx, fmtRub)
  {
    if |items| == 0 then EmptyCart
    else if Total(items) < minOrder then BelowMinimum
    else Dispatch(BuildOrderMessage(items, ctx, fmtRub))
  }

  /** A total exactly at the minimum is enough: the drawer enables checkout
      and pressing it sends the order. */
  lemma MinimumIsInclusive(items: seq<CartLine>, ctx: OrderContext, minOrder: int, fmtRub: int -> string)
    requires |items| > 0 && Total(items) == minOrder
    ensures !DrawerGateOf(items, minOrder).checkoutDisabled
    ensures Submit(items, ctx, minOrder, fmtRub).Dispatch?
  {
  }

  /** The two checks agree whenever every line has a positive price and a
      positive quantity: the button is disabled exactly when pressing it
      would send nothing. */
  lemma GateAgreement(items: seq<CartLine>, ctx: OrderContext, minOrder: int, fmtRub: int -> string)
    requires PositiveQuantities(items) && PositivePrices(items)
    ensures DrawerGateOf(items, minOrder).checkoutDisabled <==> !Submit(items, ctx, minOrder, fmtRub).Dispatch?
  {
    FoldsPositive(items);
  }

  /** They need not agree otherwise: a stored line with price 0 gives a
      total of 0, which the drawer does not treat as under the minimum, so
      the button is enabled while pressing it is refused. */
  lemma GatesDisagreeOnFreeLine(ctx: OrderContext, fmtRub: int -> string)
    ensures var items := [CartLine("metal_uv_poster__60\U{00D7}80", "metal_uv_poster", "", "60\U{00D7}80", 0, "", 1)];
            && !DrawerGateOf(items, Products[0].minOrder).checkoutDisabled
            && Submit(items, ctx, Products[0].minOrder, fmtRub).BelowMinimum?
  {
    var items := [CartLine("metal_uv_poster__60\U{00D7}80", "metal_uv_poster", "", "60\U{00D7}80", 0, "", 1)];
    assert Total(items) == Total([]) + LineTotal(items[0]);
  }

  /** Every cart the storefront's own buttons can produce meets the minimum
      as soon as it holds a line, since each variant costs at least that: the
      warning never shows for it, and checkout is refused only when empty. */
  lemma ReachableCartsMeetMinimum(items: seq<CartLine>, ctx: OrderContext, fmtRub: int -> string)
    ensures Reachable(items) ==> !DrawerGateOf(items, Products[0].minOrder).minWarning
    ensures Reachable(items) ==> (Submit(items, ctx, Products[0].minOrder, fmtRub).Dispatch? <==> |items| > 0)
  {
    if |items| > 0 && Reachable(items) {
      TotalMeetsFloor(items, Products[0].minOrder);
    }
  }

  /** One visit: the smallest poster alone meets the minimum exactly; a
      second size makes two lines worth 21514; taking the first back off
      removes its line and leaves 12110; clearing leaves a cart whose
      checkout is disabled. */
  lemma ShoppingScenario(ctx: OrderContext, fmtRub: int -> string)
    ensures var p := Products[0];
            var min := p.minOrder;
            var small := NewLine(p, p.options[0]);
            var large := NewLine(p, p.options[1]);
            var one := Added([], small);
            var two := Added(one, large);
            var back := Changed(two, small.key, -1);
            && Submit(one, ctx, min, fmtRub).Dispatch? && Total(one) == 9404
            && |two| == 2 && Count(two) == 2 && Total(two) == 21514
            && back == [large] && Total(back) == 12110
            && DrawerGateOf([], min).checkoutDisabled
  {
    ScenarioFirstAdd();
    ScenarioSecondAdd();
    ScenarioTakeBack();
  }

  lemma ScenarioFirstAdd()
    ensures var p := Products[0];
            var small := NewLine(p, p.options[0]);
            Added([], small) == [small] && Total([small]) == 9404 == p.minOrder
  {
    var p := Products[0];
    var small := NewLine(p, p.options[0]);
    AddAbsentCountTotal([], small);
  }

  lemma ScenarioSecondAdd()
    ensures var p := Products[0];
            var small := NewLine(p, p.options[0]);
            var large := NewLine(p, p.options[1]);
            && Added([small], large) == [small, large]
            && Count([small, large]) == 2 && Total([small, large]) == 21514
  {
    var p := Products[0];
    var small := NewLine(p, p.options[0]);
    var large := NewLine(p, p.options[1]);
    DistinctSizeKeys(p);
    assert IndexOf([small], large.key) == 1;
    assert Added([small], large) == [small, large];
    AddAbsentCountTotal([small], large);
    assert Total([small]) == 9404 && Count([small]) == 1;
  }

  lemma ScenarioTakeBack()
    ensures var p := Products[0];
            var small := NewLine(p, p.options[0]);
            var large := NewLine(p, p.options[1]);
            Changed([small, large], small.key, -1) == [large] && Total([large]) == 12110
  {
    var p := Products[0];
    var small := NewLine(p, p.options[0]);
    var large := NewLine(p, p.options[1]);
    assert IndexOf([small, large], small.key) == 0;
    assert [small, large][1..] == [large];
    assert Total([large]) == Total([]) + LineTotal(large);
  }

  /** The first two sizes of the poster give different cart keys. */
  lemma DistinctSizeKeys(p: Product)
    requires p == Products[0]
    ensures NewLine(p, p.options[0]).key != NewLine(p, p.options[1]).key
  {
    var small := NewLine(p, p.options[0]);
    var large := NewLine(p, p.options[1]);
    assert small.key[|p.id| + 2..] == p.options[0].size;
    assert large.key[|p.id| + 2..] == p.options[1].size;
    assert |p.options[0].size| != |p.options[1].size|;
  }

  /** The badge count and the drawer gate `updateCartUI` derives from the
      stored cart. Nothing is written. */
  method UpdateCartUI(store: CartStorage) returns (count: int, gate: DrawerGate)
    ensures count == Count(Loaded(store.slot))
    ensures gate == DrawerGateOf(Loaded(store.slot), Products[0].minOrder)
    ensures gate.checkoutDisabled <==> Loaded(store.slot) == [] || gate.minWarning
  {
    var items := store.LoadCart();
    count := Count(items);
    gate := DrawerGateOf(items, Products[0].minOrder);
  }

  /** `openTelegramOrder` up to the dispatch: the stored cart is checked
      against the catalog's minimum, and the message is composed from the
      same stored cart and the form. Nothing is written. */
  method OpenTelegramOrder(store: CartStorage, ctx: OrderContext, fmtRub: int -> string) returns (s: Submission)
    ensures s == Submit(Loaded(store.slot), ctx, Products[0].minOrder, fmtRub)
    ensures Reachable(Loaded(store.slot)) ==> (s.Dispatch? <==> Loaded(store.slot) != [])
  {
    var items := store.LoadCart();
    ReachableCartsMeetMinimum(items, ctx, fmtRub);
    if |items| == 0 {
      return EmptyCart;
    }
    var total := Total(items);
    var min := Products[0].minOrder;
    if total < min {
      return BelowMinimum;
    }
    var message := BuildOrderMessage(items, ctx, fmtRub);
    s := Dispatch(message);
  }
}
