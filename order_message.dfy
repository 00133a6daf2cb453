/**
 * `buildOrderMessage`: the cart and the order form, turned into the fixed
 * line-by-line text handed to Telegram. The form fields it reads at send
 * time are passed in as an `OrderContext`, and the currency formatter
 * `fmtRub` (an `Intl.NumberFormat` for "ru-RU" roubles) as a function
 * parameter whose behaviour the model does not fix.
 */
module OrderMessage {
  import opened Text
  import opened Cart

  /** The order form at send time: the delivery select's value ("rf" or
      "by"), the city/address input and the comment input, all untrimmed. */
  datatype OrderContext = OrderContext(delivery: string, city: string, comment: string)

  // Each fixed text below equals the literal the storefront writes.
  const Greeting: string := "Здравствуйте! " + "Хочу оформить " + "заказ в АвтоПостер:"
  const Closing: string := "Фото/референсы " + "пришлю сюда. " + "Жду макет " + "на согласование \U{1F642}"
  const CityPrefix: string := "Город/адрес: "
  const CommentPrefix: string := "Пожелания по стилю/тексту: "
  const TotalPrefix: string := "Итого: "
  const DeliveryPrefix: string := "Доставка: "
  const ToBelarus: string := "Республика Беларусь " + "(с доплатой)"
  const WithinRussia: string := "РФ (бесплатно)"

  /** The delivery line: the Belarus surcharge text for "by", and the free
      delivery within Russia for every other value. */
  function DeliveryLine(delivery: string): (line: string)
    ensures delivery == "by" ==> line == DeliveryPrefix + ToBelarus
    ensures delivery != "by" ==> line == DeliveryPrefix + WithinRussia
  {
    DeliveryPrefix + (if delivery == "by" then ToBelarus else WithinRussia)
  }

  /** The four lines pushed for the item at 0-based position `idx`: its
      1-based number and title, then size, quantity and subtotal. */
  function ItemBlock(idx: nat, it: CartLine, fmtRub: int -> string): (block: seq<string>)
    ensures |block| == 4
  {
    [ Decimal(idx + 1) + ") " + it.title,
      "   \U{2022} Размер: " + it.size,
      "   \U{2022} Кол-во: " + IntToString(it.qty),
      "   \U{2022} Сумма: " + fmtRub(LineTotal(it)) ]
  }

  /** The lines `items.forEach((it, idx) => ...)` pushes, numbering the
      first item `from + 1`. Item `k` owns lines `4k` to `4k + 3`. */
  function ItemLines(items: seq<CartLine>, from: nat, fmtRub: int -> string): (lines: seq<string>)
    ensures |lines| == 4 * |items|
    ensures forall k :: 0 <= k < |items| ==> lines[4 * k..4 * k + 4] == ItemBlock(from + k, items[k], fmtRub)
    decreases |items|
  {
    if |items| == 0 then []
    else
      var head := ItemBlock(from, items[0], fmtRub);
      var rest := ItemLines(items[1..], from + 1, fmtRub);
      BlocksAfterBlock(head, rest, |items| - 1);
      head + rest
  }

  /** Whether the trimmed city and comment give a line of their own. */
  function OptionalLines(ctx: OrderContext): (lines: seq<string>)
    ensures |lines| == (if Trim(ctx.city) != [] then 1 else 0) + (if Trim(ctx.comment) != [] then 1 else 0)
    ensures Trim(ctx.city) != [] ==> lines[0] == CityPrefix + Trim(ctx.city)
    ensures Trim(ctx.comment) != [] ==> lines[|lines| - 1] == CommentPrefix + Trim(ctx.comment)
  {
    var city := Trim(ctx.city);
    var comment := Trim(ctx.comment);
    (if city != [] then [CityPrefix + city] else [])
    + (if comment != [] then [CommentPrefix + comment] else [])
  }

  /** The first part of the message: the greeting, a blank line, and four
      lines per item in cart order. */
  function ItemsSection(items: seq<CartLine>, fmtRub: int -> string): (lines: seq<string>)
    ensures |lines| == 4 * |items| + 2
    ensures lines[0] == Greeting && lines[1] == ""
    ensures forall k :: 0 <= k < |items| ==> lines[2 + 4 * k..6 + 4 * k] == ItemBlock(k, items[k], fmtRub)
  {
    var body := ItemLines(items, 0, fmtRub);
    BlocksAfterOpening([Greeting, ""], body, |items|);
    [Greeting, ""] + body
  }

  /** The second part: a blank line, the delivery line, the optional city
      and comment lines, a blank line, the total, a blank line and the
      closing line. */
  function FooterSection(items: seq<CartLine>, ctx: OrderContext, fmtRub: int -> string): (lines: seq<string>)
    ensures |lines| == 6 + |OptionalLines(ctx)|
    ensures lines[0] == "" && lines[1] == DeliveryLine(ctx.delivery)
    ensures lines[2..2 + |OptionalLines(ctx)|] == OptionalLines(ctx)
    ensures lines[|lines| - 4..] == ["", TotalPrefix + fmtRub(Total(items)), "", Closing]
  {
    var opt := OptionalLines(ctx);
    var tail := ["", TotalPrefix + fmtRub(Total(items)), "", Closing];
    var lines := ["", DeliveryLine(ctx.delivery)] + opt + tail;
    assert lines[2..2 + |opt|] == opt;
    assert lines[|lines| - 4..] == tail;
    lines
  }

  /** The `lines` array `buildOrderMessage` fills: the greeting part, then
      the footer. OrderLinesGreeting, OrderLinesItems, OrderLinesDelivery,
      OrderLinesFooter and OrderLinesClosing state its layout line by line. */
  function OrderLines(items: seq<CartLine>, ctx: OrderContext, fmtRub: int -> string): (lines: seq<string>)
    ensures |lines| == 4 * |items| + 8 + |OptionalLines(ctx)|
  {
    ItemsSection(items, fmtRub) + FooterSection(items, ctx, fmtRub)
  }

  /** The message opens with the greeting and a blank line. */
  lemma OrderLinesGreeting(items: seq<CartLine>, ctx: OrderContext, fmtRub: int -> string)
    ensures OrderLines(items, ctx, fmtRub)[0] == Greeting
    ensures OrderLines(items, ctx, fmtRub)[1] == ""
  {
    var head := ItemsSection(items, fmtRub);
    var foot := FooterSection(items, ctx, fmtRub);
    assert OrderLines(items, ctx, fmtRub) == head + foot;
    assert (head + foot)[0] == head[0] && (head + foot)[1] == head[1];
  }

  /** Then come four lines per item in cart order, item `k` numbered `k + 1`. */
  lemma OrderLinesItems(items: seq<CartLine>, ctx: OrderContext, fmtRub: int -> string)
    ensures var lines := OrderLines(items, ctx, fmtRub);
            forall k :: 0 <= k < |items| ==> lines[2 + 4 * k..6 + 4 * k] == ItemBlock(k, items[k], fmtRub)
  {
    var head := ItemsSection(items, fmtRub);
    var foot := FooterSection(items, ctx, fmtRub);
    assert OrderLines(items, ctx, fmtRub) == head + foot;
    BlocksOfPrefix(head, foot, |items|);
  }

  /** After the items come a blank line and the delivery line. */
  lemma OrderLinesDelivery(items: seq<CartLine>, ctx: OrderContext, fmtRub: int -> string)
    ensures var lines := OrderLines(items, ctx, fmtRub);
            lines[4 * |items| + 2] == "" && lines[4 * |items| + 3] == DeliveryLine(ctx.delivery)
  {
    var head := ItemsSection(items, fmtRub);
    var foot := FooterSection(items, ctx, fmtRub);
    assert OrderLines(items, ctx, fmtRub) == head + foot;
    PartsOfSuffix(head, foot, |OptionalLines(ctx)|);
  }

  /** Everything after the items is the footer: its blank line, delivery
      line, optional city and comment lines, and closing four lines, as
      FooterSection lays them out. */
  lemma OrderLinesFooter(items: seq<CartLine>, ctx: OrderContext, fmtRub: int -> string)
    ensures OrderLines(items, ctx, fmtRub)[4 * |items| + 2..] == FooterSection(items, ctx, fmtRub)
  {
    var head := ItemsSection(items, fmtRub);
    var foot := FooterSection(items, ctx, fmtRub);
    assert OrderLines(items, ctx, fmtRub) == head + foot;
    assert (head + foot)[|head|..] == foot;
  }

  /** The message closes with a blank line, the grand total, a blank line
      and the closing line. */
  lemma OrderLinesClosing(items: seq<CartLine>, ctx: OrderContext, fmtRub: int -> string)
    ensures var lines := OrderLines(items, ctx, fmtRub);
            lines[|lines| - 4..] == ["", TotalPrefix + fmtRub(Total(items)), "", Closing]
  {
    var head := ItemsSection(items, fmtRub);
    var foot := FooterSection(items, ctx, fmtRub);
    assert OrderLines(items, ctx, fmtRub) == head + foot;
    PartsOfSuffix(head, foot, |OptionalLines(ctx)|);
  }

  /** `lines.join("\n")`. Whenever no line holds a newline of its own, the
      message splits back into exactly the lines it was built from. */
  function BuildOrderMessage(items: seq<CartLine>, ctx: OrderContext, fmtRub: int -> string): (message: string)
    ensures NoNewline(OrderLines(items, ctx, fmtRub)) ==> SplitLines(message) == OrderLines(items, ctx, fmtRub)
  {
    var lines := OrderLines(items, ctx, fmtRub);
    if NoNewline(lines) then
      SplitJoin(lines);
      JoinLines(lines)
    else JoinLines(lines)
  }

  /** No line of the message breaks in two as long as no title, size or
      formatted amount holds a newline and the city and comment inputs hold
      none: then the sent text splits back into exactly the composed lines. */
  lemma MessageSplitsIntoLines(items: seq<CartLine>, ctx: OrderContext, fmtRub: int -> string)
    requires forall k :: 0 <= k < |items| ==> '\n' !in items[k].title && '\n' !in items[k].size
    requires forall x :: '\n' !in fmtRub(x)
    requires '\n' !in ctx.city && '\n' !in ctx.comment
    ensures NoNewline(OrderLines(items, ctx, fmtRub))
    ensures SplitLines(BuildOrderMessage(items, ctx, fmtRub)) == OrderLines(items, ctx, fmtRub)
  {
    ItemsSectionNoNewline(items, fmtRub);
    FooterSectionNoNewline(items, ctx, fmtRub);
    NoNewlineConcat(ItemsSection(items, fmtRub), FooterSection(items, ctx, fmtRub));
  }

  lemma ItemsSectionNoNewline(items: seq<CartLine>, fmtRub: int -> string)
    requires forall k :: 0 <= k < |items| ==> '\n' !in items[k].title && '\n' !in items[k].size
    requires forall x :: '\n' !in fmtRub(x)
    ensures NoNewline(ItemsSection(items, fmtRub))
  {
    var body := ItemLines(items, 0, fmtRub);
    ItemLinesNoNewline(items, 0, fmtRub);
    GreetingNoNewline();
    NoNewlineCons("", body);
    NoNewlineCons(Greeting, [""] + body);
    assert ItemsSection(items, fmtRub) == [Greeting] + ([""] + body);
  }

  lemma FooterSectionNoNewline(items: seq<CartLine>, ctx: OrderContext, fmtRub: int -> string)
    requires forall x :: '\n' !in fmtRub(x)
    requires '\n' !in ctx.city && '\n' !in ctx.comment
    ensures NoNewline(FooterSection(items, ctx, fmtRub))
  {
    var total := TotalPrefix + fmtRub(Total(items));
    NoNewlinePrefixed(TotalPrefix, fmtRub(Total(items)));
    OptionalLinesNoNewline(ctx);
    DeliveryLineNoNewline(ctx.delivery);
    FooterLinesNoNewline(DeliveryLine(ctx.delivery), OptionalLines(ctx), total);
  }

  lemma FooterLinesNoNewline(delivery: string, opt: seq<string>, total: string)
    requires '\n' !in delivery && NoNewline(opt) && '\n' !in total
    ensures NoNewline(["", delivery] + opt + ["", total, "", Closing])
  {
    ClosingNoNewline();
    NoNewlineCons(Closing, []);
    NoNewlineCons("", [Closing]);
    NoNewlineCons(total, ["", Closing]);
    NoNewlineCons("", [total, "", Closing]);
    NoNewlineCons(delivery, []);
    NoNewlineCons("", [delivery]);
    NoNewlineConcat(["", delivery], opt);
    NoNewlineConcat(["", delivery] + opt, ["", total, "", Closing]);
  }

  lemma OptionalLinesNoNewline(ctx: OrderContext)
    requires '\n' !in ctx.city && '\n' !in ctx.comment
    ensures NoNewline(OptionalLines(ctx))
  {
    TrimNoNewline(ctx.city);
    TrimNoNewline(ctx.comment);
    NoNewlinePrefixed(CityPrefix, Trim(ctx.city));
    NoNewlinePrefixed(CommentPrefix, Trim(ctx.comment));
  }

  lemma DeliveryLineNoNewline(delivery: string)
    ensures '\n' !in DeliveryLine(delivery)
  {
    NoNewlinePrefixed(DeliveryPrefix, if delivery == "by" then ToBelarus else WithinRussia);
  }

  lemma GreetingNoNewline()
    ensures '\n' !in Greeting
  {
  }

  lemma ClosingNoNewline()
    ensures '\n' !in Closing
  {
  }

  lemma NoNewlineCons(line: string, rest: seq<string>)
    requires '\n' !in line && NoNewline(rest)
    ensures NoNewline([line] + rest)
  {
    assert forall k :: 1 <= k < |rest| + 1 ==> ([line] + rest)[k] == rest[k - 1];
  }

  lemma {:induction false} ItemLinesNoNewline(items: seq<CartLine>, from: nat, fmtRub: int -> string)
    requires forall k :: 0 <= k < |items| ==> '\n' !in items[k].title && '\n' !in items[k].size
    requires forall x :: '\n' !in fmtRub(x)
    ensures NoNewline(ItemLines(items, from, fmtRub))
    decreases |items|
  {
    if |items| > 0 {
      var it := items[0];
      DigitsNoNewline(Decimal(from + 1));
      DigitsNoNewline(IntToString(it.qty));
      NoNewlinePrefixed(Decimal(from + 1) + ") ", it.title);
      NoNewlinePrefixed("   \U{2022} Размер: ", it.size);
      NoNewlinePrefixed("   \U{2022} Кол-во: ", IntToString(it.qty));
      NoNewlinePrefixed("   \U{2022} Сумма: ", fmtRub(LineTotal(it)));
      ItemLinesNoNewline(items[1..], from + 1, fmtRub);
      NoNewlineConcat(ItemBlock(from, it, fmtRub), ItemLines(items[1..], from + 1, fmtRub));
    }
  }

  lemma NoNewlineConcat(a: seq<string>, b: seq<string>)
    requires NoNewline(a) && NoNewline(b)
    ensures NoNewline(a + b)
  {
    assert forall k :: |a| <= k < |a + b| ==> (a + b)[k] == b[k - |a|];
  }

  lemma NoNewlinePrefixed(prefix: string, s: string)
    requires '\n' !in prefix && '\n' !in s
    ensures '\n' !in prefix + s
  {
  }

  lemma DigitsNoNewline(s: string)
    requires s != [] && s[0] == '-' ==> AllDigits(s[1..])
    requires s != [] && s[0] != '-' ==> AllDigits(s)
    ensures '\n' !in s
  {
  }

  lemma TrimNoNewline(s: string)
    requires '\n' !in s
    ensures '\n' !in Trim(s)
  {
  }

  /** A slice that lies inside the first part of a concatenation. */
  lemma SliceOfPrefix<T>(a: seq<T>, b: seq<T>, i: nat, j: nat)
    requires i <= j <= |a|
    ensures (a + b)[i..j] == a[i..j]
  {
  }

  /** Four-line blocks after a two-line opening read the same once more
      lines are appended. */
  lemma BlocksOfPrefix<T>(head: seq<T>, foot: seq<T>, n: nat)
    requires |head| == 4 * n + 2
    ensures forall k :: 0 <= k < n ==> (head + foot)[2 + 4 * k..6 + 4 * k] == head[2 + 4 * k..6 + 4 * k]
  {
    forall k | 0 <= k < n
      ensures (head + foot)[2 + 4 * k..6 + 4 * k] == head[2 + 4 * k..6 + 4 * k]
    {
      SliceOfPrefix(head, foot, 2 + 4 * k, 6 + 4 * k);
    }
  }

  /** The footer's positions, seen from the whole message. */
  lemma PartsOfSuffix<T>(head: seq<T>, foot: seq<T>, m: nat)
    requires |foot| == 6 + m
    ensures var all := head + foot;
            && all[|head|] == foot[0] && all[|head| + 1] == foot[1]
            && all[|head| + 2..|head| + 2 + m] == foot[2..2 + m]
            && all[|all| - 4..] == foot[|foot| - 4..]
  {
    var all := head + foot;
    assert all[|head| + 2..|head| + 2 + m] == foot[2..2 + m];
    assert all[|all| - 4..] == foot[|foot| - 4..];
  }

  /** A block of four lines followed by `n` more blocks: block `k` of the
      whole is block `k - 1` of the rest. */
  lemma BlocksAfterBlock<T>(head: seq<T>, rest: seq<T>, n: nat)
    requires |head| == 4 && |rest| == 4 * n
    ensures (head + rest)[0..4] == head
    ensures forall k :: 1 <= k < n + 1 ==> (head + rest)[4 * k..4 * k + 4] == rest[4 * (k - 1)..4 * (k - 1) + 4]
  {
    forall k | 1 <= k < n + 1
      ensures (head + rest)[4 * k..4 * k + 4] == rest[4 * (k - 1)..4 * (k - 1) + 4]
    {
      assert 4 * k - 4 == 4 * (k - 1);
    }
  }

  /** Two opening lines followed by `n` blocks of four. */
  lemma BlocksAfterOpening<T>(opening: seq<T>, body: seq<T>, n: nat)
    requires |opening| == 2 && |body| == 4 * n
    ensures forall k :: 0 <= k < n ==> (opening + body)[2 + 4 * k..6 + 4 * k] == body[4 * k..4 * k + 4]
  {
  }
}
