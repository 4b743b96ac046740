/** The Order document: its enumerations, its pricing rule, and the two pre-save
    hooks (daily `YYYYMMDD-NNNN` order numbering and the `updatedAt` stamp). */
module OrderModel {
  import opened JsRuntime

  type UserId = string
  type ProductId = string
  type OrderId = string
  /** Milliseconds since the epoch, as `Date.now()` returns them. */
  type Time = int

  // ---------------------------------------------------------------------------
  // Enumerations
  // ---------------------------------------------------------------------------

  /** `orderStatus`; a new order is `Pending`. */
  datatype OrderStatus = Pending | Confirmed | Preparing | Ready | OutForDelivery | Delivered | Cancelled

  function StatusName(s: OrderStatus): string
  {
    match s
    case Pending => "pending"
    case Confirmed => "confirmed"
    case Preparing => "preparing"
    case Ready => "ready"
    case OutForDelivery => "out_for_delivery"
    case Delivered => "delivered"
    case Cancelled => "cancelled"
  }

  /** The schema's enum check on a status string sent by a client. */
  function ParseStatus(name: string): (r: Option<OrderStatus>)
    ensures r.Some? ==> StatusName(r.value) == name
    ensures r.None? ==> forall s: OrderStatus :: StatusName(s) != name
  {
    if name == "pending" then Some(Pending)
    else if name == "confirmed" then Some(Confirmed)
    else if name == "preparing" then Some(Preparing)
    else if name == "ready" then Some(Ready)
    else if name == "out_for_delivery" then Some(OutForDelivery)
    else if name == "delivered" then Some(Delivered)
    else if name == "cancelled" then Some(Cancelled)
    else None
  }

  /** `paymentInfo.status`; defaults to `PaymentPending`. */
  datatype PaymentStatus = PaymentPending | Completed | PaymentFailed | Refunded

  /** `cancellation.refundStatus`; `NoRefund` is the schema's `null` default. */
  datatype RefundStatus = NoRefund | RefundPending | RefundProcessed | RefundFailed

  datatype PaymentMethod = Stripe | Paypal

  /** `delivery.type`. */
  datatype DeliveryType = Pickup | HomeDelivery

  /** One order line: the product, the quantity and the unit price captured at order time. */
  datatype OrderItem = OrderItem(product: ProductId, quantity: int, price: real)

  /** One `statusHistory` entry. */
  datatype HistoryEntry = HistoryEntry(status: OrderStatus, timestamp: Time, note: Option<string>, updatedBy: Option<UserId>)

  datatype Pricing = Pricing(subtotal: real, tax: real, deliveryFee: real, discount: real, total: real)

  datatype Cancellation = Cancellation(
    isCancelled: bool,
    reason: Option<string>,
    cancelledAt: Option<Time>,
    cancelledBy: Option<UserId>,
    refundStatus: RefundStatus)

  const NotCancelled := Cancellation(false, None, None, None, NoRefund)

  // ---------------------------------------------------------------------------
  // Pricing
  // ---------------------------------------------------------------------------

  const TaxRate: real := 0.08

  function LineTotal(item: OrderItem): real
  {
    item.price * (item.quantity as real)
  }

  /** `items.reduce((acc, item) => acc + item.price * item.quantity, 0)`, folded from the left. */
  function Subtotal(items: seq<OrderItem>): real
  {
    if |items| == 0 then 0.0 else Subtotal(items[..|items| - 1]) + LineTotal(items[|items| - 1])
  }

  /** The subtotal of a concatenation is the sum of the subtotals. */
  lemma {:induction false} SubtotalAppend(a: seq<OrderItem>, b: seq<OrderItem>)
    ensures Subtotal(a + b) == Subtotal(a) + Subtotal(b)
  {
    if |b| > 0 {
      SubtotalAppend(a, b[..|b| - 1]);
      assert (a + b)[..|a + b| - 1] == a + b[..|b| - 1];
    } else {
      assert a + b == a;
    }
  }

  /** With non-negative prices and positive quantities the subtotal is non-negative. */
  lemma {:induction false} SubtotalNonNegative(items: seq<OrderItem>)
    requires forall i :: 0 <= i < |items| ==> items[i].price >= 0.0 && items[i].quantity >= 1
    ensures Subtotal(items) >= 0.0
  {
    if |items| > 0 {
      SubtotalNonNegative(items[..|items| - 1]);
      var last := items[|items| - 1];
      assert LineTotal(last) >= 0.0 by {
        assert last.price >= 0.0 && (last.quantity as real) >= 1.0;
      }
    }
  }

  /** The relations `calculateTotalPrice` establishes between the pricing fields. */
  predicate PricingConsistent(p: Pricing)
  {
    p.tax == p.subtotal * TaxRate && p.total == p.subtotal + p.tax + p.deliveryFee - p.discount
  }

  // ---------------------------------------------------------------------------
  // Daily order numbers: YYYYMMDD-NNNN
  // ---------------------------------------------------------------------------

  /** The local calendar date `new Date()` stands for; `month` is `getMonth() + 1`. */
  datatype CalendarDate = CalendarDate(year: int, month: int, day: int)

  predicate IsFourDigitDate(d: CalendarDate)
  {
    1000 <= d.year <= 9999 && 1 <= d.month <= 12 && 1 <= d.day <= 31
  }

  function Pad2(n: int): string
  {
    PadStart(NumberToString(Some(n)), 2, '0')
  }

  /** `year + pad2(month) + pad2(day)`. */
  function DateStr(d: CalendarDate): string
  {
    NumberToString(Some(d.year)) + Pad2(d.month) + Pad2(d.day)
  }

  /** The sequence part of a number: `n.toString().padStart(4, '0')`. */
  function SequenceNumeral(n: nat): string
  {
    PadStart(NatToString(n), 4, '0')
  }

  function FormatOrderNumber(d: CalendarDate, sequence: string): string
  {
    DateStr(d) + "-" + sequence
  }

  /** The sequence that follows the latest number of the day: "0001" when there is none,
      else `parseInt(latest.split('-')[1]) + 1`, printed and padded to four places. */
  function NextSequence(latest: Option<string>): string
  {
    match latest
    case None => "0001"
    case Some(number) =>
      var next := match SequenceValue(number)
        case None => None
        case Some(v) => Some(v + 1);
      PadStart(NumberToString(next), 4, '0')
  }

  /** The sequence a stored number carries: `parseInt(number.split('-')[1])`, NaN as `None`. */
  function SequenceValue(number: string): Option<int>
  {
    var parts := Split(number, '-');
    if |parts| > 1 then ParseInt(parts[1], Unspecified) else None
  }

  /** The number the first pre-save hook gives an order that has none. */
  function GeneratedNumber(d: CalendarDate, latest: Option<string>): string
  {
    FormatOrderNumber(d, NextSequence(latest))
  }

  /** Strict lexicographic order by character code: the order of the
      `sort({ orderNumber: -1 })` lookup. */
  predicate LexLess(a: string, b: string)
  {
    if |a| == 0 then |b| > 0
    else if |b| == 0 then false
    else if a[0] != b[0] then a[0] < b[0]
    else LexLess(a[1..], b[1..])
  }

  lemma {:induction false} LexIrreflexive(a: string)
    ensures !LexLess(a, a)
  {
    if |a| > 0 { LexIrreflexive(a[1..]); }
  }

  lemma {:induction false} LexTotal(a: string, b: string)
    ensures a == b || LexLess(a, b) || LexLess(b, a)
  {
    if |a| > 0 && |b| > 0 && a[0] == b[0] {
      LexTotal(a[1..], b[1..]);
      if a[1..] == b[1..] {
        assert a == [a[0]] + a[1..] && b == [b[0]] + b[1..];
      }
    }
  }

  lemma {:induction false} LexAsymmetric(a: string, b: string)
    ensures !(LexLess(a, b) && LexLess(b, a))
  {
    if |a| > 0 && |b| > 0 && a[0] == b[0] { LexAsymmetric(a[1..], b[1..]); }
  }

  lemma {:induction false} LexTransitive(a: string, b: string, c: string)
    requires LexLess(a, b) && LexLess(b, c)
    ensures LexLess(a, c)
  {
    if |a| > 0 && |b| > 0 && |c| > 0 && a[0] == b[0] && b[0] == c[0] {
      LexTransitive(a[1..], b[1..], c[1..]);
    }
  }

  /** The `findOne({ orderNumber: /^prefix/ }).sort({ orderNumber: -1 })` lookup over the
      stored numbers: the greatest number that starts with the prefix, if any. */
  function LatestWithPrefix(numbers: seq<string>, prefix: string): (r: Option<string>)
    ensures r.None? <==> forall i :: 0 <= i < |numbers| ==> !StartsWith(numbers[i], prefix)
    ensures r.Some? ==> r.value in numbers && StartsWith(r.value, prefix)
    ensures r.Some? ==> forall i :: 0 <= i < |numbers| && StartsWith(numbers[i], prefix) ==> !LexLess(r.value, numbers[i])
  {
    if |numbers| == 0 then None
    else
      var rest := LatestWithPrefix(numbers[1..], prefix);
      if !StartsWith(numbers[0], prefix) then
        assert forall i :: 1 <= i < |numbers| ==> numbers[i] == numbers[1..][i - 1];
        rest
      else if rest.Some? && LexLess(numbers[0], rest.value) then
        assert forall i :: 1 <= i < |numbers| ==> numbers[i] == numbers[1..][i - 1];
        LexAsymmetric(numbers[0], rest.value);
        rest
      else
        LatestHeadIsGreatest(numbers, prefix, rest);
        Some(numbers[0])
  }

  lemma LatestHeadIsGreatest(numbers: seq<string>, prefix: string, rest: Option<string>)
    requires |numbers| > 0 && StartsWith(numbers[0], prefix)
    requires rest.None? <==> forall i :: 0 <= i < |numbers| - 1 ==> !StartsWith(numbers[1..][i], prefix)
    requires rest.Some? ==> forall i :: 0 <= i < |numbers| - 1 && StartsWith(numbers[1..][i], prefix) ==> !LexLess(rest.value, numbers[1..][i])
    requires !(rest.Some? && LexLess(numbers[0], rest.value))
    ensures forall i :: 0 <= i < |numbers| && StartsWith(numbers[i], prefix) ==> !LexLess(numbers[0], numbers[i])
  {
    forall i | 0 <= i < |numbers| && StartsWith(numbers[i], prefix)
      ensures !LexLess(numbers[0], numbers[i])
    {
      if i == 0 {
        LexIrreflexive(numbers[0]);
      } else {
        var x := numbers[i];
        assert x == numbers[1..][i - 1];
        var m := rest.value;
        // x <= m <= numbers[0]
        LexTotal(numbers[0], m);
        LexAsymmetric(numbers[0], x);
        if LexLess(numbers[0], x) {
          if m == numbers[0] {
          } else {
            LexTransitive(m, numbers[0], x);
          }
        }
      }
    }
  }

  // --- shape of the numbers of one day --------------------------------------

  /** A number of the form `prefix + "-" + NNNN` with a four-digit sequence in 1..9998,
      so that its successor still fits in four digits. */
  predicate IsDayNumber(x: string, prefix: string)
  {
    && |x| == |prefix| + 5
    && x[..|prefix|] == prefix
    && x[|prefix|] == '-'
    && AllDigitsIn(x[|prefix| + 1..], 10)
    && 1 <= ValueIn(x[|prefix| + 1..], 10) <= 9998
  }

  /** The sequence value of a day number. */
  function SequenceOf(x: string, prefix: string): nat
    requires IsDayNumber(x, prefix)
  {
    ValueIn(x[|prefix| + 1..], 10)
  }

  lemma {:induction false} NatToStringAtMostFour(n: nat)
    requires n < 10000
    ensures |NatToString(n)| <= 4
  {
    if n >= 10 {
      NatToStringAtMostThree(n / 10);
    }
  }

  lemma NatToStringAtMostThree(n: nat)
    requires n < 1000
    ensures |NatToString(n)| <= 3
  {
    if n >= 10 {
      if n / 10 >= 10 {
        assert |NatToString(n / 10 / 10)| == 1;
      }
    }
  }

  /** Padding a numeral with leading zeros keeps it a numeral of the same value. */
  lemma PaddedValue(s: string, width: nat)
    requires AllDigitsIn(s, 10)
    ensures AllDigitsIn(PadStart(s, width, '0'), 10)
    ensures ValueIn(PadStart(s, width, '0'), 10) == ValueIn(s, 10)
  {
    var p := PadStart(s, width, '0');
    var zeros := p[..|p| - |s|];
    assert forall k :: 0 <= k < |zeros| ==> zeros[k] == '0' by {
      forall k | 0 <= k < |zeros| ensures zeros[k] == '0' { assert zeros[k] == p[k]; }
    }
    assert p == zeros + p[|p| - |s|..];
    ValueIgnoresLeadingZeros(zeros, s);
  }

  /** A sequence numeral below 10000 is exactly four decimal digits, with value n. */
  lemma SequenceNumeralShape(n: nat)
    requires n < 10000
    ensures |SequenceNumeral(n)| == 4 && AllDigitsIn(SequenceNumeral(n), 10)
    ensures ValueIn(SequenceNumeral(n), 10) == n
  {
    NatToStringAtMostFour(n);
    PaddedValue(NatToString(n), 4);
    NatToStringValue(n);
  }

  /** A decimal numeral of at most three digits is below 1000. */
  lemma SmallNumeralIsSmall(s: string)
    requires AllDigitsIn(s, 10) && |s| <= 3
    ensures ValueIn(s, 10) < 1000
  {
    if |s| > 0 {
      var t := s[..|s| - 1];
      assert IsDigitIn(s[|s| - 1], 10);
      if |t| > 0 {
        var u := t[..|t| - 1];
        assert IsDigitIn(t[|t| - 1], 10);
        if |u| > 0 {
          assert IsDigitIn(u[|u| - 1], 10);
          assert ValueIn(u[..|u| - 1], 10) == 0;
        }
      }
    }
  }

  /** A four-digit year prints as four digits. */
  lemma YearNumeral(y: nat)
    requires 1000 <= y <= 9999
    ensures |NatToString(y)| == 4
  {
    NatToStringAtMostFour(y);
    if |NatToString(y)| < 4 {
      NatToStringValue(y);
      SmallNumeralIsSmall(NatToString(y));
    }
  }

  /** A month or day number pads to two digits. */
  lemma Pad2Shape(n: int)
    requires 1 <= n <= 31
    ensures |Pad2(n)| == 2 && AllDigitsIn(Pad2(n), 10)
  {
    var s := NatToString(n);
    assert NumberToString(Some(n)) == s;
    assert |s| <= 2 by { if n >= 10 { assert |NatToString(n / 10)| == 1; } }
    PaddedValue(s, 2);
  }

  lemma AllDigitsConcat(a: string, b: string)
    requires AllDigitsIn(a, 10) && AllDigitsIn(b, 10)
    ensures AllDigitsIn(a + b, 10)
  {
    forall k | 0 <= k < |a + b| ensures IsDigitIn((a + b)[k], 10) {
      if k < |a| { assert (a + b)[k] == a[k]; } else { assert (a + b)[k] == b[k - |a|]; }
    }
  }

  /** The date prefix of a four-digit-year date is eight decimal digits. */
  lemma DateStrShape(d: CalendarDate)
    requires IsFourDigitDate(d)
    ensures |DateStr(d)| == 8 && AllDigitsIn(DateStr(d), 10)
  {
    var y := NumberToString(Some(d.year));
    assert y == NatToString(d.year);
    YearNumeral(d.year);
    Pad2Shape(d.month);
    Pad2Shape(d.day);
    AllDigitsConcat(y, Pad2(d.month));
    AllDigitsConcat(y + Pad2(d.month), Pad2(d.day));
  }

  lemma DigitsHaveNoDash(s: string)
    requires AllDigitsIn(s, 10)
    ensures '-' !in s
  {
    forall k | 0 <= k < |s| ensures s[k] != '-' { assert IsDigitIn(s[k], 10); }
  }

  /** The successor of a day number is the next sequence, printed in four digits. */
  lemma NextSequenceOfDayNumber(x: string, prefix: string)
    requires '-' !in prefix && IsDayNumber(x, prefix)
    ensures NextSequence(Some(x)) == SequenceNumeral(SequenceOf(x, prefix) + 1)
  {
    DayNumberSequenceValue(x, prefix);
  }

  /** The sequence `parseInt` reads from a day number is its four-digit sequence. */
  lemma DayNumberSequenceValue(x: string, prefix: string)
    requires '-' !in prefix && IsDayNumber(x, prefix)
    ensures SequenceValue(x) == Some(SequenceOf(x, prefix))
  {
    var tail := x[|prefix| + 1..];
    assert x == prefix + "-" + tail;
    DigitsHaveNoDash(tail);
    SplitAtSeparator(prefix, tail, '-');
    assert IsDigitIn(tail[1], 10);
    ParseIntOfDigits(tail, Unspecified);
  }

  /** A formatted number with a sequence in 1..9998 is a day number carrying that sequence. */
  lemma FormattedNumberIsDayNumber(prefix: string, n: nat)
    requires 1 <= n <= 9998
    ensures IsDayNumber(prefix + "-" + SequenceNumeral(n), prefix)
    ensures SequenceOf(prefix + "-" + SequenceNumeral(n), prefix) == n
  {
    SequenceNumeralShape(n);
    var x := prefix + "-" + SequenceNumeral(n);
    assert x[|prefix| + 1..] == SequenceNumeral(n);
    assert x[..|prefix|] == prefix;
  }

  /** One step of the lexicographic comparison. */
  lemma LexStep(a: string, b: string)
    requires |a| > 0 && |b| > 0
    ensures LexLess(a, b) <==> a[0] < b[0] || (a[0] == b[0] && LexLess(a[1..], b[1..]))
  {
  }

  /** Lexicographic order on four-character strings, written out. */
  lemma LexFour(a: string, b: string)
    requires |a| == 4 && |b| == 4
    ensures LexLess(a, b) <==>
      a[0] < b[0] || (a[0] == b[0] && (a[1] < b[1] || (a[1] == b[1] && (a[2] < b[2] || (a[2] == b[2] && a[3] < b[3])))))
  {
    var a1, b1 := a[1..], b[1..];
    var a2, b2 := a1[1..], b1[1..];
    var a3, b3 := a2[1..], b2[1..];
    LexStep(a, b);
    LexStep(a1, b1);
    LexStep(a2, b2);
    LexStep(a3, b3);
    assert a1[0] == a[1] && b1[0] == b[1] && a2[0] == a[2] && b2[0] == b[2] && a3[0] == a[3] && b3[0] == b[3];
    assert |a3[1..]| == 0 && |b3[1..]| == 0;
  }

  /** The value of a four-digit numeral, written out. */
  lemma ValueFour(a: string)
    requires |a| == 4 && AllDigitsIn(a, 10)
    ensures ValueIn(a, 10) == ((DigitOf(a[0]) * 10 + DigitOf(a[1])) * 10 + DigitOf(a[2])) * 10 + DigitOf(a[3])
  {
    var a3 := a[..3];
    var a2 := a3[..2];
    var a1 := a2[..1];
    assert a3[2] == a[2] && a2[1] == a[1] && a1[0] == a[0];
    assert a1[..0] == [];
    assert ValueIn(a1, 10) == DigitOf(a[0]);
    assert ValueIn(a2, 10) == DigitOf(a[0]) * 10 + DigitOf(a[1]);
    assert ValueIn(a3, 10) == (DigitOf(a[0]) * 10 + DigitOf(a[1])) * 10 + DigitOf(a[2]);
  }

  /** On decimal digits, character order is digit-value order. */
  lemma DigitCharOrder(c: char, e: char)
    requires IsDigitIn(c, 10) && IsDigitIn(e, 10)
    ensures (c < e <==> DigitOf(c) < DigitOf(e)) && (c == e <==> DigitOf(c) == DigitOf(e))
  {
  }

  /** Four-digit numerals compare lexicographically exactly as their values do. */
  lemma FourDigitLexOrder(a: string, b: string)
    requires |a| == 4 && |b| == 4 && AllDigitsIn(a, 10) && AllDigitsIn(b, 10)
    ensures LexLess(a, b) <==> ValueIn(a, 10) < ValueIn(b, 10)
  {
    LexFour(a, b);
    ValueFour(a);
    ValueFour(b);
    assert IsDigitIn(a[0], 10) && IsDigitIn(a[1], 10) && IsDigitIn(a[2], 10) && IsDigitIn(a[3], 10);
    assert IsDigitIn(b[0], 10) && IsDigitIn(b[1], 10) && IsDigitIn(b[2], 10) && IsDigitIn(b[3], 10);
    DigitCharOrder(a[0], b[0]);
    DigitCharOrder(a[1], b[1]);
    DigitCharOrder(a[2], b[2]);
    DigitCharOrder(a[3], b[3]);
  }

  lemma {:induction false} LexCommonPrefix(x: string, y: string, n: nat)
    requires n <= |x| && n <= |y| && x[..n] == y[..n]
    ensures LexLess(x, y) <==> LexLess(x[n..], y[n..])
  {
    if n > 0 {
      assert x[0] == x[..n][0] && y[0] == y[..n][0];
      assert x[1..][..n - 1] == x[..n][1..] && y[1..][..n - 1] == y[..n][1..];
      LexCommonPrefix(x[1..], y[1..], n - 1);
      assert x[1..][n - 1..] == x[n..] && y[1..][n - 1..] == y[n..];
    }
  }

  /** Two day numbers with the same prefix compare as their sequences do. */
  lemma DayNumberOrder(x: string, y: string, prefix: string)
    requires IsDayNumber(x, prefix) && IsDayNumber(y, prefix)
    ensures LexLess(x, y) <==> SequenceOf(x, prefix) < SequenceOf(y, prefix)
  {
    var n := |prefix| + 1;
    assert x[..n] == x[..|prefix|] + [x[|prefix|]];
    assert y[..n] == y[..|prefix|] + [y[|prefix|]];
    LexCommonPrefix(x, y, n);
    FourDigitLexOrder(x[n..], y[n..]);
  }

  /** Sequential numbering: when every stored number of the day is a well-formed day
      number, the generated number is new and sorts after every one of them. */
  lemma GeneratedNumberIsFreshAndGreatest(numbers: seq<string>, d: CalendarDate)
    requires IsFourDigitDate(d)
    requires forall i :: 0 <= i < |numbers| && StartsWith(numbers[i], DateStr(d)) ==> IsDayNumber(numbers[i], DateStr(d))
    ensures GeneratedNumber(d, LatestWithPrefix(numbers, DateStr(d))) !in numbers
    ensures forall i :: 0 <= i < |numbers| && StartsWith(numbers[i], DateStr(d))
              ==> LexLess(numbers[i], GeneratedNumber(d, LatestWithPrefix(numbers, DateStr(d))))
  {
    var prefix := DateStr(d);
    DateStrShape(d);
    DigitsHaveNoDash(prefix);
    var latest := LatestWithPrefix(numbers, prefix);
    GeneratedNumberForm(d, latest);
    NumberAboveDay(numbers, prefix, latest, if latest.None? then 1 else SequenceOf(latest.value, prefix) + 1);
  }

  /** The generated number is the day's prefix, a dash and the next sequence in four digits. */
  lemma GeneratedNumberForm(d: CalendarDate, latest: Option<string>)
    requires '-' !in DateStr(d)
    requires latest.Some? ==> IsDayNumber(latest.value, DateStr(d))
    ensures GeneratedNumber(d, latest)
              == DateStr(d) + "-" + SequenceNumeral(if latest.None? then 1 else SequenceOf(latest.value, DateStr(d)) + 1)
  {
    NextSequenceFrom(latest, DateStr(d));
  }

  /** The next sequence after the latest day number `prefix-nnnn`, or the first of the day. */
  lemma NextSequenceFrom(latest: Option<string>, prefix: string)
    requires '-' !in prefix
    requires latest.Some? ==> IsDayNumber(latest.value, prefix)
    ensures NextSequence(latest) == SequenceNumeral(if latest.None? then 1 else SequenceOf(latest.value, prefix) + 1)
  {
    if latest.Some? { NextSequenceOfDayNumber(latest.value, prefix); }
  }

  lemma NumberAboveDay(numbers: seq<string>, prefix: string, latest: Option<string>, k: nat)
    requires forall i :: 0 <= i < |numbers| && StartsWith(numbers[i], prefix) ==> IsDayNumber(numbers[i], prefix)
    requires latest.None? <==> forall i :: 0 <= i < |numbers| ==> !StartsWith(numbers[i], prefix)
    requires latest.Some? ==> latest.value in numbers && StartsWith(latest.value, prefix)
    requires latest.Some? ==> forall i :: 0 <= i < |numbers| && StartsWith(numbers[i], prefix) ==> !LexLess(latest.value, numbers[i])
    requires k == if latest.None? then 1 else SequenceOf(latest.value, prefix) + 1
    ensures prefix + "-" + SequenceNumeral(k) !in numbers
    ensures forall i :: 0 <= i < |numbers| && StartsWith(numbers[i], prefix) ==> LexLess(numbers[i], prefix + "-" + SequenceNumeral(k))
  {
    var g := prefix + "-" + SequenceNumeral(k);
    SequenceNumeralShape(k);
    assert g[..|prefix|] == prefix;
    assert g[|prefix| + 1..] == SequenceNumeral(k);
    forall i | 0 <= i < |numbers| && StartsWith(numbers[i], prefix)
      ensures LexLess(numbers[i], g)
    {
      var m := latest.value;
      DayNumberOrder(m, numbers[i], prefix);
      BelowNextNumber(numbers[i], prefix, k);
    }
    LexIrreflexive(g);
  }

  /** A day number whose sequence is below `k` sorts before the number with sequence `k`. */
  lemma BelowNextNumber(x: string, prefix: string, k: nat)
    requires IsDayNumber(x, prefix) && SequenceOf(x, prefix) < k < 10000
    ensures LexLess(x, prefix + "-" + SequenceNumeral(k))
  {
    SequenceNumeralShape(k);
    BelowNumeral(x, prefix, SequenceNumeral(k));
  }

  /** A day number sorts before `prefix-t` when `t` is a larger four-digit numeral. */
  lemma BelowNumeral(x: string, prefix: string, t: string)
    requires IsDayNumber(x, prefix) && |t| == 4 && AllDigitsIn(t, 10)
    requires SequenceOf(x, prefix) < ValueIn(t, 10)
    ensures LexLess(x, prefix + "-" + t)
  {
    var g := prefix + "-" + t;
    var n := |prefix| + 1;
    NumberParts(prefix, t);
    DayPart(x, prefix);
    LexCommonPrefix(x, g, n);
    FourDigitLexOrder(x[n..], t);
  }

  /** The parts of `prefix-t`. */
  lemma NumberParts(prefix: string, t: string)
    ensures (prefix + "-" + t)[..|prefix| + 1] == prefix + "-"
    ensures (prefix + "-" + t)[|prefix| + 1..] == t
  {
  }

  /** The first `|prefix| + 1` characters of a number `prefix-...` are the prefix and the dash. */
  lemma DayPart(x: string, prefix: string)
    requires |x| > |prefix| && x[..|prefix|] == prefix && x[|prefix|] == '-'
    ensures x[..|prefix| + 1] == prefix + "-"
  {
    assert x[..|prefix| + 1] == x[..|prefix|] + [x[|prefix|]];
  }

  // --- numbering past the ninety-ninety-ninth order of a day ----------------

  /** As written, numbering breaks at a day's 9999th order: its successor `-10000` sorts
      before `-9999` in the descending string lookup, so the lookup keeps answering `-9999`
      and the hook generates `-10000` again for the next order, a duplicate of a unique key. */
  lemma NumberingRepeatsAfter9999(d: CalendarDate)
    requires IsFourDigitDate(d)
    ensures var p := DateStr(d);
            && GeneratedNumber(d, Some(p + "-" + "9999")) == p + "-" + "10000"
            && LexLess(p + "-" + "10000", p + "-" + "9999")
            && LatestWithPrefix([p + "-" + "9999", p + "-" + "10000"], p) == Some(p + "-" + "9999")
            && GeneratedNumber(d, LatestWithPrefix([p + "-" + "9999", p + "-" + "10000"], p)) == p + "-" + "10000"
  {
    assert '-' !in DateStr(d) by {
      DateStrShape(d);
      DigitsHaveNoDash(DateStr(d));
    }
    NumberingRepeatsFor(DateStr(d));
  }

  /** The repetition for any dash-free day prefix. */
  lemma NumberingRepeatsFor(p: string)
    requires '-' !in p
    ensures p + "-" + NextSequence(Some(p + "-" + "9999")) == p + "-" + "10000"
    ensures LexLess(p + "-" + "10000", p + "-" + "9999")
    ensures LatestWithPrefix([p + "-" + "9999", p + "-" + "10000"], p) == Some(p + "-" + "9999")
  {
    assert NextSequence(Some(p + "-" + "9999")) == "10000" by {
      SuccessorOf9999(p);
    }
    assert LexLess(p + "-" + "10000", p + "-" + "9999") by {
      TenThousandSortsFirst(p);
    }
    LatestOfTwo(p + "-" + "9999", p + "-" + "10000", p);
  }

  /** Of two numbers of the day, the lookup answers the one that does not sort first. */
  lemma LatestOfTwo(b: string, a: string, p: string)
    requires |p| < |a| && |p| < |b| && a[..|p|] == p && b[..|p|] == p
    requires LexLess(a, b)
    ensures LatestWithPrefix([b, a], p) == Some(b)
  {
    var one: seq<string> := [a];
    var both: seq<string> := [b, a];
    assert LatestWithPrefix(one, p) == Some(a) by {
      assert one[1..] == [];
    }
    assert both[1..] == one;
    LexAsymmetric(a, b);
  }

  /** `parseInt` reads 9999 from `prefix-9999`, and the next sequence prints as `10000`. */
  lemma SuccessorOf9999(p: string)
    requires '-' !in p
    ensures NextSequence(Some(p + "-" + "9999")) == "10000"
  {
    SequenceOf9999(p);
    TenThousandNumeral();
  }

  lemma SequenceOf9999(p: string)
    requires '-' !in p
    ensures SequenceValue(p + "-" + "9999").Some? && SequenceValue(p + "-" + "9999").value == 9999
  {
    assert NatToString(9) == "9";
    assert NatToString(99) == "99";
    assert NatToString(999) == "999";
    assert NatToString(9999) == "9999";
    assert SequenceNumeral(9999) == "9999";
    FormattedSequenceValue(p, 9999);
  }

  lemma TenThousandNumeral()
    ensures NumberToString(Some(10000)) == "10000"
  {
    assert NatToString(1) == "1";
    assert NatToString(10) == "10";
    assert NatToString(100) == "100";
    assert NatToString(1000) == "1000";
    assert NatToString(10000) == "10000";
  }

  /** `prefix-10000` sorts before `prefix-9999`: the strings first differ at `1` against `9`. */
  lemma TenThousandSortsFirst(p: string)
    ensures LexLess(p + "-" + "10000", p + "-" + "9999")
  {
    var a, b := p + "-" + "10000", p + "-" + "9999";
    var n := |p| + 1;
    NumberParts(p, "10000");
    NumberParts(p, "9999");
    LexCommonPrefix(a, b, n);
    LexStep("10000", "9999");
  }

  /** The largest of the present values, or 0 when none is both present and positive. */
  function MaxValue(values: seq<Option<int>>): (m: nat)
    ensures forall i :: 0 <= i < |values| && values[i].Some? ==> values[i].value <= m
    ensures m == 0 || exists i :: 0 <= i < |values| && values[i].Some? && values[i].value == m
  {
    if |values| == 0 then 0
    else
      var rest := MaxValue(values[1..]);
      assert forall i :: 1 <= i < |values| ==> values[i] == values[1..][i - 1];
      if values[0].Some? && values[0].value > rest then values[0].value else rest
  }

  /** The sequences of the numbers that start with the prefix, `None` for the others. */
  function DaySequences(numbers: seq<string>, prefix: string): (r: seq<Option<int>>)
    ensures |r| == |numbers|
  {
    seq(|numbers|, i requires 0 <= i < |numbers| =>
      if StartsWith(numbers[i], prefix) then SequenceValue(numbers[i]) else None)
  }

  /** The greatest sequence, by value, among the stored numbers of a day; 0 when there is none. */
  function GreatestSequence(numbers: seq<string>, prefix: string): (m: nat)
    ensures forall i :: 0 <= i < |numbers| && StartsWith(numbers[i], prefix) && SequenceValue(numbers[i]).Some?
              ==> SequenceValue(numbers[i]).value <= m
    ensures m == 0 || exists i :: 0 <= i < |numbers| && StartsWith(numbers[i], prefix)
                                  && SequenceValue(numbers[i]).Some? && SequenceValue(numbers[i]).value == m
  {
    var values := DaySequences(numbers, prefix);
    var m := MaxValue(values);
    assert forall i :: 0 <= i < |numbers| ==> values[i] == if StartsWith(numbers[i], prefix) then SequenceValue(numbers[i]) else None;
    m
  }

  /** The numbering the hook evidently intends: one more than the day's greatest sequence
      by value, printed with at least four digits. */
  function CorrectedGeneratedNumber(d: CalendarDate, numbers: seq<string>): string
  {
    CorrectedNumberFor(DateStr(d), numbers)
  }

  function CorrectedNumberFor(prefix: string, numbers: seq<string>): string
  {
    prefix + "-" + SequenceNumeral(GreatestSequence(numbers, prefix) + 1)
  }

  /** The corrected number carries the day's prefix and a sequence above every stored one,
      so it is new, with no assumption on the shape of the stored numbers. */
  lemma CorrectedNumberIsFresh(numbers: seq<string>, d: CalendarDate)
    requires IsFourDigitDate(d)
    ensures StartsWith(CorrectedGeneratedNumber(d, numbers), DateStr(d))
    ensures SequenceValue(CorrectedGeneratedNumber(d, numbers)).Some?
    ensures SequenceValue(CorrectedGeneratedNumber(d, numbers)).value == GreatestSequence(numbers, DateStr(d)) + 1
    ensures forall i :: 0 <= i < |numbers| && StartsWith(numbers[i], DateStr(d)) && SequenceValue(numbers[i]).Some?
              ==> SequenceValue(numbers[i]).value < SequenceValue(CorrectedGeneratedNumber(d, numbers)).value
    ensures CorrectedGeneratedNumber(d, numbers) !in numbers
  {
    var prefix := DateStr(d);
    DateStrShape(d);
    DigitsHaveNoDash(prefix);
    var k := GreatestSequence(numbers, prefix) + 1;
    var g := prefix + "-" + SequenceNumeral(k);
    assert g == CorrectedGeneratedNumber(d, numbers);
    FormattedSequenceValue(prefix, k);
  }

  /** `prefix-NNNN` starts with the prefix and `parseInt` reads its sequence back. */
  lemma FormattedSequenceValue(prefix: string, k: nat)
    requires '-' !in prefix
    ensures StartsWith(prefix + "-" + SequenceNumeral(k), prefix)
    ensures SequenceValue(prefix + "-" + SequenceNumeral(k)).Some?
    ensures SequenceValue(prefix + "-" + SequenceNumeral(k)).value == k
  {
    var t := SequenceNumeral(k);
    var x := prefix + "-" + t;
    assert StartsWith(x, prefix) by {
      NumberParts(prefix, t);
      assert x[..|prefix|] == (prefix + "-")[..|prefix|];
    }
    assert SequenceValue(x) == ParseInt(t, Unspecified) by {
      FormattedNumberSplits(prefix, k);
      SequenceValueOfParts(x, prefix, t);
    }
    assert ParseInt(t, Unspecified) == Some(k) by {
      SequenceNumeralParses(k);
    }
  }

  lemma SequenceNumeralParses(k: nat)
    ensures ParseInt(SequenceNumeral(k), Unspecified) == Some(k)
  {
    PaddedNumeralParses(k, 4, Unspecified);
  }

  lemma SequenceValueOfParts(x: string, a: string, b: string)
    requires Split(x, '-') == [a, b]
    ensures SequenceValue(x) == ParseInt(b, Unspecified)
  {
  }

  lemma FormattedNumberSplits(prefix: string, k: nat)
    requires '-' !in prefix
    ensures Split(prefix + "-" + SequenceNumeral(k), '-') == [prefix, SequenceNumeral(k)]
  {
    var t := SequenceNumeral(k);
    ZeroPaddedValue(NatToString(k), 4);
    DigitsHaveNoDash(t);
    SplitAtSeparator(prefix, t, '-');
  }

  /** While the stored numbers of the day are well-formed day numbers, the corrected
      numbering gives the same number as the hook as written. */
  lemma CorrectedAgreesBelowCap(numbers: seq<string>, d: CalendarDate)
    requires IsFourDigitDate(d)
    requires forall i :: 0 <= i < |numbers| && StartsWith(numbers[i], DateStr(d)) ==> IsDayNumber(numbers[i], DateStr(d))
    ensures CorrectedGeneratedNumber(d, numbers) == GeneratedNumber(d, LatestWithPrefix(numbers, DateStr(d)))
  {
    assert '-' !in DateStr(d) by {
      DateStrShape(d);
      DigitsHaveNoDash(DateStr(d));
    }
    CorrectedAgreesFor(numbers, DateStr(d));
  }

  /** The agreement for any dash-free day prefix. */
  lemma CorrectedAgreesFor(numbers: seq<string>, prefix: string)
    requires '-' !in prefix
    requires forall i :: 0 <= i < |numbers| && StartsWith(numbers[i], prefix) ==> IsDayNumber(numbers[i], prefix)
    ensures CorrectedNumberFor(prefix, numbers) == prefix + "-" + NextSequence(LatestWithPrefix(numbers, prefix))
  {
    var latest := LatestWithPrefix(numbers, prefix);
    GreatestIsLatest(numbers, prefix, latest);
    NextSequenceFrom(latest, prefix);
  }

  /** On well-formed day numbers, the greatest sequence by value is that of the greatest
      number in string order. */
  lemma GreatestIsLatest(numbers: seq<string>, prefix: string, latest: Option<string>)
    requires '-' !in prefix
    requires forall i :: 0 <= i < |numbers| && StartsWith(numbers[i], prefix) ==> IsDayNumber(numbers[i], prefix)
    requires latest == LatestWithPrefix(numbers, prefix)
    ensures latest.None? ==> GreatestSequence(numbers, prefix) == 0
    ensures latest.Some? ==> IsDayNumber(latest.value, prefix)
                             && GreatestSequence(numbers, prefix) == SequenceOf(latest.value, prefix)
  {
    var m := GreatestSequence(numbers, prefix);
    if latest.Some? {
      var x := latest.value;
      var j :| 0 <= j < |numbers| && numbers[j] == x;
      DayNumberSequenceValue(x, prefix);
      assert SequenceOf(x, prefix) <= m;
      if m != 0 {
        var i :| 0 <= i < |numbers| && StartsWith(numbers[i], prefix)
                 && SequenceValue(numbers[i]).Some? && SequenceValue(numbers[i]).value == m;
        DayNumberSequenceValue(numbers[i], prefix);
        DayNumberOrder(x, numbers[i], prefix);
      }
    }
  }

  // ---------------------------------------------------------------------------
  // The Order document
  // ---------------------------------------------------------------------------

  /** The stored fields of an order, as one value. */
  datatype OrderState = OrderState(
    orderNumber: string,
    user: UserId,
    items: seq<OrderItem>,
    paymentMethod: PaymentMethod,
    transactionId: Option<string>,
    paymentStatus: PaymentStatus,
    amount: real,
    orderStatus: OrderStatus,
    statusHistory: seq<HistoryEntry>,
    deliveryType: DeliveryType,
    actualDeliveryDate: Option<Time>,
    deliveryFee: real,
    pricing: Pricing,
    cancellation: Cancellation,
    createdAt: Time,
    updatedAt: Time)

  class Order {
    const id: OrderId
    var orderNumber: string
    var user: UserId
    var items: seq<OrderItem>
    var paymentMethod: PaymentMethod
    var transactionId: Option<string>
    var paymentStatus: PaymentStatus
    var amount: real
    var orderStatus: OrderStatus
    var statusHistory: seq<HistoryEntry>
    var deliveryType: DeliveryType
    var actualDeliveryDate: Option<Time>
    var deliveryFee: real
    var pricing: Pricing
    var cancellation: Cancellation
    var createdAt: Time
    var updatedAt: Time

    /** What the schema guarantees of every stored order: a number and quantities of at least 1. */
    ghost predicate Valid()
      reads this
    {
      orderNumber != "" && forall i :: 0 <= i < |items| ==> items[i].quantity >= 1
    }

    ghost function State(): OrderState
      reads this
    {
      OrderState(orderNumber, user, items, paymentMethod, transactionId, paymentStatus, amount,
                 orderStatus, statusHistory, deliveryType, actualDeliveryDate, deliveryFee, pricing,
                 cancellation, createdAt, updatedAt)
    }

    /** `Order.create`: the schema defaults (status pending, empty history, not cancelled)
        and both pre-save hooks, the number being preset. */
    constructor Create(id: OrderId, orderNumber: string, user: UserId, items: seq<OrderItem>,
                       paymentMethod: PaymentMethod, amount: real, deliveryType: DeliveryType,
                       deliveryFee: real, pricing: Pricing, now: Time)
      requires orderNumber != ""
      ensures this.id == id && this.orderNumber == orderNumber && this.user == user
      ensures this.items == items && this.paymentMethod == paymentMethod && this.amount == amount
      ensures this.deliveryType == deliveryType && this.deliveryFee == deliveryFee && this.pricing == pricing
      ensures transactionId == None && paymentStatus == PaymentPending
      ensures orderStatus == Pending && statusHistory == [] && actualDeliveryDate == None
      ensures cancellation == NotCancelled
      ensures createdAt == now && updatedAt == now
    {
      this.id := id;
      this.orderNumber := orderNumber;
      this.user := user;
      this.items := items;
      this.paymentMethod := paymentMethod;
      this.transactionId := None;
      this.paymentStatus := PaymentPending;
      this.amount := amount;
      this.orderStatus := Pending;
      this.statusHistory := [];
      this.deliveryType := deliveryType;
      this.actualDeliveryDate := None;
      this.deliveryFee := deliveryFee;
      this.pricing := pricing;
      this.cancellation := NotCancelled;
      this.createdAt := now;
      this.updatedAt := now;
    }

    /** `calculateTotalPrice`: recomputes subtotal, tax and total from the items, keeping
        the delivery fee and the discount. */
    method CalculateTotalPrice()
      modifies this`pricing
      ensures pricing.subtotal == Subtotal(items)
      ensures pricing.deliveryFee == old(pricing.deliveryFee) && pricing.discount == old(pricing.discount)
      ensures PricingConsistent(pricing)
    {
      pricing := pricing.(subtotal := Subtotal(items));
      pricing := pricing.(tax := pricing.subtotal * TaxRate);
      pricing := pricing.(total := pricing.subtotal + pricing.tax + pricing.deliveryFee - pricing.discount);
    }

    /** The first pre-save hook: an order without a number gets the next number of the day;
        a number once set never changes. */
    method AssignOrderNumber(today: CalendarDate, storedNumbers: seq<string>)
      modifies this`orderNumber
      ensures old(orderNumber) != "" ==> orderNumber == old(orderNumber)
      ensures old(orderNumber) == "" ==>
                orderNumber == GeneratedNumber(today, LatestWithPrefix(storedNumbers, DateStr(today)))
      ensures orderNumber != ""
    {
      if orderNumber == "" {
        var latest := LatestWithPrefix(storedNumbers, DateStr(today));
        orderNumber := GeneratedNumber(today, latest);
      }
    }

    /** The second pre-save hook: every save stamps `updatedAt`. */
    method StampUpdatedAt(now: Time)
      modifies this`updatedAt
      ensures updatedAt == now
    {
      updatedAt := now;
    }

    /** A full `save()`: both hooks in their declared order. */
    method Save(now: Time, today: CalendarDate, storedNumbers: seq<string>)
      modifies this`orderNumber, this`updatedAt
      ensures old(orderNumber) != "" ==> orderNumber == old(orderNumber)
      ensures old(orderNumber) == "" ==>
                orderNumber == GeneratedNumber(today, LatestWithPrefix(storedNumbers, DateStr(today)))
      ensures updatedAt == now
    {
      AssignOrderNumber(today, storedNumbers);
      StampUpdatedAt(now);
    }
  }
}
