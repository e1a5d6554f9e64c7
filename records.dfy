/** Sale records and the sums every aggregation is built from. */
module SaleRecords {

  datatype Option<T> = None | Some(value: T)

  /** One sale line: unit price `amount` (a decimal, here exact) times `quantity` units.
      The API checks only that each field is present with the right type, so
      `amount` may be negative and `quantity` zero or negative. */
  datatype SaleItem = SaleItem(
    date: string,
    product: string,
    category: string,
    amount: real,
    quantity: int,
    customer: Option<string>)

  /** The revenue of one line, `amount * quantity`. */
  function LineRevenue(s: SaleItem): real
  {
    s.amount * (s.quantity as real)
  }

  /** Sum of `amount * quantity` over the entries, left to right. */
  function Revenue(ss: seq<SaleItem>): real
  {
    if ss == [] then 0.0 else Revenue(ss[..|ss| - 1]) + LineRevenue(ss[|ss| - 1])
  }

  /** Sum of `quantity` over the entries. */
  function TotalQuantity(ss: seq<SaleItem>): int
  {
    if ss == [] then 0 else TotalQuantity(ss[..|ss| - 1]) + ss[|ss| - 1].quantity
  }

  /** Revenue is additive over concatenation, so it does not depend on how a
      collection was split into batches. */
  lemma {:induction false} RevenueAppend(a: seq<SaleItem>, b: seq<SaleItem>)
    ensures Revenue(a + b) == Revenue(a) + Revenue(b)
  {
    if b != [] {
      var init, last := b[..|b| - 1], b[|b| - 1];
      assert a + b == (a + init) + [last];
      assert (a + b)[..|a + b| - 1] == a + init;
      RevenueAppend(a, init);
    } else {
      assert a + b == a;
    }
  }

  /** Quantity is additive over concatenation. */
  lemma {:induction false} TotalQuantityAppend(a: seq<SaleItem>, b: seq<SaleItem>)
    ensures TotalQuantity(a + b) == TotalQuantity(a) + TotalQuantity(b)
  {
    if b != [] {
      var init, last := b[..|b| - 1], b[|b| - 1];
      assert a + b == (a + init) + [last];
      assert (a + b)[..|a + b| - 1] == a + init;
      TotalQuantityAppend(a, init);
    } else {
      assert a + b == a;
    }
  }

  /** Revenue as an indexed sum: the revenue of a prefix plus the next line is
      the revenue of the longer prefix. */
  lemma RevenueStep(ss: seq<SaleItem>, i: nat)
    requires i < |ss|
    ensures Revenue(ss[..i + 1]) == Revenue(ss[..i]) + LineRevenue(ss[i])
    ensures TotalQuantity(ss[..i + 1]) == TotalQuantity(ss[..i]) + ss[i].quantity
  {
    assert ss[..i + 1][..i] == ss[..i];
  }

  /** Extending a prefix by the next element gives the longer prefix. */
  lemma PrefixStep<T>(s: seq<T>, i: nat)
    requires i < |s|
    ensures s[..i + 1] == s[..i] + [s[i]]
  {
  }

  /** When no line has a negative price or quantity, revenue and quantity are
      non-negative. */
  lemma {:induction false} RevenueNonNegative(ss: seq<SaleItem>)
    requires forall k :: 0 <= k < |ss| ==> ss[k].amount >= 0.0 && ss[k].quantity >= 0
    ensures Revenue(ss) >= 0.0
    ensures TotalQuantity(ss) >= 0
  {
    if ss != [] {
      var last := ss[|ss| - 1];
      assert last.amount * (last.quantity as real) >= 0.0;
      RevenueNonNegative(ss[..|ss| - 1]);
    }
  }
}
