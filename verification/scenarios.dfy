/** Concrete request sequences worked through the stores' specification
    functions: what each step of a short session yields. */
module Scenarios {

  import opened Outcomes
  import opened JsValues
  import opened Search
  import opened Products
  import opened Carts
  import Ids

  /** A complete add request, as a session's first request. */
  const Request := NewProduct(Undefined, Str("A"), Str("d"), Num(10), Str("t"), Str("1"), Num(5))

  /** The record the first request becomes. */
  const First := Product(1, Str("A"), Str("d"), Num(10), Str("t"), Str("1"), Num(5))

  /** On an empty collection the request is accepted and becomes product 1. */
  lemma FirstProductAccepted()
    ensures CheckNewProduct([], Request) == Pass
    ensures NewRecord([], Request) == First
  {
    DecimalTextRoundTrip(1);
    assert DecimalText(1) == "1";
  }

  /** Then the same code under another title is refused as a duplicate, and
      a request with price 0 is refused as missing data before its code is
      looked at. */
  lemma LaterRequestsRefused()
    ensures CheckNewProduct([First], Request.(title := Str("B"))) == Fail(DuplicateCode(Str("1")))
    ensures CheckNewProduct([First], Request.(price := Num(0), code := Str("2"))) == Fail(MissingData)
  {
    assert [First][0].code == Str("1");
  }

  /** Then a price-only patch changes the price of product 1, and deleting
      product 1 leaves nothing to find. */
  lemma UpdateThenDelete()
    ensures FindIndex([First], HasId(1)) == 0
    ensures Merge(First, NoChanges.(price := Some(Num(50)))) == First.(price := Num(50))
    ensures RemoveAt([First], 0) == []
    ensures FindIndex(RemoveAt([First], 0), HasId(1)) == -1
  {
    assert HasId(1)(First);
  }

  /** A gap left by a deletion is never filled: the next id is one above
      the largest id present. */
  lemma IdsAfterDeletion()
    ensures Ids.NextId([1, 3]) == 4
    ensures Ids.NextId([]) == 1
  {
    assert Ids.MaxOf([1, 3]) == 3 by {
      assert [1, 3][1..] == [3];
    }
  }

  /** A cart collection holding only cart 1: the cart is found under the
      text "1" and the number 1 alike but not under "2"; product 7 added
      twice, with quantities 2 and 3, leaves one line holding 5. */
  lemma CartSession()
    ensures var cs := [Cart(1, [])];
      && NewCartFor([]) == Cart(1, [])
      && FindIndex(cs, MatchesKey(Str("1"))) == 0
      && FindIndex(cs, MatchesKey(Num(1))) == 0
      && FindIndex(cs, MatchesKey(Str("2"))) == -1
      && AddLineItem([], 7, 2) == [LineItem(7, 2)]
      && AddLineItem([LineItem(7, 2)], 7, 3) == [LineItem(7, 5)]
  {
    DecimalTextRoundTrip(1);
    assert DecimalText(1) == "1";
    LooseEqualsDecimalText(1, 2);
    assert DecimalText(2) == "2";
    AddSameProductTwice([], 7, 2, 3);
  }
}
