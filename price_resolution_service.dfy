/**
 * Money values and reading the current reference price of an item.
 */
module PriceResolution {
  import opened Common
  import Prices

  /** An amount in a currency; only the validating constructor below builds one. */
  datatype Money = Money(amount: real, currency: string)

  /**
   * The Money constructor: a negative amount, or a missing, empty or blank
   * currency, is refused with an argument error.  Zero is a valid amount.
   */
  function NewMoney(amount: real, currency: Option<string>): (r: Result<Money>)
    ensures r.Ok? <==> amount >= 0.0 && !IsNullOrWhiteSpace(currency)
    ensures r.Err? ==> r.error == InvalidArgument
    ensures r.Ok? ==> r.value.amount == amount && Some(r.value.currency) == currency
  {
    if amount < 0.0 then Err(InvalidArgument)
    else if IsNullOrWhiteSpace(currency) then Err(InvalidArgument)
    else Ok(Money(amount, currency.value))
  }

  /** Money.Usd: an amount in US dollars. */
  function Usd(amount: real): (r: Result<Money>)
    ensures r.Ok? <==> amount >= 0.0
    ensures r.Ok? ==> r.value.amount == amount && r.value.currency == "USD"
  {
    assert "USD"[0] == 'U';
    NewMoney(amount, Some("USD"))
  }

  /**
   * No record gives no price; a record gives its latest price in its
   * currency, which fails like the Money constructor when the stored price
   * is negative.
   */
  function GetCurrentPrice(price: Prices.ConsumableItemPrice?): (r: Result<Option<Money>>)
    reads price
    ensures price == null ==> r == Ok(None)
    ensures price != null ==> (r.Ok? <==> price.latestPrice >= 0.0)
    ensures price != null && r.Ok? ==>
              r.value == Some(Money(price.latestPrice, CurrencyName(price.currency)))
  {
    if price == null then Ok(None)
    else
      assert CurrencyName(price.currency)[0] in {'U', 'D'};
      var money :- NewMoney(price.latestPrice, Some(CurrencyName(price.currency)));
      Ok(Some(money))
  }
}
