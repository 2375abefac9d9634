/** The price sheet: a fixed lookup from item name to unit price, in cents. */
module Catalog {

  /** The listed items and their prices in cents. */
  const PriceSheet: map<string, int> := map[
    "alarm" := 150,
    "pizza" := 600,
    "bred" := 200,
    "fish" := 1500,
    "wine" := 400,
    "room-service-food" := 999,
    "reception" := 0,
    "extra-cleaning" := 2000
  ]

  /** The price of `item`; an item not on the sheet costs nothing. */
  function Price(item: string): (cents: int)
    ensures 0 <= cents <= 2000
    ensures item !in PriceSheet ==> cents == 0
    ensures cents != 0 ==> item in PriceSheet && item != "reception"
  {
    if item in PriceSheet then PriceSheet[item] else 0
  }
}
