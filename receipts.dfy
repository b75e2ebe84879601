/** The receipt record as the store keeps it. */
module Receipts {
  import opened Sums

  datatype Item = Item(name: string, quantity: int, price: int)

  /** A stored date field: a Firestore Timestamp (milliseconds since the epoch), a string,
      or any other value (missing, null, a number, a plain object without `toDate`). */
  datatype TimeValue = Stamp(millis: int) | Text(text: string) | Other

  /** A receipt. `totalAmount` is in the currency's minor unit. An absent `storeName` or
      `category` is the empty string: both are only ever tested for truthiness. */
  datatype Receipt = Receipt(
    id: string,
    userId: string,
    storeName: string,
    totalAmount: int,
    items: seq<Item>,
    category: string,
    createdAt: TimeValue,
    updatedAt: TimeValue)

  function Amount(r: Receipt): int { r.totalAmount }

  /** The total revenue of a list of receipts: the sum of their amounts, in list order. */
  function SumAmounts(rs: seq<Receipt>): int { SumOf(rs, Amount) }
}
