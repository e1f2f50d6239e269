/** The `Quote` record (QuoteValut/Models/Quote.swift) and its synthesized `Equatable`. */
module Quotes {

  /** A UUID: 128 bits. */
  newtype Uuid = x: int | 0 <= x < 0x1_0000_0000_0000_0000_0000_0000_0000_0000

  /** An immutable quote as fetched from the `quotes` table; `id` is its `Identifiable` key. */
  datatype Quote = Quote(id: Uuid, text: string, author: string, category: string)

  /** The `==` Swift synthesizes for `Quote`: field by field, in declaration order. */
  function Equal(a: Quote, b: Quote): (r: bool)
    ensures r <==> a == b
    ensures r ==> a.id == b.id
  {
    a.id == b.id && a.text == b.text && a.author == b.author && a.category == b.category
  }

  /** Equality is not decided by the key alone: a copy of a quote whose text was edited on the
      server has the same `id` but is a different value. */
  lemma SameIdIsNotEnough(a: Quote, b: Quote)
    requires a.id == b.id && a.text != b.text
    ensures !Equal(a, b) && a != b
  {
  }
}
