/** Timestamps and the three cursor arguments of the message traversal.

    The archive stores times as fixed-width ISO 8601 strings "YYYY-MM-DDThh:mm:ss.mmmZ" and
    compares them as text. For strings of that one width, text order is the order of the
    integer formed by their 17 digits, so a timestamp is modelled by that integer. */
module Timestamps {

  /** "0000-00-00T00:00:00.000Z", the lower sentinel. */
  const Zeroes: int := 0

  /** "9999-99-99T99:99:99.999Z", the upper sentinel. */
  const Nines: int := 99_999_999_999_999_999

  /** A cursor argument as the caller passes it: the empty string, one of the two keywords,
      or a timestamp. */
  datatype Cursor = Unset | Beginning | End | Stamp(t: int)

  /** Python truthiness of the argument string: only the empty string is false. */
  predicate IsSet(c: Cursor)
  {
    c != Unset
  }

  /** Where the argument string sits in text order among timestamps: the empty string comes
      before every timestamp, and "beginning" < "end" both start with a letter, so they come
      after every digit-led timestamp. */
  function Rank(c: Cursor): (r: int)
    ensures c == Unset ==> r < Zeroes
    ensures c.Beginning? || c.End? ==> r > Nines
  {
    match c
    case Unset => Zeroes - 1
    case Beginning => Nines + 1
    case End => Nines + 2
    case Stamp(t) => t
  }
}
