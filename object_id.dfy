/** The id strings MongoDB accepts for `_id` lookups (`ObjectId.isValid`, the cast in `findById`). */
module ObjectId {
  import opened Text

  predicate IsHexDigit(c: char) {
    IsDigit(c) || 'a' <= c <= 'f' || 'A' <= c <= 'F'
  }

  /** Exactly 24 hexadecimal digits, either case; the current driver refuses every other string. */
  predicate Valid(id: string) {
    |id| == 24 && forall i :: 0 <= i < |id| ==> IsHexDigit(id[i])
  }
}
