/** has: linear membership test on a slice of strings. */
module Slices {

  /** has: whether val occurs in slice; the scan stops at the first occurrence. */
  method Has(slice: seq<string>, val: string) returns (found: bool)
    ensures found <==> val in slice
  {
    var i := 0;
    while i < |slice|
      invariant 0 <= i <= |slice|
      invariant val !in slice[..i]
    {
      if slice[i] == val {
        return true;
      }
      i := i + 1;
    }
    assert slice[..i] == slice;
    return false;
  }
}
