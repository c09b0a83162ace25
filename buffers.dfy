/** The span writes the builders perform, on a fixed-size character buffer. */
module Buffers {
  /**
   * `source.AsSpan().CopyTo(destination.Slice(start))`, and `TryFormat` into the same slice.
   * The span API throws when the slice is too short; here the caller must prove it is not.
   */
  method CopyTo(source: string, destination: array<char>, start: nat, ghost prefix: string)
    requires start + |source| <= destination.Length && destination[..start] == prefix
    modifies destination
    ensures destination[..start + |source|] == prefix + source
  {
    for j := 0 to |source|
      invariant destination[..start + j] == prefix + source[..j]
    {
      destination[start + j] := source[j];
      assert destination[..start + j + 1] == destination[..start + j] + [source[j]];
      assert source[..j + 1] == source[..j] + [source[j]];
    }
  }

  /** `destination[at] = c`, keeping the prefix before it. */
  method Put(c: char, destination: array<char>, at: nat, ghost prefix: string)
    requires at < destination.Length && destination[..at] == prefix
    modifies destination
    ensures destination[..at + 1] == prefix + [c]
  {
    destination[at] := c;
    assert destination[..at + 1] == destination[..at] + [c];
  }
}
