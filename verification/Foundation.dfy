/** Shared vocabulary: machine words, classified errors, tri-state truth and checked
    arithmetic (src/foundation.cpp, include/federation_observatory/ids.hpp and errors.hpp). */
module Foundation {

  const U64_MAX: nat := 0xFFFF_FFFF_FFFF_FFFF
  const U32_MAX: nat := 0xFFFF_FFFF

  /** An unsigned 64-bit word. Generations, epochs, sequences and capacities are words; 0 is "unset". */
  type U64 = x: int | 0 <= x <= U64_MAX

  type Byte = x: int | 0 <= x < 256

  /** A C++ string: a sequence of bytes. */
  type Text = seq<Byte>

  /** Identifiers are strings; the empty string is the absent identifier. */
  type Id = Text

  const MAX_IDENTIFIER_LENGTH := 96

  datatype Option<+T> = None | Some(value: T)

  datatype Result<+T> = Ok(value: T) | Err(code: ErrorCode) {
    predicate IsFailure() { Err? }

    function PropagateFailure<U>(): Result<U>
      requires IsFailure()
    {
      Err(code)
    }

    function Extract(): T
      requires !IsFailure()
    {
      value
    }
  }

  datatype ErrorCode =
    | InvalidArgument
    | NotFound
    | Conflict
    | BoundExceeded
    | CapacityInconsistent
    | StaleGeneration
    | StaleEpoch
    | StaleBoot
    | FencedPublisher
    | SequenceRegression
    | ProtocolViolation
    | ConnectionClosed
    | OversizedPayload
    | IntegrityFailure
    | UnsupportedVersion
    | InvalidTransition
    | CorruptState
    | Backpressure
    | ShuttingDown

  // ---------------------------------------------------------------------------------
  // Generations
  // ---------------------------------------------------------------------------------

  /** The successor of a generation. It saturates instead of wrapping. */
  function Next(g: U64): (r: U64)
    ensures r >= g
    ensures r > g <==> g != U64_MAX
  {
    if g == U64_MAX then g else g + 1
  }

  // ---------------------------------------------------------------------------------
  // Checked arithmetic
  // ---------------------------------------------------------------------------------

  function CheckedAdd(a: U64, b: U64): (r: Option<U64>)
    ensures r.Some? <==> a + b <= U64_MAX
    ensures r.Some? ==> r.value == a + b
  {
    if a > U64_MAX - b then None else Some(a + b)
  }

  function CheckedSub(a: U64, b: U64): (r: Option<U64>)
    ensures r.Some? <==> b <= a
    ensures r.Some? ==> r.value + b == a
  {
    if b > a then None else Some(a - b)
  }

  function SaturatingAdd(a: U64, b: U64): (r: U64)
    ensures a + b <= U64_MAX ==> r == a + b
    ensures r == U64_MAX || r == a + b
  {
    match CheckedAdd(a, b)
    case Some(sum) => sum
    case None => U64_MAX
  }

  function Sum(values: seq<nat>): nat {
    if values == [] then 0 else Sum(values[..|values| - 1]) + values[|values| - 1]
  }

  lemma {:induction false} SumAppend(values: seq<nat>, last: nat)
    ensures Sum(values + [last]) == Sum(values) + last
  {
    assert (values + [last])[..|values|] == values;
  }

  lemma {:induction false} SumPrefixBound(values: seq<nat>, k: nat)
    requires k <= |values|
    ensures Sum(values[..k]) <= Sum(values)
  {
    if k == |values| {
      assert values[..k] == values;
    } else {
      SumPrefixBound(values[..|values| - 1], k);
      assert values[..|values| - 1][..k] == values[..k];
    }
  }

  /** Sums a list of words. It fails exactly when the mathematical sum is not a word. */
  method CheckedSum(values: seq<U64>) returns (r: Option<U64>)
    ensures r.Some? <==> Sum(values) <= U64_MAX
    ensures r.Some? ==> r.value == Sum(values)
  {
    var total: U64 := 0;
    for i := 0 to |values|
      invariant total == Sum(values[..i])
    {
      assert values[..i + 1] == values[..i] + [values[i]];
      SumAppend(values[..i], values[i]);
      match CheckedAdd(total, values[i])
      case None =>
        SumPrefixBound(values, i + 1);
        return None;
      case Some(next) =>
        total := next;
    }
    assert values[..|values|] == values;
    return Some(total);
  }

  // ---------------------------------------------------------------------------------
  // Tri-state truth
  // ---------------------------------------------------------------------------------

  datatype Tri = No | Unknown | Yes

  function TriAnd(a: Tri, b: Tri): Tri {
    if a == No || b == No then No
    else if a == Unknown || b == Unknown then Unknown
    else Yes
  }

  function TriNot(a: Tri): Tri {
    match a
    case No => Yes
    case Yes => No
    case Unknown => Unknown
  }

  function TriFromBool(value: bool): Tri {
    if value then Yes else No
  }

  // ---------------------------------------------------------------------------------
  // Identifiers
  // ---------------------------------------------------------------------------------

  predicate IsIdentifierChar(c: Byte) {
    var ch := c as char;
    || 'a' <= ch <= 'z' || 'A' <= ch <= 'Z' || '0' <= ch <= '9'
    || ch == '.' || ch == '_' || ch == '-' || ch == ':' || ch == '@' || ch == '/' || ch == '+' || ch == '='
  }

  predicate IsValidIdentifier(text: Id) {
    0 < |text| <= MAX_IDENTIFIER_LENGTH && forall i :: 0 <= i < |text| ==> IsIdentifierChar(text[i])
  }
}
