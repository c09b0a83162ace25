/**
 * IdentityKeyBuilder_WithSpan_NoLengthCalc: writes into a fixed buffer of 1000 characters
 * without measuring the key first, checking the room left before each field.  Because the
 * separator is written before any check, a key prefix of exactly 1000 characters followed by
 * another required field makes the separator write fall outside the buffer.
 */
module WithSpanNoLengthCalc {
  import opened Options
  import opened Application
  import opened KeySpec
  import DateFormat
  import Buffers

  /** The size of the buffer, which is also the limit the room checks use. */
  const MaxIdentityKeyLength: nat := 1000

  /**
   * The result: an empty list is rejected.  Otherwise, with k the first missing field, the
   * separator after a prefix of exactly 1000 characters (among the first k fields, with a
   * field still to come) lands outside the buffer; failing that, a present prefix longer than
   * 1000 characters is reported as too long; failing that, the missing field is reported; and
   * a complete key is returned.
   */
  function Expected(reqs: seq<IdentityKeyProperty>, props: IdentityKeyProperties): Outcome
  {
    if |reqs| == 0 then Error(EmptyRequirements)
    else
      var k := FirstMissingIndex(reqs, props);
      if SeparatorOverflows(reqs, k, props) then
        Crash(IndexOutOfRange(MaxIdentityKeyLength))
      else if |KeyOf(reqs[..k], props)| > MaxIdentityKeyLength then Error(KeyTooLong(MaxIdentityKeyLength))
      else if k < |reqs| then Error(MissingField(reqs[k]))
      else Key(KeyOf(reqs, props))
  }

  /**
   * Some prefix of the first k fields, with a field still to come after it, has a key of
   * exactly 1000 characters, so the separator after it would go at index 1000.
   */
  predicate SeparatorOverflows(reqs: seq<IdentityKeyProperty>, k: nat, props: IdentityKeyProperties)
  {
    exists j :: 0 < j <= k && j < |reqs| && |KeyOf(reqs[..j], props)| == MaxIdentityKeyLength
  }

  method BuildIdentityKey(props: IdentityKeyProperties, requirements: Option<seq<IdentityKeyProperty>>)
    returns (result: Outcome)
    ensures result == Expected(Listed(requirements), props)
  {
    if requirements.None? || |requirements.value| == 0 {
      return Error(EmptyRequirements);
    }
    var reqs := requirements.value;
    var currentPosition: nat := 0;
    var identityKeySpan := new char[MaxIdentityKeyLength];
    for i := 0 to |reqs|
      invariant AllPresent(reqs[..i], props)
      invariant currentPosition == |KeyOf(reqs[..i], props)| <= MaxIdentityKeyLength
      invariant identityKeySpan[..currentPosition] == KeyOf(reqs[..i], props)
    {
      StepMeaning(reqs, i, props);
      var failure;
      failure, currentPosition := WriteRequirement(props, reqs[i], identityKeySpan, currentPosition,
        KeyOf(reqs[..i], props));
      if failure.Some? {
        return failure.value;
      }
    }
    WholeKey(reqs, props);
    Finished(reqs, props);
    return Key(identityKeySpan[..currentPosition]);
  }

  /**
   * How one pass of the loop ends, from the position it starts at: the separator write fails
   * at index 1000; a missing field is reported; a field that does not fit before index 1000 is
   * reported as too long; or (None) the field is written.
   */
  function StepFailure(position: nat, property: IdentityKeyProperty, props: IdentityKeyProperties): Option<Outcome>
  {
    var at := if position > 0 then position + 1 else 0;
    if position >= MaxIdentityKeyLength && position > 0 then Some(Crash(IndexOutOfRange(position)))
    else if !IsPresent(property, props) then Some(Error(MissingField(property)))
    else if at + |Rendering(property, props)| > MaxIdentityKeyLength then Some(Error(KeyTooLong(MaxIdentityKeyLength)))
    else None
  }

  /**
   * One pass of the loop: the separator (unless nothing has been written), then the field.
   * It fails as StepFailure says, and otherwise leaves the prefix, the separator and the
   * field's rendering in the buffer.
   */
  method WriteRequirement(props: IdentityKeyProperties, property: IdentityKeyProperty, identityKeySpan: array<char>,
                          currentPosition: nat, ghost prefix: string)
    returns (failure: Option<Outcome>, nextPosition: nat)
    requires currentPosition <= identityKeySpan.Length == MaxIdentityKeyLength
    requires identityKeySpan[..currentPosition] == prefix
    modifies identityKeySpan
    ensures failure == StepFailure(currentPosition, property, props)
    ensures failure.None? ==>
      var through := (if currentPosition > 0 then prefix + [Separator] else prefix) + Rendering(property, props);
      nextPosition == |through| && identityKeySpan[..nextPosition] == through
  {
    var position := currentPosition;
    if position > 0 {
      if position >= identityKeySpan.Length {
        // Writing the separator at index 1000 throws.
        return Some(Crash(IndexOutOfRange(position))), position;
      }
      Buffers.Put(Separator, identityKeySpan, position, prefix);
      position := position + 1;
    }
    var error, propertyLength := WriteProperty(props, property, identityKeySpan, position, identityKeySpan[..position]);
    if error.Some? {
      return Some(Error(error.value)), position;
    }
    return None, position + propertyLength;
  }

  /**
   * The switch on one field, writing at `at`: a missing field (null, or an empty text) is
   * reported, a present one that does not fit before index 1000 is reported as too long, and
   * otherwise its rendering is copied in after `prefix`.  For a text field the room check runs
   * first, but a missing text has length 0 and the position never exceeds 1000, so it cannot fire.
   */
  method WriteProperty(props: IdentityKeyProperties, property: IdentityKeyProperty, span: array<char>, at: nat,
                       ghost prefix: string)
    returns (failure: Option<BuildError>, propertyLength: nat)
    requires at <= span.Length == MaxIdentityKeyLength && span[..at] == prefix
    modifies span
    ensures propertyLength == |Rendering(property, props)|
    ensures failure ==
      if !IsPresent(property, props) then Some(MissingField(property))
      else if at + propertyLength > MaxIdentityKeyLength then Some(KeyTooLong(MaxIdentityKeyLength))
      else None
    ensures failure == None ==> span[..at + propertyLength] == prefix + Rendering(property, props)
  {
    match property {
      case AccountNumber | SystemCode | ExternalId =>
        var text := TextOf(property, props);
        propertyLength := TextLength(text);
        if at + propertyLength > 1000 {
          return Some(KeyTooLong(1000)), propertyLength;
        }
        if propertyLength == 0 {
          return Some(MissingField(property)), propertyLength;
        }
        Buffers.CopyTo(text.value, span, at, prefix);
      case ServiceDate =>
        if props.serviceDate.None? {
          return Some(MissingField(ServiceDate)), 0;
        }
        propertyLength := 8;
        if at + propertyLength > 1000 {
          return Some(KeyTooLong(1000)), propertyLength;
        }
        Buffers.CopyTo(DateFormat.Format(props.serviceDate.value), span, at, prefix);
    }
    failure := None;
  }

  /**
   * What one pass of the loop means for the whole list, when every field before i is present
   * and their key fits: a failing pass is the list's result, and a pass that writes leaves the
   * first i + 1 fields present with a key that still fits.
   */
  lemma StepMeaning(reqs: seq<IdentityKeyProperty>, i: nat, props: IdentityKeyProperties)
    requires i < |reqs| && AllPresent(reqs[..i], props)
    requires |KeyOf(reqs[..i], props)| <= MaxIdentityKeyLength
    ensures |KeyOf(reqs[..i], props)| > 0 <==> i > 0
    ensures KeyOf(reqs[..i + 1], props) ==
      (if i > 0 then KeyOf(reqs[..i], props) + [Separator] else "") + Rendering(reqs[i], props)
    ensures var failure := StepFailure(|KeyOf(reqs[..i], props)|, reqs[i], props);
      && (failure.Some? ==> Expected(reqs, props) == failure.value)
      && (failure.None? ==>
            AllPresent(reqs[..i + 1], props) && |KeyOf(reqs[..i + 1], props)| <= MaxIdentityKeyLength)
  {
    NextKey(reqs, i, props);
    var position := |KeyOf(reqs[..i], props)|;
    if position >= MaxIdentityKeyLength && position > 0 {
      SeparatorOutside(reqs, i, props);
    } else if !IsPresent(reqs[i], props) {
      MissingAt(reqs, i, props);
    } else if (if position > 0 then position + 1 else 0) + |Rendering(reqs[i], props)| > MaxIdentityKeyLength {
      NoRoom(reqs, i, props);
    }
  }

  /** No prefix of a present list that stays within 1000 characters, other than itself, reaches 1000. */
  lemma BelowLimitBefore(reqs: seq<IdentityKeyProperty>, i: nat, props: IdentityKeyProperties)
    requires i <= |reqs| && AllPresent(reqs[..i], props)
    requires |KeyOf(reqs[..i], props)| <= MaxIdentityKeyLength
    ensures forall j :: 0 <= j < i ==> |KeyOf(reqs[..j], props)| < MaxIdentityKeyLength
  {
    forall j | 0 <= j < i ensures |KeyOf(reqs[..j], props)| < MaxIdentityKeyLength {
      KeyOfPrefixGrows(reqs, j, i, props);
    }
  }

  /** A prefix of exactly 1000 characters with another field to come makes the separator fall outside. */
  lemma SeparatorOutside(reqs: seq<IdentityKeyProperty>, i: nat, props: IdentityKeyProperties)
    requires 0 < i < |reqs| && AllPresent(reqs[..i], props)
    requires |KeyOf(reqs[..i], props)| == MaxIdentityKeyLength
    ensures Expected(reqs, props) == Crash(IndexOutOfRange(MaxIdentityKeyLength))
  {
    FirstMissingIndexFrom(reqs, i, props);
    var k := FirstMissingIndex(reqs, props);
    assert 0 < i <= k && i < |reqs| && |KeyOf(reqs[..i], props)| == MaxIdentityKeyLength;
    assert SeparatorOverflows(reqs, k, props);
  }

  /**
   * Field i is present, the prefix before it is shorter than 1000 characters (or empty), and
   * the prefix through it is longer: the room check reports the key as too long.
   */
  lemma NoRoom(reqs: seq<IdentityKeyProperty>, i: nat, props: IdentityKeyProperties)
    requires i < |reqs| && AllPresent(reqs[..i], props)
    requires i == 0 || |KeyOf(reqs[..i], props)| < MaxIdentityKeyLength
    requires |KeyOf(reqs[..i], props)| + (if i > 0 then 1 else 0) + |Rendering(reqs[i], props)| > MaxIdentityKeyLength
    ensures Expected(reqs, props) == Error(KeyTooLong(MaxIdentityKeyLength))
  {
    NextKey(reqs, i, props);
    assert IsPresent(reqs[i], props);
    FirstMissingIndexFrom(reqs, i + 1, props);
    var k := FirstMissingIndex(reqs, props);
    KeyOfPrefixMonotone(reqs, i + 1, k, props);
    NoOverflowAround(reqs, i, k, props);
  }

  /**
   * When the key through field i is over 1000 characters and the key before it is under (or
   * empty), no prefix up to k has a key of exactly 1000 characters.
   */
  lemma NoOverflowAround(reqs: seq<IdentityKeyProperty>, i: nat, k: nat, props: IdentityKeyProperties)
    requires i < k <= |reqs| && AllPresent(reqs[..k], props)
    requires i == 0 || |KeyOf(reqs[..i], props)| < MaxIdentityKeyLength
    requires |KeyOf(reqs[..i + 1], props)| > MaxIdentityKeyLength
    ensures !SeparatorOverflows(reqs, k, props)
  {
    forall j | 0 < j <= k && j < |reqs| ensures |KeyOf(reqs[..j], props)| != MaxIdentityKeyLength {
      AllPresentPrefix(reqs, j, k, props);
      if j < i {
        AllPresentPrefix(reqs, i, k, props);
        KeyOfPrefixGrows(reqs, j, i, props);
      } else if j > i {
        KeyOfPrefixMonotone(reqs, i + 1, j, props);
      }
    }
  }

  /**
   * Field i is missing and the prefix before it is shorter than 1000 characters (or empty):
   * the missing field is reported.
   */
  lemma MissingAt(reqs: seq<IdentityKeyProperty>, i: nat, props: IdentityKeyProperties)
    requires i < |reqs| && AllPresent(reqs[..i], props) && !IsPresent(reqs[i], props)
    requires i == 0 || |KeyOf(reqs[..i], props)| < MaxIdentityKeyLength
    ensures Expected(reqs, props) == Error(MissingField(reqs[i]))
  {
    FirstMissingIndexAt(reqs, i, props);
    if i > 0 {
      BelowLimitBefore(reqs, i, props);
    }
  }

  /** Every field is present and the key fits in 1000 characters: the key is returned. */
  lemma Finished(reqs: seq<IdentityKeyProperty>, props: IdentityKeyProperties)
    requires |reqs| > 0 && AllPresent(reqs[..|reqs|], props)
    requires |KeyOf(reqs, props)| <= MaxIdentityKeyLength
    ensures Expected(reqs, props) == Key(KeyOf(reqs, props))
  {
    WholeKey(reqs, props);
    BelowLimitBefore(reqs, |reqs|, props);
  }
}
