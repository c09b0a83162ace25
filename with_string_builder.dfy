/**
 * IdentityKeyBuilder_WithStringBuilder: appends into a growable buffer, stopping at the first
 * missing field, and checks the finished key against 250 characters.
 */
module WithStringBuilder {
  import opened Options
  import opened Application
  import opened KeySpec
  import DateFormat

  const MaxLength: nat := 250

  /**
   * The result: an empty list is rejected; otherwise the first missing field in requirement
   * order is reported; only a complete key is checked against the length limit.
   */
  function Expected(reqs: seq<IdentityKeyProperty>, props: IdentityKeyProperties): Outcome
  {
    if |reqs| == 0 then Error(EmptyRequirements)
    else
      var k := FirstMissingIndex(reqs, props);
      if k < |reqs| then Error(MissingField(reqs[k]))
      else if |KeyOf(reqs, props)| > MaxLength then Error(KeyTooLong(MaxLength))
      else Key(KeyOf(reqs, props))
  }

  method BuildIdentityKey(props: IdentityKeyProperties, requirements: Option<seq<IdentityKeyProperty>>)
    returns (result: Outcome)
    ensures result == Expected(Listed(requirements), props)
  {
    if requirements.None? || |requirements.value| == 0 {
      return Error(EmptyRequirements);
    }
    var reqs := requirements.value;
    var identityKeyBuilder: string := "";
    for i := 0 to |reqs|
      invariant AllPresent(reqs[..i], props)
      invariant identityKeyBuilder == KeyOf(reqs[..i], props)
    {
      NextKey(reqs, i, props);
      if |identityKeyBuilder| > 0 {
        identityKeyBuilder := identityKeyBuilder + "_";
      }
      var property := reqs[i];
      match property
      case AccountNumber | SystemCode | ExternalId =>
        var text := TextOf(property, props);
        if IsNullOrEmpty(text) {
          FirstMissingIndexAt(reqs, i, props);
          return Error(MissingField(property));
        }
        identityKeyBuilder := identityKeyBuilder + text.value;
      case ServiceDate =>
        if props.serviceDate.None? {
          FirstMissingIndexAt(reqs, i, props);
          return Error(MissingField(ServiceDate));
        }
        identityKeyBuilder := identityKeyBuilder + DateFormat.Format(props.serviceDate.value);
    }
    WholeKey(reqs, props);
    if |identityKeyBuilder| > 250 {
      return Error(KeyTooLong(250));
    }
    return Key(identityKeyBuilder);
  }
}
