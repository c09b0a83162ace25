/**
 * IdentityKeyBuilder_WithSpan: computes the key's length from the present fields, rejects a
 * length over 250, then writes the fields into a buffer of exactly that length.
 */
module WithSpan {
  import opened Options
  import opened Application
  import opened KeySpec
  import DateFormat
  import Buffers

  const MaxLength: nat := 250

  /**
   * The result. The length check comes first and counts only the present fields, so it can
   * win over a missing field; when no required field is present the length is -1 and the
   * buffer allocation faults before any field is looked at.
   */
  function Expected(reqs: seq<IdentityKeyProperty>, props: IdentityKeyProperties): Outcome
  {
    if |reqs| == 0 then Error(EmptyRequirements)
    else
      var present := Present(reqs, props);
      var length := if present == [] then -1 else |KeyOf(present, props)|;
      if length > MaxLength then Error(KeyTooLong(MaxLength))
      else if length < 0 then Crash(NegativeBufferSize(length))
      else
        var k := FirstMissingIndex(reqs, props);
        if k < |reqs| then Error(MissingField(reqs[k])) else Key(KeyOf(reqs, props))
  }

  /**
   * Each present field adds its length plus one for a separator, and one is taken off for the
   * separator that does not trail: the length of the key the present fields make, or -1.
   */
  method CalculateIdentityKeyLength(props: IdentityKeyProperties, reqs: seq<IdentityKeyProperty>)
    returns (length: int)
    ensures length == if Present(reqs, props) == [] then -1 else |KeyOf(Present(reqs, props), props)|
  {
    length := 0;
    for i := 0 to |reqs|
      invariant length == Contribution(reqs[..i], props)
    {
      var requirement := reqs[i];
      assert reqs[..i + 1] == reqs[..i] + [requirement];
      ContributionSnoc(reqs[..i], requirement, props);
      match requirement
      case AccountNumber | SystemCode | ExternalId =>
        length := length + if !IsNullOrEmpty(TextOf(requirement, props)) then |TextOf(requirement, props).value| + 1 else 0;
      case ServiceDate =>
        length := length + if props.serviceDate != None then 9 else 0; // 8 for 'yyyyMMdd', 1 for '_'
    }
    assert reqs[..|reqs|] == reqs;
    if Present(reqs, props) != [] {
      JoinLength(Renderings(Present(reqs, props), props));
    }
    // Every field above also counted its separator; the last one has none.
    length := length - 1;
  }

  /** The sum CalculateIdentityKeyLength accumulates: one rendering and one separator per present field. */
  ghost function Contribution(fields: seq<IdentityKeyProperty>, props: IdentityKeyProperties): int
  {
    TotalLength(Renderings(Present(fields, props), props)) + |Present(fields, props)|
  }

  lemma ContributionSnoc(xs: seq<IdentityKeyProperty>, f: IdentityKeyProperty, props: IdentityKeyProperties)
    ensures Contribution(xs + [f], props) ==
      Contribution(xs, props) + if IsPresent(f, props) then |Rendering(f, props)| + 1 else 0
  {
    var before := Present(xs, props);
    assert (xs + [f])[..|xs|] == xs;
    if IsPresent(f, props) {
      var parts := Renderings(before + [f], props);
      assert parts[..|parts| - 1] == Renderings(before, props);
    }
  }

  method BuildIdentityKey(props: IdentityKeyProperties, requirements: Option<seq<IdentityKeyProperty>>)
    returns (result: Outcome)
    ensures result == Expected(Listed(requirements), props)
  {
    if requirements.None? || |requirements.value| == 0 {
      return Error(EmptyRequirements);
    }
    var reqs := requirements.value;
    var identityKeyLength := CalculateIdentityKeyLength(props, reqs);

    if identityKeyLength > 250 {
      return Error(KeyTooLong(250));
    }
    if identityKeyLength < 0 {
      // stackalloc char[identityKeyLength] throws for a negative length
      return Crash(NegativeBufferSize(identityKeyLength));
    }
    var identityKeySpan := new char[identityKeyLength];
    result := WriteFields(props, reqs, identityKeySpan);
  }

  /**
   * The write loop of BuildIdentityKey, over a buffer as long as the key of the present
   * fields: the key when every field is present, otherwise the first missing field's error.
   */
  method WriteFields(props: IdentityKeyProperties, reqs: seq<IdentityKeyProperty>, identityKeySpan: array<char>)
    returns (result: Outcome)
    requires identityKeySpan.Length == |KeyOf(Present(reqs, props), props)|
    modifies identityKeySpan
    ensures var k := FirstMissingIndex(reqs, props);
      result == if k < |reqs| then Error(MissingField(reqs[k])) else Key(KeyOf(reqs, props))
  {
    var identityKeyLength := identityKeySpan.Length;
    var currentPosition: nat := 0;
    var propertyLength := 0;
    for i := 0 to |reqs|
      invariant AllPresent(reqs[..i], props)
      invariant currentPosition <= identityKeyLength
      invariant identityKeySpan[..currentPosition] == Written(reqs, i, props, identityKeyLength)
    {
      var property := reqs[i];
      WriteRoom(reqs, i, props);
      propertyLength, currentPosition := WriteRequirement(props, property, identityKeySpan, currentPosition,
        Written(reqs, i, props, identityKeyLength));
      if propertyLength == 0 {
        FirstMissingIndexAt(reqs, i, props);
        return Error(MissingField(property));
      }
    }
    WrittenAll(reqs, props);
    assert identityKeySpan[..] == identityKeySpan[..currentPosition];
    return Key(identityKeySpan[..]);
  }

  /**
   * What the write loop has put in a buffer of the given length once it has handled the
   * first i requirements: each one's rendering, each followed by a separator while the
   * position is short of the buffer's end.
   */
  ghost function Written(reqs: seq<IdentityKeyProperty>, i: nat, props: IdentityKeyProperties, length: int): string
    requires i <= |reqs|
  {
    if i == 0 then ""
    else
      var through := Written(reqs, i - 1, props, length) + Rendering(reqs[i - 1], props);
      if |through| < length then through + [Separator] else through
  }

  /**
   * While every field so far is present, the loop has written their key, plus a separator
   * when more present fields follow, and what those make fills the rest of the buffer.
   */
  ghost predicate WrittenIsKey(reqs: seq<IdentityKeyProperty>, i: nat, props: IdentityKeyProperties)
    requires i <= |reqs|
  {
    var length := |KeyOf(Present(reqs, props), props)|;
    var more := 0 < i && Present(reqs[i..], props) != [];
    && Written(reqs, i, props, length) == KeyOf(reqs[..i], props) + (if more then [Separator] else [])
    && length == |KeyOf(reqs[..i], props)| + (if more then 1 else 0) + |KeyOf(Present(reqs[i..], props), props)|
  }

  lemma {:induction false} WrittenMeaning(reqs: seq<IdentityKeyProperty>, i: nat, props: IdentityKeyProperties)
    requires i <= |reqs| && AllPresent(reqs[..i], props)
    ensures WrittenIsKey(reqs, i, props)
  {
    if i == 0 {
      assert reqs[0..] == reqs;
    } else {
      var j := i - 1;
      assert reqs[..i] == reqs[..j] + [reqs[j]];
      AllPresentSnoc(reqs[..j], reqs[j], props);
      WrittenMeaning(reqs, j, props);
      WrittenStep(reqs, j, props);
    }
  }

  /** The induction step of WrittenMeaning: one more present field keeps the loop writing the key. */
  lemma WrittenStep(reqs: seq<IdentityKeyProperty>, i: nat, props: IdentityKeyProperties)
    requires i < |reqs| && AllPresent(reqs[..i], props) && IsPresent(reqs[i], props)
    requires WrittenIsKey(reqs, i, props)
    ensures WrittenIsKey(reqs, i + 1, props)
  {
    var length := |KeyOf(Present(reqs, props), props)|;
    KeyStep(reqs, i, props);
    var through := Written(reqs, i, props, length) + Rendering(reqs[i], props);
    assert through == KeyOf(reqs[..i + 1], props);
    var rest := Present(reqs[i + 1..], props);
    if rest == [] {
      assert KeyOf(rest, props) == "";
    }
  }

  /** Once every field is handled and present, the loop has written the whole key and filled the buffer. */
  lemma WrittenAll(reqs: seq<IdentityKeyProperty>, props: IdentityKeyProperties)
    requires AllPresent(reqs[..|reqs|], props)
    ensures FirstMissingIndex(reqs, props) == |reqs|
    ensures var length := |KeyOf(Present(reqs, props), props)|;
      Written(reqs, |reqs|, props, length) == KeyOf(reqs, props) && |KeyOf(reqs, props)| == length
  {
    assert reqs[..|reqs|] == reqs;
    FirstMissingIndexAt(reqs, |reqs|, props);
    WrittenMeaning(reqs, |reqs|, props);
    assert reqs[|reqs|..] == [];
  }

  /** The next field's rendering fits the buffer where the loop stands. */
  lemma WriteRoom(reqs: seq<IdentityKeyProperty>, i: nat, props: IdentityKeyProperties)
    requires i < |reqs| && AllPresent(reqs[..i], props)
    ensures var length := |KeyOf(Present(reqs, props), props)|;
      |Written(reqs, i, props, length)| + |Rendering(reqs[i], props)| <= length
    ensures IsPresent(reqs[i], props) ==> AllPresent(reqs[..i + 1], props)
  {
    WrittenMeaning(reqs, i, props);
    if IsPresent(reqs[i], props) {
      KeyStep(reqs, i, props);
    }
  }

  /**
   * The body of the write loop: the field, or 0 when it is missing; after a field, the
   * separator unless the end of the buffer is reached (there is no trailing '_').
   */
  method WriteRequirement(props: IdentityKeyProperties, property: IdentityKeyProperty, identityKeySpan: array<char>,
                          currentPosition: nat, ghost prefix: string)
    returns (propertyLength: nat, nextPosition: nat)
    requires currentPosition + |Rendering(property, props)| <= identityKeySpan.Length
    requires identityKeySpan[..currentPosition] == prefix
    modifies identityKeySpan
    ensures propertyLength == |Rendering(property, props)|
    ensures propertyLength > 0 ==>
      var through := prefix + Rendering(property, props);
      && nextPosition <= identityKeySpan.Length
      && identityKeySpan[..nextPosition] == if |through| < identityKeySpan.Length then through + [Separator] else through
  {
    propertyLength := WriteProperty(props, property, identityKeySpan, currentPosition, prefix);
    if propertyLength == 0 {
      return 0, currentPosition;
    }
    nextPosition := currentPosition + propertyLength;
    if nextPosition < identityKeySpan.Length {
      Buffers.Put(Separator, identityKeySpan, nextPosition, prefix + Rendering(property, props));
      nextPosition := nextPosition + 1;
    }
  }

  /**
   * The body of the write loop's switch: for a present field, its text (or TryFormat's
   * "yyyyMMdd") is copied to the buffer at `at` and its length returned; for a missing one, 0
   * is returned and nothing is written, after which the builder returns the field's error.
   */
  method WriteProperty(props: IdentityKeyProperties, property: IdentityKeyProperty, span: array<char>, at: nat, ghost prefix: string)
    returns (propertyLength: nat)
    requires at + |Rendering(property, props)| <= span.Length && span[..at] == prefix
    modifies span
    ensures propertyLength == |Rendering(property, props)|
    ensures propertyLength > 0 ==> span[..at + propertyLength] == prefix + Rendering(property, props)
  {
    match property {
      case AccountNumber | SystemCode | ExternalId =>
        var text := TextOf(property, props);
        propertyLength := TextLength(text);
        if propertyLength == 0 {
          return;
        }
        Buffers.CopyTo(text.value, span, at, prefix);
      case ServiceDate =>
        if props.serviceDate.None? {
          return 0;
        }
        propertyLength := 8;
        Buffers.CopyTo(DateFormat.Format(props.serviceDate.value), span, at, prefix);
    }
  }

  /**
   * Field i is present and so is everything before it: the key grows by a separator (unless
   * field i comes first) and field i's rendering, and what the fields after it make shrinks by
   * as much.
   */
  lemma KeyStep(reqs: seq<IdentityKeyProperty>, i: nat, props: IdentityKeyProperties)
    requires i < |reqs| && AllPresent(reqs[..i], props) && IsPresent(reqs[i], props)
    ensures AllPresent(reqs[..i + 1], props)
    ensures Present(reqs[i..], props) != []
    ensures KeyOf(reqs[..i + 1], props) ==
      if i == 0 then Rendering(reqs[i], props)
      else KeyOf(reqs[..i], props) + [Separator] + Rendering(reqs[i], props)
    ensures |KeyOf(reqs[..i], props)| + (if i > 0 then 1 else 0) + |KeyOf(Present(reqs[i..], props), props)|
      == |KeyOf(reqs[..i + 1], props)| + (if Present(reqs[i + 1..], props) != [] then 1 else 0)
         + |KeyOf(Present(reqs[i + 1..], props), props)|
  {
    var f := reqs[i];
    var rest := Present(reqs[i + 1..], props);
    assert reqs[..i + 1] == reqs[..i] + [f];
    AllPresentSnoc(reqs[..i], f, props);
    assert reqs[i..] == [f] + reqs[i + 1..];
    PresentCons(f, reqs[i + 1..], props);
    KeyOfSnoc(reqs[..i], f, props);
    KeyOfCons(f, rest, props);
  }
}
