/**
 * What the three builders have in common: the result shape, which fields count as present,
 * how a field is rendered, and how renderings are joined with '_'.
 */
module KeySpec {
  import opened Options
  import opened Application
  import DateFormat

  /** The reasons a builder returns an error message and a null key. */
  datatype BuildError =
    | EmptyRequirements                          // null or empty requirement list
    | MissingField(field: IdentityKeyProperty)   // "Property <field> cannot be null[ or empty]."
    | KeyTooLong(limit: nat)                     // "IdentityKey cannot be more than <limit> characters."

  /** Runtime exceptions a builder can raise instead of returning. */
  datatype Fault =
    | NegativeBufferSize(size: int)   // stackalloc of a negative length
    | IndexOutOfRange(index: int)     // a span write past the end of the buffer

  /** The (IdentityKey, ErrorMessage) pair, which is never both null nor both set, or a crash. */
  datatype Outcome = Key(key: string) | Error(error: BuildError) | Crash(fault: Fault)

  const Separator: char := '_'

  /** The requirement list; a null list has no elements, like an empty one. */
  function Listed(requirements: Option<seq<IdentityKeyProperty>>): seq<IdentityKeyProperty>
  {
    match requirements
    case None => []
    case Some(reqs) => reqs
  }

  /** string.IsNullOrEmpty */
  predicate IsNullOrEmpty(s: Option<string>)
  {
    s.None? || |s.value| == 0
  }

  /** `s?.Length ?? 0` */
  function TextLength(s: Option<string>): (n: nat)
    ensures n == 0 <==> IsNullOrEmpty(s)
  {
    match s
    case None => 0
    case Some(t) => |t|
  }

  /** The value of a text field. */
  function TextOf(f: IdentityKeyProperty, props: IdentityKeyProperties): Option<string>
    requires f.IsText()
  {
    match f
    case AccountNumber => props.accountNumber
    case SystemCode => props.systemCode
    case ExternalId => props.externalId
  }

  /** A text field is present when it is neither null nor empty, the date when it is not null. */
  predicate IsPresent(f: IdentityKeyProperty, props: IdentityKeyProperties)
  {
    if f.IsText() then !IsNullOrEmpty(TextOf(f, props)) else props.serviceDate.Some?
  }

  /**
   * What a builder writes for one field: the text verbatim, the date as eight digits. A
   * missing field renders as nothing, which is how the length computation of WithSpan
   * treats it.
   */
  function Rendering(f: IdentityKeyProperty, props: IdentityKeyProperties): (r: string)
    ensures IsPresent(f, props) <==> |r| > 0
    ensures f.IsText() && IsPresent(f, props) ==> TextOf(f, props) == Some(r)
    ensures f == ServiceDate && IsPresent(f, props) ==> |r| == 8 && DateFormat.IsDigits(r)
  {
    if f.IsText() then
      match TextOf(f, props)
      case None => ""
      case Some(t) => t
    else
      match props.serviceDate
      case None => ""
      case Some(d) => DateFormat.Format(d)
  }

  function Renderings(fields: seq<IdentityKeyProperty>, props: IdentityKeyProperties): (r: seq<string>)
    ensures |r| == |fields|
    ensures forall i :: 0 <= i < |fields| ==> r[i] == Rendering(fields[i], props)
  {
    if fields == [] then [] else Renderings(fields[..|fields| - 1], props) + [Rendering(fields[|fields| - 1], props)]
  }

  /** The parts with one separator between each two neighbours. */
  function Join(parts: seq<string>): string
  {
    if |parts| == 0 then ""
    else if |parts| == 1 then parts[0]
    else Join(parts[..|parts| - 1]) + [Separator] + parts[|parts| - 1]
  }

  /** The key the fields make, in the order given. */
  function KeyOf(fields: seq<IdentityKeyProperty>, props: IdentityKeyProperties): string
  {
    Join(Renderings(fields, props))
  }

  function TotalLength(parts: seq<string>): nat
  {
    if parts == [] then 0 else TotalLength(parts[..|parts| - 1]) + |parts[|parts| - 1]|
  }

  predicate AllPresent(fields: seq<IdentityKeyProperty>, props: IdentityKeyProperties)
  {
    forall i :: 0 <= i < |fields| ==> IsPresent(fields[i], props)
  }

  /** The required fields that have a value, in requirement order. */
  function Present(fields: seq<IdentityKeyProperty>, props: IdentityKeyProperties): (r: seq<IdentityKeyProperty>)
    ensures AllPresent(r, props)
    ensures |r| <= |fields|
  {
    if fields == [] then []
    else
      var init := Present(fields[..|fields| - 1], props);
      if IsPresent(fields[|fields| - 1], props) then init + [fields[|fields| - 1]] else init
  }

  /** The position of the first required field without a value, or the list's length. */
  function FirstMissingIndex(fields: seq<IdentityKeyProperty>, props: IdentityKeyProperties): (k: nat)
    ensures k <= |fields|
    ensures AllPresent(fields[..k], props)
    ensures k < |fields| ==> !IsPresent(fields[k], props)
  {
    if fields == [] || !IsPresent(fields[0], props) then 0
    else
      var k' := FirstMissingIndex(fields[1..], props);
      assert fields[..k' + 1] == [fields[0]] + fields[1..][..k'];
      1 + k'
  }

  /** The last index of `c` in `s`, or -1. */
  function LastIndexOf(s: string, c: char): (r: int)
    ensures -1 <= r < |s|
    ensures r >= 0 ==> s[r] == c
    ensures forall i :: r < i < |s| ==> s[i] != c
  {
    if s == [] then -1
    else if s[|s| - 1] == c then |s| - 1
    else LastIndexOf(s[..|s| - 1], c)
  }

  /** Cuts a key at every separator; the inverse of Join for parts free of separators. */
  function Split(s: string): (parts: seq<string>)
    ensures parts != []
    decreases |s|
  {
    var i := LastIndexOf(s, Separator);
    if i < 0 then [s] else Split(s[..i]) + [s[i + 1..]]
  }

  // ---------------------------------------------------------------------------------------
  // Facts about Join

  /** Joining two non-empty lists puts exactly one separator between their joins. */
  lemma {:induction false} JoinAppend(a: seq<string>, b: seq<string>)
    requires a != [] && b != []
    ensures Join(a + b) == Join(a) + [Separator] + Join(b)
    decreases |b|
  {
    if |b| == 1 {
      assert (a + b)[..|a + b| - 1] == a;
    } else {
      var b' := b[..|b| - 1];
      assert (a + b)[..|a + b| - 1] == a + b';
      JoinAppend(a, b');
    }
  }

  /** n parts make the sum of their lengths plus n - 1 separators: none leading, none trailing. */
  lemma {:induction false} JoinLength(parts: seq<string>)
    requires parts != []
    ensures |Join(parts)| == TotalLength(parts) + |parts| - 1
  {
    if |parts| > 1 {
      JoinLength(parts[..|parts| - 1]);
    }
  }

  /** The key begins with the first part and ends with the last one. */
  lemma {:induction false} JoinEdges(parts: seq<string>)
    requires parts != []
    ensures parts[0] <= Join(parts)
    ensures Join(parts)[|Join(parts)| - |parts[|parts| - 1]|..] == parts[|parts| - 1]
  {
    if |parts| > 1 {
      var init := parts[..|parts| - 1];
      JoinEdges(init);
      assert init[0] == parts[0];
    }
  }

  /** Splitting a join gives the parts back when no part holds a separator. */
  lemma {:induction false} SplitJoin(parts: seq<string>)
    requires parts != []
    requires forall i :: 0 <= i < |parts| ==> Separator !in parts[i]
    ensures Split(Join(parts)) == parts
  {
    if |parts| == 1 {
      LastIndexOfAbsent(parts[0], Separator);
    } else {
      var init := parts[..|parts| - 1];
      var last := parts[|parts| - 1];
      var s := Join(parts);
      assert s == Join(init) + [Separator] + last;
      LastIndexOfLast(Join(init), last, Separator);
      assert s[..|Join(init)|] == Join(init);
      assert s[|Join(init)| + 1..] == last;
      assert forall i :: 0 <= i < |init| ==> init[i] == parts[i];
      SplitJoin(init);
    }
  }

  /** A string without `c` has no last index of it. */
  lemma LastIndexOfAbsent(s: string, c: char)
    requires c !in s
    ensures LastIndexOf(s, c) == -1
  {
  }

  /** The last `c` is the one before a stretch free of `c`. */
  lemma {:induction false} LastIndexOfLast(a: string, b: string, c: char)
    requires c !in b
    ensures LastIndexOf(a + [c] + b, c) == |a|
    decreases |b|
  {
    var s := a + [c] + b;
    if b != [] {
      var b' := b[..|b| - 1];
      assert s[..|s| - 1] == a + [c] + b';
      assert s[|s| - 1] == b[|b| - 1] && b[|b| - 1] in b;
      assert forall x :: x in b' ==> x in b;
      LastIndexOfLast(a, b', c);
    }
  }

  // ---------------------------------------------------------------------------------------
  // Facts about keys of field lists

  lemma RenderingsAppend(xs: seq<IdentityKeyProperty>, ys: seq<IdentityKeyProperty>, props: IdentityKeyProperties)
    ensures Renderings(xs + ys, props) == Renderings(xs, props) + Renderings(ys, props)
  {
  }

  /** The key of two lists laid end to end. */
  lemma KeyOfAppend(xs: seq<IdentityKeyProperty>, ys: seq<IdentityKeyProperty>, props: IdentityKeyProperties)
    ensures KeyOf(xs + ys, props) ==
      if xs == [] then KeyOf(ys, props)
      else if ys == [] then KeyOf(xs, props)
      else KeyOf(xs, props) + [Separator] + KeyOf(ys, props)
  {
    RenderingsAppend(xs, ys, props);
    if xs == [] {
      assert xs + ys == ys;
    } else if ys == [] {
      assert xs + ys == xs;
    } else {
      JoinAppend(Renderings(xs, props), Renderings(ys, props));
    }
  }

  /** Appending one more field appends a separator (unless it comes first) and its rendering. */
  lemma KeyOfSnoc(xs: seq<IdentityKeyProperty>, f: IdentityKeyProperty, props: IdentityKeyProperties)
    ensures KeyOf(xs + [f], props) ==
      if xs == [] then Rendering(f, props) else KeyOf(xs, props) + [Separator] + Rendering(f, props)
  {
    KeyOfAppend(xs, [f], props);
  }

  /** The key of a prefix is never longer than the whole key. */
  lemma KeyOfPrefixNoLonger(fields: seq<IdentityKeyProperty>, j: nat, props: IdentityKeyProperties)
    requires j <= |fields|
    ensures |KeyOf(fields[..j], props)| <= |KeyOf(fields, props)|
  {
    assert fields == fields[..j] + fields[j..];
    KeyOfAppend(fields[..j], fields[j..], props);
  }

  /** Leaving out the missing fields drops their separators, so the key never grows. */
  lemma {:induction false} PresentKeyNoLonger(fields: seq<IdentityKeyProperty>, props: IdentityKeyProperties)
    ensures |KeyOf(Present(fields, props), props)| <= |KeyOf(fields, props)|
  {
    if fields != [] {
      var init := fields[..|fields| - 1];
      var f := fields[|fields| - 1];
      var before := Present(init, props);
      assert fields == init + [f];
      PresentKeyNoLonger(init, props);
      KeyOfSnoc(init, f, props);
      if IsPresent(f, props) {
        KeyOfSnoc(before, f, props);
      }
    }
  }

  /** Putting one more field in front puts its rendering and (unless it stands alone) a separator in front. */
  lemma KeyOfCons(f: IdentityKeyProperty, ys: seq<IdentityKeyProperty>, props: IdentityKeyProperties)
    ensures KeyOf([f] + ys, props) ==
      if ys == [] then Rendering(f, props) else Rendering(f, props) + [Separator] + KeyOf(ys, props)
  {
    assert Renderings([f], props) == [Rendering(f, props)];
    KeyOfAppend([f], ys, props);
  }

  /** A non-empty list of present fields has a non-empty key. */
  lemma KeyOfNonEmpty(fields: seq<IdentityKeyProperty>, props: IdentityKeyProperties)
    requires fields != [] && AllPresent(fields, props)
    ensures |KeyOf(fields, props)| > 0
  {
    var parts := Renderings(fields, props);
    if |parts| == 1 {
      assert parts[0] == Rendering(fields[0], props);
    } else {
      assert Join(parts) == Join(parts[..|parts| - 1]) + [Separator] + parts[|parts| - 1];
    }
  }

  /** Along a list of present fields, longer prefixes have strictly longer keys. */
  lemma KeyOfPrefixGrows(fields: seq<IdentityKeyProperty>, a: nat, b: nat, props: IdentityKeyProperties)
    requires a < b <= |fields| && AllPresent(fields[..b], props)
    ensures |KeyOf(fields[..a], props)| < |KeyOf(fields[..b], props)|
  {
    assert fields[..b] == fields[..a] + fields[a..b];
    assert AllPresent(fields[a..b], props) by {
      forall i | 0 <= i < b - a ensures IsPresent(fields[a..b][i], props) {
        assert fields[a..b][i] == fields[..b][a + i];
      }
    }
    KeyOfAppend(fields[..a], fields[a..b], props);
    KeyOfNonEmpty(fields[a..b], props);
  }

  // ---------------------------------------------------------------------------------------
  // Facts about the present fields

  lemma {:induction false} PresentAppend(xs: seq<IdentityKeyProperty>, ys: seq<IdentityKeyProperty>, props: IdentityKeyProperties)
    ensures Present(xs + ys, props) == Present(xs, props) + Present(ys, props)
    decreases |ys|
  {
    if ys == [] {
      assert xs + ys == xs;
    } else {
      var ys' := ys[..|ys| - 1];
      assert (xs + ys)[..|xs + ys| - 1] == xs + ys';
      PresentAppend(xs, ys', props);
    }
  }

  /** The present fields of a list with one more field in front. */
  lemma PresentCons(f: IdentityKeyProperty, ys: seq<IdentityKeyProperty>, props: IdentityKeyProperties)
    ensures Present([f] + ys, props) == (if IsPresent(f, props) then [f] else []) + Present(ys, props)
  {
    PresentAppend([f], ys, props);
    assert [f][..0] == [];
  }

  lemma AllPresentSnoc(xs: seq<IdentityKeyProperty>, f: IdentityKeyProperty, props: IdentityKeyProperties)
    ensures AllPresent(xs + [f], props) <==> AllPresent(xs, props) && IsPresent(f, props)
  {
    var ys := xs + [f];
    assert ys[|xs|] == f;
    assert forall i :: 0 <= i < |xs| ==> ys[i] == xs[i];
  }

  /** When every field has a value, all of them are present. */
  lemma {:induction false} PresentOfAllPresent(fields: seq<IdentityKeyProperty>, props: IdentityKeyProperties)
    requires AllPresent(fields, props)
    ensures Present(fields, props) == fields
  {
    if fields != [] {
      var init := fields[..|fields| - 1];
      assert AllPresent(init, props) by {
        forall i | 0 <= i < |init| ensures IsPresent(init[i], props) {
          assert init[i] == fields[i];
        }
      }
      PresentOfAllPresent(init, props);
    }
  }

  /** No field is present exactly when none of the required fields has a value. */
  lemma {:induction false} PresentEmptyIff(fields: seq<IdentityKeyProperty>, props: IdentityKeyProperties)
    ensures Present(fields, props) == [] <==> forall i :: 0 <= i < |fields| ==> !IsPresent(fields[i], props)
  {
    if fields != [] {
      var init := fields[..|fields| - 1];
      PresentEmptyIff(init, props);
      assert forall i :: 0 <= i < |init| ==> init[i] == fields[i];
    }
  }

  /** The first missing field is at index k when everything before k has a value. */
  lemma FirstMissingIndexAt(fields: seq<IdentityKeyProperty>, k: nat, props: IdentityKeyProperties)
    requires k <= |fields| && AllPresent(fields[..k], props)
    requires k < |fields| ==> !IsPresent(fields[k], props)
    ensures FirstMissingIndex(fields, props) == k
  {
  }

  /**
   * Appending one field, when every field before i is present: the key of the first i fields
   * is empty exactly when i is 0, and a separator (unless it is empty) and field i's rendering
   * appended to it give the key of the first i + 1 fields.
   */
  lemma NextKey(reqs: seq<IdentityKeyProperty>, i: nat, props: IdentityKeyProperties)
    requires i < |reqs| && AllPresent(reqs[..i], props)
    ensures |KeyOf(reqs[..i], props)| > 0 <==> i > 0
    ensures KeyOf(reqs[..i + 1], props) ==
      (if i > 0 then KeyOf(reqs[..i], props) + [Separator] else "") + Rendering(reqs[i], props)
    ensures IsPresent(reqs[i], props) ==> AllPresent(reqs[..i + 1], props)
  {
    assert reqs[..i + 1] == reqs[..i] + [reqs[i]];
    KeyOfSnoc(reqs[..i], reqs[i], props);
    AllPresentSnoc(reqs[..i], reqs[i], props);
    if i > 0 {
      KeyOfNonEmpty(reqs[..i], props);
    }
  }

  /** When every field is present, none is missing and the key of the whole prefix is the key. */
  lemma WholeKey(reqs: seq<IdentityKeyProperty>, props: IdentityKeyProperties)
    requires AllPresent(reqs[..|reqs|], props)
    ensures FirstMissingIndex(reqs, props) == |reqs|
    ensures KeyOf(reqs[..|reqs|], props) == KeyOf(reqs, props)
  {
    assert reqs[..|reqs|] == reqs;
    FirstMissingIndexAt(reqs, |reqs|, props);
  }

  /** Every field before the first missing one is present, so the first missing index is no smaller. */
  lemma FirstMissingIndexFrom(fields: seq<IdentityKeyProperty>, i: nat, props: IdentityKeyProperties)
    requires i <= |fields| && AllPresent(fields[..i], props)
    ensures i <= FirstMissingIndex(fields, props)
  {
  }

  /** A shorter prefix of a list of present fields is a list of present fields. */
  lemma AllPresentPrefix(fields: seq<IdentityKeyProperty>, a: nat, b: nat, props: IdentityKeyProperties)
    requires a <= b <= |fields| && AllPresent(fields[..b], props)
    ensures AllPresent(fields[..a], props)
  {
    forall i | 0 <= i < a ensures IsPresent(fields[..a][i], props) {
      assert fields[..a][i] == fields[..b][i];
    }
  }

  /** Along a list of present fields, key length never shrinks as the prefix grows. */
  lemma KeyOfPrefixMonotone(fields: seq<IdentityKeyProperty>, a: nat, b: nat, props: IdentityKeyProperties)
    requires a <= b <= |fields| && AllPresent(fields[..b], props)
    ensures |KeyOf(fields[..a], props)| <= |KeyOf(fields[..b], props)|
  {
    if a < b {
      KeyOfPrefixGrows(fields, a, b, props);
    }
  }
}
