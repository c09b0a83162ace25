# Identity-key builder, modelled and verified in Dafny

The IdentityKeyBuilder library composes an *identity key* from a property bag. The bag holds
AccountNumber, SystemCode and ExternalId (nullable strings) and an optional ServiceDate. A caller
also passes an ordered list of the fields it requires. The result is either those fields'
renderings joined by `_` in list order, or an error message with no key. The date renders as
`yyyyMMdd`. The repository contains three versions of the same routine:

- **WithStringBuilder** appends into a growable buffer. It stops at the first missing field and
  checks the finished key against 250 characters.
- **WithSpan** first computes the key's length from the present fields and rejects a length over
  250. It then writes the fields into a buffer of exactly that length.
- **WithSpan_NoLengthCalc** writes into a fixed buffer of 1000 characters. Before each field it
  checks that the field still fits.

## Modules

- `Options`: the `Option` type that models nullable values.
- `Application`:
  - `IdentityKeyProperty`, the closed four-member field enum, with its underlying values 1 to 4.
  - `FromValue`, the integer-to-enum cast.
  - `IdentityKeyProperties`, the immutable bag, as a datatype.
  - `CalendarDate`, a year/month/day in the range of `DateTime`.
- `DateFormat`: the eight-digit `yyyyMMdd` rendering, and the proof that it can be read back.
- `KeySpec`: what the builders share.
  - The tagged result `Outcome` is a key, an error or a runtime fault.
  - Presence of a field (`IsPresent`) means a text that is neither null nor empty, or a date that is not null.
  - `Rendering` gives a field's text, or `""` when the field is missing.
  - `Join` joins parts with `_`, `KeyOf` is the key of a field list, and `Split` inverts `Join`. `Split`, `LastIndexOf`, `LastIndexOfLast` and `LastIndexOfAbsent` have no counterpart in the source: the library never splits a key. They exist to state `SplitJoin`, which says a key determines its parts.
  - It also holds the lemmas about all of these.
- `Buffers`: `Span.CopyTo` and a single indexed write, on `array<char>`.
- `WithStringBuilder`, `WithSpan` and `WithSpanNoLengthCalc`: one module per source file.
  - Each has a specification function `Expected(reqs, props)` and an imperative `BuildIdentityKey`.
  - `BuildIdentityKey` has the loops and early returns of the source, and is proved to return `Expected(Listed(requirements), props)`.
  - The two span versions write into an `array<char>` with a position counter.
  - Their loop bodies are separate methods, `WriteRequirement` and `WriteProperty`. Each has its own contract.
- `Versions`:
  - the exact conditions under which the builders agree or differ;
  - the inclusive limits;
  - the fault cases;
  - the outcomes the repository's tests expect.

## What the builders do, as modelled

- All three return `EmptyRequirements` for a null or empty requirement list.
- **WithStringBuilder** reports the first missing field in list order. It checks the length only on a complete key, and a length of exactly 250 passes.
- **WithSpan** measures only the present fields. So a list whose present fields exceed 250 characters gets `KeyTooLong(250)`, even when an earlier field is missing. When no required field is present, the computed length is -1 and `stackalloc` faults (`Crash(NegativeBufferSize(-1))`).
- **WithSpan_NoLengthCalc** writes a separator before every field except the first, without a bounds check. A prefix of exactly 1000 characters followed by another required field therefore writes index 1000 of the 1000-character buffer (`Crash(IndexOutOfRange(1000))`).
  - For a text field, the room check runs before the emptiness check.
  - An empty text can never trip the room check, because the position never exceeds 1000.
  - Within those limits, a key of exactly 1000 characters passes and one of 1001 fails.
- The three versions are not observably equivalent, and two inputs raise exceptions instead of returning an error:
  - `Versions.SpanDiffersFromBuilderIff` and `Versions.NoLengthCalcDiffersFromBuilderIff` each give the exact condition under which a version differs from WithStringBuilder;
  - the two fault cases above are exceptions the code throws.

## Model

| member | source | states |
|---|---|---|
| Application.FromValue | src/IdentityKeyBuilder/Application/IdentityKeyProperty.cs:9-15 | an integer cast to the enum names a member exactly when it is 1 to 4; that member has the value, and it is the only member with it, so 0 and every other value fall to the builders' `default` branches |
| DateFormat.Format | src/IdentityKeyBuilder/IdentityKeyBuilder_WithSpan.cs:54-55 | the `yyyyMMdd` rendering is exactly eight decimal digits, the eight characters the span versions reserve for a date |
| DateFormat.PaddedDecimalRoundTrip | src/IdentityKeyBuilder/IdentityKeyBuilder_WithStringBuilder.cs:43 | zero padding to a width loses nothing for a number with at most that many digits |
| DateFormat.FormatRoundTrip | src/IdentityKeyBuilder/IdentityKeyBuilder_WithStringBuilder.cs:43 | reading the eight digits back gives the date, so distinct dates render distinctly |
| KeySpec.TextLength | src/IdentityKeyBuilder/IdentityKeyBuilder_WithSpan.cs:35 | `s?.Length ?? 0` is 0 exactly when the string is null or empty |
| KeySpec.Rendering | src/IdentityKeyBuilder/IdentityKeyBuilder_WithStringBuilder.cs:27-44 | a field renders non-empty exactly when it is present; a present text renders as itself, a present date as eight digits |
| KeySpec.Renderings | src/IdentityKeyBuilder/IdentityKeyBuilder_WithStringBuilder.cs:21-44 | one rendering per required field, in requirement order, duplicates included |
| KeySpec.Present | src/IdentityKeyBuilder/IdentityKeyBuilder_WithSpan.cs:78-97 | the fields the length computation counts are all present and are no more than the required ones |
| KeySpec.FirstMissingIndex | src/IdentityKeyBuilder/IdentityKeyBuilder_WithStringBuilder.cs:21-44 | every field before the returned index is present and the field at it (if any) is missing: the field whose error a loop in requirement order reports |
| KeySpec.JoinAppend | src/IdentityKeyBuilder/IdentityKeyBuilder_WithStringBuilder.cs:23 | joining two non-empty lists puts exactly one separator between their joins |
| KeySpec.JoinLength | src/IdentityKeyBuilder/IdentityKeyBuilder_WithSpan.cs:99-101 | n parts join to the sum of their lengths plus n - 1 separators |
| KeySpec.JoinEdges | src/IdentityKeyBuilder/IdentityKeyBuilder_WithSpan.cs:64-65 | a key starts with its first part and ends with its last: no leading and no trailing separator |
| KeySpec.SplitJoin | src/IdentityKeyBuilder/IdentityKeyBuilder_WithStringBuilder.cs:23 | splitting a key gives back its parts when no part contains `_` |
| KeySpec.KeyOfAppend | src/IdentityKeyBuilder/IdentityKeyBuilder_WithStringBuilder.cs:21-44 | the key of two lists laid end to end is their keys with one separator between (none when either is empty) |
| KeySpec.KeyOfSnoc | src/IdentityKeyBuilder/IdentityKeyBuilder_WithStringBuilder.cs:23-29 | appending a field appends a separator, unless it comes first, and then its rendering |
| KeySpec.KeyOfCons | src/IdentityKeyBuilder/IdentityKeyBuilder_WithSpan.cs:62-65 | putting a field in front puts its rendering and, unless it stands alone, a separator in front |
| KeySpec.KeyOfNonEmpty | src/IdentityKeyBuilder/IdentityKeyBuilder_WithStringBuilder.cs:23 | a non-empty list of present fields has a non-empty key |
| KeySpec.KeyOfPrefixGrows | src/IdentityKeyBuilder/IdentityKeyBuilder_WithSpan_NoLengthCalc.cs:29-65 | along present fields, a longer prefix has a strictly longer key |
| KeySpec.KeyOfPrefixMonotone | src/IdentityKeyBuilder/IdentityKeyBuilder_WithSpan_NoLengthCalc.cs:29-65 | along present fields, key length never shrinks as the prefix grows |
| KeySpec.KeyOfPrefixNoLonger | src/IdentityKeyBuilder/IdentityKeyBuilder_WithSpan_NoLengthCalc.cs:29-65 | the key of a prefix is never longer than the key of the list |
| KeySpec.PresentKeyNoLonger | src/IdentityKeyBuilder/IdentityKeyBuilder_WithSpan.cs:78-101 | leaving the missing fields out never lengthens the key |
| KeySpec.PresentAppend | src/IdentityKeyBuilder/IdentityKeyBuilder_WithSpan.cs:78-97 | the present fields of two lists laid end to end are the present fields of each, in order |
| KeySpec.PresentCons | src/IdentityKeyBuilder/IdentityKeyBuilder_WithSpan.cs:78-97 | a field in front is kept exactly when it is present |
| KeySpec.AllPresentSnoc | src/IdentityKeyBuilder/IdentityKeyBuilder_WithStringBuilder.cs:21-44 | a list with one more field is all present exactly when the list is and the field is |
| KeySpec.PresentOfAllPresent | src/IdentityKeyBuilder/IdentityKeyBuilder_WithSpan.cs:78-97 | when every field is present, the length computation counts all of them |
| KeySpec.PresentEmptyIff | src/IdentityKeyBuilder/IdentityKeyBuilder_WithSpan.cs:92-101 | no field is counted exactly when no required field has a value |
| KeySpec.FirstMissingIndexAt | src/IdentityKeyBuilder/IdentityKeyBuilder_WithStringBuilder.cs:28-42 | the first missing field is at k when everything before k is present and the field at k is not |
| KeySpec.FirstMissingIndexFrom | src/IdentityKeyBuilder/IdentityKeyBuilder_WithStringBuilder.cs:28-42 | when the first i fields are present, the first missing one comes at or after i |
| KeySpec.AllPresentPrefix | src/IdentityKeyBuilder/IdentityKeyBuilder_WithStringBuilder.cs:21-44 | a prefix of present fields is present |
| KeySpec.NextKey | src/IdentityKeyBuilder/IdentityKeyBuilder_WithStringBuilder.cs:23-44 | after i present fields the key is empty exactly when i is 0, and a separator (unless empty) and field i's rendering give the key of i + 1 fields |
| KeySpec.WholeKey | src/IdentityKeyBuilder/IdentityKeyBuilder_WithStringBuilder.cs:51 | when the loop passes every field, none is missing and what was built is the key |
| Buffers.CopyTo | src/IdentityKeyBuilder/IdentityKeyBuilder_WithSpan.cs:37 | copying into a buffer at a position leaves what was before it and the source after it |
| Buffers.Put | src/IdentityKeyBuilder/IdentityKeyBuilder_WithSpan.cs:65 | an indexed write appends one character after what was before it |
| WithStringBuilder.BuildIdentityKey | src/IdentityKeyBuilder/IdentityKeyBuilder_WithStringBuilder.cs:12-56 | empty list: error; else the first missing field in requirement order; else a key over 250 is too long; else the `_`-join of the renderings |
| WithSpan.CalculateIdentityKeyLength | src/IdentityKeyBuilder/IdentityKeyBuilder_WithSpan.cs:73-102 | the sum of (length + 1) over the present fields, minus one, is the length of the key of the present fields, or -1 when none is present |
| WithSpan.ContributionSnoc | src/IdentityKeyBuilder/IdentityKeyBuilder_WithSpan.cs:82-93 | each required field adds its length plus one separator when present (9 for a date), nothing when missing |
| WithSpan.BuildIdentityKey | src/IdentityKeyBuilder/IdentityKeyBuilder_WithSpan.cs:15-70 | empty list: error; a present-field length over 250: too long; no field present: the allocation faults; else the first missing field; else the buffer holds the `_`-join |
| WithSpan.WriteFields | src/IdentityKeyBuilder/IdentityKeyBuilder_WithSpan.cs:30-69 | writing into a buffer sized to the present fields' key reports the first missing field or fills the buffer with the key, without a write out of bounds |
| WithSpan.WrittenMeaning | src/IdentityKeyBuilder/IdentityKeyBuilder_WithSpan.cs:62-65 | after i present fields the buffer holds their key, followed by a separator exactly when a later field is present |
| WithSpan.WrittenStep | src/IdentityKeyBuilder/IdentityKeyBuilder_WithSpan.cs:62-65 | writing one more present field keeps that meaning and the remaining room equal to the rest of the key |
| WithSpan.WrittenAll | src/IdentityKeyBuilder/IdentityKeyBuilder_WithSpan.cs:69 | after every field the buffer is full and holds the key of all of them |
| WithSpan.WriteRoom | src/IdentityKeyBuilder/IdentityKeyBuilder_WithSpan.cs:37-55 | the next field always fits in what is left of the buffer |
| WithSpan.KeyStep | src/IdentityKeyBuilder/IdentityKeyBuilder_WithSpan.cs:62-65 | a present field extends the key by a separator (unless first) and its rendering, and shrinks what the later present fields still need by as much |
| WithSpan.WriteRequirement | src/IdentityKeyBuilder/IdentityKeyBuilder_WithSpan.cs:32-65 | one pass writes the field after what was written and a separator only while short of the buffer's end |
| WithSpan.WriteProperty | src/IdentityKeyBuilder/IdentityKeyBuilder_WithSpan.cs:32-60 | a present field's rendering is copied at the position; a missing one reports length 0 |
| WithSpanNoLengthCalc.BuildIdentityKey | src/IdentityKeyBuilder/IdentityKeyBuilder_WithSpan_NoLengthCalc.cs:14-69 | empty list: error; a separator after exactly 1000 characters faults; a present prefix over 1000: too long; else the first missing field; else the written prefix, which is the `_`-join |
| WithSpanNoLengthCalc.WriteRequirement | src/IdentityKeyBuilder/IdentityKeyBuilder_WithSpan_NoLengthCalc.cs:29-65 | one pass faults on a separator at index 1000, reports a missing or oversized field, or leaves separator and rendering after what was written |
| WithSpanNoLengthCalc.WriteProperty | src/IdentityKeyBuilder/IdentityKeyBuilder_WithSpan_NoLengthCalc.cs:31-63 | the switch reports a missing field, else a field that would pass index 1000, else copies the rendering |
| WithSpanNoLengthCalc.StepMeaning | src/IdentityKeyBuilder/IdentityKeyBuilder_WithSpan_NoLengthCalc.cs:26-66 | a failing pass is the result for the whole list; a writing pass keeps every field so far present and the key within 1000 |
| WithSpanNoLengthCalc.SeparatorOutside | src/IdentityKeyBuilder/IdentityKeyBuilder_WithSpan_NoLengthCalc.cs:29 | a 1000-character prefix with another field to come makes the list's result the index fault |
| WithSpanNoLengthCalc.NoRoom | src/IdentityKeyBuilder/IdentityKeyBuilder_WithSpan_NoLengthCalc.cs:33-57 | a present field that would end past index 1000 makes the list's result `KeyTooLong(1000)` |
| WithSpanNoLengthCalc.NoOverflowAround | src/IdentityKeyBuilder/IdentityKeyBuilder_WithSpan_NoLengthCalc.cs:29-65 | when the key jumps from under 1000 to over 1000 at one field, no prefix is exactly 1000 long |
| WithSpanNoLengthCalc.MissingAt | src/IdentityKeyBuilder/IdentityKeyBuilder_WithSpan_NoLengthCalc.cs:33-55 | a missing field reached below 1000 characters is the list's result |
| WithSpanNoLengthCalc.Finished | src/IdentityKeyBuilder/IdentityKeyBuilder_WithSpan_NoLengthCalc.cs:68 | a complete key within 1000 characters is returned |
| WithSpanNoLengthCalc.BelowLimitBefore | src/IdentityKeyBuilder/IdentityKeyBuilder_WithSpan_NoLengthCalc.cs:29-65 | below a prefix that fits in 1000 characters, every shorter prefix is under 1000 |
| Versions.SpanDiffersFromBuilderIff | src/IdentityKeyBuilder/IdentityKeyBuilder_WithSpan.cs:22-53 | WithSpan and WithStringBuilder differ exactly when a field is missing and either nothing is present or the present fields exceed 250 |
| Versions.NoLengthCalcDiffersFromBuilderIff | src/IdentityKeyBuilder/IdentityKeyBuilder_WithSpan_NoLengthCalc.cs:29-68 | WithSpan_NoLengthCalc and WithStringBuilder differ exactly when a complete key exceeds 250, or the fields before the first missing one already fill 1000 characters |
| Versions.NoLengthCalcOnCompleteKeys | src/IdentityKeyBuilder/IdentityKeyBuilder_WithSpan_NoLengthCalc.cs:65-68 | on a complete key within 250, WithSpan_NoLengthCalc returns it; it never reports the 250 limit |
| Versions.NoLengthCalcOnMissingField | src/IdentityKeyBuilder/IdentityKeyBuilder_WithSpan_NoLengthCalc.cs:29-36 | WithSpan_NoLengthCalc reports the first missing field exactly when the fields before it make fewer than 1000 characters |
| Versions.AllAgreeOnShortCompleteKeys | src/IdentityKeyBuilder/IdentityKeyBuilder_WithStringBuilder.cs:51-55 | all three versions return the same key for a complete list within 250 characters |
| Versions.SpanCrashIff | src/IdentityKeyBuilder/IdentityKeyBuilder_WithSpan.cs:26-28 | WithSpan faults, with length -1, exactly when none of the required fields has a value |
| Versions.SingleFieldLimits | src/IdentityKeyBuilder/IdentityKeyBuilder_WithSpan.cs:26 | one present field: the key is its rendering with no separator; limits are inclusive, 250 (WithSpan, WithStringBuilder) and 1000 (WithSpan_NoLengthCalc) |
| Versions.AllReportFirstMissing | src/IdentityKeyBuilder/IdentityKeyBuilder_WithStringBuilder.cs:28-42 | with a field missing, something present, and the whole list within 250, every version reports the first missing field |
| Versions.SampleDate | tests/IdentityKeyBuilderTests/IdentityKeyBuilder_WithSpanTests.cs:129-136 | 19 November 2019 renders as `20191119` |
| Versions.JoinFour | tests/IdentityKeyBuilderTests/IdentityKeyBuilder_WithSpanTests.cs:127-137 | four parts join with three separators |
| Versions.AllFieldsKey | tests/IdentityKeyBuilderTests/IdentityKeyBuilder_WithSpanTests.cs:127-137 | the sample bag's key for SystemCode, AccountNumber, ExternalId, ServiceDate is `SystemCode_AccountNumber_ExternalId_20191119` |
| Versions.IsValidWhenAllRequirementsPresent | tests/IdentityKeyBuilderTests/IdentityKeyBuilder_WithSpanTests.cs:127-137 | every version returns `SystemCode_AccountNumber_ExternalId_20191119` for that list, so the key follows the requirement order |
| Versions.ReturnsErrorWhenRequiredPropertyIsNullOrEmpty | tests/IdentityKeyBuilderTests/IdentityKeyBuilder_WithSpanTests.cs:103-124 | with all four fields required and any one null or empty, every version names that field |
| Versions.IsValidWhenIdentityKeyLengthIs250 | tests/IdentityKeyBuilderTests/IdentityKeyBuilder_WithSpanTests.cs:90-101 | a complete key of exactly 250 characters is returned by every version |
| Versions.ReturnsErrorWhenIdentityKeyLengthGreaterThan250 | tests/IdentityKeyBuilderTests/IdentityKeyBuilder_WithSpanTests.cs:38-49 | a 253-character key is too long for WithSpan and WithStringBuilder and returned by WithSpan_NoLengthCalc |
| Versions.ReturnsErrorWhenFieldLengthIs251 | tests/IdentityKeyBuilderTests/IdentityKeyBuilder_WithSpanTests.cs:51-88 | a single text field of 251 characters is too long |
| Versions.ReturnsErrorWhenNoRequirements | tests/IdentityKeyBuilderTests/IdentityKeyBuilder_WithSpanTests.cs:15-36 | a null or empty requirement list is an error for every version, whatever the bag holds |
| Versions.IsValidWithThreeFields | tests/IdentityKeyBuilderTests/IdentityKeyBuilder_WithSpanTests.cs:139-189 | any three fields of the sample bag, in any order, are joined by every version in that order |
| Versions.IsValidWithoutAccountNumber | tests/IdentityKeyBuilderTests/IdentityKeyBuilder_WithSpanTests.cs:139-150 | SystemCode, ExternalId, ServiceDate give `SystemCode_ExternalId_20191119` in every version |
| Versions.IsValidWithoutSystemCode | tests/IdentityKeyBuilderTests/IdentityKeyBuilder_WithSpanTests.cs:152-163 | ServiceDate, AccountNumber, ExternalId give `20191119_AccountNumber_ExternalId` in every version |
| Versions.IsValidWithoutExternalId | tests/IdentityKeyBuilderTests/IdentityKeyBuilder_WithSpanTests.cs:165-176 | SystemCode, AccountNumber, ServiceDate give `SystemCode_AccountNumber_20191119` in every version |
| Versions.IsValidWithoutServiceDate | tests/IdentityKeyBuilderTests/IdentityKeyBuilder_WithSpanTests.cs:178-189 | SystemCode, AccountNumber, ExternalId give `SystemCode_AccountNumber_ExternalId` in every version |
| Versions.IsValidWhenIdentityKeyLengthIs1000 | tests/IdentityKeyBuilderTests/IdentityKeyBuilder_WithSpanTests_NoLengthCalcTests.cs:90-101 | a complete key of exactly 1000 characters is returned by WithSpan_NoLengthCalc |
| Versions.ReturnsErrorWhenIdentityKeyLengthGreaterThan1000 | tests/IdentityKeyBuilderTests/IdentityKeyBuilder_WithSpanTests_NoLengthCalcTests.cs:38-49 | a 1003-character key is too long for WithSpan_NoLengthCalc: the third field does not fit after 801 characters |
| Versions.ReturnsErrorWhenFieldLengthIs1001 | tests/IdentityKeyBuilderTests/IdentityKeyBuilder_WithSpanTests_NoLengthCalcTests.cs:51-88 | a single text field of 1001 characters is too long for WithSpan_NoLengthCalc |
| Versions.SpanReportsLengthBeforeMissingField | src/IdentityKeyBuilder/IdentityKeyBuilder_WithSpan.cs:22-36 | a null SystemCode before a 251-character AccountNumber: WithSpan reports the length, the other two the missing SystemCode |
| Versions.SpanFaultsWhenNoFieldPresent | src/IdentityKeyBuilder/IdentityKeyBuilder_WithSpan.cs:26-28 | a null date as the only requirement: WithSpan faults, the other two report the date |
| Versions.NoLengthCalcFaultsWhenBufferFull | src/IdentityKeyBuilder/IdentityKeyBuilder_WithSpan_NoLengthCalc.cs:29 | a 1000-character AccountNumber followed by SystemCode makes WithSpan_NoLengthCalc write index 1000, whatever SystemCode holds |

## Left out

- WithSpan.CalculateIdentityKeyLength: the accumulator is an unbounded integer. The source's `int` would wrap once the present fields pass 2^31 - 1 characters, so that overflow is not modelled.
- WithSpanNoLengthCalc.BuildIdentityKey: positions are unbounded integers too. They never exceed 1000, because at 1000 the separator write faults before the increment. So 32-bit arithmetic makes no difference there.
- KeySpec.TextLength, KeySpec.Rendering, KeySpec.JoinLength, WithSpan.BuildIdentityKey, WithStringBuilder.BuildIdentityKey and WithSpanNoLengthCalc.BuildIdentityKey: the model counts a text's length in Dafny `char`s, which are Unicode scalar values, and reads each one as the single UTF-16 code unit C#'s `string.Length` counts. That is exact for texts within the Basic Multilingual Plane. A character outside it counts as two in C# but as one `char` here, and a C# string holding a lone surrogate has no model at all. So for such texts the 250 and 1000 limits of all three versions are not modelled. For example, 126 copies of U+1F600 are 252 code units, so the source rejects them as too long, but the model counts 126 and returns a key.
- A null property bag is not modelled: the bag is a datatype and cannot be null. In the source, `BuildIdentityKey(null, reqs)` with a non-empty list throws a NullReferenceException in all three versions. The throw happens at the first requirement: in WithSpan's length computation, and in the other two versions' loops. With a null or empty list the result is the empty-list error, as modelled.
- Error message texts are not modelled. Errors are tagged values: `EmptyRequirements`, `MissingField(field)` (the field `nameof` names) and `KeyTooLong(limit)`.
- Exceptions are modelled as `Crash` outcomes:
  - `stackalloc` of a negative length becomes `Crash(NegativeBufferSize(length))`;
  - a span index past the end becomes `Crash(IndexOutOfRange(index))`.

  Their .NET exception types are not modelled.
- `DateTime` is modelled as a calendar date with years 1 to 9999. Time of day, calendars, cultures and `DateTime.Parse` in the tests are left out. `ToString("yyyyMMdd")` and `TryFormat` with that format are one function.
- Buffers.CopyTo: `Span.CopyTo` throws when the destination is too short. The model makes the room a precondition instead, and every call site proves it. Likewise `TryFormat`'s result and `charsWritten` are not modelled, because the room for eight characters is checked or proved before each call.
- `stackalloc`, `Span` and `StringBuilder` allocation is modelled as an `array<char>` or a `string`. Allocation counts, `AggressiveInlining` and the unused `_maxStackAllocationSize` (500) are left out.
- The `default` branches of the three switches are not modelled. They throw in the span versions and return an error in WithStringBuilder. With a closed datatype no list element can reach them. `Application.FromValue` shows which integers a cast would turn into a member.
- The requirement list is a `seq`, and a null list is `None`. The source only reads the list, so aliasing does not arise.
- The BenchmarkDotNet benchmarks are not modelled: they have no logic of their own. The two xUnit test files are used only as the expected outcomes stated in `Versions`. They hold the same suite for WithSpan and for WithSpan_NoLengthCalc, with 250 scaled to 1000 in the second. No test file covers WithStringBuilder, so its expected outcomes are stated from its code.
