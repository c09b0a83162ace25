/**
 * How the three builders relate: where they agree, exactly where they part ways, and the
 * outcomes the repository's tests expect, stated on the builders' result functions.
 */
module Versions {
  import opened Options
  import opened Application
  import opened KeySpec
  import DateFormat
  import WithSpan
  import WithStringBuilder
  import WithSpanNoLengthCalc

  /** When no field is missing, every field is present and the prefix up to the first missing one is the list. */
  lemma NoneMissing(reqs: seq<IdentityKeyProperty>, props: IdentityKeyProperties)
    requires FirstMissingIndex(reqs, props) == |reqs|
    ensures AllPresent(reqs, props) && Present(reqs, props) == reqs
    ensures reqs[..FirstMissingIndex(reqs, props)] == reqs
  {
    assert reqs[..|reqs|] == reqs;
    PresentOfAllPresent(reqs, props);
  }

  /**
   * WithSpan and WithStringBuilder give different results exactly when some field is missing
   * and WithSpan fails before it looks at the fields: none is present (the allocation of
   * length -1 faults), or the present ones alone make a key over 250 characters.
   */
  lemma SpanDiffersFromBuilderIff(reqs: seq<IdentityKeyProperty>, props: IdentityKeyProperties)
    requires |reqs| > 0
    ensures WithSpan.Expected(reqs, props) != WithStringBuilder.Expected(reqs, props) <==>
      FirstMissingIndex(reqs, props) < |reqs| &&
      (Present(reqs, props) == [] || |KeyOf(Present(reqs, props), props)| > 250)
  {
    if FirstMissingIndex(reqs, props) == |reqs| {
      NoneMissing(reqs, props);
    }
  }

  /**
   * WithSpan_NoLengthCalc and WithStringBuilder give different results exactly when the key
   * is complete and over 250 characters (WithStringBuilder's limit), or when the fields
   * before the first missing one already fill 1000 characters (the fixed buffer).
   */
  lemma NoLengthCalcDiffersFromBuilderIff(reqs: seq<IdentityKeyProperty>, props: IdentityKeyProperties)
    requires |reqs| > 0
    ensures var k := FirstMissingIndex(reqs, props);
      WithSpanNoLengthCalc.Expected(reqs, props) != WithStringBuilder.Expected(reqs, props) <==>
      (k == |reqs| && |KeyOf(reqs, props)| > 250) || (k < |reqs| && |KeyOf(reqs[..k], props)| >= 1000)
  {
    if FirstMissingIndex(reqs, props) == |reqs| {
      NoLengthCalcOnCompleteKeys(reqs, props);
    } else {
      NoLengthCalcOnMissingField(reqs, props);
    }
  }

  /** A complete key: WithSpan_NoLengthCalc returns it whenever WithStringBuilder does. */
  lemma NoLengthCalcOnCompleteKeys(reqs: seq<IdentityKeyProperty>, props: IdentityKeyProperties)
    requires |reqs| > 0 && FirstMissingIndex(reqs, props) == |reqs|
    ensures WithStringBuilder.Expected(reqs, props) ==
      if |KeyOf(reqs, props)| > 250 then Error(KeyTooLong(250)) else Key(KeyOf(reqs, props))
    ensures |KeyOf(reqs, props)| <= 250 ==> WithSpanNoLengthCalc.Expected(reqs, props) == Key(KeyOf(reqs, props))
    ensures WithSpanNoLengthCalc.Expected(reqs, props) != Error(KeyTooLong(250))
  {
    NoneMissing(reqs, props);
    if |KeyOf(reqs, props)| <= 250 {
      WithSpanNoLengthCalc.Finished(reqs, props);
    } else if WithSpanNoLengthCalc.SeparatorOverflows(reqs, |reqs|, props) {
      assert WithSpanNoLengthCalc.Expected(reqs, props).Crash?;
    } else {
      assert WithSpanNoLengthCalc.Expected(reqs, props).Key? ||
        WithSpanNoLengthCalc.Expected(reqs, props) == Error(KeyTooLong(1000));
    }
  }

  /**
   * Field k is the first missing one: WithSpan_NoLengthCalc reports it exactly when the
   * fields before it make a key shorter than 1000 characters.
   */
  lemma NoLengthCalcOnMissingField(reqs: seq<IdentityKeyProperty>, props: IdentityKeyProperties)
    requires FirstMissingIndex(reqs, props) < |reqs|
    ensures var k := FirstMissingIndex(reqs, props);
      WithSpanNoLengthCalc.Expected(reqs, props) == Error(MissingField(reqs[k])) <==>
      |KeyOf(reqs[..k], props)| < 1000
  {
    var k := FirstMissingIndex(reqs, props);
    if |KeyOf(reqs[..k], props)| < 1000 {
      WithSpanNoLengthCalc.MissingAt(reqs, k, props);
    } else if |KeyOf(reqs[..k], props)| == 1000 {
      assert reqs[..0] == [];
      assert k > 0;
      WithSpanNoLengthCalc.SeparatorOutside(reqs, k, props);
    }
  }

  /** All three builders return the same key for a complete list whose key fits in 250 characters. */
  lemma AllAgreeOnShortCompleteKeys(reqs: seq<IdentityKeyProperty>, props: IdentityKeyProperties)
    requires |reqs| > 0 && AllPresent(reqs, props) && |KeyOf(reqs, props)| <= 250
    ensures WithSpan.Expected(reqs, props) == Key(KeyOf(reqs, props))
    ensures WithStringBuilder.Expected(reqs, props) == Key(KeyOf(reqs, props))
    ensures WithSpanNoLengthCalc.Expected(reqs, props) == Key(KeyOf(reqs, props))
  {
    assert reqs[..|reqs|] == reqs;
    FirstMissingIndexAt(reqs, |reqs|, props);
    PresentOfAllPresent(reqs, props);
    WithSpanNoLengthCalc.Finished(reqs, props);
  }

  /** WithSpan faults exactly when none of the required fields has a value. */
  lemma SpanCrashIff(reqs: seq<IdentityKeyProperty>, props: IdentityKeyProperties)
    requires |reqs| > 0
    ensures WithSpan.Expected(reqs, props).Crash? <==> forall i :: 0 <= i < |reqs| ==> !IsPresent(reqs[i], props)
    ensures WithSpan.Expected(reqs, props).Crash? ==> WithSpan.Expected(reqs, props) == Crash(NegativeBufferSize(-1))
  {
    PresentEmptyIff(reqs, props);
  }

  /**
   * With a single present field the limits are inclusive: WithSpan and WithStringBuilder
   * accept a rendering of up to 250 characters, WithSpan_NoLengthCalc one of up to 1000.
   */
  lemma SingleFieldLimits(f: IdentityKeyProperty, props: IdentityKeyProperties)
    requires IsPresent(f, props)
    ensures var r := Rendering(f, props);
      && WithSpan.Expected([f], props) == (if |r| <= 250 then Key(r) else Error(KeyTooLong(250)))
      && WithStringBuilder.Expected([f], props) == (if |r| <= 250 then Key(r) else Error(KeyTooLong(250)))
      && WithSpanNoLengthCalc.Expected([f], props) == (if |r| <= 1000 then Key(r) else Error(KeyTooLong(1000)))
  {
    var reqs := [f];
    assert Renderings(reqs, props) == [Rendering(f, props)];
    FirstMissingIndexAt(reqs, 1, props);
    assert Present(reqs, props) == reqs;
    assert reqs[..1] == reqs;
    assert !WithSpanNoLengthCalc.SeparatorOverflows(reqs, 1, props);
  }

  // ---------------------------------------------------------------------------------------
  // The outcomes the repository's tests expect

  /** new string('0', n) */
  function Zeros(n: nat): (s: string)
    ensures |s| == n && forall i :: 0 <= i < n ==> s[i] == '0'
  {
    seq(n, _ => '0')
  }

  /** The bag the positive tests use, with the date 19 November 2019. */
  function SampleProps(): IdentityKeyProperties
  {
    IdentityKeyProperties(Some("AccountNumber"), Some("SystemCode"), Some("ExternalId"), Some(Date(2019, 11, 19)))
  }

  lemma SampleYear()
    ensures DateFormat.PaddedDecimal(2019, 4) == "2019"
  {
    assert DateFormat.PaddedDecimal(20, 2) == "20";
    assert DateFormat.PaddedDecimal(201, 3) == "201";
  }

  /** The sample date renders as "20191119". */
  lemma SampleDate()
    ensures DateFormat.Format(Date(2019, 11, 19)) == "20191119"
  {
    SampleYear();
    assert DateFormat.PaddedDecimal(11, 2) == "11";
    assert DateFormat.PaddedDecimal(19, 2) == "19";
  }

  lemma JoinThree(a: string, b: string, c: string)
    ensures Join([a, b, c]) == a + [Separator] + b + [Separator] + c
  {
    assert [a, b][..1] == [a];
    assert Join([a, b]) == a + [Separator] + b;
    assert [a, b, c][..2] == [a, b];
  }

  lemma JoinFour(a: string, b: string, c: string, d: string)
    ensures Join([a, b, c, d]) == a + [Separator] + b + [Separator] + c + [Separator] + d
  {
    assert [a, b, c, d][..3] == [a, b, c];
    JoinThree(a, b, c);
  }

  lemma AllFieldsText()
    ensures "SystemCode" + [Separator] + "AccountNumber" + [Separator] + "ExternalId" + [Separator] + "20191119"
      == "SystemCode_AccountNumber_ExternalId_20191119"
  {
  }

  /** The key SampleProps gives for SystemCode, AccountNumber, ExternalId, ServiceDate. */
  lemma AllFieldsKey()
    ensures KeyOf([SystemCode, AccountNumber, ExternalId, ServiceDate], SampleProps())
      == "SystemCode_AccountNumber_ExternalId_20191119"
  {
    var reqs := [SystemCode, AccountNumber, ExternalId, ServiceDate];
    SampleDate();
    assert Renderings(reqs, SampleProps()) == ["SystemCode", "AccountNumber", "ExternalId", "20191119"];
    JoinFour("SystemCode", "AccountNumber", "ExternalId", "20191119");
    AllFieldsText();
  }

  /** The key of three fields is their renderings and two separators. */
  lemma KeyOfThree(a: IdentityKeyProperty, b: IdentityKeyProperty, c: IdentityKeyProperty, props: IdentityKeyProperties)
    ensures KeyOf([a, b, c], props) == Rendering(a, props) + [Separator] + Rendering(b, props) + [Separator]
      + Rendering(c, props)
  {
    assert Renderings([a, b, c], props) == [Rendering(a, props), Rendering(b, props), Rendering(c, props)];
    JoinThree(Rendering(a, props), Rendering(b, props), Rendering(c, props));
  }

  /** The key of four fields is their renderings and three separators. */
  lemma KeyOfFour(a: IdentityKeyProperty, b: IdentityKeyProperty, c: IdentityKeyProperty, d: IdentityKeyProperty,
                  props: IdentityKeyProperties)
    ensures KeyOf([a, b, c, d], props) == Rendering(a, props) + [Separator] + Rendering(b, props) + [Separator]
      + Rendering(c, props) + [Separator] + Rendering(d, props)
  {
    assert Renderings([a, b, c, d], props) ==
      [Rendering(a, props), Rendering(b, props), Rendering(c, props), Rendering(d, props)];
    JoinFour(Rendering(a, props), Rendering(b, props), Rendering(c, props), Rendering(d, props));
  }

  /** All four fields, in the order SystemCode, AccountNumber, ExternalId, ServiceDate. */
  lemma IsValidWhenAllRequirementsPresent()
    ensures var reqs := [SystemCode, AccountNumber, ExternalId, ServiceDate];
      && WithSpan.Expected(reqs, SampleProps()) == Key("SystemCode_AccountNumber_ExternalId_20191119")
      && WithStringBuilder.Expected(reqs, SampleProps()) == Key("SystemCode_AccountNumber_ExternalId_20191119")
      && WithSpanNoLengthCalc.Expected(reqs, SampleProps()) == Key("SystemCode_AccountNumber_ExternalId_20191119")
  {
    var reqs := [SystemCode, AccountNumber, ExternalId, ServiceDate];
    AllFieldsKey();
    assert AllPresent(reqs, SampleProps());
    AllAgreeOnShortCompleteKeys(reqs, SampleProps());
  }

  /** The four fields SampleProps fills, with the one named left empty or null. */
  function WithoutField(missing: IdentityKeyProperty, empty: bool): IdentityKeyProperties
  {
    var blank: Option<string> := if empty then Some("") else None;
    IdentityKeyProperties(
      if missing == AccountNumber then blank else Some("AccountNumber"),
      if missing == SystemCode then blank else Some("SystemCode"),
      if missing == ExternalId then blank else Some("ExternalId"),
      if missing == ServiceDate then None else Some(Date(2019, 11, 22)))
  }

  /** Every field but the one left out is present, and none renders longer than 13 characters. */
  lemma WithoutFieldShort(missing: IdentityKeyProperty, empty: bool)
    ensures forall f :: IsPresent(f, WithoutField(missing, empty)) <==> f != missing
    ensures forall f :: |Rendering(f, WithoutField(missing, empty))| <= 13
  {
    forall f
      ensures IsPresent(f, WithoutField(missing, empty)) <==> f != missing
      ensures |Rendering(f, WithoutField(missing, empty))| <= 13
    {
    }
  }

  /**
   * Some field is missing, some is present, and the whole list's key (missing fields count as
   * empty) fits in 250 characters: every builder reports the first missing field.
   */
  lemma AllReportFirstMissing(reqs: seq<IdentityKeyProperty>, props: IdentityKeyProperties)
    requires FirstMissingIndex(reqs, props) < |reqs| && Present(reqs, props) != []
    requires |KeyOf(reqs, props)| <= 250
    ensures var missing := Error(MissingField(reqs[FirstMissingIndex(reqs, props)]));
      && WithSpan.Expected(reqs, props) == missing
      && WithStringBuilder.Expected(reqs, props) == missing
      && WithSpanNoLengthCalc.Expected(reqs, props) == missing
  {
    var k := FirstMissingIndex(reqs, props);
    PresentKeyNoLonger(reqs, props);
    KeyOfPrefixNoLonger(reqs, k, props);
    WithSpanNoLengthCalc.MissingAt(reqs, k, props);
  }

  /**
   * Requiring all four fields, with any one of them null (or, for a text, empty): every
   * builder reports that field.
   */
  lemma ReturnsErrorWhenRequiredPropertyIsNullOrEmpty(missing: IdentityKeyProperty, empty: bool)
    ensures var reqs := [AccountNumber, SystemCode, ExternalId, ServiceDate];
      var props := WithoutField(missing, empty);
      && WithSpan.Expected(reqs, props) == Error(MissingField(missing))
      && WithStringBuilder.Expected(reqs, props) == Error(MissingField(missing))
      && WithSpanNoLengthCalc.Expected(reqs, props) == Error(MissingField(missing))
  {
    var reqs := [AccountNumber, SystemCode, ExternalId, ServiceDate];
    var props := WithoutField(missing, empty);
    var k := missing.Value() - 1;
    assert reqs[k] == missing;
    WithoutFieldShort(missing, empty);
    assert AllPresent(reqs[..k], props);
    FirstMissingIndexAt(reqs, k, props);
    var other := if k == 0 then 1 else 0;
    assert IsPresent(reqs[other], props);
    PresentEmptyIff(reqs, props);
    KeyOfFour(AccountNumber, SystemCode, ExternalId, ServiceDate, props);
    AllReportFirstMissing(reqs, props);
  }

  /** 100 + 1 + 100 + 1 + 39 + 1 + 8: a complete key of exactly 250 characters is accepted by every builder. */
  lemma IsValidWhenIdentityKeyLengthIs250()
    ensures var reqs := [AccountNumber, SystemCode, ExternalId, ServiceDate];
      var props := IdentityKeyProperties(Some(Zeros(100)), Some(Zeros(100)), Some(Zeros(39)), Some(Date(2019, 10, 19)));
      && WithSpan.Expected(reqs, props).Key? && |WithSpan.Expected(reqs, props).key| == 250
      && WithStringBuilder.Expected(reqs, props).Key? && |WithStringBuilder.Expected(reqs, props).key| == 250
      && WithSpanNoLengthCalc.Expected(reqs, props).Key? && |WithSpanNoLengthCalc.Expected(reqs, props).key| == 250
  {
    var reqs := [AccountNumber, SystemCode, ExternalId, ServiceDate];
    var props := IdentityKeyProperties(Some(Zeros(100)), Some(Zeros(100)), Some(Zeros(39)), Some(Date(2019, 10, 19)));
    var date := DateFormat.Format(Date(2019, 10, 19));
    assert Renderings(reqs, props) == [Zeros(100), Zeros(100), Zeros(39), date];
    JoinFour(Zeros(100), Zeros(100), Zeros(39), date);
    assert |KeyOf(reqs, props)| == 250;
    AllAgreeOnShortCompleteKeys(reqs, props);
  }

  /**
   * 100 + 1 + 100 + 1 + 51 = 253 characters: WithSpan and WithStringBuilder reject the key,
   * while WithSpan_NoLengthCalc, whose limit is 1000, returns it.
   */
  lemma ReturnsErrorWhenIdentityKeyLengthGreaterThan250()
    ensures var reqs := [AccountNumber, SystemCode, ExternalId];
      var props := IdentityKeyProperties(Some(Zeros(100)), Some(Zeros(100)), Some(Zeros(51)), None);
      && WithSpan.Expected(reqs, props) == Error(KeyTooLong(250))
      && WithStringBuilder.Expected(reqs, props) == Error(KeyTooLong(250))
      && WithSpanNoLengthCalc.Expected(reqs, props).Key? && |WithSpanNoLengthCalc.Expected(reqs, props).key| == 253
  {
    var reqs := [AccountNumber, SystemCode, ExternalId];
    var props := IdentityKeyProperties(Some(Zeros(100)), Some(Zeros(100)), Some(Zeros(51)), None);
    assert Renderings(reqs, props) == [Zeros(100), Zeros(100), Zeros(51)];
    JoinThree(Zeros(100), Zeros(100), Zeros(51));
    assert |KeyOf(reqs, props)| == 253;
    assert AllPresent(reqs, props);
    assert reqs[..|reqs|] == reqs;
    FirstMissingIndexAt(reqs, |reqs|, props);
    PresentOfAllPresent(reqs, props);
    WithSpanNoLengthCalc.Finished(reqs, props);
  }

  /** The bag with only the text field f set, to s. */
  function OnlyText(f: IdentityKeyProperty, s: string): IdentityKeyProperties
    requires f.IsText()
  {
    IdentityKeyProperties(
      if f == AccountNumber then Some(s) else None,
      if f == SystemCode then Some(s) else None,
      if f == ExternalId then Some(s) else None,
      None)
  }

  /** A single text field of 251 characters is too long for WithSpan and WithStringBuilder. */
  lemma ReturnsErrorWhenFieldLengthIs251(f: IdentityKeyProperty)
    requires f.IsText()
    ensures WithSpan.Expected([f], OnlyText(f, Zeros(251))) == Error(KeyTooLong(250))
    ensures WithStringBuilder.Expected([f], OnlyText(f, Zeros(251))) == Error(KeyTooLong(250))
  {
    SingleFieldLimits(f, OnlyText(f, Zeros(251)));
  }

  /** A null or empty requirement list is an error for every builder, whatever the bag holds. */
  lemma ReturnsErrorWhenNoRequirements(requirements: Option<seq<IdentityKeyProperty>>, props: IdentityKeyProperties)
    requires requirements == None || requirements == Some([])
    ensures var reqs := Listed(requirements);
      && WithSpan.Expected(reqs, props) == Error(EmptyRequirements)
      && WithStringBuilder.Expected(reqs, props) == Error(EmptyRequirements)
      && WithSpanNoLengthCalc.Expected(reqs, props) == Error(EmptyRequirements)
  {
  }

  /** Every field of SampleProps is present and renders in at most 13 characters. */
  lemma SampleShort()
    ensures forall f :: IsPresent(f, SampleProps()) && |Rendering(f, SampleProps())| <= 13
  {
    forall f ensures IsPresent(f, SampleProps()) && |Rendering(f, SampleProps())| <= 13 {
    }
  }

  /** Any three fields of SampleProps, in any order: every builder joins their renderings. */
  lemma IsValidWithThreeFields(a: IdentityKeyProperty, b: IdentityKeyProperty, c: IdentityKeyProperty)
    ensures var key := Key(Rendering(a, SampleProps()) + [Separator] + Rendering(b, SampleProps()) + [Separator]
      + Rendering(c, SampleProps()));
      && WithSpan.Expected([a, b, c], SampleProps()) == key
      && WithStringBuilder.Expected([a, b, c], SampleProps()) == key
      && WithSpanNoLengthCalc.Expected([a, b, c], SampleProps()) == key
  {
    var reqs := [a, b, c];
    var props := SampleProps();
    KeyOfThree(a, b, c, props);
    SampleShort();
    assert AllPresent(reqs, props);
    AllAgreeOnShortCompleteKeys(reqs, props);
  }

  /** What each field of SampleProps renders as. */
  lemma SampleRenderings()
    ensures Rendering(AccountNumber, SampleProps()) == "AccountNumber"
    ensures Rendering(SystemCode, SampleProps()) == "SystemCode"
    ensures Rendering(ExternalId, SampleProps()) == "ExternalId"
    ensures Rendering(ServiceDate, SampleProps()) == "20191119"
  {
    SampleDate();
  }

  lemma WithoutAccountNumberText()
    ensures "SystemCode" + [Separator] + "ExternalId" + [Separator] + "20191119" == "SystemCode_ExternalId_20191119"
  {
  }

  lemma WithoutSystemCodeText()
    ensures "20191119" + [Separator] + "AccountNumber" + [Separator] + "ExternalId" == "20191119_AccountNumber_ExternalId"
  {
  }

  lemma WithoutExternalIdText()
    ensures "SystemCode" + [Separator] + "AccountNumber" + [Separator] + "20191119" == "SystemCode_AccountNumber_20191119"
  {
  }

  lemma WithoutServiceDateText()
    ensures "SystemCode" + [Separator] + "AccountNumber" + [Separator] + "ExternalId" == "SystemCode_AccountNumber_ExternalId"
  {
  }

  /** Without AccountNumber: "SystemCode_ExternalId_20191119". */
  lemma IsValidWithoutAccountNumber()
    ensures var reqs := [SystemCode, ExternalId, ServiceDate];
      && WithSpan.Expected(reqs, SampleProps()) == Key("SystemCode_ExternalId_20191119")
      && WithStringBuilder.Expected(reqs, SampleProps()) == Key("SystemCode_ExternalId_20191119")
      && WithSpanNoLengthCalc.Expected(reqs, SampleProps()) == Key("SystemCode_ExternalId_20191119")
  {
    IsValidWithThreeFields(SystemCode, ExternalId, ServiceDate);
    SampleRenderings();
    WithoutAccountNumberText();
  }

  /** Without SystemCode, date first: "20191119_AccountNumber_ExternalId". */
  lemma IsValidWithoutSystemCode()
    ensures var reqs := [ServiceDate, AccountNumber, ExternalId];
      && WithSpan.Expected(reqs, SampleProps()) == Key("20191119_AccountNumber_ExternalId")
      && WithStringBuilder.Expected(reqs, SampleProps()) == Key("20191119_AccountNumber_ExternalId")
      && WithSpanNoLengthCalc.Expected(reqs, SampleProps()) == Key("20191119_AccountNumber_ExternalId")
  {
    IsValidWithThreeFields(ServiceDate, AccountNumber, ExternalId);
    SampleRenderings();
    WithoutSystemCodeText();
  }

  /** Without ExternalId: "SystemCode_AccountNumber_20191119". */
  lemma IsValidWithoutExternalId()
    ensures var reqs := [SystemCode, AccountNumber, ServiceDate];
      && WithSpan.Expected(reqs, SampleProps()) == Key("SystemCode_AccountNumber_20191119")
      && WithStringBuilder.Expected(reqs, SampleProps()) == Key("SystemCode_AccountNumber_20191119")
      && WithSpanNoLengthCalc.Expected(reqs, SampleProps()) == Key("SystemCode_AccountNumber_20191119")
  {
    IsValidWithThreeFields(SystemCode, AccountNumber, ServiceDate);
    SampleRenderings();
    WithoutExternalIdText();
  }

  /** Without ServiceDate: "SystemCode_AccountNumber_ExternalId". */
  lemma IsValidWithoutServiceDate()
    ensures var reqs := [SystemCode, AccountNumber, ExternalId];
      && WithSpan.Expected(reqs, SampleProps()) == Key("SystemCode_AccountNumber_ExternalId")
      && WithStringBuilder.Expected(reqs, SampleProps()) == Key("SystemCode_AccountNumber_ExternalId")
      && WithSpanNoLengthCalc.Expected(reqs, SampleProps()) == Key("SystemCode_AccountNumber_ExternalId")
  {
    IsValidWithThreeFields(SystemCode, AccountNumber, ExternalId);
    SampleRenderings();
    WithoutServiceDateText();
  }

  // ---------------------------------------------------------------------------------------
  // The same tests scaled to WithSpan_NoLengthCalc's limit of 1000

  /** 400 + 1 + 400 + 1 + 189 + 1 + 8: a complete key of exactly 1000 characters is accepted. */
  lemma IsValidWhenIdentityKeyLengthIs1000()
    ensures var reqs := [AccountNumber, SystemCode, ExternalId, ServiceDate];
      var props := IdentityKeyProperties(Some(Zeros(400)), Some(Zeros(400)), Some(Zeros(189)), Some(Date(2019, 10, 19)));
      WithSpanNoLengthCalc.Expected(reqs, props).Key? && |WithSpanNoLengthCalc.Expected(reqs, props).key| == 1000
  {
    var reqs := [AccountNumber, SystemCode, ExternalId, ServiceDate];
    var props := IdentityKeyProperties(Some(Zeros(400)), Some(Zeros(400)), Some(Zeros(189)), Some(Date(2019, 10, 19)));
    KeyOfFour(AccountNumber, SystemCode, ExternalId, ServiceDate, props);
    assert |KeyOf(reqs, props)| == 1000;
    assert AllPresent(reqs, props);
    assert reqs[..|reqs|] == reqs;
    WithSpanNoLengthCalc.Finished(reqs, props);
  }

  /**
   * 400 + 1 + 400 + 1 + 201 = 1003 characters: after 801 characters the third field no
   * longer fits before index 1000.
   */
  lemma ReturnsErrorWhenIdentityKeyLengthGreaterThan1000()
    ensures var props := IdentityKeyProperties(Some(Zeros(400)), Some(Zeros(400)), Some(Zeros(201)), None);
      WithSpanNoLengthCalc.Expected([AccountNumber, SystemCode, ExternalId], props) == Error(KeyTooLong(1000))
  {
    var reqs := [AccountNumber, SystemCode, ExternalId];
    var props := IdentityKeyProperties(Some(Zeros(400)), Some(Zeros(400)), Some(Zeros(201)), None);
    assert reqs[..2] == [AccountNumber, SystemCode];
    assert Renderings(reqs[..2], props) == [Zeros(400), Zeros(400)];
    assert [Zeros(400), Zeros(400)][..1] == [Zeros(400)];
    assert |KeyOf(reqs[..2], props)| == 801;
    assert AllPresent(reqs[..2], props);
    WithSpanNoLengthCalc.NoRoom(reqs, 2, props);
  }

  /** A single text field of 1001 characters is too long for WithSpan_NoLengthCalc. */
  lemma ReturnsErrorWhenFieldLengthIs1001(f: IdentityKeyProperty)
    requires f.IsText()
    ensures WithSpanNoLengthCalc.Expected([f], OnlyText(f, Zeros(1001))) == Error(KeyTooLong(1000))
  {
    SingleFieldLimits(f, OnlyText(f, Zeros(1001)));
  }

  // ---------------------------------------------------------------------------------------
  // Where the builders part ways

  /**
   * A null SystemCode before an AccountNumber of 251 characters: WithSpan measures only the
   * present field and reports the length, the other two reach SystemCode first.
   */
  lemma SpanReportsLengthBeforeMissingField()
    ensures var reqs := [SystemCode, AccountNumber];
      var props := OnlyText(AccountNumber, Zeros(251));
      && WithSpan.Expected(reqs, props) == Error(KeyTooLong(250))
      && WithStringBuilder.Expected(reqs, props) == Error(MissingField(SystemCode))
      && WithSpanNoLengthCalc.Expected(reqs, props) == Error(MissingField(SystemCode))
  {
    var reqs := [SystemCode, AccountNumber];
    var props := OnlyText(AccountNumber, Zeros(251));
    FirstMissingIndexAt(reqs, 0, props);
    assert Present(reqs, props) == [AccountNumber] by {
      assert reqs[..1] == [SystemCode];
    }
    assert Renderings([AccountNumber], props) == [Zeros(251)];
    WithSpanNoLengthCalc.MissingAt(reqs, 0, props);
  }

  /**
   * Only a null ServiceDate required: WithSpan's length comes out as -1 and the buffer
   * allocation faults; the other two report the missing date.
   */
  lemma SpanFaultsWhenNoFieldPresent()
    ensures var props := IdentityKeyProperties(None, None, None, None);
      && WithSpan.Expected([ServiceDate], props) == Crash(NegativeBufferSize(-1))
      && WithStringBuilder.Expected([ServiceDate], props) == Error(MissingField(ServiceDate))
      && WithSpanNoLengthCalc.Expected([ServiceDate], props) == Error(MissingField(ServiceDate))
  {
    var props := IdentityKeyProperties(None, None, None, None);
    FirstMissingIndexAt([ServiceDate], 0, props);
    SpanCrashIff([ServiceDate], props);
    WithSpanNoLengthCalc.MissingAt([ServiceDate], 0, props);
  }

  /**
   * An AccountNumber of exactly 1000 characters followed by a SystemCode: WithSpan_NoLengthCalc
   * writes the separator at index 1000 of its 1000-character buffer, whatever the SystemCode.
   */
  lemma NoLengthCalcFaultsWhenBufferFull(systemCode: Option<string>)
    ensures var props := IdentityKeyProperties(Some(Zeros(1000)), systemCode, None, None);
      WithSpanNoLengthCalc.Expected([AccountNumber, SystemCode], props) == Crash(IndexOutOfRange(1000))
  {
    var reqs := [AccountNumber, SystemCode];
    var props := IdentityKeyProperties(Some(Zeros(1000)), systemCode, None, None);
    assert reqs[..1] == [AccountNumber];
    assert Renderings([AccountNumber], props) == [Zeros(1000)];
    WithSpanNoLengthCalc.SeparatorOutside(reqs, 1, props);
  }
}
