/**
 What the evidence validators accept (e2e/visual/003Evidence.ts), said of the values
 themselves: each validator takes exactly the documents described here.
 */
module Acceptance {
  import opened Options
  import opened Text
  import opened Digest
  import opened Evidence

  // ---------------------------------------------------------------- what is demanded of a value

  ghost predicate IsText(v: Json) {
    v.Words? && exists i :: 0 <= i < |v.text| && !JsWhitespace(v.text[i])
  }

  predicate IsSha1(v: Json) {
    v.Words? && HexDigits(v.text, 40)
  }

  predicate IsSha256(v: Json) {
    v.Words? && HexDigits(v.text, 64)
  }

  predicate Equals(x: real, n: int) {
    x == n as real
  }

  ghost predicate IsPositive(v: Json) {
    v.Number? && exists n: int :: n > 0 && Equals(v.number, n)
  }

  ghost predicate IsInside(v: Json) {
    IsText(v) && v.text[0] != '/' && !HasParent(v.text)
  }

  /** Text that mentions none of the shell's words, nor `back` standing alone. */
  ghost predicate IsForeignSelector(v: Json) {
    && IsText(v)
    && (forall w :: 0 <= w < |SHELL_WORDS| ==> !MentionsWord(v.text, SHELL_WORDS[w], false))
    && !MentionsWord(v.text, "back", true)
  }

  predicate IsOne(v: Json) {
    v == Constantly(One)
  }

  predicate IsZero(v: Json) {
    v == Constantly(Zero)
  }

  predicate IsTrue(v: Json) {
    v == Constantly(Yes)
  }

  predicate IsDeviation(v: Json) {
    v == Constantly(Deviation)
  }

  predicate IsUiStack(v: Json) {
    v == Constantly(PlatformUiStack)
  }

  predicate IsMonoStack(v: Json) {
    v == Constantly(PlatformMonoStack)
  }

  predicate IsGate(v: Json) {
    v.Words? && v.text in Choices(Gates)
  }

  predicate IsRoute(v: Json) {
    v.Words? && v.text in Choices(Routes)
  }

  predicate IsFactClass(v: Json) {
    v.Words? && v.text in Choices(FactClasses)
  }

  predicate IsSurface(v: Json) {
    v.Words? && v.text in Choices(Surfaces)
  }

  predicate IsTheme(v: Json) {
    v.Words? && v.text in Choices(Themes)
  }

  predicate IsSidebar(v: Json) {
    v.Words? && v.text in Choices(Sidebars)
  }

  predicate IsSession(v: Json) {
    v.Words? && v.text in Choices(Sessions)
  }

  predicate IsVerdict(v: Json) {
    v.Words? && v.text in Choices(Verdicts)
  }

  type Demand = Json -> bool

  /** The object has the key, with a value that meets the demand. */
  ghost predicate Has(v: Json, key: Key, demand: Demand) {
    v.Object? && Lookup(v.members, key).Some? && demand(Lookup(v.members, key).value)
  }

  /** If the object has the key, its value meets the demand. */
  ghost predicate MayHave(v: Json, key: Key, demand: Demand) {
    v.Object? && (Lookup(v.members, key).Some? ==> demand(Lookup(v.members, key).value))
  }

  ghost predicate IsBinding(v: Json) {
    && Has(v, ProductCommit, IsSha1)
    && Has(v, Hf2ManifestSha256, IsSha256)
    && Has(v, FixtureDigest, IsSha256)
    && Has(v, HarnessVersion, IsText)
    && MayHave(v, PackageArtifactSha256, IsSha256)
  }

  ghost predicate IsCollector(v: Json) {
    Has(v, Tool, IsText) && Has(v, Version, IsText) && Has(v, RunIdentity, IsText)
  }

  ghost predicate IsFontPolicy(v: Json) {
    && Has(v, DeviationId, IsDeviation) && Has(v, UiStack, IsUiStack) && Has(v, MonoStack, IsMonoStack)
    && Has(v, ComputedUiFamily, IsText) && Has(v, ComputedMonoFamily, IsText)
    && Has(v, RemoteFontRequests, IsZero) && Has(v, EnglishTargetVerified, IsTrue)
    && Has(v, UnicodeFallbackVerified, IsTrue)
  }

  ghost predicate IsViewport(v: Json) {
    Has(v, Width, IsPositive) && Has(v, Height, IsPositive)
  }

  /** A mask of foreign UI whose perimeter was checked and which was approved. */
  ghost predicate IsMask(v: Json) {
    && Has(v, MaskId, IsText) && Has(v, SelectorOrRect, IsForeignSelector) && Has(v, Surface, IsSurface)
    && Has(v, Reason, IsText) && Has(v, PerimeterChecked, IsTrue) && Has(v, Approved, IsTrue)
  }

  ghost predicate AreMasks(v: Json) {
    v.Array? && forall i :: 0 <= i < |v.items| ==> IsMask(v.items[i])
  }

  ghost predicate AreInside(v: Json) {
    v.Array? && forall i :: 0 <= i < |v.items| ==> IsInside(v.items[i])
  }

  ghost predicate IsClaim(v: Json) {
    && Has(v, ClaimId, IsText) && Has(v, FactClass, IsFactClass) && Has(v, PrimaryRoute, IsRoute)
    && Has(v, ResultKey, IsVerdict) && Has(v, ArtifactRefs, AreInside)
  }

  ghost predicate AreClaims(v: Json) {
    v.Array? && forall i :: 0 <= i < |v.items| ==> IsClaim(v.items[i])
  }

  ghost predicate IsArtifact(v: Json) {
    Has(v, PathKey, IsInside) && Has(v, Sha256, IsSha256)
  }

  ghost predicate AreArtifacts(v: Json) {
    v.Array? && forall i :: 0 <= i < |v.items| ==> IsArtifact(v.items[i])
  }

  /** The fields that name a collection and what it was made from. */
  ghost predicate IsHead(v: Json) {
    && Has(v, SchemaVersion, IsOne) && Has(v, CollectionId, IsText) && Has(v, GateId, IsGate)
    && Has(v, Binding, IsBinding)
  }

  ghost predicate IsMaskDocument(v: Json) {
    IsHead(v) && Has(v, Masks, AreMasks)
  }

  ghost predicate IsEnvironmentHead(v: Json) {
    && IsHead(v) && Has(v, Route, IsRoute) && Has(v, Os, IsText) && MayHave(v, Viewport, IsViewport)
    && Has(v, BrowserOrAppBuild, IsText)
  }

  ghost predicate IsEnvironmentDetail(v: Json) {
    && MayHave(v, FontPolicy, IsFontPolicy) && MayHave(v, Theme, IsTheme) && MayHave(v, Sidebar, IsSidebar)
    && MayHave(v, Session, IsSession) && Has(v, Fixture, IsText) && Has(v, CollectorKey, IsCollector)
  }

  /** Evidence from the browser comes with loaded fonts and the font policy. */
  ghost predicate IsEnvironment(v: Json) {
    && IsEnvironmentHead(v) && IsEnvironmentDetail(v)
    && (Lookup(v.members, Route) == Some(Words("semantic-browser")) ==>
          Has(v, FontReady, IsTrue) && Has(v, FontPolicy, IsFontPolicy))
  }

  ghost predicate IsReportHead(v: Json) {
    IsHead(v) && Has(v, Route, IsRoute) && Has(v, CollectorKey, IsCollector)
  }

  ghost predicate IsReportContents(v: Json) {
    && Has(v, EnvironmentPath, IsInside) && MayHave(v, MaskPath, IsInside) && Has(v, Claims, AreClaims)
    && Has(v, ArtifactDigests, AreArtifacts) && Has(v, CollectionDigest, IsSha256) && Has(v, ResultKey, IsVerdict)
  }

  /** The claims of `v` all have its route. */
  ghost predicate ClaimsUseTheRoute(v: Json) {
    forall claim :: claim in ItemsOf(Lookup(MembersOf(v), Claims)) ==>
      Lookup(MembersOf(claim), PrimaryRoute) == Lookup(MembersOf(v), Route)
  }

  /** Every claim was made by the collection's own route, and the digest is that of the artifacts listed. */
  ghost predicate IsReport(v: Json, digest: DigestOf) {
    && IsReportHead(v) && IsReportContents(v)
    && ClaimsUseTheRoute(v) && Lookup(v.members, CollectionDigest) == Some(Words(digest(Artifacts(v))))
  }

  // ---------------------------------------------------------------- what a schema accepts

  /** The schema accepts exactly the values that meet the demand. */
  ghost predicate Means(s: Schema, d: Demand) {
    forall v :: Read(s, v).Some? <==> d(v)
  }

  ghost predicate Meets(f: Field, v: Json, d: Demand) {
    match f.presence
    case Required => Has(v, f.key, d)
    case Optional => MayHave(v, f.key, d)
    case Flag => v.Object?
  }

  lemma FieldMeans(f: Field, v: Json, d: Demand)
    requires Means(f.schema, d) && v.Object?
    ensures ReadField(f, v.members).Some? <==> Meets(f, v, d)
  {
    var found := Lookup(v.members, f.key);
    if found.Some? {
      assert Read(f.schema, found.value).Some? <==> d(found.value);
    }
  }

  lemma {:induction false} FieldsReadIff(fields: seq<Field>, members: seq<Member>)
    ensures ReadFields(fields, members).Some? <==>
            forall i :: 0 <= i < |fields| ==> ReadField(fields[i], members).Some?
  {
    if fields != [] {
      FieldsReadIff(fields[1..], members);
      assert forall i :: 0 <= i < |fields| - 1 ==> fields[1..][i] == fields[i + 1];
    }
  }

  ghost predicate AllMean(fields: seq<Field>, demands: seq<Demand>) {
    |fields| == |demands| && forall i :: 0 <= i < |fields| ==> Means(fields[i].schema, demands[i])
  }

  ghost predicate AllMet(fields: seq<Field>, v: Json, demands: seq<Demand>)
    requires |fields| == |demands|
  {
    forall i :: 0 <= i < |fields| ==> Meets(fields[i], v, demands[i])
  }

  lemma RecordReadIff(fields: seq<Field>, v: Json, demands: seq<Demand>)
    requires AllMean(fields, demands)
    ensures Read(Record(fields), v).Some? <==> v.Object? && AllMet(fields, v, demands)
  {
    if v.Object? {
      FieldsReadIff(fields, v.members);
      forall i | 0 <= i < |fields|
        ensures ReadField(fields[i], v.members).Some? <==> Meets(fields[i], v, demands[i])
      {
        FieldMeans(fields[i], v, demands[i]);
      }
    }
  }

  /** Up to eight demands, one by one. */
  lemma MetOneByOne(fields: seq<Field>, v: Json, d: seq<Demand>)
    requires |fields| == |d| <= 8
    ensures
      AllMet(fields, v, d) <==>
      && (0 < |d| ==> Meets(fields[0], v, d[0])) && (1 < |d| ==> Meets(fields[1], v, d[1]))
      && (2 < |d| ==> Meets(fields[2], v, d[2])) && (3 < |d| ==> Meets(fields[3], v, d[3]))
      && (4 < |d| ==> Meets(fields[4], v, d[4])) && (5 < |d| ==> Meets(fields[5], v, d[5]))
      && (6 < |d| ==> Meets(fields[6], v, d[6])) && (7 < |d| ==> Meets(fields[7], v, d[7]))
  {
  }

  lemma FiveMet(fields: seq<Field>, v: Json, d: seq<Demand>)
    requires |fields| == |d| == 5
    ensures
      AllMet(fields, v, d) <==>
      && Meets(fields[0], v, d[0]) && Meets(fields[1], v, d[1]) && Meets(fields[2], v, d[2])
      && Meets(fields[3], v, d[3]) && Meets(fields[4], v, d[4])
  {
  }

  /** A record whose fields are listed in two parts. */
  lemma JoinedReadIff(a: seq<Field>, b: seq<Field>, v: Json, d: seq<Demand>, e: seq<Demand>)
    requires AllMean(a, d) && AllMean(b, e)
    ensures Read(Record(a + b), v).Some? <==> v.Object? && AllMet(a, v, d) && AllMet(b, v, e)
  {
    var fields, demands := a + b, d + e;
    RecordReadIff(fields, v, demands);
    if AllMet(fields, v, demands) {
      forall i | 0 <= i < |a|
        ensures Meets(a[i], v, d[i])
      {
        assert Meets(fields[i], v, demands[i]);
      }
      forall i | 0 <= i < |b|
        ensures Meets(b[i], v, e[i])
      {
        assert Meets(fields[|a| + i], v, demands[|a| + i]);
      }
    }
  }

  lemma {:induction false} ItemsReadIff(element: Schema, items: seq<Json>, d: Demand)
    requires Means(element, d)
    ensures ReadItems(element, items).Some? <==> forall i :: 0 <= i < |items| ==> d(items[i])
    decreases |items|
  {
    if items != [] {
      ItemsReadIff(element, items[1..], d);
      assert forall i :: 0 <= i < |items| - 1 ==> items[1..][i] == items[i + 1];
      assert Read(element, items[0]).Some? <==> d(items[0]);
    }
  }

  lemma TextMeans()
    ensures Means(AnyText, IsText)
  {
  }

  lemma HashesMean()
    ensures Means(Hash(40), IsSha1) && Means(Hash(64), IsSha256)
  {
  }

  lemma PositiveMeans()
    ensures Means(PositiveInteger, IsPositive)
  {
    forall v
      ensures Read(PositiveInteger, v).Some? <==> IsPositive(v)
    {
      if Read(PositiveInteger, v).Some? {
        var n := v.number.Floor;
        assert n > 0 && Equals(v.number, n);
      }
    }
  }

  lemma InsideMeans()
    ensures Means(InsidePath, IsInside)
  {
    forall v
      ensures Read(InsidePath, v).Some? <==> IsInside(v)
    {
      if v.Words? {
        StaysInsideIff(v.text);
      }
    }
  }

  lemma SelectorMeans()
    ensures Means(Selector, IsForeignSelector)
  {
    forall v
      ensures Read(Selector, v).Some? <==> IsForeignSelector(v)
    {
      if v.Words? {
        NamesShellIff(v.text);
      }
    }
  }

  lemma ConstantsMean()
    ensures Means(Exactly(One), IsOne) && Means(Exactly(Zero), IsZero) && Means(Exactly(Yes), IsTrue)
    ensures Means(Exactly(Deviation), IsDeviation) && Means(Exactly(PlatformUiStack), IsUiStack)
    ensures Means(Exactly(PlatformMonoStack), IsMonoStack)
  {
  }

  lemma WordsMean()
    ensures Means(OneOf(Gates), IsGate) && Means(OneOf(Routes), IsRoute) && Means(OneOf(FactClasses), IsFactClass)
    ensures Means(OneOf(Surfaces), IsSurface) && Means(OneOf(Themes), IsTheme) && Means(OneOf(Sidebars), IsSidebar)
    ensures Means(OneOf(Sessions), IsSession) && Means(OneOf(Verdicts), IsVerdict)
  {
  }

  ghost const BINDING_DEMANDS: seq<Demand> := [IsSha1, IsSha256, IsSha256, IsText, IsSha256]

  lemma BindingDemands()
    ensures AllMean(BINDING.fields, BINDING_DEMANDS)
  {
    TextMeans();
    HashesMean();
  }

  lemma BindingMet(v: Json)
    requires v.Object?
    ensures |BINDING.fields| == |BINDING_DEMANDS|
    ensures AllMet(BINDING.fields, v, BINDING_DEMANDS) <==> IsBinding(v)
  {
    FiveMet(BINDING.fields, v, BINDING_DEMANDS);
  }

  lemma BindingReadIff(v: Json)
    ensures Read(BINDING, v).Some? <==> IsBinding(v)
  {
    BindingDemands();
    RecordReadIff(BINDING.fields, v, BINDING_DEMANDS);
    if v.Object? {
      BindingMet(v);
    }
  }

  ghost const COLLECTOR_DEMANDS: seq<Demand> := [IsText, IsText, IsText]

  lemma CollectorDemands()
    ensures AllMean(COLLECTOR.fields, COLLECTOR_DEMANDS)
  {
    TextMeans();
  }

  lemma CollectorMet(v: Json)
    requires v.Object?
    ensures |COLLECTOR.fields| == |COLLECTOR_DEMANDS|
    ensures AllMet(COLLECTOR.fields, v, COLLECTOR_DEMANDS) <==> IsCollector(v)
  {
    MetOneByOne(COLLECTOR.fields, v, COLLECTOR_DEMANDS);
  }

  lemma CollectorReadIff(v: Json)
    ensures Read(COLLECTOR, v).Some? <==> IsCollector(v)
  {
    CollectorDemands();
    RecordReadIff(COLLECTOR.fields, v, COLLECTOR_DEMANDS);
    if v.Object? {
      CollectorMet(v);
    }
  }

  ghost const FONT_POLICY_DEMANDS: seq<Demand> :=
    [IsDeviation, IsUiStack, IsMonoStack, IsText, IsText, IsZero, IsTrue, IsTrue]

  lemma FontPolicyDemands()
    ensures AllMean(FONT_POLICY.fields, FONT_POLICY_DEMANDS)
  {
    TextMeans();
    ConstantsMean();
  }

  lemma FontPolicyMet(v: Json)
    requires v.Object?
    ensures |FONT_POLICY.fields| == |FONT_POLICY_DEMANDS|
    ensures AllMet(FONT_POLICY.fields, v, FONT_POLICY_DEMANDS) <==> IsFontPolicy(v)
  {
    MetOneByOne(FONT_POLICY.fields, v, FONT_POLICY_DEMANDS);
  }

  lemma FontPolicyReadIff(v: Json)
    ensures Read(FONT_POLICY, v).Some? <==> IsFontPolicy(v)
  {
    FontPolicyDemands();
    RecordReadIff(FONT_POLICY.fields, v, FONT_POLICY_DEMANDS);
    if v.Object? {
      FontPolicyMet(v);
    }
  }

  ghost const VIEWPORT_DEMANDS: seq<Demand> := [IsPositive, IsPositive]

  lemma ViewportDemands()
    ensures AllMean(VIEWPORT.fields, VIEWPORT_DEMANDS)
  {
    PositiveMeans();
  }

  lemma ViewportMet(v: Json)
    requires v.Object?
    ensures |VIEWPORT.fields| == |VIEWPORT_DEMANDS|
    ensures AllMet(VIEWPORT.fields, v, VIEWPORT_DEMANDS) <==> IsViewport(v)
  {
    MetOneByOne(VIEWPORT.fields, v, VIEWPORT_DEMANDS);
  }

  lemma ViewportReadIff(v: Json)
    ensures Read(VIEWPORT, v).Some? <==> IsViewport(v)
  {
    ViewportDemands();
    RecordReadIff(VIEWPORT.fields, v, VIEWPORT_DEMANDS);
    if v.Object? {
      ViewportMet(v);
    }
  }

  ghost const MASK_DEMANDS: seq<Demand> := [IsText, IsForeignSelector, IsSurface, IsText, IsTrue, IsTrue]

  lemma MaskDemands()
    ensures AllMean(MASK.fields, MASK_DEMANDS)
  {
    TextMeans();
    SelectorMeans();
    WordsMean();
    ConstantsMean();
  }

  lemma MaskMet(v: Json)
    requires v.Object?
    ensures |MASK.fields| == |MASK_DEMANDS|
    ensures AllMet(MASK.fields, v, MASK_DEMANDS) <==> IsMask(v)
  {
    MetOneByOne(MASK.fields, v, MASK_DEMANDS);
  }

  lemma MaskReadIff(v: Json)
    ensures Read(MASK, v).Some? <==> IsMask(v)
  {
    MaskDemands();
    RecordReadIff(MASK.fields, v, MASK_DEMANDS);
    if v.Object? {
      MaskMet(v);
    }
  }

  lemma {:induction false} ListMeans(element: Schema, d: Demand, list: Demand)
    requires Means(element, d)
    requires forall v :: list(v) <==> v.Array? && forall i :: 0 <= i < |v.items| ==> d(v.items[i])
    ensures Means(ListOf(element), list)
  {
    forall v
      ensures Read(ListOf(element), v).Some? <==> list(v)
    {
      if v.Array? {
        ItemsReadIff(element, v.items, d);
      }
    }
  }

  ghost const CLAIM_DEMANDS: seq<Demand> := [IsText, IsFactClass, IsRoute, IsVerdict, AreInside]

  lemma ClaimDemands()
    ensures AllMean(CLAIM_FIELDS, CLAIM_DEMANDS)
  {
    TextMeans();
    WordsMean();
    InsideMeans();
    ListMeans(InsidePath, IsInside, AreInside);
  }

  lemma ClaimRefs(v: Json)
    requires v.Object?
    ensures |CLAIM_FIELDS| == |CLAIM_DEMANDS| == 5
    ensures Meets(CLAIM_FIELDS[4], v, CLAIM_DEMANDS[4]) <==> Has(v, ArtifactRefs, AreInside)
  {
    assert CLAIM_FIELDS[4] == Field(ArtifactRefs, Required, ListOf(InsidePath));
    assert CLAIM_DEMANDS[4] == AreInside;
  }

  lemma ClaimWords(v: Json)
    requires v.Object?
    ensures |CLAIM_FIELDS| == |CLAIM_DEMANDS| == 5
    ensures Meets(CLAIM_FIELDS[0], v, CLAIM_DEMANDS[0]) <==> Has(v, ClaimId, IsText)
    ensures Meets(CLAIM_FIELDS[1], v, CLAIM_DEMANDS[1]) <==> Has(v, FactClass, IsFactClass)
    ensures Meets(CLAIM_FIELDS[2], v, CLAIM_DEMANDS[2]) <==> Has(v, PrimaryRoute, IsRoute)
    ensures Meets(CLAIM_FIELDS[3], v, CLAIM_DEMANDS[3]) <==> Has(v, ResultKey, IsVerdict)
  {
  }

  lemma ClaimMet(v: Json)
    requires v.Object?
    ensures |CLAIM_FIELDS| == |CLAIM_DEMANDS|
    ensures AllMet(CLAIM_FIELDS, v, CLAIM_DEMANDS) <==> IsClaim(v)
  {
    ClaimWords(v);
    ClaimRefs(v);
    FiveMet(CLAIM_FIELDS, v, CLAIM_DEMANDS);
  }

  lemma ClaimReadIff(v: Json)
    ensures Read(Record(CLAIM_FIELDS), v).Some? <==> IsClaim(v)
  {
    ClaimDemands();
    RecordReadIff(CLAIM_FIELDS, v, CLAIM_DEMANDS);
    if v.Object? {
      ClaimMet(v);
    }
  }

  ghost const ARTIFACT_DEMANDS: seq<Demand> := [IsInside, IsSha256]

  lemma ArtifactDemands()
    ensures AllMean(ARTIFACT_FIELDS, ARTIFACT_DEMANDS)
  {
    InsideMeans();
    HashesMean();
  }

  lemma ArtifactMet(v: Json)
    requires v.Object?
    ensures |ARTIFACT_FIELDS| == |ARTIFACT_DEMANDS|
    ensures AllMet(ARTIFACT_FIELDS, v, ARTIFACT_DEMANDS) <==> IsArtifact(v)
  {
    MetOneByOne(ARTIFACT_FIELDS, v, ARTIFACT_DEMANDS);
  }

  lemma ArtifactReadIff(v: Json)
    ensures Read(Record(ARTIFACT_FIELDS), v).Some? <==> IsArtifact(v)
  {
    ArtifactDemands();
    RecordReadIff(ARTIFACT_FIELDS, v, ARTIFACT_DEMANDS);
    if v.Object? {
      ArtifactMet(v);
    }
  }

  // ---------------------------------------------------------------- whole documents

  lemma PartsMean()
    ensures Means(BINDING, IsBinding) && Means(COLLECTOR, IsCollector) && Means(VIEWPORT, IsViewport)
    ensures Means(FONT_POLICY, IsFontPolicy)
  {
    forall v
      ensures Read(BINDING, v).Some? <==> IsBinding(v)
    {
      BindingReadIff(v);
    }
    forall v
      ensures Read(COLLECTOR, v).Some? <==> IsCollector(v)
    {
      CollectorReadIff(v);
    }
    forall v
      ensures Read(VIEWPORT, v).Some? <==> IsViewport(v)
    {
      ViewportReadIff(v);
    }
    forall v
      ensures Read(FONT_POLICY, v).Some? <==> IsFontPolicy(v)
    {
      FontPolicyReadIff(v);
    }
  }

  lemma ListsMean()
    ensures Means(ListOf(MASK), AreMasks) && Means(ListOf(Record(CLAIM_FIELDS)), AreClaims)
    ensures Means(ListOf(Record(ARTIFACT_FIELDS)), AreArtifacts)
  {
    forall v
      ensures Read(MASK, v).Some? <==> IsMask(v)
    {
      MaskReadIff(v);
    }
    ListMeans(MASK, IsMask, AreMasks);
    forall v
      ensures Read(Record(CLAIM_FIELDS), v).Some? <==> IsClaim(v)
    {
      ClaimReadIff(v);
    }
    ListMeans(Record(CLAIM_FIELDS), IsClaim, AreClaims);
    forall v
      ensures Read(Record(ARTIFACT_FIELDS), v).Some? <==> IsArtifact(v)
    {
      ArtifactReadIff(v);
    }
    ListMeans(Record(ARTIFACT_FIELDS), IsArtifact, AreArtifacts);
  }

  ghost const MASK_DOCUMENT_DEMANDS: seq<Demand> := [IsOne, IsText, IsGate, IsBinding, AreMasks]

  lemma MaskDocumentDemands()
    ensures AllMean(MASK_FIELDS, MASK_DOCUMENT_DEMANDS)
  {
    TextMeans();
    ConstantsMean();
    WordsMean();
    PartsMean();
    ListsMean();
  }

  lemma MaskDocumentWords(v: Json)
    requires v.Object?
    ensures |MASK_FIELDS| == |MASK_DOCUMENT_DEMANDS| == 5
    ensures Meets(MASK_FIELDS[0], v, MASK_DOCUMENT_DEMANDS[0]) <==> Has(v, SchemaVersion, IsOne)
    ensures Meets(MASK_FIELDS[1], v, MASK_DOCUMENT_DEMANDS[1]) <==> Has(v, CollectionId, IsText)
    ensures Meets(MASK_FIELDS[2], v, MASK_DOCUMENT_DEMANDS[2]) <==> Has(v, GateId, IsGate)
  {
  }

  lemma MaskDocumentParts(v: Json)
    requires v.Object?
    ensures |MASK_FIELDS| == |MASK_DOCUMENT_DEMANDS| == 5
    ensures Meets(MASK_FIELDS[3], v, MASK_DOCUMENT_DEMANDS[3]) <==> Has(v, Binding, IsBinding)
    ensures Meets(MASK_FIELDS[4], v, MASK_DOCUMENT_DEMANDS[4]) <==> Has(v, Masks, AreMasks)
  {
    assert MASK_FIELDS[3] == Field(Binding, Required, BINDING);
    assert MASK_FIELDS[4] == Field(Masks, Required, ListOf(MASK));
    assert MASK_DOCUMENT_DEMANDS[3] == IsBinding && MASK_DOCUMENT_DEMANDS[4] == AreMasks;
  }

  lemma MaskDocumentMet(v: Json)
    requires v.Object?
    ensures |MASK_FIELDS| == |MASK_DOCUMENT_DEMANDS|
    ensures AllMet(MASK_FIELDS, v, MASK_DOCUMENT_DEMANDS) <==> IsMaskDocument(v)
  {
    MaskDocumentWords(v);
    MaskDocumentParts(v);
    FiveMet(MASK_FIELDS, v, MASK_DOCUMENT_DEMANDS);
  }

  ghost const ENVIRONMENT_HEAD_DEMANDS: seq<Demand> :=
    [IsOne, IsText, IsGate, IsRoute, IsBinding, IsText, IsViewport, IsText]

  lemma EnvironmentHeadDemands()
    ensures AllMean(ENVIRONMENT_HEADER, ENVIRONMENT_HEAD_DEMANDS)
  {
    TextMeans();
    ConstantsMean();
    WordsMean();
    PartsMean();
  }

  lemma EnvironmentHeadWords(v: Json)
    requires v.Object?
    ensures |ENVIRONMENT_HEADER| == |ENVIRONMENT_HEAD_DEMANDS| == 8
    ensures Meets(ENVIRONMENT_HEADER[0], v, ENVIRONMENT_HEAD_DEMANDS[0]) <==> Has(v, SchemaVersion, IsOne)
    ensures Meets(ENVIRONMENT_HEADER[1], v, ENVIRONMENT_HEAD_DEMANDS[1]) <==> Has(v, CollectionId, IsText)
    ensures Meets(ENVIRONMENT_HEADER[2], v, ENVIRONMENT_HEAD_DEMANDS[2]) <==> Has(v, GateId, IsGate)
    ensures Meets(ENVIRONMENT_HEADER[3], v, ENVIRONMENT_HEAD_DEMANDS[3]) <==> Has(v, Route, IsRoute)
    ensures Meets(ENVIRONMENT_HEADER[5], v, ENVIRONMENT_HEAD_DEMANDS[5]) <==> Has(v, Os, IsText)
    ensures Meets(ENVIRONMENT_HEADER[7], v, ENVIRONMENT_HEAD_DEMANDS[7]) <==> Has(v, BrowserOrAppBuild, IsText)
  {
  }

  lemma EnvironmentHeadParts(v: Json)
    requires v.Object?
    ensures |ENVIRONMENT_HEADER| == |ENVIRONMENT_HEAD_DEMANDS| == 8
    ensures Meets(ENVIRONMENT_HEADER[4], v, ENVIRONMENT_HEAD_DEMANDS[4]) <==> Has(v, Binding, IsBinding)
    ensures Meets(ENVIRONMENT_HEADER[6], v, ENVIRONMENT_HEAD_DEMANDS[6]) <==> MayHave(v, Viewport, IsViewport)
  {
    assert ENVIRONMENT_HEADER[4].key == Binding && ENVIRONMENT_HEADER[4].presence == Required
      && ENVIRONMENT_HEAD_DEMANDS[4] == IsBinding;
    assert ENVIRONMENT_HEADER[6].key == Viewport && ENVIRONMENT_HEADER[6].presence == Optional
      && ENVIRONMENT_HEAD_DEMANDS[6] == IsViewport;
  }

  lemma EnvironmentHeadMet(v: Json)
    requires v.Object?
    ensures |ENVIRONMENT_HEADER| == |ENVIRONMENT_HEAD_DEMANDS|
    ensures AllMet(ENVIRONMENT_HEADER, v, ENVIRONMENT_HEAD_DEMANDS) <==> IsEnvironmentHead(v)
  {
    EnvironmentHeadWords(v);
    EnvironmentHeadParts(v);
    MetOneByOne(ENVIRONMENT_HEADER, v, ENVIRONMENT_HEAD_DEMANDS);
  }

  ghost const ENVIRONMENT_DETAIL_DEMANDS: seq<Demand> :=
    [IsTrue, IsFontPolicy, IsTheme, IsSidebar, IsSession, IsText, IsCollector]

  lemma EnvironmentDetailDemands()
    ensures AllMean(ENVIRONMENT_DETAILS, ENVIRONMENT_DETAIL_DEMANDS)
  {
    TextMeans();
    ConstantsMean();
    WordsMean();
    PartsMean();
  }

  lemma EnvironmentDetailWords(v: Json)
    requires v.Object?
    ensures |ENVIRONMENT_DETAILS| == |ENVIRONMENT_DETAIL_DEMANDS| == 7
    ensures Meets(ENVIRONMENT_DETAILS[0], v, ENVIRONMENT_DETAIL_DEMANDS[0])
    ensures Meets(ENVIRONMENT_DETAILS[2], v, ENVIRONMENT_DETAIL_DEMANDS[2]) <==> MayHave(v, Theme, IsTheme)
    ensures Meets(ENVIRONMENT_DETAILS[3], v, ENVIRONMENT_DETAIL_DEMANDS[3]) <==> MayHave(v, Sidebar, IsSidebar)
    ensures Meets(ENVIRONMENT_DETAILS[4], v, ENVIRONMENT_DETAIL_DEMANDS[4]) <==> MayHave(v, Session, IsSession)
    ensures Meets(ENVIRONMENT_DETAILS[5], v, ENVIRONMENT_DETAIL_DEMANDS[5]) <==> Has(v, Fixture, IsText)
  {
  }

  lemma EnvironmentDetailParts(v: Json)
    requires v.Object?
    ensures |ENVIRONMENT_DETAILS| == |ENVIRONMENT_DETAIL_DEMANDS| == 7
    ensures Meets(ENVIRONMENT_DETAILS[1], v, ENVIRONMENT_DETAIL_DEMANDS[1]) <==> MayHave(v, FontPolicy, IsFontPolicy)
    ensures Meets(ENVIRONMENT_DETAILS[6], v, ENVIRONMENT_DETAIL_DEMANDS[6]) <==> Has(v, CollectorKey, IsCollector)
  {
    assert ENVIRONMENT_DETAILS[1].key == FontPolicy && ENVIRONMENT_DETAILS[1].presence == Optional
      && ENVIRONMENT_DETAIL_DEMANDS[1] == IsFontPolicy;
    assert ENVIRONMENT_DETAILS[6].key == CollectorKey && ENVIRONMENT_DETAILS[6].presence == Required
      && ENVIRONMENT_DETAIL_DEMANDS[6] == IsCollector;
  }

  lemma EnvironmentDetailMet(v: Json)
    requires v.Object?
    ensures |ENVIRONMENT_DETAILS| == |ENVIRONMENT_DETAIL_DEMANDS|
    ensures AllMet(ENVIRONMENT_DETAILS, v, ENVIRONMENT_DETAIL_DEMANDS) <==> IsEnvironmentDetail(v)
  {
    EnvironmentDetailWords(v);
    EnvironmentDetailParts(v);
    MetOneByOne(ENVIRONMENT_DETAILS, v, ENVIRONMENT_DETAIL_DEMANDS);
  }

  ghost const REPORT_HEAD_DEMANDS: seq<Demand> := [IsOne, IsText, IsGate, IsRoute, IsBinding, IsCollector]

  lemma ReportHeadDemands()
    ensures AllMean(REPORT_HEADER, REPORT_HEAD_DEMANDS)
  {
    TextMeans();
    ConstantsMean();
    WordsMean();
    PartsMean();
  }

  lemma ReportHeadWords(v: Json)
    requires v.Object?
    ensures |REPORT_HEADER| == |REPORT_HEAD_DEMANDS| == 6
    ensures Meets(REPORT_HEADER[0], v, REPORT_HEAD_DEMANDS[0]) <==> Has(v, SchemaVersion, IsOne)
    ensures Meets(REPORT_HEADER[1], v, REPORT_HEAD_DEMANDS[1]) <==> Has(v, CollectionId, IsText)
    ensures Meets(REPORT_HEADER[2], v, REPORT_HEAD_DEMANDS[2]) <==> Has(v, GateId, IsGate)
    ensures Meets(REPORT_HEADER[3], v, REPORT_HEAD_DEMANDS[3]) <==> Has(v, Route, IsRoute)
  {
  }

  lemma ReportHeadParts(v: Json)
    requires v.Object?
    ensures |REPORT_HEADER| == |REPORT_HEAD_DEMANDS| == 6
    ensures Meets(REPORT_HEADER[4], v, REPORT_HEAD_DEMANDS[4]) <==> Has(v, Binding, IsBinding)
    ensures Meets(REPORT_HEADER[5], v, REPORT_HEAD_DEMANDS[5]) <==> Has(v, CollectorKey, IsCollector)
  {
    assert REPORT_HEADER[4].key == Binding && REPORT_HEADER[4].presence == Required
      && REPORT_HEAD_DEMANDS[4] == IsBinding;
    assert REPORT_HEADER[5].key == CollectorKey && REPORT_HEADER[5].presence == Required
      && REPORT_HEAD_DEMANDS[5] == IsCollector;
  }

  lemma ReportHeadMet(v: Json)
    requires v.Object?
    ensures |REPORT_HEADER| == |REPORT_HEAD_DEMANDS|
    ensures AllMet(REPORT_HEADER, v, REPORT_HEAD_DEMANDS) <==> IsReportHead(v)
  {
    ReportHeadWords(v);
    ReportHeadParts(v);
    MetOneByOne(REPORT_HEADER, v, REPORT_HEAD_DEMANDS);
  }

  ghost const REPORT_CONTENTS_DEMANDS: seq<Demand> := [IsInside, IsInside, AreClaims, AreArtifacts, IsSha256, IsVerdict]

  lemma ReportContentsDemands()
    ensures AllMean(REPORT_CONTENTS, REPORT_CONTENTS_DEMANDS)
  {
    InsideMeans();
    HashesMean();
    WordsMean();
    ListsMean();
  }

  lemma ReportContentsWords(v: Json)
    requires v.Object?
    ensures |REPORT_CONTENTS| == |REPORT_CONTENTS_DEMANDS| == 6
    ensures Meets(REPORT_CONTENTS[0], v, REPORT_CONTENTS_DEMANDS[0]) <==> Has(v, EnvironmentPath, IsInside)
    ensures Meets(REPORT_CONTENTS[1], v, REPORT_CONTENTS_DEMANDS[1]) <==> MayHave(v, MaskPath, IsInside)
    ensures Meets(REPORT_CONTENTS[4], v, REPORT_CONTENTS_DEMANDS[4]) <==> Has(v, CollectionDigest, IsSha256)
    ensures Meets(REPORT_CONTENTS[5], v, REPORT_CONTENTS_DEMANDS[5]) <==> Has(v, ResultKey, IsVerdict)
  {
  }

  lemma ReportContentsParts(v: Json)
    requires v.Object?
    ensures |REPORT_CONTENTS| == |REPORT_CONTENTS_DEMANDS| == 6
    ensures Meets(REPORT_CONTENTS[2], v, REPORT_CONTENTS_DEMANDS[2]) <==> Has(v, Claims, AreClaims)
    ensures Meets(REPORT_CONTENTS[3], v, REPORT_CONTENTS_DEMANDS[3]) <==> Has(v, ArtifactDigests, AreArtifacts)
  {
    assert REPORT_CONTENTS[2].key == Claims && REPORT_CONTENTS[2].presence == Required
      && REPORT_CONTENTS_DEMANDS[2] == AreClaims;
    assert REPORT_CONTENTS[3].key == ArtifactDigests && REPORT_CONTENTS[3].presence == Required
      && REPORT_CONTENTS_DEMANDS[3] == AreArtifacts;
  }

  lemma ReportContentsMet(v: Json)
    requires v.Object?
    ensures |REPORT_CONTENTS| == |REPORT_CONTENTS_DEMANDS|
    ensures AllMet(REPORT_CONTENTS, v, REPORT_CONTENTS_DEMANDS) <==> IsReportContents(v)
  {
    ReportContentsWords(v);
    ReportContentsParts(v);
    MetOneByOne(REPORT_CONTENTS, v, REPORT_CONTENTS_DEMANDS);
  }

  /** The places of the role keys, as a condition on the whole value. */
  ghost predicate NoProhibitedKey(v: Json) {
    forall path, i: nat :: !ProhibitedAt(v, path, i)
  }

  /** Which mask documents are accepted. */
  lemma MaskAcceptedIff(v: Json)
    ensures ValidateMask(v).Some? <==> NoProhibitedKey(v) && IsMaskDocument(v)
  {
    UnmixedIff(v);
    MaskDocumentDemands();
    RecordReadIff(MASK_FIELDS, v, MASK_DOCUMENT_DEMANDS);
    if v.Object? {
      MaskDocumentMet(v);
    }
  }

  lemma EnvironmentReadIff(v: Json)
    ensures Read(Record(ENVIRONMENT_FIELDS), v).Some? <==> IsEnvironmentHead(v) && IsEnvironmentDetail(v)
  {
    EnvironmentHeadDemands();
    EnvironmentDetailDemands();
    JoinedReadIff(ENVIRONMENT_HEADER, ENVIRONMENT_DETAILS, v, ENVIRONMENT_HEAD_DEMANDS, ENVIRONMENT_DETAIL_DEMANDS);
    if v.Object? {
      EnvironmentHeadMet(v);
      EnvironmentDetailMet(v);
    }
  }

  /** Which environment documents are accepted. */
  lemma EnvironmentAcceptedIff(v: Json)
    ensures ValidateEnvironment(v).Some? <==> NoProhibitedKey(v) && IsEnvironment(v)
  {
    UnmixedIff(v);
    EnvironmentReadIff(v);
  }

  lemma ReportReadIff(v: Json)
    ensures Read(Record(REPORT_FIELDS), v).Some? <==> IsReportHead(v) && IsReportContents(v)
  {
    ReportHeadDemands();
    ReportContentsDemands();
    JoinedReadIff(REPORT_HEADER, REPORT_CONTENTS, v, REPORT_HEAD_DEMANDS, REPORT_CONTENTS_DEMANDS);
    if v.Object? {
      ReportHeadMet(v);
      ReportContentsMet(v);
    }
  }

  /** A required field without parts is copied. */
  lemma CopiedField(fields: seq<Field>, v: Json, w: Json, k: nat)
    requires DistinctKeys(fields) && k < |fields| && Read(Record(fields), v) == Some(w)
    requires Plain(fields[k].schema) && fields[k].presence.Required?
    ensures Lookup(MembersOf(w), fields[k].key) == Lookup(MembersOf(v), fields[k].key)
  {
    LookupOutput(fields, v.members, k);
    LeafField(fields[k], v.members);
  }

  /** A required list is read item by item. */
  lemma ListField(fields: seq<Field>, v: Json, w: Json, k: nat, element: Schema)
    requires DistinctKeys(fields) && k < |fields| && Read(Record(fields), v) == Some(w)
    requires fields[k].presence.Required? && fields[k].schema == ListOf(element)
    ensures ReadItems(element, ItemsOf(Lookup(MembersOf(v), fields[k].key))) ==
              Some(ItemsOf(Lookup(MembersOf(w), fields[k].key)))
  {
    LookupOutput(fields, v.members, k);
    var value := Read(fields[k].schema, Lookup(v.members, fields[k].key).value).value;
    assert Lookup([Member(fields[k].key, value)], fields[k].key) == Some(value);
  }

  lemma {:induction false} AsManyItems(element: Schema, items: seq<Json>)
    requires ReadItems(element, items).Some?
    ensures |ReadItems(element, items).value| == |items|
    decreases |items|
  {
    if items != [] {
      AsManyItems(element, items[1..]);
    }
  }

  /** In a list of records, a required field without parts is copied in every item. */
  lemma CopiedInItems(fields: seq<Field>, a: seq<Json>, b: seq<Json>, k: nat)
    requires DistinctKeys(fields) && k < |fields| && ReadItems(Record(fields), a) == Some(b)
    requires Plain(fields[k].schema) && fields[k].presence.Required?
    ensures |a| == |b|
    ensures forall i :: 0 <= i < |a| ==>
              Lookup(MembersOf(b[i]), fields[k].key) == Lookup(MembersOf(a[i]), fields[k].key)
  {
    AsManyItems(Record(fields), a);
    forall i | 0 <= i < |a|
      ensures Lookup(MembersOf(b[i]), fields[k].key) == Lookup(MembersOf(a[i]), fields[k].key)
    {
      EachItemIsRead(Record(fields), a, i);
      CopiedField(fields, a[i], b[i], k);
    }
  }

  lemma ItemPlaces()
    ensures |CLAIM_FIELDS| == 5 && CLAIM_FIELDS[2] == Field(PrimaryRoute, Required, OneOf(Routes))
    ensures |ARTIFACT_FIELDS| == 2 && ARTIFACT_FIELDS[0] == Field(PathKey, Required, InsidePath)
    ensures ARTIFACT_FIELDS[1] == Field(Sha256, Required, Hash(64))
  {
  }

  lemma ClaimRoutesAreCopied(a: seq<Json>, b: seq<Json>)
    requires ReadItems(Record(CLAIM_FIELDS), a) == Some(b)
    ensures |a| == |b|
    ensures forall i :: 0 <= i < |a| ==> Lookup(MembersOf(b[i]), PrimaryRoute) == Lookup(MembersOf(a[i]), PrimaryRoute)
  {
    ClaimKeys();
    ItemPlaces();
    CopiedInItems(CLAIM_FIELDS, a, b, 2);
  }

  lemma ArtifactItemsAreCopied(a: seq<Json>, b: seq<Json>)
    requires ReadItems(Record(ARTIFACT_FIELDS), a) == Some(b)
    ensures |a| == |b| && forall i :: 0 <= i < |a| ==> ArtifactOf(b[i]) == ArtifactOf(a[i])
  {
    ArtifactKeys();
    ItemPlaces();
    CopiedInItems(ARTIFACT_FIELDS, a, b, 0);
    CopiedInItems(ARTIFACT_FIELDS, a, b, 1);
  }

  lemma ReportLookups(v: Json, w: Json)
    requires Read(Record(REPORT_FIELDS), v) == Some(w)
    ensures Lookup(MembersOf(w), Route) == Lookup(MembersOf(v), Route)
    ensures Lookup(MembersOf(w), CollectionDigest) == Lookup(MembersOf(v), CollectionDigest)
    ensures ReadItems(Record(CLAIM_FIELDS), ItemsOf(Lookup(MembersOf(v), Claims))) ==
              Some(ItemsOf(Lookup(MembersOf(w), Claims)))
    ensures ReadItems(Record(ARTIFACT_FIELDS), ItemsOf(Lookup(MembersOf(v), ArtifactDigests))) ==
              Some(ItemsOf(Lookup(MembersOf(w), ArtifactDigests)))
  {
    ReportKeys();
    ReportPlaces();
    CopiedField(REPORT_FIELDS, v, w, 3);
    CopiedField(REPORT_FIELDS, v, w, 10);
    ListField(REPORT_FIELDS, v, w, 8, Record(CLAIM_FIELDS));
    ListField(REPORT_FIELDS, v, w, 9, Record(ARTIFACT_FIELDS));
  }

  lemma ReportPlaces()
    ensures |REPORT_FIELDS| == 12
    ensures REPORT_FIELDS[3] == Field(Route, Required, OneOf(Routes))
    ensures REPORT_FIELDS[8] == Field(Claims, Required, ListOf(Record(CLAIM_FIELDS)))
    ensures REPORT_FIELDS[9] == Field(ArtifactDigests, Required, ListOf(Record(ARTIFACT_FIELDS)))
    ensures REPORT_FIELDS[10] == Field(CollectionDigest, Required, Hash(64))
  {
    assert REPORT_HEADER[3] == Field(Route, Required, OneOf(Routes));
    assert REPORT_CONTENTS[2] == Field(Claims, Required, ListOf(Record(CLAIM_FIELDS)));
    assert REPORT_CONTENTS[3] == Field(ArtifactDigests, Required, ListOf(Record(ARTIFACT_FIELDS)));
    assert REPORT_CONTENTS[4] == Field(CollectionDigest, Required, Hash(64));
  }

  lemma SameArtifacts(v: Json, w: Json)
    requires ReadItems(Record(ARTIFACT_FIELDS), ItemsOf(Lookup(MembersOf(v), ArtifactDigests))) ==
               Some(ItemsOf(Lookup(MembersOf(w), ArtifactDigests)))
    ensures Artifacts(w) == Artifacts(v)
  {
    ArtifactItemsAreCopied(ItemsOf(Lookup(MembersOf(v), ArtifactDigests)), ItemsOf(Lookup(MembersOf(w), ArtifactDigests)));
  }

  lemma OneRouteIff(v: Json, w: Json)
    requires Lookup(MembersOf(w), Route) == Lookup(MembersOf(v), Route)
    requires ReadItems(Record(CLAIM_FIELDS), ItemsOf(Lookup(MembersOf(v), Claims))) ==
               Some(ItemsOf(Lookup(MembersOf(w), Claims)))
    ensures OneRoute(w) <==> ClaimsUseTheRoute(v)
  {
    var a, b := ItemsOf(Lookup(MembersOf(v), Claims)), ItemsOf(Lookup(MembersOf(w), Claims));
    ClaimRoutesAreCopied(a, b);
    SameRoutes(a, b, Lookup(MembersOf(v), Route));
  }

  lemma SameRoutes(a: seq<Json>, b: seq<Json>, route: Option<Json>)
    requires |a| == |b|
    requires forall i :: 0 <= i < |a| ==> Lookup(MembersOf(b[i]), PrimaryRoute) == Lookup(MembersOf(a[i]), PrimaryRoute)
    ensures
      (forall i :: 0 <= i < |b| ==> Lookup(MembersOf(b[i]), PrimaryRoute) == route) <==>
      (forall claim :: claim in a ==> Lookup(MembersOf(claim), PrimaryRoute) == route)
  {
    assert forall i :: 0 <= i < |a| ==> a[i] in a;
  }

  /** Which reports are accepted. */
  lemma ReportAcceptedIff(v: Json, digest: DigestOf)
    ensures ValidateReport(v, digest).Some? <==> NoProhibitedKey(v) && IsReport(v, digest)
  {
    UnmixedIff(v);
    ReportReadIff(v);
    if Read(Record(REPORT_FIELDS), v).Some? {
      var w := Read(Record(REPORT_FIELDS), v).value;
      ReportLookups(v, w);
      SameArtifacts(v, w);
      OneRouteIff(v, w);
    }
  }

  /** What a validator builds meets the same demands as what it accepts. */
  lemma BuiltDocumentsMeetTheDemands(v: Json, w: Json, digest: DigestOf)
    ensures ValidateMask(v) == Some(w) ==> IsMaskDocument(w)
    ensures ValidateEnvironment(v) == Some(w) ==> IsEnvironment(w)
    ensures ValidateReport(v, digest) == Some(w) ==> IsReport(w, digest)
  {
    if ValidateMask(v) == Some(w) {
      MaskIsAProjection(v);
      MaskAcceptedIff(w);
    }
    if ValidateEnvironment(v) == Some(w) {
      EnvironmentIsAProjection(v);
      EnvironmentAcceptedIff(w);
    }
    if ValidateReport(v, digest) == Some(w) {
      ReportIsAProjection(v, digest);
      ReportAcceptedIff(w, digest);
    }
  }

  // ---------------------------------------------------------------- nothing is invented, and no named key is lost

  /** `w` is `v` without some of the members of its objects. */
  ghost predicate Prunes(w: Json, v: Json) {
    match w
    case Array(items) => v.Array? && |items| == |v.items| && forall i :: 0 <= i < |items| ==> Prunes(items[i], v.items[i])
    case Object(members) =>
      v.Object? && forall i :: 0 <= i < |members| ==>
        var found := Lookup(v.members, members[i].key);
        found.Some? && Prunes(members[i].value, found.value)
    case _ => w == v
  }

  lemma {:induction false} ReadPrunes(s: Schema, v: Json)
    requires Read(s, v).Some?
    ensures Prunes(Read(s, v).value, v)
    decreases s, 1, 0
  {
    match s
    case ListOf(element) => ItemsArePruned(element, v.items);
    case Record(fields) => FieldsArePruned(fields, v.members);
    case _ => LeafPrunes(v);
  }

  lemma {:induction false} LeafPrunes(v: Json)
    ensures !v.Array? && !v.Object? ==> Prunes(v, v)
  {
  }

  lemma {:induction false} ItemsArePruned(element: Schema, items: seq<Json>)
    requires ReadItems(element, items).Some?
    ensures
      var out := ReadItems(element, items).value;
      |out| == |items| && forall i :: 0 <= i < |out| ==> Prunes(out[i], items[i])
    decreases element, 2, |items|
  {
    if items != [] {
      ReadPrunes(element, items[0]);
      ItemsArePruned(element, items[1..]);
    }
  }

  lemma {:induction false} FieldsArePruned(fields: seq<Field>, members: seq<Member>)
    requires ReadFields(fields, members).Some?
    ensures
      forall m :: m in ReadFields(fields, members).value ==>
        Lookup(members, m.key).Some? && Prunes(m.value, Lookup(members, m.key).value)
    decreases fields, 0, 0
  {
    if fields != [] {
      FieldsArePruned(fields[1..], members);
      FieldIsPruned(fields[0], members);
    }
  }

  lemma {:induction false} FieldIsPruned(f: Field, members: seq<Member>)
    requires ReadField(f, members).Some?
    ensures
      forall m :: m in ReadField(f, members).value ==>
        Lookup(members, m.key).Some? && Prunes(m.value, Lookup(members, m.key).value)
    decreases f, 0, 0
  {
    if ReadField(f, members).value != [] {
      ReadPrunes(f.schema, Lookup(members, f.key).value);
    }
  }

  /** A named key that the input has is in the output, unless its field is a flag. */
  lemma NamedKeysAreKept(fields: seq<Field>, v: Json, i: nat)
    requires DistinctKeys(fields) && i < |fields| && Read(Record(fields), v).Some? && !fields[i].presence.Flag?
    ensures Lookup(MembersOf(Read(Record(fields), v).value), fields[i].key).Some? <==>
            Lookup(v.members, fields[i].key).Some?
  {
    LookupOutput(fields, v.members, i);
    var f := fields[i];
    if Lookup(v.members, f.key).Some? {
      var value := Read(f.schema, Lookup(v.members, f.key).value).value;
      assert Lookup([Member(f.key, value)], f.key) == Some(value);
    }
  }
}
