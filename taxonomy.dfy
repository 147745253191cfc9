/**
 * The closed label sets of the review schemas: the sentiment labels and the
 * app components a review can be tagged with. The cumulative-analysis service
 * knows ten components; the single-review services know the first six. Neither
 * list has "Other", although the prompts offer it and the sample reviews use it.
 */
module Taxonomy {
  import opened Exceptions

  datatype Sentiment = Positive | Negative | Neutral

  /** The ten components of the cumulative-analysis service. */
  datatype AppComponent =
    | UiUx | Performance | Bugs | Features | PrivacySecurity | CustomerSupport
    | Checkout | FeatureRequest | Mobile | Search

  /** The six components of the single-review services. */
  datatype SegmentComponent =
    | SegUiUx | SegPerformance | SegBugs | SegFeatures | SegPrivacySecurity | SegCustomerSupport

  function SentimentName(s: Sentiment): string
  {
    match s
    case Positive => "Positive"
    case Negative => "Negative"
    case Neutral => "Neutral"
  }

  function ComponentName(c: AppComponent): string
  {
    match c
    case UiUx => "UI/UX"
    case Performance => "Performance"
    case Bugs => "Bugs"
    case Features => "Features"
    case PrivacySecurity => "Privacy/Security"
    case CustomerSupport => "Customer Support"
    case Checkout => "Checkout"
    case FeatureRequest => "Feature_request"
    case Mobile => "Mobile"
    case Search => "Search"
  }

  function SegmentName(c: SegmentComponent): string
  {
    match c
    case SegUiUx => "UI/UX"
    case SegPerformance => "Performance"
    case SegBugs => "Bugs"
    case SegFeatures => "Features"
    case SegPrivacySecurity => "Privacy/Security"
    case SegCustomerSupport => "Customer Support"
  }

  /** All members in declaration order, as the `Literal[...]` lists them. */
  const AllSentiments: seq<Sentiment> := [Positive, Negative, Neutral]
  const AllComponents: seq<AppComponent> :=
    [UiUx, Performance, Bugs, Features, PrivacySecurity, CustomerSupport, Checkout, FeatureRequest, Mobile, Search]
  const AllSegments: seq<SegmentComponent> :=
    [SegUiUx, SegPerformance, SegBugs, SegFeatures, SegPrivacySecurity, SegCustomerSupport]

  /** Membership test of the `Literal` type: the label whose name is `s`, if any. */
  function ParseSentiment(s: string): (r: Option<Sentiment>)
    ensures r.Some? ==> SentimentName(r.value) == s
    ensures r.None? ==> forall x :: SentimentName(x) != s
  {
    if s == "Positive" then Some(Positive)
    else if s == "Negative" then Some(Negative)
    else if s == "Neutral" then Some(Neutral)
    else None
  }

  function ParseComponent(s: string): (r: Option<AppComponent>)
    ensures r.Some? ==> ComponentName(r.value) == s
    ensures r.None? ==> forall c :: ComponentName(c) != s
  {
    if s == "UI/UX" then Some(UiUx)
    else if s == "Performance" then Some(Performance)
    else if s == "Bugs" then Some(Bugs)
    else if s == "Features" then Some(Features)
    else if s == "Privacy/Security" then Some(PrivacySecurity)
    else if s == "Customer Support" then Some(CustomerSupport)
    else if s == "Checkout" then Some(Checkout)
    else if s == "Feature_request" then Some(FeatureRequest)
    else if s == "Mobile" then Some(Mobile)
    else if s == "Search" then Some(Search)
    else None
  }

  function ParseSegment(s: string): (r: Option<SegmentComponent>)
    ensures r.Some? ==> SegmentName(r.value) == s
    ensures r.None? ==> forall c :: SegmentName(c) != s
  {
    if s == "UI/UX" then Some(SegUiUx)
    else if s == "Performance" then Some(SegPerformance)
    else if s == "Bugs" then Some(SegBugs)
    else if s == "Features" then Some(SegFeatures)
    else if s == "Privacy/Security" then Some(SegPrivacySecurity)
    else if s == "Customer Support" then Some(SegCustomerSupport)
    else None
  }

  /** Names are distinct, so each name parses back to its own label. */
  lemma ParseRoundTrip(x: Sentiment, c: AppComponent, g: SegmentComponent)
    ensures ParseSentiment(SentimentName(x)) == Some(x)
    ensures ParseComponent(ComponentName(c)) == Some(c)
    ensures ParseSegment(SegmentName(g)) == Some(g)
  {
    match c
    case UiUx => case Performance => case Bugs => case Features => case PrivacySecurity =>
    case CustomerSupport => case Checkout => case FeatureRequest => case Mobile => case Search =>
  }

  /** Each list enumerates its type: every label exactly once. */
  lemma Enumerations()
    ensures |AllSentiments| == 3 && |AllComponents| == 10 && |AllSegments| == 6
    ensures forall x :: x in AllSentiments
    ensures forall c :: c in AllComponents
    ensures forall g :: g in AllSegments
    ensures forall i, j :: 0 <= i < j < |AllComponents| ==> AllComponents[i] != AllComponents[j]
    ensures forall i, j :: 0 <= i < j < |AllSegments| ==> AllSegments[i] != AllSegments[j]
  {
    forall x: Sentiment ensures x in AllSentiments {
      match x
      case Positive => assert AllSentiments[0] == x;
      case Negative => assert AllSentiments[1] == x;
      case Neutral => assert AllSentiments[2] == x;
    }
    forall c: AppComponent ensures c in AllComponents {
      match c
      case UiUx => assert AllComponents[0] == c;
      case Performance => assert AllComponents[1] == c;
      case Bugs => assert AllComponents[2] == c;
      case Features => assert AllComponents[3] == c;
      case PrivacySecurity => assert AllComponents[4] == c;
      case CustomerSupport => assert AllComponents[5] == c;
      case Checkout => assert AllComponents[6] == c;
      case FeatureRequest => assert AllComponents[7] == c;
      case Mobile => assert AllComponents[8] == c;
      case Search => assert AllComponents[9] == c;
    }
    forall g: SegmentComponent ensures g in AllSegments {
      match g
      case SegUiUx => assert AllSegments[0] == g;
      case SegPerformance => assert AllSegments[1] == g;
      case SegBugs => assert AllSegments[2] == g;
      case SegFeatures => assert AllSegments[3] == g;
      case SegPrivacySecurity => assert AllSegments[4] == g;
      case SegCustomerSupport => assert AllSegments[5] == g;
    }
  }

  /** The six single-review components, with their names, among the ten. */
  function Widen(g: SegmentComponent): (c: AppComponent)
    ensures ComponentName(c) == SegmentName(g)
  {
    match g
    case SegUiUx => UiUx
    case SegPerformance => Performance
    case SegBugs => Bugs
    case SegFeatures => Features
    case SegPrivacySecurity => PrivacySecurity
    case SegCustomerSupport => CustomerSupport
  }

  /** The four components only the cumulative service knows. */
  lemma NewComponents(c: AppComponent)
    ensures ParseSegment(ComponentName(c)).None? <==> c in {Checkout, FeatureRequest, Mobile, Search}
  {
    if c !in {Checkout, FeatureRequest, Mobile, Search} {
      var g := match c
        case UiUx => SegUiUx
        case Performance => SegPerformance
        case Bugs => SegBugs
        case Features => SegFeatures
        case PrivacySecurity => SegPrivacySecurity
        case _ => SegCustomerSupport;
      assert SegmentName(g) == ComponentName(c);
    }
  }

  /** "Other", which the prompts allow and the sample reviews use, is in neither list. */
  lemma OtherIsNoLabel()
    ensures ParseComponent("Other") == None
    ensures ParseSegment("Other") == None
  {
  }
}
