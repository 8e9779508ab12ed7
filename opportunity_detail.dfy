/**
  The detail hook `src/hooks/api/useOpportunityDetail.ts`: the record it
  builds for an opportunity id, and its loading state. Every field of the
  record is a fixed function of the id.
 */
module OpportunityDetail {
  import opened Wrappers
  import opened Text
  import DetailActions

  datatype OpportunityDetail = OpportunityDetail(
    id: string,
    title: string,
    description: string,
    image: string,
    location: string,
    date: string,
    spots: nat,
    featured: bool,
    category: string,
    requirements: seq<string>,
    skills: seq<string>,
    timeCommitment: string,
    contactPerson: string,
    contactEmail: string,
    address: string,
    status: DetailActions.OpportunityStatus,
    applicationDeadline: string)

  function Title(id: string): (r: string)
    ensures id !in {"1", "2", "3"} ==> r == "Volunteer Opportunity"
    ensures id == "1" ==> r == "Translation Services at Grand Mosque"
    ensures id == "2" ==> r == "Visitor Guidance in Prophet's Mosque"
    ensures id == "3" ==> r == "Elderly Assistance Program"
  {
    if id == "1" then "Translation Services at Grand Mosque"
    else if id == "2" then "Visitor Guidance in Prophet's Mosque"
    else if id == "3" then "Elderly Assistance Program"
    else "Volunteer Opportunity"
  }

  /** JavaScript's `%`: the remainder takes the sign of the dividend. */
  function JsRem(a: int, b: int): (r: int)
    requires b > 0
    ensures a >= 0 ==> r == a % b
    ensures -b < r < b
    ensures a < 0 ==> r <= 0
  {
    if a >= 0 then a % b else -((-a) % b)
  }

  /** `(parseInt(id) % 3) + 1`, `None` standing for `NaN`. */
  function ImageNumber(id: string): (r: Option<int>)
    ensures r.Some? <==> ParseInt(id).Some?
    ensures r.Some? ==> -1 <= r.value <= 3
    ensures r.Some? && ParseInt(id).value >= 0 ==> 1 <= r.value <= 3
  {
    match ParseInt(id)
    case None => None
    case Some(n) => Some(JsRem(n, 3) + 1)
  }

  /** The image path; a non-numeric id gives `NaN` in the name. */
  function ImagePath(id: string): string {
    "/images/opportunity" + (match ImageNumber(id) case None => "NaN" case Some(k) => IntToString(k)) + ".jpg"
  }

  /** For an id of decimal digits the image is the id modulo 3, plus one. */
  lemma ImageForNumericId(id: string)
    requires |id| > 0 && AllDigits(id)
    ensures ImageNumber(id) == Some(DigitsValue(id) % 3 + 1)
    ensures 1 <= ImageNumber(id).value <= 3
  {
    ParseIntDigits(id);
  }

  /** The paths of images 1 to 3. */
  lemma PathOfNumber(k: int)
    requires 1 <= k <= 3
    ensures "/images/opportunity" + IntToString(k) + ".jpg" in ["/images/opportunity1.jpg", "/images/opportunity2.jpg", "/images/opportunity3.jpg"]
  {
    assert IntToString(k) == [DigitChar(k)];
    var p := "/images/opportunity" + IntToString(k) + ".jpg";
    if k == 1 {
      assert p == "/images/opportunity1.jpg";
    } else if k == 2 {
      assert p == "/images/opportunity2.jpg";
    } else {
      assert p == "/images/opportunity3.jpg";
    }
  }

  /** A numeric id always names one of the three existing images. */
  lemma ImagePathForNumericId(id: string)
    requires |id| > 0 && AllDigits(id)
    ensures ImagePath(id) in ["/images/opportunity1.jpg", "/images/opportunity2.jpg", "/images/opportunity3.jpg"]
  {
    ImageForNumericId(id);
    var k := ImageNumber(id).value;
    PathOfNumber(k);
    assert ImagePath(id) == "/images/opportunity" + IntToString(k) + ".jpg";
  }

  /** The image numbers of consecutive ids cycle through 2, 3, 1. */
  lemma ImageCycles(n: nat)
    ensures ImageNumber(NatToString(n)) == Some(n % 3 + 1)
  {
    ParseIntNatToString(n);
  }

  function Location(id: string): (r: string)
    ensures r == "Makkah" <==> id in ["1", "3", "4"]
    ensures r == "Madinah" <==> id in ["2", "5"]
    ensures r == "Jeddah" <==> id !in ["1", "3", "4", "2", "5"]
  {
    if id in ["1", "3", "4"] then "Makkah" else if id in ["2", "5"] then "Madinah" else "Jeddah"
  }

  function Featured(id: string): (r: bool)
    ensures r <==> id == "1" || id == "3" || id == "5"
  {
    id in ["1", "3", "5"]
  }

  function Category(id: string): (r: string)
    ensures r == "Translation" <==> id == "1"
    ensures r == "Guidance" <==> id == "2"
    ensures r == "Assistance" <==> id == "3"
    ensures r == "Services" <==> id == "4" || id == "6"
    ensures r == "Education" <==> id !in ["1", "2", "3", "4", "6"]
  {
    if id in ["1"] then "Translation"
    else if id in ["2"] then "Guidance"
    else if id in ["3"] then "Assistance"
    else if id in ["4", "6"] then "Services"
    else "Education"
  }

  /** The texts every record shares. */
  const Description := "Help visitors by providing translation services at the Grand Mosque during Ramadan."
  const Requirements := [
    "Fluency in Arabic and at least one other language",
    "Previous experience in translation or interpretation is preferred",
    "Strong communication skills",
    "Ability to stand for extended periods",
    "Minimum age of 18 years"]
  const Skills := ["Translation", "Interpersonal Communication", "Cultural Sensitivity", "Problem Solving"]
  const TimeCommitment := "4-6 hours per day, 3 days per week, for 2 weeks"
  const Address := "Grand Mosque, Makkah, Saudi Arabia"

  /** The record the delayed callback stores for `id`. */
  function MockDetail(id: string): (r: OpportunityDetail)
    ensures r.id == id
    ensures r.status == DetailActions.Open && r.applicationDeadline == "2025-04-30"
    ensures r.title == Title(id) && r.location == Location(id) && r.featured == Featured(id) && r.category == Category(id)
  {
    OpportunityDetail(
      id, Title(id), Description, ImagePath(id), Location(id), "2025-05-15", 25, Featured(id), Category(id),
      Requirements, Skills, TimeCommitment, "Abdullah Al-Faisal", "translation@haramainvolunteers.org", Address,
      DetailActions.Open, "2025-04-30")
  }

  /** Two ids that are not among the special ids 1 to 6 give records that agree on every field but the id and image. */
  lemma OrdinaryIdsLookAlike(a: string, b: string)
    requires a !in ["1", "2", "3", "4", "5", "6"] && b !in ["1", "2", "3", "4", "5", "6"]
    ensures MockDetail(a).(id := b, image := "") == MockDetail(b).(image := "")
  {
  }

  /** A signed-in visitor who has not applied can always apply to a fetched opportunity. */
  lemma FetchedOpportunityOpen(id: string, isApplying: bool)
    ensures DetailActions.GetButtonState(MockDetail(id).status, false, true, isApplying)
      == DetailActions.ButtonState(false, "applyNow", isApplying, false)
  {
  }

  class OpportunityDetailHook {
    var opportunity: Option<OpportunityDetail>
    var loading: bool
    var error: Option<string>

    /** Before the effect: nothing, loading, no error. */
    constructor()
      ensures opportunity.None? && loading && error.None?
    {
      opportunity := None;
      loading := true;
      error := None;
    }

    /** The effect for `id`: an empty id returns at once and changes nothing. */
    method BeginFetch(id: string) returns (started: bool)
      modifies this
      ensures started <==> id != ""
      ensures started ==> loading && error.None? && opportunity == old(opportunity)
      ensures !started ==> loading == old(loading) && error == old(error) && opportunity == old(opportunity)
    {
      if id == "" {
        return false;
      }
      loading := true;
      error := None;
      started := true;
    }

    /** The delayed callback stores the record for `id` and ends loading. */
    method CompleteFetch(id: string)
      modifies this
      ensures opportunity == Some(MockDetail(id)) && !loading && error == old(error)
    {
      opportunity := Some(MockDetail(id));
      loading := false;
    }
  }

  /** With an empty id the hook never leaves its loading state. */
  method EmptyIdScenario() returns (h: OpportunityDetailHook)
    ensures h.loading && h.opportunity.None? && h.error.None?
  {
    h := new OpportunityDetailHook();
    var started := h.BeginFetch("");
  }

  /** The record for id 2: the guidance opportunity in Madinah. */
  lemma SecondOpportunity()
    ensures MockDetail("2").title == "Visitor Guidance in Prophet's Mosque"
    ensures MockDetail("2").location == "Madinah" && MockDetail("2").category == "Guidance"
    ensures !MockDetail("2").featured
  {
  }

  /** Fetching id 2 yields the Madinah guidance opportunity. */
  method FetchScenario() returns (h: OpportunityDetailHook)
    ensures !h.loading && h.opportunity.Some?
    ensures h.opportunity.value.title == "Visitor Guidance in Prophet's Mosque"
    ensures h.opportunity.value.location == "Madinah" && h.opportunity.value.category == "Guidance"
  {
    h := new OpportunityDetailHook();
    var started := h.BeginFetch("2");
    h.CompleteFetch("2");
    SecondOpportunity();
  }
}
