/**
  The admin dashboard, `src/app/admin/dashboard/page.tsx`: the comma
  grouping of large numbers, the user-statistics cards, and the choice
  between spinner, error card, nothing and content.
 */
module Dashboard {
  import opened Wrappers
  import opened Text
  import Seqs
  import opened AdminTypes
  import FlatTranslation

  // ---------------------------------------------------------------------------
  // `formatNumber`: `num.toString().replace(/\B(?=(\d{3})+(?!\d))/g, ",")`
  // ---------------------------------------------------------------------------

  /**
    A run of digits with a comma inserted at every position that has digits
    on both sides and a multiple of three digits after it.
   */
  function GroupDigits(d: string): string
    decreases |d|
  {
    if |d| <= 3 then d else GroupDigits(d[..|d| - 3]) + "," + d[|d| - 3..]
  }

  /**
    `formatNumber` for an integer. A minus sign is not a word character, so
    no comma follows it.
   */
  function FormatNumber(n: int): string {
    if n < 0 then "-" + GroupDigits(NatToString(-n)) else GroupDigits(NatToString(n))
  }

  /** The digit groups of a numeral, counted from the right. */
  function Groups(d: string): (r: seq<string>)
    ensures |r| >= 1
    decreases |d|
  {
    if |d| <= 3 then [d] else Groups(d[..|d| - 3]) + [d[|d| - 3..]]
  }

  /** The pieces laid end to end. */
  function Concat(parts: seq<string>): string
    decreases |parts|
  {
    if |parts| == 0 then "" else Concat(parts[..|parts| - 1]) + parts[|parts| - 1]
  }

  /** The groups lay end to end to the numeral; the first has one to three digits and every other exactly three. */
  lemma {:induction false} GroupsShape(d: string)
    requires |d| >= 1
    ensures Concat(Groups(d)) == d
    ensures 1 <= |Groups(d)[0]| <= 3
    ensures forall k :: 1 <= k < |Groups(d)| ==> |Groups(d)[k]| == 3
    ensures forall k :: 0 <= k < |Groups(d)| ==> ',' !in Groups(d)[k] || ',' in d
    decreases |d|
  {
    if |d| > 3 {
      var p := d[..|d| - 3];
      GroupsShape(p);
      var g := Groups(d);
      assert g[..|g| - 1] == Groups(p);
      assert d == p + d[|d| - 3..];
      forall k | 0 <= k < |g| && ',' in g[k]
        ensures ',' in d
      {
        if k < |g| - 1 {
          assert g[k] == Groups(p)[k];
          assert ',' in p;
        }
      }
    }
  }

  /** The grouped numeral is its groups joined by commas. */
  lemma {:induction false} GroupDigitsJoin(d: string)
    ensures GroupDigits(d) == Join(Groups(d), ',')
    decreases |d|
  {
    if |d| > 3 {
      var p := d[..|d| - 3];
      GroupDigitsJoin(p);
      JoinSnoc(Groups(p), d[|d| - 3..], ',');
    }
  }

  predicate NotComma(c: char) { c != ',' }

  /** Deleting the commas from a grouped run of digits gives the digits back. */
  lemma {:induction false} GroupDigitsStrip(d: string)
    requires ',' !in d
    ensures Seqs.Filter(GroupDigits(d), NotComma) == d
    decreases |d|
  {
    if |d| <= 3 {
      Seqs.FilterKeepsAll(d, NotComma);
    } else {
      var p := d[..|d| - 3];
      var last := d[|d| - 3..];
      assert ',' !in p && ',' !in last by {
        assert d == p + last;
      }
      GroupDigitsStrip(p);
      Seqs.FilterAppend(GroupDigits(p) + ",", last, NotComma);
      Seqs.FilterAppend(GroupDigits(p), ",", NotComma);
      Seqs.FilterKeepsAll(last, NotComma);
      assert d == p + last;
    }
  }

  /** A run of digits gets a comma exactly when it is longer than three. */
  lemma {:induction false} GroupDigitsHasComma(d: string)
    requires ',' !in d
    ensures ',' in GroupDigits(d) <==> |d| > 3
    decreases |d|
  {
    if |d| > 3 {
      var g := GroupDigits(d);
      var prefix := GroupDigits(d[..|d| - 3]);
      assert g[|prefix|] == ',';
    }
  }

  function Pow10(k: nat): (r: nat)
    ensures r >= 1
  {
    if k == 0 then 1 else 10 * Pow10(k - 1)
  }

  /** A numeral has more than `k` digits exactly when the number reaches `10^k`. */
  lemma {:induction false} NatToStringLength(n: nat, k: nat)
    requires k >= 1
    ensures |NatToString(n)| > k <==> n >= Pow10(k)
    decreases k
  {
    if n >= 10 {
      assert |NatToString(n)| == |NatToString(n / 10)| + 1;
      assert n >= Pow10(k) <==> n / 10 >= Pow10(k - 1);
      if k > 1 {
        NatToStringLength(n / 10, k - 1);
      }
    } else {
      assert Pow10(k) == 10 * Pow10(k - 1);
    }
  }

  /**
    Removing the commas from `formatNumber(n)` gives the decimal numeral of
    `n`; splitting it at the commas gives the digit groups; and it has a
    comma exactly when `n` is at least 1000.
   */
  lemma FormatNumberProperties(n: nat)
    ensures Seqs.Filter(FormatNumber(n), NotComma) == NatToString(n)
    ensures Split(FormatNumber(n), ',') == Groups(NatToString(n))
    ensures Concat(Groups(NatToString(n))) == NatToString(n)
    ensures 1 <= |Groups(NatToString(n))[0]| <= 3
    ensures forall k :: 1 <= k < |Groups(NatToString(n))| ==> |Groups(NatToString(n))[k]| == 3
    ensures ',' in FormatNumber(n) <==> n >= 1000
  {
    var d := NatToString(n);
    assert forall i :: 0 <= i < |d| ==> IsDigit(d[i]);
    GroupDigitsStrip(d);
    GroupsShape(d);
    GroupDigitsJoin(d);
    SplitJoin(Groups(d), ',');
    GroupDigitsHasComma(d);
    NatToStringLength(n, 3);
  }

  /** The mock volunteer hours and the mock total of users, as displayed. */
  lemma FormatNumberExamples()
    ensures FormatNumber(5238) == "5,238"
    ensures FormatNumber(261) == "261"
  {
    assert NatToString(5238) == "5238" by {
      assert NatToString(5) == "5";
      assert NatToString(52) == "52";
      assert NatToString(523) == "523";
    }
    assert NatToString(261) == "261" by {
      assert NatToString(2) == "2";
      assert NatToString(26) == "26";
    }
    assert GroupDigits("5238") == GroupDigits("5") + "," + "238";
  }

  // ---------------------------------------------------------------------------
  // The user-statistics cards
  // ---------------------------------------------------------------------------

  /** The administrators card shows a fixed count. */
  const AdminCount := 3

  /** The values shown on the cards: pending users unformatted, the others through `formatNumber`. */
  datatype UserCards = UserCards(pendingUsers: string, activeVolunteers: string, adminUsers: string, totalUsers: string)

  /** The values on the opportunity-statistics cards. */
  datatype OpportunityCards = OpportunityCards(pending: string, active: string, completed: string, volunteerHours: string)

  /** The number shown as the total of users. */
  function TotalUsers(data: AdminSummaryData): (r: nat)
    ensures r >= AdminCount
    ensures r >= data.activeVolunteers && r >= data.pendingVolunteers
  {
    data.activeVolunteers + data.pendingVolunteers + AdminCount
  }

  function UserCardsOf(data: AdminSummaryData): UserCards {
    UserCards(IntToString(data.pendingVolunteers), FormatNumber(data.activeVolunteers),
      IntToString(AdminCount), FormatNumber(TotalUsers(data)))
  }

  function OpportunityCardsOf(data: AdminSummaryData): OpportunityCards {
    OpportunityCards(IntToString(data.pendingOpportunities), IntToString(data.activeOpportunities),
      IntToString(data.completedOpportunities), FormatNumber(data.totalVolunteerHours))
  }

  /** The total card is the sum of the three user cards before it. */
  lemma TotalIsSumOfCards(data: AdminSummaryData)
    ensures TotalUsers(data) == data.pendingVolunteers + data.activeVolunteers + AdminCount
    ensures Seqs.Filter(UserCardsOf(data).totalUsers, NotComma) == NatToString(TotalUsers(data))
  {
    FormatNumberProperties(TotalUsers(data));
  }

  // ---------------------------------------------------------------------------
  // What the page renders
  // ---------------------------------------------------------------------------

  datatype View = Spinner | ErrorCard(message: string) | Nothing | Content(users: UserCards, opportunities: OpportunityCards)

  /**
    The spinner while loading; otherwise the error card (its message, or the
    generic text when the message is empty); otherwise nothing without data;
    otherwise the cards.
   */
  function ViewOf(isLoading: bool, error: Option<string>, data: Option<AdminSummaryData>, translations: map<string, string>): (r: View)
    ensures r.Spinner? <==> isLoading
    ensures r.ErrorCard? <==> !isLoading && error.Some?
    ensures r.ErrorCard? ==> r.message == if error.value != "" then error.value else FlatTranslation.Lookup(translations, "somethingWentWrong")
    ensures r.Nothing? <==> !isLoading && error.None? && data.None?
    ensures r.Content? ==> data.Some? && r.users == UserCardsOf(data.value)
  {
    if isLoading then Spinner
    else if error.Some? then ErrorCard(if error.value != "" then error.value else FlatTranslation.Lookup(translations, "somethingWentWrong"))
    else if data.None? then Nothing
    else Content(UserCardsOf(data.value), OpportunityCardsOf(data.value))
  }

  class DashboardPage {
    var summaryData: Option<AdminSummaryData>
    var isLoading: bool
    var error: Option<string>

    constructor()
      ensures summaryData.None? && isLoading && error.None?
    {
      summaryData := None;
      isLoading := true;
      error := None;
    }

    function View(translations: map<string, string>): View
      reads this
    {
      ViewOf(isLoading, error, summaryData, translations)
    }

    /** The fetch effect starts. */
    method BeginFetch()
      modifies this
      ensures isLoading && summaryData == old(summaryData) && error == old(error)
    {
      isLoading := true;
    }

    /** The data arrived: it is stored, the error cleared, and loading ends. */
    method CompleteFetch(data: AdminSummaryData)
      modifies this
      ensures summaryData == Some(data) && error.None? && !isLoading
    {
      summaryData := Some(data);
      error := None;
      isLoading := false;
    }

    /** The fetch threw: the error is stored, the old data kept, and loading ends. */
    method FailFetch(message: string)
      modifies this
      ensures error == Some(message) && summaryData == old(summaryData) && !isLoading
    {
      error := Some(message);
      isLoading := false;
    }
  }

  /** The user and hour cards for the mock data. */
  lemma MockCards(now: int)
    ensures UserCardsOf(MockSummaryData(now)).totalUsers == "261"
    ensures OpportunityCardsOf(MockSummaryData(now)).volunteerHours == "5,238"
  {
    assert TotalUsers(MockSummaryData(now)) == 261;
    FormatNumberExamples();
  }

  /** On mount the page shows the spinner; once the mock data is in it shows 261 users and 5,238 hours. */
  method LoadScenario(now: int, translations: map<string, string>) returns (before: View, after: View)
    ensures before == Spinner
    ensures after.Content? && after.users.totalUsers == "261" && after.opportunities.volunteerHours == "5,238"
  {
    var page := new DashboardPage();
    page.BeginFetch();
    before := page.View(translations);
    page.CompleteFetch(MockSummaryData(now));
    after := page.View(translations);
    MockCards(now);
  }
}
