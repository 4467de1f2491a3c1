/** The home dashboard's figures: how many institutions and donors there
    are, the total of approved donations, and the two growth percentages
    with their sign. */
module Dashboard {
  import opened Wrappers
  import opened Types
  import opened JsBuiltins
  import Metrics

  /** `[...(institutions || []), ...(donors || [])]`: institutions first,
      then donors, an unanswered request counting as an empty list. */
  function AllAccounts(institutions: Option<seq<Account>>, donors: Option<seq<Account>>): (all: seq<Account>)
    ensures |all| == |institutions.GetOr([])| + |donors.GetOr([])|
    ensures all[..|institutions.GetOr([])|] == institutions.GetOr([])
    ensures all[|institutions.GetOr([])|..] == donors.GetOr([])
  {
    institutions.GetOr([]) + donors.GetOr([])
  }

  predicate IsApproved(d: Donation)
  {
    d.status == "APPROVED"
  }

  /** The donations whose status is APPROVED, in order. */
  function ApprovedDonations(donations: Option<seq<Donation>>): (approved: seq<Donation>)
    ensures forall i :: 0 <= i < |approved| ==> IsApproved(approved[i])
    ensures forall d :: d in approved <==> d in donations.GetOr([]) && IsApproved(d)
  {
    Filter(donations.GetOr([]), IsApproved)
  }

  /** `reduce((acc, curr) => acc + Number(curr.amount), 0)`, from the
      left, started at `acc`: the start value plus every amount. */
  function SumAmounts(acc: int, ds: seq<Donation>): (sum: int)
    ensures sum == acc + Total(ds)
    decreases |ds|
  {
    if ds == [] then acc else SumAmounts(acc + ds[0].amount, ds[1..])
  }

  /** `totalDonationsAmount`: the approved amounts added up from 0, which
      is the reference total of approved amounts over the whole list. */
  function TotalDonationsAmount(donations: Option<seq<Donation>>): (total: int)
    ensures total == ApprovedTotal(donations.GetOr([]))
  {
    TotalOfApproved(donations.GetOr([]));
    SumAmounts(0, ApprovedDonations(donations))
  }

  /** The reference total: every donation counted with its amount when it
      is approved and with zero otherwise. */
  function ApprovedTotal(ds: seq<Donation>): int
  {
    if ds == [] then 0 else (if IsApproved(ds[0]) then ds[0].amount else 0) + ApprovedTotal(ds[1..])
  }

  function Total(ds: seq<Donation>): int
  {
    if ds == [] then 0 else ds[0].amount + Total(ds[1..])
  }

  lemma {:induction false} TotalOfApproved(ds: seq<Donation>)
    ensures Total(Filter(ds, IsApproved)) == ApprovedTotal(ds)
  {
    if ds != [] {
      TotalOfApproved(ds[1..]);
      var head := if IsApproved(ds[0]) then [ds[0]] else [];
      assert Filter(ds, IsApproved) == head + Filter(ds[1..], IsApproved);
      TotalAppend(head, Filter(ds[1..], IsApproved));
    }
  }

  lemma {:induction false} TotalAppend(a: seq<Donation>, b: seq<Donation>)
    ensures Total(a + b) == Total(a) + Total(b)
  {
    if a != [] {
      TotalAppend(a[1..], b);
      assert (a + b)[0] == a[0];
      assert (a + b)[1..] == a[1..] + b;
    } else {
      assert a + b == b;
    }
  }

  /** Donations in any status other than APPROVED contribute nothing, so
      a list with no approved donation (or no answer yet) totals 0. */
  lemma TotalIsApprovedSum(donations: Option<seq<Donation>>)
    ensures (forall i :: 0 <= i < |donations.GetOr([])| ==> !IsApproved(donations.GetOr([])[i]))
      ==> TotalDonationsAmount(donations) == 0
  {
    if forall i :: 0 <= i < |donations.GetOr([])| ==> !IsApproved(donations.GetOr([])[i]) {
      FilterNone(donations.GetOr([]), IsApproved);
    }
  }

  /** `institutions?.length || 0` and `donors?.length || 0`. */
  function Count(accounts: Option<seq<Account>>): (n: nat)
    ensures accounts.None? ==> n == 0
    ensures accounts.Some? ==> n == |accounts.value|
  {
    match accounts
    case Some(a) => |a|
    case None => 0
  }

  /** The sign shown in front of a growth percentage: "+" for a rise, and
      nothing for no change or a fall (a fall already carries its "-"). */
  function SignPrefix(growth: int): (prefix: string)
    ensures prefix == "+" <==> growth > 0
    ensures prefix == "" <==> growth <= 0
  {
    if growth > 0 then "+" else ""
  }

  /** The four cards' figures. */
  datatype Stats = Stats(
    institutionCount: nat,
    donationTotal: int,
    donationsGrowthPrefix: string,
    donationsGrowth: int,
    donorCount: nat,
    activityGrowthPrefix: string,
    activityGrowth: int)

  /** The dashboard's figures from the three responses. `inCurrentMonth`
      stands for the month test on an account's creation date, and
      `amountGrowth` for `calculateMonthlyAmountGrowth`, which is not part
      of this model. */
  function DashboardStats(
    institutions: Option<seq<Account>>,
    donors: Option<seq<Account>>,
    donations: Option<seq<Donation>>,
    inCurrentMonth: Account -> bool,
    amountGrowth: seq<Donation> -> int): (s: Stats)
    ensures s.institutionCount == Count(institutions) && s.donorCount == Count(donors)
    ensures s.donationTotal == ApprovedTotal(donations.GetOr([]))
    ensures s.donationsGrowth == amountGrowth(ApprovedDonations(donations))
    ensures s.donationsGrowthPrefix == "+" <==> s.donationsGrowth > 0
    ensures s.activityGrowth == Metrics.CalculateMonthlyGrowth(AllAccounts(institutions, donors), inCurrentMonth)
    ensures s.activityGrowth >= 0
    ensures s.activityGrowthPrefix == "+" <==> s.activityGrowth > 0
  {
    var activityGrowth := Metrics.CalculateMonthlyGrowth(AllAccounts(institutions, donors), inCurrentMonth);
    var donationsGrowth := amountGrowth(ApprovedDonations(donations));
    Stats(
      Count(institutions),
      TotalDonationsAmount(donations),
      SignPrefix(donationsGrowth),
      donationsGrowth,
      Count(donors),
      SignPrefix(activityGrowth),
      activityGrowth)
  }

  /** A donation that is not approved changes none of the figures: both
      the total and the amount-growth input see approved donations only. */
  lemma UnapprovedDonationIgnored(
    institutions: Option<seq<Account>>,
    donors: Option<seq<Account>>,
    ds: seq<Donation>,
    d: Donation,
    inCurrentMonth: Account -> bool,
    amountGrowth: seq<Donation> -> int)
    requires !IsApproved(d)
    ensures DashboardStats(institutions, donors, Some(ds + [d]), inCurrentMonth, amountGrowth)
         == DashboardStats(institutions, donors, Some(ds), inCurrentMonth, amountGrowth)
  {
    FilterAppendRejected(ds, d, IsApproved);
  }

  lemma {:induction false} FilterAppendRejected<T>(s: seq<T>, x: T, p: T -> bool)
    requires !p(x)
    ensures Filter(s + [x], p) == Filter(s, p)
  {
    if s == [] {
      assert [] + [x] == [x];
      assert [x][1..] == [];
    } else {
      FilterAppendRejected(s[1..], x, p);
      assert (s + [x])[1..] == s[1..] + [x];
    }
  }

  /** The activity figure does not depend on whether institutions or
      donors come first in the combined list. */
  lemma ActivityGrowthSymmetric(
    institutions: Option<seq<Account>>,
    donors: Option<seq<Account>>,
    inCurrentMonth: Account -> bool)
    ensures Metrics.CalculateMonthlyGrowth(AllAccounts(institutions, donors), inCurrentMonth)
         == Metrics.CalculateMonthlyGrowth(AllAccounts(donors, institutions), inCurrentMonth)
  {
    var a, b := institutions.GetOr([]), donors.GetOr([]);
    assert multiset(a + b) == multiset(b + a);
    Metrics.GrowthIgnoresOrder(a + b, b + a, inCurrentMonth);
  }
}
