/**
 * The `/api/dashboard-summary` fold of worker/user-routes.ts: one pass over the
 * stored applications that adds up Approved amounts by kind and counts the
 * Approved and In Review applications. Amounts are integers here.
 */
module Dashboard {
  import opened SharedTypes

  /** The four figures of the summary. */
  datatype Figure = LoanTotal | SubsidyTotal | InReviewCount | ApprovedCount

  /**
   * What one application adds to a figure: its amount to the loan total when it
   * is an Approved loan, to the subsidy total when it is an Approved non-loan;
   * one to the count of its status when that is Approved or In Review.
   */
  function Contribution(f: Figure, a: Application): int {
    match f
    case LoanTotal => if a.status == Approved && a.kind == Loan then a.amount else 0
    case SubsidyTotal => if a.status == Approved && a.kind != Loan then a.amount else 0
    case InReviewCount => if a.status == InReview then 1 else 0
    case ApprovedCount => if a.status == Approved then 1 else 0
  }

  /** A figure over a list of applications: the sum of their contributions. */
  function Total(apps: seq<Application>, f: Figure): int {
    if apps == [] then 0 else Total(apps[..|apps| - 1], f) + Contribution(f, apps[|apps| - 1])
  }

  /** The summary as a value: each field is its figure's total. */
  function SummaryOf(apps: seq<Application>): DashboardSummary {
    DashboardSummary(
      Total(apps, LoanTotal),
      Total(apps, SubsidyTotal),
      Total(apps, InReviewCount),
      Total(apps, ApprovedCount))
  }

  /** How many of `apps` have the given status. */
  function CountWithStatus(apps: seq<Application>, status: ApplicationStatus): nat {
    if apps == [] then 0
    else CountWithStatus(apps[..|apps| - 1], status) + (if apps[|apps| - 1].status == status then 1 else 0)
  }

  /** The amounts of the Approved applications of one kind, summed. */
  function ApprovedAmount(apps: seq<Application>, kind: SchemeType): int {
    if apps == [] then 0
    else
      var a := apps[|apps| - 1];
      ApprovedAmount(apps[..|apps| - 1], kind) + (if a.status == Approved && a.kind == kind then a.amount else 0)
  }

  /**
   * The `reduce` over the applications, with its accumulator updated in place:
   * the result is the loan and subsidy totals of the Approved applications and
   * the numbers of Approved and In Review ones.
   */
  method Summarize(apps: seq<Application>) returns (acc: DashboardSummary)
    ensures acc == SummaryOf(apps)
    ensures acc.totalLoanAmount == ApprovedAmount(apps, Loan)
    ensures acc.totalSubsidiesReceived == ApprovedAmount(apps, Subsidy)
    ensures acc.applicationsInReview == CountWithStatus(apps, InReview)
    ensures acc.approvedApplications == CountWithStatus(apps, Approved)
  {
    acc := DashboardSummary(0, 0, 0, 0);
    for i := 0 to |apps|
      invariant acc == SummaryOf(apps[..i])
    {
      var app := apps[i];
      assert apps[..i + 1][..i] == apps[..i];
      if app.status == Approved {
        if app.kind == Loan {
          acc := acc.(totalLoanAmount := acc.totalLoanAmount + app.amount);
        } else {
          acc := acc.(totalSubsidiesReceived := acc.totalSubsidiesReceived + app.amount);
        }
        acc := acc.(approvedApplications := acc.approvedApplications + 1);
      }
      if app.status == InReview {
        acc := acc.(applicationsInReview := acc.applicationsInReview + 1);
      }
    }
    assert apps[..|apps|] == apps;
    FiguresAreCountsAndAmounts(apps);
  }

  /** Each figure is the count or the amount it is named after. */
  lemma {:induction false} FiguresAreCountsAndAmounts(apps: seq<Application>)
    ensures Total(apps, LoanTotal) == ApprovedAmount(apps, Loan)
    ensures Total(apps, SubsidyTotal) == ApprovedAmount(apps, Subsidy)
    ensures Total(apps, InReviewCount) == CountWithStatus(apps, InReview)
    ensures Total(apps, ApprovedCount) == CountWithStatus(apps, Approved)
  {
    if apps != [] {
      FiguresAreCountsAndAmounts(apps[..|apps| - 1]);
    }
  }

  /** A sum over two lists joined is the sum of the two sums. */
  lemma {:induction false} TotalAppend(a: seq<Application>, b: seq<Application>, f: Figure)
    ensures Total(a + b, f) == Total(a, f) + Total(b, f)
  {
    if b == [] {
      assert a + b == a;
    } else {
      var init := b[..|b| - 1];
      assert (a + b)[..|a + b| - 1] == a + init;
      TotalAppend(a, init, f);
    }
  }

  /** An element anywhere in the list adds its contribution once. */
  lemma TotalRemove(before: seq<Application>, x: Application, after: seq<Application>, f: Figure)
    ensures Total(before + [x] + after, f) == Total(before + after, f) + Contribution(f, x)
  {
    TotalAppend(before + [x], after, f);
    TotalAppend(before, after, f);
    assert (before + [x])[..|before|] == before;
  }

  /** A sum does not depend on the order of the list. */
  lemma {:induction false} TotalPermutation(a: seq<Application>, b: seq<Application>, f: Figure)
    requires multiset(a) == multiset(b)
    ensures Total(a, f) == Total(b, f)
    decreases |a|
  {
    if a != [] {
      var init, x := a[..|a| - 1], a[|a| - 1];
      assert a == init + [x];
      assert x in multiset(b);
      assert x in b;
      var k :| 0 <= k < |b| && b[k] == x;
      var before, after := b[..k], b[k + 1..];
      assert b == before + [x] + after;
      RemoveMatching(init, x, before, after);
      TotalPermutation(init, before + after, f);
      TotalRemove(before, x, after, f);
    }
  }

  /** Taking the same element off both sides of equal multisets leaves equal multisets. */
  lemma RemoveMatching(init: seq<Application>, x: Application, before: seq<Application>, after: seq<Application>)
    requires multiset(init + [x]) == multiset(before + [x] + after)
    ensures multiset(init) == multiset(before + after)
  {
    calc {
      multiset(init);
      multiset(init + [x]) - multiset{x};
      multiset(before + [x] + after) - multiset{x};
      { assert multiset(before + [x] + after) == multiset(before + after) + multiset{x}; }
      multiset(before + after);
    }
  }

  /** The summary is the same for any order of the same applications. */
  lemma SummaryIgnoresOrder(a: seq<Application>, b: seq<Application>)
    requires multiset(a) == multiset(b)
    ensures SummaryOf(a) == SummaryOf(b)
  {
    forall f: Figure
      ensures Total(a, f) == Total(b, f)
    {
      TotalPermutation(a, b, f);
    }
  }

  /** A Rejected application changes no figure of the summary, wherever it sits. */
  lemma RejectedContributesNothing(before: seq<Application>, r: Application, after: seq<Application>)
    requires r.status == Rejected
    ensures SummaryOf(before + [r] + after) == SummaryOf(before + after)
  {
    forall f: Figure
      ensures Total(before + [r] + after, f) == Total(before + after, f)
    {
      TotalAppend(before + [r], after, f);
      TotalAppend(before, [r], f);
      TotalAppend(before, after, f);
      assert [r][..0] == [];
    }
  }

  /** No applications: every figure is zero. */
  lemma EmptySummary()
    ensures SummaryOf([]) == DashboardSummary(0, 0, 0, 0)
  {
  }
}
