/** Domain records shared by the worker and the client (shared/types.ts). */
module SharedTypes {

  /** An optional value: an absent JSON field, a nullable reference. */
  datatype Option<+T> = None | Some(value: T)

  /** A byte of a digest (the elements of a Uint8Array). */
  type Byte = x: int | 0 <= x < 256

  /** A point in time: the milliseconds `new Date(s).getTime()` yields for a date string. */
  type Timestamp = int

  /** 'Loan' | 'Subsidy': the kind of a scheme and of an application. */
  datatype SchemeType = Loan | Subsidy

  /** The icon names a scheme may carry. */
  datatype Icon = Tractor | Leaf | Banknote | Factory

  /** 'Approved' | 'In Review' | 'Rejected'. */
  datatype ApplicationStatus = Approved | InReview | Rejected

  /** An event's status: an application status, or 'Submitted'. */
  datatype EventStatus = Submitted | Reached(status: ApplicationStatus)

  datatype Scheme = Scheme(
    id: string,
    title: string,
    description: string,
    kind: SchemeType,
    interestRate: Option<string>,
    maxAmount: string,
    eligibility: string,
    icon: Icon)

  datatype ApplicationEvent = ApplicationEvent(
    date: string,
    status: EventStatus,
    description: string)

  /** `events` is optional in the record type; the seed data always sets it. */
  datatype Application = Application(
    id: string,
    schemeName: string,
    applicationDate: string,
    amount: int,
    status: ApplicationStatus,
    kind: SchemeType,
    events: Option<seq<ApplicationEvent>>)

  datatype DashboardSummary = DashboardSummary(
    totalLoanAmount: int,
    totalSubsidiesReceived: int,
    applicationsInReview: int,
    approvedApplications: int)

  /** A user record; `hashedPassword` is absent in every copy sent to a client. */
  datatype AuthUser = AuthUser(id: string, email: string, hashedPassword: Option<string>)

  /** The outcome of a route: 200 with data, 404 or 400 with a message. */
  datatype Response<+T> = Ok(data: T) | NotFound(error: string) | BadRequest(error: string)
}
