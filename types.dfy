/** The records the application stores. Client, retailer, contact and
    distribution come from the front end's type declarations; the
    activity entries, snapshots, organizations, members, invites and
    profiles are the objects the server handlers build. Timestamps,
    generated ids and dates are opaque strings supplied by the caller. */
module Types {
  import opened Common

  type Id = string

  datatype ClientStatus = Active | Live | Projected | Recruiting
  {
    function Name(): string
    {
      match this
      case Active => "Active"
      case Live => "Live"
      case Projected => "Projected"
      case Recruiting => "Recruiting"
    }
  }

  datatype RetailerCategory = Physical | Digital

  /** A distribution's status; `NoStatus` is the empty string. */
  datatype DistStatus = NoStatus | Shelves | ShelvesScreens | XClient
  {
    function Name(): string
    {
      match this
      case NoStatus => ""
      case Shelves => "shelves"
      case ShelvesScreens => "shelves-screens"
      case XClient => "x-client"
    }
  }

  datatype Contact = Contact(id: Id, name: string, role: string, email: string, phone: string, notes: string)

  /** `createdAt` and `updatedAt` are present only on records the server
      wrote. */
  datatype Client = Client(
    id: Id,
    name: string,
    status: ClientStatus,
    statusDate: Option<string>,
    createdAt: Option<string>,
    updatedAt: Option<string>)

  /** The optional fields are `None` when missing or stored as `null`. */
  datatype Retailer = Retailer(
    id: Id,
    name: string,
    category: RetailerCategory,
    retailerType: string,
    contacts: Option<seq<Contact>>,
    lineReviewTiming: Option<string>,
    resetDates: Option<string>,
    notes: Option<string>,
    createdAt: Option<string>,
    updatedAt: Option<string>)

  datatype Distribution = Distribution(
    clientId: Id,
    retailerId: Id,
    status: DistStatus,
    notes: string,
    createdAt: Option<string>,
    updatedAt: Option<string>)

  /** An activity entry keeps the status and notes exactly as they came in
      the request, before any defaulting. */
  datatype ActivityEntry = ActivityEntry(
    id: Id,
    kind: string,
    clientId: Id,
    retailerId: Id,
    status: Field<DistStatus>,
    notes: Field<string>,
    timestamp: string)

  /** One entry of the `clientsByStatus` object, in insertion order. */
  datatype StatusCount = StatusCount(status: ClientStatus, count: nat)

  datatype Snapshot = Snapshot(
    date: string,
    totalClients: nat,
    totalRetailers: nat,
    totalDistributions: nat,
    clientsByStatus: seq<StatusCount>,
    distributionCoverage: nat)

  datatype Role = Admin | Editor | Viewer

  /** `['admin', 'editor', 'viewer'].includes(s)`, returning the role. */
  function ParseRole(s: string): Option<Role>
  {
    if s == "admin" then Some(Admin)
    else if s == "editor" then Some(Editor)
    else if s == "viewer" then Some(Viewer)
    else None
  }

  /** No handler ever sets `Expired`. */
  datatype InviteStatus = Pending | Accepted | Expired

  datatype Organization = Organization(id: Id, name: string, createdAt: string, createdBy: Id)

  datatype OrgWithRole = OrgWithRole(organization: Organization, role: Role)

  datatype Member = Member(userId: Id, email: string, name: string, role: Role, joinedAt: string)

  datatype Invite = Invite(id: Id, orgId: Id, email: string, role: Role, status: InviteStatus, createdAt: string)

  datatype Membership = Membership(orgId: Id, role: Role)

  datatype Profile = Profile(
    userId: Id,
    email: string,
    name: string,
    currentOrgId: Option<Id>,
    organizations: seq<Membership>)

  /** The authenticated caller: id, e-mail and display name (the metadata
      name, or `''`). */
  datatype User = User(id: Id, email: string, name: string)

  /** The per-organization data keys seeded when an organization is made. */
  datatype OrgData = OrgData(
    clients: seq<Client>,
    retailers: seq<Retailer>,
    distributions: seq<Distribution>,
    analyticsHistory: seq<Snapshot>)

  datatype ErrorCode = BadRequest | Unauthorized | Forbidden | NotFound
  {
    function HttpStatus(): nat
    {
      match this
      case BadRequest => 400
      case Unauthorized => 401
      case Forbidden => 403
      case NotFound => 404
    }
  }

  /** A handler's answer: a JSON value, or `{error}` with a status code. */
  datatype Result<T> = Ok(value: T) | Err(code: ErrorCode, message: string)

  /** The `{success: true}` body. */
  datatype Success = Success
}
