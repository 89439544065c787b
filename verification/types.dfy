/** The records of the application (`types.ts`), as immutable values. */
module Types {
  import opened Wrappers

  datatype Role = Citizen | Admin

  /** A report's adjudication status: exactly three values. */
  datatype Status = Pending | Approved | Rejected

  /** A registered account; `avatarUrl` and `password` are optional fields. */
  datatype User = User(
    id: string,
    name: string,
    email: string,
    role: Role,
    points: int,
    avatarUrl: Option<string>,
    password: Option<string>)

  /** A citizen's violation report; the official's comment and points are optional. */
  datatype Report = Report(
    id: string,
    userId: string,
    userName: string,
    violationTypes: seq<string>,
    vehicleNumber: string,
    location: string,
    description: string,
    timestamp: string,
    status: Status,
    imageUrl: string,
    adminComment: Option<string>,
    rewardPoints: Option<int>)

  /** One row of the violation-type table: its label (`name` here) and default points. */
  datatype ViolationType = ViolationType(id: string, name: string, defaultPoints: int)
}
