/** The identity records the backend sends (the `Role` enum form of `UserDto`). */
module AuthTypes {
  import opened Wrappers

  datatype Role = Admin | CompanyManager | User

  /** The wire spelling of a role. */
  function RoleName(r: Role): string {
    match r
    case Admin => "admin"
    case CompanyManager => "company_manager"
    case User => "user"
  }

  datatype CompanyUserRole = CompanyAdmin | Recruiter

  function CompanyUserRoleName(r: CompanyUserRole): string {
    match r
    case CompanyAdmin => "admin"
    case Recruiter => "recruiter"
  }

  datatype UserType = Company | Candidate

  /** `Pick<CompanyDto, "id" | "name">`: the company reference a user carries. */
  datatype CompanyRef = CompanyRef(id: string, name: string)

  datatype CompanyDto = CompanyDto(id: string, name: string, defaultLocale: Option<string>, status: Option<string>)

  datatype UserDto = UserDto(
    id: string,
    email: string,
    role: Role,
    userType: Option<UserType>,
    companyId: Option<string>,
    position: Option<string>,
    language: Option<string>,
    company: Option<CompanyRef>)
}
