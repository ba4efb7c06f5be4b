/** The rows of the back office's database, as the services read and write
    them. Identifiers are modelled as natural numbers handed out by the store;
    timestamps are integer milliseconds since the epoch. */
module Entities {
  import opened Common

  type Id = nat

  datatype UserStatus = PENDING | ACTIVE | INACTIVE | REJECTED

  /** A user row as the ORM returns it without `include`: the role and the
      company are only referenced by id. */
  datatype User = User(
    id: Id,
    username: string,
    email: string,
    password: PasswordHash,
    firstName: Option<string>,
    lastName: Option<string>,
    phone: Option<string>,
    usageDescription: Option<string>,
    status: UserStatus,
    roleId: Id,
    companyId: Option<Id>,
    activationToken: Option<string>,
    activationTokenExpires: Option<int>,
    lastLogin: Option<int>,
    createdAt: int)

  datatype Role = Role(id: Id, name: string, description: Option<string>)

  datatype Company = Company(id: Id, name: string, createdAt: int)

  datatype Contract = Contract(id: Id, companyId: Id, startDate: int, endDate: int)

  /** `type` in the source; `kind` here because `type` is a Dafny keyword. */
  datatype Notification = Notification(
    id: Id,
    userId: Id,
    kind: string,
    title: string,
    message: string,
    isRead: bool,
    createdAt: int)

  datatype ApiKey = ApiKey(
    id: Id,
    name: string,
    key: string,
    userId: Option<Id>,
    lastUsed: Option<int>,
    createdAt: int)

  datatype Setting = Setting(key: string, value: string)

  datatype Application = Application(id: Id, name: string, companyId: Id, createdAt: int)

  datatype Device = Device(id: Id, name: string, devEui: string, applicationId: Id, status: string)

  datatype Gateway = Gateway(
    id: Id,
    name: string,
    ipAddress: string,
    status: string,
    uptime: real,
    latency: real,
    packetCount: int,
    errorCount: int,
    lastSeen: Option<int>)

  datatype Frame = Frame(id: Id, deviceId: Option<Id>, gatewayId: Option<Id>, timestamp: int)

  const Online := "online"

  /** What the user services return: the user with its role and without the
      password hash (the `const { password, ...rest } = user` of every method). */
  datatype UserView = UserView(
    id: Id,
    username: string,
    email: string,
    firstName: Option<string>,
    lastName: Option<string>,
    phone: Option<string>,
    usageDescription: Option<string>,
    status: UserStatus,
    roleId: Id,
    role: Role,
    companyId: Option<Id>,
    activationToken: Option<string>,
    activationTokenExpires: Option<int>,
    lastLogin: Option<int>,
    createdAt: int)

  function ViewOf(u: User, role: Role): (v: UserView)
    requires role.id == u.roleId
    ensures v.id == u.id && v.username == u.username && v.email == u.email
    ensures v.status == u.status && v.role == role && v.companyId == u.companyId
  {
    UserView(u.id, u.username, u.email, u.firstName, u.lastName, u.phone,
             u.usageDescription, u.status, u.roleId, role, u.companyId,
             u.activationToken, u.activationTokenExpires, u.lastLogin, u.createdAt)
  }
}
