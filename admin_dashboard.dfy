/** The super-admin dashboard page of the web front end: the figures it
    derives from the lists the API returns, the five most recent users, and
    the widths of the status bars. */
module AdminDashboard {
  import opened Common
  import opened Entities
  import Ordering

  /** A user as the page receives it: the status as text, the company only
      through its optional name, the creation date optional. */
  datatype UserItem = UserItem(
    id: Id,
    firstName: Option<string>,
    lastName: Option<string>,
    email: string,
    companyName: Option<string>,
    status: string,
    createdAt: Option<int>)

  /** A creation date as shown: a locale date, or `N/A`. */
  datatype Shown = LocaleDate(ms: int) | NotAvailable

  datatype RecentUser = RecentUser(id: Id, name: string, email: string, company: string, status: string, createdAt: Shown)

  datatype Stats = Stats(
    totalUsers: nat,
    activeUsers: nat,
    pendingUsers: nat,
    totalCompanies: nat,
    totalApplications: nat,
    totalContracts: nat,
    activeApiKeys: nat,
    totalRoles: nat)

  /** `.catch(() => [])`: a failed fetch reads as an empty list. */
  function OrEmpty<T>(fetched: Option<seq<T>>): (r: seq<T>)
    ensures fetched.None? ==> r == []
    ensures fetched.Some? ==> r == fetched.value
  {
    if fetched.Some? then fetched.value else []
  }

  /** `users.filter(u => u.status === s).length`. */
  function CountStatus(users: seq<UserItem>, s: string): (n: nat)
    ensures n <= |users|
  {
    |Ordering.Filter(users, (u: UserItem) => u.status == s)|
  }

  /** Counting by status one user at a time. */
  lemma {:induction false} CountStatusStep(users: seq<UserItem>, s: string)
    requires users != []
    ensures CountStatus(users, s) == (if users[0].status == s then 1 else 0) + CountStatus(users[1..], s)
  {
    assert users == [users[0]] + users[1..];
    Ordering.FilterAppend([users[0]], users[1..], (u: UserItem) => u.status == s);
  }

  /** Two different statuses never count more users together than there
      are: the `Inactifs` figure, total minus active minus pending, is never
      negative. */
  lemma {:induction false} TwoStatusesBounded(users: seq<UserItem>, s: string, t: string)
    requires s != t
    ensures CountStatus(users, s) + CountStatus(users, t) <= |users|
    decreases |users|
  {
    if users != [] {
      CountStatusStep(users, s);
      CountStatusStep(users, t);
      TwoStatusesBounded(users[1..], s, t);
    }
  }

  /** `${firstName} ${lastName}`: a missing name prints as `null`. */
  function Interpolated(s: Option<string>): string {
    if s.Some? then s.value else "null"
  }

  /** One row of the recent-users table. */
  function Summary(u: UserItem): (r: RecentUser)
    ensures r.id == u.id && r.email == u.email && r.status == u.status
    ensures r.company == if Truthy(u.companyName) then u.companyName.value else "N/A"
    ensures r.createdAt.NotAvailable? <==> u.createdAt.None?
    ensures r.name == Interpolated(u.firstName) + " " + Interpolated(u.lastName)
  {
    RecentUser(
      u.id,
      Interpolated(u.firstName) + " " + Interpolated(u.lastName),
      u.email,
      if Truthy(u.companyName) then u.companyName.value else "N/A",
      u.status,
      if u.createdAt.Some? then LocaleDate(u.createdAt.value) else NotAvailable)
  }

  /** `users.slice(0, 5).map(...)`: the first five users in the order the
      API returned them. */
  function RecentUsers(users: seq<UserItem>): (r: seq<RecentUser>)
    ensures |r| == if |users| < 5 then |users| else 5
    ensures forall i :: 0 <= i < |r| ==> r[i] == Summary(users[i])
  {
    var first := if |users| < 5 then users else users[..5];
    seq(|first|, i requires 0 <= i < |first| => Summary(first[i]))
  }

  /** A bar width in percent; the page divides only when there are users. */
  function Width(part: nat, total: nat): (w: real)
    ensures total == 0 ==> w == 0.0
    ensures part <= total ==> 0.0 <= w <= 100.0
  {
    if total > 0 then
      Fraction(part as real, total as real);
      (part as real / total as real) * 100.0
    else 0.0
  }

  /** With at least one user the three bars fill the whole width. */
  lemma WidthsAddUp(active: nat, pending: nat, total: nat)
    requires total > 0 && active + pending <= total
    ensures Width(active, total) + Width(pending, total) + Width(total - active - pending, total) == 100.0
  {
    var t := total as real;
    FractionsAdd(active as real, pending as real, (total - active - pending) as real, t);
    assert active as real + pending as real + (total - active - pending) as real == t;
  }

  /** The page's state. */
  class Dashboard {
    var stats: Stats
    var recentUsers: seq<RecentUser>
    var loading: bool

    constructor()
      ensures stats == Stats(0, 0, 0, 0, 0, 0, 0, 0) && recentUsers == [] && loading
    {
      stats := Stats(0, 0, 0, 0, 0, 0, 0, 0);
      recentUsers := [];
      loading := true;
    }

    /** `fetchData`, with the six answers of the API as parameters (`None`
        for a call that failed). */
    method FetchData(
      users: Option<seq<UserItem>>,
      companies: Option<seq<Company>>,
      applications: Option<seq<Application>>,
      contracts: Option<seq<Contract>>,
      apiKeys: Option<seq<ApiKey>>,
      roles: Option<seq<Role>>)
      modifies this
      ensures var us := OrEmpty(users);
        && stats.totalUsers == |us|
        && stats.activeUsers == CountStatus(us, "ACTIVE")
        && stats.pendingUsers == CountStatus(us, "PENDING")
        && stats.activeUsers + stats.pendingUsers <= stats.totalUsers
        && recentUsers == RecentUsers(us)
      ensures stats.totalCompanies == |OrEmpty(companies)| && stats.totalApplications == |OrEmpty(applications)|
      ensures stats.totalContracts == |OrEmpty(contracts)| && stats.activeApiKeys == |OrEmpty(apiKeys)|
      ensures stats.totalRoles == |OrEmpty(roles)|
      ensures !loading
    {
      loading := true;
      var us := OrEmpty(users);
      var activeUsers := CountStatus(us, "ACTIVE");
      var pendingUsers := CountStatus(us, "PENDING");
      TwoStatusesBounded(us, "ACTIVE", "PENDING");
      stats := Stats(|us|, activeUsers, pendingUsers, |OrEmpty(companies)|, |OrEmpty(applications)|,
                     |OrEmpty(contracts)|, |OrEmpty(apiKeys)|, |OrEmpty(roles)|);
      recentUsers := RecentUsers(us);
      loading := false;
    }
  }
}
