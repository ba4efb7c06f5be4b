/** Companies (backend/src/feature/companies/companies.service.ts): the
    company name is unique, checked before every insert and rename. */
module Companies {
  import opened Common
  import opened Entities
  import opened Ordering
  import opened Store

  const NameTaken := "Une entreprise avec ce nom existe déjà"

  function CompanyMissing(id: Id): string {
    "Entreprise avec l'ID " + NatToString(id) + " non trouvée"
  }

  function CreatedAt(c: Company): int { c.createdAt }

  /** Company names are pairwise distinct. */
  ghost predicate NamesDistinct(companies: map<Id, Company>) {
    forall a, b :: a in companies && b in companies && a != b ==> companies[a].name != companies[b].name
  }

  ghost predicate NameUsed(companies: map<Id, Company>, name: string) {
    exists k :: k in companies && companies[k].name == name
  }

  // -----------------------------------------------------------------------
  // create (lines 10-30)
  // -----------------------------------------------------------------------

  /** A company row with the number of its users and applications, as
      `create` and `update` return it (`include: { _count: ... }`). */
  datatype CompanyCounts = CompanyCounts(company: Company, users: nat, applications: nat)

  /** No user and no application references a company that is not in the
      table, so a company just created counts none of either. */
  lemma {:induction false} NewCompanyUnused(users: map<Id, User>, applications: map<Id, Application>,
                                           contracts: map<Id, Contract>, companies: map<Id, Company>, id: Id)
    requires UserCompaniesValid(users, companies) && CompanyChildrenValid(contracts, applications, companies)
    requires id !in companies
    ensures UserCount(users, id) == 0 && ApplicationCount(applications, id) == 0
  {
    assert (set k | k in users && users[k].companyId == Some(id)) == {};
    assert (set k | k in applications && applications[k].companyId == id) == {};
  }

  method Create(db: Db, name: string, now: int) returns (r: Result<CompanyCounts>)
    requires db.Valid()
    modifies db`companies, db`nextId
    ensures db.Valid()
    ensures NamesDistinct(db.companies)
    ensures r.Err? <==> NameUsed(old(db.companies), name)
    ensures r.Err? ==> r.error == Conflict(NameTaken) && db.companies == old(db.companies)
    ensures r.Ok? ==>
      && r.value.company == Company(r.value.company.id, name, now)
      && r.value.company.id !in old(db.companies)
      && db.companies == old(db.companies)[r.value.company.id := r.value.company]
    ensures r.Ok? ==>
      && r.value.users == UserCount(db.users, r.value.company.id) == 0
      && r.value.applications == ApplicationCount(db.applications, r.value.company.id) == 0
  {
    var existing := CompanyNamed(db.companies, db.nextId, name);
    if existing.Some? {
      return Err(Conflict(NameTaken));
    }
    var id := db.FreshId();
    NewCompanyUnused(db.users, db.applications, db.contracts, db.companies, id);
    var c := Company(id, name, now);
    db.companies := db.companies[id := c];
    r := Ok(CompanyCounts(c, UserCount(db.users, id), ApplicationCount(db.applications, id)));
  }

  // -----------------------------------------------------------------------
  // findAll (lines 32-47), findOne (lines 49-75)
  // -----------------------------------------------------------------------

  /** A company with the `_count` of its users, applications and contracts. */
  datatype CompanySummary = CompanySummary(company: Company, users: nat, applications: nat, contracts: nat)

  function UserCount(users: map<Id, User>, id: Id): nat {
    |set k | k in users && users[k].companyId == Some(id)|
  }

  function ApplicationCount(applications: map<Id, Application>, id: Id): nat {
    |set k | k in applications && applications[k].companyId == id|
  }

  function ContractCount(contracts: map<Id, Contract>, id: Id): nat {
    |set k | k in contracts && contracts[k].companyId == id|
  }

  /** The company table ordered by `createdAt`, newest first. */
  function NewestFirst(companies: map<Id, Company>, bound: nat): (r: seq<Company>)
    requires forall k :: k in companies ==> k < bound
    ensures |r| == |companies|
    ensures Descending(r, CreatedAt)
    ensures forall i :: 0 <= i < |r| ==> r[i] in companies.Values
    ensures forall k :: k in companies ==> companies[k] in r
  {
    var rows := Rows(companies, bound);
    RowsCountAll(companies, bound);
    var r := SortDescending(rows, CreatedAt);
    forall i | 0 <= i < |r| ensures r[i] in companies.Values {
      assert r[i] in rows;
      var j :| 0 <= j < |rows| && rows[j] == r[i];
    }
    r
  }

  /** Every company once, newest first, each with the number of its users,
      applications and contracts. */
  function FindAll(db: Db): (r: seq<CompanySummary>)
    reads db
    requires CompaniesValid(db.companies, db.nextId)
    ensures |r| == |db.companies|
    ensures forall i, j :: 0 <= i < j < |r| ==> r[i].company.createdAt >= r[j].company.createdAt
    ensures forall i :: 0 <= i < |r| ==> r[i].company in db.companies.Values
    ensures forall k :: k in db.companies ==> exists i :: 0 <= i < |r| && r[i].company == db.companies[k]
    ensures forall i :: 0 <= i < |r| ==>
      && r[i].users == UserCount(db.users, r[i].company.id)
      && r[i].applications == ApplicationCount(db.applications, r[i].company.id)
      && r[i].contracts == ContractCount(db.contracts, r[i].company.id)
  {
    var sorted := NewestFirst(db.companies, db.nextId);
    var r := Summaries(sorted, db.users, db.applications, db.contracts);
    SummariesFollow(sorted, r);
    r
  }

  /** The summaries of `cs`, in the same order. */
  function Summaries(cs: seq<Company>, users: map<Id, User>, applications: map<Id, Application>,
                     contracts: map<Id, Contract>): (r: seq<CompanySummary>)
    ensures |r| == |cs|
    ensures forall i :: 0 <= i < |r| ==>
      && r[i].company == cs[i]
      && r[i].users == UserCount(users, cs[i].id)
      && r[i].applications == ApplicationCount(applications, cs[i].id)
      && r[i].contracts == ContractCount(contracts, cs[i].id)
  {
    if cs == [] then []
    else
      [CompanySummary(cs[0], UserCount(users, cs[0].id), ApplicationCount(applications, cs[0].id),
                      ContractCount(contracts, cs[0].id))]
        + Summaries(cs[1..], users, applications, contracts)
  }

  /** Summaries keep the order and the members of the company list. */
  lemma SummariesFollow(cs: seq<Company>, r: seq<CompanySummary>)
    requires |r| == |cs| && forall i :: 0 <= i < |r| ==> r[i].company == cs[i]
    ensures Descending(cs, CreatedAt) ==> forall i, j :: 0 <= i < j < |r| ==> r[i].company.createdAt >= r[j].company.createdAt
    ensures forall c :: c in cs ==> exists i :: 0 <= i < |r| && r[i].company == c
  {
    if Descending(cs, CreatedAt) {
      forall i, j | 0 <= i < j < |r| ensures r[i].company.createdAt >= r[j].company.createdAt {
        assert CreatedAt(cs[i]) >= CreatedAt(cs[j]);
      }
    }
    forall c | c in cs ensures exists i :: 0 <= i < |r| && r[i].company == c {
      var i :| 0 <= i < |cs| && cs[i] == c;
      assert r[i].company == c;
    }
  }

  /** A user of the company with its role (`include: { role: true }`). */
  datatype Member = Member(user: User, role: Role)

  /** A company with its users, applications and contracts. */
  datatype CompanyDetail = CompanyDetail(
    company: Company,
    users: seq<Member>,
    applications: seq<Application>,
    contracts: seq<Contract>)

  /** Each user paired with the row of its role. */
  function WithRoles(us: seq<User>, roles: map<Id, Role>): (r: seq<Member>)
    requires forall i :: 0 <= i < |us| ==> us[i].roleId in roles
    ensures |r| == |us|
    ensures forall i :: 0 <= i < |r| ==> r[i] == Member(us[i], roles[us[i].roleId])
  {
    if us == [] then [] else [Member(us[0], roles[us[0].roleId])] + WithRoles(us[1..], roles)
  }

  /** The company's users, each with its role, in identifier order. */
  function MembersOf(users: map<Id, User>, roles: map<Id, Role>, bound: nat, id: Id): (r: seq<Member>)
    requires forall k :: k in users ==> k < bound && users[k].roleId in roles
    ensures |r| == UserCount(users, id)
    ensures forall i :: 0 <= i < |r| ==>
              && r[i].user in users.Values && r[i].user.companyId == Some(id)
              && r[i].user.roleId in roles && r[i].role == roles[r[i].user.roleId]
    ensures forall k :: k in users && users[k].companyId == Some(id) ==>
              exists i :: 0 <= i < |r| && r[i].user == users[k]
  {
    CountOwnUsers(users, bound, id);
    var own := Where(users, bound, (u: User) => u.companyId == Some(id));
    var members := WithRoles(own, roles);
    assert forall k :: k in users && users[k].companyId == Some(id) ==>
             exists i :: 0 <= i < |own| && own[i] == users[k] && members[i].user == own[i];
    members
  }

  /** The company's applications, in identifier order. */
  function ApplicationsOf(applications: map<Id, Application>, bound: nat, id: Id): (r: seq<Application>)
    requires forall k :: k in applications ==> k < bound
    ensures |r| == ApplicationCount(applications, id)
    ensures forall i :: 0 <= i < |r| ==> r[i] in applications.Values && r[i].companyId == id
    ensures forall k :: k in applications && applications[k].companyId == id ==> applications[k] in r
  {
    CountOwnApplications(applications, bound, id);
    Where(applications, bound, (a: Application) => a.companyId == id)
  }

  /** The company's contracts, in identifier order. */
  function ContractsOf(contracts: map<Id, Contract>, bound: nat, id: Id): (r: seq<Contract>)
    requires forall k :: k in contracts ==> k < bound
    ensures |r| == ContractCount(contracts, id)
    ensures forall i :: 0 <= i < |r| ==> r[i] in contracts.Values && r[i].companyId == id
    ensures forall k :: k in contracts && contracts[k].companyId == id ==> contracts[k] in r
  {
    CountOwnContracts(contracts, bound, id);
    Where(contracts, bound, (c: Contract) => c.companyId == id)
  }

  /** `findOne` (lines 49-75): the company with every user (and its role),
      application and contract that references it, or NotFound. */
  function FindOne(db: Db, id: Id): (r: Result<CompanyDetail>)
    reads db
    requires db.Valid()
    ensures r.Ok? <==> id in db.companies
    ensures r.Err? ==> r.error == NotFound(CompanyMissing(id))
    ensures r.Ok? ==>
      && r.value.company == db.companies[id]
      && r.value.users == MembersOf(db.users, db.roles, db.nextId, id)
      && r.value.applications == ApplicationsOf(db.applications, db.nextId, id)
      && r.value.contracts == ContractsOf(db.contracts, db.nextId, id)
    ensures r.Ok? ==>
      && (forall k :: k in db.users && db.users[k].companyId == Some(id) ==>
            exists i :: 0 <= i < |r.value.users| && r.value.users[i].user == db.users[k])
      && (forall i :: 0 <= i < |r.value.users| ==>
            r.value.users[i].user.companyId == Some(id) && r.value.users[i].role == db.roles[r.value.users[i].user.roleId])
      && (forall k :: k in db.applications && db.applications[k].companyId == id ==> db.applications[k] in r.value.applications)
      && (forall k :: k in db.contracts && db.contracts[k].companyId == id ==> db.contracts[k] in r.value.contracts)
  {
    if id !in db.companies then Err(NotFound(CompanyMissing(id)))
    else
      Ok(CompanyDetail(db.companies[id], MembersOf(db.users, db.roles, db.nextId, id),
                       ApplicationsOf(db.applications, db.nextId, id),
                       ContractsOf(db.contracts, db.nextId, id)))
  }

  lemma CountOwnUsers(users: map<Id, User>, bound: nat, id: Id)
    requires forall k :: k in users ==> k < bound
    ensures |set k | k in users && users[k].companyId == Some(id)|
         == |MatchingKeys(users, bound, (u: User) => u.companyId == Some(id))|
  {
    assert (set k | k in users && users[k].companyId == Some(id))
        == MatchingKeys(users, bound, (u: User) => u.companyId == Some(id));
  }

  lemma CountOwnApplications(applications: map<Id, Application>, bound: nat, id: Id)
    requires forall k :: k in applications ==> k < bound
    ensures |set k | k in applications && applications[k].companyId == id|
         == |MatchingKeys(applications, bound, (a: Application) => a.companyId == id)|
  {
    assert (set k | k in applications && applications[k].companyId == id)
        == MatchingKeys(applications, bound, (a: Application) => a.companyId == id);
  }

  lemma CountOwnContracts(contracts: map<Id, Contract>, bound: nat, id: Id)
    requires forall k :: k in contracts ==> k < bound
    ensures |set k | k in contracts && contracts[k].companyId == id|
         == |MatchingKeys(contracts, bound, (c: Contract) => c.companyId == id)|
  {
    assert (set k | k in contracts && contracts[k].companyId == id)
        == MatchingKeys(contracts, bound, (c: Contract) => c.companyId == id);
  }

  // -----------------------------------------------------------------------
  // update (lines 77-105), remove (lines 107-112)
  // -----------------------------------------------------------------------

  /** Some company other than `id` already carries `name`. */
  ghost predicate NameUsedByOther(companies: map<Id, Company>, id: Id, name: string) {
    exists k :: k in companies && k != id && companies[k].name == name
  }

  /** `UpdateCompanyDto`: the name is the only column a company has besides
      its key and creation time. */
  datatype UpdateCompanyDto = UpdateCompanyDto(name: Option<string>)

  /** NotFound first; then a non-empty new name that another company carries
      is a Conflict, so a company may be "renamed" to its own name. An empty
      name skips the check (it is falsy) and reaches the unique index. */
  method Update(db: Db, id: Id, dto: UpdateCompanyDto) returns (r: Result<CompanyCounts>)
    requires db.Valid()
    modifies db`companies
    ensures db.Valid()
    ensures NamesDistinct(db.companies)
    ensures id !in old(db.companies) ==> r == Err(NotFound(CompanyMissing(id)))
    ensures (id in old(db.companies) && Truthy(dto.name) && NameUsedByOther(old(db.companies), id, dto.name.value))
              ==> r == Err(Conflict(NameTaken))
    ensures (id in old(db.companies) && dto.name == Some("") && NameUsedByOther(old(db.companies), id, ""))
              ==> r == Err(DatabaseError(UniqueViolation))
    ensures (id in old(db.companies) && (dto.name.None? || !NameUsedByOther(old(db.companies), id, dto.name.value)))
              ==> r.Ok?
    ensures r.Err? ==> db.companies == old(db.companies)
    ensures r.Ok? ==>
      && id in old(db.companies)
      && r.value.company == old(db.companies)[id].(name := if dto.name.Some? then dto.name.value else old(db.companies)[id].name)
      && db.companies == old(db.companies)[id := r.value.company]
      && r.value.users == UserCount(db.users, id)
      && r.value.applications == ApplicationCount(db.applications, id)
  {
    if id !in db.companies {
      return Err(NotFound(CompanyMissing(id)));
    }
    if dto.name.Some? {
      var name := dto.name.value;
      var other := FirstRow(db.companies, db.nextId, (c: Company) => c.name == name && c.id != id);
      if other.Some? {
        if Truthy(dto.name) {
          return Err(Conflict(NameTaken));
        }
        return Err(DatabaseError(UniqueViolation));
      }
    }
    var c := db.companies[id];
    if dto.name.Some? {
      c := c.(name := dto.name.value);
    }
    db.companies := db.companies[id := c];
    r := Ok(CompanyCounts(c, UserCount(db.users, id), ApplicationCount(db.applications, id)));
  }

  /** Some contract or application belongs to the company. Both relations
      are required, so such a company cannot be deleted. */
  ghost predicate HasChildren(contracts: map<Id, Contract>, applications: map<Id, Application>, id: Id) {
    || (exists k :: k in contracts && contracts[k].companyId == id)
    || (exists k :: k in applications && applications[k].companyId == id)
  }

  /** NotFound for an unknown id (the `findOne` guard); the delete is
      refused while a contract or an application refers to the company;
      otherwise the company goes and its users lose their company. */
  method Remove(db: Db, id: Id) returns (r: Result<()>)
    requires db.Valid()
    modifies db`companies, db`users
    ensures db.Valid()
    ensures id !in old(db.companies) ==> r == Err(NotFound(CompanyMissing(id)))
    ensures (id in old(db.companies) && HasChildren(db.contracts, db.applications, id))
              ==> r == Err(DatabaseError(ForeignKeyViolation))
    ensures r.Ok? <==> id in old(db.companies) && !HasChildren(db.contracts, db.applications, id)
    ensures r.Err? ==> db.companies == old(db.companies) && db.users == old(db.users)
    ensures r.Ok? ==> db.companies == old(db.companies) - {id} && db.users == Detached(old(db.users), id)
  {
    if id !in db.companies {
      return Err(NotFound(CompanyMissing(id)));
    }
    var contract := FirstRow(db.contracts, db.nextId, (c: Contract) => c.companyId == id);
    var application := FirstRow(db.applications, db.nextId, (a: Application) => a.companyId == id);
    if contract.Some? || application.Some? {
      return Err(DatabaseError(ForeignKeyViolation));
    }
    Delete(db, id);
    r := Ok(());
  }

  /** `company.delete` once nothing required refers to the company. */
  method Delete(db: Db, id: Id)
    requires db.Valid() && id in db.companies
    requires forall k :: k in db.contracts ==> db.contracts[k].companyId != id
    requires forall k :: k in db.applications ==> db.applications[k].companyId != id
    modifies db`companies, db`users
    ensures db.Valid()
    ensures db.companies == old(db.companies) - {id} && db.users == Detached(old(db.users), id)
  {
    var users, companies := Detached(db.users, id), db.companies - {id};
    RemoveCompanyValid(db.users, db.roles, db.nextId, db.companies, db.contracts, db.applications,
                       db.notifications, db.apiKeys, id);
    db.users, db.companies := users, companies;
  }
}
