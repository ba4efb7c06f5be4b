/** Service contracts (backend/src/feature/contracts/contracts.service.ts):
    each contract belongs to a company, and the listing adds how many days
    are left before its end date and a status derived from that figure. */
module Contracts {
  import opened Common
  import opened Entities
  import opened Ordering
  import opened Store
  import Companies

  /** `1000 * 60 * 60 * 24`: one day in milliseconds. */
  const Day := 86_400_000

  /** The window, in days, in which a running contract is reported as expiring. */
  const ExpiringWindow := 7

  function ContractMissing(id: Id): string {
    "Contrat avec l'ID " + NatToString(id) + " non trouvé"
  }

  function EndDate(c: Contract): int { c.endDate }

  // -----------------------------------------------------------------------
  // daysLeft and status (lines 49-52)
  // -----------------------------------------------------------------------

  /** `Math.ceil((endDate - now) / day)` on integer milliseconds. Dafny's
      division rounds down for a positive divisor, so the ceiling is the
      negated floor of the negated quotient. */
  function DaysLeft(endDate: int, now: int): (d: int)
    ensures (d - 1) * Day < endDate - now <= d * Day
  {
    -((now - endDate) / Day)
  }

  /** The ceiling is the only integer with that property. */
  lemma DaysLeftUnique(endDate: int, now: int, d: int)
    requires (d - 1) * Day < endDate - now <= d * Day
    ensures d == DaysLeft(endDate, now)
  {
  }

  /** A contract ending exactly at `now` has no day left; one ending a
      millisecond later has one. */
  lemma DaysLeftAtBoundary(now: int)
    ensures DaysLeft(now, now) == 0
    ensures DaysLeft(now + 1, now) == 1
    ensures DaysLeft(now + Day, now) == 1
    ensures DaysLeft(now + Day + 1, now) == 2
    ensures DaysLeft(now - 1, now) == 0
    ensures DaysLeft(now - Day, now) == -1
  {
    DaysLeftUnique(now, now, 0);
    DaysLeftUnique(now + 1, now, 1);
    DaysLeftUnique(now + Day, now, 1);
    DaysLeftUnique(now + Day + 1, now, 2);
    DaysLeftUnique(now - 1, now, 0);
    DaysLeftUnique(now - Day, now, -1);
  }

  /** A later end date never leaves fewer days. */
  lemma DaysLeftMonotone(e1: int, e2: int, now: int)
    requires e1 <= e2
    ensures DaysLeft(e1, now) <= DaysLeft(e2, now)
  {
  }

  datatype ContractStatus = Expired | Expiring | Running

  /** The text the listing carries. */
  function StatusText(s: ContractStatus): (t: string)
    ensures t == "expired" <==> s == Expired
    ensures t == "expiring" <==> s == Expiring
    ensures t == "active" <==> s == Running
  {
    match s
    case Expired => "expired"
    case Expiring => "expiring"
    case Running => "active"
  }

  function StatusOf(daysLeft: int): (s: ContractStatus)
    ensures s == Expired <==> daysLeft < 0
    ensures s == Expiring <==> 0 <= daysLeft <= ExpiringWindow
    ensures s == Running <==> daysLeft > ExpiringWindow
  {
    if daysLeft < 0 then Expired else if daysLeft <= ExpiringWindow then Expiring else Running
  }

  /** expired < expiring < active. */
  function Rank(s: ContractStatus): nat {
    match s
    case Expired => 0
    case Expiring => 1
    case Running => 2
  }

  /** For a fixed `now`, a later end date never gives a lower status. */
  lemma StatusMonotone(e1: int, e2: int, now: int)
    requires e1 <= e2
    ensures Rank(StatusOf(DaysLeft(e1, now))) <= Rank(StatusOf(DaysLeft(e2, now)))
  {
    DaysLeftMonotone(e1, e2, now);
  }

  /** The status read directly off the end date: expired once the end date
      has passed, expiring while it is at most seven days away. */
  lemma StatusByEndDate(endDate: int, now: int)
    ensures StatusOf(DaysLeft(endDate, now)) == Expired <==> endDate - now <= -Day
    ensures StatusOf(DaysLeft(endDate, now)) == Running <==> endDate - now > ExpiringWindow * Day
  {
  }

  // -----------------------------------------------------------------------
  // findAll (lines 32-60)
  // -----------------------------------------------------------------------

  /** The company columns the listing selects (`select: { id, name }`). */
  datatype CompanyRef = CompanyRef(id: Id, name: string)

  /** A stored contract with its company and the two computed fields
      (`{ ...contract, daysLeft, status }`). */
  datatype ContractView = ContractView(contract: Contract, company: CompanyRef, daysLeft: int, status: ContractStatus)

  /** The required `Contract.company` relation: every contract's company exists. */
  ghost predicate CompaniesExist(contracts: map<Id, Contract>, companies: map<Id, Company>) {
    forall k :: k in contracts ==> contracts[k].companyId in companies
  }

  /** The selected columns of a contract's company; the relation is
      required, so the company is always found in a valid store. */
  function CompanyOf(c: Contract, companies: map<Id, Company>): (ref: CompanyRef)
    ensures ref.id == c.companyId
    ensures c.companyId in companies ==> ref.name == companies[c.companyId].name
  {
    CompanyRef(c.companyId, if c.companyId in companies then companies[c.companyId].name else "")
  }

  function ViewAt(c: Contract, companies: map<Id, Company>, now: int): (v: ContractView)
    ensures v.contract == c && v.daysLeft == DaysLeft(c.endDate, now) && v.status == StatusOf(v.daysLeft)
    ensures v.company == CompanyOf(c, companies)
  {
    var d := DaysLeft(c.endDate, now);
    ContractView(c, CompanyOf(c, companies), d, StatusOf(d))
  }

  function Views(cs: seq<Contract>, companies: map<Id, Company>, now: int): (r: seq<ContractView>)
    ensures |r| == |cs|
    ensures forall i :: 0 <= i < |r| ==> r[i] == ViewAt(cs[i], companies, now)
  {
    if cs == [] then [] else [ViewAt(cs[0], companies, now)] + Views(cs[1..], companies, now)
  }

  /** The contract table ordered by end date, soonest first. */
  function BySoonestEnd(contracts: map<Id, Contract>, bound: nat): (r: seq<Contract>)
    requires forall k :: k in contracts ==> k < bound
    ensures |r| == |contracts|
    ensures Ascending(r, EndDate)
    ensures forall i :: 0 <= i < |r| ==> r[i] in contracts.Values
    ensures forall k :: k in contracts ==> contracts[k] in r
  {
    var rows := Rows(contracts, bound);
    RowsCountAll(contracts, bound);
    var r := SortAscending(rows, EndDate);
    forall i | 0 <= i < |r| ensures r[i] in contracts.Values {
      assert r[i] in rows;
      var j :| 0 <= j < |rows| && rows[j] == r[i];
    }
    r
  }

  /** One view per stored contract, by end date ascending, each keeping the
      stored fields, with the id and name of its company, and adding the
      days left and the status at `now`. */
  function FindAll(contracts: map<Id, Contract>, companies: map<Id, Company>, bound: nat, now: int)
    : (r: seq<ContractView>)
    requires ContractsValid(contracts, bound)
    requires CompaniesExist(contracts, companies)
    ensures |r| == |contracts|
    ensures forall i, j :: 0 <= i < j < |r| ==> r[i].contract.endDate <= r[j].contract.endDate
    ensures forall i :: 0 <= i < |r| ==> r[i].contract in contracts.Values
    ensures forall k :: k in contracts ==> exists i :: 0 <= i < |r| && r[i].contract == contracts[k]
    ensures forall i :: 0 <= i < |r| ==>
              r[i].daysLeft == DaysLeft(r[i].contract.endDate, now) && r[i].status == StatusOf(r[i].daysLeft)
    ensures forall i :: 0 <= i < |r| ==>
              r[i].contract.companyId in companies && r[i].company == CompanyOf(r[i].contract, companies)
    ensures forall i, j :: 0 <= i < j < |r| ==> Rank(r[i].status) <= Rank(r[j].status)
  {
    var sorted := BySoonestEnd(contracts, bound);
    var r := Views(sorted, companies, now);
    ViewsFollow(sorted, companies, now, r);
    r
  }

  /** Views keep the order and the members of the contract list, and the
      statuses of an end-date-ordered list never go down. */
  lemma ViewsFollow(cs: seq<Contract>, companies: map<Id, Company>, now: int, r: seq<ContractView>)
    requires |r| == |cs| && forall i :: 0 <= i < |r| ==> r[i] == ViewAt(cs[i], companies, now)
    ensures forall i :: 0 <= i < |r| ==> r[i].contract == cs[i] && r[i].daysLeft == DaysLeft(cs[i].endDate, now)
    ensures forall i :: 0 <= i < |r| ==> r[i].company == CompanyOf(cs[i], companies)
    ensures Ascending(cs, EndDate) ==> forall i, j :: 0 <= i < j < |r| ==> r[i].contract.endDate <= r[j].contract.endDate
    ensures Ascending(cs, EndDate) ==> forall i, j :: 0 <= i < j < |r| ==> Rank(r[i].status) <= Rank(r[j].status)
    ensures forall c :: c in cs ==> exists i :: 0 <= i < |r| && r[i].contract == c
  {
    if Ascending(cs, EndDate) {
      forall i, j | 0 <= i < j < |r| ensures r[i].contract.endDate <= r[j].contract.endDate
        && Rank(r[i].status) <= Rank(r[j].status)
      {
        assert EndDate(cs[i]) <= EndDate(cs[j]);
        StatusMonotone(cs[i].endDate, cs[j].endDate, now);
      }
    }
    forall c | c in cs ensures exists i :: 0 <= i < |r| && r[i].contract == c {
      var i :| 0 <= i < |cs| && cs[i] == c;
      assert r[i].contract == c;
    }
  }

  // -----------------------------------------------------------------------
  // create (lines 10-30), findOne (lines 62-75), update (lines 77-95),
  // remove (lines 97-102)
  // -----------------------------------------------------------------------

  /** The request, with its ISO date strings already read as instants. */
  datatype CreateContractDto = CreateContractDto(companyId: Id, startDate: int, endDate: int)

  /** A contract with its whole company row (`include: { company: true }`). */
  datatype ContractWithCompany = ContractWithCompany(contract: Contract, company: Company)

  method Create(db: Db, dto: CreateContractDto) returns (r: Result<ContractWithCompany>)
    requires db.Valid()
    modifies db`contracts, db`nextId
    ensures db.Valid()
    ensures r.Ok? <==> dto.companyId in old(db.companies)
    ensures r.Err? ==>
      && r.error == NotFound(Companies.CompanyMissing(dto.companyId))
      && db.contracts == old(db.contracts) && db.nextId == old(db.nextId)
    ensures r.Ok? ==>
      && r.value.contract == Contract(r.value.contract.id, dto.companyId, dto.startDate, dto.endDate)
      && r.value.contract.id !in old(db.contracts)
      && db.contracts == old(db.contracts)[r.value.contract.id := r.value.contract]
      && r.value.company == db.companies[dto.companyId]
  {
    if dto.companyId !in db.companies {
      return Err(NotFound(Companies.CompanyMissing(dto.companyId)));
    }
    var id := db.FreshId();
    var c := Contract(id, dto.companyId, dto.startDate, dto.endDate);
    db.contracts := db.contracts[id := c];
    r := Ok(ContractWithCompany(c, db.companies[dto.companyId]));
  }

  function FindOne(db: Db, id: Id): (r: Result<ContractWithCompany>)
    reads db
    requires db.Valid()
    ensures r.Ok? <==> id in db.contracts
    ensures r.Ok? ==> r.value.contract == db.contracts[id]
    ensures r.Ok? ==> db.contracts[id].companyId in db.companies && r.value.company == db.companies[db.contracts[id].companyId]
    ensures r.Err? ==> r.error == NotFound(ContractMissing(id))
  {
    if id in db.contracts then
      var c := db.contracts[id];
      Ok(ContractWithCompany(c, db.companies[c.companyId]))
    else Err(NotFound(ContractMissing(id)))
  }

  /** Every field optional; the dates are converted only when present. */
  datatype UpdateContractDto = UpdateContractDto(companyId: Option<Id>, startDate: Option<int>, endDate: Option<int>)

  /** The row after the update: a field changes only when the request carries it. */
  function Patched(c: Contract, dto: UpdateContractDto): (p: Contract)
    ensures p.id == c.id
    ensures p.companyId == (if dto.companyId.Some? then dto.companyId.value else c.companyId)
    ensures p.startDate == (if dto.startDate.Some? then dto.startDate.value else c.startDate)
    ensures p.endDate == (if dto.endDate.Some? then dto.endDate.value else c.endDate)
  {
    var c := if dto.companyId.Some? then c.(companyId := dto.companyId.value) else c;
    var c := if dto.startDate.Some? then c.(startDate := dto.startDate.value) else c;
    if dto.endDate.Some? then c.(endDate := dto.endDate.value) else c
  }

  /** An empty request leaves the row as it is. */
  lemma PatchedEmpty(c: Contract)
    ensures Patched(c, UpdateContractDto(None, None, None)) == c
  {
  }

  /** NotFound first; a new company that does not exist breaks the foreign key. */
  method Update(db: Db, id: Id, dto: UpdateContractDto) returns (r: Result<ContractWithCompany>)
    requires db.Valid()
    modifies db`contracts
    ensures db.Valid()
    ensures id !in old(db.contracts) ==> r == Err(NotFound(ContractMissing(id)))
    ensures (id in old(db.contracts) && dto.companyId.Some? && dto.companyId.value !in db.companies)
              ==> r == Err(DatabaseError(ForeignKeyViolation))
    ensures r.Err? ==> db.contracts == old(db.contracts)
    ensures r.Ok? ==>
      && id in old(db.contracts)
      && r.value.contract == Patched(old(db.contracts)[id], dto)
      && db.contracts == old(db.contracts)[id := r.value.contract]
      && r.value.contract.companyId in db.companies
      && r.value.company == db.companies[r.value.contract.companyId]
    ensures (id in old(db.contracts) && (dto.companyId.None? || dto.companyId.value in db.companies)) ==> r.Ok?
  {
    var found := FindOne(db, id);
    if found.Err? {
      return Err(found.error);
    }
    if dto.companyId.Some? && dto.companyId.value !in db.companies {
      return Err(DatabaseError(ForeignKeyViolation));
    }
    var c := Patched(found.value.contract, dto);
    db.contracts := db.contracts[id := c];
    r := Ok(ContractWithCompany(c, db.companies[c.companyId]));
  }

  method Remove(db: Db, id: Id) returns (r: Result<()>)
    requires db.Valid()
    modifies db`contracts
    ensures db.Valid()
    ensures r.Ok? <==> id in old(db.contracts)
    ensures r.Err? ==> r.error == NotFound(ContractMissing(id)) && db.contracts == old(db.contracts)
    ensures r.Ok? ==> db.contracts == old(db.contracts) - {id}
  {
    var found := FindOne(db, id);
    if found.Err? {
      return Err(found.error);
    }
    db.contracts := db.contracts - {id};
    r := Ok(());
  }
}
