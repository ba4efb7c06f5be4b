/** Applications (backend/src/feature/applications/applications.service.ts):
    read-only queries over the application table. */
module Applications {
  import opened Common
  import opened Entities
  import opened Ordering
  import opened Store

  function ApplicationMissing(id: Id): string {
    "Application avec l'ID " + NatToString(id) + " non trouvée"
  }

  function CreatedAt(a: Application): int { a.createdAt }

  /** The `select: { id, name }` of an included company. */
  datatype CompanyRef = CompanyRef(id: Id, name: string)

  /** An application as findAll returns it: the row, its company's id and
      name, and the `_count` of its devices. */
  datatype ApplicationSummary = ApplicationSummary(application: Application, company: Option<CompanyRef>, devices: nat)

  function DeviceCount(devices: map<Id, Device>, applicationId: Id): nat {
    |set k | k in devices && devices[k].applicationId == applicationId|
  }

  function CompanyRefOf(companies: map<Id, Company>, id: Id): Option<CompanyRef> {
    if id in companies then Some(CompanyRef(id, companies[id].name)) else None
  }

  // -----------------------------------------------------------------------
  // findAll (lines 8-28)
  // -----------------------------------------------------------------------

  /** The `where` of findAll: one company's applications, or all of them. */
  predicate Listed(a: Application, companyId: Option<Id>) {
    companyId.None? || Some(a.companyId) == companyId
  }

  function OfCompany(companyId: Option<Id>): (p: Application -> bool)
    ensures forall a :: p(a) <==> Listed(a, companyId)
  {
    (a: Application) => Listed(a, companyId)
  }

  lemma CountOfCompany(m: map<Id, Application>, bound: nat, companyId: Option<Id>)
    ensures |set k | k in m && k < bound && Listed(m[k], companyId)|
         == |Where(m, bound, OfCompany(companyId))|
  {
    assert (set k | k in m && k < bound && Listed(m[k], companyId))
        == MatchingKeys(m, bound, OfCompany(companyId));
  }

  /** The matching applications, newest first. */
  function Matching(applications: map<Id, Application>, bound: nat, companyId: Option<Id>): (r: seq<Application>)
    requires forall k :: k in applications ==> k < bound
    ensures Descending(r, CreatedAt)
    ensures forall x :: x in r <==> x in applications.Values && Listed(x, companyId)
    ensures |r| == |set k | k in applications && Listed(applications[k], companyId)|
  {
    var p := OfCompany(companyId);
    var kept := Where(applications, bound, p);
    forall x | x in applications.Values && p(x) ensures x in kept {
      var k :| k in applications && applications[k] == x;
    }
    forall x | x in kept ensures x in applications.Values && p(x) {
      var i :| 0 <= i < |kept| && kept[i] == x;
    }
    CountOfCompany(applications, bound, companyId);
    assert (set k | k in applications && k < bound && Listed(applications[k], companyId))
        == (set k | k in applications && Listed(applications[k], companyId));
    SortDescending(kept, CreatedAt)
  }

  function Summaries(apps: seq<Application>, companies: map<Id, Company>, devices: map<Id, Device>): (r: seq<ApplicationSummary>)
    ensures |r| == |apps|
    ensures forall i :: 0 <= i < |r| ==>
      r[i] == ApplicationSummary(apps[i], CompanyRefOf(companies, apps[i].companyId), DeviceCount(devices, apps[i].id))
  {
    if apps == [] then []
    else [ApplicationSummary(apps[0], CompanyRefOf(companies, apps[0].companyId), DeviceCount(devices, apps[0].id))]
         + Summaries(apps[1..], companies, devices)
  }

  /** A company's applications (every application without a company
      filter), newest first, each with its company and device count. */
  function FindAll(db: Db, companyId: Option<Id>): (r: seq<ApplicationSummary>)
    reads db
    requires NetworkValid(db.applications, db.devices, db.gateways, db.frames, db.nextId)
    ensures forall i, j :: 0 <= i < j < |r| ==> r[i].application.createdAt >= r[j].application.createdAt
    ensures forall x :: x in db.applications.Values && Listed(x, companyId)
                        <==> exists i :: 0 <= i < |r| && r[i].application == x
    ensures |r| == |set k | k in db.applications && Listed(db.applications[k], companyId)|
    ensures forall i :: 0 <= i < |r| ==>
      r[i].company == CompanyRefOf(db.companies, r[i].application.companyId)
      && r[i].devices == DeviceCount(db.devices, r[i].application.id)
  {
    var apps := Matching(db.applications, db.nextId, companyId);
    var r := Summaries(apps, db.companies, db.devices);
    SummariesFollow(apps, r);
    r
  }

  lemma SummariesFollow(apps: seq<Application>, r: seq<ApplicationSummary>)
    requires |r| == |apps| && forall i :: 0 <= i < |r| ==> r[i].application == apps[i]
    ensures Descending(apps, CreatedAt) ==>
      forall i, j :: 0 <= i < j < |r| ==> r[i].application.createdAt >= r[j].application.createdAt
    ensures forall x :: x in apps <==> exists i :: 0 <= i < |r| && r[i].application == x
  {
    if Descending(apps, CreatedAt) {
      forall i, j | 0 <= i < j < |r| ensures r[i].application.createdAt >= r[j].application.createdAt {
        assert CreatedAt(apps[i]) >= CreatedAt(apps[j]);
      }
    }
    forall x | x in apps ensures exists i :: 0 <= i < |r| && r[i].application == x {
      var i :| 0 <= i < |apps| && apps[i] == x;
      assert r[i].application == x;
    }
  }

  /** With a company filter findAll lists a subset of what it lists
      without one, and without one it lists every application. */
  lemma FilterNarrows(db: Db, companyId: Id)
    requires NetworkValid(db.applications, db.devices, db.gateways, db.frames, db.nextId)
    ensures |FindAll(db, Some(companyId))| <= |FindAll(db, None)| == |db.applications|
  {
    var none: Option<Id> := None;
    var some := Some(companyId);
    var narrow := set k | k in db.applications && Listed(db.applications[k], some);
    var all := set k | k in db.applications && Listed(db.applications[k], none);
    assert all == db.applications.Keys;
    SubsetCard(narrow, all);
  }

  // -----------------------------------------------------------------------
  // findOne (lines 30-52)
  // -----------------------------------------------------------------------

  /** A device with the `_count` of its frames. */
  datatype DeviceSummary = DeviceSummary(device: Device, frames: nat)

  /** An application with its company and its devices. */
  datatype ApplicationDetail = ApplicationDetail(application: Application, company: Option<Company>, devices: seq<DeviceSummary>)

  function FrameCount(frames: map<Id, Frame>, deviceId: Id): nat {
    |set k | k in frames && frames[k].deviceId == Some(deviceId)|
  }

  function DeviceSummaries(devices: seq<Device>, frames: map<Id, Frame>): (r: seq<DeviceSummary>)
    ensures |r| == |devices|
    ensures forall i :: 0 <= i < |r| ==> r[i] == DeviceSummary(devices[i], FrameCount(frames, devices[i].id))
  {
    if devices == [] then []
    else [DeviceSummary(devices[0], FrameCount(frames, devices[0].id))] + DeviceSummaries(devices[1..], frames)
  }

  function OfApplication(id: Id): (p: Device -> bool)
    ensures forall d :: p(d) <==> d.applicationId == id
  {
    (d: Device) => d.applicationId == id
  }

  /** The summaries of the application's devices cover exactly those devices. */
  lemma OwnSummaries(devices: map<Id, Device>, bound: nat, id: Id, frames: map<Id, Frame>,
                     own: seq<Device>, summaries: seq<DeviceSummary>)
    requires forall k :: k in devices ==> k < bound
    requires own == Where(devices, bound, OfApplication(id))
    requires summaries == DeviceSummaries(own, frames)
    ensures forall i :: 0 <= i < |summaries| ==>
      && summaries[i].device in devices.Values
      && summaries[i].device.applicationId == id
      && summaries[i].frames == FrameCount(frames, summaries[i].device.id)
    ensures forall k :: k in devices && devices[k].applicationId == id ==>
      exists i :: 0 <= i < |summaries| && summaries[i].device == devices[k]
  {
    forall k | k in devices && devices[k].applicationId == id
      ensures exists i :: 0 <= i < |summaries| && summaries[i].device == devices[k]
    {
      var i :| 0 <= i < |own| && own[i] == devices[k];
      assert summaries[i].device == own[i];
    }
  }

  lemma CountOfApplication(m: map<Id, Device>, bound: nat, id: Id)
    requires forall k :: k in m ==> k < bound
    ensures DeviceCount(m, id) == |Where(m, bound, OfApplication(id))|
  {
    assert (set k | k in m && m[k].applicationId == id) == MatchingKeys(m, bound, OfApplication(id));
  }

  function FindOne(db: Db, id: Id): (r: Result<ApplicationDetail>)
    reads db
    requires NetworkValid(db.applications, db.devices, db.gateways, db.frames, db.nextId)
    ensures r.Ok? <==> id in db.applications
    ensures r.Err? ==> r.error == NotFound(ApplicationMissing(id))
    ensures r.Ok? ==>
      && r.value.application == db.applications[id]
      && r.value.company == (if db.applications[id].companyId in db.companies
                             then Some(db.companies[db.applications[id].companyId]) else None)
      && |r.value.devices| == DeviceCount(db.devices, id)
      && (forall i :: 0 <= i < |r.value.devices| ==>
            && r.value.devices[i].device in db.devices.Values
            && r.value.devices[i].device.applicationId == id
            && r.value.devices[i].frames == FrameCount(db.frames, r.value.devices[i].device.id))
      && (forall k :: k in db.devices && db.devices[k].applicationId == id ==>
            exists i :: 0 <= i < |r.value.devices| && r.value.devices[i].device == db.devices[k])
  {
    if id !in db.applications then Err(NotFound(ApplicationMissing(id)))
    else
      var a := db.applications[id];
      var company := if a.companyId in db.companies then Some(db.companies[a.companyId]) else None;
      var own := Where(db.devices, db.nextId, OfApplication(id));
      CountOfApplication(db.devices, db.nextId, id);
      var summaries := DeviceSummaries(own, db.frames);
      OwnSummaries(db.devices, db.nextId, id, db.frames, own, summaries);
      Ok(ApplicationDetail(a, company, summaries))
  }
}
