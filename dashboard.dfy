/** Dashboard (backend/src/feature/dashboard/dashboard.service.ts): device,
    gateway and frame counts, optionally restricted to one company, and the
    latest frames. */
module Dashboard {
  import opened Common
  import opened Entities
  import opened Ordering
  import opened Store

  // -----------------------------------------------------------------------
  // getStats (lines 8-54)
  // -----------------------------------------------------------------------

  datatype Stats = Stats(
    totalDevices: nat,
    activeDevices: nat,
    gateways: nat,
    activeGateways: nat,
    dataPoints: nat,
    uptime: real)

  /** The device filter `application: whereClause`: every device without a
      company, otherwise the devices whose application belongs to it. */
  predicate InScope(d: Device, applications: map<Id, Application>, companyId: Option<Id>) {
    companyId.None? || (d.applicationId in applications && Some(applications[d.applicationId].companyId) == companyId)
  }

  function ScopedDevices(devices: map<Id, Device>, applications: map<Id, Application>, companyId: Option<Id>): set<Id> {
    set k | k in devices && InScope(devices[k], applications, companyId)
  }

  function ScopedOnlineDevices(devices: map<Id, Device>, applications: map<Id, Application>, companyId: Option<Id>): set<Id> {
    set k | k in devices && InScope(devices[k], applications, companyId) && devices[k].status == Online
  }

  function OnlineGateways(gateways: map<Id, Gateway>): set<Id> {
    set k | k in gateways && gateways[k].status == Online
  }

  /** The frames stamped at or after the start of the current day. */
  function FramesSince(frames: map<Id, Frame>, startOfDay: int): set<Id> {
    set k | k in frames && frames[k].timestamp >= startOfDay
  }

  function Sum(xs: seq<real>): real {
    if xs == [] then 0.0 else xs[0] + Sum(xs[1..])
  }

  /** `_avg` of an aggregate: null over no rows. */
  function Average(xs: seq<real>): (r: Option<real>)
    ensures r.None? <==> xs == []
  {
    if xs == [] then None else Some(Sum(xs) / (|xs| as real))
  }

  lemma {:induction false} SumBounds(xs: seq<real>, lo: real, hi: real)
    requires forall i :: 0 <= i < |xs| ==> lo <= xs[i] <= hi
    ensures (|xs| as real) * lo <= Sum(xs) <= (|xs| as real) * hi
  {
    if xs != [] {
      SumBounds(xs[1..], lo, hi);
    }
  }

  /** An average lies between the smallest and the largest value. */
  lemma AverageBounds(xs: seq<real>, lo: real, hi: real)
    requires forall i :: 0 <= i < |xs| ==> lo <= xs[i] <= hi
    ensures Average(xs).Some? ==> lo <= Average(xs).value <= hi
  {
    if xs != [] {
      SumBounds(xs, lo, hi);
      var n := |xs| as real;
      assert Sum(xs) / n >= lo by {
        assert Sum(xs) >= n * lo;
      }
      assert Sum(xs) / n <= hi by {
        assert Sum(xs) <= n * hi;
      }
    }
  }

  /** The uptimes of the online gateways, the rows the aggregate reads. */
  function OnlineUptimes(gateways: map<Id, Gateway>, bound: nat): (r: seq<real>)
    ensures forall i :: 0 <= i < |r| ==> exists g :: g in gateways.Values && g.status == Online && r[i] == g.uptime
    ensures |r| == |MatchingKeys(gateways, bound, (g: Gateway) => g.status == Online)|
  {
    var online := Where(gateways, bound, (g: Gateway) => g.status == Online);
    seq(|online|, i requires 0 <= i < |online| => online[i].uptime)
  }

  /** `_avg.uptime || 0`: a null or zero average reads as 0. */
  function UptimeOrZero(avg: Option<real>): real {
    if avg.Some? && avg.value != 0.0 then avg.value else 0.0
  }

  /** Uptimes kept within 0..100 average within 0..100. */
  lemma UptimeInRange(gateways: map<Id, Gateway>, bound: nat)
    ensures (forall k :: k in gateways ==> 0.0 <= gateways[k].uptime <= 100.0) ==>
              0.0 <= UptimeOrZero(Average(OnlineUptimes(gateways, bound))) <= 100.0
  {
    var uptimes := OnlineUptimes(gateways, bound);
    if forall k :: k in gateways ==> 0.0 <= gateways[k].uptime <= 100.0 {
      forall i | 0 <= i < |uptimes| ensures 0.0 <= uptimes[i] <= 100.0 {
        var g :| g in gateways.Values && g.status == Online && uptimes[i] == g.uptime;
      }
      AverageBounds(uptimes, 0.0, 100.0);
    }
  }

  function GetStats(db: Db, companyId: Option<Id>, startOfDay: int): (r: Stats)
    reads db
    requires NetworkValid(db.applications, db.devices, db.gateways, db.frames, db.nextId)
    ensures r.totalDevices == |ScopedDevices(db.devices, db.applications, companyId)|
    ensures r.activeDevices == |ScopedOnlineDevices(db.devices, db.applications, companyId)|
    ensures r.gateways == |db.gateways| && r.activeGateways == |OnlineGateways(db.gateways)|
    ensures r.dataPoints == |FramesSince(db.frames, startOfDay)|
    ensures r.activeDevices <= r.totalDevices && r.activeGateways <= r.gateways
    ensures r.activeGateways == 0 ==> r.uptime == 0.0
    ensures (forall k :: k in db.gateways ==> 0.0 <= db.gateways[k].uptime <= 100.0) ==> 0.0 <= r.uptime <= 100.0
  {
    var devices := ScopedDevices(db.devices, db.applications, companyId);
    var online := ScopedOnlineDevices(db.devices, db.applications, companyId);
    SubsetCard(online, devices);
    SubsetCard(OnlineGateways(db.gateways), db.gateways.Keys);
    var uptimes := OnlineUptimes(db.gateways, db.nextId);
    assert MatchingKeys(db.gateways, db.nextId, (g: Gateway) => g.status == Online) == OnlineGateways(db.gateways);
    UptimeInRange(db.gateways, db.nextId);
    Stats(|devices|, |online|, |db.gateways|, |OnlineGateways(db.gateways)|,
          |FramesSince(db.frames, startOfDay)|, UptimeOrZero(Average(uptimes)))
  }

  /** The company scope only narrows the device counts; the gateway counts
      and the data points are never company-scoped. */
  lemma ScopeNarrows(db: Db, companyId: Id, startOfDay: int)
    requires NetworkValid(db.applications, db.devices, db.gateways, db.frames, db.nextId)
    ensures var scoped, all := GetStats(db, Some(companyId), startOfDay), GetStats(db, None, startOfDay);
      && scoped.totalDevices <= all.totalDevices == |db.devices|
      && scoped.activeDevices <= all.activeDevices
      && scoped.gateways == all.gateways && scoped.activeGateways == all.activeGateways
      && scoped.dataPoints == all.dataPoints
  {
    var some, none := Some(companyId), None;
    assert ScopedDevices(db.devices, db.applications, none) == db.devices.Keys;
    SubsetCard(ScopedDevices(db.devices, db.applications, some), ScopedDevices(db.devices, db.applications, none));
    SubsetCard(ScopedOnlineDevices(db.devices, db.applications, some), ScopedOnlineDevices(db.devices, db.applications, none));
  }

  // -----------------------------------------------------------------------
  // getRecentActivity (lines 56-88)
  // -----------------------------------------------------------------------

  /** The `select: { id, name }` of an included device or gateway. */
  datatype NamedRef = NamedRef(id: Id, name: string)

  datatype Activity = Activity(frame: Frame, device: Option<NamedRef>, gateway: Option<NamedRef>)

  /** The frame filter `device: { application: { companyId } }`: without a
      company every frame; with one, the frames of that company's devices
      (a frame without a device is then left out). */
  predicate FrameInScope(f: Frame, devices: map<Id, Device>, applications: map<Id, Application>, companyId: Option<Id>) {
    companyId.None? || (f.deviceId.Some? && f.deviceId.value in devices
                        && InScope(devices[f.deviceId.value], applications, companyId))
  }

  function Timestamp(f: Frame): int { f.timestamp }

  /** A frame with the `select: { id, name }` of its device and gateway;
      a reference to a missing row includes nothing. */
  function ActivityOf(f: Frame, devices: map<Id, Device>, gateways: map<Id, Gateway>): (a: Activity)
    ensures a.frame == f
    ensures a.device.Some? <==> f.deviceId.Some? && f.deviceId.value in devices
    ensures a.device.Some? ==> a.device.value.id == f.deviceId.value && a.device.value.name == devices[f.deviceId.value].name
    ensures a.gateway.Some? <==> f.gatewayId.Some? && f.gatewayId.value in gateways
    ensures a.gateway.Some? ==> a.gateway.value.id == f.gatewayId.value && a.gateway.value.name == gateways[f.gatewayId.value].name
  {
    Activity(f,
      if f.deviceId.Some? && f.deviceId.value in devices then Some(NamedRef(f.deviceId.value, devices[f.deviceId.value].name)) else None,
      if f.gatewayId.Some? && f.gatewayId.value in gateways then Some(NamedRef(f.gatewayId.value, gateways[f.gatewayId.value].name)) else None)
  }

  function ScopedFrames(frames: map<Id, Frame>, devices: map<Id, Device>, applications: map<Id, Application>,
                        companyId: Option<Id>): set<Id> {
    set k | k in frames && FrameInScope(frames[k], devices, applications, companyId)
  }

  /** The latest `limit` frames in scope, newest first: no frame in scope
      that is left out is newer than one that is listed. */
  function LatestInScope(frames: map<Id, Frame>, devices: map<Id, Device>, applications: map<Id, Application>,
                         bound: nat, companyId: Option<Id>, limit: nat): (r: seq<Frame>)
    requires forall k :: k in frames ==> frames[k].id == k && k < bound
    ensures var n := |ScopedFrames(frames, devices, applications, companyId)|; |r| == if limit < n then limit else n
    ensures Descending(r, Timestamp) && Distinct(r)
    ensures forall f :: f in r ==> f in frames.Values && FrameInScope(f, devices, applications, companyId)
    ensures forall k, i ::
      (k in frames && FrameInScope(frames[k], devices, applications, companyId) && frames[k] !in r && 0 <= i < |r|)
      ==> frames[k].timestamp <= r[i].timestamp
  {
    var p := (f: Frame) => FrameInScope(f, devices, applications, companyId);
    ScopedAreMatching(frames, devices, applications, bound, companyId, p);
    NewestWhere(frames, bound, p, Timestamp, limit)
  }

  /** The frames in scope are the rows the scope filter matches, and no
      two keys hold the same frame. */
  lemma ScopedAreMatching(frames: map<Id, Frame>, devices: map<Id, Device>, applications: map<Id, Application>,
                          bound: nat, companyId: Option<Id>, p: Frame -> bool)
    requires forall k :: k in frames ==> frames[k].id == k && k < bound
    requires forall f :: p(f) == FrameInScope(f, devices, applications, companyId)
    ensures MatchingKeys(frames, bound, p) == ScopedFrames(frames, devices, applications, companyId)
    ensures forall a, b :: a in frames && b in frames && frames[a] == frames[b] ==> a == b
  {
  }

  function FramesOf(activities: seq<Activity>): (r: seq<Frame>)
    ensures |r| == |activities| && forall i :: 0 <= i < |r| ==> r[i] == activities[i].frame
  {
    seq(|activities|, i requires 0 <= i < |activities| => activities[i].frame)
  }

  /** The `limit = 10` default of `getRecentActivity`. */
  const DefaultActivityLimit := 10

  /** The frames LatestInScope picks, in its order, each with the names of
      its device and gateway; without a limit, the latest ten. */
  function GetRecentActivity(db: Db, companyId: Option<Id>, limit: Option<nat>): (r: seq<Activity>)
    reads db
    requires NetworkValid(db.applications, db.devices, db.gateways, db.frames, db.nextId)
    ensures var take := if limit.Some? then limit.value else DefaultActivityLimit;
            FramesOf(r) == LatestInScope(db.frames, db.devices, db.applications, db.nextId, companyId, take)
    ensures limit.None? ==> |r| <= DefaultActivityLimit
    ensures forall i :: 0 <= i < |r| ==> r[i] == ActivityOf(r[i].frame, db.devices, db.gateways)
  {
    var take := if limit.Some? then limit.value else DefaultActivityLimit;
    var latest := LatestInScope(db.frames, db.devices, db.applications, db.nextId, companyId, take);
    var devices, gateways := db.devices, db.gateways;
    var r := seq(|latest|, i requires 0 <= i < |latest| => ActivityOf(latest[i], devices, gateways));
    assert FramesOf(r) == latest;
    r
  }
}
