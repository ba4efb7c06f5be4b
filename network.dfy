/** Network (backend/src/feature/network/network.service.ts): read-only
    gateway, device and frame queries. */
module Network {
  import opened Common
  import opened Entities
  import opened Ordering
  import opened Store

  // -----------------------------------------------------------------------
  // getHealthStats (lines 8-38)
  // -----------------------------------------------------------------------

  const PacketLoss := 0.3

  datatype HealthStats = HealthStats(
    totalGateways: nat,
    activeGateways: nat,
    totalDevices: nat,
    activeDevices: nat,
    coverage: real,
    avgLatency: int,
    packetLoss: real)

  function OnlineGateways(gateways: map<Id, Gateway>): set<Id> {
    set k | k in gateways && gateways[k].status == Online
  }

  function OnlineDevices(devices: map<Id, Device>): set<Id> {
    set k | k in devices && devices[k].status == Online
  }

  /** `Math.round`: halves go up. */
  function Round(x: real): int {
    (x + 0.5).Floor
  }

  /** The share of online gateways in percent, rounded to one decimal; 0
      without gateways. */
  function Coverage(active: nat, total: nat): (c: real)
    requires active <= total
    ensures total == 0 ==> c == 0.0
    ensures 0.0 <= c <= 100.0
    ensures 0 < total == active ==> c == 100.0
  {
    var ratio := if total > 0 then (active as real / total as real) * 100.0 else 0.0;
    assert 0.0 <= ratio <= 100.0 by {
      if total > 0 {
        Fraction(active as real, total as real);
      }
    }
    assert 0 < total == active ==> Round(ratio * 10.0) == 1000 by {
      if 0 < total == active {
        Fraction(active as real, total as real);
        assert ratio * 10.0 + 0.5 == 1000.5;
      }
    }
    Round(ratio * 10.0) as real / 10.0
  }

  function Sum(xs: seq<real>): real {
    if xs == [] then 0.0 else xs[0] + Sum(xs[1..])
  }

  /** `_avg.latency` over the online gateways: null when there are none. */
  function AverageLatency(gateways: map<Id, Gateway>, bound: nat): (r: Option<real>)
    ensures r.None? <==> MatchingKeys(gateways, bound, (g: Gateway) => g.status == Online) == {}
  {
    var online := Where(gateways, bound, (g: Gateway) => g.status == Online);
    var latencies := seq(|online|, i requires 0 <= i < |online| => online[i].latency);
    if latencies == [] then None else Some(Sum(latencies) / (|latencies| as real))
  }

  function GetHealthStats(db: Db): (r: HealthStats)
    reads db
    requires NetworkValid(db.applications, db.devices, db.gateways, db.frames, db.nextId)
    ensures r.totalGateways == |db.gateways| && r.activeGateways == |OnlineGateways(db.gateways)|
    ensures r.totalDevices == |db.devices| && r.activeDevices == |OnlineDevices(db.devices)|
    ensures r.activeGateways <= r.totalGateways && r.activeDevices <= r.totalDevices
    ensures r.totalGateways == 0 ==> r.coverage == 0.0
    ensures 0.0 <= r.coverage <= 100.0
    ensures r.activeGateways == 0 ==> r.avgLatency == 0
    ensures r.packetLoss == PacketLoss
  {
    var online := OnlineGateways(db.gateways);
    SubsetCard(online, db.gateways.Keys);
    SubsetCard(OnlineDevices(db.devices), db.devices.Keys);
    assert MatchingKeys(db.gateways, db.nextId, (g: Gateway) => g.status == Online) == online;
    var avg := AverageLatency(db.gateways, db.nextId);
    HealthStats(|db.gateways|, |online|, |db.devices|, |OnlineDevices(db.devices)|,
                Coverage(|online|, |db.gateways|),
                Round(if avg.Some? && avg.value != 0.0 then avg.value else 0.0),
                PacketLoss)
  }

  // -----------------------------------------------------------------------
  // getGatewayHealth (lines 40-61), getAllGateways (lines 114-127)
  // -----------------------------------------------------------------------

  function Name(g: Gateway): string { g.name }

  /** The gateway table ordered by name. */
  function ByName(gateways: map<Id, Gateway>, bound: nat): (r: seq<Gateway>)
    requires forall k :: k in gateways ==> k < bound
    ensures |r| == |gateways|
    ensures AscendingText(r, Name)
    ensures forall x :: x in r <==> x in gateways.Values
  {
    var rows := Rows(gateways, bound);
    RowsCountAll(gateways, bound);
    forall x | x in rows ensures x in gateways.Values {
      var i :| 0 <= i < |rows| && rows[i] == x;
    }
    forall x | x in gateways.Values ensures x in rows {
      var k :| k in gateways && gateways[k] == x;
    }
    SortAscendingText(rows, Name)
  }

  function FrameCount(frames: map<Id, Frame>, gatewayId: Id): nat {
    |set k | k in frames && frames[k].gatewayId == Some(gatewayId)|
  }

  /** The columns getGatewayHealth selects, with the `_count` of frames. */
  datatype GatewayHealth = GatewayHealth(
    id: Id,
    name: string,
    status: string,
    uptime: real,
    latency: real,
    packetCount: int,
    errorCount: int,
    lastSeen: Option<int>,
    frames: nat)

  function HealthOf(g: Gateway, frames: map<Id, Frame>): GatewayHealth {
    GatewayHealth(g.id, g.name, g.status, g.uptime, g.latency, g.packetCount, g.errorCount, g.lastSeen,
                  FrameCount(frames, g.id))
  }

  /** Every gateway once, by name, with its health columns and frame count. */
  function GetGatewayHealth(db: Db): (r: seq<GatewayHealth>)
    reads db
    requires NetworkValid(db.applications, db.devices, db.gateways, db.frames, db.nextId)
    ensures |r| == |db.gateways|
    ensures forall i, j :: 0 <= i < j < |r| ==> LexLe(r[i].name, r[j].name)
    ensures forall k :: k in db.gateways ==> HealthOf(db.gateways[k], db.frames) in r
    ensures forall i :: 0 <= i < |r| ==> r[i].id in db.gateways && r[i] == HealthOf(db.gateways[r[i].id], db.frames)
  {
    var sorted := ByName(db.gateways, db.nextId);
    var frames := db.frames;
    var r := seq(|sorted|, i requires 0 <= i < |sorted| => HealthOf(sorted[i], frames));
    forall i, j | 0 <= i < j < |r| ensures LexLe(r[i].name, r[j].name) {
      assert LexLe(Name(sorted[i]), Name(sorted[j]));
    }
    forall k | k in db.gateways ensures HealthOf(db.gateways[k], db.frames) in r {
      var i :| 0 <= i < |sorted| && sorted[i] == db.gateways[k];
      assert r[i] == HealthOf(db.gateways[k], db.frames);
    }
    forall i | 0 <= i < |r| ensures r[i].id in db.gateways && r[i] == HealthOf(db.gateways[r[i].id], db.frames) {
      assert sorted[i] in db.gateways.Values;
    }
    r
  }

  /** The columns getAllGateways selects. */
  datatype GatewaySummary = GatewaySummary(id: Id, name: string, ipAddress: string, status: string, lastSeen: Option<int>)

  function SummaryOf(g: Gateway): GatewaySummary {
    GatewaySummary(g.id, g.name, g.ipAddress, g.status, g.lastSeen)
  }

  /** Every gateway once, by name, with its address and status. */
  function GetAllGateways(db: Db): (r: seq<GatewaySummary>)
    reads db
    requires NetworkValid(db.applications, db.devices, db.gateways, db.frames, db.nextId)
    ensures |r| == |db.gateways|
    ensures forall i, j :: 0 <= i < j < |r| ==> LexLe(r[i].name, r[j].name)
    ensures forall k :: k in db.gateways ==> SummaryOf(db.gateways[k]) in r
    ensures forall i :: 0 <= i < |r| ==> r[i].id in db.gateways && r[i] == SummaryOf(db.gateways[r[i].id])
  {
    var sorted := ByName(db.gateways, db.nextId);
    var r := seq(|sorted|, i requires 0 <= i < |sorted| => SummaryOf(sorted[i]));
    forall i, j | 0 <= i < j < |r| ensures LexLe(r[i].name, r[j].name) {
      assert LexLe(Name(sorted[i]), Name(sorted[j]));
    }
    forall k | k in db.gateways ensures SummaryOf(db.gateways[k]) in r {
      var i :| 0 <= i < |sorted| && sorted[i] == db.gateways[k];
      assert r[i] == SummaryOf(db.gateways[k]);
    }
    forall i | 0 <= i < |r| ensures r[i].id in db.gateways && r[i] == SummaryOf(db.gateways[r[i].id]) {
      assert sorted[i] in db.gateways.Values;
    }
    r
  }

  // -----------------------------------------------------------------------
  // getFrames (lines 63-85)
  // -----------------------------------------------------------------------

  datatype DeviceRef = DeviceRef(id: Id, name: string, devEui: string)
  datatype GatewayRef = GatewayRef(id: Id, name: string)
  datatype FrameView = FrameView(frame: Frame, device: Option<DeviceRef>, gateway: Option<GatewayRef>)

  function Timestamp(f: Frame): int { f.timestamp }

  /** A frame with the selected columns of its device and gateway; a
      reference to a missing row includes nothing. */
  function ViewOf(f: Frame, devices: map<Id, Device>, gateways: map<Id, Gateway>): (v: FrameView)
    ensures v.frame == f
    ensures v.device.Some? <==> f.deviceId.Some? && f.deviceId.value in devices
    ensures v.device.Some? ==> v.device.value == DeviceRef(f.deviceId.value, devices[f.deviceId.value].name, devices[f.deviceId.value].devEui)
    ensures v.gateway.Some? <==> f.gatewayId.Some? && f.gatewayId.value in gateways
    ensures v.gateway.Some? ==> v.gateway.value == GatewayRef(f.gatewayId.value, gateways[f.gatewayId.value].name)
  {
    FrameView(f,
      if f.deviceId.Some? && f.deviceId.value in devices
      then Some(DeviceRef(f.deviceId.value, devices[f.deviceId.value].name, devices[f.deviceId.value].devEui)) else None,
      if f.gatewayId.Some? && f.gatewayId.value in gateways
      then Some(GatewayRef(f.gatewayId.value, gateways[f.gatewayId.value].name)) else None)
  }

  /** The latest `limit` frames, newest first, as many as `limit` allows:
      no frame left out is newer than one listed. */
  function Latest(frames: map<Id, Frame>, bound: nat, limit: nat): (r: seq<Frame>)
    requires forall k :: k in frames ==> frames[k].id == k && k < bound
    ensures |r| == if limit < |frames| then limit else |frames|
    ensures Descending(r, Timestamp) && Distinct(r)
    ensures forall f :: f in r ==> f in frames.Values
    ensures forall k, i :: (k in frames && frames[k] !in r && 0 <= i < |r|) ==> frames[k].timestamp <= r[i].timestamp
  {
    var any := (f: Frame) => true;
    assert MatchingKeys(frames, bound, any) == frames.Keys;
    assert forall a, b :: a in frames && b in frames && frames[a] == frames[b] ==> a == b;
    NewestWhere(frames, bound, any, Timestamp, limit)
  }

  function FramesOf(views: seq<FrameView>): (r: seq<Frame>)
    ensures |r| == |views| && forall i :: 0 <= i < |r| ==> r[i] == views[i].frame
  {
    seq(|views|, i requires 0 <= i < |views| => views[i].frame)
  }

  /** The `limit = 100` default of `getFrames`. */
  const DefaultFrameLimit := 100

  /** The frames Latest picks, in its order, each with its device and
      gateway; without a limit, the latest hundred. */
  function GetFrames(db: Db, limit: Option<nat>): (r: seq<FrameView>)
    reads db
    requires NetworkValid(db.applications, db.devices, db.gateways, db.frames, db.nextId)
    ensures var take := if limit.Some? then limit.value else DefaultFrameLimit;
            FramesOf(r) == Latest(db.frames, db.nextId, take)
    ensures limit.None? ==> |r| <= DefaultFrameLimit
    ensures forall i :: 0 <= i < |r| ==> r[i] == ViewOf(r[i].frame, db.devices, db.gateways)
  {
    var take := if limit.Some? then limit.value else DefaultFrameLimit;
    var latest := Latest(db.frames, db.nextId, take);
    assert |latest| <= take;
    var devices, gateways := db.devices, db.gateways;
    var r := seq(|latest|, i requires 0 <= i < |latest| => ViewOf(latest[i], devices, gateways));
    assert FramesOf(r) == latest;
    r
  }

  // -----------------------------------------------------------------------
  // getGatewayStats (lines 87-112)
  // -----------------------------------------------------------------------

  datatype GatewayStats = GatewayStats(
    id: Id,
    name: string,
    packets: int,
    uptime: real,
    latency: real,
    errors: int,
    frames: nat)

  /** null for an unknown gateway; otherwise its counters, renamed, and the
      number of frames it relayed. */
  function GetGatewayStats(db: Db, gatewayId: Id): (r: Option<GatewayStats>)
    reads db
    ensures r.None? <==> gatewayId !in db.gateways
    ensures r.Some? ==>
      var g := db.gateways[gatewayId];
      && r.value.id == g.id && r.value.name == g.name
      && r.value.packets == g.packetCount && r.value.errors == g.errorCount
      && r.value.uptime == g.uptime && r.value.latency == g.latency
      && r.value.frames == |set k | k in db.frames && db.frames[k].gatewayId == Some(gatewayId)|
  {
    if gatewayId !in db.gateways then None
    else
      var g := db.gateways[gatewayId];
      Some(GatewayStats(g.id, g.name, g.packetCount, g.uptime, g.latency, g.errorCount, FrameCount(db.frames, gatewayId)))
  }

  /** The frame count getGatewayStats reports is the one getGatewayHealth
      lists for the same gateway. */
  lemma StatsAgreeWithHealth(db: Db, gatewayId: Id)
    requires NetworkValid(db.applications, db.devices, db.gateways, db.frames, db.nextId)
    requires gatewayId in db.gateways
    ensures exists i :: 0 <= i < |GetGatewayHealth(db)| && GetGatewayHealth(db)[i].id == gatewayId
              && GetGatewayHealth(db)[i].frames == GetGatewayStats(db, gatewayId).value.frames
  {
    var g := db.gateways[gatewayId];
    var r := GetGatewayHealth(db);
    assert HealthOf(g, db.frames) in r;
    var i :| 0 <= i < |r| && r[i] == HealthOf(g, db.frames);
  }
}
