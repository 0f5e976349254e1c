/** Device selection of the crate's `new`: every device of every platform is
    visited in enumeration order, and the first one with strictly the most
    compute units wins. A platform is given by the compute-unit counts of its
    devices, so the host is a `seq<seq<nat>>`. */
module DeviceSelection {

  datatype Option<+T> = None | Some(value: T)

  /** A device, by the positions of its platform and of it in that platform. */
  datatype DeviceId = DeviceId(platform: nat, device: nat)

  /** The running best of the scan: the chosen device (`ocl_device`) and its
      count (`compute_units`). */
  datatype Best = Best(device: Option<DeviceId>, units: nat)

  const NOTHING_YET: Best := Best(None, 0)

  predicate IsDevice(host: seq<seq<nat>>, id: DeviceId) {
    id.platform < |host| && id.device < |host[id.platform]|
  }

  /** (p, d) is enumerated before (q, e). */
  predicate Before(p: nat, d: nat, q: nat, e: nat) {
    p < q || (p == q && d < e)
  }

  /** One step of the scan: a device replaces the best only with strictly
      more units. */
  function Consider(best: Best, id: DeviceId, units: nat): (r: Best)
    ensures r.units >= best.units && r.units >= units
    ensures r == best || (units > best.units && r == Best(Some(id), units))
  {
    if units > best.units then Best(Some(id), units) else best
  }

  /** The scan over the devices `devs` of platform p, left to right. It never
      lowers the count, and it either keeps `best` or ends on a device of p
      whose count beats `best`'s and is the result's. */
  function ScanPlatform(best: Best, p: nat, devs: seq<nat>): (r: Best)
    ensures r.units >= best.units
    ensures forall d | 0 <= d < |devs| :: devs[d] <= r.units
    ensures r == best ||
            (r.device.Some? && r.device.value.platform == p && r.device.value.device < |devs| &&
             r.units == devs[r.device.value.device] > best.units)
    decreases |devs|
  {
    if |devs| == 0 then best
    else Consider(ScanPlatform(best, p, devs[..|devs| - 1]), DeviceId(p, |devs| - 1), devs[|devs| - 1])
  }

  /** The scan over every platform of `host`, in order. It has no device
      exactly when its count is 0, and a device it has is a device of `host`
      with exactly that count. */
  function Scan(host: seq<seq<nat>>): (r: Best)
    ensures r.device.None? <==> r.units == 0
    ensures r.device.Some? ==>
              IsDevice(host, r.device.value) && host[r.device.value.platform][r.device.value.device] == r.units
    decreases |host|
  {
    if |host| == 0 then NOTHING_YET
    else ScanPlatform(Scan(host[..|host| - 1]), |host| - 1, host[|host| - 1])
  }

  /** `best` is the outcome of scanning every device of `host` enumerated
      before (p, d): it has the most units among them, it is the first to
      have that many, and it is None exactly when that count is 0. */
  ghost predicate Summarizes(best: Best, host: seq<seq<nat>>, p: nat, d: nat) {
    (best.device.None? <==> best.units == 0) &&
    (forall q, e | 0 <= q < |host| && 0 <= e < |host[q]| && Before(q, e, p, d) ::
       host[q][e] <= best.units) &&
    (best.device.Some? ==>
       var id := best.device.value;
       IsDevice(host, id) && Before(id.platform, id.device, p, d) &&
       host[id.platform][id.device] == best.units &&
       forall q, e | 0 <= q < |host| && 0 <= e < |host[q]| && Before(q, e, id.platform, id.device) ::
         host[q][e] < best.units)
  }

  lemma ConsiderStep(best: Best, host: seq<seq<nat>>, p: nat, d: nat)
    requires p < |host| && d < |host[p]|
    requires Summarizes(best, host, p, d)
    ensures Summarizes(Consider(best, DeviceId(p, d), host[p][d]), host, p, d + 1)
  {
  }

  lemma {:induction false} ScanPlatformSummarizes(best: Best, host: seq<seq<nat>>, p: nat, d: nat)
    requires p < |host| && d <= |host[p]|
    requires Summarizes(best, host, p, 0)
    ensures Summarizes(ScanPlatform(best, p, host[p][..d]), host, p, d)
  {
    if d > 0 {
      assert host[p][..d][..d - 1] == host[p][..d - 1];
      ScanPlatformSummarizes(best, host, p, d - 1);
      ConsiderStep(ScanPlatform(best, p, host[p][..d - 1]), host, p, d - 1);
    }
  }

  lemma {:induction false} ScanSummarizes(host: seq<seq<nat>>, p: nat)
    requires p <= |host|
    ensures Summarizes(Scan(host[..p]), host, p, 0)
  {
    if p > 0 {
      ScanSummarizes(host, p - 1);
      assert host[..p][..p - 1] == host[..p - 1];
      ScanPlatformSummarizes(Scan(host[..p - 1]), host, p - 1, |host[p - 1]|);
      assert host[p - 1][..|host[p - 1]|] == host[p - 1];
    }
  }

  lemma ScanAll(host: seq<seq<nat>>)
    ensures Summarizes(Scan(host), host, |host|, 0)
  {
    ScanSummarizes(host, |host|);
    assert host[..|host|] == host;
  }

  /** No device of the host has more compute units than the scan's result. */
  lemma {:induction false} BestIsMaximum(host: seq<seq<nat>>)
    ensures forall p, d | 0 <= p < |host| && 0 <= d < |host[p]| :: host[p][d] <= Scan(host).units
    ensures Scan(host).units > 0 ==>
              Scan(host).device.Some? && IsDevice(host, Scan(host).device.value) &&
              host[Scan(host).device.value.platform][Scan(host).device.value.device] == Scan(host).units
  {
    ScanAll(host);
  }

  /** On a tie the earliest-enumerated device is kept: every device before
      the chosen one has strictly fewer compute units. */
  lemma BestIsEarliest(host: seq<seq<nat>>)
    ensures Scan(host).device.Some? ==>
              forall p, d | 0 <= p < |host| && 0 <= d < |host[p]| &&
                            Before(p, d, Scan(host).device.value.platform, Scan(host).device.value.device) ::
                host[p][d] < Scan(host).units
  {
    ScanAll(host);
  }

  /** The scan ends with 0 units (and no device) exactly when no device has
      a positive count, as when there are no platforms or no devices. */
  lemma {:induction false} NoDeviceIffAllZero(host: seq<seq<nat>>)
    ensures Scan(host).units == 0 <==> forall p, d | 0 <= p < |host| && 0 <= d < |host[p]| :: host[p][d] == 0
    ensures Scan(host).units == 0 <==> Scan(host).device.None?
  {
    ScanAll(host);
  }

  /** The nested loop of `new` over platforms and their devices, with the
      accumulators `compute_units` and `ocl_device`. */
  method SelectDevice(host: seq<seq<nat>>) returns (best: Best)
    ensures best == Scan(host)
  {
    var computeUnits: nat := 0;
    var oclDevice: Option<DeviceId> := None;
    for p := 0 to |host|
      invariant Best(oclDevice, computeUnits) == Scan(host[..p])
    {
      var devices := host[p];
      for d := 0 to |devices|
        invariant Best(oclDevice, computeUnits) == ScanPlatform(Scan(host[..p]), p, devices[..d])
      {
        var units := devices[d];
        if units > computeUnits {
          oclDevice := Some(DeviceId(p, d));
          computeUnits := units;
        }
        assert devices[..d + 1][..d] == devices[..d];
      }
      assert devices[..|devices|] == devices;
      assert host[..p + 1][..p] == host[..p];
    }
    assert host[..|host|] == host;
    best := Best(oclDevice, computeUnits);
  }
}
