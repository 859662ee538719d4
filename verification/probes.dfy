/**
 Reachability probes and the first-success scan over an address list that both the
 network monitor's tick and the settings screen's connection test perform. The probe
 itself (ICMP echo, HTTP GET, TCP connect) is an oracle `probe: ProbeRequest -> bool`.
 */
module Probes {
  import opened Wrappers

  /** One call of `TestPingAsync`, `TestHttpAsync` or `TestTcpAsync`, with its arguments. */
  datatype ProbeRequest =
    | Ping(address: string, timeoutMs: int)
    | Http(url: string, timeoutMs: int)
    | Tcp(address: string, port: int, timeoutMs: int)

  /** The `CheckType` selector with the port and timeout a probe is issued with. */
  datatype ProbeConfig = ProbeConfig(checkType: string, port: int, timeoutMs: int)

  predicate KnownCheckType(checkType: string) {
    checkType == "Ping" || checkType == "HTTP" || checkType == "TCP"
  }

  /** The `switch (CheckType)`: the probe issued for `address`, or None when no case
      matches and the result stays false. */
  function RequestFor(cfg: ProbeConfig, address: string): (r: Option<ProbeRequest>)
    ensures r.Some? <==> KnownCheckType(cfg.checkType)
    ensures r.Some? ==> r.value.timeoutMs == cfg.timeoutMs
    ensures r.Some? && r.value.Tcp? ==> r.value.port == cfg.port
    ensures r.Some? ==> if r.value.Http? then r.value.url == address else r.value.address == address
  {
    match cfg.checkType
    case "Ping" => Some(Ping(address, cfg.timeoutMs))
    case "HTTP" => Some(Http(address, cfg.timeoutMs))
    case "TCP" => Some(Tcp(address, cfg.port, cfg.timeoutMs))
    case _ => None
  }

  /** The probe for `address` is issued and answers true. */
  predicate Reaches(cfg: ProbeConfig, probe: ProbeRequest -> bool, address: string) {
    var q := RequestFor(cfg, address);
    q.Some? && probe(q.value)
  }

  /** The outcome of one scan: the probes issued, how many addresses the loop
      visited, and the address that answered, if any. */
  datatype Scan = Scan(issued: seq<ProbeRequest>, visited: nat, reached: Option<string>)

  /** The `foreach` with `break` on the first success. */
  function ScanAddresses(cfg: ProbeConfig, probe: ProbeRequest -> bool, addresses: seq<string>): (r: Scan)
    ensures r.visited <= |addresses|
    ensures r.reached.None? ==> r.visited == |addresses|
    ensures r.reached.Some? ==>
      0 < r.visited && r.reached.value == addresses[r.visited - 1] && Reaches(cfg, probe, r.reached.value)
    ensures KnownCheckType(cfg.checkType) ==> |r.issued| == r.visited
    ensures !KnownCheckType(cfg.checkType) ==> r.issued == [] && r.reached.None?
  {
    if addresses == [] then Scan([], 0, None)
    else
      var q := RequestFor(cfg, addresses[0]);
      if q.Some? && probe(q.value) then Scan([q.value], 1, Some(addresses[0]))
      else
        var rest := ScanAddresses(cfg, probe, addresses[1..]);
        Scan((if q.Some? then [q.value] else []) + rest.issued, rest.visited + 1, rest.reached)
  }

  /** The scan probes the visited addresses in order, one probe each, and every
      visited address before the last one failed: nothing after the first success
      is probed. */
  lemma {:induction false} ScanIsFirstSuccess(cfg: ProbeConfig, probe: ProbeRequest -> bool, addresses: seq<string>)
    requires KnownCheckType(cfg.checkType)
    ensures var r := ScanAddresses(cfg, probe, addresses);
      && (forall i :: 0 <= i < r.visited ==> Some(r.issued[i]) == RequestFor(cfg, addresses[i]))
      && (forall i :: 0 <= i < r.visited - 1 ==> !Reaches(cfg, probe, addresses[i]))
      && (r.reached.None? ==> forall i :: 0 <= i < |addresses| ==> !Reaches(cfg, probe, addresses[i]))
  {
    if addresses != [] {
      var q := RequestFor(cfg, addresses[0]);
      if !probe(q.value) {
        ScanIsFirstSuccess(cfg, probe, addresses[1..]);
        var r := ScanAddresses(cfg, probe, addresses);
        var rest := ScanAddresses(cfg, probe, addresses[1..]);
        assert r.issued == [q.value] + rest.issued;
        assert forall i :: 1 <= i < r.visited ==> r.issued[i] == rest.issued[i - 1];
        assert forall i :: 1 <= i < |addresses| ==> addresses[i] == addresses[1..][i - 1];
      }
    }
  }

  /** Some address is reached exactly when some address of the list answers. */
  lemma {:induction false} ScanFindsAny(cfg: ProbeConfig, probe: ProbeRequest -> bool, addresses: seq<string>)
    ensures ScanAddresses(cfg, probe, addresses).reached.Some?
        <==> exists i :: 0 <= i < |addresses| && Reaches(cfg, probe, addresses[i])
  {
    if addresses != [] && !Reaches(cfg, probe, addresses[0]) {
      ScanFindsAny(cfg, probe, addresses[1..]);
      if exists i :: 0 <= i < |addresses| && Reaches(cfg, probe, addresses[i]) {
        var i :| 0 <= i < |addresses| && Reaches(cfg, probe, addresses[i]);
        assert addresses[1..][i - 1] == addresses[i];
      }
    } else if addresses != [] {
      assert Reaches(cfg, probe, addresses[0]);
    }
  }
}
