/** The board: the devices and signals built from a saved scheme. Opening a
    scheme constructs one device per device descriptor and, for every connection
    descriptor, one signal registered on the two devices it joins. */
module Board {
  import opened Wrappers
  import LogicModules

  // ---------------------------------------------------------------------------
  // The scheme, as the client sends it

  /** `{"device": <type reference>, "uuid": <id>}` */
  datatype DeviceDescriptor = DeviceDescriptor(device: string, uuid: string)

  /** `{"device_uuid": <id>, "port": <port label>}` */
  datatype Endpoint = Endpoint(deviceUuid: string, port: string)

  /** `{"signal": <type reference>, "conn": [<endpoint>, ...]}` */
  datatype ConnectionDescriptor = ConnectionDescriptor(signal: string, conn: seq<Endpoint>)

  /** The scheme dictionary; a key that is absent is `None`. */
  datatype Scheme = Scheme(devices: Option<seq<DeviceDescriptor>>, connections: Option<seq<ConnectionDescriptor>>)

  /** Why `open_scheme` stops: the catalogue manager was never registered, a
      top-level key is missing, a type reference cannot be resolved, a
      connection has fewer than two endpoints, or a uuid does not name exactly
      one device. */
  datatype BoardError =
    | ManagerNotRegistered
    | MissingKey(key: string)
    | TypeNotFound(typeRef: string)
    | IndexOutOfRange
    | DeviceNotFound(uuid: string)

  // ---------------------------------------------------------------------------
  // The objects on the board

  /** A signal instance; only its type is observed. */
  class Signal {
    const typeRef: string

    constructor (typeRef: string)
      ensures this.typeRef == typeRef
    {
      this.typeRef := typeRef;
    }
  }

  /** One `register_signal` call a device received: the port and the signal. */
  datatype Binding = Binding(portLabel: string, signal: Signal)

  /** A device instance: its type, its uuid, and the signals registered on its
      ports in the order they were registered. */
  class Device {
    const typeRef: string
    const uuid: string
    var bindings: seq<Binding>

    constructor (typeRef: string, uuid: string)
      ensures this.typeRef == typeRef && this.uuid == uuid && bindings == []
    {
      this.typeRef := typeRef;
      this.uuid := uuid;
      bindings := [];
    }

    /** `register_signal(signal=..., port_label=...)` */
    method RegisterSignal(signal: Signal, portLabel: string)
      modifies this
      ensures bindings == old(bindings) + [Binding(portLabel, signal)]
    {
      bindings := bindings + [Binding(portLabel, signal)];
    }
  }

  // ---------------------------------------------------------------------------
  // Looking a device up by uuid

  /** The indices whose key is `u`, in increasing order: the list comprehension
      that `get_device` filters with. */
  function Matches(keys: seq<string>, u: string): (r: seq<nat>)
    ensures forall m :: 0 <= m < |r| ==> r[m] < |keys| && keys[r[m]] == u
    ensures forall j :: 0 <= j < |keys| && keys[j] == u ==> j in r
    ensures forall a, b :: 0 <= a < b < |r| ==> r[a] < r[b]
    decreases |keys|
  {
    if |keys| == 0 then []
    else
      var prev := Matches(keys[..|keys| - 1], u);
      if keys[|keys| - 1] == u then prev + [|keys| - 1] else prev
  }

  /** The one index whose key is `u`; none when there is no match or several. */
  function FindUnique(keys: seq<string>, u: string): (r: Option<nat>)
    ensures r.Some? ==> r.value < |keys| && keys[r.value] == u
    ensures r.Some? ==> forall j :: 0 <= j < |keys| && keys[j] == u ==> j == r.value
  {
    var m := Matches(keys, u);
    if |m| == 1 then Some(m[0]) else None
  }

  /** A key that occurs nowhere has no matches. */
  lemma {:induction false} MatchesNone(keys: seq<string>, u: string)
    requires forall j :: 0 <= j < |keys| ==> keys[j] != u
    ensures Matches(keys, u) == []
    decreases |keys|
  {
    if |keys| > 0 {
      MatchesNone(keys[..|keys| - 1], u);
    }
  }

  /** A key that occurs exactly once, at `i`, has the single match `i`. */
  lemma {:induction false} MatchesSingle(keys: seq<string>, u: string, i: nat)
    requires i < |keys| && keys[i] == u
    requires forall j :: 0 <= j < |keys| && keys[j] == u ==> j == i
    ensures Matches(keys, u) == [i]
    decreases |keys|
  {
    var prefix := keys[..|keys| - 1];
    if i == |keys| - 1 {
      MatchesNone(prefix, u);
    } else {
      MatchesSingle(prefix, u, i);
    }
  }

  /** A lookup fails exactly when the uuid names no device or more than one. */
  lemma FindUniqueExactlyOne(keys: seq<string>, u: string)
    ensures FindUnique(keys, u).Some? <==>
            exists i :: 0 <= i < |keys| && keys[i] == u && forall j :: 0 <= j < |keys| && keys[j] == u ==> j == i
  {
    if exists i :: 0 <= i < |keys| && keys[i] == u && forall j :: 0 <= j < |keys| && keys[j] == u ==> j == i {
      var i :| 0 <= i < |keys| && keys[i] == u && forall j :: 0 <= j < |keys| && keys[j] == u ==> j == i;
      MatchesSingle(keys, u, i);
    }
  }

  // ---------------------------------------------------------------------------
  // What opening a scheme does, as values

  /** The uuids of the descriptors, in order. */
  function Uuids(descs: seq<DeviceDescriptor>): seq<string> {
    seq(|descs|, k requires 0 <= k < |descs| => descs[k].uuid)
  }

  /** How many descriptors, from the front, have a type the resolver knows:
      the devices constructed before the first failing lookup. */
  function ResolvedPrefix(descs: seq<DeviceDescriptor>, known: set<string>): (n: nat)
    ensures n <= |descs|
    ensures forall k :: 0 <= k < n ==> descs[k].device in known
    ensures n < |descs| ==> descs[n].device !in known
    decreases |descs|
  {
    if |descs| == 0 || descs[0].device !in known then 0
    else 1 + ResolvedPrefix(descs[1..], known)
  }

  /** A wired connection: the indices of the two devices it joins and the
      port on each. */
  datatype Link = Link(device1: nat, port1: string, device2: nat, port2: string)

  /** Wiring one connection: the signal type is resolved first, then each
      endpoint is read and looked up in turn. Yields the two device indices. */
  function ConnectStep(uuids: seq<string>, c: ConnectionDescriptor, known: set<string>): (r: Result<(nat, nat), BoardError>)
    ensures r.Ok? ==> c.signal in known && |c.conn| >= 2
    ensures r.Ok? ==> FindUnique(uuids, c.conn[0].deviceUuid) == Some(r.value.0)
    ensures r.Ok? ==> FindUnique(uuids, c.conn[1].deviceUuid) == Some(r.value.1)
    ensures r.Err? && c.signal in known && |c.conn| >= 2 ==>
              r.error.DeviceNotFound? &&
              (FindUnique(uuids, c.conn[0].deviceUuid).None? || FindUnique(uuids, c.conn[1].deviceUuid).None?)
  {
    if c.signal !in known then Err(TypeNotFound(c.signal))
    else if |c.conn| < 1 then Err(IndexOutOfRange)
    else match FindUnique(uuids, c.conn[0].deviceUuid)
      case None => Err(DeviceNotFound(c.conn[0].deviceUuid))
      case Some(i) =>
        if |c.conn| < 2 then Err(IndexOutOfRange)
        else match FindUnique(uuids, c.conn[1].deviceUuid)
          case None => Err(DeviceNotFound(c.conn[1].deviceUuid))
          case Some(j) => Ok((i, j))
  }

  /** The connections wired, in order, and the error that stopped the wiring, if any. */
  datatype Wiring = Wiring(links: seq<Link>, error: Option<BoardError>)

  /** Wiring the connections in order; the first failing one stops the loop
      and the connections already wired stay wired. */
  function Wire(uuids: seq<string>, conns: seq<ConnectionDescriptor>, known: set<string>): (w: Wiring)
    ensures |w.links| <= |conns|
    ensures w.error.None? ==> |w.links| == |conns|
    ensures forall s :: 0 <= s < |w.links| ==> w.links[s].device1 < |uuids| && w.links[s].device2 < |uuids|
    decreases |conns|
  {
    if |conns| == 0 then Wiring([], None)
    else
      var prev := Wire(uuids, conns[..|conns| - 1], known);
      if prev.error.Some? then prev
      else
        var c := conns[|conns| - 1];
        match ConnectStep(uuids, c, known)
        case Err(e) => Wiring(prev.links, Some(e))
        case Ok((i, j)) => Wiring(prev.links + [Link(i, c.conn[0].port, j, c.conn[1].port)], None)
  }

  /** Once a prefix of the connections fails, the rest is never looked at. */
  lemma {:induction false} WirePrefixFailed(uuids: seq<string>, conns: seq<ConnectionDescriptor>, known: set<string>, n: nat)
    requires n <= |conns|
    requires Wire(uuids, conns[..n], known).error.Some?
    ensures Wire(uuids, conns, known) == Wire(uuids, conns[..n], known)
    decreases |conns| - n
  {
    if n < |conns| {
      var init := conns[..|conns| - 1];
      assert init[..n] == conns[..n];
      WirePrefixFailed(uuids, init, known, n);
    } else {
      assert conns[..n] == conns;
    }
  }

  /** Wiring one more connection that succeeds extends the links. */
  lemma WireSnocOk(uuids: seq<string>, conns: seq<ConnectionDescriptor>, known: set<string>, s: nat, links: seq<Link>, link: Link)
    requires s < |conns| && Wire(uuids, conns[..s], known) == Wiring(links, None)
    requires ConnectStep(uuids, conns[s], known) == Ok((link.device1, link.device2))
    requires link.port1 == conns[s].conn[0].port && link.port2 == conns[s].conn[1].port
    ensures Wire(uuids, conns[..s + 1], known) == Wiring(links + [link], None)
  {
    assert conns[..s + 1][..s] == conns[..s];
  }

  /** A connection that fails ends the wiring with its error. */
  lemma WireSnocErr(uuids: seq<string>, conns: seq<ConnectionDescriptor>, known: set<string>, s: nat, links: seq<Link>)
    requires s < |conns| && Wire(uuids, conns[..s], known) == Wiring(links, None)
    requires ConnectStep(uuids, conns[s], known).Err?
    ensures Wire(uuids, conns, known) == Wiring(links, Some(ConnectStep(uuids, conns[s], known).error))
  {
    assert conns[..s + 1][..s] == conns[..s];
    WirePrefixFailed(uuids, conns, known, s + 1);
  }

  /** Wiring, characterised connection by connection: every connection before
      the stopping point was wired to the devices its endpoints name, on the
      ports they name; the wiring stops at the first connection that fails,
      with that connection's error, or runs to the end. */
  lemma WireStopsAtFirstFailure(uuids: seq<string>, conns: seq<ConnectionDescriptor>, known: set<string>)
    ensures var w := Wire(uuids, conns, known);
            forall s :: 0 <= s < |w.links| ==>
              ConnectStep(uuids, conns[s], known) == Ok((w.links[s].device1, w.links[s].device2)) &&
              w.links[s].port1 == conns[s].conn[0].port &&
              w.links[s].port2 == conns[s].conn[1].port
    ensures var w := Wire(uuids, conns, known);
            w.error.Some? ==> |w.links| < |conns| && ConnectStep(uuids, conns[|w.links|], known) == Err(w.error.value)
  {
    WireLinksFollowSteps(uuids, conns, known);
    WireErrorIsFirstFailure(uuids, conns, known);
    assert FollowSteps(uuids, conns, known, Wire(uuids, conns, known).links);
  }

  /** Each of `links` is the wiring its connection's step yields. */
  predicate FollowSteps(uuids: seq<string>, conns: seq<ConnectionDescriptor>, known: set<string>, links: seq<Link>) {
    |links| <= |conns| &&
    forall s :: 0 <= s < |links| ==>
      ConnectStep(uuids, conns[s], known) == Ok((links[s].device1, links[s].device2)) &&
      links[s].port1 == conns[s].conn[0].port && links[s].port2 == conns[s].conn[1].port
  }

  /** Wiring one more connection as its step says extends a wiring that follows the steps. */
  lemma FollowStepsSnoc(uuids: seq<string>, conns: seq<ConnectionDescriptor>, known: set<string>, links: seq<Link>, link: Link)
    requires |conns| > 0 && |links| == |conns| - 1
    requires FollowSteps(uuids, conns[..|conns| - 1], known, links)
    requires ConnectStep(uuids, conns[|conns| - 1], known) == Ok((link.device1, link.device2))
    requires link.port1 == conns[|conns| - 1].conn[0].port && link.port2 == conns[|conns| - 1].conn[1].port
    ensures FollowSteps(uuids, conns, known, links + [link])
  {
    var links' := links + [link];
    forall s | 0 <= s < |links'|
      ensures ConnectStep(uuids, conns[s], known) == Ok((links'[s].device1, links'[s].device2))
      ensures links'[s].port1 == conns[s].conn[0].port && links'[s].port2 == conns[s].conn[1].port
    {
      if s < |links| {
        assert links'[s] == links[s] && conns[s] == conns[..|conns| - 1][s];
      }
    }
  }

  /** A wiring that follows the steps of some connections follows them in any longer list. */
  lemma FollowStepsExtend(uuids: seq<string>, conns: seq<ConnectionDescriptor>, known: set<string>, n: nat, links: seq<Link>)
    requires n <= |conns| && FollowSteps(uuids, conns[..n], known, links)
    ensures FollowSteps(uuids, conns, known, links)
  {
    assert forall s :: 0 <= s < n ==> conns[..n][s] == conns[s];
  }

  /** Wiring the last connection keeps the links following their steps. */
  lemma WireStepFollows(uuids: seq<string>, conns: seq<ConnectionDescriptor>, known: set<string>)
    requires |conns| > 0
    requires FollowSteps(uuids, conns[..|conns| - 1], known, Wire(uuids, conns[..|conns| - 1], known).links)
    ensures FollowSteps(uuids, conns, known, Wire(uuids, conns, known).links)
  {
    var n := |conns| - 1;
    var prev := Wire(uuids, conns[..n], known);
    if prev.error.Some? {
      WirePrefixFailed(uuids, conns, known, n);
      FollowStepsExtend(uuids, conns, known, n, prev.links);
    } else if ConnectStep(uuids, conns[n], known).Err? {
      WireSnocErr(uuids, conns, known, n, prev.links);
      FollowStepsExtend(uuids, conns, known, n, prev.links);
    } else {
      WireLastOkFollows(uuids, conns, known, prev.links);
    }
  }

  /** The case of `WireStepFollows` where the last connection is wired. */
  lemma WireLastOkFollows(uuids: seq<string>, conns: seq<ConnectionDescriptor>, known: set<string>, links: seq<Link>)
    requires |conns| > 0
    requires Wire(uuids, conns[..|conns| - 1], known) == Wiring(links, None)
    requires FollowSteps(uuids, conns[..|conns| - 1], known, links)
    requires ConnectStep(uuids, conns[|conns| - 1], known).Ok?
    ensures FollowSteps(uuids, conns, known, Wire(uuids, conns, known).links)
  {
    var n := |conns| - 1;
    var step := ConnectStep(uuids, conns[n], known).value;
    var link := Link(step.0, conns[n].conn[0].port, step.1, conns[n].conn[1].port);
    assert Wire(uuids, conns, known) == Wiring(links + [link], None);
    FollowStepsSnoc(uuids, conns, known, links, link);
  }

  /** Every wired connection is wired as its own step says. */
  lemma {:induction false} WireLinksFollowSteps(uuids: seq<string>, conns: seq<ConnectionDescriptor>, known: set<string>)
    ensures FollowSteps(uuids, conns, known, Wire(uuids, conns, known).links)
    decreases |conns|
  {
    if |conns| > 0 {
      WireLinksFollowSteps(uuids, conns[..|conns| - 1], known);
      WireStepFollows(uuids, conns, known);
    }
  }

  /** The wiring stops with the error of the first connection that fails. */
  lemma {:induction false} WireErrorIsFirstFailure(uuids: seq<string>, conns: seq<ConnectionDescriptor>, known: set<string>)
    ensures var w := Wire(uuids, conns, known);
            w.error.Some? ==> |w.links| < |conns| && ConnectStep(uuids, conns[|w.links|], known) == Err(w.error.value)
    decreases |conns|
  {
    if |conns| > 0 {
      var n := |conns| - 1;
      var init := conns[..n];
      WireErrorIsFirstFailure(uuids, init, known);
      var prev := Wire(uuids, init, known);
      if prev.error.Some? {
        WirePrefixFailed(uuids, conns, known, n);
        assert conns[|prev.links|] == init[|prev.links|];
      } else if ConnectStep(uuids, conns[n], known).Err? {
        WireSnocErr(uuids, conns, known, n, prev.links);
      } else {
        var step := ConnectStep(uuids, conns[n], known).value;
        var link := Link(step.0, conns[n].conn[0].port, step.1, conns[n].conn[1].port);
        WireSnocOk(uuids, conns, known, n, prev.links, link);
        assert conns[..n + 1] == conns;
      }
    }
  }

  /** The devices constructed, the connections wired, and the error, if any. */
  datatype Loaded = Loaded(devices: seq<DeviceDescriptor>, links: seq<Link>, error: Option<BoardError>)

  /** Opening a scheme. `managerRegistered` says whether the catalogue manager
      is in the registry; `known` is the set of type references it can resolve.
      Nothing is rolled back: a failure keeps what was built before it, so once
      every device type resolves, every device stays on the board even when a
      connection fails or the `connections` key is missing. */
  function Load(scheme: Scheme, managerRegistered: bool, known: set<string>): (l: Loaded)
    ensures scheme.devices.Some? ==>
              |l.devices| <= |scheme.devices.value| && l.devices == scheme.devices.value[..|l.devices|]
    ensures scheme.devices.None? ==> l.devices == [] && l.links == []
    ensures forall k :: 0 <= k < |l.devices| ==> l.devices[k].device in known
    ensures l.links != [] ==> scheme.devices.Some? && l.devices == scheme.devices.value
    ensures managerRegistered && scheme.devices.Some? &&
            ResolvedPrefix(scheme.devices.value, known) == |scheme.devices.value| ==>
              l.devices == scheme.devices.value
    ensures l.error.None? <==>
              managerRegistered && scheme.devices.Some? && scheme.connections.Some? &&
              l.devices == scheme.devices.value && |l.links| == |scheme.connections.value|
    ensures forall s :: 0 <= s < |l.links| ==> l.links[s].device1 < |l.devices| && l.links[s].device2 < |l.devices|
  {
    if !managerRegistered then Loaded([], [], Some(ManagerNotRegistered))
    else match scheme.devices
      case None => Loaded([], [], Some(MissingKey("devices")))
      case Some(descs) =>
        var n := ResolvedPrefix(descs, known);
        if n < |descs| then Loaded(descs[..n], [], Some(TypeNotFound(descs[n].device)))
        else match scheme.connections
          case None => Loaded(descs, [], Some(MissingKey("connections")))
          case Some(conns) =>
            var w := Wire(Uuids(descs), conns, known);
            Loaded(descs, w.links, w.error)
  }

  /** The first descriptor whose type cannot be resolved stops the load before
      any connection is wired, and every descriptor before it was built. */
  lemma LoadStopsAtUnknownType(scheme: Scheme, known: set<string>, n: nat)
    requires scheme.devices.Some? && n < |scheme.devices.value|
    requires scheme.devices.value[n].device !in known
    requires forall k :: 0 <= k < n ==> scheme.devices.value[k].device in known
    ensures Load(scheme, true, known) ==
            Loaded(scheme.devices.value[..n], [], Some(TypeNotFound(scheme.devices.value[n].device)))
  {
    assert ResolvedPrefix(scheme.devices.value, known) == n;
  }

  /** The `register_signal` calls one device received, in order, each as the
      port label and the number of the connection whose signal it carries. */
  function Received(links: seq<Link>, k: nat): (r: seq<(string, nat)>)
    ensures forall m :: 0 <= m < |r| ==> r[m].1 < |links|
    decreases |links|
  {
    if |links| == 0 then []
    else
      var s := |links| - 1;
      var l := links[s];
      Received(links[..s], k)
        + (if l.device1 == k then [(l.port1, s)] else [])
        + (if l.device2 == k then [(l.port2, s)] else [])
  }

  /** Both ends of every wired connection received its signal. */
  lemma {:induction false} ReceivedComplete(links: seq<Link>, s: nat)
    requires s < |links|
    ensures (links[s].port1, s) in Received(links, links[s].device1)
    ensures (links[s].port2, s) in Received(links, links[s].device2)
    decreases |links|
  {
    if s < |links| - 1 {
      ReceivedComplete(links[..|links| - 1], s);
    }
  }

  /** The type of each signal, in order. */
  function TypesOf(signals: seq<Signal>): (r: seq<string>)
    ensures |r| == |signals|
    decreases |signals|
  {
    if |signals| == 0 then [] else TypesOf(signals[..|signals| - 1]) + [signals[|signals| - 1].typeRef]
  }

  /** The signal type each connection names, in order. */
  function SignalTypes(conns: seq<ConnectionDescriptor>): (r: seq<string>)
    ensures |r| == |conns|
    decreases |conns|
  {
    if |conns| == 0 then [] else SignalTypes(conns[..|conns| - 1]) + [conns[|conns| - 1].signal]
  }

  /** Equal type lists: each signal has the type its connection names. */
  lemma {:induction false} TypesAgree(signals: seq<Signal>, conns: seq<ConnectionDescriptor>)
    requires TypesOf(signals) == SignalTypes(conns)
    ensures |signals| == |conns|
    ensures forall t :: 0 <= t < |signals| ==> signals[t].typeRef == conns[t].signal
    decreases |signals|
  {
    if |signals| > 0 {
      var n := |signals| - 1;
      assert TypesOf(signals) == TypesOf(signals[..n]) + [signals[n].typeRef];
      assert SignalTypes(conns) == SignalTypes(conns[..n]) + [conns[n].signal];
      assert TypesOf(signals[..n]) == TypesOf(signals)[..n];
      TypesAgree(signals[..n], conns[..n]);
    }
  }

  /** One more signal, of the type the next connection names, keeps the two lists in step. */
  lemma TypesSnoc(signals: seq<Signal>, signal: Signal, conns: seq<ConnectionDescriptor>, s: nat)
    requires s < |conns| && TypesOf(signals) == SignalTypes(conns[..s])
    requires signal.typeRef == conns[s].signal
    ensures TypesOf(signals + [signal]) == SignalTypes(conns[..s + 1])
  {
    assert (signals + [signal])[..|signals|] == signals;
    assert conns[..s + 1][..s] == conns[..s];
  }

  /** A device's bindings are exactly the calls it received, with connection
      numbers read as the signal objects created for them. */
  ghost predicate BoundAs(bs: seq<Binding>, rs: seq<(string, nat)>, signals: seq<Signal>) {
    |bs| == |rs| &&
    forall m :: 0 <= m < |bs| ==>
      bs[m].portLabel == rs[m].0 && rs[m].1 < |signals| && bs[m].signal == signals[rs[m].1]
  }

  /** Registering the newest signal on a device extends its bindings in step with its calls. */
  lemma BoundAsExtend(bs: seq<Binding>, rs: seq<(string, nat)>, signals: seq<Signal>, signal: Signal,
                      moreBs: seq<Binding>, moreRs: seq<(string, nat)>)
    requires BoundAs(bs, rs, signals)
    requires |moreBs| == |moreRs|
    requires forall m :: 0 <= m < |moreBs| ==> moreBs[m] == Binding(moreRs[m].0, signal) && moreRs[m].1 == |signals|
    ensures BoundAs(bs + moreBs, rs + moreRs, signals + [signal])
  {
    var signals' := signals + [signal];
    forall m | 0 <= m < |bs + moreBs|
      ensures (bs + moreBs)[m].portLabel == (rs + moreRs)[m].0
      ensures (rs + moreRs)[m].1 < |signals'| && (bs + moreBs)[m].signal == signals'[(rs + moreRs)[m].1]
    {
      if m >= |bs| {
        assert (bs + moreBs)[m] == moreBs[m - |bs|];
        assert (rs + moreRs)[m] == moreRs[m - |bs|];
      }
    }
  }

  /** The bindings of every device after the signal of `link` was registered on both its ends. */
  function Extended(before: seq<seq<Binding>>, link: Link, signal: Signal): (after: seq<seq<Binding>>)
    ensures |after| == |before|
  {
    seq(|before|, k requires 0 <= k < |before| =>
      before[k]
        + ((if k == link.device1 then [Binding(link.port1, signal)] else [])
           + (if k == link.device2 then [Binding(link.port2, signal)] else [])))
  }

  /** The calls a device has received after one more connection is wired. */
  lemma ReceivedSnoc(links: seq<Link>, link: Link, k: nat)
    ensures Received(links + [link], k) ==
            Received(links, k)
              + ((if link.device1 == k then [(link.port1, |links|)] else [])
                 + (if link.device2 == k then [(link.port2, |links|)] else []))
  {
    assert (links + [link])[..|links|] == links;
  }

  /** Wiring one more connection keeps a device's bindings in step with its calls. */
  lemma WireStepBound(bs: seq<Binding>, links: seq<Link>, link: Link, signals: seq<Signal>, signal: Signal, k: nat)
    requires |signals| == |links|
    requires BoundAs(bs, Received(links, k), signals)
    ensures BoundAs(bs + ((if k == link.device1 then [Binding(link.port1, signal)] else [])
                          + (if k == link.device2 then [Binding(link.port2, signal)] else [])),
                    Received(links + [link], k), signals + [signal])
  {
    ReceivedSnoc(links, link, k);
    var b1 := if k == link.device1 then [Binding(link.port1, signal)] else [];
    var b2 := if k == link.device2 then [Binding(link.port2, signal)] else [];
    var r1: seq<(string, nat)> := if k == link.device1 then [(link.port1, |links|)] else [];
    var r2: seq<(string, nat)> := if k == link.device2 then [(link.port2, |links|)] else [];
    BoundAsExtend(bs, Received(links, k), signals, signal, b1 + b2, r1 + r2);
  }

  /** Every device's bindings are in step with its calls. */
  ghost predicate AllBound(bindings: seq<seq<Binding>>, links: seq<Link>, signals: seq<Signal>) {
    forall k :: 0 <= k < |bindings| ==> BoundAs(bindings[k], Received(links, k), signals)
  }

  /** Wiring one more connection keeps the whole board in step. */
  lemma WireStepAllBound(before: seq<seq<Binding>>, links: seq<Link>, link: Link, signals: seq<Signal>, signal: Signal)
    requires |signals| == |links|
    requires AllBound(before, links, signals)
    ensures AllBound(Extended(before, link, signal), links + [link], signals + [signal])
  {
    forall k | 0 <= k < |before|
      ensures BoundAs(Extended(before, link, signal)[k], Received(links + [link], k), signals + [signal])
    {
      WireStepBound(before[k], links, link, signals, signal, k);
    }
  }

  /** A wired connection joins its two endpoint devices through one shared
      signal: each device holds a binding of that signal on its own port. */
  lemma ConnectionShared(bindings: seq<seq<Binding>>, links: seq<Link>, signals: seq<Signal>, s: nat)
    requires s < |links|
    requires links[s].device1 < |bindings| && links[s].device2 < |bindings|
    requires forall k :: 0 <= k < |bindings| ==> BoundAs(bindings[k], Received(links, k), signals)
    ensures s < |signals|
    ensures Binding(links[s].port1, signals[s]) in bindings[links[s].device1]
    ensures Binding(links[s].port2, signals[s]) in bindings[links[s].device2]
  {
    ReceivedComplete(links, s);
    var l := links[s];
    var r1, r2 := Received(links, l.device1), Received(links, l.device2);
    var m1 :| 0 <= m1 < |r1| && r1[m1] == (l.port1, s);
    var m2 :| 0 <= m2 < |r2| && r2[m2] == (l.port2, s);
    assert bindings[l.device1][m1] == Binding(l.port1, signals[s]);
    assert bindings[l.device2][m2] == Binding(l.port2, signals[s]);
  }

  /** No signal object serves two connections. */
  ghost predicate DistinctSignals(signals: seq<Signal>) {
    forall a, b :: 0 <= a < b < |signals| ==> signals[a] != signals[b]
  }

  /** A signal different from every earlier one keeps the list distinct. */
  lemma DistinctSignalsSnoc(signals: seq<Signal>, signal: Signal)
    requires DistinctSignals(signals) && signal !in signals
    ensures DistinctSignals(signals + [signal])
  {
  }

  // ---------------------------------------------------------------------------
  // The board manager

  /** `BoardManager`: the scheme that is open, the devices on the board, and a
      `connections` list that `open_scheme` empties and never fills: the
      signals live only in the devices' bindings. The singleton `__new__` is
      not modelled. */
  class BoardManager {
    var openedScheme: Option<string>
    var devices: seq<Device>
    var connections: seq<Signal>

    /** `__init__`: an empty board with no scheme open, registered under the
        board manager's key (the corrected registration; as written the key
        lookup raises, see `LogicModules.BoardManagerMemberMissing`). */
    constructor (registry: LogicModules.LogicModuleHandler<string, object>)
      modifies registry
      ensures openedScheme.None? && devices == [] && connections == []
      ensures registry.modules == old(registry.modules)[LogicModules.BoardManagerKey := this]
      ensures registry.GetLogic(LogicModules.BoardManagerKey) == Ok(this as object)
      ensures registry.initialized == old(registry.initialized)
    {
      openedScheme := None;
      devices := [];
      connections := [];
      new;
      registry.Register(LogicModules.BoardManagerKey, this);
    }

    /** The uuids of the devices on the board, in order. */
    function DeviceUuids(): (r: seq<string>)
      reads this
      ensures |r| == |devices| && forall k :: 0 <= k < |r| ==> r[k] == devices[k].uuid
    {
      seq(|devices|, k reads this requires 0 <= k < |devices| => devices[k].uuid)
    }

    /** `get_device`: the one device with this uuid; none, or several, is an error. */
    function GetDevice(uuid: string): (r: Result<Device, BoardError>)
      reads this
      ensures r.Ok? <==> FindUnique(DeviceUuids(), uuid).Some?
      ensures r.Ok? ==> r.value == devices[FindUnique(DeviceUuids(), uuid).value] && r.value.uuid == uuid
      ensures r.Err? ==> r.error == DeviceNotFound(uuid)
    {
      match FindUnique(DeviceUuids(), uuid)
      case None => Err(DeviceNotFound(uuid))
      case Some(i) => Ok(devices[i])
    }

    /** The bindings of every device on the board, in board order. */
    ghost function AllBindings(): (r: seq<seq<Binding>>)
      reads this, devices
      ensures |r| == |devices|
    {
      seq(|devices|, k reads this, devices requires 0 <= k < |devices| => devices[k].bindings)
    }

    /** The devices are distinct objects. */
    ghost predicate DistinctDevices()
      reads this
    {
      forall a, b :: 0 <= a < b < |devices| ==> devices[a] != devices[b]
    }

    /** `open_scheme`: empties the board, then builds the devices and wires the
        connections as `Load` describes. `signals` are the signal objects
        created, one per wired connection; the board's own `connections` list
        stays empty. */
    method OpenScheme(scheme: Scheme, registry: LogicModules.LogicModuleHandler<string, object>, known: set<string>)
      returns (err: Option<BoardError>, ghost signals: seq<Signal>)
      modifies this
      ensures openedScheme == old(openedScheme) && connections == []
      ensures var l := Load(scheme, LogicModules.QureedManagerKey in registry.modules, known);
              err == l.error &&
              |devices| == |l.devices| &&
              |l.links| == |signals| &&
              forall k :: 0 <= k < |devices| ==>
                fresh(devices[k]) &&
                devices[k].typeRef == l.devices[k].device && devices[k].uuid == l.devices[k].uuid &&
                BoundAs(devices[k].bindings, Received(l.links, k), signals)
      ensures DistinctDevices()
      ensures forall s :: 0 <= s < |signals| ==>
                scheme.connections.Some? && s < |scheme.connections.value| &&
                signals[s].typeRef == scheme.connections.value[s].signal
      ensures forall x :: x in signals ==> fresh(x)
      ensures DistinctSignals(signals)
    {
      devices := [];
      connections := [];
      signals := [];
      if registry.GetLogic(LogicModules.QureedManagerKey).Err? {
        return Some(ManagerNotRegistered), signals;
      }
      if scheme.devices.None? {
        return Some(MissingKey("devices")), signals;
      }
      var descs := scheme.devices.value;
      err := BuildDevices(descs, known);
      if err.Some? {
        return err, signals;
      }
      if scheme.connections.None? {
        return Some(MissingKey("connections")), signals;
      }
      err, signals := WireConnections(descs, scheme.connections.value, known);
      TypesAgree(signals, scheme.connections.value[..|signals|]);
    }

    /** The device loop of `open_scheme`, on an empty board: one new device per
        descriptor, stopping at the first type that cannot be resolved. */
    method BuildDevices(descs: seq<DeviceDescriptor>, known: set<string>) returns (err: Option<BoardError>)
      requires devices == []
      modifies this
      ensures openedScheme == old(openedScheme) && connections == old(connections)
      ensures |devices| == ResolvedPrefix(descs, known)
      ensures err.None? <==> |devices| == |descs|
      ensures err.Some? ==> err == Some(TypeNotFound(descs[|devices|].device))
      ensures forall m :: 0 <= m < |devices| ==>
                fresh(devices[m]) && devices[m].typeRef == descs[m].device &&
                devices[m].uuid == descs[m].uuid && devices[m].bindings == []
      ensures DistinctDevices()
    {
      for k := 0 to |descs|
        invariant |devices| == k
        invariant forall m :: 0 <= m < k ==> descs[m].device in known
        invariant forall m :: 0 <= m < k ==>
                    fresh(devices[m]) && devices[m].typeRef == descs[m].device &&
                    devices[m].uuid == descs[m].uuid && devices[m].bindings == []
        invariant DistinctDevices()
        invariant openedScheme == old(openedScheme) && connections == old(connections)
      {
        if descs[k].device !in known {
          assert ResolvedPrefix(descs, known) == k;
          return Some(TypeNotFound(descs[k].device));
        }
        var device := new Device(descs[k].device, descs[k].uuid);
        devices := devices + [device];
      }
      assert ResolvedPrefix(descs, known) == |descs|;
      err := None;
    }

    /** The connection loop of `open_scheme`, on a board holding exactly the
        devices of `descs`, none with a binding yet. */
    method WireConnections(descs: seq<DeviceDescriptor>, conns: seq<ConnectionDescriptor>, known: set<string>)
      returns (err: Option<BoardError>, ghost signals: seq<Signal>)
      requires |devices| == |descs| && DistinctDevices()
      requires forall k :: 0 <= k < |devices| ==> devices[k].uuid == descs[k].uuid && devices[k].bindings == []
      modifies devices
      ensures var w := Wire(Uuids(descs), conns, known);
              err == w.error && |w.links| == |signals| && AllBound(AllBindings(), w.links, signals)
      ensures |signals| <= |conns| && TypesOf(signals) == SignalTypes(conns[..|signals|])
      ensures forall x :: x in signals ==> fresh(x)
      ensures DistinctSignals(signals)
    {
      ghost var uuids := Uuids(descs);
      assert DeviceUuids() == uuids;
      ghost var links: seq<Link> := [];
      signals := [];
      assert AllBound(AllBindings(), links, signals);
      for s := 0 to |conns|
        invariant WiredUpTo(uuids, conns, known, s, links, signals)
        invariant DeviceUuids() == uuids && DistinctDevices()
        invariant forall x :: x in signals ==> fresh(x)
      {
        var failure, signal, link := WireNext(conns, known, uuids, s, links, signals);
        if failure.Some? {
          return failure, signals;
        }
        signals := signals + [signal];
        links := links + [link];
      }
      assert conns[..|conns|] == conns;
      err := None;
    }

    /** The first `s` connections are wired: the wiring has not failed yet,
        and `signals` are the distinct signals it created, one per
        connection, of the connections' types and bound as the links say. */
    ghost predicate WiredUpTo(uuids: seq<string>, conns: seq<ConnectionDescriptor>, known: set<string>,
                              s: nat, links: seq<Link>, signals: seq<Signal>)
      reads this, devices
    {
      s <= |conns| && |signals| == s && |links| == s &&
      Wire(uuids, conns[..s], known) == Wiring(links, None) &&
      TypesOf(signals) == SignalTypes(conns[..s]) &&
      AllBound(AllBindings(), links, signals) && DistinctSignals(signals)
    }

    /** One pass of the connection loop, as the loop's bookkeeping sees it:
        on success the wiring, the signal types, the bindings and the distinct
        new signals all grow by one connection; a failure ends the wiring with
        its error and changes no binding. */
    method WireNext(conns: seq<ConnectionDescriptor>, known: set<string>, ghost uuids: seq<string>,
                    s: nat, ghost links: seq<Link>, ghost signals: seq<Signal>)
      returns (failure: Option<BoardError>, signal: Signal?, ghost link: Link)
      requires s < |conns| && WiredUpTo(uuids, conns, known, s, links, signals)
      requires DeviceUuids() == uuids && DistinctDevices()
      modifies devices
      ensures failure.Some? ==> Wire(uuids, conns, known) == Wiring(links, failure) && AllBound(AllBindings(), links, signals)
      ensures failure.None? ==>
                signal != null && fresh(signal) && WiredUpTo(uuids, conns, known, s + 1, links + [link], signals + [signal])
    {
      ghost var before := AllBindings();
      failure, signal, link := Connect(conns[s], known, uuids);
      if failure.Some? {
        WireSnocErr(uuids, conns, known, s, links);
        return;
      }
      WireSnocOk(uuids, conns, known, s, links, link);
      WireStepAllBound(before, links, link, signals, signal);
      TypesSnoc(signals, signal, conns, s);
      DistinctSignalsSnoc(signals, signal);
    }

    /** One pass of the connection loop: resolve the signal type, create the
        signal, look both endpoint devices up and register the signal on each.
        A failure registers nothing. */
    method Connect(c: ConnectionDescriptor, known: set<string>, ghost uuids: seq<string>)
      returns (err: Option<BoardError>, signal: Signal?, ghost link: Link)
      requires DeviceUuids() == uuids && DistinctDevices()
      modifies devices
      ensures err.Some? <==> ConnectStep(uuids, c, known).Err?
      ensures err.Some? ==> err.value == ConnectStep(uuids, c, known).error && AllBindings() == old(AllBindings())
      ensures err.None? ==>
                ConnectStep(uuids, c, known) == Ok((link.device1, link.device2)) &&
                link.port1 == c.conn[0].port && link.port2 == c.conn[1].port &&
                signal != null && fresh(signal) && signal.typeRef == c.signal &&
                AllBindings() == Extended(old(AllBindings()), link, signal)
    {
      link := Link(0, "", 0, "");
      if c.signal !in known {
        return Some(TypeNotFound(c.signal)), null, link;
      }
      signal := new Signal(c.signal);
      if |c.conn| < 1 {
        return Some(IndexOutOfRange), signal, link;
      }
      var device1 := GetDevice(c.conn[0].deviceUuid);
      if device1.Err? {
        return Some(device1.error), signal, link;
      }
      if |c.conn| < 2 {
        return Some(IndexOutOfRange), signal, link;
      }
      var device2 := GetDevice(c.conn[1].deviceUuid);
      if device2.Err? {
        return Some(device2.error), signal, link;
      }
      link := Link(FindUnique(uuids, c.conn[0].deviceUuid).value, c.conn[0].port,
                   FindUnique(uuids, c.conn[1].deviceUuid).value, c.conn[1].port);
      RegisterBoth(device1.value, c.conn[0].port, device2.value, c.conn[1].port, signal, link.device1, link.device2);
      err := None;
    }

    /** The two `register_signal` calls of one connection, on the devices at
        indices `i` and `j`. */
    method RegisterBoth(device1: Device, port1: string, device2: Device, port2: string, signal: Signal,
                        ghost i: nat, ghost j: nat)
      requires DistinctDevices()
      requires i < |devices| && devices[i] == device1
      requires j < |devices| && devices[j] == device2
      modifies device1, device2
      ensures AllBindings() == Extended(old(AllBindings()), Link(i, port1, j, port2), signal)
    {
      ghost var before := AllBindings();
      device1.RegisterSignal(signal, port1);
      device2.RegisterSignal(signal, port2);
      forall k | 0 <= k < |devices|
        ensures devices[k].bindings ==
                before[k]
                  + ((if k == i then [Binding(port1, signal)] else [])
                     + (if k == j then [Binding(port2, signal)] else []))
      {
        if k != i && k != j {
          assert devices[k] != device1 && devices[k] != device2;
        } else if k == i && k == j {
          assert devices[k].bindings == before[k] + [Binding(port1, signal)] + [Binding(port2, signal)];
          assert before[k] + [Binding(port1, signal)] + [Binding(port2, signal)]
              == before[k] + ([Binding(port1, signal)] + [Binding(port2, signal)]);
        } else {
          assert devices[k].bindings == before[k] + (if k == i then [Binding(port1, signal)] else [Binding(port2, signal)]);
        }
      }
    }
  }

  /** `get_device` succeeds exactly when one device on the board has the uuid,
      and then returns that device. */
  lemma GetDeviceExactlyOne(board: BoardManager, uuid: string)
    ensures board.GetDevice(uuid).Ok? <==>
            exists i :: 0 <= i < |board.devices| && board.devices[i].uuid == uuid &&
                        forall j :: 0 <= j < |board.devices| && board.devices[j].uuid == uuid ==> j == i
    ensures board.GetDevice(uuid).Ok? ==>
              board.GetDevice(uuid).value in board.devices && board.GetDevice(uuid).value.uuid == uuid &&
              forall j :: 0 <= j < |board.devices| && board.devices[j].uuid == uuid ==>
                board.devices[j] == board.GetDevice(uuid).value
  {
    FindUniqueExactlyOne(board.DeviceUuids(), uuid);
  }
}
