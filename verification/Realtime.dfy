/**
 * The dashboard's realtime client: listeners with channels, reference counts per
 * channel, one socket, and its reconnect and teardown timers.
 */
module Realtime {
  import opened Options

  type Key = string
  type ListenerId = nat
  type SocketId = nat

  datatype ReadyState = Connecting | Open | Closing | Closed
  datatype Status = IsConnecting | IsConnected | IsOffline

  const MIN_BACKOFF := 500
  const MAX_BACKOFF := 30_000

  // ----- Counting listeners -----

  /** The registered listeners that hold a channel. */
  function Holders(listeners: set<ListenerId>, channels: map<ListenerId, set<Key>>, key: Key): set<ListenerId> {
    set l | l in listeners && l in channels && key in channels[l]
  }

  /** Reference counts are right: one entry per held channel, with its number of holders. */
  ghost predicate Counts(refcounts: map<Key, nat>, listeners: set<ListenerId>, channels: map<ListenerId, set<Key>>) {
    forall key :: CountOf(refcounts, key) == |Holders(listeners, channels, key)| && (key in refcounts ==> refcounts[key] > 0)
  }

  function CountOf(refcounts: map<Key, nat>, key: Key): nat {
    if key in refcounts then refcounts[key] else 0
  }

  /** One more reference on each of the keys. */
  function Retained(refcounts: map<Key, nat>, keys: set<Key>): map<Key, nat> {
    map k | k in refcounts.Keys + keys :: CountOf(refcounts, k) + if k in keys then 1 else 0
  }

  /** One reference less on each of the keys; entries that reach zero go away. */
  function Released(refcounts: map<Key, nat>, keys: set<Key>): map<Key, nat> {
    map k | k in refcounts && (k in keys ==> refcounts[k] > 1) ::
      if k in keys then refcounts[k] - 1 else refcounts[k]
  }

  lemma RetainedStep(refcounts: map<Key, nat>, done: set<Key>, key: Key)
    requires key !in done
    ensures Retained(refcounts, done + {key}) ==
      Retained(refcounts, done)[key := CountOf(Retained(refcounts, done), key) + 1]
  {
  }

  lemma ReleasedStep(refcounts: map<Key, nat>, done: set<Key>, key: Key)
    requires key !in done
    ensures Released(refcounts, done + {key}) ==
      var r := Released(refcounts, done);
      if CountOf(r, key) <= 1 then r - {key} else r[key := r[key] - 1]
  {
  }

  lemma HoldersAdd(listeners: set<ListenerId>, channels: map<ListenerId, set<Key>>, l: ListenerId, key: Key)
    requires l !in listeners && l in channels
    ensures |Holders(listeners + {l}, channels, key)| ==
      |Holders(listeners, channels, key)| + if key in channels[l] then 1 else 0
  {
    if key in channels[l] {
      assert Holders(listeners + {l}, channels, key) == Holders(listeners, channels, key) + {l};
    } else {
      assert Holders(listeners + {l}, channels, key) == Holders(listeners, channels, key);
    }
  }

  lemma HoldersRemove(listeners: set<ListenerId>, channels: map<ListenerId, set<Key>>, l: ListenerId, key: Key)
    requires l in listeners && l in channels
    ensures |Holders(listeners - {l}, channels, key)| ==
      |Holders(listeners, channels, key)| - if key in channels[l] then 1 else 0
  {
    HoldersAdd(listeners - {l}, channels, l, key);
    assert listeners - {l} + {l} == listeners;
  }

  lemma HoldersRechannel(listeners: set<ListenerId>, channels: map<ListenerId, set<Key>>, l: ListenerId, next: set<Key>, key: Key)
    requires l in listeners && l in channels
    ensures |Holders(listeners, channels[l := next], key)| ==
      |Holders(listeners, channels, key)| - (if key in channels[l] then 1 else 0) + if key in next then 1 else 0
  {
    HoldersRemove(listeners, channels, l, key);
    HoldersAdd(listeners - {l}, channels[l := next], l, key);
    assert listeners - {l} + {l} == listeners;
    assert Holders(listeners - {l}, channels[l := next], key) == Holders(listeners - {l}, channels, key);
  }

  /** Registering a listener again counts its channels twice; nothing else breaks the counts. */
  lemma CountsAfterAdd(refcounts: map<Key, nat>, listeners: set<ListenerId>, channels: map<ListenerId, set<Key>>, l: ListenerId)
    requires Counts(refcounts, listeners, channels) && l in channels
    ensures Counts(Retained(refcounts, channels[l]), listeners + {l}, channels) <==> l !in listeners || channels[l] == {}
  {
    var r := Retained(refcounts, channels[l]);
    forall key ensures CountOf(r, key) == CountOf(refcounts, key) + (if key in channels[l] then 1 else 0) {
    }
    if l !in listeners {
      forall key ensures CountOf(r, key) == |Holders(listeners + {l}, channels, key)| {
        HoldersAdd(listeners, channels, l, key);
      }
    } else {
      assert listeners + {l} == listeners;
      if channels[l] != {} {
        var key :| key in channels[l];
        assert CountOf(r, key) != |Holders(listeners, channels, key)|;
      }
    }
  }

  lemma CountsAfterRemove(refcounts: map<Key, nat>, listeners: set<ListenerId>, channels: map<ListenerId, set<Key>>, l: ListenerId)
    requires Counts(refcounts, listeners, channels) && l in channels && l in listeners
    ensures Counts(Released(refcounts, channels[l]), listeners - {l}, channels)
  {
    var r := Released(refcounts, channels[l]);
    forall key ensures CountOf(r, key) == |Holders(listeners - {l}, channels, key)| {
      HoldersRemove(listeners, channels, l, key);
    }
  }

  /** Changing the channels keeps the counts right exactly for a registered
      listener, or when the change touches no counted channel. */
  lemma CountsAfterRechannel(refcounts: map<Key, nat>, listeners: set<ListenerId>, channels: map<ListenerId, set<Key>>, l: ListenerId, next: set<Key>)
    requires Counts(refcounts, listeners, channels) && l in channels
    ensures Counts(Retained(Released(refcounts, channels[l] - next), next - channels[l]), listeners, channels[l := next]) <==>
      l in listeners || (next <= channels[l] && (channels[l] - next) !! refcounts.Keys)
  {
    var gone, added := channels[l] - next, next - channels[l];
    var r := Retained(Released(refcounts, gone), added);
    forall key ensures CountOf(r, key) ==
      (if key in gone && key in refcounts then CountOf(refcounts, key) - 1 else CountOf(refcounts, key)) + (if key in added then 1 else 0) {
    }
    if l in listeners {
      forall key ensures CountOf(r, key) == |Holders(listeners, channels[l := next], key)| {
        HoldersRechannel(listeners, channels, l, next, key);
        assert key in gone ==> l in Holders(listeners, channels, key);
      }
    } else {
      forall key ensures Holders(listeners, channels[l := next], key) == Holders(listeners, channels, key) {
      }
      if added != {} {
        var key :| key in added;
        assert CountOf(r, key) != |Holders(listeners, channels, key)|;
      } else if gone * refcounts.Keys != {} {
        var key :| key in gone * refcounts.Keys;
        assert CountOf(r, key) != |Holders(listeners, channels, key)|;
      }
    }
  }

  lemma NoListeners(channels: map<ListenerId, set<Key>>)
    ensures Counts(map[], {}, channels)
  {
    forall key ensures |Holders({}, channels, key)| == 0 {
      assert Holders({}, channels, key) == {};
    }
  }

  lemma AddKeepsCounts(refcounts: map<Key, nat>, listeners: set<ListenerId>, channels: map<ListenerId, set<Key>>, l: ListenerId)
    requires l in channels
    ensures Counts(refcounts, listeners, channels) ==>
      (Counts(Retained(refcounts, channels[l]), listeners + {l}, channels) <==> l !in listeners || channels[l] == {})
  {
    if Counts(refcounts, listeners, channels) { CountsAfterAdd(refcounts, listeners, channels, l); }
  }

  lemma RemoveKeepsCounts(refcounts: map<Key, nat>, listeners: set<ListenerId>, channels: map<ListenerId, set<Key>>, l: ListenerId)
    requires l in channels && l in listeners
    ensures Counts(refcounts, listeners, channels) ==> Counts(Released(refcounts, channels[l]), listeners - {l}, channels)
  {
    if Counts(refcounts, listeners, channels) { CountsAfterRemove(refcounts, listeners, channels, l); }
  }

  lemma RechannelKeepsCounts(refcounts: map<Key, nat>, listeners: set<ListenerId>, channels: map<ListenerId, set<Key>>, l: ListenerId, next: set<Key>)
    requires l in channels
    ensures Counts(refcounts, listeners, channels) ==>
      (Counts(Retained(Released(refcounts, channels[l] - next), next - channels[l]), listeners, channels[l := next]) <==>
        l in listeners || (next <= channels[l] && (channels[l] - next) !! refcounts.Keys))
  {
    if Counts(refcounts, listeners, channels) { CountsAfterRechannel(refcounts, listeners, channels, l, next); }
  }

  // ----- Socket and timers -----

  /** The socket, its timers, and whether there are listeners at all. */
  datatype Wires = Wires(
    available: bool, idle: bool, ws: Option<SocketId>, status: Status,
    reconnect: bool, ping: bool, teardown: bool,
    sockets: map<SocketId, ReadyState>, nextSocket: SocketId, backoffMs: nat)

  /** At most one live socket, which is the current one; a socket or a reconnect
      timer while there are listeners; a teardown timer while there are none but
      something is left to tear down. */
  ghost predicate WiredUp(w: Wires) {
    && (forall s :: s in w.sockets ==> s < w.nextSocket)
    && (w.ws.Some? ==> w.ws.value in w.sockets && w.sockets[w.ws.value] != Closed)
    && (forall s :: s in w.sockets && (w.sockets[s] == Connecting || w.sockets[s] == Open) ==> w.ws == Some(s))
    && (!w.idle && w.available ==> w.ws.Some? || w.reconnect)
    && (w.idle && (w.ws.Some? || w.reconnect) ==> w.teardown)
    && (w.teardown ==> w.idle)
    && (w.reconnect ==> w.ws.None? && w.available)
    && (w.ws.Some? ==> w.available)
    && (w.ping ==> w.ws.Some? && w.sockets[w.ws.value] != Connecting)
    && (w.ws.Some? && w.sockets[w.ws.value] == Open ==> w.ping && w.status == IsConnected)
    && MIN_BACKOFF <= w.backoffMs <= MAX_BACKOFF
  }

  /** A new socket in place of the one that is gone. */
  function Connected(w: Wires): Wires {
    w.(ws := Some(w.nextSocket), status := IsConnecting, reconnect := false,
       sockets := w.sockets[w.nextSocket := Connecting], nextSocket := w.nextSocket + 1)
  }

  lemma WiresBusy(w: Wires)
    requires WiredUp(w)
    ensures var busy := w.(teardown := false, idle := false);
      WiredUp(if w.ws.None? && w.available then Connected(busy) else busy)
  {
  }

  lemma WiresIdle(w: Wires)
    requires WiredUp(w)
    ensures WiredUp(w.(idle := true, teardown := true))
  {
  }

  lemma WiresReconnect(w: Wires)
    requires WiredUp(w) && w.reconnect
    ensures w.ws.None? && w.available && WiredUp(Connected(w))
  {
  }

  lemma WiresOpen(w: Wires, s: SocketId)
    requires WiredUp(w) && s in w.sockets && w.sockets[s] == Connecting
    ensures w.ws == Some(s)
    ensures WiredUp(w.(sockets := w.sockets[s := Open], backoffMs := MIN_BACKOFF, status := IsConnected, ping := true))
  {
  }

  lemma WiresClosing(w: Wires, s: SocketId)
    requires WiredUp(w) && s in w.sockets && w.sockets[s] != Closed
    ensures WiredUp(w.(sockets := w.sockets[s := Closing]))
  {
  }

  function Doubled(backoffMs: nat): nat {
    if backoffMs * 2 <= MAX_BACKOFF then backoffMs * 2 else MAX_BACKOFF
  }

  /** The pause before a reconnect doubles, up to half a minute. */
  lemma BackoffCourse(backoffMs: nat)
    ensures Doubled(backoffMs) <= 30000 && Doubled(backoffMs) <= 2 * backoffMs
    ensures Doubled(backoffMs) == 2 * backoffMs || Doubled(backoffMs) == 30000
    ensures MIN_BACKOFF == 500 && Doubled(500) == 1000 && Doubled(15000) == 30000 && Doubled(16000) == 30000
  {
  }

  lemma WiresClose(w: Wires, s: SocketId)
    requires WiredUp(w) && s in w.sockets && w.sockets[s] != Closed
    ensures var closed := w.(sockets := w.sockets[s := Closed]);
      var dropped := closed.(ping := false, reconnect := false, ws := None);
      WiredUp(
        if w.ws != Some(s) then closed
        else if w.idle then dropped
        else dropped.(status := IsOffline, backoffMs := Doubled(w.backoffMs), reconnect := true))
  {
    assert w.ws == Some(s) ==> w.available;
  }

  /** Nothing of the wiring is left, and the socket is told to close. */
  function TornDown(w: Wires): Wires {
    w.(teardown := false, ping := false, reconnect := false, ws := None,
       sockets := if w.ws.Some? then w.sockets[w.ws.value := Closing] else w.sockets)
  }

  lemma WiresTornDown(w: Wires)
    requires WiredUp(w) && w.teardown
    ensures w.idle && (w.ws.Some? ==> w.ws.value in w.sockets && w.sockets[w.ws.value] != Closed)
    ensures WiredUp(TornDown(w))
    ensures forall s :: s in TornDown(w).sockets ==> TornDown(w).sockets[s] == Closing || TornDown(w).sockets[s] == Closed
  {
  }

  lemma CurrentNotClosed(w: Wires)
    requires WiredUp(w)
    ensures w.ws.Some? ==> w.ws.value in w.sockets && w.sockets[w.ws.value] != Closed
  {
  }

  // ----- Who is registered for what -----

  /** The listener objects with their channels, and which of them are registered. */
  datatype Registry = Registry(listeners: set<ListenerId>, channels: map<ListenerId, set<Key>>)

  /** What listeners, the socket and the timers may do, in any order. */
  datatype Event =
    | Create(l: ListenerId, keys: set<Key>)
    | Add(l: ListenerId)
    | RemoveL(l: ListenerId)
    | SetChannels(l: ListenerId, next: set<Key>)
    | Opened(s: SocketId)
    | StartedClosing(s: SocketId)
    | WasClosed(s: SocketId)
    | ReconnectFires
    | TeardownFires

  /** Only the listeners' own calls change the registry; sockets and timers never do. */
  function After(reg: Registry, e: Event): Registry {
    match e
    case Create(l, keys) => if l in reg.channels then reg else reg.(channels := reg.channels[l := keys])
    case Add(l) => if l in reg.channels then reg.(listeners := reg.listeners + {l}) else reg
    case RemoveL(l) => reg.(listeners := reg.listeners - {l})
    case SetChannels(l, next) => if l in reg.channels then reg.(channels := reg.channels[l := next]) else reg
    case _ => reg
  }

  /** The callers' discipline: a listener with channels is registered once at a
      time, and only a registered one changes its channels. */
  predicate Disciplined(reg: Registry, e: Event) {
    && (e.Add? && e.l in reg.listeners && e.l in reg.channels ==> reg.channels[e.l] == {})
    && (e.SetChannels? && e.l in reg.channels ==> e.l in reg.listeners)
  }

  function AfterAll(reg: Registry, events: seq<Event>): Registry {
    if events == [] then reg else After(AfterAll(reg, events[..|events| - 1]), events[|events| - 1])
  }

  ghost predicate DisciplinedRun(reg: Registry, events: seq<Event>) {
    forall i :: 0 <= i < |events| ==> Disciplined(AfterAll(reg, events[..i]), events[i])
  }

  // ----- The client -----

  class RealtimeClient {
    const available: bool                       // whether the host has sockets at all
    var ws: Option<SocketId>
    var status: Status
    var listeners: set<ListenerId>
    var channels: map<ListenerId, set<Key>>     // the channels of every listener object
    var refcounts: map<Key, nat>
    var activeSubs: set<Key>
    var backoffMs: nat
    var reconnectTimer: bool
    var pingInterval: bool
    var teardownTimer: bool
    var sockets: map<SocketId, ReadyState>      // every socket ever opened
    var nextSocket: SocketId                    // names the next socket
    ghost var remote: set<Key>                  // what the frames sent on the socket add up to

    ghost predicate IsOpen()
      reads this
    {
      ws.Some? && ws.value in sockets && sockets[ws.value] == Open
    }

    /** An open socket is subscribed to exactly the counted channels. */
    ghost predicate Synced()
      reads this
    {
      IsOpen() ==> activeSubs == refcounts.Keys && remote == activeSubs
    }

    ghost predicate Exact()
      reads this
    {
      Counts(refcounts, listeners, channels)
    }

    ghost function Wiring(): Wires
      reads this
    {
      Wires(available, listeners == {}, ws, status, reconnectTimer, pingInterval, teardownTimer, sockets, nextSocket, backoffMs)
    }

    ghost predicate Wired()
      reads this
    {
      listeners <= channels.Keys && WiredUp(Wiring())
    }

    /** What holds however listeners are used. */
    ghost predicate Sound()
      reads this
    {
      Synced() && Wired()
    }

    ghost predicate Valid()
      reads this
    {
      Exact() && Sound()
    }

    ghost function Registered(): Registry
      reads this
    {
      Registry(listeners, channels)
    }

    constructor (available: bool)
      ensures Valid() && listeners == {} && channels == map[] && this.available == available
      ensures Wiring() == Wires(available, true, None, IsConnecting, false, false, false, map[], 0, 500)
    {
      this.available := available;
      ws, status, listeners, channels := None, IsConnecting, {}, map[];
      refcounts, activeSubs, backoffMs := map[], {}, MIN_BACKOFF;
      reconnectTimer, pingInterval, teardownTimer, sockets, nextSocket, remote := false, false, false, map[], 0, {};
      NoListeners(map[]);
    }

    /** A frame goes out, and the subscription set follows, only on an open socket. */
    method Send(key: Key, active: bool)
      modifies `activeSubs, `remote
      ensures IsOpen() ==>
        activeSubs == (if active then old(activeSubs) + {key} else old(activeSubs) - {key})
        && remote == (if active then old(remote) + {key} else old(remote) - {key})
      ensures !IsOpen() ==> activeSubs == old(activeSubs) && remote == old(remote)
    {
      if ws.Some? && ws.value in sockets && sockets[ws.value] == Open {
        remote := if active then remote + {key} else remote - {key};
        activeSubs := if active then activeSubs + {key} else activeSubs - {key};
      }
    }

    method Retain(key: Key)
      requires Synced()
      modifies `refcounts, `activeSubs, `remote
      ensures Synced()
      ensures refcounts == old(refcounts)[key := CountOf(old(refcounts), key) + 1]
    {
      var count := CountOf(refcounts, key) + 1;
      refcounts := refcounts[key := count];
      if count == 1 {
        Send(key, true);
      }
    }

    method Release(key: Key)
      requires Synced()
      modifies `refcounts, `activeSubs, `remote
      ensures Synced()
      ensures refcounts ==
        if CountOf(old(refcounts), key) <= 1 then old(refcounts) - {key}
        else old(refcounts)[key := old(refcounts)[key] - 1]
    {
      var count := CountOf(refcounts, key) - 1;
      if count <= 0 {
        refcounts := refcounts - {key};
        Send(key, false);
      } else {
        refcounts := refcounts[key := count];
      }
    }

    method RetainAll(keys: set<Key>)
      requires Synced()
      modifies `refcounts, `activeSubs, `remote
      ensures Synced() && refcounts == Retained(old(refcounts), keys)
    {
      var left := keys;
      ghost var start := refcounts;
      assert Retained(start, {}) == start;
      while left != {}
        invariant left <= keys && Synced() && refcounts == Retained(start, keys - left)
        decreases left
      {
        var key :| key in left;
        RetainedStep(start, keys - left, key);
        assert keys - left + {key} == keys - (left - {key});
        Retain(key);
        left := left - {key};
      }
      assert keys - left == keys;
    }

    method ReleaseAll(keys: set<Key>)
      requires Synced()
      modifies `refcounts, `activeSubs, `remote
      ensures Synced() && refcounts == Released(old(refcounts), keys)
    {
      var left := keys;
      ghost var start := refcounts;
      assert Released(start, {}) == start;
      while left != {}
        invariant left <= keys && Synced() && refcounts == Released(start, keys - left)
        decreases left
      {
        var key :| key in left;
        ReleasedStep(start, keys - left, key);
        assert keys - left + {key} == keys - (left - {key});
        Release(key);
        left := left - {key};
      }
      assert keys - left == keys;
    }

    /** Opens a socket in place of the one that is gone. */
    method Connect()
      requires ws.None? && available
      modifies `ws, `status, `reconnectTimer, `sockets, `nextSocket, `remote
      ensures ws == Some(old(nextSocket)) && nextSocket == old(nextSocket) + 1 && !reconnectTimer && status == IsConnecting
      ensures sockets == old(sockets)[old(nextSocket) := Connecting] && remote == {}
    {
      reconnectTimer := false;
      status := IsConnecting;
      sockets := sockets[nextSocket := Connecting];
      remote := {};
      ws := Some(nextSocket);
      nextSocket := nextSocket + 1;
    }

    method EnsureConnection()
      requires Synced()
      modifies `ws, `status, `reconnectTimer, `sockets, `nextSocket, `remote
      ensures Synced()
      ensures Wiring() == if old(ws).None? && available then Connected(old(Wiring())) else old(Wiring())
    {
      if ws.None? && available {
        Connect();
      }
    }

    /** Registers a listener. The counts stay right exactly when it was not
        registered yet, or has no channels. */
    method AddListener(l: ListenerId)
      requires Sound() && l in channels
      modifies `listeners, `refcounts, `activeSubs, `remote, `teardownTimer, `ws, `status, `reconnectTimer, `sockets, `nextSocket
      ensures listeners == old(listeners) + {l}
      ensures refcounts == Retained(old(refcounts), channels[l]) && !teardownTimer
      ensures ws == if old(ws).None? && available then Some(old(nextSocket)) else old(ws)
      ensures Sound()
      ensures old(Exact()) ==> (Exact() <==> l !in old(listeners) || channels[l] == {})
    {
      hide Counts, Retained, Released, CountOf, Holders, WiredUp;
      WiresBusy(Wiring());
      teardownTimer := false;
      AddKeepsCounts(refcounts, listeners, channels, l);
      listeners := listeners + {l};
      RetainAll(channels[l]);
      EnsureConnection();
    }

    /** Unregisters a listener; unknown ones are ignored. The last one starts the teardown timer. */
    method RemoveListener(l: ListenerId)
      requires Sound()
      modifies `listeners, `refcounts, `activeSubs, `remote, `teardownTimer
      ensures Sound() && (old(Exact()) ==> Exact())
      ensures listeners == old(listeners) - {l}
      ensures refcounts == if l in old(listeners) then Released(old(refcounts), channels[l]) else old(refcounts)
      ensures old(listeners) != {} && listeners == {} ==> teardownTimer
    {
      hide Counts, Retained, Released, CountOf, Holders, WiredUp;
      if l !in listeners { return; }
      WiresIdle(Wiring());
      RemoveKeepsCounts(refcounts, listeners, channels, l);
      listeners := listeners - {l};
      ReleaseAll(channels[l]);
      if listeners == {} { teardownTimer := true; }
    }

    /** Gives a listener new channels. The counts stay right exactly when it is
        registered, or the change touches no counted channel. */
    method SetListenerChannels(l: ListenerId, next: set<Key>)
      requires Sound() && l in channels
      modifies `channels, `refcounts, `activeSubs, `remote
      ensures channels == old(channels)[l := next]
      ensures refcounts == Retained(Released(old(refcounts), old(channels)[l] - next), next - old(channels)[l])
      ensures Sound()
      ensures old(Exact()) ==> (Exact() <==>
        l in listeners || (next <= old(channels)[l] && (old(channels)[l] - next) !! old(refcounts).Keys))
    {
      hide Counts, Retained, Released, CountOf, Holders, WiredUp;
      RechannelKeepsCounts(refcounts, listeners, channels, l, next);
      ReleaseAll(channels[l] - next);
      RetainAll(next - channels[l]);
      channels := channels[l := next];
    }

    /** Subscribes a newly opened socket, channel by channel. */
    method SubscribeAll()
      modifies `activeSubs, `remote
      ensures activeSubs == remote == refcounts.Keys
    {
      activeSubs := {};
      remote := {};
      var left := refcounts.Keys;
      while left != {}
        invariant left <= refcounts.Keys
        invariant activeSubs == remote == refcounts.Keys - left
        decreases left
      {
        var key :| key in left;
        remote := remote + {key};
        activeSubs := activeSubs + {key};
        left := left - {key};
      }
    }

    /** The socket opens: subscribe to every counted channel. */
    method OnOpen(s: SocketId)
      requires Sound() && s in sockets && sockets[s] == Connecting
      modifies `sockets, `status, `backoffMs, `pingInterval, `activeSubs, `remote
      ensures Sound()
      ensures ws == Some(s) && sockets == old(sockets)[s := Open] && IsOpen() && backoffMs == MIN_BACKOFF
    {
      hide Counts, Retained, Released, CountOf, Holders, WiredUp;
      WiresOpen(Wiring(), s);
      sockets := sockets[s := Open];
      if ws == Some(s) {
        backoffMs := MIN_BACKOFF;
        status := IsConnected;
        SubscribeAll();
        pingInterval := true;
      }
    }

    /** The connection starts to close before the close event arrives. */
    method OnClosing(s: SocketId)
      requires Sound() && s in sockets && sockets[s] != Closed
      modifies `sockets
      ensures Sound() && sockets == old(sockets)[s := Closing]
    {
      hide Counts, Retained, Released, CountOf, Holders, WiredUp;
      WiresClosing(Wiring(), s);
      sockets := sockets[s := Closing];
    }

    /** The socket is gone: drop it, and with listeners left schedule a reconnect. */
    method OnClose(s: SocketId)
      requires Sound() && s in sockets && sockets[s] != Closed
      modifies `sockets, `ws, `status, `backoffMs, `reconnectTimer, `pingInterval, `activeSubs
      ensures Sound() && sockets == old(sockets)[s := Closed]
      ensures ws == if old(ws) == Some(s) then None else old(ws)
      ensures old(ws) == Some(s) && listeners != {} ==>
        reconnectTimer && status == IsOffline && backoffMs == Doubled(old(backoffMs))
      ensures old(ws) != Some(s) ==> reconnectTimer == old(reconnectTimer)
    {
      hide Counts, Retained, Released, CountOf, Holders, WiredUp;
      WiresClose(Wiring(), s);
      sockets := sockets[s := Closed];
      if ws == Some(s) {
        Drop();
        Reschedule();
      }
    }

    /** Forgets the closed socket and its timers. */
    method Drop()
      modifies `pingInterval, `reconnectTimer, `ws, `activeSubs
      ensures !pingInterval && !reconnectTimer && ws.None? && activeSubs == {}
    {
      pingInterval := false;
      reconnectTimer := false;
      ws := None;
      activeSubs := {};
    }

    /** With listeners left, a reconnect is due after a longer and longer pause. */
    method Reschedule()
      modifies `status, `backoffMs, `reconnectTimer
      ensures Wiring() ==
        var w := old(Wiring());
        if w.idle then w else w.(status := IsOffline, backoffMs := Doubled(w.backoffMs), reconnect := true)
    {
      if listeners != {} {
        status := IsOffline;
        backoffMs := Doubled(backoffMs);
        reconnectTimer := true;
      }
    }

    method OnReconnectTimer()
      requires Sound() && reconnectTimer
      modifies `ws, `status, `reconnectTimer, `sockets, `nextSocket, `remote
      ensures Sound()
      ensures ws == Some(old(nextSocket)) && sockets == old(sockets)[old(nextSocket) := Connecting] && !reconnectTimer
    {
      hide Counts, Retained, Released, CountOf, Holders, WiredUp;
      WiresReconnect(Wiring());
      Connect();
    }

    /** The grace period is over: without listeners everything is torn down, and
        the counts are right again whatever happened before. */
    method OnTeardownTimer()
      requires Sound() && teardownTimer
      modifies `teardownTimer, `pingInterval, `reconnectTimer, `activeSubs, `refcounts, `sockets, `ws
      ensures Valid()
      ensures ws.None? && !reconnectTimer && !teardownTimer && refcounts == map[]
      ensures forall s :: s in sockets ==> sockets[s] == Closing || sockets[s] == Closed
    {
      hide Counts, Retained, Released, CountOf, Holders, WiredUp;
      WiresTornDown(Wiring());
      teardownTimer := false;
      if listeners == {} {
        Teardown();
      }
    }

    method Teardown()
      requires listeners == {} && (ws.Some? ==> ws.value in sockets && sockets[ws.value] != Closed)
      modifies `teardownTimer, `pingInterval, `reconnectTimer, `activeSubs, `refcounts, `sockets, `ws
      ensures Exact() && refcounts == map[] && activeSubs == {}
      ensures Wiring() == TornDown(old(Wiring()))
    {
      hide Counts, Holders, CountOf;
      NoListeners(channels);
      teardownTimer := false;
      pingInterval := false;
      reconnectTimer := false;
      activeSubs := {};
      refcounts := map[];
      if ws.Some? { sockets := sockets[ws.value := Closing]; }
      ws := None;
    }

    /**
     * One thing that happens to the client; what cannot happen in the present
     * state (an event of a socket or timer that is not there) is skipped. The
     * registry follows the calls alone; an event of the current socket or a timer
     * leaves the socket it announces.
     */
    method Handle(e: Event)
      requires Sound()
      modifies this
      ensures Sound() && Registered() == After(old(Registered()), e)
      ensures old(Exact()) && Disciplined(old(Registered()), e) ==> Exact()
      ensures e.Opened? && e.s in old(sockets) && old(sockets)[e.s] == Connecting ==> ws == Some(e.s) && IsOpen()
      ensures e.WasClosed? && e.s in old(sockets) ==> e.s in sockets && sockets[e.s] == Closed && ws != Some(e.s)
      ensures e.ReconnectFires? && old(reconnectTimer) ==> ws == Some(old(nextSocket)) && !reconnectTimer
      ensures e.TeardownFires? && old(teardownTimer) ==> ws.None? && !teardownTimer && !reconnectTimer && Exact()
    {
      hide Counts, Retained, Released, CountOf, Holders, WiredUp;
      match e {
        case Create(l, keys) => if l !in channels { NewListener(l, keys); }
        case Add(l) => if l in channels { AddListener(l); }
        case RemoveL(l) => RemoveListener(l);
        case SetChannels(l, next) => if l in channels { SetListenerChannels(l, next); }
        case Opened(s) => if s in sockets && sockets[s] == Connecting { OnOpen(s); }
        case StartedClosing(s) => if s in sockets && sockets[s] != Closed { OnClosing(s); }
        case WasClosed(s) =>
          CurrentNotClosed(Wiring());
          if s in sockets && sockets[s] != Closed { OnClose(s); }
        case ReconnectFires => if reconnectTimer { OnReconnectTimer(); }
        case TeardownFires => if teardownTimer { OnTeardownTimer(); }
      }
    }

    /** A listener object comes into being, not yet registered. */
    method NewListener(l: ListenerId, keys: set<Key>)
      requires Sound() && l !in channels
      modifies `channels
      ensures Sound() && channels == old(channels)[l := keys]
      ensures Exact() <==> old(Exact())
    {
      ghost var was := channels;
      channels := channels[l := keys];
      forall key ensures Holders(listeners, channels, key) == Holders(listeners, was, key) {
      }
    }

    /**
     * Every run: subscriptions, socket and timers stay in order whatever the
     * callers do; the registry is the one their calls add up to; and if they keep
     * their discipline, every count is the number of listeners on its channel.
     */
    method Run(events: seq<Event>)
      requires Sound()
      modifies this
      ensures Sound() && Registered() == AfterAll(old(Registered()), events)
      ensures old(Exact()) && DisciplinedRun(old(Registered()), events) ==> Exact()
    {
      hide Counts, After, Disciplined;
      ghost var start := Registered();
      ghost var exact := Exact();
      for i := 0 to |events|
        invariant Sound() && Registered() == AfterAll(start, events[..i])
        invariant exact && DisciplinedRun(start, events[..i]) ==> Exact()
      {
        PrefixDisciplined(start, events, i);
        Handle(events[i]);
      }
      assert events[..|events|] == events;
    }
  }

  lemma PrefixDisciplined(reg: Registry, events: seq<Event>, i: nat)
    requires i < |events|
    ensures AfterAll(reg, events[..i + 1]) == After(AfterAll(reg, events[..i]), events[i])
    ensures DisciplinedRun(reg, events[..i + 1]) ==>
      DisciplinedRun(reg, events[..i]) && Disciplined(AfterAll(reg, events[..i]), events[i])
  {
    var more, some := events[..i + 1], events[..i];
    assert more[..i] == some;
    if DisciplinedRun(reg, more) {
      forall k | 0 <= k < |some| ensures Disciplined(AfterAll(reg, some[..k]), some[k]) {
        assert more[..k] == some[..k] && more[k] == some[k];
      }
      assert Disciplined(AfterAll(reg, more[..i]), more[i]);
    }
  }
}
