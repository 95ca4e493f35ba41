/** The connection broker ("brain boss") of the controller web server.

    It keeps a registry of live client connections keyed by client id
    (`type_-_name_-_uniqueId`, in insertion order), a table of callers waiting
    for a connection that advertises some capability, and routes focus and
    fade requests addressed as `<clientId>:<localId>` to the connection that
    owns the address. */
module Brain {
  import opened Wrappers
  import opened Seqs

  /** Separates the owning client's id from a client-local id in an address. */
  const ScopeDelimiter: char := ':'
  /** Joins type, name and unique id into a client id. */
  const FieldJoiner: string := "_-_"

  /** A live client connection, seen by the broker as a value: an opaque
      handle, the identity it reported and the capabilities it advertises. */
  datatype Conn = Conn(
    handle: nat,
    clientType: string,
    clientName: string,
    clientUniqueId: string,
    capabilities: seq<string>)

  /** Stands for the resolve function of one pending `_awaitConnWithCapability` promise. */
  datatype Waiter = Waiter(id: nat)

  /** One call `resolve(conn)`: the waiter resumes with `conn`. */
  datatype Resolution = Resolution(waiter: Waiter, conn: Conn)

  /** The extra properties merged into a routed item. */
  datatype Extra = FocusSlot(focusSlotId: Option<string>) | FadeValue(value: real)

  /** `{ containerId, ...extraProps }` */
  datatype Item = Item(containerId: string, extra: Extra)

  /** One `conn.sendMessage(messageType, { items })` call. */
  datatype Message = Message(to: Conn, messageType: string, items: seq<Item>)

  datatype DebugRow = DebugRow(clientType: string, clientName: string, clientUniqueId: string)

  datatype DebugTable = DebugTable(headers: seq<string>, data: seq<DebugRow>)

  // ---------------------------------------------------------------------------
  // Addresses

  /** `extractClientId`: the longest prefix of the address without a ':'. */
  function ExtractClientId(prefixed: string): (r: string)
    ensures r <= prefixed && ScopeDelimiter !in r
    ensures |r| == |prefixed| || prefixed[|r|] == ScopeDelimiter
  {
    BeforeFirst(prefixed, ScopeDelimiter)
  }

  /** `extractUnprefixedContainerId`: the client-local part of an address.
      None stands for null/undefined, which is handed back unchanged, as is
      the (falsy) empty string. */
  function ExtractUnprefixedContainerId(prefixed: Option<string>): (r: Option<string>)
    ensures prefixed.None? <==> r.None?
    ensures prefixed.Some? && ScopeDelimiter !in prefixed.value ==> r == prefixed
    ensures prefixed.Some? && ScopeDelimiter in prefixed.value ==>
              prefixed.value == ExtractClientId(prefixed.value) + [ScopeDelimiter] + r.value
  {
    match prefixed
    case None => prefixed
    case Some(s) =>
      if s == "" then prefixed else Some(AfterFirst(s, ScopeDelimiter))
  }

  /** The registry key `${type}_-_${name}_-_${uniqueId}`. */
  function ClientKey(clientType: string, name: string, uniqueId: string): (r: string)
    ensures clientType <= r
    ensures ScopeDelimiter in r <==>
              ScopeDelimiter in clientType || ScopeDelimiter in name || ScopeDelimiter in uniqueId
  {
    assert ScopeDelimiter !in FieldJoiner;
    clientType + FieldJoiner + name + FieldJoiner + uniqueId
  }

  /** `s.slice(0, -1)`: all but the last character; "" stays "". */
  function DropLast(s: string): (r: string)
    ensures |s| == 0 ==> r == s
    ensures |s| > 0 ==> r + [s[|s| - 1]] == s
  {
    if |s| == 0 then s else s[..|s| - 1]
  }

  /** The id prefix `registerClient` returns, from which callers build addresses. */
  function IdPrefix(clientType: string, name: string, uniqueId: string): (r: string)
    ensures DropLast(r) == ClientKey(clientType, name, uniqueId)
    ensures r[|r| - 1] == ScopeDelimiter
  {
    ClientKey(clientType, name, uniqueId) + [ScopeDelimiter]
  }

  /** An address built from a registered prefix splits back into the registry
      key and the local id, provided the identity fields hold no ':' (the
      local id may hold any). */
  lemma {:induction false} AddressRoundTrip(clientType: string, name: string, uniqueId: string, localId: string)
    requires ScopeDelimiter !in clientType && ScopeDelimiter !in name && ScopeDelimiter !in uniqueId
    ensures ExtractClientId(IdPrefix(clientType, name, uniqueId) + localId) == ClientKey(clientType, name, uniqueId)
    ensures ExtractUnprefixedContainerId(Some(IdPrefix(clientType, name, uniqueId) + localId)) == Some(localId)
  {
    var key := ClientKey(clientType, name, uniqueId);
    assert ScopeDelimiter !in FieldJoiner;
    assert ScopeDelimiter !in key;
    assert IdPrefix(clientType, name, uniqueId) + localId == key + [ScopeDelimiter] + localId;
    SplitJoined(key, ScopeDelimiter, localId);
  }

  // ---------------------------------------------------------------------------
  // Insertion-ordered keys of a JavaScript Map

  /** Key order after `map.set(k, v)`: a new key goes last, a present one keeps its place. */
  function KeysAfterSet(keys: seq<string>, k: string): (r: seq<string>)
    ensures keys <= r && k in r
    ensures forall x :: x in r ==> x in keys || x == k
    ensures Distinct(keys) ==> Distinct(r)
  {
    if k in keys then keys else keys + [k]
  }

  /** Key order after `map.delete(k)`: `k` is gone and the other keys keep their order. */
  function KeysAfterDelete(keys: seq<string>, k: string): (r: seq<string>)
    ensures forall x :: x in r <==> x in keys && x != k
    ensures k !in keys ==> r == keys
    ensures Distinct(keys) ==> Distinct(r)
  {
    if keys == [] then []
    else
      var rest := KeysAfterDelete(keys[1..], k);
      if keys[0] == k then rest
      else
        assert Distinct(keys) ==> keys[0] !in keys[1..] && keys[0] !in rest;
        [keys[0]] + rest
  }

  /** Deleting a present key cuts exactly its slot out of the key order. */
  lemma {:induction false} KeysAfterDeleteAt(keys: seq<string>, i: int)
    requires Distinct(keys) && 0 <= i < |keys|
    ensures KeysAfterDelete(keys, keys[i]) == keys[..i] + keys[i + 1..]
  {
    var k := keys[i];
    assert keys == keys[..i] + [k] + keys[i + 1..];
    assert k !in keys[..i] && k !in keys[i + 1..];
    KeysAfterDeleteJoined(keys[..i], k, keys[i + 1..]);
  }

  /** Deleting a key that occurs once, between `a` and `b`, leaves `a + b`. */
  lemma {:induction false} KeysAfterDeleteJoined(a: seq<string>, k: string, b: seq<string>)
    requires k !in a && k !in b
    ensures KeysAfterDelete(a + [k] + b, k) == a + b
  {
    var keys := a + [k] + b;
    if a == [] {
      assert keys[1..] == b;
    } else {
      assert keys[0] == a[0] && keys[1..] == a[1..] + [k] + b;
      KeysAfterDeleteJoined(a[1..], k, b);
      assert a + b == [a[0]] + (a[1..] + b);
    }
  }

  function ValuesInOrder(keys: seq<string>, m: map<string, Conn>): (r: seq<Conn>)
    requires forall k :: k in keys ==> k in m
    ensures |r| == |keys| && forall i :: 0 <= i < |keys| ==> r[i] == m[keys[i]]
  {
    if keys == [] then [] else [m[keys[0]]] + ValuesInOrder(keys[1..], m)
  }

  // ---------------------------------------------------------------------------
  // Capability lookup and the wait table

  /** Position of the first connection that advertises `capability`, or -1. */
  function FirstWithCapability(conns: seq<Conn>, capability: string): (k: int)
    ensures -1 <= k < |conns|
    ensures k == -1 <==> forall i :: 0 <= i < |conns| ==> capability !in conns[i].capabilities
    ensures 0 <= k ==> capability in conns[k].capabilities
    ensures 0 <= k ==> forall i :: 0 <= i < k ==> capability !in conns[i].capabilities
  {
    if conns == [] then -1
    else if capability in conns[0].capabilities then 0
    else
      var k := FirstWithCapability(conns[1..], capability);
      if k == -1 then -1 else k + 1
  }

  /** The waiters queued for `capability`, none if it has no entry. */
  function PendingFor(waiting: map<string, seq<Waiter>>, capability: string): seq<Waiter> {
    if capability in waiting then waiting[capability] else []
  }

  /** Every waiter of `ws`, in order, resumed with `conn`. */
  function ResolveAll(ws: seq<Waiter>, conn: Conn): seq<Resolution> {
    seq(|ws|, i requires 0 <= i < |ws| => Resolution(ws[i], conn))
  }

  /** The resolutions performed when `conn` announces `caps` against the wait
      table `waiting`: taking the capabilities in order, each one that has
      waiters and was not announced earlier in `caps` resumes its whole list. */
  function Resolved(waiting: map<string, seq<Waiter>>, caps: seq<string>, conn: Conn): seq<Resolution> {
    if caps == [] then []
    else
      var earlier := caps[..|caps| - 1];
      var c := caps[|caps| - 1];
      Resolved(waiting, earlier, conn)
        + (if c in waiting && c !in earlier then ResolveAll(waiting[c], conn) else [])
  }

  /** An announcement resumes only waiters queued for an announced
      capability, and resumes them with the announcing connection. */
  lemma {:induction false} ResolvedOnlyAnnounced(waiting: map<string, seq<Waiter>>, caps: seq<string>, conn: Conn, i: int)
    requires 0 <= i < |Resolved(waiting, caps, conn)|
    ensures var r := Resolved(waiting, caps, conn)[i];
            r.conn == conn && exists c :: c in caps && c in waiting && r.waiter in waiting[c]
  {
    var earlier := caps[..|caps| - 1];
    var last := caps[|caps| - 1];
    var before := Resolved(waiting, earlier, conn);
    if i < |before| {
      ResolvedOnlyAnnounced(waiting, earlier, conn, i);
      var c :| c in earlier && c in waiting && before[i].waiter in waiting[c];
      assert c in caps;
    } else {
      assert Resolved(waiting, caps, conn)[i] == ResolveAll(waiting[last], conn)[i - |before|];
      assert last in caps;
    }
  }

  /** FIFO: the waiters of an announced capability are resumed one after
      another, in queue order, starting where the resolutions of the
      capabilities announced before its first mention end. */
  lemma {:induction false} ResolvedInFifoBlock(waiting: map<string, seq<Waiter>>, caps: seq<string>, conn: Conn, j: int)
    requires 0 <= j < |caps| && caps[j] !in caps[..j] && caps[j] in waiting
    ensures var start := |Resolved(waiting, caps[..j], conn)|;
            var ws := waiting[caps[j]];
            start + |ws| <= |Resolved(waiting, caps, conn)| &&
            Resolved(waiting, caps, conn)[start..start + |ws|] == ResolveAll(ws, conn)
  {
    var n := |caps| - 1;
    var earlier := caps[..n];
    if j == n {
      assert caps[..j] == earlier;
    } else {
      assert earlier[..j] == caps[..j];
      assert earlier[j] == caps[j];
      ResolvedInFifoBlock(waiting, earlier, conn, j);
    }
  }

  /** Rendezvous: a waiter queued for a capability is resumed with the
      connection that announces that capability. */
  lemma {:induction false} WaiterResumedByAnnouncement(waiting: map<string, seq<Waiter>>, caps: seq<string>, conn: Conn, c: string, i: int)
    requires c in caps && c in waiting && 0 <= i < |waiting[c]|
    ensures Resolution(waiting[c][i], conn) in Resolved(waiting, caps, conn)
  {
    var j := IndexOf(caps, c);
    ResolvedInFifoBlock(waiting, caps, conn, j);
    var start := |Resolved(waiting, caps[..j], conn)|;
    var r := Resolved(waiting, caps, conn);
    var block := ResolveAll(waiting[c], conn);
    assert block[i] == Resolution(waiting[c][i], conn);
    assert r[start..start + |waiting[c]|] == block;
    assert r[start + i] == block[i];
  }

  // ---------------------------------------------------------------------------
  // The broker

  class BrainBoss {
    /** Keys of `clientsByPrefix`, in insertion order. */
    var prefixes: seq<string>
    /** `clientsByPrefix`: client key to connection. */
    var clients: map<string, Conn>
    /** `awaitingClientsByCapability`: capability to its FIFO list of waiters. */
    var waiting: map<string, seq<Waiter>>
    /** Every `sendMessage` made on a connection, in order. */
    var outbox: seq<Message>
    /** Every waiter resolution, in order. */
    var resolutions: seq<Resolution>
    /** How many times `debugStateUpdated` has fired. */
    var debugUpdates: nat

    ghost predicate Valid()
      reads this
    {
      && Distinct(prefixes)
      && (forall k :: k in clients <==> k in prefixes)
      && (forall c :: c in waiting ==> waiting[c] != [])
    }

    constructor ()
      ensures Valid()
      ensures prefixes == [] && clients == map[] && waiting == map[]
      ensures outbox == [] && resolutions == [] && debugUpdates == 0
    {
      prefixes, clients, waiting := [], map[], map[];
      outbox, resolutions, debugUpdates := [], [], 0;
    }

    /** The registered connections, in registry insertion order. */
    function Connections(): (r: seq<Conn>)
      reads this
      requires Valid()
      ensures |r| == |prefixes|
      ensures forall i :: 0 <= i < |prefixes| ==> r[i] == clients[prefixes[i]]
    {
      ValuesInOrder(prefixes, clients)
    }

    /** `renderDebugState`: one (type, name, unique id) row per registered
        connection, in registry insertion order. */
    method RenderDebugState() returns (table: DebugTable)
      requires Valid()
      ensures table.headers == ["Type", "Name", "UniqueId"]
      ensures |table.data| == |prefixes|
      ensures forall i :: 0 <= i < |prefixes| ==>
                var conn := clients[prefixes[i]];
                table.data[i] == DebugRow(conn.clientType, conn.clientName, conn.clientUniqueId)
    {
      var rows: seq<DebugRow> := [];
      for i := 0 to |prefixes|
        invariant |rows| == i
        invariant forall j :: 0 <= j < i ==>
                    var conn := clients[prefixes[j]];
                    rows[j] == DebugRow(conn.clientType, conn.clientName, conn.clientUniqueId)
      {
        var conn := clients[prefixes[i]];
        rows := rows + [DebugRow(conn.clientType, conn.clientName, conn.clientUniqueId)];
      }
      table := DebugTable(["Type", "Name", "UniqueId"], rows);
    }

    /** `registerClient`: (re)binds the client key to `conn` and returns the
        id prefix (the key plus ':'). */
    method RegisterClient(conn: Conn, clientType: string, name: string, uniqueId: string) returns (idPrefix: string)
      requires Valid()
      modifies this
      ensures Valid()
      ensures idPrefix == IdPrefix(clientType, name, uniqueId)
      ensures clients == old(clients)[ClientKey(clientType, name, uniqueId) := conn]
      ensures prefixes == KeysAfterSet(old(prefixes), ClientKey(clientType, name, uniqueId))
      ensures waiting == old(waiting) && outbox == old(outbox) && resolutions == old(resolutions)
      ensures debugUpdates == old(debugUpdates) + 1
    {
      idPrefix := IdPrefix(clientType, name, uniqueId);
      var barePrefix := DropLast(idPrefix);
      prefixes := KeysAfterSet(prefixes, barePrefix);
      clients := clients[barePrefix := conn];
      debugUpdates := debugUpdates + 1;
    }

    /** `unregisterClient`: deletes the key `idPrefix` minus its last
        character, whichever connection it is bound to; an absent key is a
        no-op. The connection argument is not consulted. */
    method UnregisterClient(conn: Conn, idPrefix: string)
      requires Valid()
      modifies this
      ensures Valid()
      ensures clients == old(clients) - {DropLast(idPrefix)}
      ensures prefixes == KeysAfterDelete(old(prefixes), DropLast(idPrefix))
      ensures waiting == old(waiting) && outbox == old(outbox) && resolutions == old(resolutions)
      ensures debugUpdates == old(debugUpdates) + 1
    {
      var barePrefix := DropLast(idPrefix);
      prefixes := KeysAfterDelete(prefixes, barePrefix);
      clients := clients - {barePrefix};
      debugUpdates := debugUpdates + 1;
    }

    /** `reportClientCapabilities`: for each announced capability that has
        waiters, resumes all of them with `conn` in FIFO order and drops the
        entry; waiters for other capabilities stay queued. */
    method ReportClientCapabilities(conn: Conn, capabilities: seq<string>)
      requires Valid()
      modifies this
      ensures Valid()
      ensures waiting == old(waiting) - Elems(capabilities)
      ensures resolutions == old(resolutions) + Resolved(old(waiting), capabilities, conn)
      ensures prefixes == old(prefixes) && clients == old(clients) && outbox == old(outbox)
      ensures debugUpdates == old(debugUpdates) + 1
    {
      for i := 0 to |capabilities|
        invariant Valid()
        invariant waiting == old(waiting) - Elems(capabilities[..i])
        invariant resolutions == old(resolutions) + Resolved(old(waiting), capabilities[..i], conn)
        invariant prefixes == old(prefixes) && clients == old(clients) && outbox == old(outbox)
        invariant debugUpdates == old(debugUpdates)
      {
        var capability := capabilities[i];
        assert capabilities[..i + 1][..i] == capabilities[..i];
        if capability in waiting {
          var pending := waiting[capability];
          var resolved := resolutions;
          for j := 0 to |pending|
            invariant resolved == resolutions + ResolveAll(pending[..j], conn)
          {
            resolved := resolved + [Resolution(pending[j], conn)];
          }
          assert pending[..|pending|] == pending;
          resolutions := resolved;
          waiting := waiting - {capability};
        }
        assert Elems(capabilities[..i + 1]) == Elems(capabilities[..i]) + {capability};
      }
      assert capabilities[..|capabilities|] == capabilities;
      debugUpdates := debugUpdates + 1;
    }

    /** `_messageContainerId`: sends one `messageType` message holding one
        item to the connection owning the address; drops the request when no
        such connection is registered. */
    method MessageContainerId(prefixedContainerId: string, messageType: string, extra: Extra)
      requires Valid()
      modifies this`outbox
      ensures var key := ExtractClientId(prefixedContainerId);
              var item := Item(ExtractUnprefixedContainerId(Some(prefixedContainerId)).value, extra);
              outbox == if key in clients then old(outbox) + [Message(clients[key], messageType, [item])]
                        else old(outbox)
    {
      var clientId := ExtractClientId(prefixedContainerId);
      if clientId !in clients {
        return;
      }
      var conn := clients[clientId];
      var containerId := ExtractUnprefixedContainerId(Some(prefixedContainerId)).value;
      outbox := outbox + [Message(conn, messageType, [Item(containerId, extra)])];
    }

    /** `focusContainerId`: a `selectThings` message whose item carries the
        local part of the slot address as `focusSlotId`. */
    method FocusContainerId(prefixedContainerId: string, prefixedSlotId: Option<string>)
      requires Valid()
      modifies this`outbox
      ensures var key := ExtractClientId(prefixedContainerId);
              var item := Item(ExtractUnprefixedContainerId(Some(prefixedContainerId)).value,
                               FocusSlot(ExtractUnprefixedContainerId(prefixedSlotId)));
              outbox == if key in clients then old(outbox) + [Message(clients[key], "selectThings", [item])]
                        else old(outbox)
    {
      var focusSlotId := ExtractUnprefixedContainerId(prefixedSlotId);
      MessageContainerId(prefixedContainerId, "selectThings", FocusSlot(focusSlotId));
    }

    /** `fadeContainerId`: a `fadeThings` message whose item carries `value`. */
    method FadeContainerId(prefixedContainerId: string, value: real)
      requires Valid()
      modifies this`outbox
      ensures var key := ExtractClientId(prefixedContainerId);
              var item := Item(ExtractUnprefixedContainerId(Some(prefixedContainerId)).value, FadeValue(value));
              outbox == if key in clients then old(outbox) + [Message(clients[key], "fadeThings", [item])]
                        else old(outbox)
    {
      MessageContainerId(prefixedContainerId, "fadeThings", FadeValue(value));
    }

    /** `_findConnWithCapability`: the first registered connection, in
        insertion order, that advertises `capability`; None for null. */
    method FindConnWithCapability(capability: string) returns (r: Option<Conn>)
      requires Valid()
      ensures var k := FirstWithCapability(Connections(), capability);
              r == if k == -1 then None else Some(Connections()[k])
    {
      for i := 0 to |prefixes|
        invariant forall j :: 0 <= j < i ==> capability !in clients[prefixes[j]].capabilities
      {
        var conn := clients[prefixes[i]];
        if capability in conn.capabilities {
          return Some(conn);
        }
      }
      return None;
    }

    /** `_awaitConnWithCapability`: answers at once with a registered
        connection that advertises `capability` (Some), leaving the wait table
        alone; otherwise queues `waiter` at the end of that capability's list,
        creating the list if needed, and the caller stays suspended (None)
        until an announcement resumes it. */
    method AwaitConnWithCapability(capability: string, waiter: Waiter) returns (r: Option<Conn>)
      requires Valid()
      modifies this`waiting
      ensures Valid()
      ensures var k := FirstWithCapability(Connections(), capability);
              r == if k == -1 then None else Some(Connections()[k])
      ensures r.Some? ==> waiting == old(waiting)
      ensures r.None? ==> waiting == old(waiting)[capability := PendingFor(old(waiting), capability) + [waiter]]
    {
      r := FindConnWithCapability(capability);
      if r.Some? {
        return;
      }
      var pending := if capability in waiting then waiting[capability] else [];
      waiting := waiting[capability := pending + [waiter]];
    }
  }

  /** Routing to a registered address reaches the connection registered under
      its prefix with the local id intact. */
  lemma RouteToRegisteredAddress(clients: map<string, Conn>, clientType: string, name: string, uniqueId: string, localId: string)
    requires ScopeDelimiter !in clientType && ScopeDelimiter !in name && ScopeDelimiter !in uniqueId
    requires ClientKey(clientType, name, uniqueId) in clients
    ensures var address := IdPrefix(clientType, name, uniqueId) + localId;
            ExtractClientId(address) in clients &&
            clients[ExtractClientId(address)] == clients[ClientKey(clientType, name, uniqueId)] &&
            ExtractUnprefixedContainerId(Some(address)).value == localId
  {
    AddressRoundTrip(clientType, name, uniqueId, localId);
  }
}
