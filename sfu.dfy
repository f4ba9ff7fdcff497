/** sfu.go: the default bitrate configuration, the registry of connected
    clients keyed by client ID, and the SFU's client-added and
    client-removed callbacks. */
module Sfu {
  import opened Common

  /** BitrateConfigs: bits per second for each stream class, and the
      pixel counts that define the video tiers. */
  datatype BitrateConfigs = BitrateConfigs(
    audioRed: uint32,
    audio: uint32,
    video: uint32,
    videoHigh: uint32,
    videoHighPixels: uint32,
    videoMid: uint32,
    videoMidPixels: uint32,
    videoLow: uint32,
    videoLowPixels: uint32,
    initialBandwidth: uint32)

  /** DefaultBitrates: the video tiers are ordered low < mid < high in both
      bitrate and pixels, each tier has a quarter of the pixels of the one
      above it, plain video is sent at the high rate, RED audio costs more
      than plain audio, and the initial estimate is 1 Mbit/s. */
  function DefaultBitrates(): (b: BitrateConfigs)
    ensures b.videoLow < b.videoMid < b.videoHigh
    ensures b.video == b.videoHigh
    ensures b.videoLowPixels < b.videoMidPixels < b.videoHighPixels
    ensures 4 * b.videoLowPixels == b.videoMidPixels && 4 * b.videoMidPixels == b.videoHighPixels
    ensures b.audio < b.audioRed < b.videoLow
    ensures b.videoHigh < b.initialBandwidth == 1_000_000
  {
    BitrateConfigs(
      audioRed := 75_000,
      audio := 48_000,
      video := 700_000,
      videoHigh := 700_000,
      videoHighPixels := 720 * 360,
      videoMid := 300_000,
      videoMidPixels := 360 * 180,
      videoLow := 90_000,
      videoLowPixels := 180 * 90,
      initialBandwidth := 1_000_000)
  }

  /** A *Client as the registry sees it: the pointer's identity and the
      ID its ID() method returns. */
  datatype Client = Client(ref: nat, id: string)

  /** ErrClientNotFound and ErrClientExists. */
  datatype RegistryError = ClientNotFound | ClientExists

  /** Add on a client map: fails when the ID is taken, otherwise stores
      the client under its ID. */
  function Insert(m: map<string, Client>, c: Client): (r: Outcome<map<string, Client>>)
  {
    if c.id in m then Failure(ClientExists) else Success(m[c.id := c])
  }

  /** Remove on a client map: fails when the ID is absent, otherwise drops
      the entry stored under the client's ID, whichever client it holds. */
  function Delete(m: map<string, Client>, c: Client): (r: Outcome<map<string, Client>>)
  {
    if c.id !in m then Failure(ClientNotFound) else Success(m - {c.id})
  }

  /** GetClient on a client map. */
  function Lookup(m: map<string, Client>, id: string): (r: Outcome<Client>)
  {
    if id in m then Success(m[id]) else Failure(ClientNotFound)
  }

  /** A result carrying a registry error. */
  datatype Outcome<T> = Success(value: T) | Failure(error: RegistryError)

  /** Add fails iff the ID is taken, and then leaves nothing to change;
      otherwise the client is found under its ID, every other ID finds
      what it found before, and the registry grows by one. */
  lemma InsertEffect(m: map<string, Client>, c: Client, id: string)
    ensures Insert(m, c).Failure? <==> c.id in m
    ensures Insert(m, c).Failure? ==> Insert(m, c).error == ClientExists
    ensures Insert(m, c).Success? ==>
      && |Insert(m, c).value| == |m| + 1
      && Lookup(Insert(m, c).value, c.id) == Success(c)
      && (id != c.id ==> Lookup(Insert(m, c).value, id) == Lookup(m, id))
  {
  }

  /** Remove fails iff the ID is absent; otherwise the ID is no longer
      found, every other ID finds what it found before, and the registry
      shrinks by one. */
  lemma DeleteEffect(m: map<string, Client>, c: Client, id: string)
    ensures Delete(m, c).Failure? <==> c.id !in m
    ensures Delete(m, c).Failure? ==> Delete(m, c).error == ClientNotFound
    ensures Delete(m, c).Success? ==>
      && |Delete(m, c).value| == |m| - 1
      && Lookup(Delete(m, c).value, c.id) == Failure(ClientNotFound)
      && (id != c.id ==> Lookup(Delete(m, c).value, id) == Lookup(m, id))
  {
  }

  /** Removing a client just added restores the registry. */
  lemma InsertThenDelete(m: map<string, Client>, c: Client)
    requires Insert(m, c).Success?
    ensures Delete(Insert(m, c).value, c) == Success(m)
  {
    assert m[c.id := c] - {c.id} == m;
  }

  /** Adding back a client just removed restores the registry. */
  lemma DeleteThenInsert(m: map<string, Client>, c: Client)
    requires Lookup(m, c.id) == Success(c)
    ensures Insert(Delete(m, c).value, c) == Success(m)
  {
    assert (m - {c.id})[c.id := c] == m;
  }

  /** SFUClients: the clients map guarded by a mutex. */
  class SFUClients {
    var clients: map<string, Client>

    /** The registry New creates: no clients. */
    constructor ()
      ensures clients == map[]
    {
      clients := map[];
    }

    /** GetClients: a fresh map filled entry by entry, in map order, with
        exactly the current entries. */
    method GetClients() returns (copy: map<string, Client>)
      ensures copy == clients
    {
      copy := map[];
      var rest := clients.Keys;
      while rest != {}
        invariant rest <= clients.Keys
        invariant copy.Keys == clients.Keys - rest
        invariant forall k :: k in copy ==> copy[k] == clients[k]
        decreases rest
      {
        var k :| k in rest;
        copy := copy[k := clients[k]];
        rest := rest - {k};
      }
    }

    /** GetClient: the client stored under id, or ErrClientNotFound. */
    method GetClient(id: string) returns (r: Outcome<Client>)
      ensures r == Lookup(clients, id)
      ensures r.Success? <==> id in clients
      ensures r.Success? ==> r.value in clients.Values
    {
      if id in clients {
        return Success(clients[id]);
      }
      return Failure(ClientNotFound);
    }

    /** Length: the number of registered clients. */
    method Length() returns (n: nat)
      ensures n == |clients|
    {
      n := |clients|;
    }

    /** Add: ErrClientExists when the ID is taken, otherwise stores the
        client under its ID. */
    method Add(client: Client) returns (err: Option<RegistryError>)
      modifies this`clients
      ensures Insert(old(clients), client).Failure? ==>
        err == Some(ClientExists) && clients == old(clients)
      ensures Insert(old(clients), client).Success? ==>
        err == None && clients == Insert(old(clients), client).value
    {
      if client.id in clients {
        return Some(ClientExists);
      }
      clients := clients[client.id := client];
      return None;
    }

    /** Remove: ErrClientNotFound when the ID is absent, otherwise deletes
        the entry under the client's ID. */
    method Remove(client: Client) returns (err: Option<RegistryError>)
      modifies this`clients
      ensures Delete(old(clients), client).Failure? ==>
        err == Some(ClientNotFound) && clients == old(clients)
      ensures Delete(old(clients), client).Success? ==>
        err == None && clients == Delete(old(clients), client).value
    {
      if client.id !in clients {
        return Some(ClientNotFound);
      }
      clients := clients - {client.id};
      return None;
    }
  }

  /** The parts of sfuOptions that New stores and the model keeps. */
  datatype Options = Options(bitrates: BitrateConfigs, codecs: seq<string>, pliInterval: Duration)

  /** One run of a client callback: which callback ran, and for which client. */
  datatype Invocation = Invocation(callback: CallbackId, client: Client)

  /** The runs a callback loop makes for one client, in registration order. */
  function Invocations(callbacks: seq<CallbackId>, client: Client): (r: seq<Invocation>)
    ensures |r| == |callbacks|
    ensures forall i :: 0 <= i < |r| ==> r[i] == Invocation(callbacks[i], client)
  {
    if callbacks == [] then []
    else Invocations(callbacks[..|callbacks| - 1], client)
         + [Invocation(callbacks[|callbacks| - 1], client)]
  }

  class SFU {
    const clients: SFUClients
    var bitrateConfigs: BitrateConfigs
    var codecs: seq<string>
    var pliInterval: Duration
    var onClientAddedCallbacks: seq<CallbackId>
    var onClientRemovedCallbacks: seq<CallbackId>
    /** The callback runs so far, in order. */
    var invocations: seq<Invocation>

    /** New: an empty client registry, the options' bitrates, codecs and
        PLI interval, and no callbacks. */
    constructor (opts: Options)
      ensures fresh(clients) && clients.clients == map[]
      ensures bitrateConfigs == opts.bitrates && codecs == opts.codecs && pliInterval == opts.pliInterval
      ensures onClientAddedCallbacks == [] && onClientRemovedCallbacks == [] && invocations == []
    {
      clients := new SFUClients();
      bitrateConfigs := opts.bitrates;
      codecs := opts.codecs;
      pliInterval := opts.pliInterval;
      onClientAddedCallbacks := [];
      onClientRemovedCallbacks := [];
      invocations := [];
    }

    /** onClientAdded: runs every client-added callback once, in order. */
    method OnClientAdded(client: Client)
      modifies this`invocations
      ensures invocations == old(invocations) + Invocations(onClientAddedCallbacks, client)
    {
      for i := 0 to |onClientAddedCallbacks|
        invariant invocations == old(invocations) + Invocations(onClientAddedCallbacks[..i], client)
      {
        assert onClientAddedCallbacks[..i + 1][..i] == onClientAddedCallbacks[..i];
        invocations := invocations + [Invocation(onClientAddedCallbacks[i], client)];
      }
      assert onClientAddedCallbacks[..|onClientAddedCallbacks|] == onClientAddedCallbacks;
    }

    /** onClientRemoved: runs every client-removed callback once, in order. */
    method OnClientRemoved(client: Client)
      modifies this`invocations
      ensures invocations == old(invocations) + Invocations(onClientRemovedCallbacks, client)
    {
      for i := 0 to |onClientRemovedCallbacks|
        invariant invocations == old(invocations) + Invocations(onClientRemovedCallbacks[..i], client)
      {
        assert onClientRemovedCallbacks[..i + 1][..i] == onClientRemovedCallbacks[..i];
        invocations := invocations + [Invocation(onClientRemovedCallbacks[i], client)];
      }
      assert onClientRemovedCallbacks[..|onClientRemovedCallbacks|] == onClientRemovedCallbacks;
    }

    /** addClient: registers the client; the client-added callbacks run
        only when that succeeded. A duplicate ID is logged and changes
        nothing. */
    method AddClient(client: Client)
      modifies this`invocations, clients`clients
      ensures client.id in old(clients.clients) ==>
        clients.clients == old(clients.clients) && invocations == old(invocations)
      ensures client.id !in old(clients.clients) ==>
        && clients.clients == old(clients.clients)[client.id := client]
        && invocations == old(invocations) + Invocations(onClientAddedCallbacks, client)
    {
      var err := clients.Add(client);
      if err.Some? {
        return;
      }
      OnClientAdded(client);
    }
  }
}
