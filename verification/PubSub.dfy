/** Subscriptions (`TcpServer`'s two nested maps): who listens to a channel, and which channels
    a client listens to. The two indexes are inverse in every reachable state. */
module PubSub {
  import opened CommandParser
  import opened Operations

  /** `channelSubscribers_` and `clientSubscriptions_`. */
  datatype Index = Index(channels: map<string, map<int, Protocol>>, clients: map<int, set<string>>)

  function Subscribers(s: Index, channel: string): map<int, Protocol> {
    if channel in s.channels then s.channels[channel] else map[]
  }

  function Subscriptions(s: Index, client: int): set<string> {
    if client in s.clients then s.clients[client] else {}
  }

  /** The indexes say the same, and neither keeps an empty entry. */
  ghost predicate Inverse(s: Index) {
    && (forall client: int, channel: string ::
          channel in Subscriptions(s, client) <==> client in Subscribers(s, channel))
    && (forall client :: client in s.clients ==> s.clients[client] != {})
    && (forall channel :: channel in s.channels ==> s.channels[channel] != map[])
  }

  // ----- what each operation is for -------------------------------------------------------------------

  /** `client` listens to `wanted` as well, and is reached there by `protocol`. */
  function Add(s: Index, client: int, protocol: Protocol, wanted: set<string>): Index {
    Index(map channel | channel in s.channels.Keys + wanted ::
            if channel in wanted then Subscribers(s, channel)[client := protocol] else Subscribers(s, channel),
          s.clients[client := Subscriptions(s, client) + wanted])
  }

  /** `client` no longer listens to `unwanted`. */
  function Drop(s: Index, client: int, unwanted: set<string>): Index {
    Index(map channel | channel in s.channels && Without(s, client, unwanted, channel) != map[] ::
            Without(s, client, unwanted, channel),
          if Subscriptions(s, client) - unwanted == {} then s.clients - {client}
          else s.clients[client := Subscriptions(s, client) - unwanted])
  }

  function Without(s: Index, client: int, unwanted: set<string>, channel: string): map<int, Protocol> {
    if channel in unwanted then Subscribers(s, channel) - {client} else Subscribers(s, channel)
  }

  /** The clients in `gone` listen to nothing. */
  function Remove(s: Index, gone: set<int>): Index {
    Index(map channel | channel in s.channels && s.channels[channel] - gone != map[] :: s.channels[channel] - gone,
          s.clients - gone)
  }

  // ----- the indexes stay inverse ------------------------------------------------------------------------

  lemma AddKeepsInverse(s: Index, client: int, protocol: Protocol, wanted: set<string>)
    requires Inverse(s) && wanted != {}
    ensures Inverse(Add(s, client, protocol, wanted))
  {
    var r := Add(s, client, protocol, wanted);
    forall c: int, channel: string ensures channel in Subscriptions(r, c) <==> c in Subscribers(r, channel) {
      assert channel in Subscriptions(s, c) <==> c in Subscribers(s, channel);
    }
    forall channel | channel in r.channels ensures r.channels[channel] != map[] {
      if channel in wanted { assert client in r.channels[channel]; }
    }
  }

  lemma DropKeepsInverse(s: Index, client: int, unwanted: set<string>)
    requires Inverse(s)
    ensures Inverse(Drop(s, client, unwanted))
  {
    var r := Drop(s, client, unwanted);
    forall c: int, channel: string ensures channel in Subscriptions(r, c) <==> c in Subscribers(r, channel) {
      assert channel in Subscriptions(s, c) <==> c in Subscribers(s, channel);
      if c in Without(s, client, unwanted, channel) { assert channel in s.channels; }
    }
  }

  lemma RemoveKeepsInverse(s: Index, gone: set<int>)
    requires Inverse(s)
    ensures Inverse(Remove(s, gone))
  {
    var r := Remove(s, gone);
    forall c: int, channel: string ensures channel in Subscriptions(r, c) <==> c in Subscribers(r, channel) {
      assert channel in Subscriptions(s, c) <==> c in Subscribers(s, channel);
      if c in Subscribers(s, channel) - gone { assert channel in s.channels; }
    }
  }

  /** Dropping all of a client's subscriptions is removing the client. */
  lemma DropAllIsRemove(s: Index, client: int)
    requires Inverse(s)
    ensures Drop(s, client, Subscriptions(s, client)) == Remove(s, {client})
  {
    var d, r := Drop(s, client, Subscriptions(s, client)), Remove(s, {client});
    forall channel | channel in s.channels
      ensures Without(s, client, Subscriptions(s, client), channel) == s.channels[channel] - {client}
    {
      assert channel in Subscriptions(s, client) <==> client in Subscribers(s, channel);
      if channel !in Subscriptions(s, client) { assert s.channels[channel] - {client} == s.channels[channel]; }
    }
    assert Subscriptions(s, client) - Subscriptions(s, client) == {};
  }

  /** A removed client is nowhere, and nobody else is affected. */
  lemma RemoveIsThorough(s: Index, gone: set<int>, client: int, channel: string)
    requires Inverse(s)
    ensures client in gone ==> client !in Remove(s, gone).clients && client !in Subscribers(Remove(s, gone), channel)
    ensures client !in gone ==> Subscriptions(Remove(s, gone), client) == Subscriptions(s, client)
    ensures client !in gone && client in Subscribers(s, channel) ==>
              && client in Subscribers(Remove(s, gone), channel)
              && Subscribers(Remove(s, gone), channel)[client] == Subscribers(s, channel)[client]
  {
    if client !in gone && client in Subscribers(s, channel) { assert client in s.channels[channel] - gone; }
  }

  /** After SUBSCRIBE the client is reached on those channels, by its protocol, and everyone else
      on every channel as before. */
  lemma AddReaches(s: Index, client: int, protocol: Protocol, wanted: set<string>, c: int, channel: string)
    ensures var after := Add(s, client, protocol, wanted);
            if c == client && channel in wanted
            then c in Subscribers(after, channel) && Subscribers(after, channel)[c] == protocol
            else SameReach(after, s, c, channel)
  {
  }

  /** After UNSUBSCRIBE it is not reached there any more. */
  lemma DropReaches(s: Index, client: int, unwanted: set<string>, c: int, channel: string)
    ensures var after := Drop(s, client, unwanted);
            if c == client && channel in unwanted then c !in Subscribers(after, channel) else SameReach(after, s, c,
                                                                                                        channel)
  {
    if c in Subscribers(s, channel) && !(c == client && channel in unwanted) {
      assert c in Without(s, client, unwanted, channel);
    }
  }

  /** The client is reached on the channel, or not, and how, as before. */
  predicate SameReach(a: Index, b: Index, c: int, channel: string) {
    && (c in Subscribers(a, channel) <==> c in Subscribers(b, channel))
    && (c in Subscribers(b, channel) ==> Subscribers(a, channel)[c] == Subscribers(b, channel)[c])
  }

  // ----- runs ---------------------------------------------------------------------------------------------

  datatype PubSubEvent =
    | Subscribe(client: int, protocol: Protocol, channels: seq<string>)
    | Unsubscribe(client: int, channels: seq<string>)
    | Publish(channel: string, failing: set<int>)
    | Disconnect(client: int)

  /** SUBSCRIBE needs a channel; UNSUBSCRIBE without one means all; a subscriber that cannot be
      sent a published message is removed. */
  function Step(s: Index, e: PubSubEvent): Index {
    match e
    case Subscribe(client, protocol, channels) =>
      if channels == [] then s else Add(s, client, protocol, AsSet(channels))
    case Unsubscribe(client, channels) =>
      Drop(s, client, if channels == [] then Subscriptions(s, client) else AsSet(channels))
    case Publish(channel, failing) => Remove(s, Subscribers(s, channel).Keys * failing)
    case Disconnect(client) => Remove(s, {client})
  }

  function PlayEvents(s: Index, events: seq<PubSubEvent>): Index {
    if events == [] then s else Step(PlayEvents(s, events[..|events| - 1]), events[|events| - 1])
  }

  /** Who is reached after an event: a subscriber on its channels, by its protocol; no longer one
      that has unsubscribed, gone away or failed to take a message; and everyone else, on every
      channel, as before. */
  lemma ReachAfter(s: Index, e: PubSubEvent, c: int, channel: string)
    requires Inverse(s)
    ensures var after := Step(s, e);
            match e
            case Subscribe(client, protocol, channels) =>
              if c == client && channel in channels
              then c in Subscribers(after, channel) && Subscribers(after, channel)[c] == protocol
              else SameReach(after, s, c, channel)
            case Unsubscribe(client, channels) =>
              if c == client && (channels == [] || channel in channels)
              then c !in Subscribers(after, channel) else SameReach(after, s, c, channel)
            case Publish(ch, failing) =>
              if c in failing && c in Subscribers(s, ch)
              then c !in Subscribers(after, channel) else SameReach(after, s, c, channel)
            case Disconnect(client) =>
              if c == client then c !in Subscribers(after, channel) else SameReach(after, s, c, channel)
  {
    hide Add, Drop, Remove, Inverse, SameReach;
    SameReachItself(s, c, channel);
    match e {
      case Subscribe(client, protocol, channels) => AddReaches(s, client, protocol, AsSet(channels), c, channel);
      case Unsubscribe(client, channels) =>
        if channels == [] {
          DropAllIsRemove(s, client);
          RemoveReaches(s, {client}, c, channel);
        } else {
          DropReaches(s, client, AsSet(channels), c, channel);
        }
      case Publish(ch, failing) => RemoveReaches(s, Subscribers(s, ch).Keys * failing, c, channel);
      case Disconnect(client) => RemoveReaches(s, {client}, c, channel);
    }
  }

  lemma SameReachItself(s: Index, c: int, channel: string)
    ensures SameReach(s, s, c, channel)
  {
  }

  lemma RemoveReaches(s: Index, gone: set<int>, c: int, channel: string)
    ensures var after := Remove(s, gone);
            if c in gone then c !in Subscribers(after, channel) else SameReach(after, s, c, channel)
  {
    if c in Subscribers(s, channel) && c !in gone { assert c in s.channels[channel] - gone; }
  }

  const EMPTY: Index := Index(map[], map[])

  /** In every reachable state a client is among a channel's subscribers if and only if the
      channel is among the client's subscriptions, and no empty entry is kept. */
  lemma {:induction false} AlwaysInverse(events: seq<PubSubEvent>)
    ensures Inverse(PlayEvents(EMPTY, events))
  {
    hide Add, Drop, Remove;
    if events == [] {
      assert Inverse(EMPTY) by { EmptyIsInverse(); }
    } else {
      hide Inverse;
      AlwaysInverse(events[..|events| - 1]);
      var s := PlayEvents(EMPTY, events[..|events| - 1]);
      match events[|events| - 1] {
        case Subscribe(client, protocol, channels) =>
          if channels != [] {
            assert channels[0] in AsSet(channels);
            AddKeepsInverse(s, client, protocol, AsSet(channels));
          }
        case Unsubscribe(client, channels) =>
          DropKeepsInverse(s, client, if channels == [] then Subscriptions(s, client) else AsSet(channels));
        case Publish(channel, failing) => RemoveKeepsInverse(s, Subscribers(s, channel).Keys * failing);
        case Disconnect(client) => RemoveKeepsInverse(s, {client});
      }
    }
  }

  lemma EmptyIsInverse()
    ensures Inverse(EMPTY)
  {
  }

  // ----- one channel at a time -----------------------------------------------------------------------------

  lemma AddNone(s: Index, client: int, protocol: Protocol)
    ensures Add(s, client, protocol, {}) == s.(clients := s.clients[client := Subscriptions(s, client)])
  {
    assert Subscriptions(s, client) + {} == Subscriptions(s, client);
  }

  lemma AddOneMore(s: Index, client: int, protocol: Protocol, wanted: set<string>, channel: string)
    ensures var r := Add(s, client, protocol, wanted);
            Add(s, client, protocol, wanted + {channel}) ==
            Index(r.channels[channel := Subscribers(r, channel)[client := protocol]],
                  r.clients[client := Subscriptions(r, client) + {channel}])
  {
    AddOneMoreChannel(s, client, protocol, wanted, channel);
    var r := Add(s, client, protocol, wanted);
    assert Subscriptions(s, client) + (wanted + {channel}) == Subscriptions(r, client) + {channel};
    assert s.clients[client := Subscriptions(s, client) + wanted][client := Subscriptions(r, client) + {channel}]
        == s.clients[client := Subscriptions(r, client) + {channel}];
  }

  lemma AddOneMoreChannel(s: Index, client: int, protocol: Protocol, wanted: set<string>, channel: string)
    ensures var r := Add(s, client, protocol, wanted);
            Add(s, client, protocol, wanted + {channel}).channels ==
            r.channels[channel := Subscribers(r, channel)[client := protocol]]
  {
    var r := Add(s, client, protocol, wanted);
    var a := Add(s, client, protocol, wanted + {channel}).channels;
    var b := r.channels[channel := Subscribers(r, channel)[client := protocol]];
    assert Subscribers(s, channel)[client := protocol][client := protocol] ==
           Subscribers(s, channel)[client := protocol];
    assert Subscribers(r, channel)[client := protocol] == Subscribers(s, channel)[client := protocol];
    assert a.Keys == b.Keys;
    forall x | x in a ensures a[x] == b[x] {}
  }

  lemma DropNone(s: Index, client: int)
    requires Inverse(s)
    ensures Drop(s, client, {}) == s
  {
    assert Subscriptions(s, client) - {} == Subscriptions(s, client);
    assert Drop(s, client, {}).channels == s.channels;
  }

  /** `channels` after erasing one subscriber, and the channel with its last one. */
  function EraseSubscriber(channels: map<string, map<int, Protocol>>, channel: string, client: int)
    : map<string, map<int, Protocol>>
  {
    if channel !in channels then channels
    else if channels[channel] - {client} == map[] then channels - {channel}
    else channels[channel := channels[channel] - {client}]
  }

  /** `clients` after erasing one subscription, and the client with its last one. */
  function EraseSubscription(clients: map<int, set<string>>, client: int, channel: string): map<int, set<string>> {
    if client !in clients then clients
    else if clients[client] - {channel} == {} then clients - {client}
    else clients[client := clients[client] - {channel}]
  }

  lemma DropOneMore(s: Index, client: int, unwanted: set<string>, channel: string)
    requires Inverse(s)
    ensures var r := Drop(s, client, unwanted);
            Drop(s, client, unwanted + {channel}) ==
            Index(EraseSubscriber(r.channels, channel, client), EraseSubscription(r.clients, client, channel))
  {
    DropOneMoreChannel(s, client, unwanted, channel);
    var r := Drop(s, client, unwanted);
    assert Subscriptions(s, client) - (unwanted + {channel}) == Subscriptions(s, client) - unwanted - {channel};
  }

  lemma WithoutOneMore(s: Index, client: int, unwanted: set<string>, channel: string, ch: string)
    ensures Without(s, client, unwanted + {channel}, ch) ==
            if ch == channel then Without(s, client, unwanted, ch) - {client} else Without(s, client, unwanted, ch)
  {
    assert Subscribers(s, ch) - {client} - {client} == Subscribers(s, ch) - {client};
  }

  lemma DropOneMoreChannel(s: Index, client: int, unwanted: set<string>, channel: string)
    requires Inverse(s)
    ensures Drop(s, client, unwanted + {channel}).channels ==
            EraseSubscriber(Drop(s, client, unwanted).channels, channel, client)
  {
    hide Without, Inverse;
    var r := Drop(s, client, unwanted).channels;
    var a, b := Drop(s, client, unwanted + {channel}).channels, EraseSubscriber(r, channel, client);
    var none: map<int, Protocol> := map[];
    assert none - {client} == none;
    forall ch
      ensures ch in a <==> ch in b
      ensures ch in a && ch in b ==> a[ch] == b[ch]
    {
      WithoutOneMore(s, client, unwanted, channel, ch);
    }
  }

  // ----- one turn of the loops -----------------------------------------------------------------------------

  /** How many subscriptions a client has once it has subscribed up to channel `i`. */
  function Gained(s: Index, client: int, channels: seq<string>, i: nat): nat
    requires i < |channels|
  {
    |Subscriptions(s, client) + AsSet(channels[..i + 1])|
  }

  /** How many remain once it has unsubscribed up to target `i`. */
  function Remaining(s: Index, client: int, targets: seq<string>, i: nat): nat
    requires i < |targets|
  {
    |Subscriptions(s, client) - AsSet(targets[..i + 1])|
  }

  function Inserted(s: Index, client: int, protocol: Protocol, channel: string): Index {
    Index(s.channels[channel := Subscribers(s, channel)[client := protocol]],
          s.clients[client := Subscriptions(s, client) + {channel}])
  }

  function Erased(s: Index, client: int, channel: string): Index {
    Index(EraseSubscriber(s.channels, channel, client), EraseSubscription(s.clients, client, channel))
  }

  lemma InsertStep(s: Index, client: int, protocol: Protocol, channels: seq<string>, i: nat)
    requires i < |channels|
    ensures var after := Add(s, client, protocol, AsSet(channels[..i + 1]));
            && Inserted(Add(s, client, protocol, AsSet(channels[..i])), client, protocol, channels[i]) == after
            && client in after.clients && |after.clients[client]| == Gained(s, client, channels, i)
  {
    hide Add, AsSet;
    AsSetOneMore(channels, i);
    AddOneMore(s, client, protocol, AsSet(channels[..i]), channels[i]);
    AddLeaves(s, client, protocol, AsSet(channels[..i + 1]));
  }

  lemma EraseStep(s: Index, client: int, targets: seq<string>, i: nat)
    requires Inverse(s) && i < |targets|
    ensures var after := Drop(s, client, AsSet(targets[..i + 1]));
            && Erased(Drop(s, client, AsSet(targets[..i])), client, targets[i]) == after
            && (if client in after.clients then |after.clients[client]| else 0) == Remaining(s, client, targets, i)
  {
    hide Drop, AsSet, Inverse, EraseSubscriber, EraseSubscription;
    AsSetOneMore(targets, i);
    DropOneMore(s, client, AsSet(targets[..i]), targets[i]);
    DropLeaves(s, client, AsSet(targets[..i + 1]));
  }

  // ----- the server's methods ---------------------------------------------------------------------------------

  class SubscriptionIndex {
    var channelSubscribers: map<string, map<int, Protocol>>
    var clientSubscriptions: map<int, set<string>>

    constructor ()
      ensures State() == EMPTY
    {
      channelSubscribers, clientSubscriptions := map[], map[];
    }

    ghost function State(): Index
      reads this
    {
      Index(channelSubscribers, clientSubscriptions)
    }

    /** The body of the loop in `subscribe`. */
    method InsertOne(client: int, protocol: Protocol, channel: string)
      requires client in clientSubscriptions
      modifies this
      ensures State() == Inserted(old(State()), client, protocol, channel)
    {
      clientSubscriptions := clientSubscriptions[client := clientSubscriptions[client] + {channel}];
      var subscribers := if channel in channelSubscribers then channelSubscribers[channel] else map[];
      channelSubscribers := channelSubscribers[channel := subscribers[client := protocol]];
    }

    /** `subscribe`: one confirmation per channel, each with the number of subscriptions so far. */
    method SubscribeTo(client: int, protocol: Protocol, channels: seq<string>) returns (replies: seq<(string, nat)>)
      requires channels != []
      modifies this
      ensures State() == Step(old(State()), Subscribe(client, protocol, channels))
      ensures |replies| == |channels|
      ensures forall i :: 0 <= i < |channels| ==> replies[i] == (channels[i], Gained(old(State()), client, channels, i))
    {
      ghost var s := State();
      hide Add, AsSet, Inserted, Gained;
      AddNone(s, client, protocol);
      AsSetNone();
      clientSubscriptions :=
        clientSubscriptions[client := if client in clientSubscriptions then clientSubscriptions[client] else {}];
      replies := [];
      for i := 0 to |channels|
        invariant State() == Add(s, client, protocol, AsSet(channels[..i]))
        invariant client in clientSubscriptions
        invariant |replies| == i
        invariant forall j :: 0 <= j < i ==> replies[j] == (channels[j], Gained(s, client, channels, j))
      {
        InsertStep(s, client, protocol, channels, i);
        InsertOne(client, protocol, channels[i]);
        replies := replies + [(channels[i], |clientSubscriptions[client]|)];
      }
      assert channels[..|channels|] == channels;
    }

    method EraseOne(client: int, channel: string)
      modifies this
      ensures State() == Erased(old(State()), client, channel)
    {
      if client in clientSubscriptions {
        var rest := clientSubscriptions[client] - {channel};
        if rest == {} {
          clientSubscriptions := clientSubscriptions - {client};
        } else {
          clientSubscriptions := clientSubscriptions[client := rest];
        }
      }
      if channel in channelSubscribers {
        var rest := channelSubscribers[channel] - {client};
        if rest == map[] {
          channelSubscribers := channelSubscribers - {channel};
        } else {
          channelSubscribers := channelSubscribers[channel := rest];
        }
      }
    }

    /** The loop of `unsubscribe`: one confirmation per target, with what remains after it. */
    method DropTargets(client: int, targets: seq<string>) returns (counts: seq<nat>)
      requires Inverse(State())
      modifies this
      ensures State() == Drop(old(State()), client, AsSet(targets))
      ensures |counts| == |targets|
      ensures forall i :: 0 <= i < |targets| ==> counts[i] == Remaining(old(State()), client, targets, i)
    {
      ghost var s := State();
      hide Drop, AsSet, Inverse, Erased, Remaining;
      AsSetNone();
      DropNone(s, client);
      counts := [];
      for i := 0 to |targets|
        invariant State() == Drop(s, client, AsSet(targets[..i]))
        invariant |counts| == i
        invariant forall j :: 0 <= j < i ==> counts[j] == Remaining(s, client, targets, j)
      {
        EraseStep(s, client, targets, i);
        EraseOne(client, targets[i]);
        counts := counts + [if client in clientSubscriptions then |clientSubscriptions[client]| else 0];
      }
      assert targets[..|targets|] == targets;
    }

    /** `unsubscribe`: with no channel given, from all of them, in whatever order they come. */
    method UnsubscribeFrom(client: int, channels: seq<string>) returns (targets: seq<string>, counts: seq<nat>)
      requires Inverse(State())
      modifies this
      ensures State() == Step(old(State()), Unsubscribe(client, channels))
      ensures channels != [] ==> targets == channels
      ensures channels == [] ==> AsSet(targets) == Subscriptions(old(State()), client)
      ensures |counts| == |targets|
      ensures forall i :: 0 <= i < |targets| ==> counts[i] == Remaining(old(State()), client, targets, i)
    {
      hide Drop, AsSet, Inverse, Remaining;
      AsSetNone();
      targets := channels;
      if channels == [] && client in clientSubscriptions {
        targets := Enumerate(clientSubscriptions[client]);
      }
      counts := DropTargets(client, targets);
    }

    /** `removeClientSubscriptions`, as on a disconnect. */
    method RemoveClient(client: int)
      requires Inverse(State())
      modifies this
      ensures State() == Step(old(State()), Disconnect(client))
    {
      ghost var s := State();
      hide Drop, AsSet, Inverse, Remove;
      DropAllIsRemove(s, client);
      DropNone(s, client);
      if client !in clientSubscriptions {
        return;
      }
      var channels := Enumerate(clientSubscriptions[client]);
      AsSetNone();
      for i := 0 to |channels|
        invariant channelSubscribers == Drop(s, client, AsSet(channels[..i])).channels
        invariant clientSubscriptions == s.clients
      {
        AsSetOneMore(channels, i);
        DropOneMore(s, client, AsSet(channels[..i]), channels[i]);
        if channels[i] in channelSubscribers {
          var rest := channelSubscribers[channels[i]] - {client};
          if rest == map[] {
            channelSubscribers := channelSubscribers - {channels[i]};
          } else {
            channelSubscribers := channelSubscribers[channels[i] := rest];
          }
        }
      }
      assert channels[..|channels|] == channels;
      clientSubscriptions := clientSubscriptions - {client};
      RemovedClients(s, client);
    }

    /** Remove several clients, in any order. */
    method RemoveClients(gone: set<int>)
      requires Inverse(State())
      modifies this
      ensures State() == Remove(old(State()), gone)
    {
      ghost var s := State();
      hide Inverse, Remove;
      RemoveNobody(s);
      assert gone - gone == {};
      var left := gone;
      while left != {}
        invariant left <= gone
        invariant State() == Remove(s, gone - left)
        decreases |left|
      {
        HasMember(left);
        var client :| client in left;
        RemoveKeepsInverse(s, gone - left);
        RemoveOneMore(s, gone - left, client);
        assert gone - left + {client} == gone - (left - {client});
        RemoveClient(client);
        left := left - {client};
      }
      assert gone - left == gone;
    }

    /** `publish`: `failing` are the clients that cannot be sent to. */
    method PublishTo(channel: string, failing: set<int>) returns (delivered: nat)
      requires Inverse(State())
      modifies this
      ensures State() == Step(old(State()), Publish(channel, failing))
      ensures delivered == |Subscribers(old(State()), channel).Keys - failing|
    {
      hide Inverse, Remove;
      var subscribers := if channel in channelSubscribers then channelSubscribers[channel].Keys else {};
      assert subscribers == Subscribers(State(), channel).Keys;
      var failed := subscribers * failing;
      RemoveClients(failed);
      assert subscribers - failing == subscribers - failed && failed <= subscribers;
      return |subscribers| - |failed|;
    }
  }

  lemma AddLeaves(s: Index, client: int, protocol: Protocol, wanted: set<string>)
    ensures client in Add(s, client, protocol, wanted).clients
    ensures Subscriptions(Add(s, client, protocol, wanted), client) == Subscriptions(s, client) + wanted
  {
  }

  lemma DropLeaves(s: Index, client: int, unwanted: set<string>)
    ensures Subscriptions(Drop(s, client, unwanted), client) == Subscriptions(s, client) - unwanted
  {
  }

  lemma HasMember(s: set<int>)
    requires s != {}
    ensures exists c :: c in s
  {
    if forall c :: c !in s {
      assert false;
    }
  }

  lemma RemovedClients(s: Index, client: int)
    ensures Remove(s, {client}).clients == s.clients - {client}
  {
  }

  lemma RemoveNobody(s: Index)
    requires Inverse(s)
    ensures Remove(s, {}) == s
  {
    assert forall channel :: channel in s.channels ==> s.channels[channel] - {} == s.channels[channel];
  }

  lemma RemoveOneMore(s: Index, gone: set<int>, client: int)
    ensures Remove(Remove(s, gone), {client}) == Remove(s, gone + {client})
  {
    var a, b := Remove(Remove(s, gone), {client}), Remove(s, gone + {client});
    var none: map<int, Protocol> := map[];
    assert none - {client} == none;
    forall channel
      ensures channel in a.channels <==> channel in b.channels
      ensures channel in a.channels && channel in b.channels ==> a.channels[channel] == b.channels[channel]
    {
      if channel in s.channels {
        var m := s.channels[channel];
        assert m - gone - {client} == m - (gone + {client});
      }
    }
    assert s.clients - gone - {client} == s.clients - (gone + {client});
  }

  /** The members of a set, in some order. */
  method Enumerate(s: set<string>) returns (xs: seq<string>)
    ensures AsSet(xs) == s && |xs| == |s|
  {
    xs := [];
    var left := s;
    while left != {}
      invariant AsSet(xs) + left == s && AsSet(xs) !! left && |xs| + |left| == |s|
      decreases |left|
    {
      var x :| x in left;
      xs := xs + [x];
      left := left - {x};
    }
  }
}
