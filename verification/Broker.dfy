/**
 The broker's two-way indices: which clients declared and subscribe to which queues, which routes
 lead to which queues, which clients listen to which channels.
 */
module Broker {

  import opened Indices

  datatype State = State(
    clients: set<nat>,
    // what exists, and whether it is to be deleted once nobody uses it
    queues: map<nat, bool>, routes: map<nat, bool>, channels: map<nat, bool>,
    // client -> queues, queue -> clients
    declaredQueues: Lists, subscribedQueues: Lists,
    declaredClients: Lists, msgClients: Lists, notifyClients: Lists,
    // route -> key -> queues, queue -> key -> routes
    routeKeys: Keyed, queueRoutes: Keyed,
    // channel -> topic -> clients, client -> channel -> topics
    topics: Keyed, clientTopics: Keyed, patterns: Keyed, clientPatterns: Keyed)

  /** What a client is told. */
  datatype Answer = Success | NotFound | Error

  /** Every object has its lists, and no index is about anything else. */
  ghost predicate Owners(s: State)
  {
    && s.declaredQueues.Keys == s.clients && s.subscribedQueues.Keys == s.clients
    && s.clientTopics.Keys == s.clients && s.clientPatterns.Keys == s.clients
    && s.declaredClients.Keys == s.queues.Keys && s.msgClients.Keys == s.queues.Keys
    && s.notifyClients.Keys == s.queues.Keys && s.queueRoutes.Keys == s.queues.Keys
    && s.routeKeys.Keys == s.routes.Keys && s.topics.Keys == s.channels.Keys && s.patterns.Keys == s.channels.Keys
  }

  /** The indices mirror each other, without duplicates or empty keys. */
  ghost predicate Core(s: State)
  {
    && Owners(s) && Mirror(s.declaredQueues, s.declaredClients) && SubMirror(s.subscribedQueues, s.msgClients, s.notifyClients)
    && KeyMirror(s.routeKeys, s.queueRoutes) && TopicMirror(s.topics, s.clientTopics) && TopicMirror(s.patterns, s.clientPatterns)
  }

  /** Moreover, queue subscribers are declared clients. */
  ghost predicate Inv(s: State)
  {
    Core(s) && Within(s.subscribedQueues, s.declaredQueues)
  }

  lemma ClientOwns(s: State, c: nat)
    requires Core(s) && c in s.clients
    ensures c in s.declaredQueues && c in s.subscribedQueues && c in s.clientTopics && c in s.clientPatterns
  {
    hide Mirror, SubMirror, KeyMirror, TopicMirror;
  }

  lemma QueueOwns(s: State, q: nat)
    requires Core(s) && q in s.queues
    ensures q in s.declaredClients && q in s.msgClients && q in s.notifyClients && q in s.queueRoutes
  {
    hide Mirror, SubMirror, KeyMirror, TopicMirror;
  }

  lemma RouteOwns(s: State, r: nat)
    requires Core(s) && r in s.routes
    ensures r in s.routeKeys
  {
    hide Mirror, SubMirror, KeyMirror, TopicMirror;
  }

  lemma ChannelOwns(s: State, h: nat)
    requires Core(s) && h in s.channels
    ensures h in s.topics && h in s.patterns
  {
    hide Mirror, SubMirror, KeyMirror, TopicMirror;
  }

  lemma InvCore(s: State)
    requires Inv(s)
    ensures Core(s) && Within(s.subscribedQueues, s.declaredQueues)
  {
  }

  /** Routes and channels do not matter to who subscribes and who declared. */
  lemma SameLists(s: State, s': State)
    requires Inv(s) && Core(s') && s'.subscribedQueues == s.subscribedQueues && s'.declaredQueues == s.declaredQueues
    ensures Inv(s')
  {
    hide Core;
  }

  lemma SubscribedDeclared(s: State, c: nat, q: nat)
    requires Inv(s)
    ensures In(s.subscribedQueues, c, q) ==> In(s.declaredQueues, c, q)
  {
    hide Core;
  }

  lemma StillInv(s: State, s': State, c: nat, q: nat)
    requires Core(s') && Less(s.subscribedQueues, s'.subscribedQueues, c, q) && s'.declaredQueues == s.declaredQueues
    ensures Inv(s) ==> Inv(s')
  {
    hide Core;
  }

  lemma InAt(l: Lists, a: nat, b: nat)
    requires a in l
    ensures In(l, a, b) <==> b in l[a]
  {
  }

  /* --- Queues, as state changes ---------------------------------------------------------- */

  lemma DeclareStep(s: State, c: nat, q: nat)
    requires Inv(s) && c in s.declaredQueues && q in s.declaredClients && q !in s.declaredQueues[c]
    ensures Inv(s.(declaredQueues := Add(s.declaredQueues, c, q), declaredClients := Add(s.declaredClients, q, c)))
    ensures More(s.declaredQueues, Add(s.declaredQueues, c, q), c, q)
  {
    hide Mirror, SubMirror, KeyMirror, TopicMirror, Within, In, Add, More;
    MirrorAdd(s.declaredQueues, s.declaredClients, c, q);
    WithinAdd(s.subscribedQueues, s.subscribedQueues, s.declaredQueues, Add(s.declaredQueues, c, q), c, q);
  }

  lemma SubscribeStep(s: State, c: nat, q: nat)
    requires Inv(s) && c in s.subscribedQueues && q in s.msgClients && q in s.notifyClients
    requires c in s.declaredQueues && q in s.declaredQueues[c] && q !in s.subscribedQueues[c]
    ensures Inv(s.(subscribedQueues := Add(s.subscribedQueues, c, q), msgClients := Add(s.msgClients, q, c)))
    ensures Inv(s.(subscribedQueues := Add(s.subscribedQueues, c, q), notifyClients := Add(s.notifyClients, q, c)))
    ensures More(s.subscribedQueues, Add(s.subscribedQueues, c, q), c, q)
    ensures More(s.msgClients, Add(s.msgClients, q, c), q, c) && More(s.notifyClients, Add(s.notifyClients, q, c), q, c)
  {
    hide Mirror, SubMirror, KeyMirror, TopicMirror, Within, In, Add, More;
    InAt(s.declaredQueues, c, q);
    SubAdd(s.subscribedQueues, s.msgClients, s.notifyClients, c, q);
    WithinAdd(s.subscribedQueues, Add(s.subscribedQueues, c, q), s.declaredQueues, s.declaredQueues, c, q);
  }

  /** The two lists of subscribers after `unsubscribe_client_queue_t`. */
  function Unsubscribed(s: State, c: nat, q: nat): State
    requires c in s.subscribedQueues && q in s.msgClients && q in s.notifyClients
  {
    var s' := s.(subscribedQueues := Drop(s.subscribedQueues, c, q));
    if c in s.msgClients[q] then s'.(msgClients := Drop(s.msgClients, q, c))
    else if c in s.notifyClients[q] then s'.(notifyClients := Drop(s.notifyClients, q, c))
    else s'
  }

  lemma UnsubscribeStep(s: State, c: nat, q: nat)
    requires Core(s) && c in s.subscribedQueues && q in s.msgClients && q in s.notifyClients
    ensures Core(Unsubscribed(s, c, q)) && Less(s.subscribedQueues, Drop(s.subscribedQueues, c, q), c, q)
    ensures In(s.subscribedQueues, c, q) ==> Len(Drop(s.subscribedQueues, c, q), c) < Len(s.subscribedQueues, c)
    ensures c in s.msgClients[q] ==> Len(Drop(s.msgClients, q, c), q) < Len(s.msgClients, q)
    ensures c in s.notifyClients[q] ==> c !in s.msgClients[q] && Len(Drop(s.notifyClients, q, c), q) < Len(s.notifyClients, q)
  {
    hide Mirror, SubMirror, KeyMirror, TopicMirror, In, Drop, Less, Len;
    SubDrop(s.subscribedQueues, s.msgClients, s.notifyClients, c, q);
  }

  lemma UndeclareStep(s: State, c: nat, q: nat)
    requires Core(s) && c in s.declaredQueues && q in s.declaredClients
    ensures Core(s.(declaredQueues := Drop(s.declaredQueues, c, q), declaredClients := Drop(s.declaredClients, q, c)))
    ensures Less(s.declaredQueues, Drop(s.declaredQueues, c, q), c, q)
    ensures In(s.declaredQueues, c, q) ==> Len(Drop(s.declaredQueues, c, q), c) < Len(s.declaredQueues, c)
    ensures In(s.declaredQueues, c, q) ==> Len(Drop(s.declaredClients, q, c), q) < Len(s.declaredClients, q)
  {
    hide Mirror, SubMirror, KeyMirror, TopicMirror, In, Drop, Less, Len;
    MirrorDrop(s.declaredQueues, s.declaredClients, c, q);
  }

  /* --- Routes, as state changes -------------------------------------------------------------- */

  function RouteLinked(s: State, r: nat, q: nat, k: nat): State
    requires r in s.routeKeys && q in s.queueRoutes
  {
    s.(routeKeys := Link(s.routeKeys, r, k, q), queueRoutes := Link(s.queueRoutes, q, k, r))
  }

  function RouteUnlinked(s: State, r: nat, q: nat, k: nat): State
    requires r in s.routeKeys && q in s.queueRoutes
  {
    s.(routeKeys := Unlink(s.routeKeys, r, k, q), queueRoutes := Unlink(s.queueRoutes, q, k, r))
  }

  lemma LinkStep(s: State, r: nat, q: nat, k: nat)
    requires Inv(s) && r in s.routeKeys && q in s.queueRoutes
    ensures Inv(RouteLinked(s, r, q, k)) && Gains(s.routeKeys, Link(s.routeKeys, r, k, q), r, k, q)
  {
    hide Mirror, SubMirror, KeyMirror, TopicMirror, Within, Link, Gains;
    KeyLink(s.routeKeys, s.queueRoutes, r, k, q);
  }

  lemma UnlinkStep(s: State, r: nat, q: nat, k: nat)
    requires Core(s) && r in s.routeKeys && q in s.queueRoutes
    ensures var n, n' := s.routeKeys, Unlink(s.routeKeys, r, k, q);
      && Core(RouteUnlinked(s, r, q, k)) && Loses(n, n', r, k, q) && Loses(s.queueRoutes, Unlink(s.queueRoutes, q, k, r), q, k, r)
      && r in n' && Users(n) - {r} <= Users(n') <= Users(n) && (r in Users(n') <==> n'[r] != map[])
      && (k in n[r] ==> r in Users(n))
  {
    hide Mirror, SubMirror, TopicMirror, Within, Unlink, Loses, Users;
    KeyUnlink(s.routeKeys, s.queueRoutes, r, k, q);
    UsersUnlink(s.routeKeys, r, k, q);
  }

  function RouteDropped(s: State, r: nat): State
  {
    s.(routes := s.routes - {r}, routeKeys := s.routeKeys - {r})
  }

  lemma DropRouteStep(s: State, r: nat)
    requires Core(s) && r in s.routes && r in s.routeKeys && s.routeKeys[r] == map[]
    ensures Core(RouteDropped(s, r))
    ensures SameHas(s.routeKeys, s.routeKeys - {r}) && Users(s.routeKeys - {r}) == Users(s.routeKeys)
  {
    hide Mirror, SubMirror, KeyMirror, TopicMirror, SameHas, Users;
    KeyOwner(s.routeKeys, s.queueRoutes, r);
  }

  /** What is bound exists. */
  lemma BoundExist(s: State, r: nat, q: nat, k: nat)
    requires Core(s) && (Has(s.routeKeys, r, k, q) || Has(s.queueRoutes, q, k, r))
    ensures r in s.routes && q in s.queues && r in s.routeKeys && q in s.queueRoutes
    ensures Has(s.routeKeys, r, k, q) && Has(s.queueRoutes, q, k, r)
  {
    hide Mirror, SubMirror, TopicMirror;
  }

  lemma DeclaredExist(s: State, c: nat, q: nat)
    requires Core(s) && (In(s.declaredQueues, c, q) || In(s.declaredClients, q, c))
    ensures c in s.clients && q in s.queues && In(s.declaredQueues, c, q) && In(s.declaredClients, q, c)
  {
    hide SubMirror, KeyMirror, TopicMirror;
  }

  lemma SubscribedExist(s: State, c: nat, q: nat)
    requires Core(s) && (In(s.subscribedQueues, c, q) || In(s.msgClients, q, c) || In(s.notifyClients, q, c))
    ensures c in s.clients && q in s.queues && In(s.subscribedQueues, c, q)
  {
    hide Mirror, KeyMirror, TopicMirror;
  }

  function QueueDropped(s: State, q: nat): State
  {
    s.(queues := s.queues - {q}, declaredClients := s.declaredClients - {q}, msgClients := s.msgClients - {q},
       notifyClients := s.notifyClients - {q}, queueRoutes := s.queueRoutes - {q})
  }

  /** A queue nobody refers to leaves the server. */
  lemma DropQueueStep(s: State, q: nat)
    requires Core(s) && Within(s.subscribedQueues, s.declaredQueues) && q in s.queues
    requires q in s.declaredClients && s.declaredClients[q] == [] && q in s.msgClients && s.msgClients[q] == []
    requires q in s.notifyClients && s.notifyClients[q] == [] && q in s.queueRoutes && s.queueRoutes[q] == map[]
    ensures Inv(QueueDropped(s, q))
  {
    hide Mirror, SubMirror, KeyMirror, TopicMirror, Within;
    MirrorOwner2(s.declaredQueues, s.declaredClients, q);
    SubOwner(s.subscribedQueues, s.msgClients, s.notifyClients, q);
    KeyOwner2(s.routeKeys, s.queueRoutes, q);
  }

  lemma KeysOk(s: State)
    requires Core(s)
    ensures KeyedOk(s.routeKeys) && KeyedOk(s.queueRoutes) && KeyMirror(s.routeKeys, s.queueRoutes)
    ensures KeyedOk(s.topics) && KeyedOk(s.clientTopics) && KeyedOk(s.patterns) && KeyedOk(s.clientPatterns)
    ensures TopicMirror(s.topics, s.clientTopics) && TopicMirror(s.patterns, s.clientPatterns)
    ensures Mirror(s.declaredQueues, s.declaredClients) && SubMirror(s.subscribedQueues, s.msgClients, s.notifyClients)
  {
    hide Mirror, SubMirror, Owners;
  }

  /* --- Channels, as state changes -------------------------------------------------------------- */

  /** Who listens to what, by topic or by pattern. */
  function Heard(s: State, pattern: bool): Keyed { if pattern then s.patterns else s.topics }
  function Hears(s: State, pattern: bool): Keyed { if pattern then s.clientPatterns else s.clientTopics }

  function SetTopics(s: State, pattern: bool, n: Keyed, m: Keyed): State
  {
    if pattern then s.(patterns := n, clientPatterns := m) else s.(topics := n, clientTopics := m)
  }

  /** The channels somebody listens to. */
  ghost function Listened(s: State): set<nat>
  {
    Users(s.topics) + Users(s.patterns)
  }

  lemma ListenStep(s: State, h: nat, c: nat, t: nat, pattern: bool)
    requires Inv(s) && h in Heard(s, pattern) && c in Hears(s, pattern)
    ensures var n, m := Heard(s, pattern), Hears(s, pattern);
      Inv(SetTopics(s, pattern, Link(n, h, t, c), Link(m, c, h, t))) && Gains(n, Link(n, h, t, c), h, t, c)
  {
    hide Mirror, SubMirror, KeyMirror, TopicMirror, Within, Link, Gains;
    TopicLink(Heard(s, pattern), Hears(s, pattern), h, t, c);
  }

  lemma UnlistenStep(s: State, h: nat, c: nat, t: nat, pattern: bool)
    requires Core(s) && h in Heard(s, pattern) && c in Hears(s, pattern)
    ensures var n, m := Heard(s, pattern), Hears(s, pattern);
      var n', m' := Unlink(n, h, t, c), Unlink(m, c, h, t);
      && Core(SetTopics(s, pattern, n', m')) && Loses(n, n', h, t, c) && Loses(m, m', c, h, t)
      && h in n' && Users(n) - {h} <= Users(n') <= Users(n) && (h in Users(n') <==> n'[h] != map[])
      && (t in n[h] ==> h in Users(n))
  {
    hide Mirror, SubMirror, KeyMirror, Within, Unlink, Loses, Users;
    TopicUnlink(Heard(s, pattern), Hears(s, pattern), h, t, c);
    UsersUnlink(Heard(s, pattern), h, t, c);
  }

  /** What is listened to exists, and so does who listens. */
  lemma HeardExist(s: State, h: nat, c: nat, t: nat, pattern: bool)
    requires Core(s) && (Has(Heard(s, pattern), h, t, c) || Has(Hears(s, pattern), c, h, t))
    ensures h in s.channels && c in s.clients && h in Heard(s, pattern) && c in Hears(s, pattern)
    ensures Has(Heard(s, pattern), h, t, c) && Has(Hears(s, pattern), c, h, t)
  {
    hide Mirror, SubMirror, KeyMirror;
  }

  function ChannelDropped(s: State, h: nat): State
  {
    s.(channels := s.channels - {h}, topics := s.topics - {h}, patterns := s.patterns - {h})
  }

  lemma DropChannelStep(s: State, h: nat)
    requires Core(s) && h in s.topics && s.topics[h] == map[] && h in s.patterns && s.patterns[h] == map[]
    ensures Core(ChannelDropped(s, h)) && SameHas(s.topics, s.topics - {h}) && SameHas(s.patterns, s.patterns - {h})
    ensures Users(s.topics - {h}) == Users(s.topics) && Users(s.patterns - {h}) == Users(s.patterns)
  {
    hide Mirror, SubMirror, KeyMirror, TopicMirror, SameHas, Users;
    TopicOwner(s.topics, s.clientTopics, h);
    TopicOwner(s.patterns, s.clientPatterns, h);
  }

  function ClientDropped(s: State, c: nat): State
  {
    s.(clients := s.clients - {c}, declaredQueues := s.declaredQueues - {c}, subscribedQueues := s.subscribedQueues - {c},
       clientTopics := s.clientTopics - {c}, clientPatterns := s.clientPatterns - {c})
  }

  lemma ClientLists(s: State, c: nat)
    requires Inv(s) && c in s.declaredQueues && s.declaredQueues[c] == [] && c in s.subscribedQueues && s.subscribedQueues[c] == []
    ensures Within(s.subscribedQueues - {c}, s.declaredQueues - {c})
    ensures SameIn(s.declaredQueues, s.declaredQueues - {c}) && SameIn(s.subscribedQueues, s.subscribedQueues - {c})
  {
    hide KeyMirror, TopicMirror, Owners;
    OwnerIn(s.declaredQueues, c);
    OwnerIn(s.subscribedQueues, c);
  }

  /** A client with nothing left leaves the server. */
  lemma DropClientStep(s: State, c: nat)
    requires Inv(s) && c in s.declaredQueues && s.declaredQueues[c] == [] && c in s.subscribedQueues && s.subscribedQueues[c] == []
    requires c in s.clientTopics && s.clientTopics[c] == map[] && c in s.clientPatterns && s.clientPatterns[c] == map[]
    ensures Inv(ClientDropped(s, c))
    ensures SameIn(s.declaredQueues, s.declaredQueues - {c}) && SameIn(s.subscribedQueues, s.subscribedQueues - {c})
  {
    hide Mirror, SubMirror, KeyMirror, TopicMirror, Within, SameIn;
    MirrorOwner(s.declaredQueues, s.declaredClients, c);
    ClientLists(s, c);
    SubOwner1(s.subscribedQueues, s.msgClients, s.notifyClients, c);
    TopicOwner2(s.topics, s.clientTopics, c);
    TopicOwner2(s.patterns, s.clientPatterns, c);
  }

  /* --- The server ---------------------------------------------------------------------------- */

  class Server {
    var clients: set<nat>
    var queues: map<nat, bool>
    var routes: map<nat, bool>
    var channels: map<nat, bool>
    var declaredQueues: Lists
    var subscribedQueues: Lists
    var declaredClients: Lists
    var msgClients: Lists
    var notifyClients: Lists
    var routeKeys: Keyed
    var queueRoutes: Keyed
    var topics: Keyed
    var clientTopics: Keyed
    var patterns: Keyed
    var clientPatterns: Keyed

    ghost function S(): State
      reads this
    {
      State(clients, queues, routes, channels, declaredQueues, subscribedQueues, declaredClients, msgClients, notifyClients,
            routeKeys, queueRoutes, topics, clientTopics, patterns, clientPatterns)
    }

    constructor ()
      ensures Inv(S()) && clients == {} && queues == map[] && routes == map[] && channels == map[]
    {
      clients, queues, routes, channels := {}, map[], map[], map[];
      declaredQueues, subscribedQueues, declaredClients, msgClients, notifyClients := map[], map[], map[], map[], map[];
      routeKeys, queueRoutes, topics, clientTopics, patterns, clientPatterns := map[], map[], map[], map[], map[], map[];
    }

    /* --- Clients and queues --- */

    /** `declare_client_queue_t`, behind the check in the handler. */
    method Declare(q: nat, c: nat) returns (ok: bool)
      requires Inv(S()) && q in queues && c in clients
      modifies this`declaredQueues, this`declaredClients
      ensures Inv(S()) && ok == !In(old(declaredQueues), c, q)
      ensures if ok then More(old(declaredQueues), declaredQueues, c, q) else declaredQueues == old(declaredQueues)
    {
      hide Inv, Core, In, More, Add;
      InvCore(S());
      ClientOwns(S(), c);
      QueueOwns(S(), q);
      InAt(declaredQueues, c, q);
      if q in declaredQueues[c] {
        return false;
      }
      DeclareStep(S(), c, q);
      declaredQueues := Add(declaredQueues, c, q);
      declaredClients := Add(declaredClients, q, c);
      return true;
    }

    /** `subscribe_client_queue_t`, behind the checks in the handler. */
    method Subscribe(q: nat, c: nat, notify: bool) returns (ok: bool)
      requires Inv(S()) && q in queues && c in clients
      modifies this`subscribedQueues, this`msgClients, this`notifyClients
      ensures Inv(S()) && ok == (In(declaredQueues, c, q) && !In(old(subscribedQueues), c, q))
      ensures if ok then More(old(subscribedQueues), subscribedQueues, c, q) else subscribedQueues == old(subscribedQueues)
      ensures ok && !notify ==> More(old(msgClients), msgClients, q, c) && notifyClients == old(notifyClients)
      ensures ok && notify ==> More(old(notifyClients), notifyClients, q, c) && msgClients == old(msgClients)
    {
      hide Inv, Core, In, More, Add;
      InvCore(S());
      ClientOwns(S(), c);
      QueueOwns(S(), q);
      InAt(declaredQueues, c, q);
      InAt(subscribedQueues, c, q);
      if q !in declaredQueues[c] || q in subscribedQueues[c] {
        return false;
      }
      SubscribeStep(S(), c, q);
      subscribedQueues := Add(subscribedQueues, c, q);
      if !notify {
        msgClients := Add(msgClients, q, c);
      } else {
        notifyClients := Add(notifyClients, q, c);
      }
      return true;
    }

    /** `unsubscribe_client_queue_t`. */
    method Unsubscribe(q: nat, c: nat)
      requires Core(S()) && q in queues && c in clients
      modifies this`subscribedQueues, this`msgClients, this`notifyClients
      ensures Core(S()) && Less(old(subscribedQueues), subscribedQueues, c, q)
      ensures In(old(subscribedQueues), c, q) ==> Len(subscribedQueues, c) < Len(old(subscribedQueues), c)
      ensures In(old(msgClients), q, c) ==> Len(msgClients, q) < Len(old(msgClients), q) && notifyClients == old(notifyClients)
      ensures In(old(notifyClients), q, c) ==> Len(notifyClients, q) < Len(old(notifyClients), q) && msgClients == old(msgClients)
    {
      hide Core, In, Less, Drop, Len;
      ClientOwns(S(), c);
      QueueOwns(S(), q);
      UnsubscribeStep(S(), c, q);
      InAt(msgClients, q, c);
      InAt(notifyClients, q, c);
      subscribedQueues := Drop(subscribedQueues, c, q);
      if c in msgClients[q] {
        msgClients := Drop(msgClients, q, c);
        return;
      }
      if c in notifyClients[q] {
        notifyClients := Drop(notifyClients, q, c);
      }
    }

    /** `undeclare_client_queue_t`. */
    method Undeclare(q: nat, c: nat)
      requires Core(S()) && q in queues && c in clients
      modifies this`declaredQueues, this`declaredClients
      ensures Core(S()) && Less(old(declaredQueues), declaredQueues, c, q)
      ensures In(old(declaredQueues), c, q) ==> Len(declaredClients, q) < Len(old(declaredClients), q)
      ensures In(old(declaredQueues), c, q) ==> Len(declaredQueues, c) < Len(old(declaredQueues), c)
    {
      hide Core, In, Less, Drop, Len;
      ClientOwns(S(), c);
      QueueOwns(S(), q);
      UndeclareStep(S(), c, q);
      declaredQueues := Drop(declaredQueues, c, q);
      declaredClients := Drop(declaredClients, q, c);
    }

    /* --- Routes --- */

    /** `bind_route_t` with `link_queue_route_t`. */
    method Bind(r: nat, q: nat, k: nat)
      requires Inv(S()) && r in routes && q in queues
      modifies this`routeKeys, this`queueRoutes
      ensures Inv(S()) && Gains(old(routeKeys), routeKeys, r, k, q)
    {
      hide Inv, Core, Gains, Link;
      InvCore(S());
      RouteOwns(S(), r);
      QueueOwns(S(), q);
      LinkStep(S(), r, q, k);
      routeKeys := Link(routeKeys, r, k, q);
      queueRoutes := Link(queueRoutes, q, k, r);
    }

    /** One binding goes, from both sides. */
    method UnlinkRoute(r: nat, q: nat, k: nat)
      requires Core(S()) && r in routes && q in queues && r in routeKeys && q in queueRoutes
      modifies this`routeKeys, this`queueRoutes
      ensures S() == RouteUnlinked(old(S()), r, q, k)
    {
      hide Core, Unlink;
      routeKeys := Unlink(routeKeys, r, k, q);
      queueRoutes := Unlink(queueRoutes, q, k, r);
    }

    /** `delete_route_t`: every queue forgets the route, and it leaves the server. */
    method DeleteRoute(r: nat)
      requires Core(S()) && r in routes
      modifies this`routes, this`routeKeys, this`queueRoutes
      ensures Core(S()) && routes == old(routes) - {r} && WithoutOwner(old(routeKeys), routeKeys, r)
    {
      hide Core, Unlink, Loses, Has, Pairs, SameBut, WithoutOwner, KeyedOk, KeyMirror, TopicMirror, Mirror, SubMirror, SameHas, Users;
      RouteOwns(S(), r);
      SameButStart(routeKeys, r);
      while true
        invariant Core(S()) && routes == old(routes) && r in routeKeys && SameBut(old(routeKeys), routeKeys, r)
        decreases Pairs(routeKeys, r)
      {
        var found, k := SomeKey(routeKeys[r].Keys);
        if !found {
          break;
        }
        ghost var n := routeKeys;
        KeysOk(S());
        FirstHas(routeKeys, r, k);
        var q := routeKeys[r][k][0];
        BoundExist(S(), r, q, k);
        UnlinkStep(S(), r, q, k);
        UnlinkRoute(r, q, k);
        PairsFewer(n, routeKeys, r, k, q);
        SameButNext(old(routeKeys), n, routeKeys, r, k, q);
      }
      DropRouteStep(S(), r);
      SameButEnd(old(routeKeys), routeKeys, routeKeys - {r}, r);
      ReleaseRoute(r);
    }

    method ReleaseRoute(r: nat)
      modifies this`routes, this`routeKeys
      ensures S() == RouteDropped(old(S()), r)
    {
      routes, routeKeys := routes - {r}, routeKeys - {r};
    }

    /** `unbind_route_t`: a route to be deleted automatically goes with its last binding. */
    method Unbind(r: nat, q: nat, k: nat) returns (ok: bool)
      requires Core(S()) && r in routes && q in queues
      modifies this`routes, this`routeKeys, this`queueRoutes
      ensures Core(S()) && (ok <==> exists x :: Has(old(routeKeys), r, k, x))
      ensures Minus(old(routeKeys), routeKeys, r, k, q) && Loses(old(queueRoutes), queueRoutes, q, k, r)
      ensures Left(old(routes), Users(old(routeKeys)), routes, Users(routeKeys))
    {
      hide Core, Unlink, Loses, Has, Minus, KeyedOk, KeyMirror, TopicMirror, Mirror, SubMirror, SameHas, Users, Left;
      RouteOwns(S(), r);
      QueueOwns(S(), q);
      KeysOk(S());
      FirstHas(routeKeys, r, k);
      ghost var n := routeKeys;
      if k !in routeKeys[r] {
        LeftSame(routes, Users(routeKeys));
        NoLoss(routeKeys, queueRoutes, r, k, q);
        return false;
      }
      UnlinkStep(S(), r, q, k);
      UnlinkRoute(r, q, k);
      LeftOne(routes, Users(n), Users(routeKeys), r);
      ghost var n' := routeKeys;
      if routes[r] && routeKeys[r] == map[] {
        DropRouteStep(S(), r);
        ReleaseRoute(r);
      }
      LosesMinus(n, n', routeKeys, r, k, q);
      return true;
    }

    /* --- Deleting a queue --- */

    /** The first loop of `eject_clients_queue_t`. */
    method EjectDeclared(q: nat)
      requires Core(S()) && q in queues
      modifies this`declaredQueues, this`declaredClients
      ensures Core(S()) && ListWithout(old(declaredQueues), declaredQueues, q)
      ensures q in declaredClients && declaredClients[q] == []
    {
      hide Core, In, Less, Len, ListBut, ListWithout, Mirror, SubMirror, KeyMirror, TopicMirror;
      QueueOwns(S(), q);
      ListStart(declaredQueues, q);
      while declaredClients[q] != []
        invariant Core(S()) && q in declaredClients && ListBut(old(declaredQueues), declaredQueues, q)
        decreases Len(declaredClients, q)
      {
        var c := declaredClients[q][0];
        FirstIn(declaredClients, q);
        DeclaredExist(S(), c, q);
        ghost var l := declaredQueues;
        Undeclare(q, c);
        QueueOwns(S(), q);
        ListNext(old(declaredQueues), l, declaredQueues, c, q);
      }
      KeysOk(S());
      ListEnd(old(declaredQueues), declaredQueues, declaredClients, q);
    }

    /** The other two loops of `eject_clients_queue_t`. */
    method EjectSubscribed(q: nat)
      requires Core(S()) && q in queues
      modifies this`subscribedQueues, this`msgClients, this`notifyClients
      ensures Core(S()) && ListWithout(old(subscribedQueues), subscribedQueues, q)
      ensures q in msgClients && q in notifyClients && msgClients[q] == [] && notifyClients[q] == []
    {
      hide Core, In, Less, Len, ListBut, ListWithout, Mirror, SubMirror, KeyMirror, TopicMirror;
      QueueOwns(S(), q);
      ListStart(subscribedQueues, q);
      while msgClients[q] != []
        invariant Core(S()) && q in msgClients && q in notifyClients && ListBut(old(subscribedQueues), subscribedQueues, q)
        invariant notifyClients == old(notifyClients)
        decreases Len(msgClients, q)
      {
        var c := msgClients[q][0];
        FirstIn(msgClients, q);
        SubscribedExist(S(), c, q);
        ghost var l := subscribedQueues;
        Unsubscribe(q, c);
        QueueOwns(S(), q);
        ListNext(old(subscribedQueues), l, subscribedQueues, c, q);
      }
      while notifyClients[q] != []
        invariant Core(S()) && q in msgClients && q in notifyClients && ListBut(old(subscribedQueues), subscribedQueues, q)
        invariant msgClients[q] == []
        decreases Len(notifyClients, q)
      {
        var c := notifyClients[q][0];
        FirstIn(notifyClients, q);
        SubscribedExist(S(), c, q);
        ghost var l := subscribedQueues;
        Unsubscribe(q, c);
        QueueOwns(S(), q);
        ListNext(old(subscribedQueues), l, subscribedQueues, c, q);
      }
      KeysOk(S());
      SubEnd(old(subscribedQueues), subscribedQueues, msgClients, notifyClients, q);
    }

    /** `eject_routes_queue_t`. */
    method EjectRoutes(q: nat)
      requires Core(S()) && q in queues
      modifies this`routes, this`routeKeys, this`queueRoutes
      ensures Core(S()) && Without(old(routeKeys), routeKeys, q) && q in queueRoutes && queueRoutes[q] == map[]
      ensures Left(old(routes), Users(old(routeKeys)), routes, Users(routeKeys))
    {
      hide Core, Loses, Has, Minus, Pairs, KeyedOk, KeyMirror, TopicMirror, Mirror, SubMirror, Users, Left, SameButTarget, Without;
      QueueOwns(S(), q);
      TargetStart(routeKeys, q);
      LeftSame(routes, Users(routeKeys));
      while true
        invariant Core(S()) && q in queueRoutes && SameButTarget(old(routeKeys), routeKeys, q)
        invariant Left(old(routes), Users(old(routeKeys)), routes, Users(routeKeys))
        decreases Pairs(queueRoutes, q)
      {
        var found, k := SomeKey(queueRoutes[q].Keys);
        if !found {
          break;
        }
        KeysOk(S());
        FirstHas(queueRoutes, q, k);
        var r := queueRoutes[q][k][0];
        BoundExist(S(), r, q, k);
        ghost var n, m, o := routeKeys, queueRoutes, routes;
        var _ := Unbind(r, q, k);
        QueueOwns(S(), q);
        PairsFewer(m, queueRoutes, q, k, r);
        TargetNext(old(routeKeys), n, routeKeys, r, k, q);
        LeftTrans(old(routes), Users(old(routeKeys)), o, Users(n), routes, Users(routeKeys));
      }
      KeysOk(S());
      TargetEnd(old(routeKeys), routeKeys, queueRoutes, q);
    }

    /**
     `delete_queue_t`: no index mentions the queue any more, and routes to be deleted automatically
     go if it was their last.
     */
    method DeleteQueue(q: nat)
      requires Inv(S()) && q in queues
      modifies this`queues, this`declaredQueues, this`declaredClients, this`subscribedQueues, this`msgClients, this`notifyClients
      modifies this`routes, this`routeKeys, this`queueRoutes
      ensures Inv(S()) && queues == old(queues) - {q}
      ensures ListWithout(old(declaredQueues), declaredQueues, q) && ListWithout(old(subscribedQueues), subscribedQueues, q)
      ensures Without(old(routeKeys), routeKeys, q) && Left(old(routes), Users(old(routeKeys)), routes, Users(routeKeys))
    {
      hide Core, Inv, ListWithout, Without, Left, Users, Within;
      InvCore(S());
      EjectDeclared(q);
      EjectSubscribed(q);
      WithinWithout(old(subscribedQueues), old(declaredQueues), subscribedQueues, declaredQueues, q);
      EjectRoutes(q);
      DropQueueStep(S(), q);
      ReleaseQueue(q);
    }

    method ReleaseQueue(q: nat)
      modifies this`queues, this`declaredClients, this`msgClients, this`notifyClients, this`queueRoutes
      ensures S() == QueueDropped(old(S()), q)
    {
      queues, declaredClients, msgClients := queues - {q}, declaredClients - {q}, msgClients - {q};
      notifyClients, queueRoutes := notifyClients - {q}, queueRoutes - {q};
    }

    /* --- Channels --- */

    /** `subscribe_channel_t` and `psubscribe_channel_t`. */
    method Listen(h: nat, c: nat, t: nat, pattern: bool)
      requires Inv(S()) && h in channels && c in clients
      modifies this`topics, this`clientTopics, this`patterns, this`clientPatterns
      ensures Inv(S()) && Gains(old(Heard(S(), pattern)), Heard(S(), pattern), h, t, c)
      ensures Heard(S(), !pattern) == old(Heard(S(), !pattern))
    {
      hide Inv, Core, Gains, Link, Heard, Hears, SetTopics;
      InvCore(S());
      TopicOwns(S(), h, c, pattern);
      ListenStep(S(), h, c, t, pattern);
      var n, m := GetTopics(pattern);
      TopicsSet(S(), pattern, Link(n, h, t, c), Link(m, c, h, t));
      PutTopics(pattern, Link(n, h, t, c), Link(m, c, h, t));
    }

    method PutTopics(pattern: bool, n: Keyed, m: Keyed)
      modifies this`topics, this`clientTopics, this`patterns, this`clientPatterns
      ensures S() == SetTopics(old(S()), pattern, n, m)
    {
      if pattern {
        patterns, clientPatterns := n, m;
      } else {
        topics, clientTopics := n, m;
      }
    }

    method GetTopics(pattern: bool) returns (n: Keyed, m: Keyed)
      ensures n == Heard(S(), pattern) && m == Hears(S(), pattern)
    {
      if pattern {
        n, m := patterns, clientPatterns;
      } else {
        n, m := topics, clientTopics;
      }
    }

    method ReleaseChannel(h: nat)
      modifies this`channels, this`topics, this`patterns
      ensures S() == ChannelDropped(old(S()), h)
    {
      channels, topics, patterns := channels - {h}, topics - {h}, patterns - {h};
    }

    /**
     `unsubscribe_channel_t` and `punsubscribe_channel_t`: a channel to be deleted automatically
     goes with its last listener.
     */
    method Unlisten(h: nat, c: nat, t: nat, pattern: bool) returns (ok: bool)
      requires Core(S()) && h in channels && c in clients
      modifies this`channels, this`topics, this`clientTopics, this`patterns, this`clientPatterns
      ensures Core(S()) && (ok <==> exists x :: Has(old(Heard(S(), pattern)), h, t, x))
      ensures Minus(old(Heard(S(), pattern)), Heard(S(), pattern), h, t, c)
      ensures Loses(old(Hears(S(), pattern)), Hears(S(), pattern), c, h, t)
      ensures SameHas(old(Heard(S(), !pattern)), Heard(S(), !pattern)) && Hears(S(), !pattern) == old(Hears(S(), !pattern))
      ensures Left(old(channels), old(Listened(S())), channels, Listened(S()))
    {
      hide Core, Unlink, Loses, Has, Minus, KeyedOk, TopicMirror, SameHas, Users, Left, Heard, Hears, SetTopics, Listened, ChannelDropped;
      ghost var s := S();
      TopicOwns(s, h, c, pattern);
      var n, m := GetTopics(pattern);
      FirstHas(n, h, t);
      SameHasSelf(Heard(s, !pattern));
      if t !in n[h] {
        LeftSame(channels, Listened(s));
        NoTopic(n, m, h, t, c);
        return false;
      }
      UnlistenStep(s, h, c, t, pattern);
      TopicsSet(s, pattern, Unlink(n, h, t, c), Unlink(m, c, h, t));
      PutTopics(pattern, Unlink(n, h, t, c), Unlink(m, c, h, t));
      ghost var s' := S();
      LosesMinus(n, Heard(s', pattern), Heard(s', pattern), h, t, c);
      ListenedLess(s, s', h, pattern);
      LeftOne(channels, Listened(s), Listened(s'), h);
      TopicOwns(s', h, c, pattern);
      if channels[h] && topics[h] == map[] && patterns[h] == map[] {
        NowUnused(s', h);
        DropChannelStep(s', h);
        ChannelSet(s', h, n, pattern);
        LosesMinus(n, Heard(s', pattern), Heard(ChannelDropped(s', h), pattern), h, t, c);
        ReleaseChannel(h);
      } else {
        NowUnused(s', h);
      }
      return true;
    }

    /** One half of `eject_clients_channel_t`; the channel has left the server's list by now. */
    method EjectListeners(h: nat, pattern: bool)
      requires Core(S()) && h in channels
      modifies this`topics, this`clientTopics, this`patterns, this`clientPatterns
      ensures Core(S()) && h in Heard(S(), pattern) && Heard(S(), pattern)[h] == map[]
      ensures WithoutOwner(old(Heard(S(), pattern)), Heard(S(), pattern), h) && Heard(S(), !pattern) == old(Heard(S(), !pattern))
    {
      hide Core, Unlink, Loses, Has, Pairs, SameBut, WithoutOwner, KeyedOk, TopicMirror, SameHas, Users, Heard, Hears, SetTopics;
      ghost var n0 := Heard(S(), pattern);
      ListenersOwn(S(), h, pattern);
      SameButStart(n0, h);
      while true
        invariant Core(S()) && h in Heard(S(), pattern) && SameBut(n0, Heard(S(), pattern), h)
        invariant Heard(S(), !pattern) == old(Heard(S(), !pattern))
        decreases Pairs(Heard(S(), pattern), h)
      {
        var n, m := GetTopics(pattern);
        var found, t := SomeKey(n[h].Keys);
        if !found {
          break;
        }
        ListenersOwn(S(), h, pattern);
        FirstHas(n, h, t);
        var c := n[h][t][0];
        HeardExist(S(), h, c, t, pattern);
        UnlistenStep(S(), h, c, t, pattern);
        TopicsSet(S(), pattern, Unlink(n, h, t, c), Unlink(m, c, h, t));
        PutTopics(pattern, Unlink(n, h, t, c), Unlink(m, c, h, t));
        PairsFewer(n, Heard(S(), pattern), h, t, c);
        SameButNext(n0, n, Heard(S(), pattern), h, t, c);
      }
      SameHasSelf(Heard(S(), pattern));
      SameButEnd(n0, Heard(S(), pattern), Heard(S(), pattern), h);
    }

    /** `delete_channel_t`: no client listens to the channel any more. */
    method DeleteChannel(h: nat)
      requires Core(S()) && h in channels
      modifies this`channels, this`topics, this`clientTopics, this`patterns, this`clientPatterns
      ensures Core(S()) && channels == old(channels) - {h}
      ensures WithoutOwner(old(topics), topics, h) && WithoutOwner(old(patterns), patterns, h)
    {
      hide Core, WithoutOwner, SameHas, Users;
      EjectListeners(h, false);
      EjectListeners(h, true);
      ChannelOwns(S(), h);
      DropChannelStep(S(), h);
      OwnerGone(old(topics), topics, topics - {h}, h);
      OwnerGone(old(patterns), patterns, patterns - {h}, h);
      ReleaseChannel(h);
    }

    /* --- A client goes --- */

    /** The first loop of `eject_queue_client`. */
    method DropSubscriptions(c: nat)
      requires Inv(S()) && c in clients
      modifies this`subscribedQueues, this`msgClients, this`notifyClients
      ensures Inv(S()) && OwnerBut(old(subscribedQueues), subscribedQueues, c)
      ensures c in subscribedQueues && subscribedQueues[c] == []
    {
      hide Core, Inv, In, Less, Len, OwnerBut, Elems, Within;
      InvCore(S());
      ClientOwns(S(), c);
      OwnerStart(subscribedQueues, c);
      while subscribedQueues[c] != []
        invariant Core(S()) && c in subscribedQueues && OwnerBut(old(subscribedQueues), subscribedQueues, c)
        invariant Within(subscribedQueues, declaredQueues)
        decreases Elems(subscribedQueues, c)
      {
        var q := subscribedQueues[c][0];
        FirstIn(subscribedQueues, c);
        SubscribedExist(S(), c, q);
        ghost var l := subscribedQueues;
        Unsubscribe(q, c);
        ClientOwns(S(), c);
        ElemsFewer(l, subscribedQueues, c, q);
        OwnerNext(old(subscribedQueues), l, subscribedQueues, c, q);
        WithinAdd(l, subscribedQueues, declaredQueues, declaredQueues, c, q);
      }
      CoreInv(S());
    }

    /** `undeclare_client_queue_t` followed by `process_queue_t`: the last client takes an automatic queue along. */
    method UndeclareAndProcess(q: nat, c: nat)
      requires Inv(S()) && In(declaredQueues, c, q) && c in subscribedQueues && subscribedQueues[c] == []
      modifies this`queues, this`declaredQueues, this`declaredClients, this`subscribedQueues, this`msgClients, this`notifyClients
      modifies this`routes, this`routeKeys, this`queueRoutes
      ensures Inv(S()) && Less(old(declaredQueues), declaredQueues, c, q) && SameIn(old(subscribedQueues), subscribedQueues)
      ensures Left(old(queues), ListUsers(old(declaredClients)), queues, ListUsers(declaredClients))
      ensures Left(old(routes), Users(old(routeKeys)), routes, Users(routeKeys))
      ensures queues == old(queues) || queues == old(queues) - {q}
      ensures if queues == old(queues) then routeKeys == old(routeKeys) else Without(old(routeKeys), routeKeys, q)
    {
      hide Core, Inv, In, Less, Len, Within, Left, ListUsers, Users, Without, SameIn, ListWithout, Mirror;
      InvCore(S());
      DeclaredExist(S(), c, q);
      ghost var s := S();
      Undeclare(q, c);
      ghost var s1 := S();
      StillWithin(s, s1, c, q);
      CoreInv(s1);
      KeysOk(s);
      KeysOk(s1);
      QueueOwns(s1, q);
      MirrorUsersLess(s.declaredQueues, s.declaredClients, s1.declaredQueues, s1.declaredClients, c, q);
      LeftOne(queues, ListUsers(s.declaredClients), ListUsers(s1.declaredClients), q);
      LeftSame(routes, Users(routeKeys));
      SameInSelf(subscribedQueues);
      if queues[q] && declaredClients[q] == [] {
        DeleteQueue(q);
        NobodyHas(s1.declaredQueues, declaredQueues, s1.declaredClients, q);
        NobodySubscribes(s1.subscribedQueues, subscribedQueues, s1.declaredQueues, s1.declaredClients, q);
        InvCore(S());
        KeysOk(S());
        MirrorUsers(s1.declaredQueues, s1.declaredClients, declaredQueues, declaredClients);
        ClientKeys(s1);
        ClientKeys(S());
        LessSame(s.declaredQueues, s1.declaredQueues, declaredQueues, c, q);
      }
    }

    /** The second loop of `eject_queue_client`. */
    method DropDeclarations(c: nat)
      requires Inv(S()) && c in clients && c in subscribedQueues && subscribedQueues[c] == []
      modifies this`queues, this`declaredQueues, this`declaredClients, this`subscribedQueues, this`msgClients, this`notifyClients
      modifies this`routes, this`routeKeys, this`queueRoutes
      ensures Inv(S()) && OwnerBut(old(declaredQueues), declaredQueues, c) && OwnerBut(old(subscribedQueues), subscribedQueues, c)
      ensures c in declaredQueues && declaredQueues[c] == [] && c in subscribedQueues && subscribedQueues[c] == []
      ensures Left(old(queues), ListUsers(old(declaredClients)), queues, ListUsers(declaredClients))
      ensures Left(old(routes), Users(old(routeKeys)), routes, Users(routeKeys)) && Kept(old(routeKeys), routeKeys, queues.Keys)
    {
      hide Core, Inv, In, Less, OwnerBut, Elems, Left, ListUsers, Users, Without, SameIn, Kept;
      InvCore(S());
      ClientOwns(S(), c);
      OwnerStart(declaredQueues, c);
      OwnerStart(subscribedQueues, c);
      LeftSame(queues, ListUsers(declaredClients));
      LeftSame(routes, Users(routeKeys));
      AllKept(S());
      while declaredQueues[c] != []
        invariant Inv(S()) && c in declaredQueues && OwnerBut(old(declaredQueues), declaredQueues, c)
        invariant c in subscribedQueues && subscribedQueues[c] == [] && OwnerBut(old(subscribedQueues), subscribedQueues, c)
        invariant Left(old(queues), ListUsers(old(declaredClients)), queues, ListUsers(declaredClients))
        invariant Left(old(routes), Users(old(routeKeys)), routes, Users(routeKeys)) && Kept(old(routeKeys), routeKeys, queues.Keys)
        decreases Elems(declaredQueues, c)
      {
        var q := declaredQueues[c][0];
        FirstIn(declaredQueues, c);
        ghost var s := S();
        UndeclareAndProcess(q, c);
        DropNext(old(S()), s, S(), c, q);
        InvCore(S());
        ClientOwns(S(), c);
        NoneLeft(s.subscribedQueues, subscribedQueues, c);
      }
    }

    /** One half of `eject_channel_client`. */
    method DropTopics(c: nat, pattern: bool)
      requires Core(S()) && c in clients
      modifies this`channels, this`topics, this`clientTopics, this`patterns, this`clientPatterns
      ensures Core(S()) && c in Hears(S(), pattern) && Hears(S(), pattern)[c] == map[]
      ensures Without(old(Heard(S(), pattern)), Heard(S(), pattern), c)
      ensures SameHas(old(Heard(S(), !pattern)), Heard(S(), !pattern)) && Hears(S(), !pattern) == old(Hears(S(), !pattern))
      ensures Left(old(channels), old(Listened(S())), channels, Listened(S()))
    {
      hide Core, Loses, Has, Minus, Pairs, KeyedOk, TopicMirror, SameHas, Left, Heard, Hears, Listened, SameButTarget, Without;
      ghost var s0 := S();
      HearersOwn(S(), c, pattern);
      TargetStart(Heard(s0, pattern), c);
      SameHasSelf(Heard(s0, !pattern));
      LeftSame(channels, Listened(s0));
      while true
        invariant Core(S()) && c in Hears(S(), pattern) && SameButTarget(Heard(s0, pattern), Heard(S(), pattern), c)
        invariant SameHas(Heard(s0, !pattern), Heard(S(), !pattern)) && Hears(S(), !pattern) == Hears(s0, !pattern)
        invariant Left(s0.channels, Listened(s0), channels, Listened(S()))
        decreases Pairs(Hears(S(), pattern), c)
      {
        ghost var s := S();
        var n, m := GetTopics(pattern);
        var found, h := SomeKey(m[c].Keys);
        if !found {
          break;
        }
        HearersOwn(s, c, pattern);
        FirstHas(m, c, h);
        var t := m[c][h][0];
        HeardExist(s, h, c, t, pattern);
        var _ := Unlisten(h, c, t, pattern);
        HearersOwn(S(), c, pattern);
        PairsFewer(m, Hears(S(), pattern), c, h, t);
        TargetNext(Heard(s0, pattern), n, Heard(S(), pattern), h, t, c);
        SameHasTrans(Heard(s0, !pattern), Heard(s, !pattern), Heard(S(), !pattern), c);
        LeftTrans(s0.channels, Listened(s0), s.channels, Listened(s), channels, Listened(S()));
      }
      HearersOwn(S(), c, pattern);
      TargetEnd(Heard(s0, pattern), Heard(S(), pattern), Hears(S(), pattern), c);
    }

    method ReleaseClient(c: nat)
      modifies this`clients, this`declaredQueues, this`subscribedQueues, this`clientTopics, this`clientPatterns
      ensures S() == ClientDropped(old(S()), c)
    {
      clients, declaredQueues, subscribedQueues := clients - {c}, declaredQueues - {c}, subscribedQueues - {c};
      clientTopics, clientPatterns := clientTopics - {c}, clientPatterns - {c};
    }

    /**
     `free_client`: nothing mentions the client any more; of the objects to be deleted automatically
     exactly those go that lost their last user.
     */
    method Disconnect(c: nat)
      requires Inv(S()) && c in clients
      modifies this
      ensures Inv(S()) && clients == old(clients) - {c}
      ensures ListWithoutOwner(old(declaredQueues), declaredQueues, c) && ListWithoutOwner(old(subscribedQueues), subscribedQueues, c)
      ensures Without(old(topics), topics, c) && Without(old(patterns), patterns, c)
      ensures Left(old(queues), ListUsers(old(declaredClients)), queues, ListUsers(declaredClients))
      ensures Left(old(routes), Users(old(routeKeys)), routes, Users(routeKeys)) && Kept(old(routeKeys), routeKeys, queues.Keys)
      ensures Left(old(channels), old(Listened(S())), channels, Listened(S()))
    {
      hide Core, Inv, Within, OwnerBut, Left, ListUsers, Users, Without, SameIn, Kept, Listened, SameHas, ListWithoutOwner;
      ghost var s0 := S();
      EjectQueues(c);
      SameListened(s0, S());
      EjectTopics(c);
      ghost var s2 := S();
      DropClientStep(s2, c);
      OwnerEnd(s0.declaredQueues, s2.declaredQueues, s2.declaredQueues - {c}, c);
      OwnerEnd(s0.subscribedQueues, s2.subscribedQueues, s2.subscribedQueues - {c}, c);
      ReleaseClient(c);
      SameListened(s2, S());
    }

    /** `eject_queue_client`. */
    method EjectQueues(c: nat)
      requires Inv(S()) && c in clients
      modifies this`queues, this`declaredQueues, this`declaredClients, this`subscribedQueues, this`msgClients, this`notifyClients
      modifies this`routes, this`routeKeys, this`queueRoutes
      ensures Inv(S()) && OwnerBut(old(declaredQueues), declaredQueues, c) && OwnerBut(old(subscribedQueues), subscribedQueues, c)
      ensures c in declaredQueues && declaredQueues[c] == [] && c in subscribedQueues && subscribedQueues[c] == []
      ensures Left(old(queues), ListUsers(old(declaredClients)), queues, ListUsers(declaredClients))
      ensures Left(old(routes), Users(old(routeKeys)), routes, Users(routeKeys)) && Kept(old(routeKeys), routeKeys, queues.Keys)
    {
      hide Core, Inv, Within, OwnerBut, Left, ListUsers, Users, Kept;
      DropSubscriptions(c);
      ghost var l := subscribedQueues;
      DropDeclarations(c);
      OwnerTwice(old(subscribedQueues), l, subscribedQueues, c);
    }

    /** `eject_channel_client`. */
    method EjectTopics(c: nat)
      requires Inv(S()) && c in clients
      modifies this`channels, this`topics, this`clientTopics, this`patterns, this`clientPatterns
      ensures Inv(S()) && c in clientTopics && clientTopics[c] == map[] && c in clientPatterns && clientPatterns[c] == map[]
      ensures Without(old(topics), topics, c) && Without(old(patterns), patterns, c)
      ensures Left(old(channels), old(Listened(S())), channels, Listened(S()))
    {
      hide Core, Inv, Within, Left, Users, Without, Listened, SameHas;
      InvCore(S());
      ghost var s0 := S();
      DropTopics(c, false);
      ghost var s1 := S();
      DropTopics(c, true);
      SameHasTrans(s0.topics, s1.topics, topics, c);
      WithoutSame(s0.patterns, s1.patterns, patterns, c);
      LeftTrans(s0.channels, Listened(s0), s1.channels, Listened(s1), channels, Listened(S()));
      CoreInv(S());
    }

    /* --- What comes, and flushing --- */

    /** `create_client`. */
    method Connect(c: nat)
      requires Inv(S()) && c !in clients
      modifies this`clients, this`declaredQueues, this`subscribedQueues, this`clientTopics, this`clientPatterns
      ensures Inv(S()) && clients == old(clients) + {c}
      ensures SameIn(old(declaredQueues), declaredQueues) && SameIn(old(subscribedQueues), subscribedQueues)
    {
      hide Inv, SameIn;
      NewClientStep(S(), c);
      clients, declaredQueues, subscribedQueues := clients + {c}, declaredQueues[c := []], subscribedQueues[c := []];
      clientTopics, clientPatterns := clientTopics[c := map[]], clientPatterns[c := map[]];
    }

    /** `create_queue_t`, once the name is known to be new. */
    method CreateQueue(q: nat, auto: bool)
      requires Inv(S()) && q !in queues
      modifies this`queues, this`declaredClients, this`msgClients, this`notifyClients, this`queueRoutes
      ensures Inv(S()) && queues == old(queues)[q := auto]
    {
      hide Inv;
      NewQueueStep(S(), q, auto);
      queues, declaredClients, msgClients := queues[q := auto], declaredClients[q := []], msgClients[q := []];
      notifyClients, queueRoutes := notifyClients[q := []], queueRoutes[q := map[]];
    }

    /** `create_route_t` and `create_channel_t`. */
    method CreateRoute(r: nat, auto: bool)
      requires Inv(S()) && r !in routes
      modifies this`routes, this`routeKeys
      ensures Inv(S()) && routes == old(routes)[r := auto] && SameHas(old(routeKeys), routeKeys)
    {
      hide Inv, SameHas;
      NewRouteStep(S(), r, auto);
      routes, routeKeys := routes[r := auto], routeKeys[r := map[]];
    }

    method CreateChannel(h: nat, auto: bool)
      requires Inv(S()) && h !in channels
      modifies this`channels, this`topics, this`patterns
      ensures Inv(S()) && channels == old(channels)[h := auto] && SameHas(old(topics), topics) && SameHas(old(patterns), patterns)
    {
      hide Inv, SameHas;
      NewChannelStep(S(), h, auto);
      channels, topics, patterns := channels[h := auto], topics[h := map[]], patterns[h := map[]];
    }

    /** `delete_queues`. */
    method FlushQueues()
      requires Inv(S())
      modifies this`queues, this`declaredQueues, this`declaredClients, this`subscribedQueues, this`msgClients, this`notifyClients
      modifies this`routes, this`routeKeys, this`queueRoutes
      ensures Inv(S()) && queues.Keys == {} && Users(routeKeys) == {}
      ensures Left(old(routes), Users(old(routeKeys)), routes, Users(routeKeys))
    {
      hide Inv, Core, ListWithout, Without, Left, Users;
      LeftSame(routes, Users(routeKeys));
      while true
        invariant Inv(S()) && Left(old(routes), Users(old(routeKeys)), routes, Users(routeKeys))
        decreases queues.Keys
      {
        var found, q := SomeKey(queues.Keys);
        if !found {
          break;
        }
        ghost var o, n, ks := routes, routeKeys, queues.Keys;
        DeleteQueue(q);
        assert queues.Keys == ks - {q};
        LeftTrans(old(routes), Users(old(routeKeys)), o, Users(n), routes, Users(routeKeys));
      }
      NoQueues(S());
    }

    /* --- Commands of a client --- */

    /** `queue_unsubscribe_command_handler`. */
    method UnsubscribeCommand(q: nat, c: nat) returns (ok: bool)
      requires Inv(S()) && q in queues && c in clients
      modifies this`subscribedQueues, this`msgClients, this`notifyClients
      ensures Inv(S()) && ok == In(old(subscribedQueues), c, q)
      ensures if ok then Less(old(subscribedQueues), subscribedQueues, c, q) else S() == old(S())
    {
      hide Core, Inv, In, Less, Len;
      InvCore(S());
      ClientOwns(S(), c);
      InAt(declaredQueues, c, q);
      InAt(subscribedQueues, c, q);
      SubscribedDeclared(S(), c, q);
      if q !in declaredQueues[c] || q !in subscribedQueues[c] {
        return false;
      }
      ghost var s := S();
      Unsubscribe(q, c);
      StillInv(s, S(), c, q);
      return true;
    }

    /** `route_unbind_command_handler`. */
    method UnbindCommand(r: nat, q: nat, k: nat) returns (answer: Answer)
      requires Inv(S())
      modifies this`routes, this`routeKeys, this`queueRoutes
      ensures Inv(S()) && (answer.NotFound? <==> r !in old(routes) || q !in queues)
      ensures answer.Success? <==> r in old(routes) && q in queues && exists x :: Has(old(routeKeys), r, k, x)
      ensures answer.NotFound? ==> S() == old(S())
      ensures Left(old(routes), Users(old(routeKeys)), routes, Users(routeKeys)) && (r in old(routes) && q in queues ==> Minus(old(routeKeys), routeKeys, r, k, q))
    {
      hide Core, Inv, Has, Loses, Minus, Left, Users;
      InvCore(S());
      LeftSame(routes, Users(routeKeys));
      if r !in routes || q !in queues {
        return NotFound;
      }
      ghost var s := S();
      var ok := Unbind(r, q, k);
      SameLists(s, S());
      return if ok then Success else Error;
    }

    /** `route_delete_command_handler`. */
    method DeleteRouteCommand(r: nat) returns (ok: bool)
      requires Inv(S())
      modifies this`routes, this`routeKeys, this`queueRoutes
      ensures Inv(S()) && ok == (r in old(routes)) && (ok ==> routes == old(routes) - {r} && WithoutOwner(old(routeKeys), routeKeys, r))
    {
      hide Core, Inv, WithoutOwner;
      InvCore(S());
      if r !in routes {
        return false;
      }
      ghost var s := S();
      DeleteRoute(r);
      SameLists(s, S());
      return true;
    }

    /**
     `channel_unsubscribe_command_handler` and `channel_punsubscribe_command_handler`.  A failed
     unsubscription does not end the handler: the client is told of the failure, and of success after it.
     */
    method UnlistenCommand(h: nat, c: nat, t: nat, pattern: bool) returns (answers: seq<Answer>)
      requires Inv(S()) && c in clients
      modifies this`channels, this`topics, this`clientTopics, this`patterns, this`clientPatterns
      ensures Inv(S()) && Left(old(channels), old(Listened(S())), channels, Listened(S()))
      ensures h in old(channels) ==> Minus(old(Heard(S(), pattern)), Heard(S(), pattern), h, t, c)
      ensures h !in old(channels) ==> answers == [NotFound] && S() == old(S())
      ensures h in old(channels) && (exists x :: Has(old(Heard(S(), pattern)), h, t, x)) ==> answers == [Success]
      ensures h in old(channels) && !(exists x :: Has(old(Heard(S(), pattern)), h, t, x)) ==> answers == [NotFound, Success]
    {
      hide Core, Inv, Has, Loses, Minus, Left, Listened, SameHas, Heard, Hears;
      InvCore(S());
      LeftSame(channels, Listened(S()));
      if h !in channels {
        return [NotFound];
      }
      ghost var s := S();
      var ok := Unlisten(h, c, t, pattern);
      SameLists(s, S());
      answers := [];
      if !ok {
        answers := [NotFound];
      }
      answers := answers + [Success];
    }

    /** `channel_delete_command_handler`. */
    method DeleteChannelCommand(h: nat) returns (ok: bool)
      requires Inv(S())
      modifies this`channels, this`topics, this`clientTopics, this`patterns, this`clientPatterns
      ensures Inv(S()) && ok == (h in old(channels)) && (ok ==> channels == old(channels) - {h})
      ensures ok ==> WithoutOwner(old(topics), topics, h) && WithoutOwner(old(patterns), patterns, h)
    {
      hide Core, Inv, WithoutOwner;
      InvCore(S());
      if h !in channels {
        return false;
      }
      ghost var s := S();
      DeleteChannel(h);
      SameLists(s, S());
      return true;
    }
  }

  lemma TopicOwns(s: State, h: nat, c: nat, pattern: bool)
    requires Core(s) && h in s.channels && c in s.clients
    ensures h in Heard(s, pattern) && c in Hears(s, pattern) && h in s.topics && h in s.patterns
    ensures KeyedOk(Heard(s, pattern)) && TopicMirror(Heard(s, pattern), Hears(s, pattern))
  {
    hide Mirror, SubMirror, KeyMirror;
  }

  lemma TopicsSet(s: State, pattern: bool, n: Keyed, m: Keyed)
    ensures var s' := SetTopics(s, pattern, n, m);
      && Heard(s', pattern) == n && Hears(s', pattern) == m && s'.channels == s.channels && s'.clients == s.clients
      && Heard(s', !pattern) == Heard(s, !pattern) && Hears(s', !pattern) == Hears(s, !pattern)
  {
  }

  lemma ListenedLess(s: State, s': State, h: nat, pattern: bool)
    requires Heard(s', !pattern) == Heard(s, !pattern)
    requires Users(Heard(s, pattern)) - {h} <= Users(Heard(s', pattern)) <= Users(Heard(s, pattern)) && h in Users(Heard(s, pattern))
    ensures Listened(s) - {h} <= Listened(s') <= Listened(s) && h in Listened(s)
  {
    hide Users;
  }

  lemma NowUnused(s: State, h: nat)
    requires h in s.topics && h in s.patterns
    ensures h in Listened(s) <==> !(s.topics[h] == map[] && s.patterns[h] == map[])
  {
  }

  lemma ChannelSet(s: State, h: nat, n: Keyed, pattern: bool)
    requires SameHas(s.topics, s.topics - {h}) && SameHas(s.patterns, s.patterns - {h})
    requires Users(s.topics - {h}) == Users(s.topics) && Users(s.patterns - {h}) == Users(s.patterns)
    ensures var s' := ChannelDropped(s, h);
      && SameHas(Heard(s, pattern), Heard(s', pattern)) && SameHas(Heard(s, !pattern), Heard(s', !pattern))
      && Hears(s', pattern) == Hears(s, pattern) && Hears(s', !pattern) == Hears(s, !pattern)
      && Listened(s') == Listened(s) && s'.channels == s.channels - {h}
  {
    hide SameHas, Users;
  }

  lemma ClientKeys(s: State)
    requires Core(s)
    ensures s.declaredQueues.Keys == s.clients && s.subscribedQueues.Keys == s.clients
  {
    hide Mirror, SubMirror, KeyMirror, TopicMirror;
  }

  lemma HearersOwn(s: State, c: nat, pattern: bool)
    requires Core(s) && c in s.clients
    ensures c in Hears(s, pattern) && KeyedOk(Hears(s, pattern)) && TopicMirror(Heard(s, pattern), Hears(s, pattern))
  {
    hide Mirror, SubMirror, KeyMirror;
  }

  lemma AllKept(s: State)
    requires Core(s)
    ensures Kept(s.routeKeys, s.routeKeys, s.queues.Keys)
  {
    hide Mirror, SubMirror, TopicMirror;
  }

  /** One declaration less, and what it took along. */
  lemma DropNext(s0: State, s: State, s': State, c: nat, q: nat)
    requires Less(s.declaredQueues, s'.declaredQueues, c, q) && SameIn(s.subscribedQueues, s'.subscribedQueues) && In(s.declaredQueues, c, q)
    requires OwnerBut(s0.declaredQueues, s.declaredQueues, c) && OwnerBut(s0.subscribedQueues, s.subscribedQueues, c)
    requires Left(s0.queues, ListUsers(s0.declaredClients), s.queues, ListUsers(s.declaredClients))
    requires Left(s.queues, ListUsers(s.declaredClients), s'.queues, ListUsers(s'.declaredClients))
    requires Left(s0.routes, Users(s0.routeKeys), s.routes, Users(s.routeKeys))
    requires Left(s.routes, Users(s.routeKeys), s'.routes, Users(s'.routeKeys))
    requires Kept(s0.routeKeys, s.routeKeys, s.queues.Keys) && (s'.queues == s.queues || s'.queues == s.queues - {q})
    requires if s'.queues == s.queues then s'.routeKeys == s.routeKeys else Without(s.routeKeys, s'.routeKeys, q)
    ensures OwnerBut(s0.declaredQueues, s'.declaredQueues, c) && OwnerBut(s0.subscribedQueues, s'.subscribedQueues, c)
    ensures Left(s0.queues, ListUsers(s0.declaredClients), s'.queues, ListUsers(s'.declaredClients))
    ensures Left(s0.routes, Users(s0.routeKeys), s'.routes, Users(s'.routeKeys)) && Kept(s0.routeKeys, s'.routeKeys, s'.queues.Keys)
    ensures Elems(s'.declaredQueues, c) == Elems(s.declaredQueues, c) - {q} && q in Elems(s.declaredQueues, c)
  {
    hide In, Less, OwnerBut, Elems, Left, ListUsers, Users, Without, SameIn, Kept, Has;
    OwnerNext(s0.declaredQueues, s.declaredQueues, s'.declaredQueues, c, q);
    OwnerNext(s0.subscribedQueues, s.subscribedQueues, s'.subscribedQueues, c, q);
    LeftTrans(s0.queues, ListUsers(s0.declaredClients), s.queues, ListUsers(s.declaredClients), s'.queues, ListUsers(s'.declaredClients));
    LeftTrans(s0.routes, Users(s0.routeKeys), s.routes, Users(s.routeKeys), s'.routes, Users(s'.routeKeys));
    ElemsFewer(s.declaredQueues, s'.declaredQueues, c, q);
    if s'.queues != s.queues {
      KeptNext(s0.routeKeys, s.routeKeys, s'.routeKeys, s.queues.Keys, q);
      assert s'.queues.Keys == s.queues.Keys - {q};
    }
  }

  lemma NoneLeft(l: Lists, l': Lists, a: nat)
    requires SameIn(l, l') && a in l && l[a] == [] && a in l'
    ensures l'[a] == []
  {
    FirstIn(l', a);
  }

  lemma OwnerTwice(l: Lists, l1: Lists, l2: Lists, a: nat)
    requires OwnerBut(l, l1, a) && OwnerBut(l1, l2, a)
    ensures OwnerBut(l, l2, a)
  {
    hide In;
  }

  lemma WithoutSame(n: Keyed, n1: Keyed, n2: Keyed, b: nat)
    requires SameHas(n, n1) && Without(n1, n2, b)
    ensures Without(n, n2, b)
  {
    hide Has;
  }

  lemma SameListened(s: State, s': State)
    requires s'.topics == s.topics && s'.patterns == s.patterns
    ensures Listened(s') == Listened(s)
  {
  }

  lemma NoQueues(s: State)
    requires Inv(s) && s.queues.Keys == {}
    ensures Users(s.routeKeys) == {}
  {
    hide Mirror, SubMirror, TopicMirror, Within;
    forall r | r in s.routeKeys ensures s.routeKeys[r] == map[] {
      NoKeys(s.routeKeys, r);
      assert forall k, q :: !Has(s.queueRoutes, q, k, r);
    }
  }

  lemma NewClientStep(s: State, c: nat)
    requires Inv(s) && c !in s.clients
    ensures Inv(s.(clients := s.clients + {c}, declaredQueues := s.declaredQueues[c := []], subscribedQueues := s.subscribedQueues[c := []],
                   clientTopics := s.clientTopics[c := map[]], clientPatterns := s.clientPatterns[c := map[]]))
    ensures SameIn(s.declaredQueues, s.declaredQueues[c := []]) && SameIn(s.subscribedQueues, s.subscribedQueues[c := []])
  {
    hide SubMirror, KeyMirror, TopicMirror;
    MirrorOwner(s.declaredQueues, s.declaredClients, c);
    SubOwner1(s.subscribedQueues, s.msgClients, s.notifyClients, c);
    TopicOwner2(s.topics, s.clientTopics, c);
    TopicOwner2(s.patterns, s.clientPatterns, c);
  }

  lemma NewQueueStep(s: State, q: nat, auto: bool)
    requires Inv(s) && q !in s.queues
    ensures Inv(s.(queues := s.queues[q := auto], declaredClients := s.declaredClients[q := []], msgClients := s.msgClients[q := []],
                   notifyClients := s.notifyClients[q := []], queueRoutes := s.queueRoutes[q := map[]]))
  {
    hide Mirror, SubMirror, KeyMirror, TopicMirror, Within;
    MirrorOwner2(s.declaredQueues, s.declaredClients, q);
    SubOwner(s.subscribedQueues, s.msgClients, s.notifyClients, q);
    KeyOwner2(s.routeKeys, s.queueRoutes, q);
  }

  lemma NewRouteStep(s: State, r: nat, auto: bool)
    requires Inv(s) && r !in s.routes
    ensures Inv(s.(routes := s.routes[r := auto], routeKeys := s.routeKeys[r := map[]]))
    ensures SameHas(s.routeKeys, s.routeKeys[r := map[]])
  {
    hide Mirror, SubMirror, TopicMirror, Within;
    KeyOwner(s.routeKeys, s.queueRoutes, r);
  }

  lemma NewChannelStep(s: State, h: nat, auto: bool)
    requires Inv(s) && h !in s.channels
    ensures Inv(s.(channels := s.channels[h := auto], topics := s.topics[h := map[]], patterns := s.patterns[h := map[]]))
    ensures SameHas(s.topics, s.topics[h := map[]]) && SameHas(s.patterns, s.patterns[h := map[]])
  {
    hide Mirror, SubMirror, KeyMirror, Within;
    TopicOwner(s.topics, s.clientTopics, h);
    TopicOwner(s.patterns, s.clientPatterns, h);
  }

  lemma ListenersOwn(s: State, h: nat, pattern: bool)
    requires Core(s) && h in s.channels
    ensures h in Heard(s, pattern) && KeyedOk(Heard(s, pattern))
  {
    hide Mirror, SubMirror, KeyMirror;
  }

  lemma OwnerGone(n: Keyed, n1: Keyed, n2: Keyed, a: nat)
    requires WithoutOwner(n, n1, a) && SameHas(n1, n2)
    ensures WithoutOwner(n, n2, a)
  {
    hide Has;
  }

  lemma CoreInv(s: State)
    requires Core(s) && Within(s.subscribedQueues, s.declaredQueues)
    ensures Inv(s)
  {
  }

  lemma SameInSelf(l: Lists)
    ensures SameIn(l, l)
  {
  }

  lemma LessSame(l: Lists, l1: Lists, l2: Lists, a: nat, b: nat)
    requires Less(l, l1, a, b) && SameIn(l1, l2) && l2.Keys == l1.Keys
    ensures Less(l, l2, a, b)
  {
    hide In;
  }

  /** A client without subscriptions can undeclare. */
  lemma StillWithin(s: State, s1: State, c: nat, q: nat)
    requires Within(s.subscribedQueues, s.declaredQueues) && Less(s.declaredQueues, s1.declaredQueues, c, q)
    requires s1.subscribedQueues == s.subscribedQueues && c in s.subscribedQueues && s.subscribedQueues[c] == []
    ensures Within(s1.subscribedQueues, s1.declaredQueues)
  {
  }

  lemma SameHasSelf(n: Keyed)
    ensures SameHas(n, n)
  {
  }

  lemma NoTopic(n: Keyed, m: Keyed, a: nat, k: nat, b: nat)
    requires TopicMirror(n, m) && a in n && k !in n[a]
    ensures Loses(m, m, b, a, k) && Minus(n, n, a, k, b)
  {
  }

  lemma NoLoss(n: Keyed, m: Keyed, a: nat, k: nat, b: nat)
    requires KeyMirror(n, m) && a in n && k !in n[a]
    ensures Loses(m, m, b, k, a) && Minus(n, n, a, k, b)
  {
  }
}
