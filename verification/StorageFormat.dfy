/**
 The durable store of EagleMQ (storage.c): what the bytes of a file mean.

 A parser reads one item from the bytes that remain and says what is left; `Reads(p, b, v)` says
 that the parser `p` reads the bytes `b`, whatever follows them, as `v`.
 */
module StorageFormat {

  import Lzf
  import Bitmap

  type byte = Lzf.byte

  datatype Parse<T> = Bad | Got(value: T, rest: seq<byte>)

  ghost predicate Reads<T>(p: seq<byte> -> Parse<T>, b: seq<byte>, v: T)
  {
    forall rest :: p(b + rest) == Got(v, rest)
  }

  datatype User = User(name: seq<byte>, password: seq<byte>, perm: nat)
  datatype Msg = Msg(payload: seq<byte>, expiration: nat)
  /** `messages` from the head of the queue (newest) to its tail. */
  datatype Queue = Queue(name: seq<byte>, maxMsg: nat, maxMsgSize: nat, flags: nat, messages: seq<Msg>)
  datatype Key = Key(key: seq<byte>, queues: seq<seq<byte>>)
  datatype Route = Route(name: seq<byte>, flags: nat, keys: seq<Key>)
  datatype Channel = Channel(name: seq<byte>, flags: nat)
  datatype Server = Server(users: seq<User>, queues: seq<Queue>, routes: seq<Route>, channels: seq<Channel>)

  const TYPE_USER: byte := 1
  const TYPE_QUEUE: byte := 2
  const TYPE_MESSAGE: byte := 3
  const TYPE_ROUTE: byte := 4
  const TYPE_ROUTE_KEY: byte := 5
  const TYPE_CHANNEL: byte := 6
  const TYPE_EOF: byte := 255

  /* --- Numbers --------------------------------------------------------------------- */

  function Pow256(k: nat): (r: nat)
    ensures r >= 1
  {
    if k == 0 then 1 else 256 * Pow256(k - 1)
  }

  /** `n` as `k` bytes in memory, lowest first. */
  function Bytes(n: nat, k: nat): (s: seq<byte>)
    ensures |s| == k
  {
    if k == 0 then [] else [n % 256] + Bytes(n / 256, k - 1)
  }

  function Value(s: seq<byte>): nat
  {
    if s == [] then 0 else s[0] + 256 * Value(s[1..])
  }

  lemma {:induction false} ValueBytes(n: nat, k: nat)
    requires n < Pow256(k)
    ensures Value(Bytes(n, k)) == n
    decreases k
  {
    if k > 0 {
      ValueBytes(n / 256, k - 1);
      assert Bytes(n, k)[1..] == Bytes(n / 256, k - 1);
    }
  }

  /* --- Fields ------------------------------------------------------------------------ */

  /** `storage_read`: reading nothing counts as a failure. */
  function Take(s: seq<byte>, n: nat): Parse<seq<byte>>
  {
    if n == 0 || |s| < n then Bad else Got(s[..n], s[n..])
  }

  lemma TakeFront(b: seq<byte>, rest: seq<byte>)
    requires b != []
    ensures Take(b + rest, |b|) == Got(b, rest)
  {
  }

  function ParseWord(s: seq<byte>): Parse<nat>
  {
    match Take(s, 4)
    case Bad => Bad
    case Got(b, rest) => Got(Value(b), rest)
  }

  lemma WordBack(n: nat, rest: seq<byte>)
    requires n < Pow256(4)
    ensures ParseWord(Bytes(n, 4) + rest) == Got(n, rest)
  {
    ValueBytes(n, 4);
    TakeFront(Bytes(n, 4), rest);
  }

  /** The two words in front of a field, and the field itself as stored. */
  datatype Stored = Stored(unpacked: nat, data: seq<byte>)

  function ParseStored(s: seq<byte>, max: nat, bounded: bool): Parse<Stored>
  {
    match ParseWord(s)
    case Bad => Bad
    case Got(comprlen, s1) =>
      match ParseWord(s1)
      case Bad => Bad
      case Got(length, s2) =>
        if bounded && ((length > max && comprlen == 0) || comprlen > max) then Bad else
        match Take(s2, length)
        case Bad => Bad
        case Got(data, s3) => Got(Stored(comprlen, data), s3)
  }

  /** `storage_read_data` and, without a bound, `storage_read_data_object`. */
  function ParseField(s: seq<byte>, max: nat, bounded: bool): Parse<seq<byte>>
  {
    match ParseStored(s, max, bounded)
    case Bad => Bad
    case Got(f, rest) =>
      if f.unpacked == 0 then Got(f.data, rest) else
      match Lzf.Decode(f.data, [], f.unpacked)
      case Ok(data) => if |data| == f.unpacked then Got(data, rest) else Bad
      case TooBig => Bad
      case Invalid => Bad
  }

  ghost predicate ReadsField(b: seq<byte>, max: nat, bounded: bool, data: seq<byte>)
  {
    forall rest :: ParseField(b + rest, max, bounded) == Got(data, rest)
  }

  lemma StoredBack(unpacked: nat, data: seq<byte>, max: nat, bounded: bool, rest: seq<byte>)
    requires unpacked < Pow256(4) && 0 < |data| < Pow256(4)
    requires bounded ==> unpacked <= max && (unpacked == 0 ==> |data| <= max)
    ensures ParseStored(Bytes(unpacked, 4) + Bytes(|data|, 4) + data + rest, max, bounded) == Got(Stored(unpacked, data), rest)
  {
    hide ParseWord, Take;
    WordBack(unpacked, Bytes(|data|, 4) + (data + rest));
    WordBack(|data|, data + rest);
    TakeFront(data, rest);
    assert Bytes(unpacked, 4) + Bytes(|data|, 4) + data + rest == Bytes(unpacked, 4) + (Bytes(|data|, 4) + (data + rest));
  }

  /** A field stored as it is. */
  lemma RawBack(data: seq<byte>, max: nat, bounded: bool)
    requires 0 < |data| < Pow256(4) && (bounded ==> |data| <= max)
    ensures ReadsField(Bytes(0, 4) + Bytes(|data|, 4) + data, max, bounded, data)
  {
    hide ParseStored, Bytes;
    forall rest ensures ParseField(Bytes(0, 4) + Bytes(|data|, 4) + data + rest, max, bounded) == Got(data, rest) {
      StoredBack(0, data, max, bounded, rest);
    }
  }

  /** A field stored compressed. */
  lemma PackedBack(data: seq<byte>, packed: seq<byte>, max: nat, bounded: bool)
    requires 0 < |data| < Pow256(4) && 0 < |packed| < Pow256(4) && Lzf.Encodes(packed, data) && (bounded ==> |data| <= max)
    ensures ReadsField(Bytes(|data|, 4) + Bytes(|packed|, 4) + packed, max, bounded, data)
  {
    hide ParseStored, Bytes, Lzf.Decode;
    forall rest ensures ParseField(Bytes(|data|, 4) + Bytes(|packed|, 4) + packed + rest, max, bounded) == Got(data, rest) {
      StoredBack(|data|, packed, max, bounded, rest);
      assert Lzf.Decode(packed, [], |data|) == Lzf.Ok(data);
    }
  }

  /* --- Strings and numbers in fields ------------------------------------------------------ */

  /** A string without its terminating zero, in a buffer of `max`. */
  predicate IsString(s: seq<byte>, max: nat)
  {
    |s| < max && forall i :: 0 <= i < |s| ==> s[i] != 0
  }

  /** What a buffer holds as a string; nothing if it is not terminated. */
  function Text(s: seq<byte>): Parse<seq<byte>>
  {
    if s == [] then Bad
    else if s[0] == 0 then Got([], s[1..])
    else match Text(s[1..])
      case Bad => Bad
      case Got(t, rest) => Got([s[0]] + t, rest)
  }

  lemma {:induction false} TextBack(s: seq<byte>)
    requires forall i :: 0 <= i < |s| ==> s[i] != 0
    ensures Text(s + [0]) == Got(s, [])
    decreases |s|
  {
    if s != [] {
      TextBack(s[1..]);
      assert (s + [0])[1..] == s[1..] + [0];
      assert [s[0]] + s[1..] == s;
    }
  }

  function ParseString(s: seq<byte>, max: nat): Parse<seq<byte>>
  {
    match ParseField(s, max, true)
    case Bad => Bad
    case Got(data, rest) =>
      match Text(data)
      case Bad => Bad
      case Got(t, _) => Got(t, rest)
  }

  function ParseNumber(s: seq<byte>, width: nat): Parse<nat>
  {
    match ParseField(s, width, true)
    case Bad => Bad
    case Got(data, rest) => if |data| == width then Got(Value(data), rest) else Bad
  }

  function Name64(s: seq<byte>): Parse<seq<byte>> { ParseString(s, 64) }
  function Name32(s: seq<byte>): Parse<seq<byte>> { ParseString(s, 32) }
  function Number4(s: seq<byte>): Parse<nat> { ParseNumber(s, 4) }
  function Number8(s: seq<byte>): Parse<nat> { ParseNumber(s, 8) }
  function Object(s: seq<byte>): Parse<seq<byte>> { ParseField(s, 0, false) }

  lemma StringBack(b: seq<byte>, max: nat, s: seq<byte>)
    requires IsString(s, max) && ReadsField(b, max, true, s + [0])
    ensures max == 64 ==> Reads(Name64, b, s)
    ensures max == 32 ==> Reads(Name32, b, s)
  {
    hide ParseField, Text;
    TextBack(s);
  }

  lemma NumberBack(b: seq<byte>, width: nat, n: nat)
    requires n < Pow256(width) && ReadsField(b, width, true, Bytes(n, width))
    ensures width == 4 ==> Reads(Number4, b, n)
    ensures width == 8 ==> Reads(Number8, b, n)
  {
    hide ParseField;
    ValueBytes(n, width);
  }

  lemma ObjectBack(b: seq<byte>, data: seq<byte>)
    requires ReadsField(b, 0, false, data)
    ensures Reads(Object, b, data)
  {
    hide ParseField;
  }

  /* --- Several items ------------------------------------------------------------------------ */

  /** The next `n` items. */
  function ParseMany<T>(p: seq<byte> -> Parse<T>, s: seq<byte>, n: nat): Parse<seq<T>>
    decreases n
  {
    if n == 0 then Got([], s) else
    match p(s)
    case Bad => Bad
    case Got(x, s1) =>
      match ParseMany(p, s1, n - 1)
      case Bad => Bad
      case Got(xs, s2) => Got([x] + xs, s2)
  }

  ghost predicate ReadsMany<T>(p: seq<byte> -> Parse<T>, b: seq<byte>, xs: seq<T>)
  {
    forall rest :: ParseMany(p, b + rest, |xs|) == Got(xs, rest)
  }

  lemma ManyNone<T>(p: seq<byte> -> Parse<T>)
    ensures ReadsMany(p, [], [])
  {
    forall rest: seq<byte> ensures ParseMany(p, [] + rest, 0) == Got([], rest) {
      assert [] + rest == rest;
    }
  }

  lemma ManyMore<T>(p: seq<byte> -> Parse<T>, b: seq<byte>, xs: seq<T>, b1: seq<byte>, x: T)
    requires ReadsMany(p, b, xs) && Reads(p, b1, x)
    ensures ReadsMany(p, b + b1, xs + [x])
  {
    forall rest ensures ParseMany(p, b + b1 + rest, |xs + [x]|) == Got(xs + [x], rest) {
      assert b + b1 + rest == b + (b1 + rest);
      ManySnoc(p, b + (b1 + rest), xs, x, b1 + rest, rest);
    }
  }

  lemma {:induction false} ManySnoc<T>(p: seq<byte> -> Parse<T>, s: seq<byte>, xs: seq<T>, x: T, s1: seq<byte>, s2: seq<byte>)
    requires ParseMany(p, s, |xs|) == Got(xs, s1) && p(s1) == Got(x, s2)
    ensures ParseMany(p, s, |xs| + 1) == Got(xs + [x], s2)
    decreases |xs|
  {
    if xs == [] {
      assert ParseMany(p, s2, 0) == Got([], s2);
      assert [x] + [] == [] + [x];
    } else {
      var first := p(s);
      assert xs == [first.value] + xs[1..];
      ManySnoc(p, first.rest, xs[1..], x, s1, s2);
      assert xs + [x] == [first.value] + (xs[1..] + [x]);
    }
  }

  /* --- Records ------------------------------------------------------------------------------ */

  function ParseType(s: seq<byte>): Parse<byte>
  {
    if s == [] then Bad else Got(s[0], s[1..])
  }

  /** `storage_load_user`. */
  function ParseUser(s: seq<byte>): Parse<User>
  {
    match Name32(s)
    case Bad => Bad
    case Got(name, s1) =>
      match Name32(s1)
      case Bad => Bad
      case Got(password, s2) =>
        match Number8(s2)
        case Bad => Bad
        case Got(perm, s3) => Got(User(name, password, perm), s3)
  }

  lemma UserBack(u: User, b1: seq<byte>, b2: seq<byte>, b3: seq<byte>)
    requires Reads(Name32, b1, u.name) && Reads(Name32, b2, u.password) && Reads(Number8, b3, u.perm)
    ensures Reads(ParseUser, b1 + b2 + b3, u)
  {
    hide Name32, Number8;
    forall rest ensures ParseUser(b1 + b2 + b3 + rest) == Got(u, rest) {
      assert b1 + b2 + b3 + rest == b1 + (b2 + (b3 + rest));
    }
  }

  /** `storage_load_channel`. */
  function ParseChannel(s: seq<byte>): Parse<Channel>
  {
    match Name64(s)
    case Bad => Bad
    case Got(name, s1) =>
      match Number4(s1)
      case Bad => Bad
      case Got(flags, s2) => Got(Channel(name, flags), s2)
  }

  lemma ChannelBack(c: Channel, b1: seq<byte>, b2: seq<byte>)
    requires Reads(Name64, b1, c.name) && Reads(Number4, b2, c.flags)
    ensures Reads(ParseChannel, b1 + b2, c)
  {
    hide Name64, Number4;
    forall rest ensures ParseChannel(b1 + b2 + rest) == Got(c, rest) {
      assert b1 + b2 + rest == b1 + (b2 + rest);
    }
  }

  /** `storage_load_queue_message`, up to the push. */
  function ParseMsg(s: seq<byte>): Parse<Msg>
  {
    match ParseType(s)
    case Bad => Bad
    case Got(t, s1) =>
      if t != TYPE_MESSAGE then Bad else
      match Number4(s1)
      case Bad => Bad
      case Got(expiration, s2) =>
        match Object(s2)
        case Bad => Bad
        case Got(payload, s3) => Got(Msg(payload, expiration), s3)
  }

  lemma MsgBack(m: Msg, b1: seq<byte>, b2: seq<byte>)
    requires Reads(Number4, b1, m.expiration) && Reads(Object, b2, m.payload)
    ensures Reads(ParseMsg, [TYPE_MESSAGE] + b1 + b2, m)
  {
    hide Object, Number4;
    forall rest ensures ParseMsg([TYPE_MESSAGE] + b1 + b2 + rest) == Got(m, rest) {
      assert [TYPE_MESSAGE] + b1 + b2 + rest == [TYPE_MESSAGE] + (b1 + (b2 + rest));
      assert ([TYPE_MESSAGE] + (b1 + (b2 + rest)))[1..] == b1 + (b2 + rest);
    }
  }

  /** `push_message_queue_t` into a queue nobody subscribes to. */
  function Pushed(q: Queue, m: Msg): Queue
  {
    if |m.payload| > q.maxMsgSize then q
    else if |q.messages| < q.maxMsg then q.(messages := [m] + q.messages)
    else if Bitmap.Bit(q.flags, 1) && q.messages != [] then q.(messages := [m] + q.messages[..|q.messages| - 1])
    else q
  }

  function PushAll(q: Queue, ms: seq<Msg>): Queue
    decreases |ms|
  {
    if ms == [] then q else PushAll(Pushed(q, ms[0]), ms[1..])
  }

  lemma {:induction false} PushAllSnoc(q: Queue, ms: seq<Msg>, m: Msg)
    ensures PushAll(q, ms + [m]) == Pushed(PushAll(q, ms), m)
    decreases |ms|
  {
    hide Pushed;
    if ms == [] {
      assert (ms + [m])[1..] == [];
    } else {
      assert (ms + [m])[1..] == ms[1..] + [m];
      PushAllSnoc(Pushed(q, ms[0]), ms[1..], m);
    }
  }

  function Reversed(ms: seq<Msg>): (r: seq<Msg>)
    ensures |r| == |ms|
  {
    if ms == [] then [] else Reversed(ms[1..]) + [ms[0]]
  }

  lemma {:induction false} ReversedSnoc(ms: seq<Msg>, m: Msg)
    ensures Reversed(ms + [m]) == [m] + Reversed(ms)
    decreases |ms|
  {
    if ms != [] {
      assert (ms + [m])[1..] == ms[1..] + [m];
      ReversedSnoc(ms[1..], m);
    }
  }

  lemma {:induction false} ReversedTwice(ms: seq<Msg>)
    ensures Reversed(Reversed(ms)) == ms
    decreases |ms|
  {
    if ms != [] {
      ReversedTwice(ms[1..]);
      ReversedSnoc(Reversed(ms[1..]), ms[0]);
    }
  }

  /** The queue is within its own limits. */
  predicate Fits(q: Queue)
  {
    |q.messages| <= q.maxMsg && forall i :: 0 <= i < |q.messages| ==> |q.messages[i].payload| <= q.maxMsgSize
  }

  /** The queue a file record stands for: what is left of its messages after pushing the oldest first. */
  function Reloaded(q: Queue): Queue
  {
    PushAll(q.(messages := []), Reversed(q.messages))
  }

  lemma {:induction false} PushedWithin(q: Queue, ms: seq<Msg>)
    requires q.messages == [] && q.maxMsg > 0
    ensures Fits(PushAll(q, ms)) && PushAll(q, ms).(messages := []) == q
    decreases |ms|
  {
    if ms != [] {
      var n := |ms| - 1;
      PushedWithin(q, ms[..n]);
      PushAllSnoc(q, ms[..n], ms[n]);
      assert ms == ms[..n] + [ms[n]];
    }
  }

  lemma {:induction false} PushedAll(q: Queue, ms: seq<Msg>)
    requires q.messages == [] && Fits(q.(messages := Reversed(ms)))
    ensures PushAll(q, ms) == q.(messages := Reversed(ms))
    decreases |ms|
  {
    if ms != [] {
      var n := |ms| - 1;
      assert ms == ms[..n] + [ms[n]];
      ReversedSnoc(ms[..n], ms[n]);
      var r := q.(messages := Reversed(ms));
      assert r.messages == [ms[n]] + Reversed(ms[..n]);
      assert forall i :: 0 <= i < |Reversed(ms[..n])| ==> Reversed(ms[..n])[i] == r.messages[i + 1];
      PushedAll(q, ms[..n]);
      PushAllSnoc(q, ms[..n], ms[n]);
      assert |r.messages[0].payload| <= q.maxMsgSize;
    }
  }

  /** A queue comes back as it was exactly when it was within its limits. */
  lemma ReloadedIff(q: Queue)
    requires q.maxMsg > 0
    ensures Reloaded(q) == q <==> Fits(q)
    ensures Fits(Reloaded(q))
  {
    hide PushAll, Reversed, Fits;
    PushedWithin(q.(messages := []), Reversed(q.messages));
    ReversedTwice(q.messages);
    if Fits(q) {
      PushedAll(q.(messages := []), Reversed(q.messages));
    }
  }

  /** A queue that holds one message more than its limit, as a returned unconfirmed message can make it, loses one. */
  lemma OverLimit(a: Msg, b: Msg)
    ensures var q := Queue([], 1, |a.payload| + |b.payload|, 0, [a, b]); Reloaded(q) != q && |Reloaded(q).messages| <= 1
  {
    hide PushAll, Reversed;
    ReloadedIff(Queue([], 1, |a.payload| + |b.payload|, 0, [a, b]));
    PushedWithin(Queue([], 1, |a.payload| + |b.payload|, 0, []), Reversed([a, b]));
  }

  /** `storage_load_queue`; the messages are still as in the file, oldest first. */
  function ParseQueue(s: seq<byte>): Parse<Queue>
  {
    match Name64(s)
    case Bad => Bad
    case Got(name, s1) =>
      match Number4(s1)
      case Bad => Bad
      case Got(maxMsg, s2) =>
        match Number4(s2)
        case Bad => Bad
        case Got(maxMsgSize, s3) =>
          match Number4(s3)
          case Bad => Bad
          case Got(flags, s4) => ParseRest(s4, Queue(name, maxMsg, maxMsgSize, flags, []))
  }

  function ParseRest(s: seq<byte>, q: Queue): Parse<Queue>
  {
    match Number4(s)
    case Bad => Bad
    case Got(n, s1) =>
      match ParseMany(ParseMsg, s1, n)
      case Bad => Bad
      case Got(ms, s2) => Got(PushAll(q, ms), s2)
  }

  lemma RestBack(q: Queue, ms: seq<Msg>, b1: seq<byte>, b2: seq<byte>, rest: seq<byte>)
    requires Reads(Number4, b1, |ms|) && ReadsMany(ParseMsg, b2, ms)
    ensures ParseRest(b1 + (b2 + rest), q) == Got(PushAll(q, ms), rest)
  {
    hide Number4, ParseMany;
  }

  lemma QueueBack(q: Queue, b1: seq<byte>, b2: seq<byte>, b3: seq<byte>, b4: seq<byte>, b5: seq<byte>, b6: seq<byte>)
    requires Reads(Name64, b1, q.name) && Reads(Number4, b2, q.maxMsg) && Reads(Number4, b3, q.maxMsgSize)
    requires Reads(Number4, b4, q.flags) && Reads(Number4, b5, |q.messages|) && ReadsMany(ParseMsg, b6, Reversed(q.messages))
    ensures Reads(ParseQueue, b1 + b2 + b3 + b4 + b5 + b6, Reloaded(q))
  {
    hide Name64, Number4, ParseRest, PushAll, Reversed, ReadsMany;
    forall rest ensures ParseQueue(b1 + b2 + b3 + b4 + b5 + b6 + rest) == Got(Reloaded(q), rest) {
      assert b1 + b2 + b3 + b4 + b5 + b6 + rest == b1 + (b2 + (b3 + (b4 + (b5 + (b6 + rest)))));
      RestBack(q.(messages := []), Reversed(q.messages), b5, b6, rest);
    }
  }

  /* --- Routes ----------------------------------------------------------------------------------- */

  /** `storage_load_route_key`, before the queues are looked up. */
  function ParseKey(s: seq<byte>): Parse<Key>
  {
    match ParseType(s)
    case Bad => Bad
    case Got(t, s1) =>
      if t != TYPE_ROUTE_KEY then Bad else
      match Name32(s1)
      case Bad => Bad
      case Got(key, s2) =>
        match Number4(s2)
        case Bad => Bad
        case Got(n, s3) =>
          match ParseMany(Name64, s3, n)
          case Bad => Bad
          case Got(names, s4) => Got(Key(key, names), s4)
  }

  lemma KeyBack(k: Key, b1: seq<byte>, b2: seq<byte>, b3: seq<byte>)
    requires Reads(Name32, b1, k.key) && Reads(Number4, b2, |k.queues|) && ReadsMany(Name64, b3, k.queues)
    ensures Reads(ParseKey, [TYPE_ROUTE_KEY] + b1 + b2 + b3, k)
  {
    hide Name32, Number4, ParseMany;
    forall rest ensures ParseKey([TYPE_ROUTE_KEY] + b1 + b2 + b3 + rest) == Got(k, rest) {
      assert [TYPE_ROUTE_KEY] + b1 + b2 + b3 + rest == [TYPE_ROUTE_KEY] + (b1 + (b2 + (b3 + rest)));
      assert ([TYPE_ROUTE_KEY] + (b1 + (b2 + (b3 + rest))))[1..] == b1 + (b2 + (b3 + rest));
    }
  }

  /** `storage_load_route`; the keys are still as in the file. */
  function ParseRoute(s: seq<byte>): Parse<Route>
  {
    match Name64(s)
    case Bad => Bad
    case Got(name, s1) =>
      match Number4(s1)
      case Bad => Bad
      case Got(flags, s2) =>
        match Number4(s2)
        case Bad => Bad
        case Got(n, s3) =>
          match ParseMany(ParseKey, s3, n)
          case Bad => Bad
          case Got(ks, s4) => Got(Route(name, flags, ks), s4)
  }

  lemma RouteBack(r: Route, b1: seq<byte>, b2: seq<byte>, b3: seq<byte>, b4: seq<byte>)
    requires Reads(Name64, b1, r.name) && Reads(Number4, b2, r.flags) && Reads(Number4, b3, |r.keys|) && ReadsMany(ParseKey, b4, r.keys)
    ensures Reads(ParseRoute, b1 + b2 + b3 + b4, r)
  {
    hide Name64, Number4, ParseMany;
    forall rest ensures ParseRoute(b1 + b2 + b3 + b4 + rest) == Got(r, rest) {
      assert b1 + b2 + b3 + b4 + rest == b1 + (b2 + (b3 + (b4 + rest)));
    }
  }

  /** `bind_route_t`, with the queue given by its name. */
  function Bound(keys: seq<Key>, key: seq<byte>, name: seq<byte>): seq<Key>
  {
    if keys == [] then [Key(key, [name])]
    else if keys[0].key == key then
      [if name in keys[0].queues then keys[0] else Key(key, keys[0].queues + [name])] + keys[1..]
    else [keys[0]] + Bound(keys[1..], key, name)
  }

  /** `storage_load_route_key_queues` over the names under one key. */
  function BindNames(keys: seq<Key>, key: seq<byte>, names: seq<seq<byte>>, have: set<seq<byte>>): seq<Key>
    decreases |names|
  {
    if names == [] then keys
    else BindNames(if names[0] in have then Bound(keys, key, names[0]) else keys, key, names[1..], have)
  }

  function BindKeys(keys: seq<Key>, more: seq<Key>, have: set<seq<byte>>): seq<Key>
    decreases |more|
  {
    if more == [] then keys else BindKeys(BindNames(keys, more[0].key, more[0].queues, have), more[1..], have)
  }

  function KeepNames(names: seq<seq<byte>>, have: set<seq<byte>>): (r: seq<seq<byte>>)
    ensures forall n :: n in r <==> n in names && n in have
  {
    if names == [] then []
    else if names[0] in have then [names[0]] + KeepNames(names[1..], have)
    else KeepNames(names[1..], have)
  }

  /** The keys restricted to the queues there are, without those that have none left. */
  function KeepKeys(keys: seq<Key>, have: set<seq<byte>>): (r: seq<Key>)
    ensures forall k :: k in r ==> exists j :: j in keys && j.key == k.key
  {
    if keys == [] then []
    else
      var names := KeepNames(keys[0].queues, have);
      if names == [] then KeepKeys(keys[1..], have) else [Key(keys[0].key, names)] + KeepKeys(keys[1..], have)
  }

  /** No key twice, and no queue twice under a key. */
  ghost predicate KeysOk(keys: seq<Key>)
  {
    && (forall i, j :: 0 <= i < j < |keys| ==> keys[i].key != keys[j].key)
    && (forall i :: 0 <= i < |keys| ==> NoRepeats(keys[i].queues))
  }

  ghost predicate NoRepeats(names: seq<seq<byte>>)
  {
    forall i, j :: 0 <= i < j < |names| ==> names[i] != names[j]
  }

  lemma {:induction false} BoundNew(keys: seq<Key>, key: seq<byte>, name: seq<byte>)
    requires forall k :: k in keys ==> k.key != key
    ensures Bound(keys, key, name) == keys + [Key(key, [name])]
    decreases |keys|
  {
    if keys != [] {
      assert keys[0] in keys;
      assert forall k :: k in keys[1..] ==> k in keys;
      BoundNew(keys[1..], key, name);
    }
  }

  lemma {:induction false} BoundLast(keys: seq<Key>, key: seq<byte>, names: seq<seq<byte>>, name: seq<byte>)
    requires (forall k :: k in keys ==> k.key != key) && name !in names
    ensures Bound(keys + [Key(key, names)], key, name) == keys + [Key(key, names + [name])]
    decreases |keys|
  {
    var all := keys + [Key(key, names)];
    if keys != [] {
      assert keys[0] in keys;
      assert forall k :: k in keys[1..] ==> k in keys;
      assert all[1..] == keys[1..] + [Key(key, names)];
      BoundLast(keys[1..], key, names, name);
    } else {
      assert all[1..] == [];
    }
  }

  /** Binding names under a key that is already last. */
  lemma {:induction false} BindMore(keys: seq<Key>, key: seq<byte>, done: seq<seq<byte>>, names: seq<seq<byte>>, have: set<seq<byte>>)
    requires (forall k :: k in keys ==> k.key != key) && NoRepeats(done + names)
    ensures BindNames(keys + [Key(key, done)], key, names, have) == keys + [Key(key, done + KeepNames(names, have))]
    decreases |names|
  {
    hide NoRepeats, Bound, BindNames, KeepNames;
    BindNamesStep(keys + [Key(key, done)], key, names, have);
    if names == [] {
      assert done + [] == done;
    } else {
      NextName(done, names);
      if names[0] in have {
        BoundLast(keys, key, done, names[0]);
        BindMore(keys, key, done + [names[0]], names[1..], have);
        NameJoin(done, names[0], KeepNames(names[1..], have));
      } else {
        BindMore(keys, key, done, names[1..], have);
      }
    }
  }

  lemma BindNamesStep(keys: seq<Key>, key: seq<byte>, names: seq<seq<byte>>, have: set<seq<byte>>)
    ensures names == [] ==> BindNames(keys, key, names, have) == keys && KeepNames(names, have) == []
    ensures names != [] && names[0] in have ==>
      BindNames(keys, key, names, have) == BindNames(Bound(keys, key, names[0]), key, names[1..], have)
    ensures names != [] && names[0] in have ==> KeepNames(names, have) == [names[0]] + KeepNames(names[1..], have)
    ensures names != [] && names[0] !in have ==>
      BindNames(keys, key, names, have) == BindNames(keys, key, names[1..], have) && KeepNames(names, have) == KeepNames(names[1..], have)
  {
    hide Bound;
  }

  lemma NextName(done: seq<seq<byte>>, names: seq<seq<byte>>)
    requires names != [] && NoRepeats(done + names)
    ensures names[0] !in done && NoRepeats((done + [names[0]]) + names[1..]) && NoRepeats(done + names[1..])
  {
    assert (done + names)[|done|] == names[0];
    assert forall i :: 0 <= i < |done| ==> (done + names)[i] == done[i];
    assert done + names == (done + [names[0]]) + names[1..];
    DropOne(done, names);
  }

  lemma NameJoin(a: seq<seq<byte>>, n: seq<byte>, b: seq<seq<byte>>)
    ensures (a + [n]) + b == a + ([n] + b)
  {
  }

  lemma DropOne(done: seq<seq<byte>>, names: seq<seq<byte>>)
    requires names != [] && NoRepeats(done + names)
    ensures NoRepeats(done + names[1..])
  {
    var a, b := done + names, done + names[1..];
    forall i, j | 0 <= i < j < |b| ensures b[i] != b[j] {
      assert b[i] == a[if i < |done| then i else i + 1];
      assert b[j] == a[if j < |done| then j else j + 1];
    }
  }

  lemma {:induction false} BindFirst(keys: seq<Key>, key: seq<byte>, names: seq<seq<byte>>, have: set<seq<byte>>)
    requires (forall k :: k in keys ==> k.key != key) && NoRepeats(names)
    ensures var kept := KeepNames(names, have);
      BindNames(keys, key, names, have) == if kept == [] then keys else keys + [Key(key, kept)]
    decreases |names|
  {
    if names != [] {
      if names[0] in have {
        BoundNew(keys, key, names[0]);
        assert names == [names[0]] + names[1..];
        BindMore(keys, key, [names[0]], names[1..], have);
      } else {
        BindFirst(keys, key, names[1..], have);
      }
    }
  }

  /** Keys other than those of `more`. */
  ghost predicate OtherKeys(keys: seq<Key>, more: seq<Key>)
  {
    forall i, j :: 0 <= i < |keys| && 0 <= j < |more| ==> keys[i].key != more[j].key
  }

  lemma KeysTail(keys: seq<Key>, more: seq<Key>, names: seq<seq<byte>>)
    requires more != [] && KeysOk(more) && OtherKeys(keys, more)
    ensures KeysOk(more[1..]) && NoRepeats(more[0].queues) && (forall k :: k in keys ==> k.key != more[0].key)
    ensures OtherKeys(keys, more[1..]) && OtherKeys(keys + [Key(more[0].key, names)], more[1..])
  {
    hide NoRepeats;
    assert forall j :: 0 <= j < |more| - 1 ==> more[1..][j] == more[j + 1];
  }

  lemma {:induction false} BindRest(keys: seq<Key>, more: seq<Key>, have: set<seq<byte>>)
    requires KeysOk(more) && OtherKeys(keys, more)
    ensures BindKeys(keys, more, have) == keys + KeepKeys(more, have)
    decreases |more|
  {
    hide KeysOk, OtherKeys, BindNames, KeepNames, NoRepeats, BindKeys, KeepKeys;
    KeepKeysStep(keys, more, have);
    if more != [] {
      var kept := KeepNames(more[0].queues, have);
      KeysTail(keys, more, kept);
      BindFirst(keys, more[0].key, more[0].queues, have);
      BindRest(BindNames(keys, more[0].key, more[0].queues, have), more[1..], have);
      KeyJoin(keys, Key(more[0].key, kept), KeepKeys(more[1..], have));
    } else {
      assert keys + [] == keys;
    }
  }

  lemma KeepKeysStep(keys: seq<Key>, more: seq<Key>, have: set<seq<byte>>)
    ensures more == [] ==> BindKeys(keys, more, have) == keys && KeepKeys(more, have) == []
    ensures more != [] ==>
      BindKeys(keys, more, have) == BindKeys(BindNames(keys, more[0].key, more[0].queues, have), more[1..], have)
    ensures more != [] ==>
      var kept := KeepNames(more[0].queues, have);
      KeepKeys(more, have) == if kept == [] then KeepKeys(more[1..], have) else [Key(more[0].key, kept)] + KeepKeys(more[1..], have)
  {
    hide BindNames, KeepNames;
  }

  lemma KeyJoin(a: seq<Key>, k: Key, b: seq<Key>)
    ensures (a + [k]) + b == a + ([k] + b)
  {
  }

  /** Loading a route's keys leaves exactly the bindings to queues that were loaded. */
  lemma RouteKept(keys: seq<Key>, have: set<seq<byte>>)
    requires KeysOk(keys)
    ensures BindKeys([], keys, have) == KeepKeys(keys, have)
  {
    BindRest([], keys, have);
  }

  /* --- Files ------------------------------------------------------------------------------------- */

  datatype Record = AUser(user: User) | AQueue(queue: Queue) | ARoute(route: Route) | AChannel(channel: Channel)

  /** One turn of the loop in `storage_load`, unless it is at the end mark. */
  function ParseRecord(s: seq<byte>): Parse<Record>
  {
    match ParseType(s)
    case Bad => Bad
    case Got(t, s1) =>
      if t == TYPE_USER then
        (match ParseUser(s1) case Bad => Bad case Got(u, s2) => Got(AUser(u), s2))
      else if t == TYPE_QUEUE then
        (match ParseQueue(s1) case Bad => Bad case Got(q, s2) => Got(AQueue(q), s2))
      else if t == TYPE_ROUTE then
        (match ParseRoute(s1) case Bad => Bad case Got(r, s2) => Got(ARoute(r), s2))
      else if t == TYPE_CHANNEL then
        (match ParseChannel(s1) case Bad => Bad case Got(c, s2) => Got(AChannel(c), s2))
      else Bad
  }

  lemma TypedFront(t: byte, b: seq<byte>, rest: seq<byte>)
    ensures ParseType([t] + b + rest) == Got(t, b + rest)
  {
    assert [t] + b + rest == [t] + (b + rest);
  }

  lemma UserRecord(b: seq<byte>, u: User)
    requires Reads(ParseUser, b, u)
    ensures Reads(ParseRecord, [TYPE_USER] + b, AUser(u))
  {
    hide ParseUser, ParseType;
    forall rest ensures ParseRecord([TYPE_USER] + b + rest) == Got(AUser(u), rest) {
      TypedFront(TYPE_USER, b, rest);
    }
  }

  lemma QueueRecord(b: seq<byte>, q: Queue)
    requires Reads(ParseQueue, b, q)
    ensures Reads(ParseRecord, [TYPE_QUEUE] + b, AQueue(q))
  {
    hide ParseQueue, ParseType;
    forall rest ensures ParseRecord([TYPE_QUEUE] + b + rest) == Got(AQueue(q), rest) {
      TypedFront(TYPE_QUEUE, b, rest);
    }
  }

  lemma RouteRecord(b: seq<byte>, r: Route)
    requires Reads(ParseRoute, b, r)
    ensures Reads(ParseRecord, [TYPE_ROUTE] + b, ARoute(r))
  {
    hide ParseRoute, ParseType;
    forall rest ensures ParseRecord([TYPE_ROUTE] + b + rest) == Got(ARoute(r), rest) {
      TypedFront(TYPE_ROUTE, b, rest);
    }
  }

  lemma ChannelRecord(b: seq<byte>, c: Channel)
    requires Reads(ParseChannel, b, c)
    ensures Reads(ParseRecord, [TYPE_CHANNEL] + b, AChannel(c))
  {
    hide ParseChannel, ParseType;
    forall rest ensures ParseRecord([TYPE_CHANNEL] + b + rest) == Got(AChannel(c), rest) {
      TypedFront(TYPE_CHANNEL, b, rest);
    }
  }

  /** The records of a file, up to its end mark. */
  ghost predicate Contains(s: seq<byte>, records: seq<Record>, rest: seq<byte>)
  {
    ParseMany(ParseRecord, s, |records|) == Got(records, rest) && rest != [] && rest[0] == TYPE_EOF
  }

  lemma EndMark(s: seq<byte>)
    requires s == [] || s[0] == TYPE_EOF
    ensures ParseRecord(s).Bad?
  {
  }

  /** What has been read so far is a prefix of what the file holds. */
  lemma {:induction false} ContainsPrefix(s: seq<byte>, done: seq<Record>, mid: seq<byte>, records: seq<Record>, rest: seq<byte>)
    requires ParseMany(ParseRecord, s, |done|) == Got(done, mid) && Contains(s, records, rest)
    ensures |done| <= |records| && done == records[..|done|] && Contains(mid, records[|done|..], rest)
    decreases |done|
  {
    hide ParseRecord;
    if done == [] {
      assert records[0..] == records;
    } else {
      var first := ParseRecord(s);
      if records == [] {
        EndMark(s);
        assert false;
      }
      assert ParseMany(ParseRecord, first.rest, |done| - 1).Got?;
      assert done == [first.value] + done[1..] && records == [first.value] + records[1..];
      ContainsPrefix(first.rest, done[1..], mid, records[1..], rest);
      assert records[|done|..] == records[1..][|done| - 1..];
    }
  }

  /* --- Servers ------------------------------------------------------------------------------------ */

  function Names(queues: seq<Queue>): (r: set<seq<byte>>)
    ensures forall n :: n in r <==> exists i :: 0 <= i < |queues| && queues[i].name == n
  {
    set i | 0 <= i < |queues| :: queues[i].name
  }

  /** What loading one record does to the server. */
  function Added(s: Server, r: Record): Server
  {
    match r
    case AUser(u) => s.(users := s.users + [u])
    case AQueue(q) => s.(queues := s.queues + [q])
    case ARoute(t) => s.(routes := s.routes + [t.(keys := BindKeys([], t.keys, Names(s.queues)))])
    case AChannel(c) => s.(channels := s.channels + [c])
  }

  function AddAll(s: Server, records: seq<Record>): Server
    decreases |records|
  {
    if records == [] then s else Added(AddAll(s, records[..|records| - 1]), records[|records| - 1])
  }

  lemma AddAllSnoc(s: Server, records: seq<Record>, r: Record)
    ensures AddAll(s, records + [r]) == Added(AddAll(s, records), r)
  {
    assert (records + [r])[..|records|] == records;
  }

  lemma AddAllNone(s: Server)
    ensures AddAll(s, []) == s
  {
  }

  lemma {:induction false} AddAllConcat(s: Server, r1: seq<Record>, r2: seq<Record>)
    ensures AddAll(s, r1 + r2) == AddAll(AddAll(s, r1), r2)
    decreases |r2|
  {
    hide Added;
    if r2 == [] {
      assert r1 + r2 == r1;
    } else {
      var n := |r2| - 1;
      AddAllConcat(s, r1, r2[..n]);
      assert (r1 + r2)[..|r1 + r2| - 1] == r1 + r2[..n];
    }
  }

  /** Users that may be changed are saved; queues, routes and channels if they are durable. */
  predicate KeptUser(u: User) { !Bitmap.Bit(u.perm, 6) }
  predicate KeptQueue(q: Queue) { Bitmap.Bit(q.flags, 3) }
  predicate KeptRoute(r: Route) { Bitmap.Bit(r.flags, 2) }
  predicate KeptChannel(c: Channel) { Bitmap.Bit(c.flags, 2) }

  function Keep<T(!new)>(xs: seq<T>, p: T -> bool): (r: seq<T>)
    ensures forall x :: x in r <==> x in xs && p(x)
  {
    if xs == [] then [] else
      assert xs == xs[..|xs| - 1] + [xs[|xs| - 1]];
      Keep(xs[..|xs| - 1], p) + if p(xs[|xs| - 1]) then [xs[|xs| - 1]] else []
  }

  function Map<T, U>(xs: seq<T>, f: T -> U): (r: seq<U>)
    ensures |r| == |xs|
  {
    seq(|xs|, i requires 0 <= i < |xs| => f(xs[i]))
  }

  function OfUser(u: User): Record { AUser(u) }
  function OfQueue(q: Queue): Record { AQueue(Reloaded(q)) }
  function OfRoute(r: Route): Record { ARoute(r) }
  function OfChannel(c: Channel): Record { AChannel(c) }

  /** Routes restricted to the queues there are. */
  function Restrict(rs: seq<Route>, have: set<seq<byte>>): (r: seq<Route>)
    ensures |r| == |rs|
  {
    seq(|rs|, i requires 0 <= i < |rs| => rs[i].(keys := KeepKeys(rs[i].keys, have)))
  }

  lemma MapSnoc<T, U>(xs: seq<T>, f: T -> U)
    requires xs != []
    ensures Map(xs, f) == Map(xs[..|xs| - 1], f) + [f(xs[|xs| - 1])]
    ensures xs == xs[..|xs| - 1] + [xs[|xs| - 1]]
  {
  }

  lemma RestrictSnoc(rs: seq<Route>, have: set<seq<byte>>)
    requires rs != []
    ensures var last := rs[|rs| - 1];
      Restrict(rs, have) == Restrict(rs[..|rs| - 1], have) + [last.(keys := KeepKeys(last.keys, have))]
  {
  }

  /** The durable part of a server, as it comes back. */
  function Durable(s: Server): Server
  {
    var queues := Keep(s.queues, KeptQueue);
    Server(Keep(s.users, KeptUser), Map(queues, Reloaded),
           Restrict(Keep(s.routes, KeptRoute), Names(queues)), Keep(s.channels, KeptChannel))
  }

  /** The records `storage_save` writes for a server. */
  function Records(s: Server): seq<Record>
  {
    Map(Keep(s.users, KeptUser), OfUser) + Map(Keep(s.queues, KeptQueue), OfQueue)
    + Map(Keep(s.routes, KeptRoute), OfRoute) + Map(Keep(s.channels, KeptChannel), OfChannel)
  }

  lemma {:induction false} AddUsers(s: Server, us: seq<User>)
    ensures AddAll(s, Map(us, OfUser)) == s.(users := s.users + us)
    decreases |us|
  {
    hide AddAll, Map;
    if us == [] {
      AddAllNone(s);
      assert Map(us, OfUser) == [];
    } else {
      var n := |us| - 1;
      AddUsers(s, us[..n]);
      MapSnoc(us, OfUser);
      AddAllSnoc(s, Map(us[..n], OfUser), OfUser(us[n]));
    }
  }

  lemma {:induction false} AddQueues(s: Server, qs: seq<Queue>)
    ensures AddAll(s, Map(qs, OfQueue)) == s.(queues := s.queues + Map(qs, Reloaded))
    decreases |qs|
  {
    hide AddAll, Map, Reloaded;
    if qs == [] {
      AddAllNone(s);
      assert Map(qs, OfQueue) == [] && Map(qs, Reloaded) == [];
    } else {
      var n := |qs| - 1;
      AddQueues(s, qs[..n]);
      MapSnoc(qs, OfQueue);
      MapSnoc(qs, Reloaded);
      AddAllSnoc(s, Map(qs[..n], OfQueue), OfQueue(qs[n]));
    }
  }

  lemma {:induction false} AddChannels(s: Server, cs: seq<Channel>)
    ensures AddAll(s, Map(cs, OfChannel)) == s.(channels := s.channels + cs)
    decreases |cs|
  {
    hide AddAll, Map;
    if cs == [] {
      AddAllNone(s);
      assert Map(cs, OfChannel) == [];
    } else {
      var n := |cs| - 1;
      AddChannels(s, cs[..n]);
      MapSnoc(cs, OfChannel);
      AddAllSnoc(s, Map(cs[..n], OfChannel), OfChannel(cs[n]));
    }
  }

  lemma {:induction false} AddRoutes(s: Server, rs: seq<Route>, have: set<seq<byte>>)
    requires have == Names(s.queues) && forall i :: 0 <= i < |rs| ==> KeysOk(rs[i].keys)
    ensures AddAll(s, Map(rs, OfRoute)) == s.(routes := s.routes + Restrict(rs, have))
    decreases |rs|
  {
    hide KeysOk, BindKeys, KeepKeys, Names, AddAll, Map, Restrict;
    if rs == [] {
      AddAllNone(s);
      assert Map(rs, OfRoute) == [] && Restrict(rs, have) == [];
    } else {
      var n := |rs| - 1;
      AddRoutes(s, rs[..n], have);
      MapSnoc(rs, OfRoute);
      RestrictSnoc(rs, have);
      RouteKept(rs[n].keys, have);
      AddAllSnoc(s, Map(rs[..n], OfRoute), OfRoute(rs[n]));
    }
  }

  lemma ReloadedNames(qs: seq<Queue>)
    requires forall i :: 0 <= i < |qs| ==> qs[i].maxMsg > 0
    ensures Names(Map(qs, Reloaded)) == Names(qs)
  {
    hide PushAll, Reversed, Fits;
    forall i | 0 <= i < |qs| ensures Reloaded(qs[i]).name == qs[i].name {
      PushedWithin(qs[i].(messages := []), Reversed(qs[i].messages));
    }
    var a, b := Names(Map(qs, Reloaded)), Names(qs);
    forall n ensures n in a <==> n in b {
      if n in b {
        var i :| 0 <= i < |qs| && qs[i].name == n;
        assert Map(qs, Reloaded)[i].name == n;
      }
    }
  }

  lemma RecordsDurable(init: Server, s: Server)
    requires init.queues == [] && (forall q :: q in s.queues ==> q.maxMsg > 0) && (forall r :: r in s.routes ==> KeysOk(r.keys))
    ensures var d := Durable(s);
      AddAll(init, Records(s)) ==
        Server(init.users + d.users, d.queues, init.routes + d.routes, init.channels + d.channels)
  {
    hide AddAll, Names, KeysOk, Keep, Map, Reloaded, KeepKeys;
    var us, qs := Keep(s.users, KeptUser), Keep(s.queues, KeptQueue);
    var rs, cs := Keep(s.routes, KeptRoute), Keep(s.channels, KeptChannel);
    var r1, r2, r3, r4 := Map(us, OfUser), Map(qs, OfQueue), Map(rs, OfRoute), Map(cs, OfChannel);
    AddAllConcat(init, r1 + r2 + r3, r4);
    AddAllConcat(init, r1 + r2, r3);
    AddAllConcat(init, r1, r2);
    AddUsers(init, us);
    var s1 := AddAll(init, r1);
    AddQueues(s1, qs);
    var s2 := AddAll(s1, r2);
    assert s2.queues == Map(qs, Reloaded);
    ReloadedNames(qs);
    AddRoutes(s2, rs, Names(qs));
    var s3 := AddAll(s2, r3);
    AddChannels(s3, cs);
  }
}
