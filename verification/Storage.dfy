/**
 Saving and loading the durable store (storage.c), byte by byte through a file cursor.
 */
module Storage {

  import opened Basics
  import opened StorageFormat
  import Lzf

  /* --- What can be saved ------------------------------------------------------------- */

  predicate UserOk(u: User)
  {
    IsString(u.name, 32) && IsString(u.password, 32) && u.perm < Pow256(8)
  }

  predicate MsgOk(m: Msg)
  {
    |m.payload| < Pow256(4) && m.expiration < Pow256(4)
  }

  predicate QueueOk(q: Queue)
  {
    && IsString(q.name, 64) && 0 < q.maxMsg < Pow256(4) && q.maxMsgSize < Pow256(4) && q.flags < Pow256(4)
    && |q.messages| < Pow256(4) && forall i :: 0 <= i < |q.messages| ==> MsgOk(q.messages[i])
  }

  predicate KeyOk(k: Key)
  {
    IsString(k.key, 32) && |k.queues| < Pow256(4) && forall i :: 0 <= i < |k.queues| ==> IsString(k.queues[i], 64)
  }

  ghost predicate RouteOk(r: Route)
  {
    && IsString(r.name, 64) && r.flags < Pow256(4) && |r.keys| < Pow256(4)
    && KeysOk(r.keys) && forall i :: 0 <= i < |r.keys| ==> KeyOk(r.keys[i])
  }

  predicate ChannelOk(c: Channel)
  {
    IsString(c.name, 64) && c.flags < Pow256(4)
  }

  ghost predicate ServerOk(s: Server)
  {
    && (forall i :: 0 <= i < |s.users| ==> UserOk(s.users[i])) && (forall i :: 0 <= i < |s.queues| ==> QueueOk(s.queues[i]))
    && (forall i :: 0 <= i < |s.routes| ==> RouteOk(s.routes[i])) && (forall i :: 0 <= i < |s.channels| ==> ChannelOk(s.channels[i]))
  }

  /** An empty payload cannot be written, and then the save fails. */
  predicate Writable(q: Queue)
  {
    forall i :: 0 <= i < |q.messages| ==> q.messages[i].payload != []
  }

  /* --- Fields ---------------------------------------------------------------------------- */

  /** A field, as it is or compressed. */
  ghost predicate IsField(b: seq<byte>, data: seq<byte>)
  {
    && 0 < |data| < Pow256(4)
    && (b == Bytes(0, 4) + Bytes(|data|, 4) + data
        || exists packed :: IsPacked(b, data, packed))
  }

  ghost predicate IsPacked(b: seq<byte>, data: seq<byte>, packed: seq<byte>)
  {
    0 < |packed| < Pow256(4) && Lzf.Encodes(packed, data) && b == Bytes(|data|, 4) + Bytes(|packed|, 4) + packed
  }

  lemma FieldBack(b: seq<byte>, data: seq<byte>, max: nat, bounded: bool)
    requires IsField(b, data) && (bounded ==> |data| <= max)
    ensures ReadsField(b, max, bounded, data)
  {
    hide Bytes, Pow256, ReadsField, Lzf.Encodes;
    if b == Bytes(0, 4) + Bytes(|data|, 4) + data {
      RawBack(data, max, bounded);
    } else {
      var packed :| IsPacked(b, data, packed);
      PackedBack(data, packed, max, bounded);
    }
  }

  /** What a read came to, against what the parser says. */
  ghost predicate Agrees<T>(o: Option<T>, rest: seq<byte>, p: Parse<T>)
  {
    match p
    case Bad => o.None?
    case Got(v, r) => o == Some(v) && rest == r
  }

  class File {
    var bytes: seq<byte>
    var pos: nat
    /** What `lzf_compress` finds in its hash table when the file has a given length. */
    const junk: (nat, nat) -> nat

    constructor (junk: (nat, nat) -> nat)
      ensures bytes == [] && pos == 0 && this.junk == junk
    {
      bytes, pos := [], 0;
      this.junk := junk;
    }

    ghost predicate Valid()
      reads this
    {
      pos <= |bytes|
    }

    ghost function Rest(): seq<byte>
      requires Valid()
      reads this
    {
      bytes[pos..]
    }

    /* --- Writing --- */

    /** `storage_write`. */
    method Write(b: seq<byte>) returns (ok: bool)
      modifies this`bytes
      ensures ok <==> b != []
      ensures bytes == old(bytes) + b
    {
      bytes := bytes + b;
      return b != [];
    }

    /** `storage_write_lzf_data`: true if the data was written compressed. */
    method WritePacked(data: seq<byte>) returns (done: bool, ghost b: seq<byte>)
      requires |data| < Pow256(4)
      modifies this`bytes
      ensures !done ==> bytes == old(bytes)
      ensures done ==> bytes == old(bytes) + b && IsField(b, data)
    {
      hide Lzf.Encodes, Bytes;
      b := [];
      if |data| <= 4 {
        return false, b;
      }
      var n := |bytes|;
      var out := new byte[|data| - 4](_ => 0);
      var htab := new nat[Lzf.HSIZE](i => junk(n, i) % Lzf.UINT_MOD);
      Word4();
      var len := Lzf.Compress(data, out, htab);
      if len == 0 {
        return false, b;
      }
      ghost var packed := out[..len];
      var _ := Write(Bytes(|data|, 4));
      var _ := Write(Bytes(len, 4));
      var _ := Write(out[..len]);
      b := Bytes(|data|, 4) + Bytes(len, 4) + packed;
      assert IsPacked(b, data, packed);
      return true, b;
    }

    /** `storage_write_data`. */
    method WriteData(data: seq<byte>) returns (ok: bool, ghost b: seq<byte>)
      requires |data| < Pow256(4)
      modifies this`bytes
      ensures ok <==> data != []
      ensures ok ==> bytes == old(bytes) + b && IsField(b, data)
    {
      hide Bytes, IsPacked;
      var done;
      done, b := WritePacked(data);
      if done {
        FieldNonEmpty(b, data);
        return true, b;
      }
      b := Bytes(0, 4) + Bytes(|data|, 4) + data;
      var _ := Write(Bytes(0, 4));
      var _ := Write(Bytes(|data|, 4));
      ok := Write(data);
    }

    method WriteString(s: seq<byte>, max: nat) returns (ghost b: seq<byte>)
      requires IsString(s, max) && (max == 32 || max == 64)
      modifies this`bytes
      ensures bytes == old(bytes) + b
      ensures max == 64 ==> Reads(Name64, b, s)
      ensures max == 32 ==> Reads(Name32, b, s)
    {
      hide IsField, Reads;
      Word4();
      var ok;
      ok, b := WriteData(s + [0]);
      FieldBack(b, s + [0], max, true);
      StringBack(b, max, s);
    }

    method WriteNumber(n: nat, width: nat) returns (ghost b: seq<byte>)
      requires (width == 4 || width == 8) && n < Pow256(width)
      modifies this`bytes
      ensures bytes == old(bytes) + b
      ensures width == 4 ==> Reads(Number4, b, n)
      ensures width == 8 ==> Reads(Number8, b, n)
    {
      hide IsField, Reads, Bytes;
      Word4();
      var ok;
      ok, b := WriteData(Bytes(n, width));
      FieldBack(b, Bytes(n, width), width, true);
      NumberBack(b, width, n);
    }

    /** `storage_save_user`. */
    method SaveUser(u: User) returns (ghost b: seq<byte>)
      requires UserOk(u)
      modifies this`bytes
      ensures bytes == old(bytes) + b && Reads(ParseRecord, b, AUser(u))
    {
      hide Reads;
      var _ := Write([TYPE_USER]);
      ghost var b1 := WriteString(u.name, 32);
      ghost var b2 := WriteString(u.password, 32);
      ghost var b3 := WriteNumber(u.perm, 8);
      UserBack(u, b1, b2, b3);
      UserRecord(b1 + b2 + b3, u);
      b := [TYPE_USER] + (b1 + b2 + b3);
    }

    /** `storage_save_channel`. */
    method SaveChannel(c: Channel) returns (ghost b: seq<byte>)
      requires ChannelOk(c)
      modifies this`bytes
      ensures bytes == old(bytes) + b && Reads(ParseRecord, b, AChannel(c))
    {
      hide Reads;
      var _ := Write([TYPE_CHANNEL]);
      ghost var b1 := WriteString(c.name, 64);
      ghost var b2 := WriteNumber(c.flags, 4);
      ChannelBack(c, b1, b2);
      ChannelRecord(b1 + b2, c);
      b := [TYPE_CHANNEL] + (b1 + b2);
    }

    /** `storage_save_queue_message`. */
    method SaveMessage(m: Msg) returns (ok: bool, ghost b: seq<byte>)
      requires MsgOk(m)
      modifies this`bytes
      ensures ok <==> m.payload != []
      ensures ok ==> bytes == old(bytes) + b && Reads(ParseMsg, b, m)
    {
      hide Reads, IsField;
      var _ := Write([TYPE_MESSAGE]);
      ghost var b1 := WriteNumber(m.expiration, 4);
      ghost var b2;
      ok, b2 := WriteData(m.payload);
      b := [TYPE_MESSAGE] + b1 + b2;
      if ok {
        FieldBack(b2, m.payload, 0, false);
        ObjectBack(b2, m.payload);
        MsgBack(m, b1, b2);
      }
    }

    /** `storage_save_queue_messages`: from the tail, so the oldest comes first. */
    method SaveMessages(ms: seq<Msg>) returns (ok: bool, ghost b: seq<byte>)
      requires forall i :: 0 <= i < |ms| ==> MsgOk(ms[i])
      modifies this`bytes
      ensures ok <==> forall i :: 0 <= i < |ms| ==> ms[i].payload != []
      ensures ok ==> bytes == old(bytes) + b && ReadsMany(ParseMsg, b, Reversed(ms))
    {
      hide Reads, ReadsMany;
      b := [];
      ManyNone(ParseMsg);
      var i := |ms|;
      while i > 0
        invariant 0 <= i <= |ms| && bytes == old(bytes) + b && ReadsMany(ParseMsg, b, Reversed(ms[i..]))
        invariant forall j :: i <= j < |ms| ==> ms[j].payload != []
      {
        i := i - 1;
        ghost var b1;
        ok, b1 := SaveMessage(ms[i]);
        if !ok {
          return;
        }
        ManyMore(ParseMsg, b, Reversed(ms[i + 1..]), b1, ms[i]);
        assert ms[i..][1..] == ms[i + 1..];
        b := b + b1;
      }
      assert ms[0..] == ms;
      ok := true;
    }

    /** `storage_save_queue`. */
    method SaveQueue(q: Queue) returns (ok: bool, ghost b: seq<byte>)
      requires QueueOk(q)
      modifies this`bytes
      ensures ok <==> Writable(q)
      ensures ok ==> bytes == old(bytes) + b && Reads(ParseRecord, b, AQueue(Reloaded(q)))
    {
      hide Reads, ReadsMany, Reloaded;
      var _ := Write([TYPE_QUEUE]);
      ghost var b1 := WriteString(q.name, 64);
      ghost var b2 := WriteNumber(q.maxMsg, 4);
      ghost var b3 := WriteNumber(q.maxMsgSize, 4);
      ghost var b4 := WriteNumber(q.flags, 4);
      ghost var b5 := WriteNumber(|q.messages|, 4);
      ghost var b6;
      ok, b6 := SaveMessages(q.messages);
      ghost var body := b1 + b2 + b3 + b4 + b5 + b6;
      b := [TYPE_QUEUE] + body;
      if ok {
        QueueBack(q, b1, b2, b3, b4, b5, b6);
        QueueRecord(body, Reloaded(q));
      }
    }

    /** `storage_save_route_key`, with the names of its queues. */
    method SaveKey(k: Key) returns (ghost b: seq<byte>)
      requires KeyOk(k)
      modifies this`bytes
      ensures bytes == old(bytes) + b && Reads(ParseKey, b, k)
    {
      hide Reads, ReadsMany, IsString;
      var _ := Write([TYPE_ROUTE_KEY]);
      ghost var b1 := WriteString(k.key, 32);
      ghost var b2 := WriteNumber(|k.queues|, 4);
      ghost var start, b3 := bytes, [];
      ManyNone(Name64);
      for i := 0 to |k.queues|
        invariant bytes == start + b3 && ReadsMany(Name64, b3, k.queues[..i])
      {
        ghost var b4 := WriteString(k.queues[i], 64);
        ManyMore(Name64, b3, k.queues[..i], b4, k.queues[i]);
        assert k.queues[..i + 1] == k.queues[..i] + [k.queues[i]];
        b3 := b3 + b4;
      }
      assert k.queues[..|k.queues|] == k.queues;
      KeyBack(k, b1, b2, b3);
      b := [TYPE_ROUTE_KEY] + b1 + b2 + b3;
    }

    /** `storage_save_route`. */
    method SaveRoute(r: Route) returns (ghost b: seq<byte>)
      requires RouteOk(r)
      modifies this`bytes
      ensures bytes == old(bytes) + b && Reads(ParseRecord, b, ARoute(r))
    {
      hide Reads, ReadsMany, IsString, KeysOk, KeyOk;
      var _ := Write([TYPE_ROUTE]);
      ghost var b1 := WriteString(r.name, 64);
      ghost var b2 := WriteNumber(r.flags, 4);
      ghost var b3 := WriteNumber(|r.keys|, 4);
      ghost var start, b4 := bytes, [];
      ManyNone(ParseKey);
      for i := 0 to |r.keys|
        invariant bytes == start + b4 && ReadsMany(ParseKey, b4, r.keys[..i])
      {
        ghost var b5 := SaveKey(r.keys[i]);
        ManyMore(ParseKey, b4, r.keys[..i], b5, r.keys[i]);
        assert r.keys[..i + 1] == r.keys[..i] + [r.keys[i]];
        b4 := b4 + b5;
      }
      assert r.keys[..|r.keys|] == r.keys;
      RouteBack(r, b1, b2, b3, b4);
      RouteRecord(b1 + b2 + b3 + b4, r);
      b := [TYPE_ROUTE] + (b1 + b2 + b3 + b4);
    }

    /** `storage_save_users`. */
    method SaveUsers(xs: seq<User>) returns (ghost b: seq<byte>)
      requires forall i :: 0 <= i < |xs| ==> UserOk(xs[i])
      modifies this`bytes
      ensures bytes == old(bytes) + b && ReadsMany(ParseRecord, b, Map(Keep(xs, KeptUser), OfUser))
    {
      hide Reads, ReadsMany, Keep, Map, UserOk, KeptUser;
      b := [];
      ListStart(xs, KeptUser, OfUser);
      for i := 0 to |xs|
        invariant bytes == old(bytes) + b && ReadsMany(ParseRecord, b, Map(Keep(xs[..i], KeptUser), OfUser))
      {
        ListNext(xs, i, KeptUser, OfUser);
        if KeptUser(xs[i]) {
          ghost var b1 := SaveUser(xs[i]);
          ManyMore(ParseRecord, b, Map(Keep(xs[..i], KeptUser), OfUser), b1, OfUser(xs[i]));
          b := b + b1;
        }
      }
      assert xs[..|xs|] == xs;
    }

    /** `storage_save_routes`. */
    method SaveRoutes(xs: seq<Route>) returns (ghost b: seq<byte>)
      requires forall i :: 0 <= i < |xs| ==> RouteOk(xs[i])
      modifies this`bytes
      ensures bytes == old(bytes) + b && ReadsMany(ParseRecord, b, Map(Keep(xs, KeptRoute), OfRoute))
    {
      hide Reads, ReadsMany, Keep, Map, RouteOk, KeptRoute;
      b := [];
      ListStart(xs, KeptRoute, OfRoute);
      for i := 0 to |xs|
        invariant bytes == old(bytes) + b && ReadsMany(ParseRecord, b, Map(Keep(xs[..i], KeptRoute), OfRoute))
      {
        ListNext(xs, i, KeptRoute, OfRoute);
        if KeptRoute(xs[i]) {
          ghost var b1 := SaveRoute(xs[i]);
          ManyMore(ParseRecord, b, Map(Keep(xs[..i], KeptRoute), OfRoute), b1, OfRoute(xs[i]));
          b := b + b1;
        }
      }
      assert xs[..|xs|] == xs;
    }

    /** `storage_save_channels`. */
    method SaveChannels(xs: seq<Channel>) returns (ghost b: seq<byte>)
      requires forall i :: 0 <= i < |xs| ==> ChannelOk(xs[i])
      modifies this`bytes
      ensures bytes == old(bytes) + b && ReadsMany(ParseRecord, b, Map(Keep(xs, KeptChannel), OfChannel))
    {
      hide Reads, ReadsMany, Keep, Map, ChannelOk, KeptChannel;
      b := [];
      ListStart(xs, KeptChannel, OfChannel);
      for i := 0 to |xs|
        invariant bytes == old(bytes) + b && ReadsMany(ParseRecord, b, Map(Keep(xs[..i], KeptChannel), OfChannel))
      {
        ListNext(xs, i, KeptChannel, OfChannel);
        if KeptChannel(xs[i]) {
          ghost var b1 := SaveChannel(xs[i]);
          ManyMore(ParseRecord, b, Map(Keep(xs[..i], KeptChannel), OfChannel), b1, OfChannel(xs[i]));
          b := b + b1;
        }
      }
      assert xs[..|xs|] == xs;
    }

    /** `storage_save_queues`. */
    method SaveQueues(xs: seq<Queue>) returns (ok: bool, ghost b: seq<byte>)
      requires forall i :: 0 <= i < |xs| ==> QueueOk(xs[i])
      modifies this`bytes
      ensures ok <==> forall i :: 0 <= i < |xs| && KeptQueue(xs[i]) ==> Writable(xs[i])
      ensures ok ==> bytes == old(bytes) + b && ReadsMany(ParseRecord, b, Map(Keep(xs, KeptQueue), OfQueue))
    {
      hide Reads, ReadsMany, Keep, Map, QueueOk, KeptQueue, Writable, Reloaded;
      b := [];
      ok := true;
      ListStart(xs, KeptQueue, OfQueue);
      for i := 0 to |xs|
        invariant ok && bytes == old(bytes) + b && ReadsMany(ParseRecord, b, Map(Keep(xs[..i], KeptQueue), OfQueue))
        invariant forall j :: 0 <= j < i && KeptQueue(xs[j]) ==> Writable(xs[j])
      {
        ListNext(xs, i, KeptQueue, OfQueue);
        if KeptQueue(xs[i]) {
          ghost var b1;
          ok, b1 := SaveQueue(xs[i]);
          if !ok {
            return;
          }
          ManyMore(ParseRecord, b, Map(Keep(xs[..i], KeptQueue), OfQueue), b1, OfQueue(xs[i]));
          b := b + b1;
        }
      }
      assert xs[..|xs|] == xs;
    }

    /** `storage_save`, into an empty file. */
    method Save(s: Server) returns (ok: bool)
      requires bytes == [] && ServerOk(s)
      modifies this`bytes
      ensures ok <==> forall i :: 0 <= i < |s.queues| && KeptQueue(s.queues[i]) ==> Writable(s.queues[i])
      ensures ok ==> Holds(bytes, Records(s))
    {
      hide Reads, ReadsMany, Keep, Map, QueueOk, KeptQueue, Writable, UserOk, RouteOk, ChannelOk;
      var _ := Write(Magic());
      ghost var b1 := SaveUsers(s.users);
      ghost var b2;
      ok, b2 := SaveQueues(s.queues);
      if !ok {
        return;
      }
      ghost var b3 := SaveRoutes(s.routes);
      ghost var b4 := SaveChannels(s.channels);
      var _ := Write([TYPE_EOF]);
      ghost var us, qs := Map(Keep(s.users, KeptUser), OfUser), Map(Keep(s.queues, KeptQueue), OfQueue);
      ghost var rs, cs := Map(Keep(s.routes, KeptRoute), OfRoute), Map(Keep(s.channels, KeptChannel), OfChannel);
      ManyConcat(ParseRecord, b1, us, b2, qs);
      ManyConcat(ParseRecord, b1 + b2, us + qs, b3, rs);
      ManyConcat(ParseRecord, b1 + b2 + b3, us + qs + rs, b4, cs);
      SavedHolds(bytes, b1 + b2 + b3 + b4, us + qs + rs + cs);
    }

    /* --- Reading --- */

    /** `storage_read`. */
    method Read(n: nat) returns (o: Option<seq<byte>>)
      requires Valid()
      modifies this`pos
      ensures Valid() && pos >= old(pos) && Agrees(o, Rest(), Take(old(Rest()), n))
    {
      if n == 0 || |bytes| - pos < n {
        return None;
      }
      o := Some(bytes[pos..pos + n]);
      assert bytes[pos..][..n] == bytes[pos..pos + n] && bytes[pos..][n..] == bytes[pos + n..];
      pos := pos + n;
    }

    method ReadWord() returns (o: Option<nat>)
      requires Valid()
      modifies this`pos
      ensures Valid() && pos >= old(pos) && Agrees(o, Rest(), ParseWord(old(Rest())))
    {
      hide Take, Value;
      var b := Read(4);
      return if b.Some? then Some(Value(b.value)) else None;
    }

    method ReadType() returns (o: Option<byte>)
      requires Valid()
      modifies this`pos
      ensures Valid() && pos >= old(pos) && Agrees(o, Rest(), ParseType(old(Rest())))
      ensures o.Some? ==> pos > old(pos)
    {
      var b := Read(1);
      return if b.Some? then Some(b.value[0]) else None;
    }

    /** `storage_read_data` (bounded) and `storage_read_data_object`. */
    method ReadData(max: nat, bounded: bool) returns (o: Option<seq<byte>>)
      requires Valid()
      modifies this`pos
      ensures Valid() && pos >= old(pos) && Agrees(o, Rest(), ParseField(old(Rest()), max, bounded))
    {
      hide Value, Lzf.Decode;
      var comprlen := ReadWord();
      if comprlen.None? {
        return None;
      }
      var length := ReadWord();
      if length.None? {
        return None;
      }
      if bounded && ((length.value > max && comprlen.value == 0) || comprlen.value > max) {
        return None;
      }
      var data := Read(length.value);
      if data.None? || comprlen.value == 0 {
        return data;
      }
      o := Unpack(data.value, comprlen.value);
    }

    method ReadString(max: nat) returns (o: Option<seq<byte>>)
      requires Valid()
      modifies this`pos
      ensures Valid() && pos >= old(pos) && Agrees(o, Rest(), ParseString(old(Rest()), max))
    {
      hide ParseField, Text;
      var data := ReadData(max, true);
      if data.None? {
        return None;
      }
      var t := Text(data.value);
      return if t.Got? then Some(t.value) else None;
    }

    method ReadNumber(width: nat) returns (o: Option<nat>)
      requires Valid()
      modifies this`pos
      ensures Valid() && pos >= old(pos) && Agrees(o, Rest(), ParseNumber(old(Rest()), width))
    {
      hide ParseField, Value;
      var data := ReadData(width, true);
      if data.None? || |data.value| != width {
        return None;
      }
      return Some(Value(data.value));
    }

    /** `storage_load_user`. */
    method LoadUser() returns (o: Option<User>)
      requires Valid()
      modifies this`pos
      ensures Valid() && pos >= old(pos) && Agrees(o, Rest(), ParseUser(old(Rest())))
    {
      hide ParseString, ParseNumber;
      var name := ReadString(32);
      if name.None? { return None; }
      var password := ReadString(32);
      if password.None? { return None; }
      var perm := ReadNumber(8);
      if perm.None? { return None; }
      return Some(User(name.value, password.value, perm.value));
    }

    /** `storage_load_channel`. */
    method LoadChannel() returns (o: Option<Channel>)
      requires Valid()
      modifies this`pos
      ensures Valid() && pos >= old(pos) && Agrees(o, Rest(), ParseChannel(old(Rest())))
    {
      hide ParseString, ParseNumber;
      var name := ReadString(64);
      if name.None? { return None; }
      var flags := ReadNumber(4);
      if flags.None? { return None; }
      return Some(Channel(name.value, flags.value));
    }

    /** `storage_load_queue_message`, up to the push. */
    method LoadMessage() returns (o: Option<Msg>)
      requires Valid()
      modifies this`pos
      ensures Valid() && pos >= old(pos) && Agrees(o, Rest(), ParseMsg(old(Rest())))
    {
      hide ParseNumber, ParseField, ParseType;
      var t := ReadType();
      if t.None? || t.value != TYPE_MESSAGE { return None; }
      var expiration := ReadNumber(4);
      if expiration.None? { return None; }
      var data := ReadData(0, false);
      if data.None? { return None; }
      return Some(Msg(data.value, expiration.value));
    }

    /** The message loop of `storage_load_queue`. */
    method LoadMessages(q0: Queue, n: nat) returns (o: Option<Queue>)
      requires Valid()
      modifies this`pos
      ensures Valid() && pos >= old(pos)
      ensures match ParseMany(ParseMsg, old(Rest()), n)
        case Bad => o.None?
        case Got(ms, rest) => o == Some(PushAll(q0, ms)) && Rest() == rest
    {
      hide ParseMsg, Pushed;
      var q := q0;
      ghost var s, done := Rest(), [];
      for i := 0 to n
        invariant Valid() && pos >= old(pos) && |done| == i && ParseMany(ParseMsg, s, i) == Got(done, Rest()) && q == PushAll(q0, done)
      {
        ghost var mid := Rest();
        var m := LoadMessage();
        if m.None? {
          ManyBad(ParseMsg, s, i, n);
          return None;
        }
        ManySnoc(ParseMsg, s, done, m.value, mid, Rest());
        PushAllSnoc(q0, done, m.value);
        q := Pushed(q, m.value);
        done := done + [m.value];
      }
      return Some(q);
    }

    /** `storage_load_queue`. */
    method LoadQueue() returns (o: Option<Queue>)
      requires Valid()
      modifies this`pos
      ensures Valid() && pos >= old(pos) && Agrees(o, Rest(), ParseQueue(old(Rest())))
    {
      hide ParseString, ParseNumber, ParseMany;
      var name := ReadString(64);
      if name.None? { return None; }
      var maxMsg := ReadNumber(4);
      if maxMsg.None? { return None; }
      var maxMsgSize := ReadNumber(4);
      if maxMsgSize.None? { return None; }
      var flags := ReadNumber(4);
      if flags.None? { return None; }
      var n := ReadNumber(4);
      if n.None? { return None; }
      o := LoadMessages(Queue(name.value, maxMsg.value, maxMsgSize.value, flags.value, []), n.value);
    }

    /** `storage_load_route_key`: binds the queues that were loaded, skips the others. */
    method LoadKey(keys: seq<Key>, have: set<seq<byte>>) returns (o: Option<seq<Key>>)
      requires Valid()
      modifies this`pos
      ensures Valid() && pos >= old(pos)
      ensures match ParseKey(old(Rest()))
        case Bad => o.None?
        case Got(k, rest) => o == Some(BindNames(keys, k.key, k.queues, have)) && Rest() == rest
    {
      hide ParseString, ParseNumber, ParseType, Bound;
      var t := ReadType();
      if t.None? || t.value != TYPE_ROUTE_KEY { return None; }
      var key := ReadString(32);
      if key.None? { return None; }
      var n := ReadNumber(4);
      if n.None? { return None; }
      var bound := keys;
      ghost var s, done := Rest(), [];
      for i := 0 to n.value
        invariant Valid() && pos >= old(pos) && |done| == i && ParseMany(Name64, s, i) == Got(done, Rest())
        invariant bound == BindNames(keys, key.value, done, have)
      {
        ghost var mid := Rest();
        var name := ReadString(64);
        if name.None? {
          ManyBad(Name64, s, i, n.value);
          return None;
        }
        ManySnoc(Name64, s, done, name.value, mid, Rest());
        BindNamesSnoc(keys, key.value, done, name.value, have);
        if name.value in have {
          bound := Bound(bound, key.value, name.value);
        }
        done := done + [name.value];
      }
      return Some(bound);
    }

    /** `storage_load_route`. */
    method LoadRoute(have: set<seq<byte>>) returns (o: Option<Route>)
      requires Valid()
      modifies this`pos
      ensures Valid() && pos >= old(pos)
      ensures match ParseRoute(old(Rest()))
        case Bad => o.None?
        case Got(r, rest) => o == Some(r.(keys := BindKeys([], r.keys, have))) && Rest() == rest
    {
      hide ParseString, ParseNumber, ParseKey, BindNames;
      var name := ReadString(64);
      if name.None? { return None; }
      var flags := ReadNumber(4);
      if flags.None? { return None; }
      var n := ReadNumber(4);
      if n.None? { return None; }
      var keys := [];
      ghost var s, done := Rest(), [];
      for i := 0 to n.value
        invariant Valid() && pos >= old(pos) && |done| == i && ParseMany(ParseKey, s, i) == Got(done, Rest())
        invariant keys == BindKeys([], done, have)
      {
        ghost var mid := Rest();
        ghost var k := ParseKey(mid);
        var more := LoadKey(keys, have);
        if more.None? {
          ManyBad(ParseKey, s, i, n.value);
          return None;
        }
        ManySnoc(ParseKey, s, done, k.value, mid, Rest());
        BindKeysSnoc([], done, k.value, have);
        keys := more.value;
        done := done + [k.value];
      }
      return Some(Route(name.value, flags.value, keys));
    }

    /** One record, after its type byte. */
    method LoadRecord(t: byte, s: Server) returns (o: Option<Server>)
      requires Valid() && t != TYPE_EOF
      modifies this`pos
      ensures Valid() && pos >= old(pos)
      ensures match ParseRecord([t] + old(Rest()))
        case Bad => o.None?
        case Got(r, rest) => o == Some(Added(s, r)) && Rest() == rest
    {
      hide ParseUser, ParseQueue, ParseRoute, ParseChannel, Names, BindKeys;
      assert ([t] + Rest())[1..] == Rest();
      if t == TYPE_USER {
        var u := LoadUser();
        return if u.Some? then Some(s.(users := s.users + [u.value])) else None;
      } else if t == TYPE_QUEUE {
        var q := LoadQueue();
        return if q.Some? then Some(s.(queues := s.queues + [q.value])) else None;
      } else if t == TYPE_ROUTE {
        var r := LoadRoute(Names(s.queues));
        return if r.Some? then Some(s.(routes := s.routes + [r.value])) else None;
      } else if t == TYPE_CHANNEL {
        var c := LoadChannel();
        return if c.Some? then Some(s.(channels := s.channels + [c.value])) else None;
      } else {
        return None;
      }
    }

    /** `storage_load`: succeeds exactly on files that hold records up to an end mark. */
    method Load(init: Server) returns (ok: bool, s: Server)
      requires pos == 0
      modifies this`pos
      ensures ok <==> exists records :: Holds(bytes, records)
      ensures forall records :: Holds(bytes, records) ==> s == AddAll(init, records)
    {
      hide ParseRecord, Added, Contains;
      s := init;
      ok := ReadMagic();
      if !ok {
        return;
      }
      ghost var start, done := Rest(), [];
      MagicRest(bytes);
      while true
        invariant Valid() && ParseMany(ParseRecord, start, |done|) == Got(done, Rest()) && s == AddAll(init, done)
        decreases |bytes| - pos
      {
        ghost var mid := Rest();
        Progress(start, done, mid);
        var t := ReadType();
        if t.None? {
          return false, s;
        }
        if t.value == TYPE_EOF {
          assert Holds(bytes, done);
          return true, s;
        }
        assert mid == [t.value] + Rest();
        var next := LoadRecord(t.value, s);
        if next.None? {
          return false, s;
        }
        ghost var r := ParseRecord(mid).value;
        ManySnoc(ParseRecord, start, done, r, mid, Rest());
        AddAllSnoc(init, done, r);
        s := next.value;
        done := done + [r];
      }
    }

    /** `storage_read_magic`. */
    method ReadMagic() returns (ok: bool)
      requires pos == 0
      modifies this`pos
      ensures Valid() && (ok <==> MagicOk(bytes)) && (ok ==> pos == 11)
    {
      var m := Read(11);
      return m.Some? && m.value[..7] == Magic()[..7] && Atoi(m.value[7..], 0) == 1;
    }
  }

  /** The signature and the version in four digits. */
  function Magic(): (m: seq<byte>)
    ensures |m| == 11
  {
    [69, 97, 103, 108, 101, 77, 81, 48, 48, 48, 49]
  }

  /** `atoi` of digits. */
  function Atoi(s: seq<byte>, n: nat): nat
  {
    if s == [] || s[0] < 48 || s[0] > 57 then n else Atoi(s[1..], 10 * n + (s[0] - 48))
  }

  ghost predicate MagicOk(bytes: seq<byte>)
  {
    |bytes| >= 11 && bytes[..7] == Magic()[..7] && Atoi(bytes[7..11], 0) == 1
  }

  /** The file holds these records. */
  ghost predicate Holds(bytes: seq<byte>, records: seq<Record>)
  {
    MagicOk(bytes) && exists rest :: Contains(bytes[11..], records, rest)
  }

  lemma Word4()
    ensures Pow256(4) == Lzf.UINT_MOD && Pow256(8) == Lzf.UINT_MOD * Lzf.UINT_MOD
  {
    assert Pow256(0) == 1 && Pow256(1) == 256 && Pow256(2) == 65536 && Pow256(3) == 0x100_0000;
    assert Pow256(4) == 0x1_0000_0000 && Pow256(5) == 0x100_0000_0000 && Pow256(6) == 0x1_0000_0000_0000;
    assert Pow256(7) == 0x100_0000_0000_0000;
  }

  lemma FieldNonEmpty(b: seq<byte>, data: seq<byte>)
    requires IsField(b, data)
    ensures data != []
  {
  }

  lemma ListStart<T(!new)>(xs: seq<T>, p: T -> bool, f: T -> Record)
    ensures ReadsMany(ParseRecord, [], Map(Keep(xs[..0], p), f))
  {
    assert Keep(xs[..0], p) == [];
    assert Map(Keep(xs[..0], p), f) == [];
    ManyNone(ParseRecord);
  }

  lemma ListNext<T(!new)>(xs: seq<T>, i: nat, p: T -> bool, f: T -> Record)
    requires i < |xs|
    ensures Map(Keep(xs[..i + 1], p), f)
         == if p(xs[i]) then Map(Keep(xs[..i], p), f) + [f(xs[i])] else Map(Keep(xs[..i], p), f)
  {
    assert xs[..i + 1][..i] == xs[..i];
    var kept := Keep(xs[..i], p);
    assert Keep(xs[..i + 1], p) == if p(xs[i]) then kept + [xs[i]] else kept;
  }

  lemma ManyConcat<T>(p: seq<byte> -> Parse<T>, b1: seq<byte>, xs: seq<T>, b2: seq<byte>, ys: seq<T>)
    requires ReadsMany(p, b1, xs) && ReadsMany(p, b2, ys)
    ensures ReadsMany(p, b1 + b2, xs + ys)
  {
    forall rest ensures ParseMany(p, b1 + b2 + rest, |xs + ys|) == Got(xs + ys, rest) {
      assert b1 + b2 + rest == b1 + (b2 + rest);
      ManyThen(p, b1 + (b2 + rest), xs, b2 + rest, ys, rest);
    }
  }

  lemma {:induction false} ManyThen<T>(p: seq<byte> -> Parse<T>, s: seq<byte>, xs: seq<T>, s1: seq<byte>, ys: seq<T>, s2: seq<byte>)
    requires ParseMany(p, s, |xs|) == Got(xs, s1) && ParseMany(p, s1, |ys|) == Got(ys, s2)
    ensures ParseMany(p, s, |xs| + |ys|) == Got(xs + ys, s2)
    decreases |xs|
  {
    if xs == [] {
      assert xs + ys == ys;
    } else {
      var first := p(s);
      assert xs == [first.value] + xs[1..];
      ManyThen(p, first.rest, xs[1..], s1, ys, s2);
      assert xs + ys == [first.value] + (xs[1..] + ys);
    }
  }

  lemma {:induction false} ManyBad<T>(p: seq<byte> -> Parse<T>, s: seq<byte>, i: nat, n: nat)
    requires i < n && ParseMany(p, s, i).Got? && p(ParseMany(p, s, i).rest).Bad?
    ensures ParseMany(p, s, n).Bad?
    decreases i
  {
    if i > 0 {
      ManyBad(p, p(s).rest, i - 1, n - 1);
    }
  }

  lemma {:induction false} BindNamesSnoc(keys: seq<Key>, key: seq<byte>, names: seq<seq<byte>>, name: seq<byte>, have: set<seq<byte>>)
    ensures var k := BindNames(keys, key, names, have);
      BindNames(keys, key, names + [name], have) == if name in have then Bound(k, key, name) else k
    decreases |names|
  {
    hide Bound;
    if names == [] {
      assert (names + [name])[1..] == [];
    } else {
      assert (names + [name])[1..] == names[1..] + [name];
      BindNamesSnoc(if names[0] in have then Bound(keys, key, names[0]) else keys, key, names[1..], name, have);
    }
  }

  lemma {:induction false} BindKeysSnoc(keys: seq<Key>, more: seq<Key>, k: Key, have: set<seq<byte>>)
    ensures BindKeys(keys, more + [k], have) == BindNames(BindKeys(keys, more, have), k.key, k.queues, have)
    decreases |more|
  {
    hide BindNames;
    if more == [] {
      assert (more + [k])[1..] == [];
    } else {
      assert (more + [k])[1..] == more[1..] + [k];
      BindKeysSnoc(BindNames(keys, more[0].key, more[0].queues, have), more[1..], k, have);
    }
  }

  method Unpack(packed: seq<byte>, length: nat) returns (o: Option<seq<byte>>)
    requires packed != []
    ensures match Lzf.Decode(packed, [], length)
      case Ok(data) => o == if |data| == length then Some(data) else None
      case _ => o.None?
  {
    var data := new byte[length](_ => 0);
    var r := Lzf.Decompress(packed, data);
    ghost var d := Lzf.Decode(packed, [], length);
    assert d.Ok? ==> d.data == data[..][..|d.data|];
    if r.Written? && r.n == length {
      o := Some(data[..length]);
    } else {
      o := None;
    }
  }

  lemma SavedHolds(bytes: seq<byte>, b: seq<byte>, records: seq<Record>)
    requires bytes == Magic() + b + [TYPE_EOF] && ReadsMany(ParseRecord, b, records)
    ensures Holds(bytes, records)
  {
    hide ParseMany, ParseRecord;
    assert bytes[11..] == b + [TYPE_EOF];
    assert bytes[..7] == Magic()[..7];
    assert bytes[7..11] == [48, 48, 48, 49];
    assert Atoi([48, 48, 48, 49], 0) == 1;
    assert Contains(bytes[11..], records, [TYPE_EOF]);
  }

  lemma MagicRest(bytes: seq<byte>)
    ensures forall records :: Holds(bytes, records) ==> exists rest :: Contains(bytes[11..], records, rest)
  {
  }

  /** Where the loop stands, against any records the file may hold. */
  lemma Progress(s: seq<byte>, done: seq<Record>, mid: seq<byte>)
    requires ParseMany(ParseRecord, s, |done|) == Got(done, mid)
    ensures forall records, rest :: Contains(s, records, rest) ==>
      mid != [] && (mid[0] == TYPE_EOF <==> records == done) && (mid[0] != TYPE_EOF ==> ParseRecord(mid).Got?)
    ensures mid != [] && mid[0] == TYPE_EOF ==> Contains(s, done, mid)
  {
    hide ParseRecord;
    forall records, rest | Contains(s, records, rest)
      ensures mid != [] && (mid[0] == TYPE_EOF <==> records == done) && (mid[0] != TYPE_EOF ==> ParseRecord(mid).Got?)
    {
      ContainsPrefix(s, done, mid, records, rest);
      if mid == [] {
        EndMark(mid);
      }
      if mid != [] && mid[0] == TYPE_EOF {
        EndMark(mid);
      }
    }
  }

  /* --- There and back --------------------------------------------------------------------------- */

  /**
   Saving a server and loading the file again: the save succeeds unless a durable queue holds an
   empty message, and then what is loaded is the durable part of the server.
   */
  method SaveLoad(s: Server, init: Server, junk: (nat, nat) -> nat) returns (saved: bool, loaded: bool, result: Server)
    requires ServerOk(s) && init.queues == []
    ensures saved <==> forall i :: 0 <= i < |s.queues| && KeptQueue(s.queues[i]) ==> Writable(s.queues[i])
    ensures saved ==> loaded
    ensures saved ==> var d := Durable(s);
      result == Server(init.users + d.users, d.queues, init.routes + d.routes, init.channels + d.channels)
  {
    hide Holds, Records, Durable, KeptQueue, Writable, UserOk, ChannelOk;
    var file := new File(junk);
    saved := file.Save(s);
    loaded, result := false, init;
    if saved {
      loaded, result := file.Load(init);
      RecordsDurable(init, s);
    }
  }

  /**
   A durable queue with one empty message cannot be saved.  The push handlers of the server accept
   no empty payload, so only a caller of the queue functions can put one there.
   */
  method EmptyMessage(junk: (nat, nat) -> nat) returns (saved: bool)
    ensures !saved
  {
    var q := Queue([97], 1, 10, 8, [Msg([], 0)]);
    assert QueueOk(q) && KeptQueue(q) && q.messages[0].payload == [];
    var s := Server([], [q], [], []);
    assert s.queues[0] == q;
    var loaded, result;
    saved, loaded, result := SaveLoad(s, Server([], [], [], []), junk);
  }

  /** For queues within their limits the durable part is the queues themselves. */
  lemma DurableQueues(s: Server)
    requires forall q :: q in s.queues ==> q.maxMsg > 0
    ensures Durable(s).queues == Keep(s.queues, KeptQueue) <==> forall q :: q in s.queues && KeptQueue(q) ==> Fits(q)
  {
    hide Reloaded, Fits, KeptQueue;
    var qs := Keep(s.queues, KeptQueue);
    forall q | q in qs ensures Reloaded(q) == q <==> Fits(q) {
      ReloadedIff(q);
    }
    var back := Map(qs, Reloaded);
    assert forall i :: 0 <= i < |qs| ==> back[i] == Reloaded(qs[i]);
    if back == qs {
      forall q | q in s.queues && KeptQueue(q) ensures Fits(q) {
        var i :| 0 <= i < |qs| && qs[i] == q;
        assert back[i] == qs[i];
      }
    }
  }
}
