/**
 Request reassembly (`process_request` and `read_request` in handlers.c).

 Frames arrive in reads of up to `BUF` bytes.  The client object keeps what it has of an
 unfinished frame.  Dispatching a frame means appending it to `log`.
 */
module Request {

  import Lzf

  type byte = Lzf.byte

  const BUF: nat := 32768
  const MAX: nat := 2147483647
  const HEADER: nat := 8
  const MAGIC: nat := 0x70

  /* --- Frames ----------------------------------------------------------------------- */

  function Magic(s: seq<byte>): nat
    requires |s| >= HEADER
  {
    s[0] as int + 256 * (s[1] as int)
  }

  function BodyLen(s: seq<byte>): nat
    requires |s| >= HEADER
  {
    s[4] as int + 256 * (s[5] as int) + 65536 * (s[6] as int) + 16777216 * (s[7] as int)
  }

  function FrameLen(s: seq<byte>): nat
    requires |s| >= HEADER
  {
    HEADER + BodyLen(s)
  }

  /** The complete frames at the front of the bytes, and what follows them. */
  function Complete(s: seq<byte>): (fs: seq<seq<byte>>)
    decreases |s|
  {
    if |s| < HEADER || |s| < FrameLen(s) then [] else [s[..FrameLen(s)]] + Complete(s[FrameLen(s)..])
  }

  function Partial(s: seq<byte>): (r: seq<byte>)
    decreases |s|
  {
    if |s| < HEADER || |s| < FrameLen(s) then s else Partial(s[FrameLen(s)..])
  }

  /** The header is one the server takes. */
  predicate HeaderOk(s: seq<byte>)
    requires |s| >= HEADER
  {
    Magic(s) == MAGIC && BodyLen(s) <= MAX
  }

  predicate HeadersOk(s: seq<byte>)
    decreases |s|
  {
    |s| >= HEADER ==> HeaderOk(s) && (|s| >= FrameLen(s) ==> HeadersOk(s[FrameLen(s)..]))
  }

  /** The size of the request buffer once a header that announces `body` octets has been seen. */
  function Enlarged(length: nat, body: int): nat
  {
    if length < body then MAX else length
  }

  /** The size of the request buffer after these bytes. */
  function Capacity(s: seq<byte>, length: nat): nat
    decreases |s|
  {
    if |s| < HEADER then length
    else if |s| < FrameLen(s) then Enlarged(length, BodyLen(s))
    else Capacity(s[FrameLen(s)..], Enlarged(length, BodyLen(s)))
  }

  /** Reassembling these bytes writes past the end of the request buffer. */
  predicate Overruns(s: seq<byte>, length: nat)
    decreases |s|
  {
    if |s| < HEADER then false
    else if |s| < FrameLen(s) then |s| > Enlarged(length, BodyLen(s))
    else FrameLen(s) > Enlarged(length, BodyLen(s)) || Overruns(s[FrameLen(s)..], Enlarged(length, BodyLen(s)))
  }

  lemma {:induction false} OverrunConcat(s: seq<byte>, t: seq<byte>, length: nat)
    requires HeadersOk(s)
    ensures Capacity(s + t, length) == Capacity(Partial(s) + t, Capacity(s, length))
    ensures Overruns(s + t, length) <==> Overruns(s, length) || Overruns(Partial(s) + t, Capacity(s, length))
    decreases |s|
  {
    hide BodyLen, Magic, Enlarged;
    if |s| >= HEADER {
      BodyFront(s, t);
      if |s| >= FrameLen(s) {
        assert (s + t)[FrameLen(s)..] == s[FrameLen(s)..] + t;
        OverrunConcat(s[FrameLen(s)..], t, Enlarged(length, BodyLen(s)));
      } else {
        EnlargedTwice(length, BodyLen(s));
      }
    }
  }

  lemma BodyFront(s: seq<byte>, t: seq<byte>)
    requires |s| >= HEADER
    ensures BodyLen(s + t) == BodyLen(s)
  {
  }

  lemma EnlargedTwice(length: nat, body: nat)
    requires body <= MAX
    ensures Enlarged(Enlarged(length, body), body) == Enlarged(length, body)
  {
  }

  function Flatten(fs: seq<seq<byte>>): seq<byte>
  {
    if fs == [] then [] else fs[0] + Flatten(fs[1..])
  }

  lemma {:induction false} SplitWhole(s: seq<byte>)
    ensures Flatten(Complete(s)) + Partial(s) == s
    decreases |s|
  {
    hide BodyLen, Flatten, Complete, Partial;
    SplitFirst(s);
    if |s| < HEADER || |s| < FrameLen(s) {
      FlattenNone();
      assert [] + s == s;
    } else {
      var f, rest := s[..FrameLen(s)], s[FrameLen(s)..];
      SplitWhole(rest);
      FlattenFirst(f, Complete(rest));
      Rejoin(f, Flatten(Complete(rest)), Partial(rest));
      assert f + rest == s;
    }
  }

  lemma SplitFirst(s: seq<byte>)
    ensures |s| < HEADER || |s| < FrameLen(s) ==> Complete(s) == [] && Partial(s) == s
    ensures |s| >= HEADER && |s| >= FrameLen(s) ==>
      var n := FrameLen(s);
      Complete(s) == [s[..n]] + Complete(s[n..]) && Partial(s) == Partial(s[n..])
  {
  }

  lemma FlattenNone()
    ensures Flatten([]) == []
  {
  }

  lemma FlattenFirst(f: seq<byte>, fs: seq<seq<byte>>)
    ensures Flatten([f] + fs) == f + Flatten(fs)
  {
    assert ([f] + fs)[1..] == fs;
  }

  lemma Rejoin(a: seq<byte>, b: seq<byte>, c: seq<byte>)
    ensures (a + b) + c == a + (b + c)
  {
  }

  /** Bytes that come later only continue the unfinished frame. */
  lemma {:induction false} SplitConcat(s: seq<byte>, t: seq<byte>)
    ensures Complete(s + t) == Complete(s) + Complete(Partial(s) + t)
    ensures Partial(s + t) == Partial(Partial(s) + t)
    decreases |s|
  {
    if |s| >= HEADER && |s| >= FrameLen(s) {
      var n := FrameLen(s);
      assert (s + t)[..n] == s[..n] && (s + t)[n..] == s[n..] + t;
      SplitConcat(s[n..], t);
      assert FrameLen(s + t) == n;
    }
  }

  lemma {:induction false} HeadersPrefix(s: seq<byte>, t: seq<byte>)
    requires HeadersOk(s + t)
    ensures HeadersOk(s)
    decreases |s|
  {
    if |s| >= HEADER && |s| >= FrameLen(s) {
      assert FrameLen(s + t) == FrameLen(s);
      assert (s + t)[FrameLen(s)..] == s[FrameLen(s)..] + t;
      HeadersPrefix(s[FrameLen(s)..], t);
    }
  }

  lemma {:induction false} HeadersRest(s: seq<byte>, t: seq<byte>)
    requires HeadersOk(s + t)
    ensures HeadersOk(Partial(s) + t)
    decreases |s|
  {
    if |s| >= HEADER && |s| >= FrameLen(s) {
      assert FrameLen(s + t) == FrameLen(s);
      assert (s + t)[FrameLen(s)..] == s[FrameLen(s)..] + t;
      HeadersRest(s[FrameLen(s)..], t);
    }
  }

  /** A frame a client may send. */
  predicate FrameOk(f: seq<byte>)
  {
    |f| >= HEADER && |f| == FrameLen(f) && HeaderOk(f)
  }

  lemma {:induction false} FramesBack(fs: seq<seq<byte>>)
    requires forall i :: 0 <= i < |fs| ==> FrameOk(fs[i])
    ensures Complete(Flatten(fs)) == fs && Partial(Flatten(fs)) == [] && HeadersOk(Flatten(fs))
    decreases |fs|
  {
    if fs != [] {
      FramesBack(fs[1..]);
      var s, n := Flatten(fs), |fs[0]|;
      assert s[..n] == fs[0] && s[n..] == Flatten(fs[1..]);
      assert FrameLen(s) == n;
    }
  }

  function TotalLen(fs: seq<seq<byte>>): nat
  {
    if fs == [] then 0 else TotalLen(fs[..|fs| - 1]) + |fs[|fs| - 1]|
  }

  lemma TotalSnoc(fs: seq<seq<byte>>, f: seq<byte>)
    ensures TotalLen(fs + [f]) == TotalLen(fs) + |f|
  {
    assert (fs + [f])[..|fs|] == fs;
  }

  lemma {:induction false} FlattenSnoc(fs: seq<seq<byte>>, f: seq<byte>)
    ensures Flatten(fs + [f]) == Flatten(fs) + f
    decreases |fs|
  {
    if fs == [] {
      assert (fs + [f])[1..] == [];
    } else {
      assert (fs + [f])[1..] == fs[1..] + [f];
      FlattenSnoc(fs[1..], f);
    }
  }

  lemma {:induction false} TotalFlatten(fs: seq<seq<byte>>)
    ensures TotalLen(fs) == |Flatten(fs)|
    decreases |fs|
  {
    if fs != [] {
      var n := |fs| - 1;
      TotalFlatten(fs[..n]);
      FlattenSnoc(fs[..n], fs[n]);
      assert fs == fs[..n] + [fs[n]];
    }
  }

  /* --- The client ---------------------------------------------------------------------- */

  class Client {
    const buffer: array<byte>
    /** Whatever lies in memory past the buffer. */
    const beyond: nat -> byte
    /** The bytes of the current request, `pos` of them, and the capacity of its buffer. */
    var request: seq<byte>
    var length: nat
    var offset: nat
    var bodylen: nat
    var nread: nat
    var log: seq<seq<byte>>
    /** Answers with `EG_PROTOCOL_STATUS_ERROR_PACKET`. */
    var errors: nat
    /** Some copy into the request buffer went past its end.  The bytes are kept here all the same. */
    var overran: bool

    ghost predicate Valid()
      reads this
    {
      buffer.Length == BUF
    }

    constructor (beyond: nat -> byte)
      ensures Valid() && fresh(buffer) && Idle() && log == [] && errors == 0
    {
      buffer := new byte[BUF](_ => 0);
      this.beyond := beyond;
      request, length, offset, bodylen, nread, log, errors, overran := [], BUF, 0, 0, 0, [], 0, false;
    }

    /** Memory from the start of the buffer. */
    function At(i: nat): byte
      reads buffer
    {
      if i < buffer.Length then buffer[i] else beyond(i)
    }

    function Slice(from: nat, n: nat): (s: seq<byte>)
      reads buffer
      ensures |s| == n
      ensures from + n <= buffer.Length ==> s == buffer[from..from + n]
    {
      if n == 0 then [] else Slice(from, n - 1) + [At(from + n - 1)]
    }

    /** What the client holds of an unfinished frame. */
    ghost function Held(): seq<byte>
      reads this
    {
      if bodylen == 0 then [] else request
    }

    ghost predicate Idle()
      reads this
    {
      bodylen == 0 && offset == 0 && length == BUF && !overran
    }

    /** Between reads, with an exact picture of the bytes so far: `held` is the unfinished frame. */
    ghost predicate Synced(held: seq<byte>)
      reads this
    {
      && Held() == held
      && (bodylen == 0 ==> offset == 0)
      && (bodylen > 0 ==> Unfinished(held, bodylen, length))
    }

    /** `parse_command`, as far as the client's bytes go. */
    method Dispatch()
      modifies this`log
      ensures log == old(log) + [request]
    {
      log := log + [request];
    }

    /** The bytes of the stream still to be dealt with in this read. */
    ghost function Todo(): seq<byte>
      reads this, buffer
    {
      if bodylen == 0 then Slice(offset, nread) else request + Slice(0, nread)
    }

    /** The client is where the stream says it should be, in the middle of a read. */
    ghost predicate Tracking()
      reads this, buffer
    {
      && buffer.Length == BUF && nread > 0 && HeadersOk(Todo())
      && (if bodylen == 0 then offset + nread <= BUF else nread <= BUF && Unfinished(request, bodylen, length))
    }

    /** A frame was dispatched; what follows is the rest of the bytes. */
    twostate predicate Took(again: bool)
      reads this, buffer
    {
      && log == old(log) + [request]
      && bodylen == 0 && offset + nread <= BUF && (nread == 0 ==> offset == 0) && again == (nread >= HEADER)
      && Complete(old(Todo())) == [request] + Complete(Todo()) && Partial(old(Todo())) == Partial(Todo()) && HeadersOk(Todo())
      && Capacity(Todo(), length) == old(Capacity(Todo(), length))
      && ((overran || Overruns(Todo(), length)) <==> old(overran || Overruns(Todo(), length)))
    }

    /** No frame could be completed: the bytes are held, or are too few for a header. */
    twostate predicate Kept()
      reads this, buffer
    {
      && log == old(log) && Complete(old(Todo())) == [] && Partial(old(Todo())) == old(Todo())
      && (if |old(Todo())| < HEADER then bodylen == 0 else Synced(old(Todo())))
      && length == old(Capacity(Todo(), length)) && (overran <==> old(overran || Overruns(Todo(), length)))
    }

    /** The first branch of `process_request`: a header comes next. */
    method StepHeader() returns (again: bool)
      requires Valid() && bodylen == 0 && nread > 0
      modifies this`request, this`length, this`offset, this`bodylen, this`nread, this`log, this`errors, this`overran
      ensures TotalLen(log) + |Held()| + (if again then nread else 0) <= old(TotalLen(log) + |Held()| + nread)
      ensures again ==> nread < old(nread) && bodylen == 0 && nread > 0
      ensures old(Tracking()) ==> Took(again) || (!again && Kept())
    {
      hide Complete, Partial, HeadersOk, HeaderOk, Magic, BodyLen, Slice, TotalLen, Capacity, Overruns;
      ghost var good, todo := Tracking(), Todo();
      if nread < HEADER {
        errors := errors + 1;
        EndOfRead(todo, length);
        return false;
      }
      var head := Slice(offset, HEADER);
      SliceFront(offset, HEADER, nread);
      if good {
        HeadFacts(todo, head, length);
      }
      if Magic(head) != MAGIC || BodyLen(head) > MAX {
        offset := 0;
        bodylen := 0;
        errors := errors + 1;
        return false;
      }
      if length < BodyLen(head) {
        length := MAX;
      }
      var delta := nread - HEADER;
      if delta < BodyLen(head) {
        request := Slice(offset, nread);
        overran := overran || |request| > length;
        bodylen := BodyLen(head) - delta;
        return false;
      }
      TakeFrame(FrameLen(head));
      return nread >= HEADER;
    }

    /** A whole frame of `n` bytes is in the buffer: copy it, move past it, and dispatch it. */
    method TakeFrame(n: nat)
      requires Valid() && HEADER <= n <= nread
      modifies this`request, this`offset, this`nread, this`log, this`overran
      ensures log == old(log) + [request] && TotalLen(log) == old(TotalLen(log)) + n && |request| == n
      ensures nread == old(nread) - n && offset == if nread == 0 then 0 else old(offset) + n
      ensures overran <==> old(overran) || n > length
      ensures old(Slice(offset, nread)) == request + Slice(offset, nread)
    {
      hide TotalLen, Slice;
      SliceFront(offset, n, nread);
      if n == nread {
        request := Slice(offset, nread);
        offset, nread := 0, 0;
      } else {
        request := Slice(offset, n);
        offset := offset + n;
        nread := nread - n;
      }
      overran := overran || |request| > length;
      TotalSnoc(log, request);
      Dispatch();
    }

    /** The second branch of `process_request`: more of a body comes next. */
    method StepBody() returns (again: bool)
      requires Valid() && bodylen > 0 && nread > 0
      modifies this`request, this`offset, this`bodylen, this`nread, this`log, this`overran
      ensures TotalLen(log) + |Held()| + (if again then nread else 0) <= old(TotalLen(log) + |Held()| + nread)
      ensures again ==> nread < old(nread) && bodylen == 0 && nread > 0
      ensures old(Tracking()) ==> Took(again) || (!again && Kept())
    {
      hide Complete, Partial, HeadersOk, HeaderOk, Magic, BodyLen, Slice, TotalLen, Capacity, Overruns;
      if Tracking() {
        BodyFacts(request, bodylen, Slice(0, nread), length);
      }
      if nread < bodylen {
        request := request + Slice(0, nread);
        overran := overran || |request| > length;
        bodylen := bodylen - nread;
        offset := 0;
        return false;
      }
      TakeRest();
      return nread >= HEADER;
    }

    /** The rest of the body is in the buffer: append it to the request and dispatch that. */
    method TakeRest()
      requires Valid() && 0 < bodylen <= nread
      modifies this`request, this`offset, this`bodylen, this`nread, this`log, this`overran
      ensures log == old(log) + [request] && TotalLen(log) == old(TotalLen(log) + |request| + bodylen) && bodylen == 0
      ensures nread == old(nread - bodylen) && offset == if nread == 0 then 0 else old(bodylen)
      ensures overran <==> old(overran) || |request| > length
      ensures request == old(request + Slice(0, nread)[..bodylen]) && Slice(offset, nread) == old(Slice(0, nread)[bodylen..])
    {
      hide TotalLen, Slice;
      SliceFront(0, bodylen, nread);
      request := request + Slice(0, bodylen);
      overran := overran || |request| > length;
      if nread == bodylen {
        offset, nread, bodylen := 0, 0, 0;
      } else {
        nread := nread - bodylen;
        offset := bodylen;
        bodylen := 0;
      }
      TotalSnoc(log, request);
      Dispatch();
    }

    /** At the end of a read: `r` is held, unless it is part of a header, which is lost. */
    ghost predicate Ended(r: seq<byte>)
      reads this
    {
      if 0 < |r| < HEADER then bodylen == 0 else Synced(r)
    }

    /** One pass of `process_request` from its label; true when it goes back there. */
    method Step() returns (again: bool)
      requires Valid() && nread > 0
      modifies this`request, this`length, this`offset, this`bodylen, this`nread, this`log, this`errors, this`overran
      ensures TotalLen(log) + |Held()| + (if again then nread else 0) <= old(TotalLen(log) + |Held()| + nread)
      ensures again ==> 0 < nread < old(nread)
      ensures old(Tracking()) && again ==> Tracking() && Partial(Todo()) == old(Partial(Todo()))
      ensures old(Tracking()) && again ==> log + Complete(Todo()) == old(log + Complete(Todo()))
      ensures old(Tracking()) && !again ==> log == old(log + Complete(Todo())) && Ended(old(Partial(Todo())))
      ensures old(Tracking()) && again ==> Capacity(Todo(), length) == old(Capacity(Todo(), length))
      ensures old(Tracking()) && again ==> ((overran || Overruns(Todo(), length)) <==> old(overran || Overruns(Todo(), length)))
      ensures old(Tracking()) && !again ==> length == old(Capacity(Todo(), length)) && (overran <==> old(overran || Overruns(Todo(), length)))
    {
      hide Complete, Partial, HeadersOk, TotalLen, Slice, Unfinished, Capacity, Overruns;
      ghost var log0 := log;
      if bodylen == 0 {
        again := StepHeader();
      } else {
        again := StepBody();
      }
      EndOfRead(Todo(), length);
      Regroup(log0, request, Complete(Todo()));
    }

    /** `process_request`. */
    method Process()
      requires Valid() && nread > 0
      modifies this`request, this`length, this`offset, this`bodylen, this`nread, this`log, this`errors, this`overran
      ensures TotalLen(log) + |Held()| <= old(TotalLen(log) + |Held()| + nread)
      ensures old(Tracking()) ==> log == old(log + Complete(Todo())) && Ended(old(Partial(Todo())))
      ensures old(Tracking()) ==> length == old(Capacity(Todo(), length)) && (overran <==> old(overran || Overruns(Todo(), length)))
    {
      hide Complete, Partial, HeadersOk, TotalLen, Slice, Unfinished, Capacity, Overruns;
      ghost var good, goal, r := Tracking(), log + Complete(Todo()), Partial(Todo());
      ghost var cap, over := Capacity(Todo(), length), overran || Overruns(Todo(), length);
      while true
        invariant nread > 0 && TotalLen(log) + |Held()| + nread <= old(TotalLen(log) + |Held()| + nread)
        invariant good ==> Tracking() && log + Complete(Todo()) == goal && Partial(Todo()) == r
        invariant good ==> Capacity(Todo(), length) == cap && ((overran || Overruns(Todo(), length)) <==> over)
        decreases nread
      {
        var again := Step();
        if !again {
          return;
        }
      }
    }

    /** `read_request`: the read puts `chunk` at the front of the buffer. */
    method ReadRequest(chunk: seq<byte>)
      requires Valid() && 0 < |chunk| <= BUF
      modifies this, buffer
      ensures TotalLen(log) + |Held()| <= old(TotalLen(log) + |Held()|) + |chunk|
      ensures forall held :: old(Synced(held)) && HeadersOk(held + chunk) ==> log == old(log) + Complete(held + chunk)
      ensures forall held :: old(Synced(held)) && HeadersOk(held + chunk) ==> Ended(Partial(held + chunk))
      ensures forall held :: old(Synced(held)) && HeadersOk(held + chunk) ==> length == Capacity(held + chunk, old(length))
      ensures forall held :: old(Synced(held)) && HeadersOk(held + chunk) ==>
        (overran <==> old(overran) || Overruns(held + chunk, old(length)))
    {
      hide Complete, Partial, HeadersOk, TotalLen, Slice, Capacity, Overruns;
      for i := 0 to |chunk|
        invariant buffer[..i] == chunk[..i]
        invariant request == old(request) && length == old(length) && offset == old(offset) && bodylen == old(bodylen) && log == old(log) && overran == old(overran)
      {
        buffer[i] := chunk[i];
      }
      nread := |chunk|;
      assert Slice(0, nread) == chunk;
      assert forall held :: old(Synced(held)) ==> Todo() == held + chunk;
      Process();
    }

    /**
     A whole conversation: the frames the client sent, cut into reads in any way, are dispatched
     exactly, in order and byte for byte, if and only if no read ends inside a header.
     */
    method Receive(chunks: seq<seq<byte>>, ghost frames: seq<seq<byte>>)
      requires Valid() && Idle() && log == []
      requires forall i :: 0 <= i < |chunks| ==> 0 < |chunks[i]| <= BUF
      requires (forall i :: 0 <= i < |frames| ==> FrameOk(frames[i])) && Flatten(chunks) == Flatten(frames)
      modifies this, buffer
      ensures log == frames <==> NoSplit(chunks, |chunks|)
      ensures NoSplit(chunks, |chunks|) ==> (overran <==> exists i :: 0 <= i < |frames| && TooTight(frames, i, BUF))
    {
      hide Complete, Partial, HeadersOk, TotalLen, Flatten, FrameOk, Capacity, Overruns, TooTight;
      OverrunFrames(frames, BUF);
      FramesBack(frames);
      TotalFlatten(frames);
      EndOfRead([], BUF);
      NothingYet(chunks);
      for i := 0 to |chunks|
        invariant NoSplit(chunks, i) ==> Synced(Partial(Flatten(chunks[..i]))) && log == Complete(Flatten(chunks[..i]))
        invariant NoSplit(chunks, i) ==> length == Capacity(Flatten(chunks[..i]), BUF) && (overran <==> Overruns(Flatten(chunks[..i]), BUF))
        invariant !NoSplit(chunks, i) ==> TotalLen(log) + |Held()| < |Flatten(chunks[..i])|
      {
        ghost var got := Flatten(chunks[..i]);
        NextRead(chunks, i);
        SplitConcat(got, chunks[i]);
        OverrunConcat(got, chunks[i], BUF);
        Lost(got + chunks[i]);
        ReadRequest(chunks[i]);
      }
      assert chunks[..|chunks|] == chunks;
    }

    lemma SliceFront(from: nat, k: nat, n: nat)
      requires k <= n
      ensures Slice(from, n) == Slice(from, k) + Slice(from + k, n - k)
      decreases n
    {
      if k < n {
        SliceFront(from, k, n - 1);
      }
    }
  }

  /** A bare header sent in two halves is never dispatched. */
  method SplitHeader(beyond: nat -> byte) returns (log: seq<seq<byte>>)
    ensures log != [[0x70, 0, 0, 0, 0, 0, 0, 0]]
  {
    hide Complete, HeadersOk, TotalLen;
    var client := new Client(beyond);
    var f: seq<byte> := [0x70, 0, 0, 0, 0, 0, 0, 0];
    var chunks := [f[..4], f[4..]];
    FlattenSnoc([f[..4]], f[4..]);
    assert [f[..4]] + [f[4..]] == chunks;
    assert chunks[..1] == [] + [f[..4]] && [f] == [] + [f];
    FlattenSnoc([], f[..4]);
    FlattenSnoc([], f);
    FlattenNone();
    assert [] + f[..4] == f[..4] && f[..4] + f[4..] == f && [] + f == f;
    EndOfRead(f[..4], BUF);
    assert !NoSplit(chunks, 2);
    client.Receive(chunks, [f]);
    log := client.log;
  }

  /** What the first header says about the bytes. */
  lemma HeadFacts(s: seq<byte>, head: seq<byte>, length: nat)
    requires |s| >= HEADER && head == s[..HEADER] && HeadersOk(s)
    ensures Magic(head) == MAGIC && BodyLen(head) <= MAX && BodyLen(s) == BodyLen(head)
    ensures var n, more := FrameLen(head), Enlarged(length, BodyLen(head));
      if |s| < n then Capacity(s, length) == more && (Overruns(s, length) <==> |s| > more)
      else Capacity(s, length) == Capacity(s[n..], more) && (Overruns(s, length) <==> n > more || Overruns(s[n..], more))
    ensures var n := FrameLen(head);
      if |s| < n then Complete(s) == [] && Partial(s) == s
      else Complete(s) == [s[..n]] + Complete(s[n..]) && Partial(s) == Partial(s[n..]) && HeadersOk(s[n..])
  {
    assert BodyLen(s) == BodyLen(head);
  }

  /** What follows an unfinished frame completes it, or does not. */
  lemma BodyFacts(held: seq<byte>, more: nat, chunk: seq<byte>, length: nat)
    requires Unfinished(held, more, length) && HeadersOk(held + chunk)
    ensures FrameLen(held + chunk) == FrameLen(held)
    ensures |chunk| < more ==> Complete(held + chunk) == [] && Partial(held + chunk) == held + chunk
    ensures |chunk| >= more ==>
      var f, r := held + chunk[..more], chunk[more..];
      Complete(held + chunk) == [f] + Complete(r) && Partial(held + chunk) == Partial(r) && HeadersOk(r)
    ensures BodyLen(held + chunk) <= length
    ensures |chunk| < more ==> Capacity(held + chunk, length) == length && (Overruns(held + chunk, length) <==> |held + chunk| > length)
    ensures |chunk| >= more ==> Capacity(held + chunk, length) == Capacity(chunk[more..], length)
    ensures |chunk| >= more ==> (Overruns(held + chunk, length) <==> |held| + more > length || Overruns(chunk[more..], length))
  {
    var s := held + chunk;
    assert BodyLen(s) == BodyLen(held);
    if |chunk| >= more {
      assert s[..FrameLen(s)] == held + chunk[..more] && s[FrameLen(s)..] == chunk[more..];
    }
  }

  /** The size of the request buffer when frame `i` arrives: a larger body has enlarged it for good. */
  ghost function CapacityAt(fs: seq<seq<byte>>, i: nat, length: nat): nat
    requires i < |fs|
  {
    if exists j :: 0 <= j <= i && |fs[j]| > length + HEADER then MAX else length
  }

  /** The body of frame `i` fits into the request buffer, but not together with the header. */
  ghost predicate TooTight(fs: seq<seq<byte>>, i: nat, length: nat)
    requires i < |fs|
  {
    CapacityAt(fs, i, length) < |fs[i]| <= CapacityAt(fs, i, length) + HEADER
  }

  lemma CapacityNext(fs: seq<seq<byte>>, i: nat, length: nat)
    requires i < |fs| && length <= MAX
    ensures |fs[i]| <= MAX + HEADER ==> |fs[i]| <= CapacityAt(fs, i, length) + HEADER
    ensures i == 0 ==> CapacityAt(fs, i, length) == Enlarged(length, |fs[0]| - HEADER)
    ensures i > 0 ==> CapacityAt(fs, i, length) == CapacityAt(fs[1..], i - 1, Enlarged(length, |fs[0]| - HEADER))
  {
    if i > 0 {
      var more := Enlarged(length, |fs[0]| - HEADER);
      if |fs[0]| <= length + HEADER {
        if j :| 0 <= j <= i && |fs[j]| > length + HEADER {
          var k := j - 1;
          assert fs[1..][k] == fs[j];
        }
        if j :| 0 <= j <= i - 1 && |fs[1..][j]| > length + HEADER {
          var k := j + 1;
          assert fs[k] == fs[1..][j];
        }
      }
    }
  }

  lemma TooTightNext(fs: seq<seq<byte>>, i: nat, length: nat)
    requires i < |fs| && length <= MAX && |fs[i]| <= MAX + HEADER
    ensures var more := Enlarged(length, |fs[0]| - HEADER);
      TooTight(fs, i, length) <==> (if i == 0 then |fs[0]| > more else TooTight(fs[1..], i - 1, more))
  {
    hide CapacityAt;
    CapacityNext(fs, i, length);
  }

  /** Whole frames overrun the request buffer exactly if one of them is too tight. */
  lemma {:induction false} OverrunFrames(fs: seq<seq<byte>>, length: nat)
    requires (forall i :: 0 <= i < |fs| ==> FrameOk(fs[i])) && length <= MAX
    ensures Overruns(Flatten(fs), length) <==> exists i :: 0 <= i < |fs| && TooTight(fs, i, length)
    decreases |fs|
  {
    hide TooTight, HeaderOk, BodyLen, FrameOk;
    forall i | 0 <= i < |fs| ensures HEADER <= |fs[i]| <= MAX + HEADER {
      BodyAtMost(fs[i]);
    }
    if fs != [] {
      var more := Enlarged(length, |fs[0]| - HEADER);
      OverrunFirst(fs, length);
      OverrunFrames(fs[1..], more);
      TooTightNext(fs, 0, length);
      if i :| 1 <= i < |fs| && TooTight(fs, i, length) {
        TooTightNext(fs, i, length);
      }
      if i :| 0 <= i < |fs| - 1 && TooTight(fs[1..], i, more) {
        var k := i + 1;
        TooTightNext(fs, k, length);
      }
    }
  }

  lemma OverrunFirst(fs: seq<seq<byte>>, length: nat)
    requires fs != [] && FrameOk(fs[0])
    ensures var more := Enlarged(length, |fs[0]| - HEADER);
      Overruns(Flatten(fs), length) <==> |fs[0]| > more || Overruns(Flatten(fs[1..]), more)
  {
    var s, n := Flatten(fs), |fs[0]|;
    assert s[..n] == fs[0] && s[n..] == Flatten(fs[1..]);
    assert BodyLen(s) == BodyLen(fs[0]);
  }

  lemma BodyAtMost(f: seq<byte>)
    requires FrameOk(f)
    ensures HEADER <= |f| <= MAX + HEADER
  {
  }

  /** A body exactly as large as the buffer: the frame ends eight octets past the buffer. */
  method PastTheEnd(beyond: nat -> byte) returns (client: Client)
    ensures client.overran && |client.log| == 1
  {
    hide HeadersOk, TotalLen, Overruns, Capacity;
    client := new Client(beyond);
    var f: seq<byte> := [0x70, 0, 0, 0, 0, 0x80, 0, 0] + seq(BUF, _ => 0);
    assert BodyLen(f) == BUF && FrameOk(f);
    var chunks := [f[..BUF], f[BUF..]];
    assert [f[..BUF]] + [f[BUF..]] == chunks && chunks[..1] == [] + [f[..BUF]] && chunks[..2] == chunks && chunks[..0] == [] && [f] == [] + [f];
    FlattenSnoc([f[..BUF]], f[BUF..]);
    FlattenSnoc([], f[..BUF]);
    FlattenSnoc([], f);
    FlattenNone();
    assert [] + f[..BUF] == f[..BUF] && f[..BUF] + f[BUF..] == f && [] + f == f;
    FramesBack([f]);
    assert BodyLen(f[..BUF]) == BodyLen(f) && Partial(f[..BUF]) == f[..BUF];
    assert NoSplit(chunks, 2);
    assert TooTight([f], 0, BUF);
    client.Receive(chunks, [f]);
  }

  /** Fewer bytes than a header hold no frame. */
  lemma EndOfRead(s: seq<byte>, length: nat)
    ensures |s| < HEADER ==> Complete(s) == [] && Partial(s) == s && Capacity(s, length) == length && !Overruns(s, length)
  {
  }

  lemma Regroup(log: seq<seq<byte>>, f: seq<byte>, rest: seq<seq<byte>>)
    ensures (log + [f]) + rest == log + ([f] + rest)
    ensures log + [] == log && (rest == [] ==> log + ([f] + rest) == log + [f])
  {
  }

  /** None of the first `n` reads ends inside a header. */
  ghost predicate NoSplit(chunks: seq<seq<byte>>, n: nat)
    requires n <= |chunks|
  {
    forall i :: 0 <= i <= n ==> !(0 < |Partial(Flatten(chunks[..i]))| < HEADER)
  }

  lemma NothingYet(chunks: seq<seq<byte>>)
    ensures Flatten(chunks[..0]) == [] && Complete([]) == [] && Partial([]) == [] && NoSplit(chunks, 0)
    ensures TotalLen([]) == 0
  {
    assert forall i :: 0 <= i <= 0 ==> chunks[..i] == [];
  }

  lemma NextRead(chunks: seq<seq<byte>>, i: nat)
    requires i < |chunks| && HeadersOk(Flatten(chunks))
    ensures Flatten(chunks[..i + 1]) == Flatten(chunks[..i]) + chunks[i]
    ensures HeadersOk(Flatten(chunks[..i])) && HeadersOk(Partial(Flatten(chunks[..i])) + chunks[i])
    ensures NoSplit(chunks, i + 1) <==> NoSplit(chunks, i) && !(0 < |Partial(Flatten(chunks[..i + 1]))| < HEADER)
  {
    hide HeadersOk, Partial, Flatten;
    var got, all := Flatten(chunks[..i]), Flatten(chunks);
    FlattenSnoc(chunks[..i], chunks[i]);
    assert chunks[..i + 1] == chunks[..i] + [chunks[i]];
    FlattenConcat(chunks[..i + 1], chunks[i + 1..]);
    assert chunks == chunks[..i + 1] + chunks[i + 1..];
    HeadersPrefix(got + chunks[i], Flatten(chunks[i + 1..]));
    HeadersPrefix(got, chunks[i]);
    HeadersRest(got, chunks[i]);
  }

  lemma {:induction false} FlattenConcat(fs: seq<seq<byte>>, gs: seq<seq<byte>>)
    ensures Flatten(fs + gs) == Flatten(fs) + Flatten(gs)
    decreases |fs|
  {
    if fs == [] {
      assert fs + gs == gs;
    } else {
      assert (fs + gs)[1..] == fs[1..] + gs;
      FlattenConcat(fs[1..], gs);
    }
  }

  /** Frames and the unfinished rest account for every byte. */
  lemma Lost(s: seq<byte>)
    ensures TotalLen(Complete(s)) + |Partial(s)| == |s|
  {
    hide Complete, Partial, TotalLen, Flatten;
    SplitWhole(s);
    TotalFlatten(Complete(s));
  }

  /** What is held of a frame: its header at least, `more` bytes missing. */
  ghost predicate Unfinished(held: seq<byte>, more: nat, length: nat)
  {
    |held| >= HEADER && more > 0 && FrameLen(held) == |held| + more && BodyLen(held) <= length
  }
}
