/**
 The LZF codec.

 `Decode` is the reference meaning of a compressed stream: one token at a time,
 every copied octet fetched from what has been produced so far.  The two methods
 `Decompress` and `Compress` follow the C routines: cursors into fixed buffers,
 control octets patched in after the fact, and a hash table that is used without
 ever being cleared.
 */
module Lzf {

  type byte = b: int | 0 <= b < 256

  /* --- Format constants ------------------------------------------------- */

  const HSIZE: nat := 65536
  const MAX_LIT: nat := 32
  const MAX_OFF: nat := 8192
  const MAX_REF: nat := 264
  const UINT_MOD: nat := 0x1_0000_0000
  const ULONG_MOD: nat := 0x1_0000_0000_0000_0000

  /* --- Reference decoder ------------------------------------------------ */

  /** The two `errno` values, or the octets produced. */
  datatype Result = Ok(data: seq<byte>) | TooBig | Invalid

  datatype Token = Next(used: nat, data: seq<byte>) | Stop(error: Result)

  /** Append `len` octets, each one read `dist` positions before the place it goes to. */
  function CopyBack(acc: seq<byte>, dist: nat, len: nat): (r: seq<byte>)
    requires 1 <= dist <= |acc|
    ensures |r| == |acc| + len
    ensures acc <= r
    decreases len
  {
    if len == 0 then acc else CopyBack(acc + [acc[|acc| - dist]], dist, len - 1)
  }

  /** Decode the token at the front of `s`, given the output `acc` so far and its limit `cap`. */
  function Step(s: seq<byte>, acc: seq<byte>, cap: nat): (t: Token)
    requires |s| > 0
    ensures t.Next? ==> 0 < t.used <= |s| && |acc| < |t.data| <= cap && acc <= t.data
    ensures t.Stop? ==> !t.error.Ok?
  {
    var ctrl: int := s[0];
    if ctrl < 32 then
      var run := ctrl + 1;
      if |acc| + run > cap then Stop(TooBig)
      else if 1 + run > |s| then Stop(Invalid)
      else Next(1 + run, acc + s[1..1 + run])
    else
      var short := ctrl / 32 != 7;
      if |s| < 2 || (!short && |s| < 3) then Stop(Invalid)
      else
        var used := if short then 2 else 3;
        var len: int := (if short then ctrl / 32 else 7 + s[1] as int) + 2;
        var dist: int := ctrl % 32 * 256 + s[used - 1] as int + 1;
        if |acc| + len > cap then Stop(TooBig)
        else if dist > |acc| then Stop(Invalid)
        else Next(used, CopyBack(acc, dist, len))
  }

  function Decode(s: seq<byte>, acc: seq<byte>, cap: nat): (r: Result)
    ensures r.Ok? ==> acc <= r.data
    decreases |s|
  {
    if s == [] then Ok(acc)
    else
      match Step(s, acc, cap)
      case Stop(e) => e
      case Next(used, acc') => Decode(s[used..], acc', cap)
  }

  /* --- Facts about the reference decoder -------------------------------- */

  /** Octets behind a complete token do not influence it. */
  lemma StepPrefix(s: seq<byte>, rest: seq<byte>, acc: seq<byte>, cap: nat)
    requires |s| > 0 && Step(s, acc, cap).Next?
    ensures Step(s + rest, acc, cap) == Step(s, acc, cap)
  {
    var ctrl := s[0];
    assert (s + rest)[0] == ctrl;
    if ctrl < 32 {
      assert (s + rest)[1..2 + ctrl] == s[1..2 + ctrl];
    } else if ctrl / 32 != 7 {
      assert (s + rest)[1] == s[1];
    } else {
      assert (s + rest)[1] == s[1] && (s + rest)[2] == s[2];
    }
  }

  /** Decoding is compositional: a decodable prefix can be cut off. */
  lemma {:induction false} DecodeConcat(s: seq<byte>, rest: seq<byte>, acc: seq<byte>, cap: nat)
    requires Decode(s, acc, cap).Ok?
    ensures Decode(s + rest, acc, cap) == Decode(rest, Decode(s, acc, cap).data, cap)
    decreases |s|
  {
    if s == [] {
      assert s + rest == rest;
    } else {
      StepPrefix(s, rest, acc, cap);
      var t := Step(s, acc, cap);
      assert (s + rest)[t.used..] == s[t.used..] + rest;
      DecodeConcat(s[t.used..], rest, t.data, cap);
    }
  }

  /** `stream` stands for exactly `data`, whatever output limit is large enough. */
  ghost predicate Encodes(stream: seq<byte>, data: seq<byte>)
  {
    forall cap: nat :: |data| <= cap ==> Decode(stream, [], cap) == Ok(data)
  }

  lemma EncodesToken(stream: seq<byte>, data: seq<byte>, token: seq<byte>, data': seq<byte>)
    requires Encodes(stream, data)
    requires |token| > 0 && |data| <= |data'|
    requires forall cap: nat :: |data'| <= cap ==> Step(token, data, cap) == Next(|token|, data')
    ensures Encodes(stream + token, data')
  {
    forall cap: nat | |data'| <= cap
      ensures Decode(stream + token, [], cap) == Ok(data')
    {
      DecodeConcat(stream, token, [], cap);
      assert token[|token|..] == [];
    }
  }

  lemma EncodesLiteral(stream: seq<byte>, data: seq<byte>, lits: seq<byte>, ctrl: byte)
    requires Encodes(stream, data)
    requires 1 <= |lits| <= MAX_LIT && ctrl == |lits| - 1
    ensures Encodes(stream + [ctrl] + lits, data + lits)
  {
    var token := [ctrl] + lits;
    assert token[1..1 + |lits|] == lits;
    EncodesToken(stream, data, token, data + lits);
    assert stream + token == stream + [ctrl] + lits;
  }

  /** Copying back over a stretch that repeats earlier input reproduces the input. */
  lemma {:induction false} CopyBackMatch(input: seq<byte>, ref: nat, ip: nat, len: nat)
    requires ref < ip && ip + len <= |input|
    requires input[ref..ref + len] == input[ip..ip + len]
    ensures CopyBack(input[..ip], ip - ref, len) == input[..ip + len]
    decreases len
  {
    if len > 0 {
      var acc := input[..ip];
      assert input[ref] == input[ref..ref + len][0] == input[ip..ip + len][0] == input[ip];
      assert acc + [acc[ref]] == input[..ip + 1];
      assert input[ref + 1..ref + len] == input[ref..ref + len][1..];
      assert input[ip + 1..ip + len] == input[ip..ip + len][1..];
      CopyBackMatch(input, ref + 1, ip + 1, len - 1);
    }
  }

  /** The octets `lzf_compress` emits for a match of `len` octets at distance `off + 1`. */
  function RefToken(off: nat, len: nat): (t: seq<byte>)
    requires off < MAX_OFF && 3 <= len <= MAX_REF
  {
    if len - 2 < 7 then [off / 256 + (len - 2) * 32, off % 256]
    else [off / 256 + 224, len - 2 - 7, off % 256]
  }

  lemma RefTokenStep(off: nat, len: nat, acc: seq<byte>, cap: nat)
    requires off < MAX_OFF && 3 <= len <= MAX_REF && off + 1 <= |acc| && |acc| + len <= cap
    ensures Step(RefToken(off, len), acc, cap) == Next(|RefToken(off, len)|, CopyBack(acc, off + 1, len))
  {
    hide CopyBack;
    var token := RefToken(off, len);
    assert off / 256 < 32;
    if len - 2 < 7 {
      assert token[0] / 32 == len - 2 && token[0] % 32 == off / 256;
    } else {
      assert token[0] / 32 == 7 && token[0] % 32 == off / 256;
    }
  }

  lemma EncodesMatch(stream: seq<byte>, input: seq<byte>, ref: nat, ip: nat, len: nat)
    requires ref < ip && ip + len <= |input| && ip - ref - 1 < MAX_OFF && 3 <= len <= MAX_REF
    requires input[ref..ref + len] == input[ip..ip + len]
    requires Encodes(stream, input[..ip])
    ensures Encodes(stream + RefToken(ip - ref - 1, len), input[..ip + len])
  {
    hide CopyBack, Step, Decode, Encodes;
    var off := ip - ref - 1;
    CopyBackMatch(input, ref, ip, len);
    forall cap: nat | ip + len <= cap
      ensures Step(RefToken(off, len), input[..ip], cap) == Next(|RefToken(off, len)|, input[..ip + len])
    {
      RefTokenStep(off, len, input[..ip], cap);
    }
    EncodesToken(stream, input[..ip], RefToken(off, len), input[..ip + len]);
  }

  /* --- lzf_decompress --------------------------------------------------- */

  /** Octet-by-octet copy within the output: the unrolled switch and the overlapping loop. */
  method CopyForward(output: array<byte>, ref: nat, op: nat, len: nat)
    requires ref < op && op + len <= output.Length
    modifies output
    ensures output[..op + len] == CopyBack(old(output[..op]), op - ref, len)
    ensures output[op + len..] == old(output[op + len..])
  {
    hide CopyBack;
    ghost var whole := CopyBack(output[..op], op - ref, len);
    var i := 0;
    while i < len
      invariant 0 <= i <= len
      invariant CopyBack(output[..op + i], op - ref, len - i) == whole
      invariant output[op + len..] == old(output[op + len..])
    {
      ghost var acc := output[..op + i];
      CopyBackStep(acc, op - ref, len - i);
      output[op + i] := output[ref + i];
      assert output[..op + i + 1] == acc + [acc[|acc| - (op - ref)]];
      i := i + 1;
    }
    CopyBackStep(output[..op + len], op - ref, 0);
  }

  lemma CopyBackStep(acc: seq<byte>, dist: nat, len: nat)
    requires 1 <= dist <= |acc|
    ensures CopyBack(acc, dist, len) == if len == 0 then acc else CopyBack(acc + [acc[|acc| - dist]], dist, len - 1)
  {
  }

  /** A block copy equals the octet-by-octet one when source and target are disjoint. */
  lemma {:induction false} CopyBackDisjoint(acc: seq<byte>, dist: nat, len: nat)
    requires 1 <= dist <= |acc| && len <= dist
    ensures CopyBack(acc, dist, len) == acc + acc[|acc| - dist..|acc| - dist + len]
    decreases len
  {
    if len > 0 {
      var acc' := acc + [acc[|acc| - dist]];
      CopyBackDisjoint(acc', dist, len - 1);
      assert acc'[|acc'| - dist..|acc'| - dist + len - 1] == acc[|acc| - dist + 1..|acc| - dist + len];
    }
  }

  /** `memcpy`: every source octet is read before any target octet is written. */
  method CopyBlock(output: array<byte>, ref: nat, op: nat, len: nat)
    requires ref + len <= op && ref < op && op + len <= output.Length
    modifies output
    ensures output[..op + len] == CopyBack(old(output[..op]), op - ref, len)
    ensures output[op + len..] == old(output[op + len..])
  {
    CopyBackDisjoint(output[..op], op - ref, len);
    forall k | 0 <= k < len {
      output[op + k] := output[ref + k];
    }
    assert output[..op + len] == old(output[..op]) + old(output[ref..ref + len]);
  }

  /** Copy a back reference with the strategy the source picks for its length. */
  method CopyReference(output: array<byte>, ref: nat, op: nat, len: nat)
    requires ref < op && op + len + 2 <= output.Length
    modifies output
    ensures output[..op + len + 2] == CopyBack(old(output[..op]), op - ref, len + 2)
    ensures output[op + len + 2..] == old(output[op + len + 2..])
  {
    if len <= 9 {
      CopyForward(output, ref, op, len + 2);
    } else if op >= ref + (len + 2) {
      CopyBlock(output, ref, op, len + 2);
    } else {
      CopyForward(output, ref, op, len + 2);
    }
  }

  method CopyLiteral(input: seq<byte>, ip: nat, output: array<byte>, op: nat, len: nat)
    requires ip + len <= |input| && op + len <= output.Length
    modifies output
    ensures output[..op + len] == old(output[..op]) + input[ip..ip + len]
    ensures output[op + len..] == old(output[op + len..])
  {
    var i := 0;
    while i < len
      invariant 0 <= i <= len
      invariant output[..op + i] == old(output[..op]) + input[ip..ip + i]
      invariant output[op + len..] == old(output[op + len..])
    {
      output[op + i] := input[ip + i];
      assert output[..op + i + 1] == output[..op + i] + [input[ip + i]];
      i := i + 1;
    }
  }

  /** What the caller sees: the error, or the number of octets now at the front of the buffer. */
  datatype Outcome = Written(n: nat) | ErrTooBig | ErrInvalid

  ghost predicate Agrees(o: Outcome, output: seq<byte>, r: Result)
  {
    match r
    case Ok(data) => o == Written(|data|) && data <= output
    case TooBig => o == ErrTooBig
    case Invalid => o == ErrInvalid
  }

  /** The effect of one pass of the loop body: token `t` was consumed and its output written. */
  twostate predicate Consumed(input: seq<byte>, ip: nat, output: array<byte>, op: nat, ip': nat, op': nat)
    reads output
  {
    && ip < ip' <= |input| && op < op' <= output.Length
    && Step(input[ip..], old(output[..op]), output.Length) == Next(ip' - ip, output[..op'])
    && output[op'..] == old(output[op'..])
  }

  /** A literal run of `ctrl + 1` octets. */
  method LiteralRun(input: seq<byte>, start: nat, output: array<byte>, op: nat)
    returns (o: Outcome, ip': nat, op': nat)
    requires start < |input| && input[start] < 32 && op <= output.Length
    modifies output
    ensures !o.Written? ==> output[..] == old(output[..])
    ensures o.ErrTooBig? ==> Step(input[start..], output[..op], output.Length) == Stop(TooBig)
    ensures o.ErrInvalid? ==> Step(input[start..], output[..op], output.Length) == Stop(Invalid)
    ensures o.Written? ==> Consumed(input, start, output, op, ip', op')
  {
    ghost var s := input[start..];
    var ip, run := start + 1, input[start] as int + 1;
    ip', op' := ip, op;
    if op + run > output.Length { return ErrTooBig, ip', op'; }
    if ip + run > |input| { return ErrInvalid, ip', op'; }
    assert s[1..1 + run] == input[ip..ip + run];
    CopyLiteral(input, ip, output, op, run);
    return Written(run), ip + run, op + run;
  }

  /** A back reference: the truncated-input, output-size and range checks in source order. */
  method BackReference(input: seq<byte>, start: nat, output: array<byte>, op: nat)
    returns (o: Outcome, ip': nat, op': nat)
    requires start < |input| && input[start] >= 32 && op <= output.Length
    modifies output
    ensures !o.Written? ==> output[..] == old(output[..])
    ensures o.ErrTooBig? ==> Step(input[start..], output[..op], output.Length) == Stop(TooBig)
    ensures o.ErrInvalid? ==> Step(input[start..], output[..op], output.Length) == Stop(Invalid)
    ensures o.Written? ==> Consumed(input, start, output, op, ip', op')
  {
    hide CopyBack;
    ghost var s := input[start..];
    var ctrl: int, ip := input[start], start + 1;
    ip', op' := ip, op;
    var len := ctrl / 32;
    var ref := op - ctrl % 32 * 256 - 1;
    if ip >= |input| { return ErrInvalid, ip', op'; }
    if len == 7 {
      len := len + input[ip] as int;
      ip := ip + 1;
      if ip >= |input| { return ErrInvalid, ip', op'; }
    }
    assert s[ip - start] == input[ip];
    ref := ref - input[ip];
    ip := ip + 1;
    if op + len + 2 > output.Length { return ErrTooBig, ip', op'; }
    if ref < 0 { return ErrInvalid, ip', op'; }
    CopyReference(output, ref, op, len);
    return Written(len + 2), ip, op + len + 2;
  }

  /**
   `lzf_decompress`.  The input must be non-empty, since the first control octet is read
   unconditionally.  The whole output buffer is available, so its length is `out_len`.
   */
  method Decompress(input: seq<byte>, output: array<byte>) returns (o: Outcome)
    requires |input| > 0
    modifies output
    ensures Agrees(o, output[..], Decode(input, [], output.Length))
    ensures o.Written? ==> 0 < o.n <= output.Length && output[o.n..] == old(output[o.n..])
  {
    var ip, op := 0, 0;
    ghost var all := Decode(input, [], output.Length);
    assert input[0..] == input && output[..0] == [];
    while true
      invariant 0 <= ip < |input| && 0 <= op <= output.Length
      invariant Decode(input[ip..], output[..op], output.Length) == all
      invariant output[op..] == old(output[op..])
      decreases |input| - ip
    {
      ghost var s, kept := input[ip..], output[op..];
      var ip', op';
      if input[ip] < 32 {
        o, ip', op' := LiteralRun(input, ip, output, op);
      } else {
        o, ip', op' := BackReference(input, ip, output, op);
      }
      if !o.Written? { return; }
      assert s[ip' - ip..] == input[ip'..];
      assert output[op'..] == kept[op' - op..];
      ip, op := ip', op';
      if ip >= |input| { break; }
    }
    assert output[..op] <= output[..];
    return Written(op);
  }

  /* --- lzf_compress ----------------------------------------------------- */

  /** `FRST`, `NEXT` and the `VERY_FAST` form of `IDX`, on 32-bit unsigned values. */
  function First(input: seq<byte>, p: nat): nat
    requires p + 1 < |input|
  {
    input[p] as int * 256 + input[p + 1]
  }

  function NextHash(h: nat, input: seq<byte>, p: nat): nat
    requires p + 2 < |input|
  {
    (h * 256 + input[p + 2]) % UINT_MOD
  }

  function Slot(h: nat): (i: nat)
    ensures i < HSIZE
  {
    (h / 256 - h * 5) % HSIZE
  }

  /** The pointer difference `ip - ref - 1` as an unsigned long. */
  function Offset(ip: nat, ref: nat): nat
  {
    (ip - ref - 1) % ULONG_MOD
  }

  /**
   The state between two tokens: `op - lit - 1` finished octets, a reserved control octet,
   and `lit` pending literals.  The last conjunct is the size account: every complete
   literal run of 32 pays for its own control octet, every match pays for itself and for
   the control octet of the partial run in front of it.
   */
  ghost predicate Progress(input: seq<byte>, out: seq<byte>, ip: nat, op: nat, lit: nat)
  {
    && lit < MAX_LIT && lit <= ip <= |input|
    && lit + 1 <= op <= |out| + 1
    && Encodes(out[..op - lit - 1], input[..ip - lit])
    && (lit > 0 ==> op <= |out| && out[op - lit..op] == input[ip - lit..ip])
    && 32 * (op - 1 - ip) <= ip - lit
  }

  lemma ProgressStart(input: seq<byte>, out: seq<byte>)
    ensures Progress(input, out, 0, 1, 0)
  {
    assert out[..0] == [] && input[..0] == [];
  }

  /** Patch the reserved control octet of the pending run; with no literals it is a dummy. */
  function StopRun(lit: nat): byte
    requires lit <= MAX_LIT
  {
    (lit as int - 1) % 256
  }

  lemma FlushLiterals(input: seq<byte>, out: seq<byte>, ip: nat, op: nat, lit: nat, out': seq<byte>)
    requires 1 <= lit <= MAX_LIT && lit <= ip <= |input| && lit + 1 <= op <= |out|
    requires Encodes(out[..op - lit - 1], input[..ip - lit])
    requires out[op - lit..op] == input[ip - lit..ip]
    requires out' == out[op - lit - 1 := StopRun(lit)]
    ensures Encodes(out'[..op], input[..ip])
  {
    EncodesLiteral(out[..op - lit - 1], input[..ip - lit], input[ip - lit..ip], StopRun(lit));
    assert out'[..op] == out[..op - lit - 1] + [StopRun(lit)] + input[ip - lit..ip];
    assert input[..ip] == input[..ip - lit] + input[ip - lit..ip];
  }

  /** `len` octets at `ref` and at `ip` agree. */
  ghost predicate Same(input: seq<byte>, ref: nat, ip: nat, len: nat)
  {
    ref < ip && ip + len <= |input| && input[ref..ref + len] == input[ip..ip + len]
  }

  lemma ExtendMatch(input: seq<byte>, ref: nat, ip: nat, len: nat)
    requires Same(input, ref, ip, len) && ip + len < |input| && input[ref + len] == input[ip + len]
    ensures Same(input, ref, ip, len + 1)
  {
    assert input[ref..ref + len + 1] == input[ref..ref + len] + [input[ref + len]];
    assert input[ip..ip + len + 1] == input[ip..ip + len] + [input[ip + len]];
  }

  /** The 16-fold unrolled test, entered with two octets known to agree. */
  method UnrolledMatch(input: seq<byte>, ref: nat, ip: nat) returns (len: nat, stopped: bool)
    requires Same(input, ref, ip, 3) && ip + 18 < |input|
    ensures Same(input, ref, ip, len)
    ensures if stopped then 3 <= len <= 18 else len == 18 && Same(input, ref, ip, 19)
  {
    len, stopped := 2, false;
    assert input[ref..ref + 2] == input[ref..ref + 3][..2] == input[ip..ip + 3][..2] == input[ip..ip + 2];
    while len < 18
      invariant 2 <= len <= 18
      invariant Same(input, ref, ip, len) && Same(input, ref, ip, len + 1)
    {
      len := len + 1;
      if input[ref + len] != input[ip + len] { return len, true; }
      ExtendMatch(input, ref, ip, len);
    }
  }

  /** Length of the match found at `ref`. */
  method MatchLength(input: seq<byte>, ref: nat, ip: nat) returns (len: nat)
    requires Same(input, ref, ip, 3)
    ensures 3 <= len <= MAX_REF && Same(input, ref, ip, len)
  {
    len := 2;
    var maxlen := |input| - ip - len;
    maxlen := if maxlen > MAX_REF then MAX_REF else maxlen;
    if maxlen > 16 {
      var stopped;
      len, stopped := UnrolledMatch(input, ref, ip);
      if stopped { return; }
    }
    len := len + 1;
    while len < maxlen && input[ref + len] == input[ip + len]
      invariant 3 <= len <= MAX_REF && Same(input, ref, ip, len)
      decreases maxlen - len
    {
      ExtendMatch(input, ref, ip, len);
      len := len + 1;
    }
  }

  /** Append one literal, closing the run when it is full.  The caller has checked for room. */
  method Literal(input: seq<byte>, out: array<byte>, ip: nat, op: nat, lit: nat) returns (op': nat, lit': nat)
    requires Progress(input, out[..], ip, op, lit) && ip < |input| && op < out.Length
    modifies out
    ensures Progress(input, out[..], ip + 1, op', lit')
    ensures lit + 1 < MAX_LIT ==> op' == op + 1 && lit' == lit + 1
    ensures lit + 1 == MAX_LIT ==> op' == op + 2 && lit' == 0
  {
    ghost var before := out[..];
    lit' := lit + 1;
    out[op] := input[ip];
    op' := op + 1;
    ghost var mid := out[..];
    assert mid[..op' - lit' - 1] == before[..op - lit - 1];
    assert input[..ip + 1 - lit'] == input[..ip - lit];
    assert mid[op' - lit'..op'] == before[op - lit..op] + [input[ip]];
    assert mid[op' - lit'..op'] == input[ip - lit..ip + 1];
    if lit' == MAX_LIT {
      out[op' - lit' - 1] := StopRun(lit');
      FlushLiterals(input, mid, ip + 1, op', lit', out[..]);
      lit', op' := 0, op' + 1;
    }
  }

  /** Close the pending run and emit a back reference to the match at `ref`. */
  method EmitMatch(input: seq<byte>, out: array<byte>, ref: nat, ip: nat, op: nat, lit: nat, len: nat)
    returns (op': nat)
    requires Progress(input, out[..], ip, op, lit)
    requires op - (if lit == 0 then 1 else 0) + 4 < out.Length
    requires Same(input, ref, ip, len) && ip - ref - 1 < MAX_OFF && 3 <= len <= MAX_REF
    modifies out
    ensures Progress(input, out[..], ip + len, op', 0)
  {
    ghost var before := out[..];
    var off := ip - ref - 1;
    out[op - lit - 1] := StopRun(lit);
    if lit > 0 {
      FlushLiterals(input, before, ip, op, lit, out[..]);
    }
    op' := if lit == 0 then op - 1 else op;
    ghost var stream := out[..op'];
    assert Encodes(stream, input[..ip]) by {
      if lit == 0 { assert stream == before[..op - 1]; }
    }
    op' := WriteToken(out, op', off, len);
    EncodesMatch(stream, input, ref, ip, len);
    op' := op' + 1;
    assert out[..op' - 1] == out[..][..op' - 0 - 1];
  }

  /** The two or three octets of a back-reference. */
  method WriteToken(out: array<byte>, op: nat, off: nat, len: nat) returns (op': nat)
    requires op + 3 <= out.Length && off < MAX_OFF && 3 <= len <= MAX_REF
    modifies out
    ensures op < op' <= op + 3 && out[..op'] == old(out[..op]) + RefToken(off, len)
  {
    op' := op;
    if len - 2 < 7 {
      out[op'] := off / 256 + (len - 2) * 32;
      op' := op' + 1;
    } else {
      out[op'] := off / 256 + 7 * 32;
      out[op' + 1] := len - 2 - 7;
      op' := op' + 2;
    }
    out[op'] := off % 256;
    op' := op' + 1;
  }

  /** The output-space test, the match length and the emission, for a match found at `ref`. */
  method TakeMatch(input: seq<byte>, out: array<byte>, ref: nat, ip: nat, op: nat, lit: nat)
    returns (full: bool, ip': nat, op': nat)
    requires Progress(input, out[..], ip, op, lit) && Same(input, ref, ip, 3) && ip - ref - 1 < MAX_OFF
    modifies out
    ensures full ==> out.Length < |input| + |input| / 32 + 4
    ensures !full ==> ip + 3 <= ip' && Progress(input, out[..], ip', op', 0)
  {
    hide Encodes;
    ip', op' := ip, op;
    if op + 3 + 1 >= out.Length {
      if op - (if lit == 0 then 1 else 0) + 3 + 1 >= out.Length { return true, ip', op'; }
    }
    var len := MatchLength(input, ref, ip);
    op' := EmitMatch(input, out, ref, ip, op, lit, len);
    return false, ip + len, op';
  }

  /** The match test on an arbitrary hash-table entry. */
  predicate Matches(input: seq<byte>, ref: nat, ip: nat)
    requires ip + 2 < |input| <= UINT_MOD && ref < UINT_MOD
  {
    && Offset(ip, ref) < MAX_OFF
    && ref > 0
    && input[ref + 2] == input[ip + 2]
    && input[ref] == input[ip] && input[ref + 1] == input[ip + 1]
  }

  /**
   `lzf_compress`.  `out.Length` is `out_len`.  The hash table holds 32-bit offsets and may
   contain anything on entry.  The initial hash also reads the octet behind a one-octet input;
   nothing depends on its value then.
   */
  method Compress(input: seq<byte>, out: array<byte>, htab: array<nat>) returns (n: nat)
    requires |input| < UINT_MOD
    requires htab.Length == HSIZE && forall i :: 0 <= i < HSIZE ==> htab[i] < UINT_MOD
    modifies out, htab
    ensures n <= out.Length
    ensures n > 0 ==> Encodes(out[..n], input)
    ensures n <= |input| + (|input| + 31) / 32
    ensures n > 0 && Dense(|input|) ==> 100 * n < 104 * |input|
    ensures |input| > 0 && out.Length >= |input| + |input| / 32 + 4 ==> n > 0
  {
    hide Encodes, Slot, NextHash, First;
    if |input| == 0 || out.Length == 0 { return 0; }
    var ip: nat, op: nat, lit: nat := 0, 1, 0;
    var hval: nat := if |input| == 1 then 0 else First(input, ip);
    ProgressStart(input, out[..]);
    while ip < |input| - 2
      invariant Progress(input, out[..], ip, op, lit)
      invariant forall i :: 0 <= i < HSIZE ==> htab[i] < UINT_MOD
      decreases |input| - ip
    {
      hval := NextHash(hval, input, ip);
      var ref := htab[Slot(hval)];
      htab[Slot(hval)] := ip;
      if Matches(input, ref, ip) {
        assert input[ref..ref + 3] == input[ip..ip + 3];
        var full;
        full, ip, op := TakeMatch(input, out, ref, ip, op, lit);
        if full { return 0; }
        lit := 0;
        if ip >= |input| - 2 { break; }
        ip := ip - 2;
        hval := NextHash(First(input, ip), input, ip);
        htab[Slot(hval)] := ip;
        ip := ip + 1;
        hval := NextHash(hval, input, ip);
        htab[Slot(hval)] := ip;
        ip := ip + 1;
      } else {
        if op >= out.Length { return 0; }
        op, lit := Literal(input, out, ip, op, lit);
        ip := ip + 1;
      }
    }
    if op + 3 > out.Length { return 0; }
    n := Finish(input, out, ip, op, lit);
  }

  /** The last at most two octets, and the closing control octet. */
  method Finish(input: seq<byte>, out: array<byte>, ip0: nat, op0: nat, lit0: nat) returns (n: nat)
    requires Progress(input, out[..], ip0, op0, lit0)
    requires |input| >= 1 && ip0 + 2 >= |input| && op0 + 3 <= out.Length
    modifies out
    ensures 0 < n <= out.Length && Encodes(out[..n], input)
    ensures n <= |input| + (|input| + 31) / 32
  {
    var ip: nat, op: nat, lit: nat := ip0, op0, lit0;
    while ip < |input|
      invariant Progress(input, out[..], ip, op, lit) && ip0 <= ip
      invariant op <= op0 + (ip - ip0) + 1 && (op == op0 + (ip - ip0) + 1 ==> ip > ip0 && lit < ip - ip0)
      decreases |input| - ip
    {
      op, lit := Literal(input, out, ip, op, lit);
      ip := ip + 1;
    }
    ghost var before := out[..];
    out[op - lit - 1] := StopRun(lit);
    assert input[..|input|] == input;
    if lit > 0 {
      FlushLiterals(input, before, ip, op, lit, out[..]);
    } else {
      assert out[..op - 1] == before[..op - 1];
    }
    n := if lit == 0 then op - 1 else op;
    assert out[..0] == [] && Decode([], [], |input|) == Ok([]);
  }

  /* --- The promise of less than 104% -------------------------------------- */

  /** The lengths at which even incompressible data stays below 104%. */
  predicate Dense(n: nat)
  {
    100 * (n + (n + 31) / 32) < 104 * n
  }

  lemma DenseLengths(n: nat)
    ensures Dense(n) <==> 26 <= n <= 32 || 51 <= n <= 64 || 76 <= n <= 96 || 101 <= n
  {
  }

  ghost predicate AllDifferent(data: seq<byte>)
  {
    forall i, j :: 0 <= i < j < |data| ==> data[i] != data[j]
  }

  lemma CopyBackNext(acc: seq<byte>, dist: nat, len: nat)
    requires 1 <= dist <= |acc| && len > 0
    ensures CopyBack(acc, dist, len)[|acc|] == acc[|acc| - dist]
  {
    var acc' := acc + [acc[|acc| - dist]];
    assert acc' <= CopyBack(acc', dist, len - 1);
  }

  lemma RefRepeats(s: seq<byte>, acc: seq<byte>, cap: nat)
    requires |s| > 0 && Step(s, acc, cap).Next? && s[0] >= 32
    ensures !AllDifferent(Step(s, acc, cap).data)
  {
    var ctrl: int := s[0];
    var used := if ctrl / 32 != 7 then 2 else 3;
    var len: int := (if ctrl / 32 != 7 then ctrl / 32 else 7 + s[1] as int) + 2;
    var dist: int := ctrl % 32 * 256 + s[used - 1] as int + 1;
    CopyBackNext(acc, dist, len);
    var data := Step(s, acc, cap).data;
    assert data[|acc| - dist] == acc[|acc| - dist] == data[|acc|];
  }

  lemma PrefixDifferent(a: seq<byte>, b: seq<byte>)
    requires a <= b && AllDifferent(b)
    ensures AllDifferent(a)
  {
  }

  /** Where no octet occurs twice no back-reference helps: every 32 octets cost one more. */
  lemma {:induction false} DifferentCost(s: seq<byte>, acc: seq<byte>, cap: nat)
    requires Decode(s, acc, cap).Ok? && AllDifferent(Decode(s, acc, cap).data)
    ensures var more := |Decode(s, acc, cap).data| - |acc|; |s| >= more + (more + 31) / 32
    decreases |s|
  {
    hide AllDifferent;
    if s != [] {
      var t := Step(s, acc, cap);
      PrefixDifferent(t.data, Decode(s, acc, cap).data);
      DifferentCost(s[t.used..], t.data, cap);
      if s[0] >= 32 {
        RefRepeats(s, acc, cap);
      }
    }
  }

  /** No stream of fewer than three octets stands for two. */
  lemma TwoOctets(s: seq<byte>, cap: nat)
    requires Decode(s, [], cap).Ok? && |Decode(s, [], cap).data| == 2
    ensures |s| >= 3
  {
    var t := Step(s, [], cap);
    assert t.data <= Decode(s, [], cap).data;
  }

  /** The octets 0, 1, 2 and so on. */
  function Counting(n: nat): (data: seq<byte>)
    requires n <= 256
    ensures |data| == n && AllDifferent(data)
  {
    seq(n, i requires 0 <= i < n => i)
  }

  /**
   At every other length there is an input whose compressed form, whatever the table held, is at
   least 104% of it.  So the promise holds for a length exactly if `Dense` does.
   */
  method Expands(n: nat, outLen: nat, slots: seq<nat>) returns (r: nat)
    requires n > 0 && !Dense(n)
    requires |slots| == HSIZE && forall i :: 0 <= i < HSIZE ==> slots[i] < UINT_MOD
    ensures r > 0 ==> r == n + (n + 31) / 32 && 100 * r >= 104 * n
    ensures outLen >= n + n / 32 + 4 ==> r > 0
  {
    DenseLengths(n);
    var out := new byte[outLen];
    var htab := new nat[HSIZE](i requires 0 <= i < |slots| => slots[i]);
    var input := Counting(n);
    r := Compress(input, out, htab);
    if r > 0 {
      assert Decode(out[..r], [], n) == Ok(input);
      DifferentCost(out[..r], [], n);
    }
  }

  /** Two octets always become three. */
  method TwoToThree(input: seq<byte>, out: array<byte>, htab: array<nat>) returns (r: nat)
    requires |input| == 2 && htab.Length == HSIZE && forall i :: 0 <= i < HSIZE ==> htab[i] < UINT_MOD
    modifies out, htab
    ensures r == 0 || r == 3
  {
    r := Compress(input, out, htab);
    if r > 0 {
      assert Decode(out[..r], [], 2) == Ok(input);
      TwoOctets(out[..r], 2);
    }
  }

  /** A stream that decodes within some limit reports `E2BIG` under every smaller limit. */
  lemma {:induction false} DecodeTooBig(s: seq<byte>, acc: seq<byte>, cap: nat, small: nat)
    requires Decode(s, acc, cap).Ok? && |acc| <= small < |Decode(s, acc, cap).data|
    ensures Decode(s, acc, small) == TooBig
    decreases |s|
  {
    var t := Step(s, acc, cap);
    if |t.data| <= small {
      assert Step(s, acc, small) == t;
      DecodeTooBig(s[t.used..], t.data, cap, small);
    }
  }

  /** Compress and decompress again, with a given compressed-buffer size, table and output limit. */
  method RoundTrip(input: seq<byte>, outLen: nat, slots: seq<nat>, cap: nat)
    returns (n: nat, o: Outcome, restored: seq<byte>)
    requires |input| < UINT_MOD
    requires |slots| == HSIZE && forall i :: 0 <= i < HSIZE ==> slots[i] < UINT_MOD
    ensures |input| > 0 && outLen >= |input| + |input| / 32 + 4 ==> n > 0
    ensures n > 0 && cap >= |input| ==> o == Written(|input|) && restored == input
    ensures n > 0 && cap < |input| ==> o == ErrTooBig
  {
    var out := new byte[outLen];
    var htab := new nat[HSIZE](i requires 0 <= i < |slots| => slots[i]);
    n := Compress(input, out, htab);
    o, restored := ErrInvalid, [];
    if n > 0 {
      var stream := out[..n];
      assert Decode(stream, [], |input|) == Ok(input);
      assert cap >= |input| ==> Decode(stream, [], cap) == Ok(input);
      if cap < |input| {
        DecodeTooBig(stream, [], |input|, cap);
      }
      var output := new byte[cap];
      o := Decompress(stream, output);
      if o.Written? { restored := output[..o.n]; }
    }
  }
}
