/** The microphone bus framing: base-128 varints, the field writers, and the reader of a
    robot's `zmqSTTRequest`. Bytes are numbers; fields follow the Protocol Buffers encoding
    ("Base 128 Varints", "Message Structure", "Last One Wins"). */
module Wire {
  import opened Basics
  import opened Wrappers

  type Byte = x: int | 0 <= x < 256
  type Bytes = seq<Byte>

  // ----- varints ---------------------------------------------------------------------------

  /** The value and the index after it; None when the bytes run out. */
  function Read(b: Bytes, i: nat): (r: Option<(nat, nat)>)
    ensures r.Some? ==> i < r.value.1 <= |b|
    decreases |b| - i
  {
    if i >= |b| then None
    else if b[i] < 128 then Some((b[i], i + 1))
    else
      match Read(b, i + 1)
      case None => None
      case Some((v, j)) => Some((b[i] - 128 + 128 * v, j))
  }

  function Write(n: nat): (b: Bytes)
    ensures b != []
  {
    if n < 128 then [n] else [n % 128 + 128] + Write(n / 128)
  }

  lemma Pow2Seven(k: nat)
    ensures Pow2(k + 7) == 128 * Pow2(k)
  {
    assert Pow2(k + 7) == 2 * Pow2(k + 6) && Pow2(k + 6) == 2 * Pow2(k + 5);
    assert Pow2(k + 5) == 2 * Pow2(k + 4) && Pow2(k + 4) == 2 * Pow2(k + 3);
    assert Pow2(k + 3) == 2 * Pow2(k + 2) && Pow2(k + 2) == 2 * Pow2(k + 1);
  }

  /** What the loop has gathered, completed by what is still to be read. */
  function Complete(val: nat, scale: nat, rest: Option<(nat, nat)>): Option<(nat, nat)> {
    match rest
    case None => None
    case Some((v, j)) => Some((val + scale * v, j))
  }

  lemma CompleteStep(val: nat, scale: nat, digit: nat, v: nat)
    ensures val + scale * (digit + 128 * v) == (val + digit * scale) + 128 * scale * v
  {
    assert scale * (digit + 128 * v) == scale * digit + scale * (128 * v);
    assert scale * (128 * v) == 128 * scale * v;
  }

  /** One more byte: seven bits above those gathered, and maybe the end. */
  lemma ReadStep(b: Bytes, i: nat, val: nat, scale: nat, digit: nat)
    requires i < |b| && digit == b[i] % 128
    ensures Complete(val, scale, Read(b, i))
         == if b[i] < 128 then Some((val + digit * scale, i + 1))
            else Complete(val + digit * scale, 128 * scale, Read(b, i + 1))
  {
    if b[i] >= 128 && Read(b, i + 1).Some? {
      CompleteStep(val, scale, digit, Read(b, i + 1).value.0);
    }
  }

  lemma BelowNext(val: nat, digit: nat, scale: nat)
    requires val < scale && digit < 128
    ensures val + digit * scale < 128 * scale
  {
    assert digit * scale <= 127 * scale;
  }

  /** The next seven bits, gathered above `shift`. */
  lemma NextSeven(b: Bytes, i: nat, val: nat, shift: nat)
    requires i < |b| && val < Pow2(shift)
    ensures var more := val + b[i] % 128 * Pow2(shift);
            && more < Pow2(shift + 7)
            && Complete(val, Pow2(shift), Read(b, i))
               == if b[i] < 128 then Some((more, i + 1)) else Complete(more, Pow2(shift + 7), Read(b, i + 1))
  {
    Pow2Seven(shift);
    ReadStep(b, i, val, Pow2(shift), b[i] % 128);
    BelowNext(val, b[i] % 128, Pow2(shift));
  }

  /** The bits gathered so far lie below `shift`, so or-ing the next seven in is adding them. */
  method ReadVarint(b: Bytes, start: nat) returns (r: Option<(nat, nat)>)
    ensures r == Read(b, start)
  {
    var i, shift, val := start, 0, 0;
    while i < |b|
      invariant start <= i && 0 <= val < Pow2(shift)
      invariant Read(b, start) == Complete(val, Pow2(shift), Read(b, i))
    {
      var byte := b[i];
      var digit := byte % 128;
      NextSeven(b, i, val, shift);
      i := i + 1;
      val := val + digit * Pow2(shift);
      if byte < 128 {
        return Some((val, i));
      }
      shift := shift + 7;
    }
    return None;
  }

  /** A negative number is refused: shifting it right never reaches 0. */
  method WriteVarint(value: int) returns (r: Option<Bytes>)
    ensures r == if value < 0 then None else Some(Write(value))
  {
    if value < 0 {
      return None;
    }
    var n: nat := value;
    var out: Bytes := [];
    while n >= 128
      invariant out + Write(n) == Write(value)
    {
      out := out + [n % 128 + 128];
      n := n / 128;
    }
    return Some(out + [n]);
  }

  /** A written varint is read back at any offset, before anything, with its exact end. */
  lemma {:induction false} VarintRoundTrip(pre: Bytes, n: nat, post: Bytes)
    ensures Read(pre + Write(n) + post, |pre|) == Some((n, |pre| + |Write(n)|))
    decreases n
  {
    var all := pre + Write(n) + post;
    if n >= 128 {
      var head: Bytes := [n % 128 + 128];
      VarintRoundTrip(pre + head, n / 128, post);
      assert all == (pre + head) + Write(n / 128) + post;
      assert all[|pre|] == head[0];
    }
  }

  /** A cut varint is no varint. */
  lemma {:induction false} VarintCut(pre: Bytes, n: nat, k: nat)
    requires k < |Write(n)|
    ensures Read(pre + Write(n)[..k], |pre|) == None
    decreases n
  {
    if k > 0 {
      var head: Bytes := [n % 128 + 128];
      VarintCut(pre + head, n / 128, k - 1);
      assert pre + Write(n)[..k] == (pre + head) + Write(n / 128)[..k - 1];
    }
  }

  /** The written form is the shortest that reads as the number, and a form that reads as it
      is the written one exactly when it does not end in a padding zero. */
  lemma {:induction false} WrittenIsMinimal(b: Bytes, i: nat)
    requires Read(b, i).Some?
    ensures var (n, j) := Read(b, i).value;
            && |Write(n)| <= j - i
            && (b[i..j] == Write(n) <==> j == i + 1 || b[j - 1] != 0)
    decreases |b| - i
  {
    var (n, j) := Read(b, i).value;
    if b[i] >= 128 {
      WrittenIsMinimal(b, i + 1);
      var v := Read(b, i + 1).value.0;
      assert n == b[i] - 128 + 128 * v;
      assert b[i..j] == [b[i]] + b[i + 1..j];
      if n >= 128 {
        assert n / 128 == v && n % 128 == b[i] - 128;
        assert Write(n) == [b[i]] + Write(v);
        TailsEqual(b[i], b[i + 1..j], Write(v));
        if j == i + 2 {
          assert b[i + 1..j] == [b[i + 1]];
          assert v == b[i + 1];
        }
      } else {
        assert v == 0;
        ZeroIsPadding(b, i + 1);
      }
    }
  }

  lemma TailsEqual(x: Byte, a: Bytes, b: Bytes)
    ensures [x] + a == [x] + b <==> a == b
  {
    if [x] + a == [x] + b {
      assert ([x] + a)[1..] == ([x] + b)[1..];
      assert ([x] + a)[1..] == a && ([x] + b)[1..] == b;
    }
  }

  lemma {:induction false} ZeroIsPadding(b: Bytes, i: nat)
    requires Read(b, i).Some? && Read(b, i).value.0 == 0
    ensures b[Read(b, i).value.1 - 1] == 0
    decreases |b| - i
  {
    if b[i] >= 128 {
      ZeroIsPadding(b, i + 1);
    }
  }

  // ----- fields ------------------------------------------------------------------------------

  type Four = b: Bytes | |b| == 4 witness [0, 0, 0, 0]
  type Eight = b: Bytes | |b| == 8 witness [0, 0, 0, 0, 0, 0, 0, 0]

  /** `Fixed32` holds a packed little-endian float; nothing here writes `Fixed64`. */
  datatype Field =
    | Varint(num: nat, value: nat)
    | Fixed64(num: nat, eight: Eight)
    | Chunk(num: nat, data: Bytes)
    | Fixed32(num: nat, four: Four)

  function WireType(f: Field): nat {
    match f
    case Varint(_, _) => 0
    case Fixed64(_, _) => 1
    case Chunk(_, _) => 2
    case Fixed32(_, _) => 5
  }

  function Tag(f: Field): Bytes {
    Write(f.num * 8 + WireType(f))
  }

  /** What follows the tag: how it is announced, and the payload. */
  function Announce(f: Field): Bytes {
    match f
    case Varint(_, v) => Write(v)
    case Chunk(_, d) => Write(|d|)
    case _ => []
  }

  function Payload(f: Field): Bytes {
    match f
    case Varint(_, _) => []
    case Fixed64(_, d) => d
    case Chunk(_, d) => d
    case Fixed32(_, d) => d
  }

  function Header(f: Field): Bytes {
    Tag(f) + Announce(f)
  }

  function Put(f: Field): Bytes {
    Header(f) + Payload(f)
  }

  function PutEach(put: Field -> Bytes, fields: seq<Field>): Bytes {
    if fields == [] then [] else PutEach(put, fields[..|fields| - 1]) + put(fields[|fields| - 1])
  }

  function PutAll(fields: seq<Field>): Bytes {
    PutEach(Put, fields)
  }

  // ----- the reader ----------------------------------------------------------------------------

  datatype Request = Request(vad: nat, audio: Bytes, uuid: string)

  const EMPTY := Request(0, [], "")

  /** Python's slice, clipped at the end of the data. */
  function Slice(b: Bytes, i: nat, n: nat): Bytes {
    if i >= |b| then [] else if i + n >= |b| then b[i..] else b[i..i + n]
  }

  function WithChunk(utf8: Bytes -> string, out: Request, num: nat, chunk: Bytes): Request {
    if num == 3 then out.(audio := chunk)
    else if num == 4 then out.(uuid := utf8(chunk))
    else out
  }

  function WithVarint(out: Request, num: nat, v: nat): Request {
    if num == 2 then out.(vad := v) else out
  }

  /** One field read at `i`: where the next starts, which may lie beyond the data, and what
      was learned. */
  function ReadField(utf8: Bytes -> string, b: Bytes, i: nat, out: Request): (r: Option<(nat, Request)>)
    ensures r.Some? ==> r.value.0 > i
  {
    match Read(b, i)
    case None => None
    case Some((tag, j)) =>
      var num, wt := tag / 8, tag % 8;
      if wt == 0 then
        match Read(b, j)
        case None => None
        case Some((v, k)) => Some((k, WithVarint(out, num, v)))
      else if wt == 2 then
        match Read(b, j)
        case None => None
        case Some((n, k)) => Some((k + n, WithChunk(utf8, out, num, Slice(b, k, n))))
      else if wt == 1 then Some((j + 8, out))
      else if wt == 5 then Some((j + 4, out))
      else None
  }

  function ReadAll(utf8: Bytes -> string, b: Bytes, i: nat, out: Request): Option<Request>
    decreases if i < |b| then |b| - i else 0
  {
    if i >= |b| then Some(out)
    else
      match ReadField(utf8, b, i, out)
      case None => None
      case Some((j, next)) => ReadAll(utf8, b, j, next)
  }

  const COLON: Byte := 58

  function FirstColon(b: Bytes): (r: Option<nat>)
    ensures r.Some? ==> r.value < |b| && b[r.value] == COLON && forall k :: 0 <= k < r.value ==> b[k] != COLON
    ensures r.None? ==> COLON !in b
  {
    if b == [] then None
    else if b[0] == COLON then Some(0)
    else
      match FirstColon(b[1..])
      case None => None
      case Some(k) => Some(k + 1)
  }

  /** The bytes of `zmqSTTRequest`. */
  const REQUEST_NAME: Bytes := [122, 109, 113, 83, 84, 84, 82, 101, 113, 117, 101, 115, 116]

  predicate EndsWith(b: Bytes, tail: Bytes) {
    |b| >= |tail| && b[|b| - |tail|..] == tail
  }

  function DecodeFrame(utf8: Bytes -> string, payload: Bytes): Option<Request> {
    match FirstColon(payload)
    case None => None
    case Some(sep) =>
      if EndsWith(payload[..sep], REQUEST_NAME) then ReadAll(utf8, payload[sep + 1..], 0, EMPTY) else None
  }

  /** Reads any bytes at all, and stops. */
  method DecodeZmqSttFrame(utf8: Bytes -> string, payload: Bytes) returns (r: Option<Request>)
    ensures r == DecodeFrame(utf8, payload)
  {
    var sep := FirstColon(payload);
    if sep.None? || !EndsWith(payload[..sep.value], REQUEST_NAME) {
      return None;
    }
    var data := payload[sep.value + 1..];
    var out := EMPTY;
    var i: nat := 0;
    while i < |data|
      invariant ReadAll(utf8, data, i, out) == ReadAll(utf8, data, 0, EMPTY)
    {
      var field := TakeField(utf8, data, i, out);
      if field.None? {
        return None;
      }
      i, out := field.value.0, field.value.1;
    }
    return Some(out);
  }

  /** One field: its tag, and what its wire type says comes next. */
  method TakeField(utf8: Bytes -> string, data: Bytes, i: nat, out: Request) returns (r: Option<(nat, Request)>)
    ensures r == ReadField(utf8, data, i, out)
  {
    var tag := ReadVarint(data, i);
    if tag.None? {
      return None;
    }
    var num, wt := tag.value.0 / 8, tag.value.0 % 8;
    if wt == 0 || wt == 2 {
      var v := ReadVarint(data, tag.value.1);
      if v.None? {
        return None;
      }
      if wt == 0 {
        return Some((v.value.1, WithVarint(out, num, v.value.0)));
      }
      return Some((v.value.1 + v.value.0, WithChunk(utf8, out, num, Slice(data, v.value.1, v.value.0))));
    }
    if wt == 1 {
      return Some((tag.value.1 + 8, out));
    }
    if wt == 5 {
      return Some((tag.value.1 + 4, out));
    }
    return None;
  }

  // ----- last one wins -------------------------------------------------------------------------

  /** The value of the last varint field with this number. */
  function LastVarint(fields: seq<Field>, num: nat): Option<nat> {
    if fields == [] then None
    else
      var f := fields[|fields| - 1];
      if f.Varint? && f.num == num then Some(f.value) else LastVarint(fields[..|fields| - 1], num)
  }

  function LastChunk(fields: seq<Field>, num: nat): Option<Bytes> {
    if fields == [] then None
    else
      var f := fields[|fields| - 1];
      if f.Chunk? && f.num == num then Some(f.data) else LastChunk(fields[..|fields| - 1], num)
  }

  /** What a message says about a request: its last fields 2, 3 and 4 of the right kind. */
  function Meaning(utf8: Bytes -> string, fields: seq<Field>): Request {
    Request(
      match LastVarint(fields, 2) case None => 0 case Some(v) => v,
      match LastChunk(fields, 3) case None => [] case Some(d) => d,
      match LastChunk(fields, 4) case None => "" case Some(d) => utf8(d))
  }

  lemma MeaningSnoc(utf8: Bytes -> string, fields: seq<Field>, f: Field)
    ensures Meaning(utf8, fields + [f]) == Learned(utf8, Meaning(utf8, fields), f, Payload(f))
  {
    assert (fields + [f])[..|fields|] == fields;
  }

  lemma ReadTag(pre: Bytes, f: Field, rest: Bytes)
    ensures Read(pre + Tag(f) + rest, |pre|) == Some((f.num * 8 + WireType(f), |pre| + |Tag(f)|))
  {
    VarintRoundTrip(pre, f.num * 8 + WireType(f), rest);
  }

  lemma ReadAnnounced(pre: Bytes, tag: Bytes, n: nat, body: Bytes)
    ensures Read(pre + (tag + Write(n)) + body, |pre| + |tag|) == Some((n, |pre| + |tag| + |Write(n)|))
  {
    VarintRoundTrip(pre + tag, n, body);
    assert pre + (tag + Write(n)) + body == (pre + tag) + Write(n) + body;
  }

  /** What reading a field with a whole header learns, whatever part of the payload is there. */
  function Learned(utf8: Bytes -> string, out: Request, f: Field, there: Bytes): Request {
    match f
    case Varint(num, v) => WithVarint(out, num, v)
    case Chunk(num, _) => WithChunk(utf8, out, num, there)
    case _ => out
  }

  function Clip(b: Bytes, n: nat): Bytes {
    if n >= |b| then b else b[..n]
  }

  lemma TagRead(pre: Bytes, f: Field, body: Bytes)
    ensures Read(pre + Header(f) + body, |pre|) == Some((f.num * 8 + WireType(f), |pre| + |Tag(f)|))
  {
    ReadTag(pre, f, Announce(f) + body);
    assert pre + Header(f) + body == pre + Tag(f) + (Announce(f) + body);
  }

  lemma TagParts(num: nat, wt: nat)
    requires wt < 8
    ensures (num * 8 + wt) / 8 == num && (num * 8 + wt) % 8 == wt
  {
  }

  /** The last step of reading a chunk. */
  lemma ChunkRead(utf8: Bytes -> string, b: Bytes, i: nat, out: Request, num: nat, j: nat, n: nat, k: nat)
    requires Read(b, i) == Some((num * 8 + 2, j)) && Read(b, j) == Some((n, k))
    ensures ReadField(utf8, b, i, out) == Some((k + n, WithChunk(utf8, out, num, Slice(b, k, n))))
  {
    TagParts(num, 2);
  }

  /** A whole header is understood whatever follows it. */
  ghost predicate Understood(utf8: Bytes -> string, pre: Bytes, f: Field, body: Bytes, out: Request) {
    ReadField(utf8, pre + Header(f) + body, |pre|, out)
    == Some((|pre| + |Header(f)| + |Payload(f)|, Learned(utf8, out, f, Clip(body, |Payload(f)|))))
  }

  lemma ChunkAnnounced(pre: Bytes, f: Field, body: Bytes)
    requires f.Chunk?
    ensures Read(pre + Header(f) + body, |pre| + |Tag(f)|) == Some((|f.data|, |pre| + |Header(f)|))
  {
    ReadAnnounced(pre, Tag(f), |f.data|, body);
  }

  lemma ReadChunk(utf8: Bytes -> string, pre: Bytes, f: Field, body: Bytes, out: Request)
    requires f.Chunk?
    ensures Understood(utf8, pre, f, body, out)
  {
    TagRead(pre, f, body);
    ChunkAnnounced(pre, f, body);
    ChunkLearned(utf8, pre + Header(f) + body, |pre|, |pre| + |Tag(f)|, |pre| + |Header(f)|, f, body, out);
  }

  lemma ChunkLearned(utf8: Bytes -> string, b: Bytes, i: nat, j: nat, k: nat, f: Field, body: Bytes, out: Request)
    requires f.Chunk? && k <= |b| && body == b[k..]
    requires Read(b, i) == Some((f.num * 8 + 2, j)) && Read(b, j) == Some((|f.data|, k))
    ensures ReadField(utf8, b, i, out) == Some((k + |f.data|, Learned(utf8, out, f, Clip(body, |f.data|))))
  {
    ChunkRead(utf8, b, i, out, f.num, j, |f.data|, k);
    SliceIsClip(b, k, |f.data|);
  }

  lemma SliceIsClip(b: Bytes, k: nat, n: nat)
    requires k <= |b|
    ensures Slice(b, k, n) == Clip(b[k..], n)
  {
  }

  lemma ReadNumber(utf8: Bytes -> string, pre: Bytes, f: Field, body: Bytes, out: Request)
    requires f.Varint?
    ensures Understood(utf8, pre, f, body, out)
  {
    TagRead(pre, f, body);
    TagParts(f.num, 0);
    ReadAnnounced(pre, Tag(f), f.value, body);
  }

  lemma ReadFixed(utf8: Bytes -> string, pre: Bytes, f: Field, body: Bytes, out: Request)
    requires f.Fixed32? || f.Fixed64?
    ensures Understood(utf8, pre, f, body, out)
  {
    TagRead(pre, f, body);
    TagParts(f.num, WireType(f));
  }

  lemma ReadPut(utf8: Bytes -> string, pre: Bytes, f: Field, body: Bytes, out: Request)
    ensures Understood(utf8, pre, f, body, out)
  {
    match f
    case Varint(_, _) => ReadNumber(utf8, pre, f, body, out);
    case Chunk(_, _) => ReadChunk(utf8, pre, f, body, out);
    case _ => ReadFixed(utf8, pre, f, body, out);
  }

  /** Reading a whole message and then the rest is reading the rest, knowing the message. */
  ghost predicate ReadsThrough(utf8: Bytes -> string, fields: seq<Field>, rest: Bytes) {
    ReadAll(utf8, PutAll(fields) + rest, 0, EMPTY)
    == ReadAll(utf8, PutAll(fields) + rest, |PutAll(fields)|, Meaning(utf8, fields))
  }

  lemma ReadsNothing(utf8: Bytes -> string, rest: Bytes)
    ensures ReadsThrough(utf8, [], rest)
  {
    assert Meaning(utf8, []) == EMPTY;
    assert PutAll([]) == [];
  }

  lemma {:induction false} ReadPrefix(utf8: Bytes -> string, fields: seq<Field>, rest: Bytes)
    ensures ReadsThrough(utf8, fields, rest)
    decreases |fields|
  {
    if |fields| == 0 {
      ReadsNothing(utf8, rest);
    } else {
      var front, f := fields[..|fields| - 1], fields[|fields| - 1];
      assert fields == front + [f];
      ReadPrefix(utf8, front, Put(f) + rest);
      ReadOneMore(utf8, front, f, rest);
    }
  }

  lemma PutAllSnoc(front: seq<Field>, f: Field)
    ensures PutAll(front + [f]) == PutAll(front) + Put(f)
  {
    var put: Field -> Bytes := Put;
    assert (front + [f])[..|front|] == front;
    assert PutEach(put, front + [f]) == PutEach(put, front) + put(f);
  }

  lemma ReadOneMore(utf8: Bytes -> string, front: seq<Field>, f: Field, rest: Bytes)
    requires ReadsThrough(utf8, front, Put(f) + rest)
    ensures ReadsThrough(utf8, front + [f], rest)
  {
    Assoc(PutAll(front), Put(f), rest);
    PutAllSnoc(front, f);
    ReadOver(utf8, PutAll(front), f, rest, Meaning(utf8, front));
    MeaningSnoc(utf8, front, f);
  }

  lemma ReadAllStep(utf8: Bytes -> string, b: Bytes, i: nat, out: Request, j: nat, next: Request)
    requires i < |b| && ReadField(utf8, b, i, out) == Some((j, next))
    ensures ReadAll(utf8, b, i, out) == ReadAll(utf8, b, j, next)
  {
  }

  lemma PutParts(pre: Bytes, f: Field, rest: Bytes)
    ensures pre + Put(f) + rest == pre + Header(f) + (Payload(f) + rest)
    ensures Clip(Payload(f) + rest, |Payload(f)|) == Payload(f)
    ensures |pre| < |pre + Put(f)| == |pre| + |Header(f)| + |Payload(f)|
  {
    FourParts(pre, Header(f), Payload(f), rest);
  }

  lemma FourParts(a: Bytes, b: Bytes, c: Bytes, d: Bytes)
    ensures a + (b + c) + d == a + b + (c + d) && (c + d)[..|c|] == c
  {
  }

  /** Reading never looks past the field it reads. */
  lemma ReadOver(utf8: Bytes -> string, pre: Bytes, f: Field, rest: Bytes, out: Request)
    ensures ReadAll(utf8, pre + Put(f) + rest, |pre|, out)
         == ReadAll(utf8, pre + Put(f) + rest, |pre + Put(f)|, Learned(utf8, out, f, Payload(f)))
  {
    PutParts(pre, f, rest);
    ReadPut(utf8, pre, f, Payload(f) + rest, out);
    ReadAllStep(utf8, pre + Put(f) + rest, |pre|, out, |pre + Put(f)|, Learned(utf8, out, f, Payload(f)));
  }

  // ----- the theorems ---------------------------------------------------------------------------

  lemma {:induction false} FirstColonAfter(name: Bytes, body: Bytes)
    requires COLON !in name
    ensures FirstColon(name + [COLON] + body) == Some(|name|)
  {
    var all := name + [COLON] + body;
    if name != [] {
      assert all[0] == name[0];
      assert all[1..] == name[1..] + [COLON] + body;
      FirstColonAfter(name[1..], body);
    }
  }

  lemma FrameBody(utf8: Bytes -> string, name: Bytes, body: Bytes)
    requires COLON !in name
    ensures DecodeFrame(utf8, name + [COLON] + body)
         == if EndsWith(name, REQUEST_NAME) then ReadAll(utf8, body, 0, EMPTY) else None
  {
    var all := name + [COLON] + body;
    FirstColonAfter(name, body);
    assert all[..|name|] == name && all[|name| + 1..] == body;
  }

  /** A topic that ends in the request's name. */
  ghost predicate NamesRequest(name: Bytes) {
    exists pre: Bytes :: name == pre + REQUEST_NAME
  }

  lemma NamesRequestIs(name: Bytes)
    ensures NamesRequest(name) <==> EndsWith(name, REQUEST_NAME)
  {
    if EndsWith(name, REQUEST_NAME) {
      assert name == name[..|name| - |REQUEST_NAME|] + REQUEST_NAME;
    }
  }

  /** A request frame built from any fields of any kind is read as the last value of fields 2,
      3 and 4, whatever else it carries; another message's frame is not read at all. */
  lemma FrameRoundTrip(utf8: Bytes -> string, name: Bytes, fields: seq<Field>)
    requires COLON !in name
    ensures DecodeFrame(utf8, name + [COLON] + PutAll(fields))
         == if NamesRequest(name) then Some(Meaning(utf8, fields)) else None
  {
    FrameBody(utf8, name, PutAll(fields));
    NamesRequestIs(name);
    ReadPrefix(utf8, fields, []);
    assert PutAll(fields) + [] == PutAll(fields);
  }

  lemma TagCut(pre: Bytes, f: Field, k: nat)
    requires k < |Tag(f)|
    ensures Read(pre + Tag(f)[..k], |pre|) == None
  {
    VarintCut(pre, f.num * 8 + WireType(f), k);
  }

  lemma LengthCut(pre: Bytes, tag: Bytes, n: nat, k: nat)
    requires k < |Write(n)|
    ensures Read(pre + tag + Write(n)[..k], |pre| + |tag|) == None
  {
    VarintCut(pre + tag, n, k);
  }

  /** A whole tag and then nothing readable. */
  lemma TagThenNone(utf8: Bytes -> string, pre: Bytes, f: Field, more: Bytes, out: Request)
    requires f.Varint? || f.Chunk?
    requires Read(pre + Tag(f) + more, |pre| + |Tag(f)|) == None
    ensures ReadField(utf8, pre + Tag(f) + more, |pre|, out) == None
  {
    ReadTag(pre, f, more);
    TagParts(f.num, WireType(f));
  }

  lemma AnnounceCutStops(utf8: Bytes -> string, pre: Bytes, f: Field, k: nat, out: Request)
    requires k < |Announce(f)|
    ensures ReadField(utf8, pre + Tag(f) + Announce(f)[..k], |pre|, out) == None
  {
    match f
    case Varint(_, v) =>
      LengthCut(pre, Tag(f), v, k);
      TagThenNone(utf8, pre, f, Write(v)[..k], out);
    case Chunk(_, d) =>
      LengthCut(pre, Tag(f), |d|, k);
      TagThenNone(utf8, pre, f, Write(|d|)[..k], out);
  }

  /** Where a cut header breaks off. */
  lemma CutParts(f: Field, k: nat)
    requires k < |Header(f)|
    ensures Put(f)[..k] == if k < |Tag(f)| then Tag(f)[..k] else Tag(f) + Announce(f)[..k - |Tag(f)|]
  {
  }

  lemma HeaderCut(utf8: Bytes -> string, pre: Bytes, f: Field, k: nat, out: Request)
    requires k < |Header(f)|
    ensures ReadField(utf8, pre + Put(f)[..k], |pre|, out) == None
  {
    CutParts(f, k);
    if k < |Tag(f)| {
      TagCut(pre, f, k);
    } else {
      Assoc(pre, Tag(f), Announce(f)[..k - |Tag(f)|]);
      AnnounceCutStops(utf8, pre, f, k - |Tag(f)|, out);
    }
  }

  lemma PayloadParts(pre: Bytes, f: Field, k: nat)
    requires |Header(f)| <= k <= |Put(f)|
    ensures pre + Put(f)[..k] == pre + Header(f) + Payload(f)[..k - |Header(f)|]
  {
  }

  /** Reading past the end is the end. */
  lemma ReadBeyond(utf8: Bytes -> string, b: Bytes, i: nat, out: Request, j: nat, next: Request)
    requires i < |b| <= j && ReadField(utf8, b, i, out) == Some((j, next))
    ensures ReadAll(utf8, b, i, out) == Some(next)
  {
  }

  lemma HeaderIsSome(f: Field)
    ensures Header(f) != []
  {
  }

  /** A field whose header is whole and whose payload ends the bytes. */
  lemma PartRead(utf8: Bytes -> string, b: Bytes, i: nat, out: Request, f: Field, head: nat, there: Bytes)
    requires 0 < head && |b| == i + head + |there| && |there| <= |Payload(f)|
    requires ReadField(utf8, b, i, out)
          == Some((i + head + |Payload(f)|, Learned(utf8, out, f, Clip(there, |Payload(f)|))))
    ensures ReadAll(utf8, b, i, out) == Some(Learned(utf8, out, f, there))
  {
    ReadBeyond(utf8, b, i, out, i + head + |Payload(f)|, Learned(utf8, out, f, there));
  }

  lemma PartField(utf8: Bytes -> string, pre: Bytes, f: Field, there: Bytes, out: Request, b: Bytes, head: nat)
    requires b == pre + Header(f) + there && head == |Header(f)|
    ensures ReadField(utf8, b, |pre|, out)
         == Some((|pre| + head + |Payload(f)|, Learned(utf8, out, f, Clip(there, |Payload(f)|))))
    ensures 0 < head && |b| == |pre| + head + |there|
  {
    HeaderIsSome(f);
    ReadPut(utf8, pre, f, there, out);
  }

  lemma PartOfField(utf8: Bytes -> string, pre: Bytes, f: Field, there: Bytes, out: Request, b: Bytes, head: nat)
    requires |there| <= |Payload(f)| && b == pre + Header(f) + there && head == |Header(f)|
    ensures ReadAll(utf8, b, |pre|, out) == Some(Learned(utf8, out, f, there))
  {
    PartField(utf8, pre, f, there, out, b, head);
    PartRead(utf8, b, |pre|, out, f, head, there);
  }

  lemma PayloadCut(utf8: Bytes -> string, pre: Bytes, f: Field, k: nat, out: Request)
    requires |Header(f)| <= k <= |Put(f)|
    ensures ReadAll(utf8, pre + Put(f)[..k], |pre|, out)
         == Some(Learned(utf8, out, f, Payload(f)[..k - |Header(f)|]))
  {
    PayloadParts(pre, f, k);
    PartOfField(utf8, pre, f, Payload(f)[..k - |Header(f)|], out, pre + Put(f)[..k], |Header(f)|);
  }

  /** A message cut inside its last field is refused exactly when the cut falls in a varint;
      a cut payload is taken as it is, shorter than its announced length. */
  lemma CutMessage(utf8: Bytes -> string, fields: seq<Field>, f: Field, k: nat)
    requires 0 < k <= |Put(f)|
    ensures ReadAll(utf8, PutAll(fields) + Put(f)[..k], 0, EMPTY)
         == if k < |Header(f)| then None
            else Some(Learned(utf8, Meaning(utf8, fields), f, Payload(f)[..k - |Header(f)|]))
  {
    ReadPrefix(utf8, fields, Put(f)[..k]);
    if k < |Header(f)| {
      HeaderCut(utf8, PutAll(fields), f, k, Meaning(utf8, fields));
    } else {
      PayloadCut(utf8, PutAll(fields), f, k, Meaning(utf8, fields));
    }
  }

  // ----- what is written can be read in one way only -------------------------------------------

  lemma SameRead(n: nat, m: nat, a: Bytes, b: Bytes)
    requires Write(n) + a == Write(m) + b
    ensures n == m && a == b
  {
    VarintRoundTrip([], n, a);
    VarintRoundTrip([], m, b);
    assert [] + Write(n) + a == Write(n) + a && [] + Write(m) + b == Write(m) + b;
    assert a == (Write(n) + a)[|Write(n)|..];
    assert b == (Write(m) + b)[|Write(m)|..];
  }

  lemma SamePayload(x: Bytes, y: Bytes, a: Bytes, b: Bytes)
    requires |x| == |y| && x + a == y + b
    ensures x == y && a == b
  {
    assert x == (x + a)[..|x|] && y == (y + b)[..|y|];
    assert a == (x + a)[|x|..] && b == (y + b)[|y|..];
  }

  lemma PutSplits(f: Field, a: Bytes)
    ensures Put(f) + a == Tag(f) + (Announce(f) + (Payload(f) + a))
  {
  }

  lemma SameField(f: Field, g: Field, a: Bytes, b: Bytes)
    requires Put(f) + a == Put(g) + b
    ensures f == g && a == b
  {
    PutSplits(f, a);
    PutSplits(g, b);
    SameRead(f.num * 8 + WireType(f), g.num * 8 + WireType(g),
             Announce(f) + (Payload(f) + a), Announce(g) + (Payload(g) + b));
    SameKind(f, g);
    SameBody(f, g, a, b);
  }

  lemma SameKind(f: Field, g: Field)
    requires f.num * 8 + WireType(f) == g.num * 8 + WireType(g)
    ensures f.num == g.num && WireType(f) == WireType(g)
  {
  }

  lemma SameBody(f: Field, g: Field, a: Bytes, b: Bytes)
    requires f.num == g.num && WireType(f) == WireType(g)
    requires Announce(f) + (Payload(f) + a) == Announce(g) + (Payload(g) + b)
    ensures f == g && a == b
  {
    if f.Varint? {
      SameRead(f.value, g.value, [] + a, [] + b);
      assert [] + a == a && [] + b == b;
    } else if f.Chunk? {
      SameRead(|f.data|, |g.data|, f.data + a, g.data + b);
      SamePayload(f.data, g.data, a, b);
    } else {
      SameFixed(f, g, a, b);
    }
  }

  lemma SameFixed(f: Field, g: Field, a: Bytes, b: Bytes)
    requires f.num == g.num && WireType(f) == WireType(g) && (f.Fixed32? || f.Fixed64?)
    requires Announce(f) + (Payload(f) + a) == Announce(g) + (Payload(g) + b)
    ensures f == g && a == b
  {
    var x, y := Payload(f) + a, Payload(g) + b;
    assert [] + x == x && [] + y == y;
    SamePayload(Payload(f), Payload(g), a, b);
  }

  lemma {:induction false} PutEachConcat(put: Field -> Bytes, a: seq<Field>, b: seq<Field>)
    ensures PutEach(put, a + b) == PutEach(put, a) + PutEach(put, b)
    decreases |b|
  {
    if b == [] {
      assert a + b == a;
    } else {
      var front, last := b[..|b| - 1], b[|b| - 1];
      PutEachConcat(put, a, front);
      assert (a + b)[..|a + b| - 1] == a + front;
      Assoc(PutEach(put, a), PutEach(put, front), put(last));
    }
  }

  lemma PutEachFront(put: Field -> Bytes, fields: seq<Field>)
    requires fields != []
    ensures PutEach(put, fields) == put(fields[0]) + PutEach(put, fields[1..])
  {
    PutEachConcat(put, [fields[0]], fields[1..]);
    assert fields == [fields[0]] + fields[1..];
    assert [fields[0]][..0] == [];
  }

  /** Two messages with the same bytes have the same fields in the same order. */
  lemma {:induction false} MessagesDiffer(fields: seq<Field>, others: seq<Field>)
    requires PutAll(fields) == PutAll(others)
    ensures fields == others
    decreases |fields|
  {
    if fields == [] || others == [] {
      NoBytesNoFields(fields);
      NoBytesNoFields(others);
    } else {
      FrontsAgree(fields, others);
      MessagesDiffer(fields[1..], others[1..]);
      assert fields == [fields[0]] + fields[1..] && others == [others[0]] + others[1..];
    }
  }

  lemma NoBytesNoFields(fields: seq<Field>)
    ensures PutAll(fields) == [] <==> fields == []
  {
  }

  lemma FrontsAgree(fields: seq<Field>, others: seq<Field>)
    requires fields != [] && others != [] && PutAll(fields) == PutAll(others)
    ensures fields[0] == others[0] && PutAll(fields[1..]) == PutAll(others[1..])
  {
    PutEachFront(Put, fields);
    PutEachFront(Put, others);
    SameField(fields[0], others[0], PutAll(fields[1..]), PutAll(others[1..]));
  }

  // ----- the answer ------------------------------------------------------------------------------

  /** One transcript on its way back; `error` is empty on success. */
  datatype Response = Response(uuid: Bytes, speech: Bytes, final: bool, confidence: Four,
                               timestamp: nat, errorCode: nat, errorMessage: Bytes)

  function ResponseFields(r: Response): seq<Field> {
    [Varint(1, r.timestamp), Varint(2, if r.final then 1 else 0), Chunk(3, r.speech),
     Fixed32(4, r.confidence), Chunk(7, r.uuid)]
    + (if r.errorCode != 0 then [Varint(8, r.errorCode)] else [])
    + (if r.errorMessage != [] then [Chunk(9, r.errorMessage)] else [])
  }

  method EncodeResponse(name: Bytes, r: Response) returns (frame: Bytes)
    ensures frame == name + [COLON] + PutAll(ResponseFields(r))
  {
    var fields := [Varint(1, r.timestamp), Varint(2, if r.final then 1 else 0), Chunk(3, r.speech),
                   Fixed32(4, r.confidence), Chunk(7, r.uuid)];
    if r.errorCode != 0 {
      fields := fields + [Varint(8, r.errorCode)];
    }
    if r.errorMessage != [] {
      fields := fields + [Chunk(9, r.errorMessage)];
    }
    assert fields == ResponseFields(r);
    frame := name + [COLON] + PutAll(fields);
  }

  /** The last field of a number, as a reader keeps it. */
  function Last(fields: seq<Field>, num: nat): Option<Field> {
    if fields == [] then None
    else if fields[|fields| - 1].num == num then Some(fields[|fields| - 1])
    else Last(fields[..|fields| - 1], num)
  }

  function NumberAt(fields: seq<Field>, num: nat): nat {
    match Last(fields, num)
    case Some(Varint(_, value)) => value
    case _ => 0
  }

  function BytesAt(fields: seq<Field>, num: nat): Bytes {
    match Last(fields, num)
    case Some(Chunk(_, data)) => data
    case _ => []
  }

  function FloatAt(fields: seq<Field>, num: nat): Four {
    match Last(fields, num)
    case Some(Fixed32(_, bits)) => bits
    case _ => [0, 0, 0, 0]
  }

  /** The answer as the robot reads a message's fields; a field that is absent has its
      default. */
  function AnswerOf(fields: seq<Field>): Response {
    Response(BytesAt(fields, 7), BytesAt(fields, 3), NumberAt(fields, 2) == 1, FloatAt(fields, 4),
             NumberAt(fields, 1), NumberAt(fields, 8), BytesAt(fields, 9))
  }

  lemma LastOfMore(fields: seq<Field>, f: Field, num: nat)
    ensures Last(fields + [f], num) == if f.num == num then Some(f) else Last(fields, num)
  {
    assert (fields + [f])[..|fields|] == fields;
  }

  lemma BaseFields(t: Field, k: Field, s: Field, c: Field, u: Field, num: nat)
    requires t.num == 1 && k.num == 2 && s.num == 3 && c.num == 4 && u.num == 7
    ensures Last([t, k, s, c, u], num)
         == if num == 1 then Some(t) else if num == 2 then Some(k) else if num == 3 then Some(s)
            else if num == 4 then Some(c) else if num == 7 then Some(u) else None
  {
    LastOfMore([], t, num);
    LastOfMore([t], k, num);
    LastOfMore([t, k], s, num);
    LastOfMore([t, k, s], c, num);
    LastOfMore([t, k, s, c], u, num);
    assert [] + [t] == [t] && [t] + [k] == [t, k] && [t, k] + [s] == [t, k, s];
    assert [t, k, s] + [c] == [t, k, s, c] && [t, k, s, c] + [u] == [t, k, s, c, u];
  }

  lemma ResponseFieldAt(r: Response, num: nat)
    ensures Last(ResponseFields(r), num)
         == if num == 1 then Some(Varint(1, r.timestamp))
            else if num == 2 then Some(Varint(2, if r.final then 1 else 0))
            else if num == 3 then Some(Chunk(3, r.speech))
            else if num == 4 then Some(Fixed32(4, r.confidence))
            else if num == 7 then Some(Chunk(7, r.uuid))
            else if num == 8 && r.errorCode != 0 then Some(Varint(8, r.errorCode))
            else if num == 9 && r.errorMessage != [] then Some(Chunk(9, r.errorMessage))
            else None
  {
    var t, k, s := Varint(1, r.timestamp), Varint(2, if r.final then 1 else 0), Chunk(3, r.speech);
    var c, u := Fixed32(4, r.confidence), Chunk(7, r.uuid);
    var base := [t, k, s, c, u];
    BaseFields(t, k, s, c, u, num);
    var code := if r.errorCode != 0 then [Varint(8, r.errorCode)] else [];
    var words := if r.errorMessage != [] then [Chunk(9, r.errorMessage)] else [];
    assert base + [] == base && base + code + [] == base + code;
    if r.errorCode != 0 {
      LastOfMore(base, Varint(8, r.errorCode), num);
    }
    if r.errorMessage != [] {
      LastOfMore(base + code, Chunk(9, r.errorMessage), num);
    }
  }

  /** A robot that reads the message's bytes as fields, whichever way, gets the answer back;
      an error field is in the message exactly when it is set. */
  lemma ResponseReadBack(r: Response, fields: seq<Field>)
    requires PutAll(fields) == PutAll(ResponseFields(r))
    ensures AnswerOf(fields) == r
    ensures (Last(fields, 8).Some? <==> r.errorCode != 0) && (Last(fields, 9).Some? <==> r.errorMessage != [])
  {
    MessagesDiffer(fields, ResponseFields(r));
    ResponseFieldAt(r, 1);
    ResponseFieldAt(r, 2);
    ResponseFieldAt(r, 3);
    ResponseFieldAt(r, 4);
    ResponseFieldAt(r, 7);
    ResponseFieldAt(r, 8);
    ResponseFieldAt(r, 9);
  }

  /** Leaving the unset error fields out loses nothing: different answers differ on the bus. */
  lemma ResponsesDiffer(r: Response, q: Response)
    requires PutAll(ResponseFields(r)) == PutAll(ResponseFields(q))
    ensures r == q
  {
    ResponseReadBack(r, ResponseFields(q));
    ResponseReadBack(q, ResponseFields(q));
  }
}
