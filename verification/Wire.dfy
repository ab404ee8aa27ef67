/**
 * The hand-written protobuf reader: base 128 varints and fields of wire types 0 and 2, as in the
 * "Base 128 Varints" and "Message Structure" sections of the Protocol Buffers encoding specification.
 */
module Wire {
  import opened Bits
  import opened Options

  type Byte = b: nat | b < 256

  /** A value and the offset after it; a malformed varint raises an error. */
  datatype Read = Malformed | At(value: nat, offset: nat)

  const MAX_GROUPS: nat := 10

  /** A varint of at most `groups` groups of seven bits, least significant group first. */
  function Varint(data: seq<Byte>, offset: nat, groups: nat): (r: Read)
    ensures r.At? ==> offset < r.offset <= |data|
    decreases |data| - offset
  {
    if offset >= |data| || groups == 0 then Malformed
    else if data[offset] < 128 then At(data[offset], offset + 1)
    else match Varint(data, offset + 1, groups - 1)
      case Malformed => Malformed
      case At(v, o) => At(data[offset] - 128 + 128 * v, o)
  }

  function Power128(n: nat): (r: nat)
    ensures r > 0
  {
    if n == 0 then 1 else 128 * Power128(n - 1)
  }

  lemma {:induction false} Power128Is(n: nat)
    ensures Power128(n) == Pow2(7 * n)
  {
    if n > 0 {
      Power128Is(n - 1);
      var m := 7 * (n - 1);
      assert Pow2(m + 1) == 2 * Pow2(m) && Pow2(m + 2) == 4 * Pow2(m) && Pow2(m + 3) == 8 * Pow2(m);
      assert Pow2(m + 4) == 16 * Pow2(m) && Pow2(m + 5) == 32 * Pow2(m) && Pow2(m + 6) == 64 * Pow2(m);
      assert Pow2(m + 7) == 128 * Pow2(m);
      assert m + 7 == 7 * n;
    }
  }

  lemma ByteParts(byte: Byte)
    ensures And(byte, 0x7F) == byte % 128
    ensures And(byte, 0x80) == 0 <==> byte < 128
  {
    Pow2Small();
    AndMask(byte, 7);
    AndBit(byte, 7);
    assert byte / 128 < 2;
  }

  lemma TagParts(tag: nat)
    ensures ShiftRight(tag, 3) == tag / 8 && And(tag, 7) == tag % 8
  {
    Pow2Small();
    AndMask(tag, 3);
    assert ShiftRight(tag, 3) == ShiftRight(tag / 2, 2) == ShiftRight(tag / 2 / 2, 1) == tag / 2 / 2 / 2;
  }

  /** The value read so far, followed by what is still to come. */
  function Joined(value: nat, groups: nat, rest: Read): Read {
    match rest
    case Malformed => Malformed
    case At(v, o) => At(value + Power128(groups) * v, o)
  }

  lemma Fits(v: nat, d: nat, p: nat)
    requires v < p && d < 128
    ensures v + p * d < 128 * p
  {
    var e := 127 - d;
    assert p * e >= 0;
    assert p * 127 == p * (d + e) == p * d + p * e;
  }

  lemma JoinDigits(value: nat, digit: nat, p: nat, v: nat)
    ensures value + p * (digit + 128 * v) == (value + p * digit) + (128 * p) * v
  {
    assert p * (digit + 128 * v) == p * digit + p * (128 * v);
    assert p * (128 * v) == (128 * p) * v;
  }

  /** The seven low bits of a byte, put above the value read so far. */
  lemma GroupAdded(byte: Byte, value: nat, groups: nat)
    requires value < Power128(groups)
    ensures var next := Or(value, ShiftLeft(And(byte, 0x7F), 7 * groups));
      next == value + Power128(groups) * (byte % 128) && next < Power128(groups + 1)
  {
    ByteParts(byte);
    Power128Is(groups);
    OrIsSum(value, byte % 128, 7 * groups);
    Fits(value, byte % 128, Power128(groups));
    assert ShiftLeft(byte % 128, 7 * groups) == (byte % 128) * Pow2(7 * groups) == Power128(groups) * (byte % 128);
  }

  /** One turn of the loop: the group ends the number, or the rest is read above it. */
  lemma ReadStep(data: seq<Byte>, offset: nat, value: nat, groups: nat, left: nat)
    requires offset < |data| && left > 0
    ensures var next := value + Power128(groups) * (data[offset] % 128);
      Joined(value, groups, Varint(data, offset, left))
      == if data[offset] < 128 then At(next, offset + 1)
          else Joined(next, groups + 1, Varint(data, offset + 1, left - 1))
  {
    var rest := Varint(data, offset + 1, left - 1);
    if data[offset] >= 128 && rest.At? {
      JoinDigits(value, data[offset] - 128, Power128(groups), rest.value);
    }
  }

  method ReadVarint(data: seq<Byte>, start: nat) returns (r: Read)
    ensures r == Varint(data, start, MAX_GROUPS)
  {
    var value: nat, shift: nat, offset: nat := 0, 0, start;
    ghost var groups: nat := 0;
    while offset < |data| && shift < 70
      invariant groups <= MAX_GROUPS && shift == 7 * groups && value < Power128(groups)
      invariant Varint(data, start, MAX_GROUPS) == Joined(value, groups, Varint(data, offset, MAX_GROUPS - groups))
      decreases 70 - shift
    {
      var byte := data[offset];
      ByteParts(byte);
      GroupAdded(byte, value, groups);
      ReadStep(data, offset, value, groups, MAX_GROUPS - groups);
      offset := offset + 1;
      value := Or(value, ShiftLeft(And(byte, 0x7F), shift));
      if And(byte, 0x80) == 0 {
        return At(value, offset);
      }
      shift := shift + 7;
      groups := groups + 1;
    }
    return Malformed;
  }

  // ---------------------------------------------------------------- encoding

  /** The shortest varint of a value. */
  function Encode(v: nat): (r: seq<Byte>)
    ensures |r| > 0
  {
    if v < 128 then [v] else [v % 128 + 128] + Encode(v / 128)
  }

  /** Reading at any offset inverts encoding, whatever precedes and follows. */
  lemma {:induction false} VarintInverts(pre: seq<Byte>, v: nat, post: seq<Byte>, groups: nat)
    requires 0 < groups && v < Power128(groups)
    ensures Varint(pre + Encode(v) + post, |pre|, groups) == At(v, |pre| + |Encode(v)|)
    decreases groups
  {
    var data := pre + Encode(v) + post;
    assert data[|pre|] == Encode(v)[0];
    if v >= 128 {
      var pre' := pre + [v % 128 + 128];
      assert data == pre' + Encode(v / 128) + post;
      assert groups > 1 by { assert Power128(1) == 128; }
      VarintInverts(pre', v / 128, post, groups - 1);
    }
  }

  lemma {:induction false} LongVarintsAreMalformed(pre: seq<Byte>, v: nat, post: seq<Byte>, groups: nat)
    requires Power128(groups) <= v
    ensures Varint(pre + Encode(v) + post, |pre|, groups) == Malformed
    decreases groups
  {
    if groups > 0 {
      var data, pre' := pre + Encode(v) + post, pre + [v % 128 + 128];
      assert data[|pre|] == Encode(v)[0];
      assert v >= 128;
      assert data == pre' + Encode(v / 128) + post;
      LongVarintsAreMalformed(pre', v / 128, post, groups - 1);
    }
  }

  const LIMIT: nat := Pow2(70)

  /** The reader inverts the encoding for exactly the values below 2^70, and refuses all others. */
  lemma ReadInvertsEncodeExactly(pre: seq<Byte>, v: nat, post: seq<Byte>)
    ensures Varint(pre + Encode(v) + post, |pre|, MAX_GROUPS)
         == if v < LIMIT then At(v, |pre| + |Encode(v)|) else Malformed
  {
    Power128Is(10);
    if v < LIMIT {
      VarintInverts(pre, v, post, MAX_GROUPS);
    } else {
      LongVarintsAreMalformed(pre, v, post, MAX_GROUPS);
    }
  }

  // ---------------------------------------------------------------- fields

  /** A field of a message: a varint or a length-delimited payload. */
  datatype Field = Number(field: nat, value: nat) | Bytes(field: nat, payload: seq<Byte>)

  function EncodeField(f: Field): seq<Byte> {
    match f
    case Number(n, v) => Encode(8 * n) + Encode(v)
    case Bytes(n, p) => Encode(8 * n + 2) + Encode(|p|) + p
  }

  function EncodeFields(fs: seq<Field>): seq<Byte> {
    if fs == [] then [] else EncodeField(fs[0]) + EncodeFields(fs[1..])
  }

  /** Every tag, value and length is short enough for the reader. */
  predicate Encodable(fs: seq<Field>) {
    forall i :: 0 <= i < |fs| ==>
      8 * fs[i].field + 2 < LIMIT && (fs[i].Number? ==> fs[i].value < LIMIT)
          && (fs[i].Bytes? ==> |fs[i].payload| < LIMIT)
  }

  function PayloadsOf(fs: seq<Field>, wanted: nat): seq<seq<Byte>> {
    if fs == [] then []
    else (if fs[0].Bytes? && fs[0].field == wanted then [fs[0].payload] else []) + PayloadsOf(fs[1..], wanted)
  }

  function FirstNumberOf(fs: seq<Field>, wanted: nat): Option<nat> {
    if fs == [] then None
    else if fs[0].Number? && fs[0].field == wanted then Some(fs[0].value)
    else FirstNumberOf(fs[1..], wanted)
  }

  /** `data[from:to]` with a bound past the end cut off. */
  function Slice(data: seq<Byte>, from: nat, to: nat): seq<Byte>
    requires from <= |data| && from <= to
  {
    if to <= |data| then data[from..to] else data[from..]
  }

  /** The payloads still to come, after this one if it is wanted. */
  function Prepended(wanted: bool, payload: seq<Byte>, rest: Option<seq<seq<Byte>>>): Option<seq<seq<Byte>>> {
    match rest
    case None => None
    case Some(ps) => Some((if wanted then [payload] else []) + ps)
  }

  /** The payloads collected so far and those still to come. */
  function Behind(results: seq<seq<Byte>>, rest: Option<seq<seq<Byte>>>): Option<seq<seq<Byte>>> {
    match rest
    case None => None
    case Some(ps) => Some(results + ps)
  }

  lemma BehindNothing(rest: Option<seq<seq<Byte>>>)
    ensures Behind([], rest) == rest
  {
    if rest.Some? {
      assert [] + rest.value == rest.value;
    }
  }

  lemma BehindLast(results: seq<seq<Byte>>)
    ensures Behind(results, Some([])) == Some(results)
  {
    assert results + [] == results;
  }

  lemma BehindPrepended(results: seq<seq<Byte>>, wanted: bool, payload: seq<Byte>, rest: Option<seq<seq<Byte>>>)
    ensures Behind(results, Prepended(wanted, payload, rest))
        == Behind(if wanted then results + [payload] else results, rest)
  {
    if rest.Some? {
      assert results + ([payload] + rest.value) == results + [payload] + rest.value;
      assert [] + rest.value == rest.value;
    }
  }

  /** The payloads of a field from an offset on; `None` stands for the error of a malformed varint. */
  function PayloadsAt(data: seq<Byte>, offset: nat, wanted: nat): Option<seq<seq<Byte>>>
    decreases |data| - offset
  {
    if offset >= |data| then Some([])
    else match Varint(data, offset, MAX_GROUPS)
      case Malformed => None
      case At(tag, o) => PayloadsInField(data, tag / 8, tag % 8, o, wanted)
  }

  /** What is left of a field once its tag is read. */
  function PayloadsInField(data: seq<Byte>, field: nat, wire: nat, offset: nat, wanted: nat): Option<seq<seq<Byte>>>
    decreases |data| - offset
  {
    if wire != 0 && wire != 2 then Some([])
    else match Varint(data, offset, MAX_GROUPS)
      case Malformed => None
      case At(v, p) =>
        if wire == 0 then PayloadsAt(data, p, wanted)
        else Prepended(field == wanted, Slice(data, p, p + v), PayloadsAt(data, p + v, wanted))
  }

  function NumberAt(data: seq<Byte>, offset: nat, wanted: nat): Option<Option<nat>>
    decreases |data| - offset
  {
    if offset >= |data| then Some(None)
    else match Varint(data, offset, MAX_GROUPS)
      case Malformed => None
      case At(tag, o) =>
        if tag % 8 == 0 then
          match Varint(data, o, MAX_GROUPS)
          case Malformed => None
          case At(v, p) => if tag / 8 == wanted then Some(Some(v)) else NumberAt(data, p, wanted)
        else if tag % 8 == 2 then
          match Varint(data, o, MAX_GROUPS)
          case Malformed => None
          case At(length, p) => NumberAt(data, p + length, wanted)
        else Some(None)
  }

  method ProtobufBytes(data: seq<Byte>, wanted: nat) returns (r: Option<seq<seq<Byte>>>)
    ensures r == PayloadsAt(data, 0, wanted)
  {
    var results: seq<seq<Byte>> := [];
    var offset: nat := 0;
    BehindNothing(PayloadsAt(data, 0, wanted));
    while offset < |data|
      invariant PayloadsAt(data, 0, wanted) == Behind(results, PayloadsAt(data, offset, wanted))
      decreases |data| - offset
    {
      var tag := ReadVarint(data, offset);
      if tag.Malformed? { return None; }
      TagParts(tag.value);
      var field, wire := ShiftRight(tag.value, 3), And(tag.value, 7);
      if wire == 2 {
        var length := ReadVarint(data, tag.offset);
        if length.Malformed? { return None; }
        var end := length.offset + length.value;
        var payload := Slice(data, length.offset, end);
        BehindPrepended(results, field == wanted, payload, PayloadsAt(data, end, wanted));
        if field == wanted {
          results := results + [payload];
        }
        offset := end;
      } else if wire == 0 {
        var skipped := ReadVarint(data, tag.offset);
        if skipped.Malformed? { return None; }
        offset := skipped.offset;
      } else {
        break;
      }
    }
    BehindLast(results);
    return Some(results);
  }

  method ProtobufVarint(data: seq<Byte>, wanted: nat) returns (r: Option<Option<nat>>)
    ensures r == NumberAt(data, 0, wanted)
  {
    var offset: nat := 0;
    while offset < |data|
      invariant NumberAt(data, 0, wanted) == NumberAt(data, offset, wanted)
      decreases |data| - offset
    {
      var tag := ReadVarint(data, offset);
      if tag.Malformed? { return None; }
      TagParts(tag.value);
      var field, wire := ShiftRight(tag.value, 3), And(tag.value, 7);
      if wire == 0 {
        var value := ReadVarint(data, tag.offset);
        if value.Malformed? { return None; }
        if field == wanted { return Some(Some(value.value)); }
        offset := value.offset;
      } else if wire == 2 {
        var length := ReadVarint(data, tag.offset);
        if length.Malformed? { return None; }
        offset := length.offset + length.value;
      } else {
        return Some(None);
      }
    }
    return Some(None);
  }

  // ---------------------------------------------------------------- round trips

  lemma SplitField(pre: seq<Byte>, fs: seq<Field>)
    requires fs != []
    ensures pre + EncodeFields(fs) == (pre + EncodeField(fs[0])) + EncodeFields(fs[1..])
  {
  }

  lemma RegroupPair<T>(a: seq<T>, b: seq<T>, c: seq<T>, d: seq<T>)
    ensures a + (b + c) + d == a + b + (c + d) && a + (b + c) + d == (a + b) + c + d
  {
  }

  lemma NumberFieldReads(data: seq<Byte>, pre: seq<Byte>, n: nat, v: nat, post: seq<Byte>) returns (o: nat)
    requires 8 * n + 2 < LIMIT && v < LIMIT && data == pre + EncodeField(Number(n, v)) + post
    ensures Varint(data, |pre|, MAX_GROUPS) == At(8 * n, o)
    ensures Varint(data, o, MAX_GROUPS) == At(v, |pre + EncodeField(Number(n, v))|)
  {
    var tag, value := Encode(8 * n), Encode(v);
    RegroupPair(pre, tag, value, post);
    ReadInvertsEncodeExactly(pre, 8 * n, value + post);
    ReadInvertsEncodeExactly(pre + tag, v, post);
    return |pre + tag|;
  }

  lemma Regroup<T>(a: seq<T>, b: seq<T>, c: seq<T>, d: seq<T>, e: seq<T>)
    ensures var all := a + (b + c + d) + e;
      && all == a + b + (c + d + e) && all == (a + b) + c + (d + e)
      && all[|a + b + c|..|a + b + c| + |d|] == d
  {
    assert (a + b) + c + (d + e) == (a + b + c) + d + e;
  }

  lemma BytesFieldReads(data: seq<Byte>, pre: seq<Byte>, n: nat, payload: seq<Byte>, post: seq<Byte>)
      returns (o: nat, p: nat)
    requires 8 * n + 2 < LIMIT && |payload| < LIMIT && data == pre + EncodeField(Bytes(n, payload)) + post
    ensures Varint(data, |pre|, MAX_GROUPS) == At(8 * n + 2, o)
    ensures Varint(data, o, MAX_GROUPS) == At(|payload|, p)
    ensures p + |payload| == |pre + EncodeField(Bytes(n, payload))| <= |data| && data[p..p + |payload|] == payload
  {
    var tag, len := Encode(8 * n + 2), Encode(|payload|);
    Regroup(pre, tag, len, payload, post);
    ReadInvertsEncodeExactly(pre, 8 * n + 2, len + payload + post);
    ReadInvertsEncodeExactly(pre + tag, |payload|, payload + post);
    return |pre + tag|, |pre + tag + len|;
  }

  /** Both readers move past a varint field, unless it is the one wanted. */
  lemma ReadersPassNumber(data: seq<Byte>, at: nat, n: nat, o: nat, v: nat, p: nat, wanted: nat)
    requires Varint(data, at, MAX_GROUPS) == At(8 * n, o) && Varint(data, o, MAX_GROUPS) == At(v, p)
    ensures PayloadsAt(data, at, wanted) == PayloadsAt(data, p, wanted)
    ensures NumberAt(data, at, wanted) == if n == wanted then Some(Some(v)) else NumberAt(data, p, wanted)
  {
    assert (8 * n) % 8 == 0 && (8 * n) / 8 == n;
    assert at < |data|;
    var rest := PayloadsAt(data, p, wanted);
  }

  /** Both readers move past a payload, and one of them collects it if it is wanted. */
  lemma ReadersPassBytes(data: seq<Byte>, at: nat, n: nat, o: nat, payload: seq<Byte>, p: nat, next: nat, wanted: nat)
    requires Varint(data, at, MAX_GROUPS) == At(8 * n + 2, o) && Varint(data, o, MAX_GROUPS) == At(|payload|, p)
    requires next == p + |payload| <= |data| && data[p..next] == payload
    ensures PayloadsAt(data, at, wanted) == Prepended(n == wanted, payload, PayloadsAt(data, next, wanted))
    ensures NumberAt(data, at, wanted) == NumberAt(data, next, wanted)
  {
    assert (8 * n + 2) % 8 == 2 && (8 * n + 2) / 8 == n;
    assert at < |data|;
  }

  lemma PassNumberField(data: seq<Byte>, pre: seq<Byte>, f: Field, post: seq<Byte>, next: nat, wanted: nat)
    requires f.Number? && 8 * f.field + 2 < LIMIT && f.value < LIMIT
    requires data == pre + EncodeField(f) + post && next == |pre + EncodeField(f)|
    ensures PayloadsAt(data, |pre|, wanted) == PayloadsAt(data, next, wanted)
    ensures NumberAt(data, |pre|, wanted) == if f.field == wanted then Some(Some(f.value))
        else NumberAt(data, next, wanted)
  {
    var o := NumberFieldReads(data, pre, f.field, f.value, post);
    ReadersPassNumber(data, |pre|, f.field, o, f.value, next, wanted);
  }

  lemma PassBytesField(data: seq<Byte>, pre: seq<Byte>, f: Field, post: seq<Byte>, next: nat, wanted: nat)
    requires f.Bytes? && 8 * f.field + 2 < LIMIT && |f.payload| < LIMIT
    requires data == pre + EncodeField(f) + post && next == |pre + EncodeField(f)|
    ensures PayloadsAt(data, |pre|, wanted) == Prepended(f.field == wanted, f.payload, PayloadsAt(data, next, wanted))
    ensures NumberAt(data, |pre|, wanted) == NumberAt(data, next, wanted)
  {
    var o, p := BytesFieldReads(data, pre, f.field, f.payload, post);
    ReadersPassBytes(data, |pre|, f.field, o, f.payload, p, next, wanted);
  }

  lemma {:induction false} PayloadsRoundTripAt(pre: seq<Byte>, fs: seq<Field>, wanted: nat)
    requires Encodable(fs)
    ensures PayloadsAt(pre + EncodeFields(fs), |pre|, wanted) == Some(PayloadsOf(fs, wanted))
    decreases |fs|
  {
    if fs != [] {
      SplitField(pre, fs);
      PayloadsRoundTripAt(pre + EncodeField(fs[0]), fs[1..], wanted);
      match fs[0] {
        case Number(_, _) =>
          PassNumberField(pre + EncodeFields(fs), pre, fs[0], EncodeFields(fs[1..]), |pre + EncodeField(fs[0])|,
              wanted);
          assert [] + PayloadsOf(fs[1..], wanted) == PayloadsOf(fs[1..], wanted);
        case Bytes(_, _) => PassBytesField(pre + EncodeFields(fs), pre, fs[0], EncodeFields(fs[1..]),
            |pre + EncodeField(fs[0])|, wanted);
      }
    }
  }

  /** The reader returns exactly the payloads of the wanted field, in order. */
  lemma PayloadsRoundTrip(fs: seq<Field>, wanted: nat)
    requires Encodable(fs)
    ensures PayloadsAt(EncodeFields(fs), 0, wanted) == Some(PayloadsOf(fs, wanted))
  {
    PayloadsRoundTripAt([], fs, wanted);
    assert [] + EncodeFields(fs) == EncodeFields(fs);
  }

  lemma {:induction false} NumberRoundTripAt(pre: seq<Byte>, fs: seq<Field>, wanted: nat)
    requires Encodable(fs)
    ensures NumberAt(pre + EncodeFields(fs), |pre|, wanted) == Some(FirstNumberOf(fs, wanted))
    decreases |fs|
  {
    if fs != [] {
      SplitField(pre, fs);
      NumberRoundTripAt(pre + EncodeField(fs[0]), fs[1..], wanted);
      match fs[0] {
        case Number(_, _) => PassNumberField(pre + EncodeFields(fs), pre, fs[0], EncodeFields(fs[1..]),
            |pre + EncodeField(fs[0])|, wanted);
        case Bytes(_, _) => PassBytesField(pre + EncodeFields(fs), pre, fs[0], EncodeFields(fs[1..]),
            |pre + EncodeField(fs[0])|, wanted);
      }
    }
  }

  /** The reader returns the first varint of the wanted field. */
  lemma NumberRoundTrip(fs: seq<Field>, wanted: nat)
    requires Encodable(fs)
    ensures NumberAt(EncodeFields(fs), 0, wanted) == Some(FirstNumberOf(fs, wanted))
  {
    NumberRoundTripAt([], fs, wanted);
    assert [] + EncodeFields(fs) == EncodeFields(fs);
  }
}
