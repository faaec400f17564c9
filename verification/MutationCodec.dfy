/** The byte encoding of logged mutations and its cursor decoder. */
module MutationCodec {
  import opened Common
  import opened Labels
  import opened Bytes

  /** Vector components are the bit patterns of single-precision floats. */
  datatype LogMutation =
    | InsertMutation(nodeId: nat, externalId: nat, bits: seq<nat>, labels: LabelSet)
    | DeleteMutation(nodeId: nat)

  /** "sdannm01" */
  const MAGIC: seq<Byte> := [115, 100, 97, 110, 110, 109, 48, 49]

  const OP_INSERT: Byte := 1
  const OP_DELETE: Byte := 2

  /** Not an infinity and not a NaN: the exponent bits are not all set. */
  predicate Finite(bits: nat) { bits / 8388608 % 256 != 255 }

  function LabelBits(l: Label): nat { if l >= 0 then l else l + U16 }

  function LabelOf(bits: nat): Label
    requires bits < U16
  {
    if bits < 32768 then bits else bits - U16
  }

  function EncodeFloats(bits: seq<nat>): seq<Byte> {
    if bits == [] then [] else Le(bits[0], 4) + EncodeFloats(bits[1..])
  }

  function EncodeLabels(labels: seq<Label>): seq<Byte> {
    if labels == [] then [] else Le(LabelBits(labels[0]), 2) + EncodeLabels(labels[1..])
  }

  function Encode(m: LogMutation): seq<Byte> {
    match m
    case InsertMutation(id, externalId, bits, labels) =>
      MAGIC + ([OP_INSERT] + EncodeInsert(id, externalId, bits, labels))
    case DeleteMutation(id) => MAGIC + ([OP_DELETE] + Le(id, 8))
  }

  function EncodeInsert(id: nat, externalId: nat, bits: seq<nat>, labels: seq<Label>): seq<Byte> {
    Le(id, 8) + (Le(externalId, 16) + (Le(|bits|, 4) + (EncodeFloats(bits) + (Le(|labels|, 4) + EncodeLabels(labels)))))
  }

  // ----- reading: a value and the bytes after it -----

  type Parsed<T> = Result<(T, seq<Byte>)>

  function Take(bytes: seq<Byte>, n: nat): Parsed<seq<Byte>> {
    if |bytes| < n then Err(InvalidStorageState) else Ok((bytes[..n], bytes[n..]))
  }

  function ReadUint(bytes: seq<Byte>, width: nat): Parsed<nat> {
    match Take(bytes, width)
    case Err(e) => Err(e)
    case Ok((taken, rest)) => Ok((FromLe(taken), rest))
  }

  function ReadFloat(bytes: seq<Byte>): Parsed<nat> {
    match ReadUint(bytes, 4)
    case Err(e) => Err(e)
    case Ok((bits, rest)) => if Finite(bits) then Ok((bits, rest)) else Err(InvalidDistance)
  }

  function ReadLabel(bytes: seq<Byte>): Parsed<Label> {
    match ReadUint(bytes, 2)
    case Err(e) => Err(e)
    case Ok((bits, rest)) => if bits < U16 then Ok((LabelOf(bits), rest)) else Err(InvalidStorageState)
  }

  function ReadMany<T>(one: seq<Byte> -> Parsed<T>, bytes: seq<Byte>, n: nat): Parsed<seq<T>>
    decreases n
  {
    if n == 0 then Ok(([], bytes))
    else
      match one(bytes)
      case Err(e) => Err(e)
      case Ok((first, rest)) =>
        match ReadMany(one, rest, n - 1)
        case Err(e) => Err(e)
        case Ok((more, end)) => Ok(([first] + more, end))
  }

  /** A length field followed by that many items. */
  function ReadList<T>(one: seq<Byte> -> Parsed<T>, bytes: seq<Byte>): Parsed<seq<T>> {
    match ReadUint(bytes, 4)
    case Err(e) => Err(e)
    case Ok((n, rest)) => ReadMany(one, rest, n)
  }

  function ReadInsert(bytes: seq<Byte>): Parsed<LogMutation> {
    match ReadUint(bytes, 8)
    case Err(e) => Err(e)
    case Ok((id, b1)) =>
      match ReadUint(b1, 16)
      case Err(e) => Err(e)
      case Ok((externalId, b2)) =>
        match ReadList(ReadFloat, b2)
        case Err(e) => Err(e)
        case Ok((bits, b3)) =>
          match ReadList(ReadLabel, b3)
          case Err(e) => Err(e)
          case Ok((labels, rest)) => Ok((InsertMutation(id, externalId, bits, FromList(labels)), rest))
  }

  function ReadDelete(bytes: seq<Byte>): Parsed<LogMutation> {
    match ReadUint(bytes, 8)
    case Err(e) => Err(e)
    case Ok((id, rest)) => Ok((DeleteMutation(id), rest))
  }

  function ReadMutation(bytes: seq<Byte>): Parsed<LogMutation> {
    match Take(bytes, 8)
    case Err(e) => Err(e)
    case Ok((magic, b1)) =>
      if magic != MAGIC then Err(InvalidStorageState)
      else
        match Take(b1, 1)
        case Err(e) => Err(e)
        case Ok((op, b2)) =>
          if op == [OP_INSERT] then ReadInsert(b2)
          else if op == [OP_DELETE] then ReadDelete(b2)
          else Err(InvalidStorageState)
  }

  /** A decoding must use up every byte. */
  function Decode(bytes: seq<Byte>): Result<LogMutation> {
    match ReadMutation(bytes)
    case Err(e) => Err(e)
    case Ok((m, rest)) => if rest == [] then Ok(m) else Err(InvalidStorageState)
  }

  // ----- more bytes do not change what was read -----

  /** A reader that ignores whatever follows what it reads. */
  ghost predicate Local<T(!new)>(one: seq<Byte> -> Parsed<T>) {
    forall bytes, more :: one(bytes).Ok? ==> one(bytes + more) == Ok((one(bytes).value.0, one(bytes).value.1 + more))
  }

  lemma UintLocal(bytes: seq<Byte>, more: seq<Byte>, width: nat)
    requires ReadUint(bytes, width).Ok?
    ensures ReadUint(bytes + more, width) == Ok((ReadUint(bytes, width).value.0, ReadUint(bytes, width).value.1 + more))
  {
    assert (bytes + more)[..width] == bytes[..width];
    assert (bytes + more)[width..] == bytes[width..] + more;
  }

  lemma FloatLocal()
    ensures Local(ReadFloat)
  {
    forall bytes: seq<Byte>, more: seq<Byte> | ReadFloat(bytes).Ok?
      ensures ReadFloat(bytes + more) == Ok((ReadFloat(bytes).value.0, ReadFloat(bytes).value.1 + more))
    {
      UintLocal(bytes, more, 4);
    }
  }

  lemma LabelLocal()
    ensures Local(ReadLabel)
  {
    forall bytes: seq<Byte>, more: seq<Byte> | ReadLabel(bytes).Ok?
      ensures ReadLabel(bytes + more) == Ok((ReadLabel(bytes).value.0, ReadLabel(bytes).value.1 + more))
    {
      UintLocal(bytes, more, 2);
    }
  }

  lemma {:induction false} ManyLocal<T(!new)>(one: seq<Byte> -> Parsed<T>, bytes: seq<Byte>, more: seq<Byte>, n: nat)
    requires Local(one) && ReadMany(one, bytes, n).Ok?
    ensures ReadMany(one, bytes + more, n) == Ok((ReadMany(one, bytes, n).value.0, ReadMany(one, bytes, n).value.1 + more))
    decreases n
  {
    if n > 0 {
      ManyLocal(one, one(bytes).value.1, more, n - 1);
    }
  }

  lemma ListLocal<T(!new)>(one: seq<Byte> -> Parsed<T>, bytes: seq<Byte>, more: seq<Byte>)
    requires Local(one) && ReadList(one, bytes).Ok?
    ensures ReadList(one, bytes + more) == Ok((ReadList(one, bytes).value.0, ReadList(one, bytes).value.1 + more))
  {
    hide ReadMany;
    UintLocal(bytes, more, 4);
    ManyLocal(one, ReadUint(bytes, 4).value.1, more, ReadUint(bytes, 4).value.0);
  }

  lemma InsertLocal(bytes: seq<Byte>, more: seq<Byte>)
    requires ReadInsert(bytes).Ok?
    ensures ReadInsert(bytes + more) == Ok((ReadInsert(bytes).value.0, ReadInsert(bytes).value.1 + more))
  {
    hide ReadList, ReadUint, Local;
    FloatLocal();
    LabelLocal();
    UintLocal(bytes, more, 8);
    var b1 := ReadUint(bytes, 8).value.1;
    UintLocal(b1, more, 16);
    var b2 := ReadUint(b1, 16).value.1;
    ListLocal(ReadFloat, b2, more);
    ListLocal(ReadLabel, ReadList(ReadFloat, b2).value.1, more);
  }

  lemma MutationLocal(bytes: seq<Byte>, more: seq<Byte>)
    requires ReadMutation(bytes).Ok?
    ensures ReadMutation(bytes + more) == Ok((ReadMutation(bytes).value.0, ReadMutation(bytes).value.1 + more))
  {
    hide ReadInsert;
    assert (bytes + more)[..8] == bytes[..8] && (bytes + more)[8..] == bytes[8..] + more;
    var b1 := bytes[8..];
    assert (b1 + more)[..1] == b1[..1] && (b1 + more)[1..] == b1[1..] + more;
    if b1[..1] == [OP_INSERT] {
      InsertLocal(b1[1..], more);
    } else {
      UintLocal(b1[1..], more, 8);
    }
  }

  lemma ExtensionFails(bytes: seq<Byte>, more: seq<Byte>)
    requires more != []
    ensures Decode(bytes).Ok? ==> Decode(bytes + more) == Err(InvalidStorageState)
  {
    hide ReadMutation;
    if ReadMutation(bytes).Ok? {
      MutationLocal(bytes, more);
    }
  }

  /** The decodable byte strings are prefix free: every proper extension and every strict prefix is rejected. */
  lemma PrefixFree(bytes: seq<Byte>, k: nat, more: seq<Byte>)
    requires Decode(bytes).Ok?
    ensures more != [] ==> Decode(bytes + more) == Err(InvalidStorageState)
    ensures k < |bytes| ==> Decode(bytes[..k]).Err?
  {
    hide Decode;
    if more != [] {
      ExtensionFails(bytes, more);
    }
    if k < |bytes| {
      ExtensionFails(bytes[..k], bytes[k..]);
      assert bytes[..k] + bytes[k..] == bytes;
    }
  }

  // ----- round trip -----

  ghost predicate InRange(m: LogMutation) {
    && m.nodeId < U64
    && (m.InsertMutation? ==> m.externalId < U128 && forall i :: 0 <= i < |m.bits| ==> m.bits[i] < U32)
  }

  /** What decoding needs: a length that fits its field and no infinity or NaN. */
  ghost predicate Decodable(m: LogMutation) {
    m.InsertMutation? ==> |m.bits| < U32 && forall i :: 0 <= i < |m.bits| ==> Finite(m.bits[i])
  }

  lemma UintReads(n: nat, width: nat, rest: seq<Byte>)
    requires n < Pow256(width)
    ensures ReadUint(Le(n, width) + rest, width) == Ok((n, rest))
  {
    LeExact(n, width);
    assert (Le(n, width) + rest)[..width] == Le(n, width) && (Le(n, width) + rest)[width..] == rest;
  }

  lemma {:induction false} FloatsRead(bits: seq<nat>, rest: seq<Byte>)
    requires forall i :: 0 <= i < |bits| ==> bits[i] < U32 && Finite(bits[i])
    ensures ReadMany(ReadFloat, EncodeFloats(bits) + rest, |bits|) == Ok((bits, rest))
  {
    hide ReadUint, Le;
    if bits == [] {
      assert EncodeFloats(bits) + rest == rest;
    } else {
      var tail := EncodeFloats(bits[1..]) + rest;
      assert EncodeFloats(bits) + rest == Le(bits[0], 4) + tail;
      Widths();
      UintReads(bits[0], 4, tail);
      FloatsRead(bits[1..], rest);
      assert [bits[0]] + bits[1..] == bits;
    }
  }

  lemma {:induction false} LabelsRead(labels: seq<Label>, rest: seq<Byte>)
    ensures ReadMany(ReadLabel, EncodeLabels(labels) + rest, |labels|) == Ok((labels, rest))
  {
    hide ReadUint, Le;
    if labels == [] {
      assert EncodeLabels(labels) + rest == rest;
    } else {
      var tail := EncodeLabels(labels[1..]) + rest;
      assert EncodeLabels(labels) + rest == Le(LabelBits(labels[0]), 2) + tail;
      Widths();
      UintReads(LabelBits(labels[0]), 2, tail);
      LabelsRead(labels[1..], rest);
      assert [labels[0]] + labels[1..] == labels;
    }
  }

  /** A label set has at most one entry per 16-bit value. */
  lemma {:induction false} LabelSetSize(labels: LabelSet, k: nat)
    requires k < |labels|
    ensures labels[k] >= -32768 + k
  {
    if k > 0 {
      LabelSetSize(labels, k - 1);
    }
  }

  lemma InsertReads(m: LogMutation)
    requires m.InsertMutation? && InRange(m) && Decodable(m)
    ensures Decode(Encode(m)) == Ok(m)
  {
    hide ReadUint, Le, EncodeFloats, EncodeLabels, ReadMany;
    var floats, labels := EncodeFloats(m.bits), EncodeLabels(m.labels);
    if m.labels != [] { LabelSetSize(m.labels, |m.labels| - 1); }
    Widths();
    LabelsRead(m.labels, []);
    assert labels + [] == labels;
    var b3 := Le(|m.labels|, 4) + labels;
    UintReads(|m.labels|, 4, labels);
    FloatsRead(m.bits, b3);
    var b2 := Le(|m.bits|, 4) + (floats + b3);
    UintReads(|m.bits|, 4, floats + b3);
    var b1 := Le(m.externalId, 16) + b2;
    UintReads(m.externalId, 16, b2);
    UintReads(m.nodeId, 8, b1);
    SortDedupIdempotent(m.labels);
    MagicReads(OP_INSERT, EncodeInsert(m.nodeId, m.externalId, m.bits, m.labels));
  }

  lemma MagicReads(op: Byte, body: seq<Byte>)
    ensures ReadMutation(MAGIC + ([op] + body)) ==
      if op == OP_INSERT then ReadInsert(body) else if op == OP_DELETE then ReadDelete(body) else Err(InvalidStorageState)
  {
    hide ReadInsert, ReadDelete;
    var tail := [op] + body;
    var bytes := MAGIC + tail;
    assert bytes[..8] == MAGIC && bytes[8..] == tail;
    assert tail[..1] == [op] && tail[1..] == body;
  }

  lemma DeleteReads(m: LogMutation)
    requires m.DeleteMutation? && InRange(m)
    ensures Decode(Encode(m)) == Ok(m)
  {
    hide Le;
    var body := Le(m.nodeId, 8);
    MagicReads(OP_DELETE, body);
    Widths();
    assert body + [] == body;
    UintReads(m.nodeId, 8, []);
  }

  lemma {:induction false} ManyFinite(bytes: seq<Byte>, n: nat)
    requires ReadMany(ReadFloat, bytes, n).Ok?
    ensures var bits := ReadMany(ReadFloat, bytes, n).value.0;
      |bits| == n && forall i :: 0 <= i < |bits| ==> Finite(bits[i])
  {
    if n > 0 {
      ManyFinite(ReadFloat(bytes).value.1, n - 1);
    }
  }

  /** Whatever decodes has a vector short enough and finite. */
  lemma DecodedDecodable(bytes: seq<Byte>)
    requires Decode(bytes).Ok?
    ensures Decodable(Decode(bytes).value)
  {
    hide ReadMany, Finite, FromLe;
    if Decode(bytes).value.InsertMutation? {
      var b2 := bytes[8..][1..][8..][16..];
      ManyFinite(b2[4..], FromLe(b2[..4]));
      FourBytes(b2[..4]);
    }
  }

  lemma FourBytes(bytes: seq<Byte>)
    requires |bytes| == 4
    ensures FromLe(bytes) < U32
  {
    assert bytes[1..][1..][1..][1..] == [];
    assert FromLe(bytes[1..][1..][1..]) < 256;
    assert FromLe(bytes[1..][1..]) < 65536;
    assert FromLe(bytes[1..]) < 16777216;
  }

  /** Decoding gives back what was encoded exactly when the vector is finite and its length fits 32 bits. */
  lemma RoundTrip(m: LogMutation)
    requires InRange(m)
    ensures Decode(Encode(m)) == Ok(m) <==> Decodable(m)
  {
    hide Decode, Encode;
    if Decodable(m) {
      if m.InsertMutation? { InsertReads(m); } else { DeleteReads(m); }
    } else if Decode(Encode(m)).Ok? {
      DecodedDecodable(Encode(m));
    }
  }

  // ----- the cursor -----

  class MutationCursor {
    const bytes: seq<Byte>
    var offset: nat

    ghost predicate Valid()
      reads this
    {
      offset <= |bytes|
    }

    ghost function Left(): seq<Byte>
      requires Valid()
      reads this
    {
      bytes[offset..]
    }

    constructor (bytes: seq<Byte>)
      ensures Valid() && this.bytes == bytes && Left() == bytes
    {
      this.bytes, offset := bytes, 0;
    }

    method ReadExact(n: nat) returns (r: Result<seq<Byte>>)
      requires Valid()
      modifies this
      ensures Valid()
      ensures match Take(old(Left()), n)
        case Err(e) => r == Err(e) && offset == old(offset)
        case Ok((taken, rest)) => r == Ok(taken) && Left() == rest
    {
      if offset + n > |bytes| {
        return Err(InvalidStorageState);
      }
      assert bytes[offset..][..n] == bytes[offset..offset + n];
      r := Ok(bytes[offset..offset + n]);
      assert bytes[offset..][n..] == bytes[offset + n..];
      offset := offset + n;
    }

    method ReadNumber(width: nat) returns (r: Result<nat>)
      requires Valid()
      modifies this
      ensures Valid()
      ensures match ReadUint(old(Left()), width)
        case Err(e) => r == Err(e) && offset == old(offset)
        case Ok((value, rest)) => r == Ok(value) && Left() == rest
    {
      var taken := ReadExact(width);
      if taken.Err? {
        return Err(taken.error);
      }
      r := Ok(FromLe(taken.value));
    }

    method ReadFloats(n: nat) returns (r: Result<seq<nat>>)
      requires Valid()
      modifies this
      ensures Valid()
      ensures match ReadMany(ReadFloat, old(Left()), n)
        case Err(e) => r == Err(e)
        case Ok((values, rest)) => r == Ok(values) && Left() == rest
    {
      var values: seq<nat> := [];
      ghost var start := Left();
      PrependNone(ReadMany(ReadFloat, start, n));
      for i := 0 to n
        invariant Valid()
        invariant ReadMany(ReadFloat, start, n) == Prepend(values, ReadMany(ReadFloat, Left(), n - i))
      {
        var bits := ReadNumber(4);
        if bits.Err? {
          return Err(bits.error);
        }
        if !Finite(bits.value) {
          return Err(InvalidDistance);
        }
        PrependOne(values, bits.value, ReadMany(ReadFloat, Left(), n - i - 1));
        values := values + [bits.value];
      }
      assert values + [] == values;
      r := Ok(values);
    }

    method ReadLabels(n: nat) returns (r: Result<seq<Label>>)
      requires Valid()
      modifies this
      ensures Valid()
      ensures match ReadMany(ReadLabel, old(Left()), n)
        case Err(e) => r == Err(e)
        case Ok((values, rest)) => r == Ok(values) && Left() == rest
    {
      var values: seq<Label> := [];
      ghost var start := Left();
      PrependNone(ReadMany(ReadLabel, start, n));
      for i := 0 to n
        invariant Valid()
        invariant ReadMany(ReadLabel, start, n) == Prepend(values, ReadMany(ReadLabel, Left(), n - i))
      {
        var bits := ReadNumber(2);
        if bits.Err? {
          return Err(bits.error);
        }
        if bits.value >= U16 {
          return Err(InvalidStorageState);
        }
        PrependOne(values, LabelOf(bits.value), ReadMany(ReadLabel, Left(), n - i - 1));
        values := values + [LabelOf(bits.value)];
      }
      assert values + [] == values;
      r := Ok(values);
    }

    method DecodeDelete() returns (r: Result<LogMutation>)
      requires Valid()
      modifies this
      ensures Valid()
      ensures match ReadDelete(old(Left()))
        case Err(e) => r == Err(e)
        case Ok((m, rest)) => r == Ok(m) && Left() == rest
    {
      hide ReadUint;
      var id := ReadNumber(8);
      r := if id.Err? then Err(id.error) else Ok(DeleteMutation(id.value));
    }

    method DecodeInsert() returns (r: Result<LogMutation>)
      requires Valid()
      modifies this
      ensures Valid()
      ensures match ReadInsert(old(Left()))
        case Err(e) => r == Err(e)
        case Ok((m, rest)) => r == Ok(m) && Left() == rest
    {
      hide ReadMany, ReadUint;
      var id := ReadNumber(8);
      if id.Err? { return Err(id.error); }
      var externalId := ReadNumber(16);
      if externalId.Err? { return Err(externalId.error); }
      var n := ReadNumber(4);
      if n.Err? { return Err(n.error); }
      var bits := ReadFloats(n.value);
      if bits.Err? { return Err(bits.error); }
      var k := ReadNumber(4);
      if k.Err? { return Err(k.error); }
      var labels := ReadLabels(k.value);
      if labels.Err? { return Err(labels.error); }
      r := Ok(InsertMutation(id.value, externalId.value, bits.value, FromList(labels.value)));
    }
  }

  ghost function Prepend<T>(values: seq<T>, more: Parsed<seq<T>>): Parsed<seq<T>> {
    match more
    case Err(e) => Err(e)
    case Ok((rest, end)) => Ok((values + rest, end))
  }

  lemma {:induction false} FloatsSnoc(bits: seq<nat>, last: nat)
    ensures EncodeFloats(bits + [last]) == EncodeFloats(bits) + Le(last, 4)
  {
    hide Le;
    var all := bits + [last];
    if bits == [] {
      assert all[1..] == [] && Le(last, 4) + [] == Le(last, 4);
    } else {
      FloatsSnoc(bits[1..], last);
      assert all[1..] == bits[1..] + [last] && all[0] == bits[0];
    }
  }

  lemma {:induction false} LabelsSnoc(labels: seq<Label>, last: Label)
    ensures EncodeLabels(labels + [last]) == EncodeLabels(labels) + Le(LabelBits(last), 2)
  {
    hide Le;
    var all := labels + [last];
    if labels == [] {
      assert all[1..] == [] && Le(LabelBits(last), 2) + [] == Le(LabelBits(last), 2);
    } else {
      LabelsSnoc(labels[1..], last);
      assert all[1..] == labels[1..] + [last] && all[0] == labels[0];
    }
  }

  method PushFloats(start: seq<Byte>, bits: seq<nat>) returns (bytes: seq<Byte>)
    ensures bytes == start + EncodeFloats(bits)
  {
    hide Le;
    bytes := start;
    for i := 0 to |bits|
      invariant bytes == start + EncodeFloats(bits[..i])
    {
      FloatsSnoc(bits[..i], bits[i]);
      assert bits[..i + 1] == bits[..i] + [bits[i]];
      bytes := bytes + Le(bits[i], 4);
    }
    assert bits[..|bits|] == bits;
  }

  method PushLabels(start: seq<Byte>, labels: seq<Label>) returns (bytes: seq<Byte>)
    ensures bytes == start + EncodeLabels(labels)
  {
    hide Le;
    bytes := start;
    for i := 0 to |labels|
      invariant bytes == start + EncodeLabels(labels[..i])
    {
      LabelsSnoc(labels[..i], labels[i]);
      assert labels[..i + 1] == labels[..i] + [labels[i]];
      bytes := bytes + Le(LabelBits(labels[i]), 2);
    }
    assert labels[..|labels|] == labels;
  }

  method EncodeMutation(m: LogMutation) returns (bytes: seq<Byte>)
    ensures bytes == Encode(m)
  {
    hide Le, EncodeFloats, EncodeLabels;
    match m {
      case InsertMutation(id, externalId, bits, labels) =>
        bytes := MAGIC + [OP_INSERT];
        bytes := bytes + Le(id, 8);
        bytes := bytes + Le(externalId, 16);
        bytes := bytes + Le(|bits|, 4);
        bytes := PushFloats(bytes, bits);
        bytes := bytes + Le(|labels|, 4);
        bytes := PushLabels(bytes, labels);
      case DeleteMutation(id) =>
        bytes := MAGIC + [OP_DELETE];
        bytes := bytes + Le(id, 8);
    }
  }

  lemma PrependNone<T>(more: Parsed<seq<T>>)
    ensures Prepend([], more) == more
  {
    if more.Ok? {
      assert [] + more.value.0 == more.value.0;
    }
  }

  lemma PrependOne<T>(values: seq<T>, value: T, more: Parsed<seq<T>>)
    ensures Prepend(values + [value], more) == Prepend(values, Prepend([value], more))
  {
    if more.Ok? {
      assert (values + [value]) + more.value.0 == values + ([value] + more.value.0);
    }
  }

  method DecodeMutation(bytes: seq<Byte>) returns (r: Result<LogMutation>)
    ensures r == Decode(bytes)
  {
    hide ReadInsert, ReadDelete, Take;
    var cursor := new MutationCursor(bytes);
    var magic := cursor.ReadExact(8);
    if magic.Err? { return Err(magic.error); }
    if magic.value != MAGIC { return Err(InvalidStorageState); }
    var op := cursor.ReadExact(1);
    if op.Err? { return Err(op.error); }
    var decoded: Result<LogMutation>;
    if op.value == [OP_INSERT] {
      decoded := cursor.DecodeInsert();
    } else if op.value == [OP_DELETE] {
      decoded := cursor.DecodeDelete();
    } else {
      return Err(InvalidStorageState);
    }
    if decoded.Err? { return Err(decoded.error); }
    r := if cursor.offset == |bytes| then decoded else Err(InvalidStorageState);
  }
}
