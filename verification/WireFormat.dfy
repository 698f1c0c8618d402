/** The server's side of the format: an encoder written from sections 55.4, 55.5 and 55.9 of the
    PostgreSQL 16 documentation, and the proof that the decoder in `Protocol` inverts it. */
module WireFormat {
  import opened Prelude
  import opened Bytes
  import opened Protocol

  datatype WireValue = NullValue | UnchangedValue | TextValue(text: ByteString) | BinaryValue(data: ByteString)

  datatype WireColumn = WireColumn(flags: Byte, name: ByteString, typeOid: Word32, typeModifier: Word32)

  datatype OldTuple = NoOld | KeyOld(values: seq<WireValue>) | FullOld(values: seq<WireValue>)

  datatype WireMessage =
    | WireBegin(finalLsn: Word64, commitTime: Word64, xid: Word32)
    | WireCommit(flags: Byte, commitLsn: Word64, endLsn: Word64, commitTime: Word64)
    | WireRelation(id: Word32, namespace: ByteString, name: ByteString, identity: Byte, columns: seq<WireColumn>)
    | WireInsert(relationId: Word32, values: seq<WireValue>)
    | WireUpdate(relationId: Word32, oldTuple: OldTuple, values: seq<WireValue>)
    | WireDelete(relationId: Word32, full: bool, values: seq<WireValue>)

  // ---- The bytes that the format gives its messages, tuples and columns ----

  const WIRE_XLOG: Byte := 0x77
  const WIRE_KEEPALIVE: Byte := 0x6B
  const WIRE_STATUS: Byte := 0x72
  const WIRE_COPY_DATA: Byte := 0x64
  const WIRE_BEGIN: Byte := 0x42
  const WIRE_COMMIT: Byte := 0x43
  const WIRE_RELATION: Byte := 0x52
  const WIRE_INSERT: Byte := 0x49
  const WIRE_UPDATE: Byte := 0x55
  const WIRE_DELETE: Byte := 0x44
  const WIRE_NEW: Byte := 0x4E
  const WIRE_KEY: Byte := 0x4B
  const WIRE_OLD: Byte := 0x4F
  const WIRE_NULL: Byte := 0x6E
  const WIRE_UNCHANGED: Byte := 0x75
  const WIRE_TEXT: Byte := 0x74
  const WIRE_BINARY: Byte := 0x62

  // ---- Well-formedness: the limits the format itself sets ----

  predicate IsCString(s: ByteString) { 0 !in s }

  predicate WellFormedValue(v: WireValue) {
    match v
    case TextValue(text) => |text| < TWO_31
    case BinaryValue(data) => |data| < TWO_31
    case _ => true
  }

  predicate WellFormedValues(vs: seq<WireValue>) {
    |vs| < TWO_15 && forall v | v in vs :: WellFormedValue(v)
  }

  predicate WellFormed(m: WireMessage) {
    match m
    case WireRelation(_, namespace, name, _, columns) =>
      IsCString(namespace) && IsCString(name) && |columns| < TWO_15 && (forall c | c in columns :: IsCString(c.name))
    case WireInsert(_, values) => WellFormedValues(values)
    case WireUpdate(_, oldTuple, values) =>
      WellFormedValues(values) && (oldTuple.NoOld? || WellFormedValues(oldTuple.values))
    case WireDelete(_, _, values) => WellFormedValues(values)
    case _ => true
  }

  // ---- Encoding ----

  function EncodeValue(v: WireValue): (bs: ByteString)
    requires WellFormedValue(v)
    ensures |bs| > 0
  {
    match v
    case NullValue => [WIRE_NULL]
    case UnchangedValue => [WIRE_UNCHANGED]
    case TextValue(text) => [WIRE_TEXT] + Encode32(|text|) + text
    case BinaryValue(data) => [WIRE_BINARY] + Encode32(|data|) + data
  }

  function EncodeValues(vs: seq<WireValue>): ByteString
    requires forall v | v in vs :: WellFormedValue(v)
  {
    if vs == [] then [] else EncodeValue(vs[0]) + EncodeValues(vs[1..])
  }

  function EncodeTuple(vs: seq<WireValue>): ByteString
    requires WellFormedValues(vs)
  {
    Encode16(|vs|) + EncodeValues(vs)
  }

  function EncodeColumn(c: WireColumn): ByteString {
    [c.flags] + c.name + [0] + Encode32(c.typeOid) + Encode32(c.typeModifier)
  }

  function EncodeColumns(cs: seq<WireColumn>): ByteString {
    if cs == [] then [] else EncodeColumn(cs[0]) + EncodeColumns(cs[1..])
  }

  function EncodeMessage(m: WireMessage): (bs: ByteString)
    requires WellFormed(m)
  {
    [Tag(m)] + Body(m)
  }

  function Tag(m: WireMessage): Byte {
    match m
    case WireBegin(_, _, _) => WIRE_BEGIN
    case WireCommit(_, _, _, _) => WIRE_COMMIT
    case WireRelation(_, _, _, _, _) => WIRE_RELATION
    case WireInsert(_, _) => WIRE_INSERT
    case WireUpdate(_, _, _) => WIRE_UPDATE
    case WireDelete(_, _, _) => WIRE_DELETE
  }

  function Body(m: WireMessage): ByteString
    requires WellFormed(m)
  {
    match m
    case WireBegin(finalLsn, commitTime, xid) => Encode64(finalLsn) + Encode64(commitTime) + Encode32(xid)
    case WireCommit(flags, commitLsn, endLsn, commitTime) =>
      [flags] + Encode64(commitLsn) + Encode64(endLsn) + Encode64(commitTime)
    case WireRelation(id, namespace, name, identity, columns) => RelationBody(id, namespace, name, identity, columns)
    case WireInsert(relationId, values) => TaggedBody(relationId, WIRE_NEW, values)
    case WireUpdate(relationId, oldTuple, values) => Encode32(relationId) + UpdateBody(oldTuple, values)
    case WireDelete(relationId, full, values) => TaggedBody(relationId, if full then WIRE_OLD else WIRE_KEY, values)
  }

  function RelationBody(id: Word32, namespace: ByteString, name: ByteString, identity: Byte, columns: seq<WireColumn>)
    : ByteString
    requires |columns| < TWO_15
  {
    Encode32(id) + ((namespace + [0]) + ((name + [0]) + ([identity] + (Encode16(|columns|) + EncodeColumns(columns)))))
  }

  function TaggedBody(relationId: Word32, tag: Byte, values: seq<WireValue>): ByteString
    requires WellFormedValues(values)
  {
    Encode32(relationId) + ([tag] + EncodeTuple(values))
  }

  function UpdateBody(oldTuple: OldTuple, values: seq<WireValue>): ByteString
    requires WellFormedValues(values) && (oldTuple.NoOld? || WellFormedValues(oldTuple.values))
  {
    match oldTuple
    case NoOld => [WIRE_NEW] + EncodeTuple(values)
    case KeyOld(oldValues) => [WIRE_KEY] + (EncodeTuple(oldValues) + ([WIRE_NEW] + EncodeTuple(values)))
    case FullOld(oldValues) => [WIRE_OLD] + (EncodeTuple(oldValues) + ([WIRE_NEW] + EncodeTuple(values)))
  }

  // ---- What the listener keeps of a message ----

  function ValueMeaning(v: WireValue): TupleValue {
    match v
    case UnchangedValue => UnchangedToast
    case TextValue(text) => Text(text)
    case _ => Null
  }

  function ValuesMeaning(vs: seq<WireValue>): (ts: seq<TupleValue>)
    ensures |ts| == |vs|
  {
    seq(|vs|, i requires 0 <= i < |vs| => ValueMeaning(vs[i]))
  }

  function ColumnNames(cs: seq<WireColumn>): (names: seq<ColumnInfo>)
    ensures |names| == |cs|
  {
    seq(|cs|, i requires 0 <= i < |cs| => ColumnInfo(cs[i].name))
  }

  function Meaning(m: WireMessage): PgOutputMessage {
    match m
    case WireBegin(_, _, _) => Begin
    case WireCommit(_, _, _, _) => Commit
    case WireRelation(id, _, name, _, columns) => Relation(RelationInfo(id, name, ColumnNames(columns)))
    case WireInsert(relationId, values) => Insert(relationId, ValuesMeaning(values))
    case WireUpdate(relationId, _, values) => Update(relationId, ValuesMeaning(values))
    case WireDelete(relationId, _, values) => Delete(relationId, ValuesMeaning(values))
  }

  // ---- The decoder inverts the encoder, whatever bytes follow ----

  lemma CStringInverts(name: ByteString, after: ByteString)
    requires IsCString(name)
    ensures CStringOf((name + [0]) + after) == Ok((name, after))
  {
    var buf := (name + [0]) + after;
    assert buf[|name|] == 0;
    assert forall i :: 0 <= i < |name| ==> buf[i] == name[i];
    assert FirstZero(buf) == |name|;
    assert buf[..|name|] == name && buf[|name| + 1..] == after;
  }

  lemma LengthPrefixed(tag: Byte, body: ByteString, after: ByteString)
    requires |body| < TWO_31
    ensures var buf := [tag] + Encode32(|body|) + body + after;
            && buf[0] == tag && |buf| == 5 + |body| + |after|
            && Unsigned32(buf[1..]) == |body|
            && buf[5..] == body + after
            && buf[5..5 + |body|] == body && buf[5 + |body|..] == after
  {
    var buf := [tag] + Encode32(|body|) + body + after;
    assert buf[1..] == Encode32(|body|) + (body + after);
    ReadBack32(|body|, body + after);
    assert buf[5..] == buf[1..][4..];
  }

  lemma ValueInverts(v: WireValue, after: ByteString)
    requires WellFormedValue(v)
    ensures ValueOf(EncodeValue(v) + after) == Ok((ValueMeaning(v), after))
  {
    match v
    case TextValue(text) => LengthPrefixed(WIRE_TEXT, text, after);
    case BinaryValue(data) => LengthPrefixed(WIRE_BINARY, data, after);
    case _ =>
  }

  lemma {:induction false} ValuesInvert(vs: seq<WireValue>, after: ByteString)
    requires forall v | v in vs :: WellFormedValue(v)
    ensures ValuesOf(EncodeValues(vs) + after, |vs|) == Ok((ValuesMeaning(vs), after))
  {
    if vs == [] {
      assert EncodeValues(vs) + after == after;
    } else {
      var rest := EncodeValues(vs[1..]) + after;
      assert EncodeValues(vs) + after == EncodeValue(vs[0]) + rest;
      ValueInverts(vs[0], rest);
      ValuesInvert(vs[1..], after);
      assert [ValueMeaning(vs[0])] + ValuesMeaning(vs[1..]) == ValuesMeaning(vs);
    }
  }

  lemma TupleInverts(vs: seq<WireValue>, after: ByteString)
    requires WellFormedValues(vs)
    ensures TupleOf(EncodeTuple(vs) + after) == Ok((ValuesMeaning(vs), after))
  {
    assert EncodeTuple(vs) + after == Encode16(|vs|) + (EncodeValues(vs) + after);
    ReadBack16(|vs|, EncodeValues(vs) + after);
    ValuesInvert(vs, after);
  }

  lemma ColumnInverts(c: WireColumn, after: ByteString)
    requires IsCString(c.name)
    ensures ColumnOf(EncodeColumn(c) + after) == Ok((ColumnInfo(c.name), after))
  {
    var types := Encode32(c.typeOid) + Encode32(c.typeModifier);
    assert (EncodeColumn(c) + after)[1..] == (c.name + [0]) + (types + after);
    CStringInverts(c.name, types + after);
    assert (types + after)[8..] == after;
  }

  lemma {:induction false} ColumnsInvert(cs: seq<WireColumn>, after: ByteString)
    requires forall c | c in cs :: IsCString(c.name)
    ensures ColumnsOf(EncodeColumns(cs) + after, |cs|) == Ok((ColumnNames(cs), after))
  {
    if cs == [] {
      assert EncodeColumns(cs) + after == after;
    } else {
      ColumnsInvert(cs[1..], after);
      ColumnsStep(cs, after);
      assert [ColumnInfo(cs[0].name)] + ColumnNames(cs[1..]) == ColumnNames(cs);
    }
  }

  lemma ColumnsStep(cs: seq<WireColumn>, after: ByteString)
    requires cs != [] && IsCString(cs[0].name)
    ensures ColumnsOf(EncodeColumns(cs) + after, |cs|)
         == Prepend([ColumnInfo(cs[0].name)], ColumnsOf(EncodeColumns(cs[1..]) + after, |cs[1..]|))
  {
    assert EncodeColumns(cs) + after == EncodeColumn(cs[0]) + (EncodeColumns(cs[1..]) + after);
    ColumnInverts(cs[0], EncodeColumns(cs[1..]) + after);
  }

  lemma RelationInverts(id: Word32, namespace: ByteString, name: ByteString, identity: Byte, columns: seq<WireColumn>,
                        after: ByteString)
    requires IsCString(namespace) && IsCString(name)
    requires |columns| < TWO_15 && forall c | c in columns :: IsCString(c.name)
    ensures RelationOf(RelationBody(id, namespace, name, identity, columns) + after)
         == Ok(Relation(RelationInfo(id, name, ColumnNames(columns))))
  {
    var buf := RelationBody(id, namespace, name, identity, columns) + after;
    var body3 := Encode16(|columns|) + (EncodeColumns(columns) + after);
    var body2 := (name + [0]) + ([identity] + body3);
    var body1 := (namespace + [0]) + body2;
    assert buf == Encode32(id) + body1;
    ReadBack32(id, body1);
    CStringInverts(namespace, body2);
    CStringInverts(name, [identity] + body3);
    assert ([identity] + body3)[1..] == body3;
    ReadBack16(|columns|, EncodeColumns(columns) + after);
    assert ([identity] + body3)[3..] == body3[2..];
    ColumnsInvert(columns, after);
  }

  lemma UpdateInverts(relationId: Word32, oldTuple: OldTuple, values: seq<WireValue>, after: ByteString)
    requires WellFormedValues(values) && (oldTuple.NoOld? || WellFormedValues(oldTuple.values))
    ensures UpdateOf((Encode32(relationId) + UpdateBody(oldTuple, values)) + after)
         == Ok(Update(relationId, ValuesMeaning(values)))
  {
    var body := UpdateBody(oldTuple, values) + after;
    var buf := (Encode32(relationId) + UpdateBody(oldTuple, values)) + after;
    assert buf == Encode32(relationId) + body;
    ReadBack32(relationId, body);
    assert buf[4] == body[0] && buf[5..] == body[1..];
    UpdateBodyShape(oldTuple, values, after);
    TupleInverts(values, after);
    if !oldTuple.NoOld? {
      TupleInverts(oldTuple.values, [WIRE_NEW] + (EncodeTuple(values) + after));
      assert ([WIRE_NEW] + (EncodeTuple(values) + after))[1..] == EncodeTuple(values) + after;
    }
  }

  lemma UpdateBodyShape(oldTuple: OldTuple, values: seq<WireValue>, after: ByteString)
    requires WellFormedValues(values) && (oldTuple.NoOld? || WellFormedValues(oldTuple.values))
    ensures var body := UpdateBody(oldTuple, values) + after;
            && body[0] == (if oldTuple.NoOld? then WIRE_NEW else if oldTuple.KeyOld? then WIRE_KEY else WIRE_OLD)
            && body[1..] == if oldTuple.NoOld? then EncodeTuple(values) + after
                            else EncodeTuple(oldTuple.values) + ([WIRE_NEW] + (EncodeTuple(values) + after))
  {
  }

  lemma TaggedTuple(relationId: Word32, tag: Byte, values: seq<WireValue>, after: ByteString)
    requires WellFormedValues(values)
    ensures var buf := TaggedBody(relationId, tag, values) + after;
            && |buf| >= 5 && Unsigned32(buf) == relationId && buf[4] == tag
            && TupleOf(buf[5..]) == Ok((ValuesMeaning(values), after))
  {
    var buf := TaggedBody(relationId, tag, values) + after;
    var body := [tag] + (EncodeTuple(values) + after);
    assert buf == Encode32(relationId) + body;
    ReadBack32(relationId, body);
    assert buf[4] == body[0] && buf[5..] == body[1..];
    assert body[1..] == EncodeTuple(values) + after;
    TupleInverts(values, after);
  }

  lemma BodyInverts(m: WireMessage, after: ByteString)
    requires WellFormed(m)
    ensures BodyOf(Tag(m), Body(m) + after) == Ok(Some(Meaning(m)))
  {
    match m
    case WireBegin(_, _, _) =>
    case WireCommit(_, _, _, _) =>
    case WireRelation(id, namespace, name, identity, columns) =>
      RelationInverts(id, namespace, name, identity, columns, after);
    case WireInsert(relationId, values) =>
      TaggedTuple(relationId, WIRE_NEW, values, after);
    case WireUpdate(relationId, oldTuple, values) =>
      UpdateInverts(relationId, oldTuple, values, after);
    case WireDelete(relationId, full, values) =>
      TaggedTuple(relationId, if full then WIRE_OLD else WIRE_KEY, values, after);
  }

  /** Decoding is the inverse of encoding: for every well-formed message, with any bytes after it,
      the parser returns that message with the old tuple skipped. */
  lemma MessageRoundTrip(m: WireMessage, after: ByteString)
    requires WellFormed(m)
    ensures MessageOf(EncodeMessage(m) + after) == Ok(Some(Meaning(m)))
  {
    BodyInverts(m, after);
    Untag(Tag(m), Body(m), after);
  }

  lemma Untag(tag: Byte, body: ByteString, after: ByteString)
    ensures MessageOf(([tag] + body) + after) == BodyOf(tag, body + after)
  {
    assert (([tag] + body) + after)[1..] == body + after;
  }

  // ---- Which bytes decide ----

  /** The first byte of a message decides what it can be; with any other first byte it is skipped. */
  lemma FirstByteDecides(data: ByteString)
    ensures data == [] ==> MessageOf(data).Err?
    ensures data != [] && MessageOf(data).Ok? ==>
              match MessageOf(data).value
              case Some(Begin) => data[0] == 0x42
              case Some(Commit) => data[0] == 0x43
              case Some(Relation(_)) => data[0] == 0x52
              case Some(Insert(_, _)) => data[0] == 0x49
              case Some(Update(_, _)) => data[0] == 0x55
              case Some(Delete(_, _)) => data[0] == 0x44
              case None => data[0] !in {0x42, 0x43, 0x52, 0x49, 0x55, 0x44}
    ensures data != [] && data[0] !in {0x42, 0x43, 0x52, 0x49, 0x55, 0x44} ==> MessageOf(data) == Ok(None)
  {
  }

  /** And that of a frame: any other first byte is an error. */
  lemma FirstByteOfFrameDecides(data: ByteString)
    ensures ReplicationOf(data).Ok? ==>
              data != [] && match ReplicationOf(data).value
                            case XLogData(_, _) => data[0] == 0x77
                            case KeepAlive(_, _) => data[0] == 0x6B
    ensures data == [] || data[0] !in {0x77, 0x6B} ==> ReplicationOf(data).Err?
  {
  }

  /** Where the fields of a frame stand: the end of the WAL at byte 9 of XLogData, before the clock, and at
      byte 1 of a keep-alive; the payload from byte 25 on, the reply flag at byte 17. */
  lemma FrameLayout(data: ByteString)
    ensures ReplicationOf(data).Ok? ==>
              match ReplicationOf(data).value
              case XLogData(walEnd, payload) => |data| >= 25 && walEnd == Unsigned64(data[9..]) && payload == data[25..]
              case KeepAlive(walEnd, reply) =>
                |data| >= 18 && walEnd == Unsigned64(data[1..]) && (reply <==> data[17] != 0)
  {
    if |data| >= 25 {
      assert data[1..][8..] == data[9..] && data[1..][24..] == data[25..];
    }
  }

  /** Where those of a message stand: the table's id at byte 1, the tuple of an insert at byte 6, and that of
      an update or a delete too unless an old one comes first or none at all. */
  lemma MessageLayout(data: ByteString)
    ensures MessageOf(data).Ok? && MessageOf(data).value.Some? ==>
              match MessageOf(data).value.value
              case Begin => |data| >= 21
              case Commit => |data| >= 26
              case Relation(info) => |data| >= 5 && info.id == Unsigned32(data[1..])
              case Insert(id, tuple) => |data| >= 6 && id == Unsigned32(data[1..]) && IsTupleAt(data, 6, tuple)
              case Update(id, tuple) =>
                |data| >= 6 && id == Unsigned32(data[1..]) && (data[5] !in {0x4B, 0x4F} ==> IsTupleAt(data, 6, tuple))
              case Delete(id, tuple) =>
                && |data| >= 6 && id == Unsigned32(data[1..])
                && (if data[5] in {0x4B, 0x4F} then IsTupleAt(data, 6, tuple) else tuple == [])
  {
    if |data| >= 6 {
      assert data[1..][5..] == data[6..] && data[1..][4] == data[5];
    }
  }

  predicate IsTupleAt(data: ByteString, at: nat, tuple: seq<TupleValue>)
    requires at <= |data|
  {
    TupleOf(data[at..]).Ok? && TupleOf(data[at..]).value.0 == tuple
  }

  /** In a relation the namespace comes before the name; in a column the flags before its name and eight bytes
      of type after it. */
  lemma RelationLayout(id: Word32, namespace: ByteString, name: ByteString, identity: Byte, columns: seq<WireColumn>)
    requires IsCString(namespace) && IsCString(name)
    requires |columns| < 0x8000 && forall c | c in columns :: IsCString(c.name)
    ensures RelationOf(Encode32(id) + ((namespace + [0]) + ((name + [0])
                       + ([identity] + (Encode16(|columns|) + EncodeColumns(columns))))))
         == Ok(Relation(RelationInfo(id, name, ColumnNames(columns))))
  {
    var body := RelationBody(id, namespace, name, identity, columns);
    RelationInverts(id, namespace, name, identity, columns, []);
    assert body + [] == body;
  }

  lemma ColumnLayout(flags: Byte, name: ByteString, kind: ByteString, after: ByteString)
    requires IsCString(name) && |kind| == 8
    ensures ColumnOf([flags] + ((name + [0]) + (kind + after))) == Ok((ColumnInfo(name), after))
  {
    CStringInverts(name, kind + after);
    assert ([flags] + ((name + [0]) + (kind + after)))[1..] == (name + [0]) + (kind + after);
    assert (kind + after)[8..] == after;
  }

  /** What a column shows: its text if sent as text, otherwise nothing, and an unknown kind is an error. */
  lemma ColumnByteDecides(buf: ByteString)
    ensures buf == [] || buf[0] !in {0x6E, 0x75, 0x74, 0x62} ==> ValueOf(buf).Err?
    ensures buf != [] && buf[0] == 0x6E ==> ValueOf(buf) == Ok((Null, buf[1..]))
    ensures buf != [] && buf[0] == 0x75 ==> ValueOf(buf) == Ok((UnchangedToast, buf[1..]))
    ensures buf != [] && ValueOf(buf).Ok? ==> (ValueOf(buf).value.0.Text? <==> buf[0] == 0x74)
    ensures buf != [] && ValueOf(buf).Ok? && buf[0] == 0x62 ==> ValueOf(buf).value.0 == Null
  {
  }

  lemma TextIsRead(text: ByteString, after: ByteString)
    requires |text| < 0x8000_0000
    ensures ValueOf([0x74] + Encode32(|text|) + text + after) == Ok((Text(text), after))
  {
    LengthPrefixed(0x74, text, after);
  }

  /** A Delete that sends neither a key nor an old row carries no values. */
  lemma DeleteWithoutTuple(buf: ByteString)
    requires |buf| >= 5 && buf[4] !in {0x4B, 0x4F}
    ensures DeleteOf(buf) == Ok(Delete(Unsigned32(buf), []))
  {
  }

  // ---- Replication frames (section 55.4) ----

  datatype WireFrame =
    | WireXLogData(walStart: Word64, walEnd: Word64, serverTime: Word64, data: ByteString)
    | WireKeepAlive(walEnd: Word64, serverTime: Word64, reply: Byte)

  function EncodeFrame(f: WireFrame): ByteString {
    match f
    case WireXLogData(walStart, walEnd, serverTime, data) =>
      [WIRE_XLOG] + (Encode64(walStart) + (Encode64(walEnd) + (Encode64(serverTime) + data)))
    case WireKeepAlive(walEnd, serverTime, reply) =>
      [WIRE_KEEPALIVE] + (Encode64(walEnd) + (Encode64(serverTime) + [reply]))
  }

  function FrameMeaning(f: WireFrame): ReplicationMessage {
    match f
    case WireXLogData(_, walEnd, _, data) => XLogData(walEnd, data)
    case WireKeepAlive(walEnd, _, reply) => KeepAlive(walEnd, reply != 0)
  }

  lemma FrameRoundTrip(f: WireFrame)
    ensures ReplicationOf(EncodeFrame(f)) == Ok(FrameMeaning(f))
  {
    match f
    case WireXLogData(walStart, walEnd, serverTime, data) => XLogDataRoundTrip(walStart, walEnd, serverTime, data);
    case WireKeepAlive(walEnd, serverTime, reply) => KeepAliveRoundTrip(walEnd, serverTime, reply);
  }

  lemma XLogDataRoundTrip(walStart: Word64, walEnd: Word64, serverTime: Word64, data: ByteString)
    ensures ReplicationOf(EncodeFrame(WireXLogData(walStart, walEnd, serverTime, data))) == Ok(XLogData(walEnd, data))
  {
    var frame := EncodeFrame(WireXLogData(walStart, walEnd, serverTime, data));
    var rest := Encode64(serverTime) + data;
    assert frame[1..][8..] == Encode64(walEnd) + rest;
    ReadBack64(walEnd, rest);
    assert frame[1..][24..] == data;
  }

  lemma KeepAliveRoundTrip(walEnd: Word64, serverTime: Word64, reply: Byte)
    ensures ReplicationOf(EncodeFrame(WireKeepAlive(walEnd, serverTime, reply))) == Ok(KeepAlive(walEnd, reply != 0))
  {
    var frame := EncodeFrame(WireKeepAlive(walEnd, serverTime, reply));
    assert frame[1..] == Encode64(walEnd) + (Encode64(serverTime) + [reply]);
    ReadBack64(walEnd, Encode64(serverTime) + [reply]);
  }

  /** A Standby status update: write, flush and apply position, the client's clock, and whether it wants
      a reply. */
  datatype Status = Status(written: Lsn, flushed: Lsn, applied: Lsn, clock: Word64, reply: bool)

  /** The server's reading of one. */
  function StatusOf(payload: ByteString): Option<Status> {
    if |payload| == 34 && payload[0] == WIRE_STATUS
    then Some(Status(Unsigned64(payload[1..]), Unsigned64(payload[9..]), Unsigned64(payload[17..]),
                     Unsigned64(payload[25..]), payload[33] != 0))
    else None
  }

  /** The server's reading of a CopyData frame: its payload and the bytes after it. */
  function CopyDataPayload(stream: ByteString): Option<(ByteString, ByteString)> {
    if |stream| < 5 || stream[0] != WIRE_COPY_DATA then None else
    var len := Unsigned32(stream[1..]);
    if len < 4 || |stream| < 1 + len then None else Some((stream[5..1 + len], stream[1 + len..]))
  }

  /** A status update sent in its CopyData frame reaches the server as three copies of one LSN, with no
      clock and asking for no reply. */
  lemma StatusReachesServer(lsn: Lsn, after: ByteString)
    ensures CopyDataPayload(CopyDataFrame(StatusUpdate(lsn)) + after) == Some((StatusUpdate(lsn), after))
    ensures StatusOf(StatusUpdate(lsn)) == Some(Status(lsn, lsn, lsn, 0, false))
  {
    FrameReachesServer(StatusUpdate(lsn), after);
    StatusFields(lsn);
  }

  lemma FrameReachesServer(payload: ByteString, after: ByteString)
    requires |payload| < TWO_31
    ensures CopyDataPayload(CopyDataFrame(payload) + after) == Some((payload, after))
  {
    var stream := CopyDataFrame(payload) + after;
    var len := 4 + |payload|;
    assert stream[1..] == Encode32(len) + (payload + after);
    ReadBack32(len, payload + after);
    assert stream[5..1 + len] == payload && stream[1 + len..] == after;
  }

  lemma StatusFields(lsn: Lsn)
    ensures StatusOf(StatusUpdate(lsn)) == Some(Status(lsn, lsn, lsn, 0, false))
  {
    var payload := StatusUpdate(lsn);
    assert payload[1..9] == payload[9..17] == payload[17..25] == Encode64(lsn);
    Unsigned64At(payload, 1, lsn);
    Unsigned64At(payload, 9, lsn);
    Unsigned64At(payload, 17, lsn);
    assert payload[25..33] == Encode64(0) && payload[33] == 0;
    Unsigned64At(payload, 25, 0);
  }

  lemma Unsigned64At(buf: ByteString, at: nat, n: Word64)
    requires at + 8 <= |buf| && buf[at..at + 8] == Encode64(n)
    ensures Unsigned64(buf[at..]) == n
  {
    assert buf[at..] == Encode64(n) + buf[at + 8..];
    ReadBack64(n, buf[at + 8..]);
  }
}
