/** Replication framing and the pgoutput decoder (crates/calce-cdc/src/protocol.rs).

    The decoder is imperative: it advances a `Cursor` over the bytes. Each parsing method is proved
    equal to a function over byte strings; `WireFormat` proves what those functions mean. */
module Protocol {
  import opened Prelude
  import opened Bytes

  type Lsn = Word64

  datatype CdcError = Io | Protocol(context: string) | ConnectionLost | Config | ChannelClosed

  datatype ReplicationMessage =
    | XLogData(walEnd: Lsn, data: ByteString)
    | KeepAlive(walEnd: Lsn, replyRequested: bool)

  /** Text is kept as bytes: `from_utf8_lossy` is not modelled. */
  datatype TupleValue = Null | UnchangedToast | Text(text: ByteString)

  datatype ColumnInfo = ColumnInfo(name: ByteString)

  datatype RelationInfo = RelationInfo(id: Word32, name: ByteString, columns: seq<ColumnInfo>)

  datatype PgOutputMessage =
    | Begin
    | Commit
    | Relation(info: RelationInfo)
    | Insert(relationId: Word32, tuple: seq<TupleValue>)
    | Update(relationId: Word32, tuple: seq<TupleValue>)
    | Delete(relationId: Word32, tuple: seq<TupleValue>)

  const TAG_XLOG: Byte := 'w' as Byte
  const TAG_KEEPALIVE: Byte := 'k' as Byte
  const TAG_STATUS: Byte := 'r' as Byte
  const TAG_COPY_DATA: Byte := 'd' as Byte
  const TAG_BEGIN: Byte := 'B' as Byte
  const TAG_COMMIT: Byte := 'C' as Byte
  const TAG_RELATION: Byte := 'R' as Byte
  const TAG_INSERT: Byte := 'I' as Byte
  const TAG_UPDATE: Byte := 'U' as Byte
  const TAG_DELETE: Byte := 'D' as Byte
  const TAG_NEW: Byte := 'N' as Byte
  const TAG_KEY: Byte := 'K' as Byte
  const TAG_OLD: Byte := 'O' as Byte
  const TAG_NULL: Byte := 'n' as Byte
  const TAG_TOAST: Byte := 'u' as Byte
  const TAG_TEXT: Byte := 't' as Byte
  const TAG_BINARY: Byte := 'b' as Byte

  // ------------------------------------------------------------------------
  // What the parsers compute, as functions from the bytes left to a value and
  // the bytes left after it
  // ------------------------------------------------------------------------

  type Parsed<T> = Result<(T, ByteString), CdcError>

  /** A parsing method that returned `r` with `left` still unread has done what `p` says. */
  ghost predicate Agrees<T>(r: Result<T, CdcError>, left: ByteString, p: Parsed<T>) {
    match p
    case Err(e) => r == Err(e)
    case Ok((value, rest)) => r == Ok(value) && left == rest
  }

  /** The position of the first zero byte, or `|buf|`. */
  function FirstZero(buf: ByteString): (pos: nat)
    ensures pos <= |buf|
    ensures pos < |buf| ==> buf[pos] == 0
    ensures forall i :: 0 <= i < pos ==> buf[i] != 0
  {
    if buf == [] || buf[0] == 0 then 0 else 1 + FirstZero(buf[1..])
  }

  function CStringOf(buf: ByteString): (r: Parsed<ByteString>)
    ensures r.Ok? ==> |r.value.0| + 1 + |r.value.1| == |buf|
  {
    var pos := FirstZero(buf);
    if pos == |buf| then Err(Protocol("unterminated string")) else Ok((buf[..pos], buf[pos + 1..]))
  }

  function ValueOf(buf: ByteString): (r: Parsed<TupleValue>)
    ensures r.Ok? ==> |r.value.1| < |buf|
  {
    if buf == [] then Err(Protocol("tuple column tag"))
    else if buf[0] == TAG_NULL then Ok((Null, buf[1..]))
    else if buf[0] == TAG_TOAST then Ok((UnchangedToast, buf[1..]))
    else if buf[0] == TAG_TEXT then
      if |buf| < 5 then Err(Protocol("text length")) else
      var len := AsUsize(Signed32(Unsigned32(buf[1..])));
      if |buf| - 5 < len then Err(Protocol("tuple text data truncated"))
      else Ok((Text(buf[5..5 + len]), buf[5 + len..]))
    else if buf[0] == TAG_BINARY then
      if |buf| < 5 then Err(Protocol("binary length")) else
      var len := AsUsize(Signed32(Unsigned32(buf[1..])));
      Ok((Null, buf[5 + Min(len, |buf| - 5)..]))
    else Err(Protocol("unknown tuple tag"))
  }

  function ValuesOf(buf: ByteString, n: nat): (r: Parsed<seq<TupleValue>>)
    ensures r.Ok? ==> |r.value.0| == n && |r.value.1| + n <= |buf|
  {
    if n == 0 then Ok(([], buf)) else
    match ValueOf(buf)
    case Err(e) => Err(e)
    case Ok((value, rest)) => Prepend([value], ValuesOf(rest, n - 1))
  }

  function Prepend<T>(first: seq<T>, r: Parsed<seq<T>>): Parsed<seq<T>> {
    match r
    case Err(e) => Err(e)
    case Ok((values, rest)) => Ok((first + values, rest))
  }

  lemma PrependNothing<T>(r: Parsed<seq<T>>)
    ensures Prepend([], r) == r
  {
    if r.Ok? {
      assert [] + r.value.0 == r.value.0;
    }
  }

  lemma PrependTwice<T>(first: seq<T>, second: seq<T>, r: Parsed<seq<T>>)
    ensures Prepend(first, Prepend(second, r)) == Prepend(first + second, r)
  {
    if r.Ok? {
      assert first + (second + r.value.0) == (first + second) + r.value.0;
    }
  }

  function TupleOf(buf: ByteString): (r: Parsed<seq<TupleValue>>)
    ensures r.Ok? ==> |buf| >= 2 && |r.value.0| == Max0(Signed16(Unsigned16(buf)))
  {
    if |buf| < 2 then Err(Protocol("tuple header"))
    else ValuesOf(buf[2..], Max0(Signed16(Unsigned16(buf))))
  }

  function ColumnOf(buf: ByteString): (r: Parsed<ColumnInfo>)
    ensures r.Ok? ==> |r.value.1| < |buf|
  {
    if |buf| < 1 then Err(Protocol("column flags")) else
    match CStringOf(buf[1..])
    case Err(e) => Err(e)
    case Ok((name, rest)) =>
      if |rest| < 8 then Err(Protocol("column type")) else Ok((ColumnInfo(name), rest[8..]))
  }

  function ColumnsOf(buf: ByteString, n: nat): (r: Parsed<seq<ColumnInfo>>)
    ensures r.Ok? ==> |r.value.0| == n
  {
    if n == 0 then Ok(([], buf)) else
    match ColumnOf(buf)
    case Err(e) => Err(e)
    case Ok((column, rest)) => Prepend([column], ColumnsOf(rest, n - 1))
  }

  function RelationOf(buf: ByteString): (r: Result<PgOutputMessage, CdcError>)
    ensures r.Ok? ==> r.value.Relation?
  {
    if |buf| < 4 then Err(Protocol("Relation")) else
    match CStringOf(buf[4..])
    case Err(e) => Err(e)
    case Ok((_, afterNamespace)) =>
      match CStringOf(afterNamespace)
      case Err(e) => Err(e)
      case Ok((name, rest)) =>
        if |rest| < 3 then Err(Protocol("Relation columns")) else
        match ColumnsOf(rest[3..], Max0(Signed16(Unsigned16(rest[1..]))))
        case Err(e) => Err(e)
        case Ok((columns, _)) => Ok(Relation(RelationInfo(Unsigned32(buf), name, columns)))
  }

  function UpdateOf(buf: ByteString): Result<PgOutputMessage, CdcError> {
    if |buf| < 5 then Err(Protocol("Update")) else
    var newTuple: Parsed<seq<TupleValue>> :=
      if buf[4] == TAG_KEY || buf[4] == TAG_OLD then
        match TupleOf(buf[5..])
        case Err(e) => Err(e)
        case Ok((_, rest)) => TupleOf(if rest == [] then rest else rest[1..])
      else TupleOf(buf[5..]);
    match newTuple
    case Err(e) => Err(e)
    case Ok((tuple, _)) => Ok(Update(Unsigned32(buf), tuple))
  }

  function DeleteOf(buf: ByteString): Result<PgOutputMessage, CdcError> {
    if |buf| < 5 then Err(Protocol("Delete"))
    else if buf[4] == TAG_KEY || buf[4] == TAG_OLD then
      match TupleOf(buf[5..])
      case Err(e) => Err(e)
      case Ok((tuple, _)) => Ok(Delete(Unsigned32(buf), tuple))
    else Ok(Delete(Unsigned32(buf), []))
  }

  function InsertOf(buf: ByteString): Result<PgOutputMessage, CdcError> {
    if |buf| < 5 then Err(Protocol("Insert")) else
    match TupleOf(buf[5..])
    case Err(e) => Err(e)
    case Ok((tuple, _)) => Ok(Insert(Unsigned32(buf), tuple))
  }

  function Handled(r: Result<PgOutputMessage, CdcError>): Result<Option<PgOutputMessage>, CdcError> {
    match r
    case Err(e) => Err(e)
    case Ok(message) => Ok(Some(message))
  }

  /** `Ok(None)` stands for a message type the listener does not handle. */
  function MessageOf(data: ByteString): Result<Option<PgOutputMessage>, CdcError> {
    if data == [] then Err(Protocol("empty pgoutput message")) else BodyOf(data[0], data[1..])
  }

  function BodyOf(tag: Byte, buf: ByteString): Result<Option<PgOutputMessage>, CdcError> {
    if tag == TAG_BEGIN then
      if |buf| < 20 then Err(Protocol("Begin")) else Ok(Some(Begin))
    else if tag == TAG_COMMIT then
      if |buf| < 25 then Err(Protocol("Commit")) else Ok(Some(Commit))
    else if tag == TAG_RELATION then Handled(RelationOf(buf))
    else if tag == TAG_INSERT then Handled(InsertOf(buf))
    else if tag == TAG_UPDATE then Handled(UpdateOf(buf))
    else if tag == TAG_DELETE then Handled(DeleteOf(buf))
    else Ok(None)
  }

  function ReplicationOf(data: ByteString): Result<ReplicationMessage, CdcError> {
    if data == [] then Err(Protocol("empty replication message")) else
    var buf := data[1..];
    if data[0] == TAG_XLOG then
      if |buf| < 24 then Err(Protocol("XLogData"))
      else Ok(XLogData(Unsigned64(buf[8..]), buf[24..]))
    else if data[0] == TAG_KEEPALIVE then
      if |buf| < 17 then Err(Protocol("KeepAlive"))
      else Ok(KeepAlive(Unsigned64(buf), buf[16] != 0))
    else Err(Protocol("unknown replication tag"))
  }

  // ------------------------------------------------------------------------
  // The parsers
  // ------------------------------------------------------------------------

  /** A mutable buffer cursor. Reading past the end panics in the `bytes` crate, so every read
      requires the bytes to be there. */
  class Cursor {
    var left: ByteString

    constructor (data: ByteString)
      ensures left == data
    {
      left := data;
    }

    method Advance(n: nat)
      requires n <= |left|
      modifies this
      ensures left == old(left)[n..]
    {
      left := left[n..];
    }

    method GetU8() returns (b: Byte)
      requires |left| >= 1
      modifies this
      ensures b == old(left)[0] && left == old(left)[1..]
    {
      b := left[0];
      Advance(1);
    }

    method GetI16() returns (n: int)
      requires |left| >= 2
      modifies this
      ensures n == Signed16(Unsigned16(old(left))) && left == old(left)[2..]
    {
      n := Signed16(Unsigned16(left));
      Advance(2);
    }

    method GetU32() returns (n: Word32)
      requires |left| >= 4
      modifies this
      ensures n == Unsigned32(old(left)) && left == old(left)[4..]
    {
      n := Unsigned32(left);
      Advance(4);
    }

    method GetI32() returns (n: int)
      requires |left| >= 4
      modifies this
      ensures n == Signed32(Unsigned32(old(left))) && left == old(left)[4..]
    {
      n := Signed32(Unsigned32(left));
      Advance(4);
    }

    method GetU64() returns (n: Lsn)
      requires |left| >= 8
      modifies this
      ensures n == Unsigned64(old(left)) && left == old(left)[8..]
    {
      n := Unsigned64(left);
      Advance(8);
    }

    method ReadCString() returns (r: Result<ByteString, CdcError>)
      modifies this
      ensures Agrees(r, left, CStringOf(old(left)))
    {
      var pos := FirstZero(left);
      if pos == |left| {
        return Err(Protocol("unterminated string"));
      }
      r := Ok(left[..pos]);
      Advance(pos + 1);
    }

    method ParseValue() returns (r: Result<TupleValue, CdcError>)
      modifies this
      ensures Agrees(r, left, ValueOf(old(left)))
    {
      if |left| < 1 {
        return Err(Protocol("tuple column tag"));
      }
      var tag := GetU8();
      if tag == TAG_NULL {
        return Ok(Null);
      } else if tag == TAG_TOAST {
        return Ok(UnchangedToast);
      } else if tag == TAG_TEXT {
        if |left| < 4 {
          return Err(Protocol("text length"));
        }
        var signed := GetI32();
        var len := AsUsize(signed);
        if |left| < len {
          return Err(Protocol("tuple text data truncated"));
        }
        r := Ok(Text(left[..len]));
        assert left[..len] == old(left)[5..5 + len];
        Advance(len);
      } else if tag == TAG_BINARY {
        if |left| < 4 {
          return Err(Protocol("binary length"));
        }
        var signed := GetI32();
        Advance(Min(AsUsize(signed), |left|));
        r := Ok(Null);
      } else {
        return Err(Protocol("unknown tuple tag"));
      }
    }

    /** The column loop of `parse_tuple`. */
    method ParseValues(count: int) returns (r: Result<seq<TupleValue>, CdcError>)
      modifies this
      ensures Agrees(r, left, ValuesOf(old(left), Max0(count)))
    {
      ghost var n, body := Max0(count), left;
      var values := [];
      var i := 0;
      PrependNothing(ValuesOf(body, n));
      while i < count
        invariant 0 <= i <= n
        invariant ValuesOf(body, n) == Prepend(values, ValuesOf(left, n - i))
      {
        var value := ParseValue();
        if value.Err? {
          return Err(value.error);
        }
        PrependTwice(values, [value.value], ValuesOf(left, n - i - 1));
        values := values + [value.value];
        i := i + 1;
      }
      assert values + [] == values;
      return Ok(values);
    }

    method ParseTuple() returns (r: Result<seq<TupleValue>, CdcError>)
      modifies this
      ensures Agrees(r, left, TupleOf(old(left)))
    {
      if |left| < 2 {
        return Err(Protocol("tuple header"));
      }
      var count := GetI16();
      r := ParseValues(count);
    }

    /** One turn of the column loop of `parse_relation`. */
    method ParseColumn() returns (r: Result<ColumnInfo, CdcError>)
      modifies this
      ensures Agrees(r, left, ColumnOf(old(left)))
    {
      if |left| < 1 {
        return Err(Protocol("column flags"));
      }
      var _ := GetU8();
      var name := ReadCString();
      if name.Err? {
        return Err(name.error);
      }
      if |left| < 8 {
        return Err(Protocol("column type"));
      }
      var _ := GetU32();
      var _ := GetI32();
      return Ok(ColumnInfo(name.value));
    }

    method ParseColumns(count: int) returns (r: Result<seq<ColumnInfo>, CdcError>)
      modifies this
      ensures Agrees(r, left, ColumnsOf(old(left), Max0(count)))
    {
      ghost var n, body := Max0(count), left;
      var columns := [];
      var i := 0;
      PrependNothing(ColumnsOf(body, n));
      while i < count
        invariant 0 <= i <= n
        invariant ColumnsOf(body, n) == Prepend(columns, ColumnsOf(left, n - i))
      {
        var column := ParseColumn();
        if column.Err? {
          return Err(column.error);
        }
        PrependTwice(columns, [column.value], ColumnsOf(left, n - i - 1));
        columns := columns + [column.value];
        i := i + 1;
      }
      assert columns + [] == columns;
      return Ok(columns);
    }

    method ParseRelation() returns (r: Result<PgOutputMessage, CdcError>)
      modifies this
      ensures r == RelationOf(old(left))
    {
      if |left| < 4 {
        return Err(Protocol("Relation"));
      }
      var id := GetU32();
      var namespace := ReadCString();
      if namespace.Err? {
        return Err(namespace.error);
      }
      var name := ReadCString();
      if name.Err? {
        return Err(name.error);
      }
      if |left| < 3 {
        return Err(Protocol("Relation columns"));
      }
      var _ := GetU8();
      var count := GetI16();
      var columns := ParseColumns(count);
      if columns.Err? {
        return Err(columns.error);
      }
      return Ok(Relation(RelationInfo(id, name.value, columns.value)));
    }
  }

  /** `PgOutputMessage::parse`. */
  method ParseMessage(data: ByteString) returns (r: Result<Option<PgOutputMessage>, CdcError>)
    ensures r == MessageOf(data)
  {
    var buf := new Cursor(data);
    if buf.left == [] {
      return Err(Protocol("empty pgoutput message"));
    }
    var tag := buf.GetU8();
    if tag == TAG_BEGIN {
      if |buf.left| < 20 {
        return Err(Protocol("Begin"));
      }
      buf.Advance(20);
      return Ok(Some(Begin));
    } else if tag == TAG_COMMIT {
      if |buf.left| < 25 {
        return Err(Protocol("Commit"));
      }
      buf.Advance(25);
      return Ok(Some(Commit));
    } else if tag == TAG_RELATION {
      var relation := buf.ParseRelation();
      return Handled(relation);
    } else if tag == TAG_INSERT || tag == TAG_UPDATE || tag == TAG_DELETE {
      r := ParseRowChange(buf, tag);
    } else {
      return Ok(None);
    }
  }

  /** The Insert, Update and Delete arms of `PgOutputMessage::parse`. */
  method ParseRowChange(buf: Cursor, tag: Byte) returns (r: Result<Option<PgOutputMessage>, CdcError>)
    requires tag == TAG_INSERT || tag == TAG_UPDATE || tag == TAG_DELETE
    modifies buf
    ensures r == BodyOf(tag, old(buf.left))
  {
    if |buf.left| < 5 {
      return Err(Protocol(if tag == TAG_INSERT then "Insert" else if tag == TAG_UPDATE then "Update" else "Delete"));
    }
    var relationId := buf.GetU32();
    var next := buf.GetU8();
    if tag == TAG_DELETE && next != TAG_KEY && next != TAG_OLD {
      return Ok(Some(Delete(relationId, [])));
    }
    if tag == TAG_UPDATE && (next == TAG_KEY || next == TAG_OLD) {
      var skipped := buf.ParseTuple();
      if skipped.Err? {
        return Err(skipped.error);
      }
      if buf.left != [] {
        var _ := buf.GetU8();
      }
    }
    var tuple := buf.ParseTuple();
    if tuple.Err? {
      return Err(tuple.error);
    }
    return Ok(Some(if tag == TAG_INSERT then Insert(relationId, tuple.value)
                   else if tag == TAG_UPDATE then Update(relationId, tuple.value)
                   else Delete(relationId, tuple.value)));
  }

  /** `ReplicationMessage::parse`. */
  method ParseReplication(data: ByteString) returns (r: Result<ReplicationMessage, CdcError>)
    ensures r == ReplicationOf(data)
  {
    var buf := new Cursor(data);
    if buf.left == [] {
      return Err(Protocol("empty replication message"));
    }
    var tag := buf.GetU8();
    if tag == TAG_XLOG {
      if |buf.left| < 24 {
        return Err(Protocol("XLogData"));
      }
      var _ := buf.GetU64();
      var walEnd := buf.GetU64();
      var _ := buf.GetU64();
      return Ok(XLogData(walEnd, buf.left));
    } else if tag == TAG_KEEPALIVE {
      if |buf.left| < 17 {
        return Err(Protocol("KeepAlive"));
      }
      var walEnd := buf.GetU64();
      var _ := buf.GetU64();
      var reply := buf.GetU8();
      return Ok(KeepAlive(walEnd, reply != 0));
    } else {
      return Err(Protocol("unknown replication tag"));
    }
  }

  /** `build_status_update`: the Standby status update of section 55.4. */
  function StatusUpdate(lsn: Lsn): (payload: ByteString)
    ensures |payload| == 34
  {
    [TAG_STATUS] + Encode64(lsn) + Encode64(lsn) + Encode64(lsn) + Encode64(0) + [0]
  }

  /** The CopyData frame around it, as `send_status_update` writes it. */
  function CopyDataFrame(payload: ByteString): ByteString
    requires |payload| < TWO_31
  {
    [TAG_COPY_DATA] + Encode32(4 + |payload|) + payload
  }
}
