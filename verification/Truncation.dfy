/** What the decoder does with malformed bytes: it never reads past the buffer, and it rejects every
    truncated message except those cut inside a trailing binary column. */
module Truncation {
  import opened Prelude
  import opened Bytes
  import opened Protocol
  import opened WireFormat

  // ---- Reads stay inside the buffer ----

  ghost predicate IsSuffix(rest: ByteString, buf: ByteString) {
    |rest| <= |buf| && rest == buf[|buf| - |rest|..]
  }

  lemma {:induction false} ValuesLeaveSuffix(buf: ByteString, n: nat)
    ensures ValuesOf(buf, n).Ok? ==> IsSuffix(ValuesOf(buf, n).value.1, buf)
  {
    if n > 0 && ValueOf(buf).Ok? {
      assert IsSuffix(ValueOf(buf).value.1, buf);
      ValuesLeaveSuffix(ValueOf(buf).value.1, n - 1);
    }
  }

  /** A text column is accepted exactly when its signed length fits what is left. A negative length,
      cast to `usize`, exceeds every buffer that can exist and is rejected; a negative column count
      gives an empty tuple. */
  lemma NegativeLengthsAndCounts(buf: ByteString)
    requires |buf| < TWO_63
    ensures |buf| >= 5 && buf[0] == 0x74 ==>
              (ValueOf(buf).Ok? <==> 0 <= Signed32(Unsigned32(buf[1..])) <= |buf| - 5)
    ensures |buf| >= 5 && buf[0] == 0x62 && Signed32(Unsigned32(buf[1..])) < 0 ==> ValueOf(buf) == Ok((Null, []))
    ensures |buf| >= 2 && Signed16(Unsigned16(buf)) < 0 ==> TupleOf(buf) == Ok(([], buf[2..]))
  {
  }

  // ---- Truncated values and tuples ----

  function LastData(vs: seq<WireValue>): nat {
    if vs != [] && vs[|vs| - 1].BinaryValue? then |vs[|vs| - 1].data| else 0
  }

  lemma CutValue(v: WireValue, p: nat)
    requires WellFormedValue(v) && p < |EncodeValue(v)|
    ensures var r := ValueOf(EncodeValue(v)[..p]);
            if v.BinaryValue? && p >= 5 then r == Ok((Null, [])) else r.Err?
  {
    if p >= 5 {
      if v.TextValue? {
        CutLengthPrefixed(WIRE_TEXT, v.text, p);
      } else {
        CutLengthPrefixed(WIRE_BINARY, v.data, p);
      }
    }
  }

  lemma CutLengthPrefixed(tag: Byte, body: ByteString, p: nat)
    requires |body| < TWO_31 && 5 <= p <= 5 + |body|
    ensures var cut := ([tag] + Encode32(|body|) + body)[..p];
            cut[0] == tag && |cut| == p && Unsigned32(cut[1..]) == |body|
  {
    var cut := ([tag] + Encode32(|body|) + body)[..p];
    assert cut[1..] == Encode32(|body|) + body[..p - 5];
    ReadBack32(|body|, body[..p - 5]);
  }

  lemma {:induction false} ValuesLength(vs: seq<WireValue>)
    requires forall v | v in vs :: WellFormedValue(v)
    ensures vs != [] && vs[|vs| - 1].BinaryValue? ==> |EncodeValues(vs)| >= 5 + LastData(vs)
    ensures vs != [] ==> |EncodeValues(vs)| > 0
  {
    if |vs| > 1 {
      ValuesLength(vs[1..]);
    }
  }

  lemma {:induction false} CutValues(vs: seq<WireValue>, p: nat)
    requires forall v | v in vs :: WellFormedValue(v)
    requires p < |EncodeValues(vs)|
    ensures var r := ValuesOf(EncodeValues(vs)[..p], |vs|);
            if p + LastData(vs) >= |EncodeValues(vs)| then r.Ok? && r.value.1 == [] else r.Err?
  {
    var e, rest := EncodeValue(vs[0]), vs[1..];
    ValuesLength(rest);
    if p < |e| {
      assert EncodeValues(vs)[..p] == e[..p];
      CutValue(vs[0], p);
    } else {
      var q := p - |e|;
      assert EncodeValues(vs)[..p] == e + EncodeValues(rest)[..q];
      ValueInverts(vs[0], EncodeValues(rest)[..q]);
      CutValues(rest, q);
    }
  }

  lemma CutTuple(vs: seq<WireValue>, p: nat)
    requires WellFormedValues(vs) && p < |EncodeTuple(vs)|
    ensures var r := TupleOf(EncodeTuple(vs)[..p]);
            if p + LastData(vs) >= |EncodeTuple(vs)| then r.Ok? && r.value.1 == [] else r.Err?
  {
    ValuesLength(vs);
    if p >= 2 {
      var cut := EncodeTuple(vs)[..p];
      assert cut == Encode16(|vs|) + EncodeValues(vs)[..p - 2];
      ReadBack16(|vs|, EncodeValues(vs)[..p - 2]);
      CutValues(vs, p - 2);
    }
  }

  lemma CutOldAndNew(oldValues: seq<WireValue>, values: seq<WireValue>, q: nat)
    requires WellFormedValues(oldValues) && WellFormedValues(values)
    requires q < |EncodeTuple(oldValues)| + 1 + |EncodeTuple(values)|
    ensures var body := EncodeTuple(oldValues) + ([WIRE_NEW] + EncodeTuple(values));
            var first := TupleOf(body[..q]);
            var second := if first.Err? then first else
                          TupleOf(if first.value.1 == [] then [] else first.value.1[1..]);
            second.Ok? <==> q + LastData(values) >= |body|
  {
    var o, n := EncodeTuple(oldValues), EncodeTuple(values);
    var body := o + ([WIRE_NEW] + n);
    ValuesLength(values);
    if q < |o| {
      assert body[..q] == o[..q];
      CutTuple(oldValues, q);
    } else if q == |o| {
      assert body[..q] == o + [];
      TupleInverts(oldValues, []);
    } else {
      var k := q - |o| - 1;
      assert body[..q] == o + ([WIRE_NEW] + n[..k]);
      TupleInverts(oldValues, [WIRE_NEW] + n[..k]);
      assert ([WIRE_NEW] + n[..k])[1..] == n[..k];
      CutTuple(values, k);
    }
  }

  // ---- Truncated Relation messages ----

  lemma CutCString(name: ByteString, p: nat)
    requires IsCString(name) && p <= |name|
    ensures CStringOf((name + [0])[..p]).Err?
  {
    var cut := (name + [0])[..p];
    assert forall i :: 0 <= i < p ==> cut[i] == name[i];
  }

  lemma CutColumn(c: WireColumn, p: nat)
    requires IsCString(c.name) && p < |EncodeColumn(c)|
    ensures ColumnOf(EncodeColumn(c)[..p]).Err?
  {
    var types := Encode32(c.typeOid) + Encode32(c.typeModifier);
    var named := c.name + [0];
    assert EncodeColumn(c) == [c.flags] + (named + types);
    if p >= 1 {
      if p - 1 < |named| {
        assert EncodeColumn(c)[..p][1..] == named[..p - 1];
        CutCString(c.name, p - 1);
      } else {
        assert EncodeColumn(c)[..p][1..] == named + types[..p - 1 - |named|];
        CStringInverts(c.name, types[..p - 1 - |named|]);
      }
    }
  }

  lemma {:induction false} CutColumns(cs: seq<WireColumn>, p: nat)
    requires forall c | c in cs :: IsCString(c.name)
    requires p < |EncodeColumns(cs)|
    ensures ColumnsOf(EncodeColumns(cs)[..p], |cs|).Err?
  {
    var e, rest := EncodeColumn(cs[0]), cs[1..];
    if p < |e| {
      assert EncodeColumns(cs)[..p] == e[..p];
      CutColumn(cs[0], p);
    } else {
      CutColumns(rest, p - |e|);
      ColumnThenMore(cs[0], EncodeColumns(rest)[..p - |e|], |cs|);
      assert EncodeColumns(cs)[..p] == e + EncodeColumns(rest)[..p - |e|];
    }
  }

  lemma ColumnThenMore(c: WireColumn, after: ByteString, n: nat)
    requires IsCString(c.name) && n > 0
    ensures ColumnsOf(EncodeColumn(c) + after, n) == Prepend([ColumnInfo(c.name)], ColumnsOf(after, n - 1))
  {
    ColumnInverts(c, after);
  }

  /** A sequence of two parts, cut. */
  lemma CutPair(first: ByteString, second: ByteString, p: nat)
    requires p <= |first| + |second|
    ensures (first + second)[..p] == if p < |first| then first[..p] else first + second[..p - |first|]
  {
  }

  /** The two names or what follows them cannot be read. */
  predicate NamesFail(buf: ByteString) {
    var first := CStringOf(buf);
    if first.Err? then true else
    var second := CStringOf(first.value.1);
    if second.Err? then true else HeaderFails(second.value.1)
  }

  predicate HeaderFails(buf: ByteString) {
    |buf| < 3 || ColumnsOf(buf[3..], Max0(Signed16(Unsigned16(buf[1..])))).Err?
  }

  lemma NamesFailRelation(buf: ByteString, names: ByteString)
    requires |buf| < 4 || (buf[4..] == names && NamesFail(names))
    ensures RelationOf(buf).Err?
  {
  }

  lemma CutNamesFail(namespace: ByteString, name: ByteString, last: ByteString, p: nat) returns (cut: ByteString)
    requires IsCString(namespace) && IsCString(name) && p <= |namespace| + |name| + 2 + |last|
    requires p >= |namespace| + |name| + 2 ==> HeaderFails(last[..p - |namespace| - |name| - 2])
    ensures cut == ((namespace + [0]) + ((name + [0]) + last))[..p] && NamesFail(cut)
  {
    cut := CutNames(namespace, name, last, p);
  }

  lemma CutRelation(id: Word32, namespace: ByteString, name: ByteString, identity: Byte, columns: seq<WireColumn>,
                    p: nat)
    requires IsCString(namespace) && IsCString(name)
    requires |columns| < TWO_15 && forall c | c in columns :: IsCString(c.name)
    requires p < |RelationBody(id, namespace, name, identity, columns)|
    ensures RelationOf(RelationBody(id, namespace, name, identity, columns)[..p]).Err?
  {
    var used := 6 + |namespace| + |name|;
    if p >= used {
      CutHeader(identity, columns, p - used);
    }
    var last := [identity] + (Encode16(|columns|) + EncodeColumns(columns));
    CutAfterId(Encode32(id), namespace, name, last, p);
  }

  lemma CutAfterId(id: ByteString, namespace: ByteString, name: ByteString, last: ByteString, p: nat)
    requires IsCString(namespace) && IsCString(name) && |id| == 4 && p <= 6 + |namespace| + |name| + |last|
    requires p >= 6 + |namespace| + |name| ==> HeaderFails(last[..p - 6 - |namespace| - |name|])
    ensures RelationOf((id + ((namespace + [0]) + ((name + [0]) + last)))[..p]).Err?
  {
    var names := [];
    if p >= 4 {
      names := CutNamesFail(namespace, name, last, p - 4);
      AfterId(id, (namespace + [0]) + ((name + [0]) + last), p);
    }
    NamesFailRelation((id + ((namespace + [0]) + ((name + [0]) + last)))[..p], names);
  }

  lemma AfterId(id: ByteString, body: ByteString, p: nat)
    requires |id| == 4 <= p <= 4 + |body|
    ensures (id + body)[..p][4..] == body[..p - 4]
  {
  }

  /** Either one of the two names is cut short, or both are read and what is left of `last` follows. */
  lemma CutNames(namespace: ByteString, name: ByteString, last: ByteString, p: nat) returns (cut: ByteString)
    requires IsCString(namespace) && IsCString(name)
    requires p <= |namespace| + |name| + 2 + |last|
    ensures cut == ((namespace + [0]) + ((name + [0]) + last))[..p]
    ensures p < |namespace| + 1 ==> CStringOf(cut).Err?
    ensures p >= |namespace| + 1 ==>
              && CStringOf(cut).Ok?
              && var second := CStringOf(CStringOf(cut).value.1);
                 if p < |namespace| + |name| + 2 then second.Err?
                 else second == Ok((name, last[..p - |namespace| - |name| - 2]))
  {
    var s1, s2 := namespace + [0], name + [0];
    cut := (s1 + (s2 + last))[..p];
    CutPair(s1, s2 + last, p);
    if p < |s1| {
      CutCString(namespace, p);
    } else {
      var q := p - |s1|;
      CStringInverts(namespace, (s2 + last)[..q]);
      CutPair(s2, last, q);
      if q < |s2| {
        CutCString(name, q);
      } else {
        CStringInverts(name, last[..q - |s2|]);
      }
    }
  }

  lemma CutHeader(identity: Byte, columns: seq<WireColumn>, q: nat)
    requires |columns| < TWO_15 && forall c | c in columns :: IsCString(c.name)
    requires q < 3 + |EncodeColumns(columns)|
    ensures var cut := ([identity] + (Encode16(|columns|) + EncodeColumns(columns)))[..q];
            HeaderFails(cut)
  {
    if q >= 3 {
      SkipHeader(identity, Encode16(|columns|), EncodeColumns(columns), q);
      ReadBack16(|columns|, EncodeColumns(columns)[..q - 3]);
      CutColumns(columns, q - 3);
    }
  }

  lemma SkipHeader(identity: Byte, count: ByteString, after: ByteString, q: nat)
    requires |count| == 2 && 3 <= q <= 3 + |after|
    ensures var cut := ([identity] + (count + after))[..q];
            cut[1..] == count + after[..q - 3] && cut[3..] == after[..q - 3]
  {
  }

  // ---- Truncated messages ----

  /** The message ends in a non-empty column sent in binary format. */
  predicate EndsInBinary(m: WireMessage) {
    match m
    case WireInsert(_, values) => LastData(values) > 0
    case WireUpdate(_, _, values) => LastData(values) > 0
    case WireDelete(_, _, values) => LastData(values) > 0
    case _ => false
  }

  function TrailingBinary(m: WireMessage): nat {
    match m
    case WireInsert(_, values) => LastData(values)
    case WireUpdate(_, _, values) => LastData(values)
    case WireDelete(_, _, values) => LastData(values)
    case _ => 0
  }

  lemma CutTaggedBody(relationId: Word32, tag: Byte, values: seq<WireValue>, p: nat)
    requires WellFormedValues(values) && p < |TaggedBody(relationId, tag, values)|
    ensures var cut := TaggedBody(relationId, tag, values)[..p];
            p >= 5 ==>
              && cut[4] == tag
              && (TupleOf(cut[5..]).Ok? <==> p + LastData(values) >= |TaggedBody(relationId, tag, values)|)
    ensures p < 5 ==> p + LastData(values) < |TaggedBody(relationId, tag, values)|
  {
    ValuesLength(values);
    if p >= 5 {
      SkipId(Encode32(relationId), [tag] + EncodeTuple(values), p);
      assert ([tag] + EncodeTuple(values))[1..] == EncodeTuple(values);
      CutTuple(values, p - 5);
    }
  }

  lemma CutUpdate(relationId: Word32, oldTuple: OldTuple, values: seq<WireValue>, p: nat)
    requires WellFormedValues(values) && (oldTuple.NoOld? || WellFormedValues(oldTuple.values))
    requires p < 4 + |UpdateBody(oldTuple, values)|
    ensures UpdateOf((Encode32(relationId) + UpdateBody(oldTuple, values))[..p]).Ok?
       <==> p + LastData(values) >= 4 + |UpdateBody(oldTuple, values)|
  {
    ValuesLength(values);
    if p >= 5 {
      CutUpdateBody(oldTuple, values, p - 5);
      SkipId(Encode32(relationId), UpdateBody(oldTuple, values), p);
      UpdateAccepted((Encode32(relationId) + UpdateBody(oldTuple, values))[..p]);
    }
  }

  lemma SkipId(id: ByteString, body: ByteString, p: nat)
    requires |id| == 4 && 5 <= p <= 4 + |body|
    ensures var cut := (id + body)[..p]; cut[4] == body[0] && cut[5..] == body[1..][..p - 5]
  {
  }

  lemma CutUpdateBody(oldTuple: OldTuple, values: seq<WireValue>, q: nat)
    requires WellFormedValues(values) && (oldTuple.NoOld? || WellFormedValues(oldTuple.values))
    requires q + 1 < |UpdateBody(oldTuple, values)|
    ensures var body := UpdateBody(oldTuple, values);
            NewTupleAccepted(body[0], body[1..][..q]) <==> q + 1 + LastData(values) >= |body|
  {
    var body := UpdateBody(oldTuple, values);
    if oldTuple.NoOld? {
      assert body[1..] == EncodeTuple(values);
      CutTuple(values, q);
    } else {
      assert body[1..] == EncodeTuple(oldTuple.values) + ([WIRE_NEW] + EncodeTuple(values));
      CutOldAndNew(oldTuple.values, values, q);
    }
  }

  predicate NewTupleAccepted(tag: Byte, buf: ByteString) {
    if tag == WIRE_KEY || tag == WIRE_OLD then
      && TupleOf(buf).Ok?
      && var rest := TupleOf(buf).value.1; TupleOf(if rest == [] then [] else rest[1..]).Ok?
    else TupleOf(buf).Ok?
  }

  lemma UpdateAccepted(buf: ByteString)
    requires |buf| >= 5
    ensures UpdateOf(buf).Ok? <==> NewTupleAccepted(buf[4], buf[5..])
  {
  }

  lemma CutBody(m: WireMessage, q: nat)
    requires WellFormed(m) && q < |Body(m)|
    ensures BodyOf(Tag(m), Body(m)[..q]).Ok? <==> q + TrailingBinary(m) >= |Body(m)|
  {
    match m
    case WireBegin(_, _, _) =>
    case WireCommit(_, _, _, _) =>
    case WireRelation(id, namespace, name, identity, columns) =>
      CutRelation(id, namespace, name, identity, columns, q);
    case WireInsert(relationId, values) =>
      CutTaggedBody(relationId, WIRE_NEW, values, q);
    case WireUpdate(relationId, oldTuple, values) =>
      CutUpdate(relationId, oldTuple, values, q);
    case WireDelete(relationId, full, values) =>
      CutTaggedBody(relationId, if full then WIRE_OLD else WIRE_KEY, values, q);
  }

  lemma CutMessage(m: WireMessage, p: nat)
    requires WellFormed(m) && p < |EncodeMessage(m)|
    ensures MessageOf(EncodeMessage(m)[..p]).Ok? <==> p + TrailingBinary(m) >= |EncodeMessage(m)|
  {
    TrailingBinaryFits(m);
    if p > 0 {
      CutTag(Tag(m), Body(m), p);
      CutBody(m, p - 1);
    }
  }

  lemma CutTag(tag: Byte, body: ByteString, p: nat)
    requires 1 <= p <= 1 + |body|
    ensures MessageOf(([tag] + body)[..p]) == BodyOf(tag, body[..p - 1])
  {
    assert ([tag] + body)[..p][1..] == body[..p - 1];
  }

  lemma TrailingBinaryFits(m: WireMessage)
    requires WellFormed(m)
    ensures TrailingBinary(m) <= |Body(m)|
  {
    match m
    case WireInsert(_, values) => ValuesLength(values);
    case WireUpdate(_, _, values) => ValuesLength(values);
    case WireDelete(_, _, values) => ValuesLength(values);
    case _ =>
  }

  /** Some strict prefix of a well-formed message is accepted if and only if the message ends in a
      non-empty binary column, whose length the decoder clamps instead of checking. */
  lemma TruncationDetected(m: WireMessage)
    requires WellFormed(m)
    ensures (exists p :: 0 <= p < |EncodeMessage(m)| && MessageOf(EncodeMessage(m)[..p]).Ok?) <==> EndsInBinary(m)
  {
    forall p | 0 <= p < |EncodeMessage(m)|
      ensures MessageOf(EncodeMessage(m)[..p]).Ok? <==> p + TrailingBinary(m) >= |EncodeMessage(m)|
    {
      CutMessage(m, p);
    }
    if EndsInBinary(m) {
      CutMessage(m, |EncodeMessage(m)| - 1);
    }
  }
}
