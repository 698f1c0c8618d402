/** Applying row changes to the in-memory stores (crates/calce-data/src/cdc.rs). */
module CdcApply {
  import opened Prelude
  import opened Bytes
  import opened Listener
  import opened Cache

  datatype User = User(name: Option<ByteString>, email: Option<ByteString>)

  type Pair = (ByteString, ByteString)

  /** Text functions of the standard library, left abstract. */
  datatype Texts = Texts(parseInt: ByteString -> Option<int>, parseFloat: ByteString -> Option<Float>,
                         trim: ByteString -> ByteString)

  /** What the consumer owns or writes. It stops being alive when `Currency::new` panics. */
  datatype Store = Store(alive: bool, instruments: map<int, ByteString>, prices: map<ByteString, Entry>,
                         fxRates: map<Pair, Entry>, users: map<ByteString, User>)

  const INSTRUMENTS: ByteString := Ascii("instruments")
  const PRICES: ByteString := Ascii("prices")
  const FX_RATES: ByteString := Ascii("fx_rates")
  const USERS: ByteString := Ascii("users")

  function Ascii(s: string): (bs: ByteString)
    requires forall i :: 0 <= i < |s| ==> s[i] < 128 as char
    ensures |bs| == |s|
  {
    seq(|s|, i requires 0 <= i < |s| => s[i] as Byte)
  }

  // ---- Columns ----

  /** A column that is present and not null. */
  function Column(columns: ColumnMap, name: string): Option<ByteString>
    requires forall i :: 0 <= i < |name| ==> name[i] < 128 as char
  {
    if Ascii(name) in columns then columns[Ascii(name)] else None
  }

  function IntColumn(t: Texts, columns: ColumnMap, name: string): Option<int>
    requires forall i :: 0 <= i < |name| ==> name[i] < 128 as char
  {
    match Column(columns, name)
    case None => None
    case Some(text) => t.parseInt(text)
  }

  function FloatColumn(t: Texts, columns: ColumnMap, name: string): Option<Float>
    requires forall i :: 0 <= i < |name| ==> name[i] < 128 as char
  {
    match Column(columns, name)
    case None => None
    case Some(text) => t.parseFloat(text)
  }

  /** `Currency::try_new`: exactly three upper-case ASCII letters. */
  predicate IsCurrency(code: ByteString) {
    |code| == 3 && forall b | b in code :: 'A' as Byte <= b <= 'Z' as Byte
  }

  // ---- What an event asks for ----

  predicate IsUpsert(e: CdcEvent, table: ByteString) { e.table == table && e.operation != DeleteOp }

  /** The id and ticker an `instruments` row carries. */
  function Listing(t: Texts, e: CdcEvent): Option<(int, ByteString)> {
    if !IsUpsert(e, INSTRUMENTS) then None else
    match (IntColumn(t, e.columns, "id"), Column(e.columns, "ticker"))
    case (Some(id), Some(ticker)) => Some((id, ticker))
    case _ => None
  }

  /** The instrument id a `prices` row names. */
  function PricedId(t: Texts, e: CdcEvent): Option<int> {
    if IsUpsert(e, PRICES) then IntColumn(t, e.columns, "instrument_id") else None
  }

  /** The instrument id and the price a `prices` row carries. */
  function Pricing(t: Texts, e: CdcEvent): Option<(int, Float)> {
    match (PricedId(t, e), FloatColumn(t, e.columns, "price"))
    case (Some(id), Some(price)) => Some((id, price))
    case _ => None
  }

  /** The currency texts and the rate an `fx_rates` row carries. */
  function Quote(t: Texts, e: CdcEvent): Option<(Pair, Float)> {
    if !IsUpsert(e, FX_RATES) then None else
    match (Column(e.columns, "from_currency"), Column(e.columns, "to_currency"), FloatColumn(t, e.columns, "rate"))
    case (Some(from), Some(to), Some(rate)) => Some(((t.trim(from), t.trim(to)), rate))
    case _ => None
  }

  /** `Currency::new` panics on this event. */
  predicate Panics(t: Texts, e: CdcEvent) {
    match Quote(t, e)
    case None => false
    case Some((pair, _)) => !IsCurrency(pair.0) || !IsCurrency(pair.1)
  }

  /** The entity notification an event is forwarded as, if any. */
  function SignalOf(e: CdcEvent): Option<ByteString> {
    if IsUpsert(e, PRICES) || IsUpsert(e, FX_RATES) then None else
    var id := if Ascii("external_id") in e.columns then e.columns[Ascii("external_id")]
              else if Ascii("id") in e.columns then e.columns[Ascii("id")] else None;
    Some(e.table + [':' as Byte] + (if id.Some? then id.value else Ascii("unknown")))
  }

  // ---- Effects on the store, cell by cell ----

  /** The independently overwritten places of the store. */
  datatype Cell =
    | TickerCell(id: int)
    | PriceCell(ticker: ByteString)
    | FxCell(pair: Pair)
    | NameCell(nameOf: ByteString)
    | EmailCell(emailOf: ByteString)

  datatype Value = TickerValue(ticker: ByteString) | NumberValue(number: Float) | TextValue(text: Option<ByteString>)

  function Read(s: Store, c: Cell): Option<Value> {
    match c
    case TickerCell(id) => if id in s.instruments then Some(TickerValue(s.instruments[id])) else None
    case PriceCell(ticker) => if ticker in s.prices then Some(NumberValue(s.prices[ticker].current)) else None
    case FxCell(pair) => if pair in s.fxRates then Some(NumberValue(s.fxRates[pair].current)) else None
    case NameCell(user) => if user in s.users then Some(TextValue(s.users[user].name)) else None
    case EmailCell(user) => if user in s.users then Some(TextValue(s.users[user].email)) else None
  }

  /** What the event writes into cell `c`, given the ids known so far. A write to a missing price,
      rate or user is ignored; a new instrument is added. */
  function Write(t: Texts, e: CdcEvent, instruments: map<int, ByteString>, c: Cell): Option<Value> {
    match c
    case TickerCell(id) =>
      (match Listing(t, e)
       case Some((listed, ticker)) => if listed == id then Some(TickerValue(ticker)) else None
       case None => None)
    case PriceCell(ticker) =>
      (match Pricing(t, e)
       case Some((id, price)) =>
         if id in instruments && instruments[id] == ticker then Some(NumberValue(price)) else None
       case None => None)
    case FxCell(pair) =>
      (match Quote(t, e)
       case Some((quoted, rate)) => if quoted == pair then Some(NumberValue(rate)) else None
       case None => None)
    case NameCell(user) =>
      if e.table == USERS && Column(e.columns, "external_id") == Some(user) && Column(e.columns, "name").Some?
      then Some(TextValue(Column(e.columns, "name"))) else None
    case EmailCell(user) =>
      if e.table == USERS && Column(e.columns, "external_id") == Some(user) && Column(e.columns, "email").Some?
      then Some(TextValue(Column(e.columns, "email"))) else None
  }

  // ---- The whole store after an event ----

  function ListInstrument(t: Texts, instruments: map<int, ByteString>, e: CdcEvent): map<int, ByteString> {
    match Listing(t, e)
    case Some((id, ticker)) => instruments[id := ticker]
    case None => instruments
  }

  function UpdateUser(users: map<ByteString, User>, columns: ColumnMap): map<ByteString, User> {
    match Column(columns, "external_id")
    case None => users
    case Some(uid) =>
      if uid !in users then users else
      var name, email := Column(columns, "name"), Column(columns, "email");
      users[uid := User(if name.Some? then name else users[uid].name, if email.Some? then email else users[uid].email)]
  }

  function Applied(t: Texts, s: Store, e: CdcEvent): Store {
    if !s.alive then s
    else if IsUpsert(e, PRICES) then
      match Pricing(t, e)
      case Some((id, price)) =>
        if id in s.instruments then s.(prices := WithCurrent(s.prices, s.instruments[id], price)) else s
      case None => s
    else if IsUpsert(e, FX_RATES) then
      match Quote(t, e)
      case None => s
      case Some((pair, rate)) =>
        if Panics(t, e) then s.(alive := false) else s.(fxRates := WithCurrent(s.fxRates, pair, rate))
    else
      s.(instruments := ListInstrument(t, s.instruments, e),
         users := if e.table == USERS then UpdateUser(s.users, e.columns) else s.users)
  }

  function ApplyAll(t: Texts, s: Store, events: seq<CdcEvent>): Store {
    if events == [] then s else Applied(t, ApplyAll(t, s, events[..|events| - 1]), events[|events| - 1])
  }

  function SignalsOf(e: CdcEvent): seq<ByteString> { if SignalOf(e).Some? then [SignalOf(e).value] else [] }

  /** The price notification an event raises: for a known instrument in the cache, with a price. */
  function PriceSignals(t: Texts, s: Store, e: CdcEvent): seq<UpdateEvent<ByteString>> {
    match Pricing(t, e)
    case Some((id, _)) =>
      if id in s.instruments && s.instruments[id] in s.prices then [CurrentChanged(s.instruments[id])] else []
    case None => []
  }

  /** The rate notification an event raises. */
  function FxSignals(t: Texts, s: Store, e: CdcEvent): seq<UpdateEvent<Pair>> {
    match Quote(t, e)
    case Some((pair, _)) => if !Panics(t, e) && pair in s.fxRates then [CurrentChanged(pair)] else []
    case None => []
  }

  /** What the consumer forwards while it is alive. */
  function Forwarded(t: Texts, s: Store, events: seq<CdcEvent>): seq<ByteString> {
    if events == [] then [] else
    var front := events[..|events| - 1];
    Forwarded(t, s, front) + (if ApplyAll(t, s, front).alive then SignalsOf(events[|events| - 1]) else [])
  }

  // ---- What each kind of row does, by the names of its table and columns ----

  /** The column of this name holds this text. */
  predicate Shows(columns: ColumnMap, name: string, text: ByteString)
    requires forall i :: 0 <= i < |name| ==> name[i] < 128 as char
  {
    Ascii(name) in columns && columns[Ascii(name)] == Some(text)
  }

  /** The column of this name is missing or null. */
  predicate Lacks(columns: ColumnMap, name: string)
    requires forall i :: 0 <= i < |name| ==> name[i] < 128 as char
  {
    Ascii(name) !in columns || columns[Ascii(name)] == None
  }

  lemma AsciiIs(s: string, i: nat)
    requires (forall j :: 0 <= j < |s| ==> s[j] < 128 as char) && i < |s|
    ensures Ascii(s)[i] as int == s[i] as int
  {
  }

  /** Three upper-case letters. */
  predicate IsThreeLetters(code: ByteString) { |code| == 3 && forall i :: 0 <= i < 3 ==> 0x41 <= code[i] <= 0x5A }

  /** Only the current value of one entry has changed. */
  predicate OnlyCurrent<K>(before: map<K, Entry>, after: map<K, Entry>, key: K, value: Float) {
    && after.Keys == before.Keys
    && forall k :: k in before ==> after[k] == if k == key then Entry(value, before[k].history) else before[k]
  }

  /** An `fx_rates` row sets the current rate from the one currency to the other, and signals it if there is
      one; a code that is not three upper-case letters stops the consumer. */
  lemma RateRowSets(t: Texts, s: Store, e: CdcEvent, from: ByteString, to: ByteString, text: ByteString, rate: Float)
    requires s.alive && e.table == Ascii("fx_rates") && e.operation != DeleteOp
    requires Shows(e.columns, "from_currency", from) && Shows(e.columns, "to_currency", to)
    requires Shows(e.columns, "rate", text) && t.parseFloat(text) == Some(rate)
    ensures var s', pair := Applied(t, s, e), (t.trim(from), t.trim(to));
            if IsThreeLetters(pair.0) && IsThreeLetters(pair.1)
            then && s' == s.(fxRates := s'.fxRates) && OnlyCurrent(s.fxRates, s'.fxRates, pair, rate)
                 && FxSignals(t, s, e) == (if pair in s.fxRates then [CurrentChanged(pair)] else [])
            else s' == s.(alive := false) && FxSignals(t, s, e) == []
  {
    TableNamesDiffer();
    CurrencyCodes(t.trim(from));
    CurrencyCodes(t.trim(to));
  }

  lemma CurrencyCodes(code: ByteString)
    ensures IsCurrency(code) <==> IsThreeLetters(code)
  {
    if IsThreeLetters(code) {
      forall b | b in code
        ensures 'A' as Byte <= b <= 'Z' as Byte
      {
        var i :| 0 <= i < 3 && code[i] == b;
      }
    } else if |code| == 3 {
      var i :| 0 <= i < 3 && !(0x41 <= code[i] <= 0x5A);
      assert code[i] in code;
    }
  }

  lemma TableNamesDiffer()
    ensures Ascii("instruments") == INSTRUMENTS && |INSTRUMENTS| == 11
    ensures Ascii("prices") == PRICES && |PRICES| == 6
    ensures Ascii("fx_rates") == FX_RATES && |FX_RATES| == 8
    ensures Ascii("users") == USERS && |USERS| == 5
  {
  }

  /** A `prices` row sets the current price of the ticker that its instrument is listed under, and signals it
      if there is one; nothing happens for an instrument that is not listed. */
  lemma PriceRowSets(t: Texts, s: Store, e: CdcEvent, idText: ByteString, id: int, text: ByteString, price: Float)
    requires s.alive && e.table == Ascii("prices") && e.operation != DeleteOp
    requires Shows(e.columns, "instrument_id", idText) && t.parseInt(idText) == Some(id)
    requires Shows(e.columns, "price", text) && t.parseFloat(text) == Some(price)
    ensures var s' := Applied(t, s, e);
            if id in s.instruments
            then var ticker := s.instruments[id];
                 && s' == s.(prices := s'.prices) && OnlyCurrent(s.prices, s'.prices, ticker, price)
                 && PriceSignals(t, s, e) == (if ticker in s.prices then [CurrentChanged(ticker)] else [])
            else s' == s && PriceSignals(t, s, e) == []
  {
    TableNamesDiffer();
  }

  /** An `instruments` row lists its id under its ticker. */
  lemma InstrumentRowLists(t: Texts, s: Store, e: CdcEvent, idText: ByteString, id: int, ticker: ByteString)
    requires s.alive && e.table == Ascii("instruments") && e.operation != DeleteOp
    requires Shows(e.columns, "id", idText) && t.parseInt(idText) == Some(id) && Shows(e.columns, "ticker", ticker)
    ensures Applied(t, s, e) == s.(instruments := s.instruments[id := ticker])
  {
    TableNamesDiffer();
  }

  /** A row without what it needs changes nothing, and neither does a deleted price, rate or instrument. */
  lemma IncompleteRowsIgnored(t: Texts, s: Store, e: CdcEvent)
    requires e.table != Ascii("users")
    requires e.operation == DeleteOp
             || (e.table == Ascii("prices") && (Lacks(e.columns, "instrument_id") || Lacks(e.columns, "price")))
             || (e.table == Ascii("fx_rates")
                 && (Lacks(e.columns, "from_currency") || Lacks(e.columns, "to_currency") || Lacks(e.columns, "rate")))
             || (e.table == Ascii("instruments") && (Lacks(e.columns, "id") || Lacks(e.columns, "ticker")))
    ensures Applied(t, s, e) == s
  {
    TableNamesDiffer();
  }

  /** A `users` row overwrites the name and the email of a known user where it has them, and nothing else. */
  lemma UserRowOverwrites(t: Texts, s: Store, e: CdcEvent, uid: ByteString)
    requires s.alive && e.table == Ascii("users") && Shows(e.columns, "external_id", uid) && uid in s.users
    ensures var user := Applied(t, s, e).users[uid];
            && Applied(t, s, e) == s.(users := s.users[uid := user])
            && (forall name :: Shows(e.columns, "name", name) ==> user.name == Some(name))
            && (forall email :: Shows(e.columns, "email", email) ==> user.email == Some(email))
            && (Lacks(e.columns, "name") ==> user.name == s.users[uid].name)
            && (Lacks(e.columns, "email") ==> user.email == s.users[uid].email)
  {
    TableNamesDiffer();
  }

  lemma OtherUserRowsIgnored(t: Texts, s: Store, e: CdcEvent)
    requires e.table == Ascii("users")
    requires Lacks(e.columns, "external_id")
             || forall uid :: Shows(e.columns, "external_id", uid) ==> uid !in s.users
    ensures Applied(t, s, e) == s
  {
    TableNamesDiffer();
  }

  /** Every other row is forwarded as "table:id": the external id where the row has that column, else its
      id, and "unknown" where that is null or missing. Prices and rates are forwarded only when deleted. */
  lemma ForwardedAs(e: CdcEvent)
    ensures SignalOf(e).None?
            <==> e.operation != DeleteOp && (e.table == Ascii("prices") || e.table == Ascii("fx_rates"))
    ensures SignalOf(e).Some? ==>
              && (forall id :: Shows(e.columns, "external_id", id) ==> SignalOf(e).value == e.table + [0x3A] + id)
              && (forall id :: Ascii("external_id") !in e.columns && Shows(e.columns, "id", id) ==>
                    SignalOf(e).value == e.table + [0x3A] + id)
              && (Lacks(e.columns, "external_id") && (Ascii("external_id") in e.columns || Lacks(e.columns, "id")) ==>
                    SignalOf(e).value == e.table + [0x3A] + Ascii("unknown"))
  {
    TableNamesDiffer();
  }

  // ---- The consumer ----

  class EventConsumer {
    const texts: Texts
    const prices: TimeSeriesCache<ByteString>
    const fxRates: TimeSeriesCache<Pair>
    var alive: bool
    var instruments: map<int, ByteString>
    var users: map<ByteString, User>
    var signals: seq<ByteString>

    ghost function State(): Store
      reads this, prices, fxRates
    {
      Store(alive, instruments, prices.data, fxRates.data, users)
    }

    constructor (texts: Texts, seed: map<int, ByteString>, prices: TimeSeriesCache<ByteString>,
                 fxRates: TimeSeriesCache<Pair>, users: map<ByteString, User>)
      ensures this.texts == texts && this.prices == prices && this.fxRates == fxRates
      ensures State() == Store(true, seed, prices.data, fxRates.data, users) && signals == []
    {
      this.texts, this.prices, this.fxRates := texts, prices, fxRates;
      alive, instruments, signals := true, seed, [];
      this.users := users;
    }

    method UpdateInstrumentMap(e: CdcEvent)
      requires IsUpsert(e, INSTRUMENTS)
      modifies this`instruments
      ensures instruments == ListInstrument(texts, old(instruments), e)
    {
      var id := Column(e.columns, "id");
      if id.None? {
        return;
      }
      var ticker := Column(e.columns, "ticker");
      if ticker.None? {
        return;
      }
      var parsed := texts.parseInt(id.value);
      if parsed.Some? {
        instruments := instruments[parsed.value := ticker.value];
      }
    }

    method ApplyPrice(e: CdcEvent)
      requires alive && IsUpsert(e, PRICES)
      modifies prices`data, prices.notifier
      ensures State() == Applied(texts, old(State()), e)
      ensures prices.Signalled() == old(prices.Signalled())
                                    + (if old(prices.CanSignal()) then PriceSignals(texts, old(State()), e) else [])
    {
      var id := IntColumn(texts, e.columns, "instrument_id");
      if id.None? || id.value !in instruments {
        return;
      }
      var ticker := instruments[id.value];
      var price := FloatColumn(texts, e.columns, "price");
      if price.Some? {
        var _ := prices.UpdateCurrent(ticker, price.value);
      }
    }

    method ApplyFxRate(e: CdcEvent)
      requires alive && IsUpsert(e, FX_RATES) && !IsUpsert(e, PRICES)
      modifies fxRates`data, fxRates.notifier, this`alive
      ensures State() == Applied(texts, old(State()), e)
      ensures fxRates.Signalled() == old(fxRates.Signalled())
                                     + (if old(fxRates.CanSignal()) then FxSignals(texts, old(State()), e) else [])
    {
      var from := Column(e.columns, "from_currency");
      if from.None? {
        return;
      }
      var to := Column(e.columns, "to_currency");
      if to.None? {
        return;
      }
      var rate := FloatColumn(texts, e.columns, "rate");
      if rate.None? {
        return;
      }
      var pair := (texts.trim(from.value), texts.trim(to.value));
      if !IsCurrency(pair.0) || !IsCurrency(pair.1) {
        alive := false;
        return;
      }
      var _ := fxRates.UpdateCurrent(pair, rate.value);
    }

    method ApplyUser(columns: ColumnMap)
      modifies this`users
      ensures users == UpdateUser(old(users), columns)
    {
      var uid := Column(columns, "external_id");
      if uid.None? || uid.value !in users {
        return;
      }
      var name, email := Column(columns, "name"), Column(columns, "email");
      if name.Some? {
        users := users[uid.value := users[uid.value].(name := name)];
      }
      if email.Some? {
        users := users[uid.value := users[uid.value].(email := email)];
      }
    }

    method Dispatch(e: CdcEvent)
      requires alive
      modifies this, prices`data, prices.notifier, fxRates`data, fxRates.notifier
      ensures State() == Applied(texts, old(State()), e)
      ensures signals == old(signals) + SignalsOf(e)
      ensures prices.Signalled() == old(prices.Signalled())
                                    + (if old(prices.CanSignal()) then PriceSignals(texts, old(State()), e) else [])
      ensures fxRates.Signalled() == old(fxRates.Signalled())
                                     + (if old(fxRates.CanSignal()) then FxSignals(texts, old(State()), e) else [])
    {
      if IsUpsert(e, INSTRUMENTS) {
        UpdateInstrumentMap(e);
      }
      if IsUpsert(e, PRICES) {
        ApplyPrice(e);
      } else if IsUpsert(e, FX_RATES) {
        ApplyFxRate(e);
      } else {
        if e.table == USERS {
          ApplyUser(e.columns);
        }
        signals := signals + [SignalOf(e).value];
      }
    }

    /** The receive loop, over the events it is sent. */
    method Consume(events: seq<CdcEvent>)
      modifies this, prices`data, prices.notifier, fxRates`data, fxRates.notifier
      ensures State() == ApplyAll(texts, old(State()), events)
      ensures signals == old(signals) + Forwarded(texts, old(State()), events)
    {
      var i := 0;
      while i < |events| && alive
        invariant 0 <= i <= |events|
        invariant State() == ApplyAll(texts, old(State()), events[..i])
        invariant signals == old(signals) + Forwarded(texts, old(State()), events[..i])
      {
        Dispatch(events[i]);
        assert events[..i + 1][..i] == events[..i];
        i := i + 1;
      }
      DeadStays(texts, old(State()), events, i);
    }
  }

  lemma {:induction false} DeadStays(t: Texts, s: Store, events: seq<CdcEvent>, i: nat)
    requires i <= |events|
    requires i < |events| ==> !ApplyAll(t, s, events[..i]).alive
    ensures ApplyAll(t, s, events) == ApplyAll(t, s, events[..i])
    ensures Forwarded(t, s, events) == Forwarded(t, s, events[..i])
    decreases |events|
  {
    if i < |events| {
      var shorter := events[..|events| - 1];
      assert shorter[..i] == events[..i];
      DeadStays(t, s, shorter, i);
    } else {
      assert events[..i] == events;
    }
  }
}
