/** Allocation of a portfolio's value to instrument types and to weighted categories
    (crates/calce-core/src/calc/allocation.rs), in reals. */
module Allocation {
  import opened Prelude
  import opened Domain
  import opened Sorting
  import opened Sums
  import opened MarketValue

  datatype Entry<K> = Entry(key: K, value: Money, weight: real)

  /** A part of the portfolio's value that goes to a category. */
  datatype Share<K> = Share(key: K, amount: real)

  function AmountOf<K>(s: Share<K>): real { s.amount }

  function EntryAmount<K>(e: Entry<K>): real { e.value.amount }

  function EntryWeight<K>(e: Entry<K>): real { e.weight }

  function ForKey<K(==)>(k: K): Share<K> -> real { (s: Share<K>) => if s.key == k then s.amount else 0.0 }

  function Collected<K(==)>(shares: seq<Share<K>>, k: K): real { SumBy(shares, ForKey(k)) }

  predicate Heavier<K>(a: Entry<K>, b: Entry<K>) { a.weight > b.weight }

  // ---- Sums over entries are sums over shares ----

  function At<K(==)>(k: K, amount: real): K -> real { (x: K) => if x == k then amount else 0.0 }

  function CollectedAt<K(==)>(shares: seq<Share<K>>): K -> real { (k: K) => Collected(shares, k) }

  lemma {:induction false} SumAtOneKey<K>(keys: seq<K>, k: K, amount: real)
    requires Distinct(keys) && k in keys
    ensures SumBy(keys, At(k, amount)) == amount
  {
    var front, last := keys[..|keys| - 1], keys[|keys| - 1];
    if last == k {
      SumZero(front, At(k, amount));
    } else {
      assert keys == front + [last];
      SumAtOneKey(front, k, amount);
    }
  }

  /** Collecting the shares by key loses nothing: over distinct keys that cover them, the collected
      amounts add up to the shares. */
  lemma {:induction false} CollectingConserves<K(!new)>(shares: seq<Share<K>>, keys: seq<K>)
    requires Distinct(keys) && forall s :: s in shares ==> s.key in keys
    ensures SumBy(keys, CollectedAt(shares)) == SumBy(shares, AmountOf)
  {
    if shares == [] {
      SumZero(keys, CollectedAt(shares));
    } else {
      var front, last := shares[..|shares| - 1], shares[|shares| - 1];
      assert shares == front + [last] && last in shares;
      assert forall s :: s in front ==> s in shares;
      CollectingConserves(front, keys);
      forall k | k in keys
        ensures CollectedAt(shares)(k) == CollectedAt(front)(k) + At(last.key, last.amount)(k)
      {
      }
      SumPointwise(keys, CollectedAt(shares), CollectedAt(front), At(last.key, last.amount));
      SumAtOneKey(keys, last.key, last.amount);
    }
  }

  // ---- The two loops ----

  /** `entry(k).or_default() += amount`. */
  function Added<K(==)>(sums: map<K, real>, k: K, amount: real): map<K, real> {
    sums[k := (if k in sums then sums[k] else 0.0) + amount]
  }

  /** The map holds, for the keys of the shares, what they collect. */
  ghost predicate Groups<K(!new)>(sums: map<K, real>, shares: seq<Share<K>>) {
    && (forall k :: k in sums <==> exists s :: s in shares && s.key == k)
    && (forall k :: k in sums ==> sums[k] == Collected(shares, k))
  }

  lemma {:induction false} NothingCollected<K(!new)>(shares: seq<Share<K>>, k: K)
    requires forall s :: s in shares ==> s.key != k
    ensures Collected(shares, k) == 0.0
  {
    SumZero(shares, ForKey(k));
  }

  lemma GroupsOneMore<K(!new)>(sums: map<K, real>, shares: seq<Share<K>>, s: Share<K>)
    requires Groups(sums, shares)
    ensures Groups(Added(sums, s.key, s.amount), shares + [s])
  {
    var now, more := Added(sums, s.key, s.amount), shares + [s];
    if s.key !in sums {
      NothingCollected(shares, s.key);
    }
    forall k
      ensures (k in now <==> exists x :: x in more && x.key == k) && (k in now ==> now[k] == Collected(more, k))
    {
      SumSnoc(shares, s, ForKey(k));
      assert s in more && forall x :: x in more <==> x in shares || x == s;
    }
  }

  function TypeShare(v: ValuedPosition, types: map<InstrumentId, InstrumentType>): Share<InstrumentType> {
    Share(if v.id in types then types[v.id] else Other, v.valueInBase.amount)
  }

  function TypeShares(positions: seq<ValuedPosition>, types: map<InstrumentId, InstrumentType>)
    : seq<Share<InstrumentType>>
  {
    if positions == [] then [] else
    TypeShares(positions[..|positions| - 1], types) + [TypeShare(positions[|positions| - 1], types)]
  }

  const UNCATEGORIZED := "Uncategorized"

  function WeightsOf(id: InstrumentId, weights: map<InstrumentId, seq<Weight>>): seq<Weight> {
    if id in weights then weights[id] else []
  }

  function Split(amount: real, ws: seq<Weight>): seq<Share<string>> {
    if ws == [] then [] else
    Split(amount, ws[..|ws| - 1]) + [Part(amount, ws[|ws| - 1])]
  }

  function Part(amount: real, w: Weight): Share<string> { Share(w.category, amount * w.share) }

  /** The categories of one position; all of its value is uncategorized without weights. */
  function SharesOf(v: ValuedPosition, weights: map<InstrumentId, seq<Weight>>): seq<Share<string>> {
    var ws := WeightsOf(v.id, weights);
    if ws == [] then [Share(UNCATEGORIZED, v.valueInBase.amount)] else Split(v.valueInBase.amount, ws)
  }

  function WeightShares(positions: seq<ValuedPosition>, weights: map<InstrumentId, seq<Weight>>): seq<Share<string>> {
    if positions == [] then [] else
    WeightShares(positions[..|positions| - 1], weights) + SharesOf(positions[|positions| - 1], weights)
  }

  predicate OtherKey<K(==)>(a: Entry<K>, b: Entry<K>) { a.key != b.key }

  ghost predicate HasShare<K(!new)>(shares: seq<Share<K>>, k: K) { exists s :: s in shares && s.key == k }

  /** What the shares of the entry's key collect, and its part of the given total, zero if that is. */
  predicate EntryOk<K(==)>(e: Entry<K>, shares: seq<Share<K>>, total: Money) {
    && e.value == Money(Collected(shares, e.key), total.currency)
    && e.weight == if total.amount == 0.0 then 0.0 else e.value.amount / total.amount
  }

  /** One entry for each key of the shares, the heaviest first. */
  ghost predicate IsAllocation<K(!new)>(entries: seq<Entry<K>>, shares: seq<Share<K>>, total: Money) {
    && AllPairs(entries, OtherKey) && Ordered(entries, Heavier)
    && (forall e :: e in entries ==> EntryOk(e, shares, total) && HasShare(shares, e.key))
    && (forall s :: s in shares ==> HasEntry(entries, s.key))
  }

  ghost predicate HasEntry<K(!new)>(entries: seq<Entry<K>>, k: K) { exists e :: e in entries && e.key == k }

  method TypeAllocation(positions: seq<ValuedPosition>, total: Money, types: map<InstrumentId, InstrumentType>)
    returns (entries: seq<Entry<InstrumentType>>)
    ensures IsAllocation(entries, TypeShares(positions, types), total)
  {
    var sums: map<InstrumentType, real> := map[];
    for i := 0 to |positions|
      invariant Groups(sums, TypeShares(positions[..i], types))
    {
      assert positions[..i + 1][..i] == positions[..i];
      var share := TypeShare(positions[i], types);
      GroupsOneMore(sums, TypeShares(positions[..i], types), share);
      sums := Added(sums, share.key, share.amount);
    }
    assert positions[..|positions|] == positions;
    entries := Entries(sums, TypeShares(positions, types), total);
  }

  method WeightedAllocation(positions: seq<ValuedPosition>, total: Money, weights: map<InstrumentId, seq<Weight>>)
    returns (entries: seq<Entry<string>>)
    ensures IsAllocation(entries, WeightShares(positions, weights), total)
  {
    var sums: map<string, real> := map[];
    for i := 0 to |positions|
      invariant Groups(sums, WeightShares(positions[..i], weights))
    {
      assert positions[..i + 1][..i] == positions[..i];
      ghost var before := WeightShares(positions[..i], weights);
      var amount, ws := positions[i].valueInBase.amount, WeightsOf(positions[i].id, weights);
      if ws == [] {
        GroupsOneMore(sums, before, Share(UNCATEGORIZED, amount));
        sums := Added(sums, UNCATEGORIZED, amount);
      } else {
        sums := AddWeights(sums, before, amount, ws);
      }
    }
    assert positions[..|positions|] == positions;
    entries := Entries(sums, WeightShares(positions, weights), total);
  }

  /** The inner loop: the weights of one position. */
  method AddWeights(sums: map<string, real>, ghost before: seq<Share<string>>, amount: real, ws: seq<Weight>)
    returns (r: map<string, real>)
    requires Groups(sums, before)
    ensures Groups(r, before + Split(amount, ws))
  {
    r := sums;
    assert before + Split(amount, ws[..0]) == before;
    for j := 0 to |ws|
      invariant Groups(r, before + Split(amount, ws[..j]))
    {
      assert ws[..j + 1][..j] == ws[..j];
      var share := Part(amount, ws[j]);
      GroupsOneMore(r, before + Split(amount, ws[..j]), share);
      assert before + Split(amount, ws[..j]) + [share] == before + Split(amount, ws[..j + 1]);
      r := Added(r, share.key, share.amount);
    }
    assert ws[..|ws|] == ws;
  }

  /** The entries of the map, in its own order, and then sorted. */
  method Entries<K(!new, ==)>(sums: map<K, real>, ghost shares: seq<Share<K>>, total: Money)
    returns (entries: seq<Entry<K>>)
    requires Groups(sums, shares)
    ensures IsAllocation(entries, shares, total)
  {
    entries := [];
    var rest := sums.Keys;
    while rest != {}
      invariant rest <= sums.Keys
      invariant forall e :: e in entries ==> e.key in sums && e.key !in rest && e == EntryFor(sums, e.key, total)
      invariant forall k :: k in sums && k !in rest ==> EntryFor(sums, k, total) in entries
      invariant AllPairs(entries, OtherKey)
    {
      var k: K :| k in rest;
      assert forall i :: 0 <= i < |entries| ==> entries[i] in entries;
      entries := entries + [EntryFor(sums, k, total)];
      rest := rest - {k};
    }
    EntriesAllocate(entries, sums, shares, total);
    entries := SortBy(entries, Heavier);
  }

  function EntryFor<K(==)>(sums: map<K, real>, k: K, total: Money): Entry<K>
    requires k in sums
  {
    Entry(k, Money(sums[k], total.currency), if total.amount == 0.0 then 0.0 else sums[k] / total.amount)
  }

  /** The entries are those of the map, whatever their order. */
  ghost predicate AreEntries<K(!new)>(entries: seq<Entry<K>>, sums: map<K, real>, total: Money) {
    && (forall e :: e in entries ==> e.key in sums && e == EntryFor(sums, e.key, total))
    && (forall k :: k in sums ==> EntryFor(sums, k, total) in entries)
  }

  lemma EntriesCover<K(!new)>(entries: seq<Entry<K>>, sums: map<K, real>, shares: seq<Share<K>>, total: Money)
    requires Groups(sums, shares) && AreEntries(entries, sums, total)
    ensures forall e :: e in entries ==> EntryOk(e, shares, total) && HasShare(shares, e.key)
    ensures forall s :: s in shares ==> HasEntry(entries, s.key)
  {
    forall s | s in shares
      ensures HasEntry(entries, s.key)
    {
      assert EntryFor(sums, s.key, total) in entries;
    }
  }

  lemma EntriesAllocate<K(!new)>(entries: seq<Entry<K>>, sums: map<K, real>, shares: seq<Share<K>>, total: Money)
    requires Groups(sums, shares) && AllPairs(entries, OtherKey) && AreEntries(entries, sums, total)
    ensures IsAllocation(SortBy(entries, Heavier), shares, total)
  {
    SortByMembers(entries, Heavier);
    SortByOrders(entries, Heavier);
    SortByKeepsPairs(entries, Heavier, OtherKey);
    assert AreEntries(SortBy(entries, Heavier), sums, total);
    EntriesCover(SortBy(entries, Heavier), sums, shares, total);
  }

  // ---- Conservation ----

  function Keys<K>(entries: seq<Entry<K>>): (r: seq<K>)
    ensures |r| == |entries| && forall i :: 0 <= i < |r| ==> r[i] == entries[i].key
  {
    if entries == [] then [] else Keys(entries[..|entries| - 1]) + [entries[|entries| - 1].key]
  }

  lemma {:induction false} SumOverKeys<K(!new)>(entries: seq<Entry<K>>, shares: seq<Share<K>>)
    requires forall e :: e in entries ==> e.value.amount == Collected(shares, e.key)
    ensures SumBy(entries, EntryAmount) == SumBy(Keys(entries), CollectedAt(shares))
  {
    if entries != [] {
      var front, last := entries[..|entries| - 1], entries[|entries| - 1];
      assert entries == front + [last] && last in entries;
      SumOverKeys(front, shares);
      SumSnoc(Keys(front), last.key, CollectedAt(shares));
    }
  }

  /** The entries' amounts add up to the shares. */
  lemma AllocationConserves<K(!new)>(entries: seq<Entry<K>>, shares: seq<Share<K>>, total: Money)
    requires IsAllocation(entries, shares, total)
    ensures SumBy(entries, EntryAmount) == SumBy(shares, AmountOf)
  {
    forall e | e in entries
      ensures e.value.amount == Collected(shares, e.key)
    {
      assert EntryOk(e, shares, total);
    }
    SumOverKeys(entries, shares);
    forall s | s in shares
      ensures s.key in Keys(entries)
    {
      assert HasEntry(entries, s.key);
      var i :| 0 <= i < |entries| && entries[i].key == s.key;
      assert Keys(entries)[i] == s.key;
    }
    CollectingConserves(shares, Keys(entries));
  }

  lemma EntryScaled<K(!new)>(e: Entry<K>, shares: seq<Share<K>>, total: Money)
    requires EntryOk(e, shares, total) && total.amount != 0.0
    ensures e.weight == e.value.amount * (1.0 / total.amount)
  {
    Divided(e.value.amount, total.amount);
  }

  lemma Divided(a: real, b: real)
    requires b != 0.0
    ensures a / b == a * (1.0 / b) && b * (1.0 / b) == 1.0
  {
  }

  /** One factor takes every amount to its weight. */
  lemma Scale<K(!new)>(entries: seq<Entry<K>>, shares: seq<Share<K>>, total: Money) returns (c: real)
    requires IsAllocation(entries, shares, total) && total.amount != 0.0
    ensures total.amount * c == 1.0
    ensures forall e :: e in entries ==> EntryWeight(e) == EntryAmount(e) * c
  {
    c := 1.0 / total.amount;
    Divided(0.0, total.amount);
    forall e | e in entries
      ensures EntryWeight(e) == EntryAmount(e) * c
    {
      EntryScaled(e, shares, total);
    }
  }

  /** When the total is not zero and is what the shares add up to, the weights add up to one. */
  lemma WeightsSumToOne<K(!new)>(entries: seq<Entry<K>>, shares: seq<Share<K>>, total: Money)
    requires IsAllocation(entries, shares, total) && total.amount != 0.0 && total.amount == SumBy(shares, AmountOf)
    ensures SumBy(entries, EntryWeight) == 1.0
  {
    AllocationConserves(entries, shares, total);
    var c := Scale(entries, shares, total);
    ScaledToOne(entries, total.amount, c);
  }

  lemma ScaledToOne<K>(entries: seq<Entry<K>>, total: real, c: real)
    requires SumBy(entries, EntryAmount) == total && total * c == 1.0
    requires forall e :: e in entries ==> EntryWeight(e) == EntryAmount(e) * c
    ensures SumBy(entries, EntryWeight) == 1.0
  {
    SumScaled(entries, EntryWeight, EntryAmount, c);
  }

  lemma {:induction false} TypeSharesSum(positions: seq<ValuedPosition>, types: map<InstrumentId, InstrumentType>)
    ensures SumBy(TypeShares(positions, types), AmountOf) == SumBy(positions, InBase)
  {
    if positions != [] {
      var front, last := positions[..|positions| - 1], positions[|positions| - 1];
      TypeSharesSum(front, types);
      SumSnoc(TypeShares(front, types), TypeShare(last, types), AmountOf);
    }
  }

  /** Allocating by type loses nothing, whatever the types. */
  lemma TypesConserve(positions: seq<ValuedPosition>, types: map<InstrumentId, InstrumentType>, total: Money,
                      entries: seq<Entry<InstrumentType>>)
    requires IsAllocation(entries, TypeShares(positions, types), total)
    ensures SumBy(entries, EntryAmount) == SumBy(positions, InBase)
    ensures total.amount == SumBy(positions, InBase) != 0.0 ==> SumBy(entries, EntryWeight) == 1.0
  {
    TypeSharesSum(positions, types);
    AllocationConserves(entries, TypeShares(positions, types), total);
    if total.amount == SumBy(positions, InBase) != 0.0 {
      WeightsSumToOne(entries, TypeShares(positions, types), total);
    }
  }

  function ShareOf(w: Weight): real { w.share }

  /** How much of a position's value its weights give away: all of it when it has none. */
  function WeightSum(id: InstrumentId, weights: map<InstrumentId, seq<Weight>>): real {
    if WeightsOf(id, weights) == [] then 1.0 else SumBy(WeightsOf(id, weights), ShareOf)
  }

  function Spread(weights: map<InstrumentId, seq<Weight>>): ValuedPosition -> real {
    (v: ValuedPosition) => v.valueInBase.amount * WeightSum(v.id, weights)
  }

  lemma {:induction false} SplitSum(amount: real, ws: seq<Weight>)
    ensures SumBy(Split(amount, ws), AmountOf) == amount * SumBy(ws, ShareOf)
  {
    if ws != [] {
      var front, last := ws[..|ws| - 1], ws[|ws| - 1];
      SplitSum(amount, front);
      SumSnoc(Split(amount, front), Part(amount, last), AmountOf);
      Distributes(SumBy(front, ShareOf), last.share, amount);
    }
  }

  lemma SharesOfSum(v: ValuedPosition, weights: map<InstrumentId, seq<Weight>>)
    ensures SumBy(SharesOf(v, weights), AmountOf) == Spread(weights)(v)
  {
    if WeightsOf(v.id, weights) == [] {
      SumSnoc([], Share(UNCATEGORIZED, v.valueInBase.amount), AmountOf);
      assert [] + [Share(UNCATEGORIZED, v.valueInBase.amount)] == SharesOf(v, weights);
    } else {
      SplitSum(v.valueInBase.amount, WeightsOf(v.id, weights));
    }
  }

  lemma {:induction false} WeightSharesSum(positions: seq<ValuedPosition>, weights: map<InstrumentId, seq<Weight>>)
    ensures SumBy(WeightShares(positions, weights), AmountOf) == SumBy(positions, Spread(weights))
  {
    if positions != [] {
      var front, last := positions[..|positions| - 1], positions[|positions| - 1];
      WeightSharesSum(front, weights);
      SumConcat(WeightShares(front, weights), SharesOf(last, weights), AmountOf);
      SharesOfSum(last, weights);
    }
  }

  /** Allocating by weights gives each position's value times the sum of its weights, or all of it when it
      has none; so nothing is lost if every list of weights sums to one. */
  lemma WeightsConserve(positions: seq<ValuedPosition>, weights: map<InstrumentId, seq<Weight>>, total: Money,
                        entries: seq<Entry<string>>)
    requires IsAllocation(entries, WeightShares(positions, weights), total)
    ensures SumBy(entries, EntryAmount) == SumBy(positions, Spread(weights))
    ensures (forall v :: v in positions ==> WeightSum(v.id, weights) == 1.0)
            ==> SumBy(entries, EntryAmount) == SumBy(positions, InBase)
  {
    WeightSharesSum(positions, weights);
    AllocationConserves(entries, WeightShares(positions, weights), total);
    if forall v :: v in positions ==> WeightSum(v.id, weights) == 1.0 {
      SumSame(positions, Spread(weights), InBase);
    }
  }

  // ---- What each entry is, position by position ----

  /** What a position gives to type `k`: all of its value if that is its type, and a position without one
      counts as other. */
  function GivenToType(k: InstrumentType, types: map<InstrumentId, InstrumentType>): ValuedPosition -> real {
    (v: ValuedPosition) =>
      if (v.id in types && types[v.id] == k) || (v.id !in types && k == Other) then v.valueInBase.amount else 0.0
  }

  lemma {:induction false} CollectedByType(positions: seq<ValuedPosition>, types: map<InstrumentId, InstrumentType>,
                                           k: InstrumentType)
    ensures Collected(TypeShares(positions, types), k) == SumBy(positions, GivenToType(k, types))
  {
    if positions != [] {
      var front, last := positions[..|positions| - 1], positions[|positions| - 1];
      CollectedByType(front, types, k);
      SumSnoc(TypeShares(front, types), TypeShare(last, types), ForKey(k));
    }
  }

  /** The share of a category in a list of weights. */
  function InCategory(k: string): Weight -> real { (w: Weight) => if w.category == k then w.share else 0.0 }

  /** What a position gives to category `k`: its value times the shares its weights give to `k`; without
      weights, all of its value to "Uncategorized". */
  function GivenToCategory(k: string, weights: map<InstrumentId, seq<Weight>>): ValuedPosition -> real {
    (v: ValuedPosition) =>
      if v.id in weights && weights[v.id] != [] then v.valueInBase.amount * SumBy(weights[v.id], InCategory(k))
      else if k == "Uncategorized" then v.valueInBase.amount else 0.0
  }

  lemma {:induction false} CollectedFromSplit(amount: real, ws: seq<Weight>, k: string)
    ensures Collected(Split(amount, ws), k) == amount * SumBy(ws, InCategory(k))
  {
    if ws != [] {
      var front, last := ws[..|ws| - 1], ws[|ws| - 1];
      CollectedFromSplit(amount, front, k);
      SumSnoc(Split(amount, front), Part(amount, last), ForKey(k));
      Distributes(SumBy(front, InCategory(k)), InCategory(k)(last), amount);
    }
  }

  lemma CollectedFromOne(v: ValuedPosition, weights: map<InstrumentId, seq<Weight>>, k: string)
    ensures Collected(SharesOf(v, weights), k) == GivenToCategory(k, weights)(v)
  {
    if WeightsOf(v.id, weights) == [] {
      SumSnoc([], Share(UNCATEGORIZED, v.valueInBase.amount), ForKey(k));
      assert [] + [Share(UNCATEGORIZED, v.valueInBase.amount)] == SharesOf(v, weights);
    } else {
      CollectedFromSplit(v.valueInBase.amount, WeightsOf(v.id, weights), k);
    }
  }

  lemma {:induction false} CollectedByCategory(positions: seq<ValuedPosition>, weights: map<InstrumentId, seq<Weight>>,
                                               k: string)
    ensures Collected(WeightShares(positions, weights), k) == SumBy(positions, GivenToCategory(k, weights))
  {
    if positions != [] {
      var front, last := positions[..|positions| - 1], positions[|positions| - 1];
      CollectedByCategory(front, weights, k);
      SumConcat(WeightShares(front, weights), SharesOf(last, weights), ForKey(k));
      CollectedFromOne(last, weights, k);
    }
  }

  /** The entry's amount in the total's currency, and its part of the total, or zero if that is zero. */
  predicate IsEntry<K>(e: Entry<K>, amount: real, total: Money) {
    && e.value.amount == amount && e.value.currency == total.currency
    && (total.amount == 0.0 ==> e.weight == 0.0)
    && (total.amount != 0.0 ==> e.weight * total.amount == amount)
  }

  /** No two entries have the same key, and no entry weighs more than one before it. */
  predicate IsRanked<K(==)>(entries: seq<Entry<K>>) {
    forall i, j :: 0 <= i < j < |entries| ==> entries[i].key != entries[j].key && entries[i].weight >= entries[j].weight
  }

  lemma EntryIs<K(!new)>(e: Entry<K>, shares: seq<Share<K>>, total: Money)
    requires EntryOk(e, shares, total)
    ensures IsEntry(e, Collected(shares, e.key), total)
  {
    if total.amount != 0.0 {
      DividedBack(Collected(shares, e.key), total.amount);
    }
  }

  lemma DividedBack(a: real, b: real)
    requires b != 0.0
    ensures a / b * b == a
  {
  }

  lemma RankedByWeight<K(!new)>(entries: seq<Entry<K>>, shares: seq<Share<K>>, total: Money)
    requires IsAllocation(entries, shares, total)
    ensures IsRanked(entries)
  {
    forall i, j | 0 <= i < j < |entries|
      ensures entries[i].key != entries[j].key && entries[i].weight >= entries[j].weight
    {
      assert OtherKey(entries[i], entries[j]) && !Heavier(entries[j], entries[i]);
    }
  }

  /** Each type's entry is what the positions of that type are worth, heaviest first; and there is one for
      the type of every position. */
  lemma TypeEntriesAre(positions: seq<ValuedPosition>, types: map<InstrumentId, InstrumentType>, total: Money,
                       entries: seq<Entry<InstrumentType>>)
    requires IsAllocation(entries, TypeShares(positions, types), total)
    ensures IsRanked(entries)
    ensures forall e :: e in entries ==> IsEntry(e, SumBy(positions, GivenToType(e.key, types)), total)
    ensures forall v :: v in positions ==> HasEntry(entries, if v.id in types then types[v.id] else Other)
  {
    var shares := TypeShares(positions, types);
    RankedByWeight(entries, shares, total);
    forall e | e in entries
      ensures IsEntry(e, SumBy(positions, GivenToType(e.key, types)), total)
    {
      EntryIs(e, shares, total);
      CollectedByType(positions, types, e.key);
    }
    forall v | v in positions
      ensures HasEntry(entries, if v.id in types then types[v.id] else Other)
    {
      SharedOut(positions, types, v);
    }
  }

  lemma {:induction false} SharedOut(positions: seq<ValuedPosition>, types: map<InstrumentId, InstrumentType>,
                                     v: ValuedPosition)
    requires v in positions
    ensures TypeShare(v, types) in TypeShares(positions, types)
  {
    var front, last := positions[..|positions| - 1], positions[|positions| - 1];
    if v != last {
      assert v in front by {
        var i :| 0 <= i < |positions| && positions[i] == v;
        assert front[i] == v;
      }
      SharedOut(front, types, v);
    }
  }

  /** Each category's entry is what the positions give to it, heaviest first. */
  lemma CategoryEntriesAre(positions: seq<ValuedPosition>, weights: map<InstrumentId, seq<Weight>>, total: Money,
                           entries: seq<Entry<string>>)
    requires IsAllocation(entries, WeightShares(positions, weights), total)
    ensures IsRanked(entries)
    ensures forall e :: e in entries ==> IsEntry(e, SumBy(positions, GivenToCategory(e.key, weights)), total)
  {
    var shares := WeightShares(positions, weights);
    RankedByWeight(entries, shares, total);
    forall e | e in entries
      ensures IsEntry(e, SumBy(positions, GivenToCategory(e.key, weights)), total)
    {
      EntryIs(e, shares, total);
      CollectedByCategory(positions, weights, e.key);
    }
  }
}
