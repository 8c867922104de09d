/** Address and owner inventory kept from ledger deltas and dirty marks
    (buffers/buffer.go, readmodel/project.go, readmodel/dirty.go), against the plain
    aggregate of the ledger. */
module Inventory {
  import opened LedgerRows
  import opened Positions

  // ----- tables -------------------------------------------------------------------------

  /** One row of structs.player_address; a missing player is NULL. */
  datatype Association = Association(player: Option<string>, status: string)

  datatype Vault = Vault(address: string, account: nat, created: Option<bool>)

  /** A balance key of one address, and of one owner. */
  datatype Holding = Holding(holder: string, denom: string)

  datatype Delta = Delta(address: string, denom: string, amount: int)

  /** `liquid` and `held` are the address and the owner rows of structs.api_inventory. */
  datatype Books = Books(
    ledger: seq<LedgerRow>, players: map<string, Association>, vaults: map<string, Vault>,
    liquid: map<Holding, int>, held: map<Holding, int>)

  /** What handlers marked: addresses, and the players and guilds by identifier. */
  datatype Dirty = Dirty(addresses: set<string>, owners: set<string>) {
    function Merge(other: Dirty): Dirty {
      Dirty(addresses + other.addresses, owners + other.owners)
    }
  }

  const CLEAN := Dirty({}, {})

  /** Marks ignore the empty identifier. */
  function Named(ids: set<string>): set<string> {
    ids - {""}
  }

  // ----- the ledger ------------------------------------------------------------------------

  function Identities(rows: seq<LedgerRow>): set<Identity> {
    set i | 0 <= i < |rows| :: IdentityOf(rows[i])
  }

  /** The rows an insert stores: each one whose identity is not stored before it. */
  function Fresh(ledger: seq<LedgerRow>, rows: seq<LedgerRow>): seq<LedgerRow> {
    if rows == [] then []
    else
      var earlier, last := Fresh(ledger, rows[..|rows| - 1]), rows[|rows| - 1];
      if IdentityOf(last) in Identities(ledger + earlier) then earlier else earlier + [last]
  }

  function Deltas(rows: seq<LedgerRow>): (ds: seq<Delta>)
    ensures |ds| == |rows|
    ensures forall i :: 0 <= i < |rows| ==> ds[i] == Delta(rows[i].address, rows[i].denom, Signed(rows[i]))
  {
    seq(|rows|, i requires 0 <= i < |rows| => Delta(rows[i].address, rows[i].denom, Signed(rows[i])))
  }

  lemma {:induction false} FreshInParts(ledger: seq<LedgerRow>, a: seq<LedgerRow>, b: seq<LedgerRow>)
    ensures Fresh(ledger, a + b) == Fresh(ledger, a) + Fresh(ledger + Fresh(ledger, a), b)
  {
    if b == [] {
      assert a + b == a;
    } else {
      var init := b[..|b| - 1];
      assert (a + b)[..|a + b| - 1] == a + init;
      FreshInParts(ledger, a, init);
      assert ledger + (Fresh(ledger, a) + Fresh(ledger + Fresh(ledger, a), init))
          == ledger + Fresh(ledger, a) + Fresh(ledger + Fresh(ledger, a), init);
    }
  }

  lemma {:induction false} FreshStoresAll(ledger: seq<LedgerRow>, rows: seq<LedgerRow>)
    ensures Identities(rows) <= Identities(ledger + Fresh(ledger, rows))
  {
    if rows != [] {
      var init, last := rows[..|rows| - 1], rows[|rows| - 1];
      FreshStoresAll(ledger, init);
      var earlier, now := ledger + Fresh(ledger, init), ledger + Fresh(ledger, rows);
      assert Identities(earlier) <= Identities(now) by {
        forall i | 0 <= i < |earlier| ensures IdentityOf(earlier[i]) in Identities(now) { assert now[i] == earlier[i]; }
      }
      assert IdentityOf(last) in Identities(now) by {
        if IdentityOf(last) !in Identities(earlier) { assert now[|now| - 1] == last; }
      }
      forall i | 0 <= i < |rows| ensures IdentityOf(rows[i]) in Identities(now) {
        if i < |init| { assert rows[i] == init[i]; }
      }
    }
  }

  /** The six columns of the unique index agree. */
  predicate SameSource(r: LedgerRow, s: LedgerRow) {
    r.time == s.time && r.chain == s.chain && r.tx == s.tx && r.msg == s.msg && r.eventIndex == s.eventIndex && r.denom == s.denom
  }

  predicate HasSource(ledger: seq<LedgerRow>, r: LedgerRow) {
    exists i :: 0 <= i < |ledger| && SameSource(ledger[i], r)
  }

  /** The first of the rows with its source. */
  predicate IsFirst(rows: seq<LedgerRow>, r: LedgerRow) {
    exists i :: 0 <= i < |rows| && rows[i] == r && !HasSource(rows[..i], r)
  }

  /** An insert that skips conflicts: every row's source is stored afterwards, and each added
      row is the first of its source, which was not stored before. */
  ghost predicate Inserts(before: seq<LedgerRow>, rows: seq<LedgerRow>, after: seq<LedgerRow>) {
    && before <= after
    && (forall i :: 0 <= i < |rows| ==> HasSource(after, rows[i]))
    && (forall j :: |before| <= j < |after| ==> AddedAt(rows, after, j))
  }

  predicate AddedAt(rows: seq<LedgerRow>, after: seq<LedgerRow>, j: nat)
    requires j < |after|
  {
    !HasSource(after[..j], after[j]) && IsFirst(rows, after[j])
  }

  lemma {:induction false} SourceIsIdentity(ledger: seq<LedgerRow>, r: LedgerRow)
    ensures IdentityOf(r) in Identities(ledger) <==> HasSource(ledger, r)
  {
    if i :| 0 <= i < |ledger| && SameSource(ledger[i], r) {
      assert IdentityOf(ledger[i]) == IdentityOf(r);
    }
  }

  lemma {:induction false} FreshInserts(ledger: seq<LedgerRow>, rows: seq<LedgerRow>)
    ensures Inserts(ledger, rows, ledger + Fresh(ledger, rows))
  {
    if rows != [] {
      var init, last := rows[..|rows| - 1], rows[|rows| - 1];
      var after := ledger + Fresh(ledger, init);
      FreshInserts(ledger, init);
      SourceIsIdentity(after, last);
      assert init + [last] == rows;
      if HasSource(after, last) {
        StaysOut(ledger, init, last, after);
      } else {
        assert ledger + Fresh(ledger, rows) == after + [last];
        ComesIn(ledger, init, last, after);
      }
    }
  }

  lemma {:induction false} FirstOfLonger(rows: seq<LedgerRow>, last: LedgerRow, r: LedgerRow)
    requires IsFirst(rows, r)
    ensures IsFirst(rows + [last], r)
  {
    var i :| 0 <= i < |rows| && rows[i] == r && !HasSource(rows[..i], r);
    assert (rows + [last])[..i] == rows[..i] && (rows + [last])[i] == r;
  }

  lemma {:induction false} StaysOut(before: seq<LedgerRow>, rows: seq<LedgerRow>, last: LedgerRow, after: seq<LedgerRow>)
    requires Inserts(before, rows, after) && HasSource(after, last)
    ensures Inserts(before, rows + [last], after)
  {
    forall j | |before| <= j < |after| ensures AddedAt(rows + [last], after, j) {
      assert AddedAt(rows, after, j);
      FirstOfLonger(rows, last, after[j]);
    }
  }

  lemma {:induction false} ComesIn(before: seq<LedgerRow>, rows: seq<LedgerRow>, last: LedgerRow, after: seq<LedgerRow>)
    requires Inserts(before, rows, after) && !HasSource(after, last)
    ensures Inserts(before, rows + [last], after + [last])
  {
    var next := after + [last];
    forall i | 0 <= i < |rows + [last]| ensures HasSource(next, (rows + [last])[i]) {
      var r := (rows + [last])[i];
      if i < |rows| {
        assert r == rows[i] && HasSource(after, r);
        var j :| 0 <= j < |after| && SameSource(after[j], r);
        assert next[j] == after[j] && SameSource(next[j], r);
      } else {
        assert r == last && SameSource(next[|after|], last);
      }
    }
    forall j | |before| <= j < |next| ensures AddedAt(rows + [last], next, j) {
      if j < |after| {
        assert AddedAt(rows, after, j) && next[..j] == after[..j] && next[j] == after[j];
        FirstOfLonger(rows, last, after[j]);
      } else {
        SourceStays(rows, after, last);
        assert next[..j] == after && (rows + [last])[..|rows|] == rows && (rows + [last])[|rows|] == last;
      }
    }
  }

  lemma {:induction false} SourceStays(rows: seq<LedgerRow>, after: seq<LedgerRow>, last: LedgerRow)
    requires forall i :: 0 <= i < |rows| ==> HasSource(after, rows[i])
    ensures HasSource(rows, last) ==> HasSource(after, last)
  {
    if i :| 0 <= i < |rows| && SameSource(rows[i], last) {
      var j :| 0 <= j < |after| && SameSource(after[j], rows[i]);
      assert SameSource(after[j], last);
    }
  }

  lemma {:induction false} StoredIsNotFresh(ledger: seq<LedgerRow>, rows: seq<LedgerRow>)
    requires Identities(rows) <= Identities(ledger)
    ensures Fresh(ledger, rows) == []
  {
    if rows != [] {
      var init := rows[..|rows| - 1];
      forall i | 0 <= i < |init| ensures IdentityOf(init[i]) in Identities(ledger) { assert init[i] == rows[i]; }
      StoredIsNotFresh(ledger, init);
      assert ledger + [] == ledger;
    }
  }

  /** Flushing a block a second time, at any later point, stores and returns nothing. */
  lemma {:induction false} ReflushIsSilent(ledger: seq<LedgerRow>, rows: seq<LedgerRow>, later: seq<LedgerRow>)
    ensures Fresh(ledger + Fresh(ledger, rows) + later, rows) == []
  {
    FreshStoresAll(ledger, rows);
    var stored := ledger + Fresh(ledger, rows);
    forall x | x in Identities(stored) ensures x in Identities(stored + later) {
      var i :| 0 <= i < |stored| && IdentityOf(stored[i]) == x;
      assert (stored + later)[i] == stored[i];
    }
    StoredIsNotFresh(stored + later, rows);
  }

  // ----- address balances --------------------------------------------------------------------

  /** Claims come from native evidence and never from the ledger. */
  predicate IsClaim(denom: string) {
    denom == "ualpha.infused" || denom == "ualpha.defusing"
  }

  function AmountAt(m: map<Holding, int>, k: Holding): int {
    if k in m then m[k] else 0
  }

  function SumFor(ds: seq<Delta>, k: Holding): int {
    if ds == [] then 0
    else
      var last := ds[|ds| - 1];
      SumFor(ds[..|ds| - 1], k) + if Holding(last.address, last.denom) == k then last.amount else 0
  }

  function KeysOf(ds: seq<Delta>): set<Holding> {
    set i | 0 <= i < |ds| && !IsClaim(ds[i].denom) :: Holding(ds[i].address, ds[i].denom)
  }

  /** The grouped upsert: each key moves by the sum of its deltas, and a new key appears. */
  function Credited(liquid: map<Holding, int>, ds: seq<Delta>): map<Holding, int> {
    map k | k in liquid.Keys + KeysOf(ds) :: AmountAt(liquid, k) + SumFor(ds, k)
  }

  /** The plain aggregate. */
  function LiquidOf(ledger: seq<LedgerRow>): map<Holding, int> {
    Credited(map[], Deltas(ledger))
  }

  /** What the ledger says: outside the two claim denominations an address holds the signed sum
      of its rows, and has a balance iff it has a row. */
  ghost predicate LiquidIsSigned(liquid: map<Holding, int>, ledger: seq<LedgerRow>) {
    forall address, denom :: denom != "ualpha.infused" && denom != "ualpha.defusing" ==> HoldsSigned(liquid, ledger, address, denom)
  }

  ghost predicate HoldsSigned(liquid: map<Holding, int>, ledger: seq<LedgerRow>, address: string, denom: string) {
    var k := Holding(address, denom);
    && (k in liquid <==> exists i :: 0 <= i < |ledger| && ledger[i].address == address && ledger[i].denom == denom)
    && (k in liquid ==> liquid[k] == Balance(ledger, address, denom))
  }

  lemma {:induction false} SumIsSigned(ledger: seq<LedgerRow>, address: string, denom: string)
    ensures SumFor(Deltas(ledger), Holding(address, denom)) == Balance(ledger, address, denom)
  {
    if ledger != [] {
      var init := ledger[..|ledger| - 1];
      assert Deltas(ledger)[..|init|] == Deltas(init);
      SumIsSigned(init, address, denom);
    }
  }

  /** The aggregate is that signed sum, and holds no claim. */
  lemma {:induction false} AggregateIsSigned(ledger: seq<LedgerRow>)
    ensures LiquidIsSigned(LiquidOf(ledger), ledger)
    ensures forall k :: k in LiquidOf(ledger) ==> k.denom != "ualpha.infused" && k.denom != "ualpha.defusing"
  {
    forall address, denom | denom != "ualpha.infused" && denom != "ualpha.defusing"
      ensures HoldsSigned(LiquidOf(ledger), ledger, address, denom)
    {
      SumIsSigned(ledger, address, denom);
      var k, ds := Holding(address, denom), Deltas(ledger);
      if i :| 0 <= i < |ledger| && ledger[i].address == address && ledger[i].denom == denom {
        assert Holding(ds[i].address, ds[i].denom) == k;
      }
      if k in KeysOf(ds) {
        var i :| 0 <= i < |ds| && !IsClaim(ds[i].denom) && Holding(ds[i].address, ds[i].denom) == k;
        assert ledger[i].address == address && ledger[i].denom == denom;
      }
    }
  }

  lemma {:induction false} SumsAdd(a: seq<Delta>, b: seq<Delta>, k: Holding)
    ensures SumFor(a + b, k) == SumFor(a, k) + SumFor(b, k)
  {
    if b == [] {
      assert a + b == a;
    } else {
      assert (a + b)[..|a + b| - 1] == a + b[..|b| - 1];
      SumsAdd(a, b[..|b| - 1], k);
    }
  }

  lemma {:induction false} KeysAdd(a: seq<Delta>, b: seq<Delta>)
    ensures KeysOf(a + b) == KeysOf(a) + KeysOf(b)
  {
    forall k | k in KeysOf(a) + KeysOf(b) ensures k in KeysOf(a + b) {
      if k in KeysOf(a) {
        var i :| 0 <= i < |a| && !IsClaim(a[i].denom) && Holding(a[i].address, a[i].denom) == k;
        assert (a + b)[i] == a[i];
      } else {
        var i :| 0 <= i < |b| && !IsClaim(b[i].denom) && Holding(b[i].address, b[i].denom) == k;
        assert (a + b)[|a| + i] == b[i];
      }
    }
  }

  lemma {:induction false} CreditedAt(liquid: map<Holding, int>, a: seq<Delta>, b: seq<Delta>, k: Holding)
    requires !IsClaim(k.denom)
    ensures k in Credited(liquid, a + b) <==> k in Credited(Credited(liquid, a), b)
    ensures AmountAt(Credited(liquid, a + b), k) == AmountAt(Credited(Credited(liquid, a), b), k)
  {
    KeysAdd(a, b);
    SumsAdd(a, b, k);
    if k !in KeysOf(a) { NoDelta(a, k); }
  }

  lemma {:induction false} CreditedInParts(liquid: map<Holding, int>, a: seq<Delta>, b: seq<Delta>)
    requires forall k :: k in liquid ==> !IsClaim(k.denom)
    ensures Credited(liquid, a + b) == Credited(Credited(liquid, a), b)
  {
    var whole, parts := Credited(liquid, a + b), Credited(Credited(liquid, a), b);
    forall k ensures k in whole <==> k in parts {
      KeysAdd(a, b);
    }
    forall k | k in whole ensures whole[k] == parts[k] {
      CreditedAt(liquid, a, b, k);
      assert whole[k] == AmountAt(whole, k) && parts[k] == AmountAt(parts, k);
    }
    assert whole.Keys == parts.Keys;
  }

  lemma {:induction false} NoDelta(ds: seq<Delta>, k: Holding)
    requires k !in KeysOf(ds) && !IsClaim(k.denom)
    ensures SumFor(ds, k) == 0
  {
    if ds != [] {
      var init, last := ds[..|ds| - 1], ds[|ds| - 1];
      assert Holding(last.address, last.denom) != k;
      forall i | 0 <= i < |init| && !IsClaim(init[i].denom) ensures Holding(init[i].address, init[i].denom) != k {
        assert init[i] == ds[i];
      }
      NoDelta(init, k);
    }
  }

  /** Applying the deltas of newly stored rows keeps the aggregate exact. */
  lemma {:induction false} DeltasKeepAggregate(ledger: seq<LedgerRow>, added: seq<LedgerRow>)
    ensures Credited(LiquidOf(ledger), Deltas(added)) == LiquidOf(ledger + added)
  {
    assert Deltas(ledger + added) == Deltas(ledger) + Deltas(added);
    CreditedInParts(map[], Deltas(ledger), Deltas(added));
  }

  // ----- ownership and owner balances -----------------------------------------------------------

  /** The attribution view reads an address's own association and the vaults at that address. */
  type View = (Option<Association>, set<string>) -> Option<string>

  /** Its answer is always one of those owners, and an identified one. */
  ghost predicate Faithful(view: View) {
    forall p: Option<Association>, vs: set<string> :: view(p, vs).Some? ==>
      view(p, vs).value != "" && ((p.Some? && p.value.player == view(p, vs)) || view(p, vs).value in vs)
  }

  function AssociationOf(b: Books, address: string): Option<Association> {
    if address in b.players then Some(b.players[address]) else None
  }

  function VaultOwners(b: Books, address: string): set<string> {
    set owner | owner in b.vaults && b.vaults[owner].address == address
  }

  function OwnerOf(view: View, b: Books, address: string): Option<string> {
    view(AssociationOf(b, address), VaultOwners(b, address))
  }

  /** The liquid rows attributed to one owner in one denomination. */
  function Attributed(view: View, b: Books, k: Holding): set<Holding> {
    set l | l in b.liquid && l.denom == k.denom && OwnerOf(view, b, l.holder) == Some(k.holder)
  }

  ghost function SumOver(keys: set<Holding>, liquid: map<Holding, int>): int
    requires keys <= liquid.Keys
  {
    if keys == {} then 0 else var k :| k in keys; liquid[k] + SumOver(keys - {k}, liquid)
  }

  /** Any member can be taken out first. */
  lemma {:induction false} SumWithout(keys: set<Holding>, liquid: map<Holding, int>, k: Holding)
    requires keys <= liquid.Keys && k in keys
    ensures SumOver(keys, liquid) == liquid[k] + SumOver(keys - {k}, liquid)
    decreases |keys|
  {
    var first :| first in keys && SumOver(keys, liquid) == liquid[first] + SumOver(keys - {first}, liquid);
    if first != k {
      SumWithout(keys - {first}, liquid, k);
      SumWithout(keys - {k}, liquid, first);
      assert keys - {first} - {k} == keys - {k} - {first};
    }
  }

  function OwnerKeys(view: View, b: Books): set<Holding> {
    set l | l in b.liquid && OwnerOf(view, b, l.holder).Some? :: Holding(OwnerOf(view, b, l.holder).value, l.denom)
  }

  /** The plain aggregate: each owner's sum over its current addresses. */
  ghost function HeldOf(view: View, b: Books): map<Holding, int> {
    map k | k in OwnerKeys(view, b) :: SumOver(Attributed(view, b, k), b.liquid)
  }

  /** Both inventory tables are what the ledger and the current ownership say. */
  ghost predicate Consistent(view: View, b: Books) {
    && b.liquid == LiquidOf(b.ledger)
    && b.held == HeldOf(view, b)
    && "" !in b.players && VaultOwners(b, "") == {}
  }

  // ----- what consistent books say ----------------------------------------------------------------

  /** Signed sum of the rows in one denomination whose address belongs to the owner. */
  function OwnedBalance(view: View, b: Books, rows: seq<LedgerRow>, owner: string, denom: string): int {
    if rows == [] then 0
    else
      var last := rows[|rows| - 1];
      OwnedBalance(view, b, rows[..|rows| - 1], owner, denom)
      + if OwnerOf(view, b, last.address) == Some(owner) && last.denom == denom then Signed(last) else 0
  }

  /** Outside the claims an owner holds the signed sum of the rows of its addresses, and has an
      inventory row iff one of them has a ledger row. */
  ghost predicate HoldsOwned(view: View, b: Books, owner: string, denom: string) {
    var k := Holding(owner, denom);
    && (k in b.held <==> exists i :: 0 <= i < |b.ledger| && OwnerOf(view, b, b.ledger[i].address) == Some(owner) && b.ledger[i].denom == denom)
    && (k in b.held ==> b.held[k] == OwnedBalance(view, b, b.ledger, owner, denom))
  }

  /** Rows of the ledger whose key is among the given ones. */
  function SumOfRows(rows: seq<LedgerRow>, keys: set<Holding>): int {
    if rows == [] then 0
    else
      var last := rows[|rows| - 1];
      SumOfRows(rows[..|rows| - 1], keys) + if Holding(last.address, last.denom) in keys then Signed(last) else 0
  }

  function Balances(rows: seq<LedgerRow>, keys: set<Holding>): map<Holding, int> {
    map l | l in keys :: Balance(rows, l.holder, l.denom)
  }

  lemma {:induction false} OneMoreAmount(keys: set<Holding>, m: map<Holding, int>, n: map<Holding, int>, k: Holding, amount: int)
    requires keys <= m.Keys && keys <= n.Keys && k in keys && n[k] == m[k] + amount
    requires forall l :: l in keys && l != k ==> n[l] == m[l]
    ensures SumOver(keys, n) == SumOver(keys, m) + amount
  {
    SumWithout(keys, m, k);
    SumWithout(keys, n, k);
    SumAgrees(keys - {k}, m, n);
  }

  lemma {:induction false} NoAmounts(keys: set<Holding>, m: map<Holding, int>)
    requires keys <= m.Keys && forall l :: l in keys ==> m[l] == 0
    ensures SumOver(keys, m) == 0
    decreases |keys|
  {
    if k :| k in keys {
      SumWithout(keys, m, k);
      NoAmounts(keys - {k}, m);
    }
  }

  lemma {:induction false} SumIsOfRows(rows: seq<LedgerRow>, keys: set<Holding>)
    ensures SumOver(keys, Balances(rows, keys)) == SumOfRows(rows, keys)
  {
    if rows == [] {
      NoAmounts(keys, Balances(rows, keys));
    } else {
      var init, last := rows[..|rows| - 1], rows[|rows| - 1];
      SumIsOfRows(init, keys);
      var k := Holding(last.address, last.denom);
      if k in keys {
        OneMoreAmount(keys, Balances(init, keys), Balances(rows, keys), k, Signed(last));
      } else {
        SumAgrees(keys, Balances(init, keys), Balances(rows, keys));
      }
    }
  }

  /** Summing the owner's keys row by row is summing the rows of its addresses. */
  lemma {:induction false} KeysAreOwned(view: View, b: Books, rows: seq<LedgerRow>, owner: string, denom: string, keys: set<Holding>)
    requires forall i :: 0 <= i < |rows| ==>
               (Holding(rows[i].address, rows[i].denom) in keys <==> OwnerOf(view, b, rows[i].address) == Some(owner) && rows[i].denom == denom)
    ensures SumOfRows(rows, keys) == OwnedBalance(view, b, rows, owner, denom)
  {
    if rows != [] { KeysAreOwned(view, b, rows[..|rows| - 1], owner, denom, keys); }
  }

  lemma {:induction false} OwnerHoldsOwned(view: View, b: Books, owner: string, denom: string)
    requires b.liquid == LiquidOf(b.ledger) && b.held == HeldOf(view, b)
    requires denom != "ualpha.infused" && denom != "ualpha.defusing"
    ensures HoldsOwned(view, b, owner, denom)
  {
    var k := Holding(owner, denom);
    var keys := Attributed(view, b, k);
    AggregateIsSigned(b.ledger);
    OwnerHasKey(view, b, k);
    forall l ensures l in keys <==> OwnerOf(view, b, l.holder) == Some(owner) && l.denom == denom && l in b.liquid { }
    forall i | 0 <= i < |b.ledger|
      ensures Holding(b.ledger[i].address, b.ledger[i].denom) in keys <==>
                OwnerOf(view, b, b.ledger[i].address) == Some(owner) && b.ledger[i].denom == denom
    {
      assert b.ledger[i].denom == denom ==> HoldsSigned(b.liquid, b.ledger, b.ledger[i].address, denom);
    }
    forall l | l in keys ensures b.liquid[l] == Balance(b.ledger, l.holder, l.denom) {
      assert HoldsSigned(b.liquid, b.ledger, l.holder, denom);
    }
    if l :| l in keys { assert HoldsSigned(b.liquid, b.ledger, l.holder, denom); }
    SumAgrees(keys, b.liquid, Balances(b.ledger, keys));
    SumIsOfRows(b.ledger, keys);
    KeysAreOwned(view, b, b.ledger, owner, denom, keys);
  }

  /** In consistent books every address and every owner holds the signed sum of its rows. */
  lemma {:induction false} ConsistentMeans(view: View, b: Books)
    requires Consistent(view, b)
    ensures LiquidIsSigned(b.liquid, b.ledger)
    ensures forall owner, denom :: denom != "ualpha.infused" && denom != "ualpha.defusing" ==> HoldsOwned(view, b, owner, denom)
  {
    AggregateIsSigned(b.ledger);
    forall owner, denom | denom != "ualpha.infused" && denom != "ualpha.defusing" ensures HoldsOwned(view, b, owner, denom) {
      OwnerHoldsOwned(view, b, owner, denom);
    }
  }

  /** Rows of the given owners are replaced by their fresh aggregate. */
  ghost function Rebuilt(view: View, b: Books, owners: set<string>): map<Holding, int> {
    map k | k in b.held.Keys + OwnerKeys(view, b) && (if k.holder in owners then k in OwnerKeys(view, b) else k in b.held)
      :: if k.holder in owners then SumOver(Attributed(view, b, k), b.liquid) else b.held[k]
  }

  /** The owners whose rows are rebuilt: the marked ones and those of marked
      addresses, plus whatever else the expansion adds. */
  function Rebuilds(view: View, b: Books, d: Dirty, extra: set<string>): set<string> {
    d.owners + extra + (set a | a in d.addresses && OwnerOf(view, b, a).Some? :: OwnerOf(view, b, a).value)
  }

  ghost function Recomputed(view: View, b: Books, d: Dirty, ds: seq<Delta>, extra: set<string>): Books {
    var credited := b.(liquid := Credited(b.liquid, ds));
    credited.(held := Rebuilt(view, credited, Rebuilds(view, b, d, extra)))
  }

  // ----- one recompute is exact --------------------------------------------------------------------

  lemma {:induction false} SumAgrees(keys: set<Holding>, m: map<Holding, int>, n: map<Holding, int>)
    requires keys <= m.Keys && keys <= n.Keys
    requires forall k :: k in keys ==> m[k] == n[k]
    ensures SumOver(keys, m) == SumOver(keys, n)
    decreases |keys|
  {
    if keys != {} {
      var k :| k in keys && SumOver(keys, m) == m[k] + SumOver(keys - {k}, m);
      SumWithout(keys, n, k);
      SumAgrees(keys - {k}, m, n);
    }
  }

  lemma {:induction false} SumSplits(keys: set<Holding>, part: set<Holding>, m: map<Holding, int>)
    requires part <= keys <= m.Keys
    ensures SumOver(keys, m) == SumOver(part, m) + SumOver(keys - part, m)
    decreases |part|
  {
    if part == {} {
      assert keys - part == keys;
    } else {
      var k :| k in part;
      SumWithout(keys, m, k);
      SumWithout(part, m, k);
      SumSplits(keys - {k}, part - {k}, m);
      assert keys - {k} - (part - {k}) == keys - part;
    }
  }

  /** Projections wait for the recompute while the ledger grows by the rows of the deltas. */
  predicate Awaits(x: Books, y: Books, ds: seq<Delta>) {
    && y.liquid == x.liquid && y.held == x.held
    && x.ledger <= y.ledger && ds == Deltas(y.ledger[|x.ledger|..])
  }

  lemma {:induction false} AwaitsThen(x: Books, y: Books, z: Books, ds: seq<Delta>, es: seq<Delta>)
    requires Awaits(x, y, ds) && Awaits(y, z, es)
    ensures Awaits(x, z, ds + es)
  {
    assert z.ledger[|x.ledger|..] == y.ledger[|x.ledger|..] + z.ledger[|y.ledger|..];
  }

  /** `now` follows `start` by any handlers and ledger inserts. Changed addresses and those of
      new rows are marked, and so is the player that an association leaves; associations and
      vaults are never removed. Nothing is said about who owns what. */
  ghost predicate Marked(start: Books, now: Books, d: Dirty, ds: seq<Delta>) {
    && Awaits(start, now, ds)
    && "" !in now.players && VaultOwners(now, "") == {}
    && TablesMarked(start, now, d)
    && (forall i :: 0 <= i < |ds| && ds[i].address != "" ==> ds[i].address in d.addresses)
  }

  ghost predicate TablesMarked(start: Books, now: Books, d: Dirty) {
    && (forall a :: AssociationOf(start, a) != AssociationOf(now, a) || VaultOwners(start, a) != VaultOwners(now, a) ==> a in d.addresses)
    && (forall a :: a in start.players ==> a in now.players && LeaverMarked(start.players[a], now.players[a], d))
    && (forall o :: o in start.vaults ==> o in now.vaults && now.vaults[o].address == start.vaults[o].address)
  }

  predicate LeaverMarked(before: Association, after: Association, d: Dirty) {
    before != after && before.player.Some? && before.player.value != "" ==> before.player.value in d.owners
  }

  /** The rows of an owner at addresses it has lost. */
  function Lost(view: View, start: Books, now: Books, k: Holding): set<Holding> {
    set l | l in Attributed(view, start, k) && OwnerOf(view, now, l.holder) != Some(k.holder)
  }

  /** Whoever is not rebuilt lost no address, or only ones that held nothing on balance
      while it still holds the denomination elsewhere. */
  ghost predicate NothingLost(view: View, start: Books, now: Books, owners: set<string>) {
    forall k: Holding :: k.holder !in owners ==> RowUnharmed(view, start, now, k)
  }

  ghost predicate RowUnharmed(view: View, start: Books, now: Books, k: Holding) {
    var lost := Lost(view, start, now, k);
    lost == {} || (SumOver(lost, start.liquid) == 0 && lost != Attributed(view, start, k))
  }

  /** What stays put for an owner that is not rebuilt. */
  lemma {:induction false} UnmarkedRow(view: View, start: Books, now: Books, d: Dirty, ds: seq<Delta>, extra: set<string>, k: Holding, l: Holding)
    requires Faithful(view) && Marked(start, now, d, ds) && "" !in start.players && VaultOwners(start, "") == {}
    requires forall j :: j in start.liquid ==> !IsClaim(j.denom)
    requires k.holder !in Rebuilds(view, now, d, extra)
    ensures var credited := now.(liquid := Credited(now.liquid, ds));
            && (l in Attributed(view, credited, k) <==> l in Attributed(view, start, k) && l !in Lost(view, start, now, k))
            && (l in Attributed(view, credited, k) ==> start.liquid[l] == credited.liquid[l])
  {
    var a := l.holder;
    assert a in d.addresses && OwnerOf(view, now, a) == Some(k.holder) ==> k.holder in Rebuilds(view, now, d, extra);
    if OwnerOf(view, now, a) == Some(k.holder) {
      assert a !in d.addresses && a != "";
      assert l !in KeysOf(ds);
      if l in start.liquid { NoDelta(ds, l); }
    }
  }

  lemma {:induction false} UnmarkedOwner(view: View, start: Books, now: Books, d: Dirty, ds: seq<Delta>, extra: set<string>, k: Holding)
    requires Faithful(view) && Consistent(view, start) && Marked(start, now, d, ds)
    requires k.holder !in Rebuilds(view, now, d, extra)
    ensures var credited, lost := now.(liquid := Credited(now.liquid, ds)), Lost(view, start, now, k);
            && Attributed(view, credited, k) == Attributed(view, start, k) - lost
            && SumOver(Attributed(view, start, k), start.liquid)
                 == SumOver(lost, start.liquid) + SumOver(Attributed(view, credited, k), credited.liquid)
  {
    var credited, lost := now.(liquid := Credited(now.liquid, ds)), Lost(view, start, now, k);
    var before, after := Attributed(view, start, k), Attributed(view, credited, k);
    forall l ensures l in after <==> l in before && l !in lost {
      UnmarkedRow(view, start, now, d, ds, extra, k, l);
    }
    assert after == before - lost;
    forall l | l in after ensures start.liquid[l] == credited.liquid[l] {
      UnmarkedRow(view, start, now, d, ds, extra, k, l);
    }
    SumSplits(before, lost, start.liquid);
    SumAgrees(after, start.liquid, credited.liquid);
  }

  lemma {:induction false} OwnerHasKey(view: View, b: Books, k: Holding)
    ensures k in OwnerKeys(view, b) <==> Attributed(view, b, k) != {}
  {
    if k in OwnerKeys(view, b) {
      var l :| l in b.liquid && OwnerOf(view, b, l.holder).Some? && Holding(OwnerOf(view, b, l.holder).value, l.denom) == k;
      assert l in Attributed(view, b, k);
    }
    if l :| l in Attributed(view, b, k) {
      assert Holding(OwnerOf(view, b, l.holder).value, l.denom) == k;
    }
  }

  ghost predicate RowExact(rebuilt: map<Holding, int>, exact: map<Holding, int>, k: Holding) {
    (k in rebuilt <==> k in exact) && (k in rebuilt ==> rebuilt[k] == exact[k])
  }

  lemma {:induction false} ExactRows(rebuilt: map<Holding, int>, exact: map<Holding, int>)
    ensures rebuilt == exact <==> forall k :: RowExact(rebuilt, exact, k)
  {
    if forall k :: RowExact(rebuilt, exact, k) {
      forall k ensures k in rebuilt <==> k in exact { assert RowExact(rebuilt, exact, k); }
      assert rebuilt.Keys == exact.Keys;
      forall k | k in rebuilt ensures rebuilt[k] == exact[k] { assert RowExact(rebuilt, exact, k); }
    }
  }

  lemma {:induction false} RebuiltRow(view: View, start: Books, now: Books, d: Dirty, ds: seq<Delta>, extra: set<string>, k: Holding)
    requires Faithful(view) && Consistent(view, start) && Marked(start, now, d, ds)
    ensures var credited, owners := now.(liquid := Credited(now.liquid, ds)), Rebuilds(view, now, d, extra);
            RowExact(Rebuilt(view, credited, owners), HeldOf(view, credited), k) <==> k.holder in owners || RowUnharmed(view, start, now, k)
  {
    var credited, owners := now.(liquid := Credited(now.liquid, ds)), Rebuilds(view, now, d, extra);
    var rebuilt, exact := Rebuilt(view, credited, owners), HeldOf(view, credited);
    if k.holder in owners {
      RebuiltOwnerRow(view, credited, owners, k);
    } else {
      UnmarkedOwner(view, start, now, d, ds, extra, k);
      HeldRow(view, start, k);
      HeldRow(view, credited, k);
      KeptRowExact(rebuilt, exact, k, Attributed(view, start, k), Lost(view, start, now, k), Attributed(view, credited, k), start.liquid, credited.liquid);
    }
  }

  lemma {:induction false} KeptRowExact(rebuilt: map<Holding, int>, exact: map<Holding, int>, k: Holding,
                                        before: set<Holding>, lost: set<Holding>, after: set<Holding>, x: map<Holding, int>, y: map<Holding, int>)
    requires lost <= before <= x.Keys && after == before - lost <= y.Keys
    requires (k in rebuilt <==> before != {}) && (k in rebuilt ==> rebuilt[k] == SumOver(before, x))
    requires (k in exact <==> after != {}) && (k in exact ==> exact[k] == SumOver(after, y))
    requires SumOver(before, x) == SumOver(lost, x) + SumOver(after, y)
    ensures RowExact(rebuilt, exact, k) <==> lost == {} || (SumOver(lost, x) == 0 && lost != before)
  {
    assert forall l :: l in before <==> l in after || l in lost;
  }

  lemma {:induction false} RebuiltOwnerRow(view: View, b: Books, owners: set<string>, k: Holding)
    requires k.holder in owners
    ensures RowExact(Rebuilt(view, b, owners), HeldOf(view, b), k)
  {
  }

  lemma {:induction false} HeldRow(view: View, b: Books, k: Holding)
    ensures k in HeldOf(view, b) <==> Attributed(view, b, k) != {}
    ensures k in HeldOf(view, b) ==> HeldOf(view, b)[k] == SumOver(Attributed(view, b, k), b.liquid)
  {
    OwnerHasKey(view, b, k);
  }

  /** Rebuilding the marked owners aggregates everything iff the others lost nothing. */
  lemma {:induction false} RebuiltIsExact(view: View, start: Books, now: Books, d: Dirty, ds: seq<Delta>, extra: set<string>)
    requires Faithful(view) && Consistent(view, start) && Marked(start, now, d, ds)
    ensures var credited, owners := now.(liquid := Credited(now.liquid, ds)), Rebuilds(view, now, d, extra);
            Rebuilt(view, credited, owners) == HeldOf(view, credited) <==> NothingLost(view, start, now, owners)
  {
    var credited, owners := now.(liquid := Credited(now.liquid, ds)), Rebuilds(view, now, d, extra);
    var rebuilt, exact := Rebuilt(view, credited, owners), HeldOf(view, credited);
    forall k ensures RowExact(rebuilt, exact, k) <==> k.holder in owners || RowUnharmed(view, start, now, k) {
      RebuiltRow(view, start, now, d, ds, extra, k);
    }
    ExactRows(rebuilt, exact);
  }

  /** Owner rows and ledger do not matter to the aggregate. */
  lemma {:induction false} HeldDependsOn(view: View, b: Books, c: Books)
    requires b.liquid == c.liquid && b.players == c.players && b.vaults == c.vaults
    ensures HeldOf(view, b) == HeldOf(view, c)
    ensures forall a :: VaultOwners(b, a) == VaultOwners(c, a)
  {
    assert forall a :: VaultOwners(b, a) == VaultOwners(c, a) && AssociationOf(b, a) == AssociationOf(c, a);
    assert OwnerKeys(view, b) == OwnerKeys(view, c);
    assert forall k :: Attributed(view, b, k) == Attributed(view, c, k);
  }

  /** After a recompute each address balance is the signed sum of its ledger rows; and each
      owner's inventory is the sum over its current addresses iff the owners that are not
      rebuilt lost nothing. */
  lemma {:induction false} RecomputeIsExact(view: View, start: Books, now: Books, d: Dirty, ds: seq<Delta>, extra: set<string>)
    requires Faithful(view) && Consistent(view, start) && Marked(start, now, d, ds)
    ensures Consistent(view, Recomputed(view, now, d, ds, extra)) <==> NothingLost(view, start, now, Rebuilds(view, now, d, extra))
  {
    var credited := now.(liquid := Credited(now.liquid, ds));
    var rebuilt := Rebuilt(view, credited, Rebuilds(view, now, d, extra));
    RecomputedLiquid(view, start, now, d, ds, extra);
    RebuiltIsExact(view, start, now, d, ds, extra);
    HeldDependsOn(view, credited, credited.(held := rebuilt));
    HeldDependsOn(view, now, credited.(liquid := now.liquid, held := now.held));
    assert VaultOwners(credited.(held := rebuilt), "") == VaultOwners(now, "");
  }

  /** The address balances need no assumption about ownership. */
  lemma {:induction false} RecomputedLiquid(view: View, start: Books, now: Books, d: Dirty, ds: seq<Delta>, extra: set<string>)
    requires start.liquid == LiquidOf(start.ledger) && Awaits(start, now, ds)
    ensures Recomputed(view, now, d, ds, extra).liquid == LiquidOf(Recomputed(view, now, d, ds, extra).ledger)
    ensures LiquidIsSigned(Recomputed(view, now, d, ds, extra).liquid, Recomputed(view, now, d, ds, extra).ledger)
  {
    assert now.ledger == start.ledger + now.ledger[|start.ledger|..];
    DeltasKeepAggregate(start.ledger, now.ledger[|start.ledger|..]);
    AggregateIsSigned(now.ledger);
  }

  // ----- tables under which nothing is ever lost ------------------------------------------------------

  /** No address is in both tables, and no two vaults share one. */
  ghost predicate Separate(b: Books) {
    && (forall o :: o in b.vaults ==> b.vaults[o].address !in b.players)
    && (forall o, p :: o in b.vaults && p in b.vaults && o != p ==> b.vaults[o].address != b.vaults[p].address)
  }

  /** In separate tables whoever loses an address is marked, whatever the view does. */
  lemma {:induction false} SeparateMarksLosers(view: View, start: Books, now: Books, d: Dirty, ds: seq<Delta>, a: string)
    requires Faithful(view) && Marked(start, now, d, ds) && Separate(now)
    ensures OwnerOf(view, start, a).Some? && OwnerOf(view, now, a) != OwnerOf(view, start, a) ==> OwnerOf(view, start, a).value in d.owners
  {
    var p, q, vs, ws := AssociationOf(start, a), AssociationOf(now, a), VaultOwners(start, a), VaultOwners(now, a);
    assert view(p, vs).Some? ==> view(p, vs).value != "" && ((p.Some? && p.value.player == view(p, vs)) || view(p, vs).value in vs);
    if o :| o in vs {
      assert o in ws && p == None && q == None;
      assert vs == {o} && ws == {o};
    } else if p.Some? {
      assert vs == {} && ws == {};
      assert view(q, ws).Some? ==> q.value.player == view(q, ws);
    }
  }

  lemma {:induction false} SeparateLosesNothing(view: View, start: Books, now: Books, d: Dirty, ds: seq<Delta>, extra: set<string>)
    requires Faithful(view) && Marked(start, now, d, ds) && Separate(now)
    ensures NothingLost(view, start, now, Rebuilds(view, now, d, extra))
  {
    forall k: Holding | k.holder !in Rebuilds(view, now, d, extra) ensures Lost(view, start, now, k) == {} {
      forall l | l in Attributed(view, start, k) ensures OwnerOf(view, now, l.holder) == Some(k.holder) {
        SeparateMarksLosers(view, start, now, d, ds, l.holder);
      }
    }
  }
}
