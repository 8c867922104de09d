/** When one ownership event leaves a stale inventory behind: the three handlers mark the
    association that an address leaves, never the vault or player of the other table
    (events/address.go, events/address_association.go, events/economy.go). */
module Displacement {
  import opened Identifiers
  import opened Inventory
  import opened LedgerRows
  import opened Positions
  import opened Projection

  /** Nothing of the loser's hangs on the address: every balance there is zero and the
      loser holds the denomination at another address too. */
  ghost predicate NothingAtStake(view: View, b: Books, address: string, loser: string) {
    forall denom :: Holding(address, denom) in b.liquid ==>
      b.liquid[Holding(address, denom)] == 0
      && Attributed(view, b, Holding(loser, denom)) != {Holding(address, denom)}
  }

  /** The event takes its address from `loser`, and nothing marks the loser. */
  predicate Displaces(view: View, b: Books, op: Op, extra: set<string>, loser: string) {
    && OwnerOf(view, b, op.address) == Some(loser)
    && OwnerOf(view, AfterOp(b, op).books, op.address) != Some(loser)
    && loser !in AfterOp(b, op).dirty.owners + extra
  }

  lemma {:induction false} OtherAddressesKeepOwner(view: View, b: Books, op: Op)
    ensures forall a :: a != op.address ==> OwnerOf(view, AfterOp(b, op).books, a) == OwnerOf(view, b, a)
  {
    var now := AfterOp(b, op).books;
    forall a | a != op.address ensures OwnerOf(view, now, a) == OwnerOf(view, b, a) {
      assert VaultOwners(now, a) == VaultOwners(b, a) && AssociationOf(now, a) == AssociationOf(b, a);
    }
  }

  /** What an owner loses by one event: its row at that address, if the event takes it. */
  lemma {:induction false} LostByEvent(view: View, b: Books, op: Op, k: Holding)
    ensures var now, l := AfterOp(b, op).books, Holding(op.address, k.denom);
            Lost(view, b, now, k)
              == if OwnerOf(view, b, op.address) == Some(k.holder) && OwnerOf(view, now, op.address) != Some(k.holder) && l in b.liquid
                 then {l} else {}
  {
    OtherAddressesKeepOwner(view, b, op);
  }

  lemma {:induction false} LoserIsUnharmed(view: View, b: Books, op: Op, loser: string, denom: string)
    requires OwnerOf(view, b, op.address) == Some(loser) && OwnerOf(view, AfterOp(b, op).books, op.address) != Some(loser)
    ensures var l := Holding(op.address, denom);
            RowUnharmed(view, b, AfterOp(b, op).books, Holding(loser, denom))
            <==> (l in b.liquid ==> b.liquid[l] == 0 && Attributed(view, b, Holding(loser, denom)) != {l})
  {
    var l := Holding(op.address, denom);
    LostByEvent(view, b, op, Holding(loser, denom));
    if l in b.liquid { SumWithout({l}, b.liquid, l); }
  }

  lemma {:induction false} EventLoses(view: View, b: Books, op: Op, extra: set<string>, loser: string)
    requires Displaces(view, b, op, extra, loser)
    ensures var e := AfterOp(b, op);
            NothingLost(view, b, e.books, Rebuilds(view, e.books, e.dirty, extra)) <==> NothingAtStake(view, b, op.address, loser)
  {
    var e := AfterOp(b, op);
    var owners := Rebuilds(view, e.books, e.dirty, extra);
    forall k: Holding
      ensures k.holder != loser ==> RowUnharmed(view, b, e.books, k)
      ensures k.holder == loser && NothingAtStake(view, b, op.address, loser) ==> RowUnharmed(view, b, e.books, k)
    {
      LostByEvent(view, b, op, k);
      if k.holder == loser {
        assert k == Holding(loser, k.denom);
        LoserIsUnharmed(view, b, op, loser, k.denom);
      }
    }
    if NothingLost(view, b, e.books, owners) {
      forall denom | Holding(op.address, denom) in b.liquid
        ensures b.liquid[Holding(op.address, denom)] == 0
        ensures Attributed(view, b, Holding(loser, denom)) != {Holding(op.address, denom)}
      {
        assert RowUnharmed(view, b, e.books, Holding(loser, denom));
        LoserIsUnharmed(view, b, op, loser, denom);
      }
    }
  }

  /** Whichever of the three events happens, the recompute after it is exact iff it does not
      take an address from an unmarked owner, or nothing of that owner's hangs on it. */
  lemma {:induction false} EventIsExact(view: View, b: Books, op: Op, extra: set<string>)
    requires Faithful(view) && Consistent(view, b)
    ensures var e := AfterOp(b, op);
            Consistent(view, Recomputed(view, e.books, e.dirty, [], extra))
            <==> forall loser :: Displaces(view, b, op, extra, loser) ==> NothingAtStake(view, b, op.address, loser)
  {
    var e := AfterOp(b, op);
    OpIsMarked(b, op);
    RecomputeIsExact(view, b, e.books, e.dirty, [], extra);
    if loser :| Displaces(view, b, op, extra, loser) {
      EventLoses(view, b, op, extra, loser);
    } else {
      forall k: Holding | k.holder !in Rebuilds(view, e.books, e.dirty, extra) ensures Lost(view, b, e.books, k) == {} {
        LostByEvent(view, b, op, k);
        assert !Displaces(view, b, op, extra, k.holder);
      }
    }
  }

  // ----- inputs for which it is not exact -----------------------------------------------------------

  /** A view that lets the vault win. */
  function VaultFirst(p: Option<Association>, vs: set<string>): Option<string> {
    if "0-1" in vs then Some("0-1") else PlayerOf(p)
  }

  /** A view that lets the association win. */
  function PlayerFirst(p: Option<Association>, vs: set<string>): Option<string> {
    if PlayerOf(p).Some? then PlayerOf(p) else if "0-1" in vs then Some("0-1") else None
  }

  function PlayerOf(p: Option<Association>): Option<string> {
    if p.Some? && p.value.player.Some? && p.value.player.value != "" then p.value.player else None
  }

  /** Five coins at one address. */
  function Deposit(): LedgerRow {
    LedgerRow("a", "", 5, 1, 1, "minted", Credit, "ualpha", "chain", -1, -1, 0)
  }

  function Deposited(players: map<string, Association>, vaults: map<string, Vault>): Books {
    Books([Deposit()], players, vaults, LiquidOf([Deposit()]), map[])
  }

  /** The same with exact owner rows. */
  ghost function Aggregated(view: View, b: Books): Books {
    b.(held := HeldOf(view, b))
  }

  lemma {:induction false} DepositIsLiquid()
    ensures LiquidOf([Deposit()]) == map[Holding("a", "ualpha") := 5]
  {
    var ds := Deltas([Deposit()]);
    assert ds == [Delta("a", "ualpha", 5)] && ds[..0] == [];
    assert |"ualpha"| < |"ualpha.infused"| && !IsClaim("ualpha");
    assert Holding(ds[0].address, ds[0].denom) == Holding("a", "ualpha");
    assert Holding("a", "ualpha") in KeysOf(ds);
    assert KeysOf(ds) == {Holding("a", "ualpha")};
  }

  /** Books with the deposit whose address an event takes are stale after the recompute. */
  lemma {:induction false} DepositGoesStale(view: View, b: Books, op: Op, loser: string)
    requires Faithful(view) && b.ledger == [Deposit()] && b.liquid == LiquidOf(b.ledger) && Addressed(b)
    requires op.address == "a" && Displaces(view, b, op, {}, loser)
    ensures var c, e := Aggregated(view, b), AfterOp(Aggregated(view, b), op);
            Consistent(view, c) && !Consistent(view, Recomputed(view, e.books, e.dirty, [], {}))
  {
    var c := Aggregated(view, b);
    DepositIsLiquid();
    HeldDependsOn(view, b, c);
    HeldDependsOn(view, AfterOp(b, op).books, AfterOp(c, op).books);
    EventIsExact(view, c, op, {});
    assert Displaces(view, c, op, {}, loser);
    assert Holding("a", "ualpha") in c.liquid;
  }

  /** A vault opened at a player's address: the player keeps the five coins it no longer has. */
  lemma {:induction false} VaultDisplacesPlayer()
    ensures var b := Aggregated(VaultFirst, Deposited(map["a" := Association(Some("1-5"), "approved")], map[]));
            var e := AfterOp(b, VaultOpened("0-1", "a", 7, true));
            Consistent(VaultFirst, b) && !Consistent(VaultFirst, Recomputed(VaultFirst, e.books, e.dirty, [], {}))
  {
    var b, op := Deposited(map["a" := Association(Some("1-5"), "approved")], map[]), VaultOpened("0-1", "a", 7, true);
    assert VaultOwners(b, "") == {};
    VaultTakesDeposit(b);
    DepositGoesStale(VaultFirst, b, op, "1-5");
  }

  lemma {:induction false} VaultTakesDeposit(b: Books)
    requires b.players == map["a" := Association(Some("1-5"), "approved")] && b.vaults == map[]
    ensures Displaces(VaultFirst, b, VaultOpened("0-1", "a", 7, true), {}, "1-5")
  {
    var op := VaultOpened("0-1", "a", 7, true);
    assert IsOwner("0-1");
    assert "0-1" in VaultOwners(AfterOp(b, op).books, "a");
    assert VaultOwners(b, "a") == {};
  }

  /** A player registered at, or associated with, a vault's address: the vault's owner keeps
      the five coins. */
  lemma {:induction false} PlayerDisplacesVault(op: Op)
    requires op == Registered("a", "1-5") || op == Associated("a", "1-5", true, "approved")
    ensures var b := Aggregated(PlayerFirst, Deposited(map[], map["0-1" := Vault("a", 7, Some(true))]));
            var e := AfterOp(b, op);
            Consistent(PlayerFirst, b) && !Consistent(PlayerFirst, Recomputed(PlayerFirst, e.books, e.dirty, [], {}))
  {
    var b := Deposited(map[], map["0-1" := Vault("a", 7, Some(true))]);
    assert VaultOwners(b, "a") == {"0-1"};
    DepositGoesStale(PlayerFirst, b, op, "0-1");
  }

  const NOTHING := Books([], map[], map[], map[], map[])

  /** The deposit and the player's registration, then the vault that takes the address. */
  function TakenLater(): seq<Block> {
    [Block([Registered("a", "1-5")], [Deposit()]), Block([VaultOpened("0-1", "a", 7, true)], [])]
  }

  lemma {:induction false} FirstBlock(view: View)
    requires Faithful(view)
    ensures var p := Streamed(view, NOTHING, TakenLater()[0], {});
            && Consistent(view, p) && p.ledger == [Deposit()]
            && p.players == map["a" := Association(Some("1-5"), "approved")] && p.vaults == map[]
  {
    var block := TakenLater()[0];
    OneOp(NOTHING, block.ops[0]);
    var s := Applied(NOTHING, block);
    assert block.rows[..0] == [] && Fresh([], block.rows) == [Deposit()];
    BlockIsMarked(NOTHING, block);
    RecomputeIsExact(view, NOTHING, s.books, s.dirty, s.deltas, {});
  }

  lemma {:induction false} OneOp(b: Books, op: Op)
    ensures AfterOps(b, [op]) == Effect(AfterOp(b, op).books, CLEAN.Merge(AfterOp(b, op).dirty))
    ensures CLEAN.Merge(AfterOp(b, op).dirty) == AfterOp(b, op).dirty
  {
    assert [op][..0] == [];
  }

  /** The recompute after the second block. */
  lemma {:induction false} SecondBlock(view: View, p: Books)
    ensures var op := VaultOpened("0-1", "a", 7, true); var e := AfterOp(p, op);
            Streamed(view, p, TakenLater()[1], {}) == Recomputed(view, e.books, e.dirty, [], {})
  {
    var block := TakenLater()[1];
    var op := block.ops[0];
    OneOp(p, op);
    var e := AfterOp(p, op);
    assert e.books.(ledger := e.books.ledger + []) == e.books;
    assert e.dirty.Merge(Dirty(RowAddresses([]), {})) == e.dirty;
  }

  /** The two schedules really differ: block by block the player keeps coins that it no longer
      has, while one recompute of the same window, which still holds the player's mark, is exact. */
  lemma {:induction false} SchedulesDiffer()
    ensures !Consistent(VaultFirst, PerBlock(VaultFirst, NOTHING, TakenLater(), [{}, {}]))
    ensures Consistent(VaultFirst, WindowResult(VaultFirst, NOTHING, TakenLater(), {}))
  {
    FirstBlock(VaultFirst);
    StaleAfterSecond(Streamed(VaultFirst, NOTHING, TakenLater()[0], {}));
    PerBlockOfTwo(VaultFirst, NOTHING, TakenLater());
    WindowStaysExact();
  }

  lemma {:induction false} StaleAfterSecond(p: Books)
    requires Consistent(VaultFirst, p) && p.ledger == [Deposit()]
    requires p.players == map["a" := Association(Some("1-5"), "approved")] && p.vaults == map[]
    ensures !Consistent(VaultFirst, Streamed(VaultFirst, p, TakenLater()[1], {}))
  {
    var op := VaultOpened("0-1", "a", 7, true);
    SecondBlock(VaultFirst, p);
    VaultTakesDeposit(p);
    DepositGoesStale(VaultFirst, p, op, "1-5");
    assert Aggregated(VaultFirst, p) == p;
  }

  lemma {:induction false} WindowStaysExact()
    ensures Consistent(VaultFirst, WindowResult(VaultFirst, NOTHING, TakenLater(), {}))
  {
    WindowIsExact(VaultFirst, NOTHING, TakenLater(), {});
  }

  lemma {:induction false} PerBlockOfTwo(view: View, b: Books, blocks: seq<Block>)
    requires |blocks| == 2
    ensures PerBlock(view, b, blocks, [{}, {}]) == Streamed(view, Streamed(view, b, blocks[0], {}), blocks[1], {})
  {
    var extras: seq<set<string>> := [{}, {}];
    assert extras[..1] == [{}] && blocks[..1] == [blocks[0]];
    assert extras[..1][..0] == [] && blocks[..1][..0] == [];
    assert PerBlock(view, b, blocks[..1], extras[..1]) == Streamed(view, b, blocks[0], {});
  }
}
