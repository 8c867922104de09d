/** The tables themselves, updated in place by handlers, flushes and recomputes. */
module InventoryStore {
  import opened Identifiers
  import opened Inventory
  import opened LedgerRows
  import opened Positions
  import opened Projection

  const BATCH := 500

  class Store {
    var ledger: seq<LedgerRow>
    var players: map<string, Association>
    var vaults: map<string, Vault>
    var liquid: map<Holding, int>
    var held: map<Holding, int>
    var dirty: Dirty

    constructor ()
      ensures View() == Books([], map[], map[], map[], map[]) && dirty == CLEAN
    {
      ledger, players, vaults, liquid, held, dirty := [], map[], map[], map[], map[], CLEAN;
    }

    function View(): Books
      reads this
    {
      Books(ledger, players, vaults, liquid, held)
    }

    // ----- handlers ------------------------------------------------------------------------

    method HandleAddress(address: string, player: string) returns (ok: bool)
      modifies `players, `dirty
      ensures ok <==> address != ""
      ensures var e := AfterOp(old(View()), Registered(address, player));
              View() == e.books && dirty == old(dirty).Merge(e.dirty)
      ensures players == if ok then old(players)[address := Association(Some(player), "approved")] else old(players)
      ensures ok ==> Touches(old(players), dirty, address, player)
    {
      if address == "" { return false; }
      var previous := PreviousPlayer(View(), address);
      players := players[address := Association(Some(player), "approved")];
      dirty := Dirty(dirty.addresses + {address}, dirty.owners + Named(previous) + Named({player}));
      ok := true;
    }

    /** `known` is whether the player exists. */
    method HandleAssociation(address: string, player: string, known: bool, status: string) returns (ok: bool)
      modifies `players, `dirty
      ensures ok <==> address != ""
      ensures var e := AfterOp(old(View()), Associated(address, player, known, status));
              View() == e.books && dirty == old(dirty).Merge(e.dirty)
      ensures players == if ok && known then old(players)[address := Association(Some(player), status)] else old(players)
      ensures ok && known ==> Touches(old(players), dirty, address, player)
    {
      if address == "" { return false; }
      if !known { return true; }
      var previous := PreviousPlayer(View(), address);
      players := players[address := Association(Some(player), status)];
      dirty := Dirty(dirty.addresses + {address}, dirty.owners + Named(previous) + Named({player}));
      ok := true;
    }

    /** A vault's identity never changes; only an unset creation flag is filled in. */
    method HandleVault(owner: string, address: string, account: nat, created: bool) returns (ok: bool)
      modifies `vaults, `dirty
      ensures var e := AfterOp(old(View()), VaultOpened(owner, address, account, created));
              View() == e.books && dirty == old(dirty).Merge(e.dirty)
      ensures ok <==> IsOwner(owner) && address != ""
                      && (owner in old(vaults) ==> old(vaults)[owner] in {Vault(address, account, None), Vault(address, account, Some(created))})
      ensures vaults == if ok then old(vaults)[owner := Vault(address, account, Some(created))] else old(vaults)
      ensures ok ==> address in dirty.addresses && owner in dirty.owners
      ensures owner in old(vaults) && vaults != old(vaults) ==> old(vaults)[owner] == Vault(address, account, None)
    {
      if !IsOwner(owner) || address == "" { return false; }
      var stored := vaults;
      if owner !in vaults {
        stored := vaults[owner := Vault(address, account, Some(created))];
      } else if vaults[owner] == Vault(address, account, None) {
        stored := vaults[owner := Vault(address, account, Some(created))];
      }
      // A conflicting identity is an error, and the handler's write is rolled back.
      if stored[owner] != Vault(address, account, Some(created)) { return false; }
      assert owner in vaults && vaults[owner] == stored[owner] ==> vaults[owner := stored[owner]] == vaults;
      vaults := stored;
      dirty := Dirty(dirty.addresses + {address}, dirty.owners + {owner});
      ok := true;
    }

    /** The address, the player it had and the player it gets are marked. */
    ghost predicate Touches(before: map<string, Association>, d: Dirty, address: string, player: string) {
      && address in d.addresses && (player != "" ==> player in d.owners)
      && (address in before && before[address].player.Some? && before[address].player.value != "" ==> before[address].player.value in d.owners)
    }

    method Handle(op: Op)
      modifies `players, `vaults, `dirty
      ensures View() == AfterOp(old(View()), op).books && dirty == old(dirty).Merge(AfterOp(old(View()), op).dirty)
    {
      match op
      case Registered(address, player) => var _ := HandleAddress(address, player);
      case Associated(address, player, known, status) => var _ := HandleAssociation(address, player, known, status);
      case VaultOpened(owner, address, account, created) => var _ := HandleVault(owner, address, account, created);
    }

    // ----- the ledger flush ------------------------------------------------------------------

    /** One insert statement: stored identities, also earlier ones of the same
        statement, are skipped and return nothing. */
    method FlushBatch(rows: seq<LedgerRow>) returns (deltas: seq<Delta>)
      modifies `ledger
      ensures ledger == old(ledger) + Fresh(old(ledger), rows)
      ensures deltas == Deltas(Fresh(old(ledger), rows))
    {
      deltas := [];
      for i := 0 to |rows|
        invariant ledger == old(ledger) + Fresh(old(ledger), rows[..i])
        invariant deltas == Deltas(Fresh(old(ledger), rows[..i]))
      {
        assert rows[..i + 1][..i] == rows[..i];
        var row := rows[i];
        if IdentityOf(row) !in Identities(ledger) {
          ledger := ledger + [row];
          deltas := deltas + [Delta(row.address, row.denom, Signed(row))];
        }
      }
      assert rows[..|rows|] == rows;
    }

    method FlushLedger(rows: seq<LedgerRow>) returns (deltas: seq<Delta>)
      modifies `ledger
      ensures ledger == old(ledger) + Fresh(old(ledger), rows)
      ensures deltas == Deltas(Fresh(old(ledger), rows))
    {
      deltas := [];
      ghost var start := ledger;
      assert start + [] == start;
      var i := 0;
      while i < |rows|
        invariant 0 <= i <= |rows| && Flushing(start, rows[..i], ledger, deltas)
      {
        var end := if i + BATCH > |rows| then |rows| else i + BATCH;
        assert rows[..end] == rows[..i] + rows[i..end];
        NextBatch(start, rows[..i], rows[i..end], ledger, deltas);
        var batch := FlushBatch(rows[i..end]);
        deltas := deltas + batch;
        i := end;
      }
      assert rows[..|rows|] == rows;
    }

    // ----- recompute ---------------------------------------------------------------------------

    method Sum(keys: set<Holding>) returns (total: int)
      requires keys <= liquid.Keys
      ensures total == SumOver(keys, liquid)
    {
      total := 0;
      var rest := keys;
      while rest != {}
        invariant rest <= keys && total + SumOver(rest, liquid) == SumOver(keys, liquid)
        decreases |rest|
      {
        var k :| k in rest;
        SumWithout(rest, liquid, k);
        total := total + liquid[k];
        rest := rest - {k};
      }
    }

    /** The aggregate of the wanted owner rows over their current addresses. */
    method FreshRows(view: View, wanted: set<Holding>) returns (rows: map<Holding, int>)
      ensures rows == map k | k in wanted :: SumOver(Attributed(view, View(), k), liquid)
    {
      rows := map[];
      var rest := wanted;
      while rest != {}
        invariant rest <= wanted && rows == map k | k in wanted - rest :: SumOver(Attributed(view, View(), k), liquid)
        decreases |rest|
      {
        var k :| k in rest;
        var total := Sum(Attributed(view, View(), k));
        rows := rows[k := total];
        rest := rest - {k};
      }
    }

    /** Deletes the stale rows of the given owners, then upserts their aggregate. */
    method RebuildOwners(view: View, owners: set<string>)
      modifies `held
      ensures held == Rebuilt(view, old(View()), owners)
    {
      var rows := FreshRows(view, OwnedBy(view, View(), owners));
      UpsertIsRebuild(view, View(), owners, rows);
      held := Kept(held, owners, rows.Keys);
      held := held + rows;
    }

    method Recompute(view: View, deltas: seq<Delta>, extra: set<string>)
      modifies `liquid, `held, `dirty
      ensures View() == Recomputed(view, old(View()), old(dirty), deltas, extra)
      ensures dirty == CLEAN
      ensures forall n: nat :: n <= |ledger| && old(liquid) == LiquidOf(ledger[..n]) && deltas == Deltas(ledger[n..]) ==> LiquidIsSigned(liquid, ledger)
    {
      forall n: nat | n <= |ledger| && liquid == LiquidOf(ledger[..n]) && deltas == Deltas(ledger[n..])
        ensures LiquidIsSigned(Credited(liquid, deltas), ledger)
      {
        CreditedIsSigned(ledger, n);
      }
      ghost var before := View();
      var owners := Rebuilds(view, View(), dirty, extra);
      liquid := Credited(liquid, deltas);
      RebuildOwners(view, owners);
      dirty := CLEAN;
    }

    // ----- one block, one window ------------------------------------------------------------------

    /** A block up to its projections. */
    method ApplyInTransaction(block: Block) returns (deltas: seq<Delta>)
      modifies this
      ensures var s := Applied(old(View()), block);
              View() == s.books && dirty == old(dirty).Merge(s.dirty) && deltas == s.deltas
    {
      for i := 0 to |block.ops|
        invariant View() == AfterOps(old(View()), block.ops[..i]).books
        invariant dirty == old(dirty).Merge(AfterOps(old(View()), block.ops[..i]).dirty)
      {
        assert block.ops[..i + 1][..i] == block.ops[..i];
        Handle(block.ops[i]);
      }
      assert block.ops[..|block.ops|] == block.ops;
      dirty := Dirty(dirty.addresses + RowAddresses(block.rows), dirty.owners);
      deltas := FlushLedger(block.rows);
    }

    /** The bulk path: every block in turn, one recompute at the end. */
    method ApplyWindow(view: View, blocks: seq<Block>, extra: set<string>)
      requires dirty == CLEAN
      modifies this
      ensures View() == WindowResult(view, old(View()), blocks, extra) && dirty == CLEAN
    {
      var deltas: seq<Delta> := [];
      for i := 0 to |blocks|
        invariant var w := Window(old(View()), blocks[..i]);
                  View() == w.books && dirty == w.dirty && deltas == w.deltas
      {
        assert blocks[..i + 1][..i] == blocks[..i];
        var more := ApplyInTransaction(blocks[i]);
        deltas := deltas + more;
      }
      assert blocks[..|blocks|] == blocks;
      Recompute(view, deltas, extra);
    }

    /** The streaming path: one block and its recompute. */
    method ApplyOne(view: View, block: Block, extra: set<string>)
      requires dirty == CLEAN
      modifies this
      ensures View() == Streamed(view, old(View()), block, extra) && dirty == CLEAN
    {
      CleanMerges(Applied(View(), block).dirty);
      var deltas := ApplyInTransaction(block);
      Recompute(view, deltas, extra);
    }

    method ApplyEach(view: View, blocks: seq<Block>, extras: seq<set<string>>)
      requires dirty == CLEAN && |extras| == |blocks|
      modifies this
      ensures View() == PerBlock(view, old(View()), blocks, extras) && dirty == CLEAN
    {
      for i := 0 to |blocks|
        invariant View() == PerBlock(view, old(View()), blocks[..i], extras[..i]) && dirty == CLEAN
      {
        assert blocks[..i + 1][..i] == blocks[..i] && extras[..i + 1][..i] == extras[..i];
        ApplyOne(view, blocks[i], extras[i]);
      }
      assert blocks[..|blocks|] == blocks && extras[..|extras|] == extras;
    }
  }

  lemma {:induction false} CreditedIsSigned(ledger: seq<LedgerRow>, n: nat)
    requires n <= |ledger|
    ensures LiquidIsSigned(Credited(LiquidOf(ledger[..n]), Deltas(ledger[n..])), ledger)
  {
    DeltasKeepAggregate(ledger[..n], ledger[n..]);
    assert ledger == ledger[..n] + ledger[n..];
    AggregateIsSigned(ledger);
  }

  lemma {:induction false} CleanMerges(d: Dirty)
    ensures CLEAN.Merge(d) == d
  {
    assert {} + d.addresses == d.addresses && {} + d.owners == d.owners;
  }

  ghost predicate Flushing(start: seq<LedgerRow>, done: seq<LedgerRow>, ledger: seq<LedgerRow>, deltas: seq<Delta>) {
    ledger == start + Fresh(start, done) && deltas == Deltas(Fresh(start, done))
  }

  lemma {:induction false} NextBatch(start: seq<LedgerRow>, done: seq<LedgerRow>, batch: seq<LedgerRow>,
                                     ledger: seq<LedgerRow>, deltas: seq<Delta>)
    requires Flushing(start, done, ledger, deltas)
    ensures Flushing(start, done + batch, ledger + Fresh(ledger, batch), deltas + Deltas(Fresh(ledger, batch)))
  {
    FreshInParts(start, done, batch);
  }

  /** What is left when the owners' rows outside `wanted` are deleted. */
  function Kept(held: map<Holding, int>, owners: set<string>, wanted: set<Holding>): map<Holding, int> {
    map k | k in held && (k.holder !in owners || k in wanted) :: held[k]
  }

  lemma {:induction false} UpsertIsRebuild(view: View, b: Books, owners: set<string>, rows: map<Holding, int>)
    requires rows == map k | k in OwnedBy(view, b, owners) :: SumOver(Attributed(view, b, k), b.liquid)
    ensures Kept(b.held, owners, rows.Keys) + rows == Rebuilt(view, b, owners)
  {
    var upserted, rebuilt := Kept(b.held, owners, rows.Keys) + rows, Rebuilt(view, b, owners);
    assert upserted.Keys == rebuilt.Keys;
  }

  function OwnedBy(view: View, b: Books, owners: set<string>): set<Holding> {
    set k | k in OwnerKeys(view, b) && k.holder in owners
  }
}
