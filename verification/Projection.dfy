/** Inventory across blocks and windows: handlers move ownership, flushes return deltas,
    and a recompute follows every block or one whole window
    (events/address.go, events/address_association.go, events/economy.go,
    sync/bulkwindow.go, readmodel/project.go). */
module Projection {
  import opened Identifiers
  import opened Inventory
  import opened LedgerRows
  import opened Positions

  // ----- the three ownership handlers --------------------------------------------------------

  datatype Op =
    | Registered(address: string, player: string)
    | Associated(address: string, player: string, known: bool, status: string)
    | VaultOpened(owner: string, address: string, account: nat, created: bool)

  datatype Effect = Effect(books: Books, dirty: Dirty)

  function PreviousPlayer(b: Books, address: string): set<string> {
    if address in b.players && b.players[address].player.Some? then {b.players[address].player.value} else {}
  }

  /** A rejected event changes and marks nothing; an unknown player is skipped silently. An
      empty player is stored as it comes but never marked. */
  function AfterOp(b: Books, op: Op): Effect {
    match op
    case Registered(address, player) =>
      if address == "" then Effect(b, CLEAN)
      else
        Effect(b.(players := b.players[address := Association(Some(player), "approved")]),
               Dirty({address}, Named(PreviousPlayer(b, address) + {player})))
    case Associated(address, player, known, status) =>
      if address == "" || !known then Effect(b, CLEAN)
      else
        Effect(b.(players := b.players[address := Association(Some(player), status)]),
               Dirty({address}, Named(PreviousPlayer(b, address) + {player})))
    case VaultOpened(owner, address, account, created) =>
      if !IsOwner(owner) || address == "" then Effect(b, CLEAN)
      else
        var wanted := Vault(address, account, Some(created));
        if owner !in b.vaults || b.vaults[owner] == wanted || b.vaults[owner] == Vault(address, account, None)
        then Effect(b.(vaults := b.vaults[owner := wanted]), Dirty({address}, {owner}))
        else Effect(b, CLEAN)
  }

  function AfterOps(b: Books, ops: seq<Op>): Effect {
    if ops == [] then Effect(b, CLEAN)
    else
      var earlier := AfterOps(b, ops[..|ops| - 1]);
      var last := AfterOp(earlier.books, ops[|ops| - 1]);
      Effect(last.books, earlier.dirty.Merge(last.dirty))
  }

  // ----- blocks and windows ----------------------------------------------------------------------

  datatype Block = Block(ops: seq<Op>, rows: seq<LedgerRow>)

  datatype Step = Step(books: Books, dirty: Dirty, deltas: seq<Delta>)

  function RowAddresses(rows: seq<LedgerRow>): set<string> {
    Named(set i | 0 <= i < |rows| :: rows[i].address)
  }

  function Flushed(b: Books, rows: seq<LedgerRow>): Step {
    var added := Fresh(b.ledger, rows);
    Step(b.(ledger := b.ledger + added), Dirty(RowAddresses(rows), {}), Deltas(added))
  }

  /** One block up to its projections: handlers, dirty marks, ledger flush. */
  function Applied(b: Books, block: Block): Step {
    var e := AfterOps(b, block.ops);
    var f := Flushed(e.books, block.rows);
    Step(f.books, e.dirty.Merge(f.dirty), f.deltas)
  }

  /** A window merges the marks and appends the deltas of its blocks. */
  function Window(b: Books, blocks: seq<Block>): Step {
    if blocks == [] then Step(b, CLEAN, [])
    else
      var w := Window(b, blocks[..|blocks| - 1]);
      var s := Applied(w.books, blocks[|blocks| - 1]);
      Step(s.books, w.dirty.Merge(s.dirty), w.deltas + s.deltas)
  }

  ghost function WindowResult(view: View, b: Books, blocks: seq<Block>, extra: set<string>): Books {
    var w := Window(b, blocks);
    Recomputed(view, w.books, w.dirty, w.deltas, extra)
  }

  ghost function Streamed(view: View, b: Books, block: Block, extra: set<string>): Books {
    var s := Applied(b, block);
    Recomputed(view, s.books, s.dirty, s.deltas, extra)
  }

  /** Streaming: every block is recomputed on its own. `extras` is what each expansion adds. */
  ghost function PerBlock(view: View, b: Books, blocks: seq<Block>, extras: seq<set<string>>): Books
    requires |extras| == |blocks|
  {
    if blocks == [] then b
    else
      var n := |blocks| - 1;
      Streamed(view, PerBlock(view, b, blocks[..n], extras[..n]), blocks[n], extras[n])
  }

  // ----- marks cover every table change ------------------------------------------------------------

  /** No address is empty. */
  predicate Addressed(b: Books) {
    "" !in b.players && VaultOwners(b, "") == {}
  }

  lemma {:induction false} OpIsMarked(b: Books, op: Op)
    requires Addressed(b)
    ensures Marked(b, AfterOp(b, op).books, AfterOp(b, op).dirty, [])
  {
    var now := AfterOp(b, op).books;
    assert now.ledger[|b.ledger|..] == [];
    if op.VaultOpened? {
      forall a | a != op.address ensures VaultOwners(now, a) == VaultOwners(b, a) { }
    } else {
      AssociationIsMarked(b, op);
    }
  }

  lemma {:induction false} AssociationIsMarked(b: Books, op: Op)
    requires Addressed(b) && !op.VaultOpened?
    ensures Marked(b, AfterOp(b, op).books, AfterOp(b, op).dirty, [])
  {
    var now := AfterOp(b, op).books;
    assert now.ledger[|b.ledger|..] == [];
    assert forall a :: VaultOwners(now, a) == VaultOwners(b, a);
  }

  lemma {:induction false} FlushIsMarked(b: Books, rows: seq<LedgerRow>)
    requires Addressed(b)
    ensures Marked(b, Flushed(b, rows).books, Flushed(b, rows).dirty, Flushed(b, rows).deltas)
  {
    var f := Flushed(b, rows);
    assert f.books.ledger[|b.ledger|..] == Fresh(b.ledger, rows);
    assert forall a :: VaultOwners(f.books, a) == VaultOwners(b, a) && AssociationOf(f.books, a) == AssociationOf(b, a);
    FreshFromRows(b.ledger, rows);
  }

  lemma {:induction false} FreshFromRows(ledger: seq<LedgerRow>, rows: seq<LedgerRow>)
    ensures forall i :: 0 <= i < |Fresh(ledger, rows)| ==> Fresh(ledger, rows)[i] in rows
  {
    if rows != [] {
      FreshFromRows(ledger, rows[..|rows| - 1]);
    }
  }

  lemma {:induction false} OpsAreMarked(b: Books, ops: seq<Op>)
    requires Addressed(b)
    ensures Marked(b, AfterOps(b, ops).books, AfterOps(b, ops).dirty, [])
  {
    if ops == [] {
      assert b.ledger[|b.ledger|..] == [];
    } else {
      var init := ops[..|ops| - 1];
      OpsAreMarked(b, init);
      var earlier := AfterOps(b, init);
      OpIsMarked(earlier.books, ops[|ops| - 1]);
    }
  }

  lemma {:induction false} BlockIsMarked(b: Books, block: Block)
    requires Addressed(b)
    ensures Marked(b, Applied(b, block).books, Applied(b, block).dirty, Applied(b, block).deltas)
  {
    OpsAreMarked(b, block.ops);
    var e := AfterOps(b, block.ops);
    FlushIsMarked(e.books, block.rows);
    var f := Flushed(e.books, block.rows);
    assert [] + f.deltas == f.deltas;
  }

  /** Whatever happens in a window, its merged marks and appended deltas account for every
      changed address, every association left and every new row. */
  lemma {:induction false} WindowIsMarked(b: Books, blocks: seq<Block>)
    requires Addressed(b)
    ensures Marked(b, Window(b, blocks).books, Window(b, blocks).dirty, Window(b, blocks).deltas)
  {
    if blocks == [] {
      assert b.ledger[|b.ledger|..] == [];
    } else {
      var n := |blocks| - 1;
      WindowIsMarked(b, blocks[..n]);
      var w := Window(b, blocks[..n]);
      BlockIsMarked(w.books, blocks[n]);
      var s := Applied(w.books, blocks[n]);
    }
  }

  /** Looked up before each event: separate tables stay so iff the event changes nothing, or
      its address has no vault of another owner and, for a vault, no player. */
  lemma {:induction false} StaysSeparate(b: Books, op: Op)
    requires Separate(b)
    ensures Separate(AfterOp(b, op).books) <==>
              AfterOp(b, op).books == b
              || (if op.VaultOpened? then op.address !in b.players && VaultOwners(b, op.address) <= {op.owner}
                  else VaultOwners(b, op.address) == {})
  {
    var now, a := AfterOp(b, op).books, op.address;
    forall o ensures o in VaultOwners(b, a) <==> o in b.vaults && b.vaults[o].address == a { }
    if op.VaultOpened? && now != b {
      assert now.players == b.players && now.vaults == b.vaults[op.owner := now.vaults[op.owner]] && now.vaults[op.owner].address == a;
      assert forall o :: o in b.vaults && o != op.owner ==> o in now.vaults && now.vaults[o] == b.vaults[o];
    } else if now != b {
      assert now.vaults == b.vaults && a in now.players && now.players.Keys == b.players.Keys + {a};
    }
  }

  // ----- sources and projections -------------------------------------------------------------------

  /** The authoritative tables agree; only the projections may differ. */
  predicate SameSources(b: Books, c: Books) {
    b.ledger == c.ledger && b.players == c.players && b.vaults == c.vaults
  }

  lemma {:induction false} OpFollowsSources(b: Books, c: Books, op: Op)
    requires SameSources(b, c)
    ensures SameSources(AfterOp(b, op).books, AfterOp(c, op).books) && AfterOp(b, op).dirty == AfterOp(c, op).dirty
  {
  }

  lemma {:induction false} OpsFollowSources(b: Books, c: Books, ops: seq<Op>)
    requires SameSources(b, c)
    ensures SameSources(AfterOps(b, ops).books, AfterOps(c, ops).books)
    ensures AfterOps(b, ops).dirty == AfterOps(c, ops).dirty
    ensures AfterOps(b, ops).books.liquid == b.liquid && AfterOps(b, ops).books.held == b.held && AfterOps(b, ops).books.ledger == b.ledger
  {
    if ops != [] {
      var init := ops[..|ops| - 1];
      OpsFollowSources(b, c, init);
      OpFollowsSources(AfterOps(b, init).books, AfterOps(c, init).books, ops[|ops| - 1]);
    }
  }

  lemma {:induction false} BlockFollowsSources(b: Books, c: Books, block: Block)
    requires SameSources(b, c)
    ensures SameSources(Applied(b, block).books, Applied(c, block).books)
    ensures Applied(b, block).dirty == Applied(c, block).dirty && Applied(b, block).deltas == Applied(c, block).deltas
    ensures Awaits(b, Applied(b, block).books, Applied(b, block).deltas)
  {
    OpsFollowSources(b, c, block.ops);
    assert Applied(b, block).books.ledger[|b.ledger|..] == Fresh(b.ledger, block.rows);
  }

  lemma {:induction false} RebuildsFollowSources(view: View, b: Books, c: Books, d: Dirty, extra: set<string>)
    requires SameSources(b, c)
    ensures Rebuilds(view, b, d, extra) == Rebuilds(view, c, d, extra)
  {
    assert forall a :: VaultOwners(b, a) == VaultOwners(c, a) && AssociationOf(b, a) == AssociationOf(c, a);
    assert forall a :: OwnerOf(view, b, a) == OwnerOf(view, c, a);
  }

  lemma {:induction false} WindowKeepsProjections(b: Books, blocks: seq<Block>)
    ensures Awaits(b, Window(b, blocks).books, Window(b, blocks).deltas)
  {
    if blocks == [] {
      assert b.ledger[|b.ledger|..] == [];
    } else {
      var n := |blocks| - 1;
      WindowKeepsProjections(b, blocks[..n]);
      var w := Window(b, blocks[..n]);
      BlockFollowsSources(w.books, w.books, blocks[n]);
      var s := Applied(w.books, blocks[n]);
      AwaitsThen(b, w.books, s.books, w.deltas, s.deltas);
    }
  }

  // ----- address balances, under no assumption --------------------------------------------------------

  /** Over any blocks, replayed ones included, and however projections are scheduled, each
      address balance is the signed sum of its ledger rows. */
  lemma {:induction false} LiquidIsExact(view: View, b: Books, blocks: seq<Block>, extra: set<string>, extras: seq<set<string>>)
    requires b.liquid == LiquidOf(b.ledger) && |extras| == |blocks|
    ensures WindowResult(view, b, blocks, extra).liquid == LiquidOf(WindowResult(view, b, blocks, extra).ledger)
    ensures PerBlock(view, b, blocks, extras).liquid == LiquidOf(PerBlock(view, b, blocks, extras).ledger)
    ensures LiquidIsSigned(WindowResult(view, b, blocks, extra).liquid, WindowResult(view, b, blocks, extra).ledger)
    ensures LiquidIsSigned(PerBlock(view, b, blocks, extras).liquid, PerBlock(view, b, blocks, extras).ledger)
    ensures SameSources(WindowResult(view, b, blocks, extra), Window(b, blocks).books)
    ensures SameSources(PerBlock(view, b, blocks, extras), Window(b, blocks).books)
  {
    var w := Window(b, blocks);
    WindowKeepsProjections(b, blocks);
    RecomputedLiquid(view, b, w.books, w.dirty, w.deltas, extra);
    AggregateIsSigned(b.ledger);
    if blocks != [] {
      var n := |blocks| - 1;
      LiquidIsExact(view, b, blocks[..n], extra, extras[..n]);
      var p := PerBlock(view, b, blocks[..n], extras[..n]);
      BlockFollowsSources(p, Window(b, blocks[..n]).books, blocks[n]);
      var s := Applied(p, blocks[n]);
      RecomputedLiquid(view, p, s.books, s.dirty, s.deltas, extras[n]);
    }
  }

  lemma {:induction false} LongerHasSource(ledger: seq<LedgerRow>, more: seq<LedgerRow>, r: LedgerRow)
    requires HasSource(ledger, r)
    ensures HasSource(ledger + more, r)
  {
    var i :| 0 <= i < |ledger| && SameSource(ledger[i], r);
    assert (ledger + more)[i] == ledger[i];
  }

  /** Every row that a block of the window posts is stored afterwards. */
  lemma {:induction false} WindowStoresAll(b: Books, blocks: seq<Block>, i: nat, j: nat)
    requires i < |blocks| && j < |blocks[i].rows|
    ensures HasSource(Window(b, blocks).books.ledger, blocks[i].rows[j])
  {
    var n := |blocks| - 1;
    var w := Window(b, blocks[..n]).books;
    OpsFollowSources(w, w, blocks[n].ops);
    var added := Fresh(w.ledger, blocks[n].rows);
    assert Window(b, blocks).books.ledger == w.ledger + added;
    if i == n {
      FreshInserts(w.ledger, blocks[n].rows);
    } else {
      WindowStoresAll(b, blocks[..n], i, j);
      LongerHasSource(w.ledger, added, blocks[i].rows[j]);
    }
  }

  // ----- owner rows: as they were when the owner was last rebuilt ---------------------------------------

  /** The tables after the first `n` blocks; its address balances are made exact. */
  function SourcesAfter(b: Books, blocks: seq<Block>, n: nat): Books
    requires n <= |blocks|
  {
    var sources := Window(b, blocks[..n]).books;
    sources.(liquid := LiquidOf(sources.ledger))
  }

  /** What the owner truly holds after the first `n` blocks. */
  ghost function TrueRows(view: View, b: Books, blocks: seq<Block>, n: nat, owner: string): map<Holding, int>
    requires n <= |blocks|
  {
    OwnerRows(HeldOf(view, SourcesAfter(b, blocks, n)), owner)
  }

  function OwnerRows(m: map<Holding, int>, owner: string): map<Holding, int> {
    map k | k in m && k.holder == owner :: m[k]
  }

  /** How many blocks had been applied when the owner was last rebuilt, block by block. */
  function LastRebuild(view: View, b: Books, blocks: seq<Block>, extras: seq<set<string>>, owner: string): (n: nat)
    requires |extras| == |blocks|
    ensures n <= |blocks|
  {
    if blocks == [] then 0
    else
      var n := |blocks| - 1;
      var s := Applied(Window(b, blocks[..n]).books, blocks[n]);
      if owner in Rebuilds(view, s.books, s.dirty, extras[n]) then |blocks|
      else LastRebuild(view, b, blocks[..n], extras[..n], owner)
  }

  /** The same for one recompute at the end of the window. */
  function WindowRebuild(view: View, b: Books, blocks: seq<Block>, extra: set<string>, owner: string): (n: nat)
    ensures n <= |blocks|
  {
    var w := Window(b, blocks);
    if owner in Rebuilds(view, w.books, w.dirty, extra) then |blocks| else 0
  }

  lemma {:induction false} RebuiltRows(view: View, b: Books, owners: set<string>, owner: string)
    ensures OwnerRows(Rebuilt(view, b, owners), owner)
         == if owner in owners then OwnerRows(HeldOf(view, b), owner) else OwnerRows(b.held, owner)
  {
    var rows := OwnerRows(Rebuilt(view, b, owners), owner);
    if owner in owners {
      assert rows == OwnerRows(HeldOf(view, b), owner);
    } else {
      assert rows == OwnerRows(b.held, owner);
    }
  }

  lemma {:induction false} RecomputedRows(view: View, now: Books, d: Dirty, ds: seq<Delta>, extra: set<string>, owner: string)
    ensures var y := Recomputed(view, now, d, ds, extra);
            OwnerRows(y.held, owner)
              == if owner in Rebuilds(view, now, d, extra) then OwnerRows(HeldOf(view, y), owner) else OwnerRows(now.held, owner)
  {
    var credited := now.(liquid := Credited(now.liquid, ds));
    RebuiltRows(view, credited, Rebuilds(view, now, d, extra), owner);
    HeldDependsOn(view, credited, Recomputed(view, now, d, ds, extra));
  }

  lemma {:induction false} ExactSources(view: View, b: Books, blocks: seq<Block>, n: nat, c: Books)
    requires n <= |blocks| && SameSources(c, Window(b, blocks[..n]).books) && c.liquid == LiquidOf(c.ledger)
    ensures HeldOf(view, c) == HeldOf(view, SourcesAfter(b, blocks, n))
  {
    HeldDependsOn(view, c, SourcesAfter(b, blocks, n));
  }

  /** Block by block, an owner's cached rows are its true rows when it was last rebuilt. */
  lemma {:induction false} PerBlockRows(view: View, b: Books, blocks: seq<Block>, extras: seq<set<string>>, owner: string)
    requires b.liquid == LiquidOf(b.ledger) && b.held == HeldOf(view, b) && |extras| == |blocks|
    ensures OwnerRows(PerBlock(view, b, blocks, extras).held, owner)
         == TrueRows(view, b, blocks, LastRebuild(view, b, blocks, extras, owner), owner)
  {
    if blocks == [] {
      ExactSources(view, b, blocks, 0, b);
    } else {
      var n := |blocks| - 1;
      var p, w := PerBlock(view, b, blocks[..n], extras[..n]), Window(b, blocks[..n]).books;
      LiquidIsExact(view, b, blocks[..n], {}, extras[..n]);
      LiquidIsExact(view, b, blocks, {}, extras);
      PerBlockRows(view, b, blocks[..n], extras[..n], owner);
      BlockFollowsSources(p, w, blocks[n]);
      var s, t := Applied(p, blocks[n]), Applied(w, blocks[n]);
      RebuildsFollowSources(view, s.books, t.books, s.dirty, extras[n]);
      RecomputedRows(view, s.books, s.dirty, s.deltas, extras[n], owner);
      TrueAtEnd(view, b, blocks, PerBlock(view, b, blocks, extras), owner);
      TrueEarlier(view, b, blocks, n, LastRebuild(view, b, blocks[..n], extras[..n], owner), owner);
    }
  }

  lemma {:induction false} TrueAtEnd(view: View, b: Books, blocks: seq<Block>, c: Books, owner: string)
    requires SameSources(c, Window(b, blocks).books) && c.liquid == LiquidOf(c.ledger)
    ensures TrueRows(view, b, blocks, |blocks|, owner) == OwnerRows(HeldOf(view, c), owner)
  {
    assert blocks[..|blocks|] == blocks;
    ExactSources(view, b, blocks, |blocks|, c);
  }

  lemma {:induction false} TrueEarlier(view: View, b: Books, blocks: seq<Block>, n: nat, m: nat, owner: string)
    requires m <= n <= |blocks|
    ensures TrueRows(view, b, blocks[..n], m, owner) == TrueRows(view, b, blocks, m, owner)
  {
    assert blocks[..n][..m] == blocks[..m];
  }

  /** With one recompute they are its true rows at the end or, if it is not rebuilt, at
      the start of the window. */
  lemma {:induction false} WindowRows(view: View, b: Books, blocks: seq<Block>, extra: set<string>, owner: string)
    requires b.liquid == LiquidOf(b.ledger) && b.held == HeldOf(view, b)
    ensures OwnerRows(WindowResult(view, b, blocks, extra).held, owner)
         == TrueRows(view, b, blocks, WindowRebuild(view, b, blocks, extra, owner), owner)
  {
    var w := Window(b, blocks);
    WindowKeepsProjections(b, blocks);
    RecomputedLiquid(view, b, w.books, w.dirty, w.deltas, extra);
    RecomputedRows(view, w.books, w.dirty, w.deltas, extra, owner);
    TrueAtEnd(view, b, blocks, WindowResult(view, b, blocks, extra), owner);
    assert blocks[..0] == [];
    ExactSources(view, b, blocks, 0, b);
  }

  lemma {:induction false} RowsDecide(a: map<Holding, int>, b: map<Holding, int>)
    ensures a == b <==> forall owner :: OwnerRows(a, owner) == OwnerRows(b, owner)
  {
    if forall owner :: OwnerRows(a, owner) == OwnerRows(b, owner) {
      forall k: Holding ensures (k in a <==> k in b) && (k in a ==> a[k] == b[k]) {
        assert OwnerRows(a, k.holder) == OwnerRows(b, k.holder);
        assert k in a <==> k in OwnerRows(a, k.holder);
        assert k in b <==> k in OwnerRows(b, k.holder);
        assert k in a ==> OwnerRows(a, k.holder)[k] == a[k];
        assert k in b ==> OwnerRows(b, k.holder)[k] == b[k];
      }
      assert a.Keys == b.Keys;
    }
  }

  // ----- a window against its blocks ------------------------------------------------------------------

  /** Recomputing a window once, from its merged marks and appended deltas, leaves the tables
      that a recompute after every block leaves iff every owner truly holds the same at the
      two points at which it was last rebuilt. Nothing is assumed about the blocks. */
  lemma {:induction false} WindowEqualsPerBlock(view: View, b: Books, blocks: seq<Block>, extra: set<string>, extras: seq<set<string>>)
    requires b.liquid == LiquidOf(b.ledger) && b.held == HeldOf(view, b) && |extras| == |blocks|
    ensures WindowResult(view, b, blocks, extra) == PerBlock(view, b, blocks, extras)
       <==> forall owner :: TrueRows(view, b, blocks, WindowRebuild(view, b, blocks, extra, owner), owner)
                         == TrueRows(view, b, blocks, LastRebuild(view, b, blocks, extras, owner), owner)
  {
    var x, y := WindowResult(view, b, blocks, extra), PerBlock(view, b, blocks, extras);
    LiquidIsExact(view, b, blocks, extra, extras);
    RowsDecide(x.held, y.held);
    forall owner
      ensures OwnerRows(x.held, owner) == TrueRows(view, b, blocks, WindowRebuild(view, b, blocks, extra, owner), owner)
      ensures OwnerRows(y.held, owner) == TrueRows(view, b, blocks, LastRebuild(view, b, blocks, extras, owner), owner)
    {
      WindowRows(view, b, blocks, extra, owner);
      PerBlockRows(view, b, blocks, extras, owner);
    }
  }

  /** Per block, the tables are exact iff no owner's true rows have changed since it was
      last rebuilt. */
  lemma {:induction false} PerBlockIsExact(view: View, b: Books, blocks: seq<Block>, extras: seq<set<string>>)
    requires Consistent(view, b) && |extras| == |blocks|
    ensures Consistent(view, PerBlock(view, b, blocks, extras))
       <==> forall owner :: TrueRows(view, b, blocks, LastRebuild(view, b, blocks, extras, owner), owner)
                         == TrueRows(view, b, blocks, |blocks|, owner)
  {
    var y := PerBlock(view, b, blocks, extras);
    LiquidIsExact(view, b, blocks, {}, extras);
    WindowIsMarked(b, blocks);
    assert blocks[..|blocks|] == blocks;
    ExactSources(view, b, blocks, |blocks|, y);
    HeldDependsOn(view, y, SourcesAfter(b, blocks, |blocks|));
    assert VaultOwners(y, "") == VaultOwners(Window(b, blocks).books, "");
    RowsDecide(y.held, HeldOf(view, y));
    forall owner
      ensures OwnerRows(y.held, owner) == TrueRows(view, b, blocks, LastRebuild(view, b, blocks, extras, owner), owner)
      ensures OwnerRows(HeldOf(view, y), owner) == TrueRows(view, b, blocks, |blocks|, owner)
    {
      PerBlockRows(view, b, blocks, extras, owner);
    }
  }

  /** One recompute is exact iff the owners that the window's marks do not reach lost nothing. */
  lemma {:induction false} WindowIsExact(view: View, b: Books, blocks: seq<Block>, extra: set<string>)
    requires Faithful(view) && Consistent(view, b)
    ensures var w := Window(b, blocks);
            Consistent(view, WindowResult(view, b, blocks, extra))
            <==> NothingLost(view, b, w.books, Rebuilds(view, w.books, w.dirty, extra))
  {
    WindowIsMarked(b, blocks);
    var w := Window(b, blocks);
    RecomputeIsExact(view, b, w.books, w.dirty, w.deltas, extra);
  }

  /** Consistent projections are a function of the authoritative tables. */
  lemma {:induction false} SourcesDecide(view: View, b: Books, c: Books)
    requires Consistent(view, b) && Consistent(view, c) && SameSources(b, c)
    ensures b == c
  {
    HeldDependsOn(view, b, c);
  }

  /** If at the end of the window no address is both a player's and a vault's and no two
      vaults share one, then both schedules are exact and equal, also when addresses change
      owner inside the window and when blocks are replayed. */
  lemma {:induction false} SeparateWindowIsExact(view: View, b: Books, blocks: seq<Block>, extra: set<string>, extras: seq<set<string>>)
    requires Faithful(view) && Consistent(view, b) && Separate(Window(b, blocks).books) && |extras| == |blocks|
    ensures Consistent(view, WindowResult(view, b, blocks, extra)) && Consistent(view, PerBlock(view, b, blocks, extras))
    ensures WindowResult(view, b, blocks, extra) == PerBlock(view, b, blocks, extras)
  {
    var w := Window(b, blocks);
    WindowIsMarked(b, blocks);
    SeparateLosesNothing(view, b, w.books, w.dirty, w.deltas, extra);
    WindowIsExact(view, b, blocks, extra);
    LiquidIsExact(view, b, blocks, extra, extras);
    SeparateBlocksAreExact(view, b, blocks, extras);
    SourcesDecide(view, WindowResult(view, b, blocks, extra), PerBlock(view, b, blocks, extras));
  }

  lemma {:induction false} SeparateBlocksAreExact(view: View, b: Books, blocks: seq<Block>, extras: seq<set<string>>)
    requires Faithful(view) && Consistent(view, b) && Separate(Window(b, blocks).books) && |extras| == |blocks|
    ensures Consistent(view, PerBlock(view, b, blocks, extras))
  {
    if blocks != [] {
      var n := |blocks| - 1;
      var p, w := PerBlock(view, b, blocks[..n], extras[..n]), Window(b, blocks[..n]).books;
      LiquidIsExact(view, b, blocks[..n], {}, extras[..n]);
      WindowIsMarked(b, blocks[..n]);
      var s, t := Applied(p, blocks[n]), Applied(w, blocks[n]);
      BlockIsMarked(w, blocks[n]);
      SeparateBlocksAreExact(view, b, blocks[..n], extras[..n]);
      BlockFollowsSources(p, w, blocks[n]);
      BlockIsMarked(p, blocks[n]);
      SeparateLosesNothing(view, p, s.books, s.dirty, s.deltas, extras[n]);
      RecomputeIsExact(view, p, s.books, s.dirty, s.deltas, extras[n]);
    }
  }
}
