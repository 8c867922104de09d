/** Replay idempotence rests on this: one block never posts two rows under one identity. */
module BankIdentities {
  import opened Coins
  import opened EventOrder
  import opened LedgerRows
  import opened Positions
  import opened Postings

  datatype DefusionKey = DefusionKey(tx: int, event: int, denom: string)

  function KeyOf(r: DefusionRow): DefusionKey {
    DefusionKey(r.tx, r.event, r.denom)
  }

  predicate Unique(p: Posted) {
    && DistinctIdentities(p.ledger)
    && forall i, j :: 0 <= i < j < |p.defusion| ==> KeyOf(p.defusion[i]) != KeyOf(p.defusion[j])
  }

  predicate Apart(p: Posted, q: Posted) {
    && (forall r, s :: r in p.ledger && s in q.ledger ==> IdentityOf(r) != IdentityOf(s))
    && (forall r, s :: r in p.defusion && s in q.defusion ==> KeyOf(r) != KeyOf(s))
  }

  lemma {:induction false} AllSucceeded(ps: seq<Result<Posted>>)
    requires All(ps).Ok?
    ensures forall i :: 0 <= i < |ps| ==> ps[i].Ok?
  {
    if ps != [] { AllSucceeded(ps[..|ps| - 1]); }
  }

  lemma {:induction false} ApartFromAll(ps: seq<Result<Posted>>, q: Posted)
    requires All(ps).Ok?
    requires forall i :: 0 <= i < |ps| ==> ps[i].Ok? && Apart(ps[i].value, q)
    ensures Apart(All(ps).value, q)
  {
    if ps != [] {
      var init := ps[..|ps| - 1];
      forall i | 0 <= i < |init| ensures init[i].Ok? && Apart(init[i].value, q) { assert init[i] == ps[i]; }
      ApartFromAll(init, q);
    }
  }

  lemma {:induction false} AllUnique(ps: seq<Result<Posted>>)
    requires All(ps).Ok?
    requires forall i :: 0 <= i < |ps| ==> ps[i].Ok? && Unique(ps[i].value)
    requires forall i, j :: 0 <= i < j < |ps| ==> Apart(ps[i].value, ps[j].value)
    ensures Unique(All(ps).value)
  {
    if ps != [] {
      var init, last := ps[..|ps| - 1], ps[|ps| - 1];
      forall i | 0 <= i < |init| ensures init[i].Ok? && Unique(init[i].value) && Apart(init[i].value, last.value) {
        assert init[i] == ps[i];
      }
      forall i, j | 0 <= i < j < |init| ensures Apart(init[i].value, init[j].value) {
        assert init[i] == ps[i] && init[j] == ps[j];
      }
      AllUnique(init);
      ApartFromAll(init, last.value);
    }
  }

  // ----- the coins of one event ----------------------------------------------------------

  /** The suffix of leg `n` depends on the kind of event alone. */
  function SuffixAt(kind: string, n: nat): string {
    if kind == "delegate" || kind == "create_validator" then if n == 0 then "" else INFUSED
    else if kind == "redelegate" || kind == "unbond" then if n < 2 then INFUSED else DEFUSING
    else if kind == "complete_redelegation" || kind == "cancel_unbond" then if n < 2 then DEFUSING else INFUSED
    else if kind == "complete_unbonding" then if n < 2 then DEFUSING else ""
    else ""
  }

  lemma {:induction false} StakingSuffixes(kind: string, s: Stake)
    requires IsStaking(kind)
    ensures |StakingLegs(kind, s)| <= 4
    ensures forall n :: 0 <= n < |StakingLegs(kind, s)| ==> StakingLegs(kind, s)[n].suffix == SuffixAt(kind, n)
  {
  }

  lemma {:induction false} LegSuffixes(ev: Event, group: seq<Event>, before: nat, c: Coin)
    requires IsBank(ev.kind) && Legs(ev, group, before, c).Ok?
    ensures var legs := Legs(ev, group, before, c).value;
            |legs| <= 4 && forall n :: 0 <= n < |legs| ==> legs[n].suffix == SuffixAt(ev.kind, n)
  {
    if IsStaking(ev.kind) { StakingSuffixes(ev.kind, StakeOf(ev, group, before, c).value); }
  }

  lemma {:induction false} SameSuffix(a: string, b: string, suffix: string)
    requires a != b
    ensures a + suffix != b + suffix
  {
    assert a == (a + suffix)[..|a|] && b == (b + suffix)[..|b|];
  }

  /** Rows of coin `c` of event `p`: their coordinates, and the denomination each leg gets. */
  ghost predicate Posts(x: Posted, b: Block, p: Positioned, c: Coin) {
    && (forall r :: r in x.ledger ==>
          exists n: nat :: n < 4 && r.denom == c.denom + SuffixAt(p.event.kind, n)
                           && IdentityOf(r) == Identity(b.time, b.chain, p.tx, -1, EncodeEventIndex(p.index, n), r.denom))
    && (forall r :: r in x.defusion ==> KeyOf(r) == DefusionKey(p.tx, p.index, c.denom))
  }

  lemma {:induction false} CoinPosts(clock: string -> Option<int>, b: Block, p: Positioned, group: seq<Event>, before: nat, c: Coin)
    requires IsBank(p.event.kind) && CoinPosting(clock, b, p, group, before, c).Ok?
    ensures Posts(CoinPosting(clock, b, p, group, before, c).value, b, p, c)
    ensures Unique(CoinPosting(clock, b, p, group, before, c).value)
  {
    var ev := Narrow(p.event, c);
    LegSuffixes(ev, group, before, c);
    var legs := Legs(ev, group, before, c).value;
    var rows := CoinPosting(clock, b, p, group, before, c).value.ledger;
    assert rows == LegRows(b, p, c, legs);
    forall r | r in rows
      ensures exists n: nat :: n < 4 && r.denom == c.denom + SuffixAt(p.event.kind, n)
                        && IdentityOf(r) == Identity(b.time, b.chain, p.tx, -1, EncodeEventIndex(p.index, n), r.denom) {
      var n: nat :| n < |rows| && rows[n] == r;
      assert r == LegRow(b, p, c, legs[n], n) && n < 4;
    }
  }

  lemma {:induction false} CoinsApart(x: Posted, y: Posted, b: Block, p: Positioned, c: Coin, d: Coin)
    requires Posts(x, b, p, c) && Posts(y, b, p, d) && c.denom != d.denom
    ensures Apart(x, y)
  {
    forall r, s | r in x.ledger && s in y.ledger ensures IdentityOf(r) != IdentityOf(s) {
      var n: nat :| n < 4 && r.denom == c.denom + SuffixAt(p.event.kind, n)
                    && IdentityOf(r) == Identity(b.time, b.chain, p.tx, -1, EncodeEventIndex(p.index, n), r.denom);
      var m: nat :| m < 4 && s.denom == d.denom + SuffixAt(p.event.kind, m)
                    && IdentityOf(s) == Identity(b.time, b.chain, p.tx, -1, EncodeEventIndex(p.index, m), s.denom);
      SameSuffix(c.denom, d.denom, SuffixAt(p.event.kind, n));
    }
  }

  // ----- the events of one block -----------------------------------------------------------

  /** Rows of event `p` carry its transaction and an encoded index that decodes to it. */
  ghost predicate PostsAt(x: Posted, b: Block, p: Positioned) {
    && (forall r :: r in x.ledger ==> r.tx == p.tx && EncodeEventIndex(p.index, 0) <= r.eventIndex < EncodeEventIndex(p.index + 1, 0))
    && (forall r :: r in x.defusion ==> r.tx == p.tx && r.event == p.index)
  }

  lemma {:induction false} PostsAtItsEvent(x: Posted, b: Block, p: Positioned, c: Coin)
    requires Posts(x, b, p, c)
    ensures PostsAt(x, b, p)
  {
    forall r | r in x.ledger ensures r.tx == p.tx && EncodeEventIndex(p.index, 0) <= r.eventIndex < EncodeEventIndex(p.index + 1, 0) {
      var n: nat :| n < 4 && r.denom == c.denom + SuffixAt(p.event.kind, n)
                    && IdentityOf(r) == Identity(b.time, b.chain, p.tx, -1, EncodeEventIndex(p.index, n), r.denom);
    }
    forall r | r in x.defusion ensures r.tx == p.tx && r.event == p.index {
      assert KeyOf(r) == DefusionKey(p.tx, p.index, c.denom);
    }
  }

  lemma {:induction false} AllPostAt(ps: seq<Result<Posted>>, b: Block, p: Positioned)
    requires All(ps).Ok?
    requires forall i :: 0 <= i < |ps| ==> ps[i].Ok? && PostsAt(ps[i].value, b, p)
    ensures PostsAt(All(ps).value, b, p)
  {
    if ps != [] {
      var init := ps[..|ps| - 1];
      forall i | 0 <= i < |init| ensures init[i].Ok? && PostsAt(init[i].value, b, p) { assert init[i] == ps[i]; }
      AllPostAt(init, b, p);
    }
  }

  lemma {:induction false} EventIsUnique(clock: string -> Option<int>, b: Block, p: Positioned, group: seq<Event>, before: nat)
    requires EventPosting(clock, b, p, group, before).Ok?
    ensures Unique(EventPosting(clock, b, p, group, before).value)
    ensures PostsAt(EventPosting(clock, b, p, group, before).value, b, p)
  {
    if IsBank(p.event.kind) {
      var coins := EventCoins(p.event).value;
      ParsedCoinsReparse(Lookup(p.event.attributes, "amount").value);
      var ps := CoinPostings(clock, b, p, group, before, coins);
      AllSucceeded(ps);
      forall i | 0 <= i < |ps| ensures Posts(ps[i].value, b, p, coins[i]) && Unique(ps[i].value) && PostsAt(ps[i].value, b, p) {
        CoinPosts(clock, b, p, group, before, coins[i]);
        PostsAtItsEvent(ps[i].value, b, p, coins[i]);
      }
      forall i, j | 0 <= i < j < |ps| ensures Apart(ps[i].value, ps[j].value) {
        CoinsApart(ps[i].value, ps[j].value, b, p, coins[i], coins[j]);
      }
      AllUnique(ps);
      AllPostAt(ps, b, p);
    }
  }

  lemma {:induction false} EventsApart(x: Posted, y: Posted, b: Block, p: Positioned, q: Positioned)
    requires PostsAt(x, b, p) && PostsAt(y, b, q)
    requires p.tx != q.tx || p.index != q.index
    ensures Apart(x, y)
  {
  }

  /** The ledger identities (time, chain, tx, msg, encoded event, denomination) and the
      defusion identities (tx, event, denomination) of one block are pairwise distinct,
      whatever coins its events carry. */
  lemma {:induction false} BlockIsUnique(clock: string -> Option<int>, b: Block, ordered: seq<Positioned>, finalize: seq<Event>, txs: seq<seq<Event>>)
    requires OrdersBlock(ordered, finalize, txs) && BlockPosting(clock, b, ordered).Ok?
    ensures Unique(BlockPosting(clock, b, ordered).value)
  {
    var ps := BlockPostings(clock, b, ordered);
    AllSucceeded(ps);
    forall i | 0 <= i < |ps| ensures Unique(ps[i].value) && PostsAt(ps[i].value, b, ordered[i]) {
      var scope := ScopeOf(ordered[i]);
      EventIsUnique(clock, b, ordered[i], Group(ordered, scope), |Group(ordered[..i], scope)|);
    }
    forall i, j | 0 <= i < j < |ps| ensures Apart(ps[i].value, ps[j].value) {
      var p, q := ordered[i], ordered[j];
      assert Precedes(p, q) && FromSource(p, finalize, txs) && FromSource(q, finalize, txs);
      EventsApart(ps[i].value, ps[j].value, b, p, q);
    }
    AllUnique(ps);
  }
}
