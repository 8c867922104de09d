/** When the rows stored for a denomination's family are exactly its staking rows. A
    denomination may itself end in ".infused" or ".defusing"; then families overlap. */
module StakingLedger {
  import opened BankIdentities
  import opened Coins
  import opened Conservation
  import opened EventOrder
  import opened LedgerRows
  import opened Positions
  import opened Postings

  predicate IsStakingAction(action: string) {
    || action == "infused" || action == "diversion_started" || action == "diversion_completed"
    || action == "defusion_started" || action == "defusion_cancelled" || action == "defusion_completed"
  }

  predicate IsStored(r: LedgerRow, base: string) {
    IsStakingAction(r.action) && InFamily(r.denom, base)
  }

  /** What a reader of the ledger finds for `base`: staking rows of its three denominations. */
  function Stored(rows: seq<LedgerRow>, base: string): seq<LedgerRow> {
    if rows == [] then []
    else
      var last := rows[|rows| - 1];
      Stored(rows[..|rows| - 1], base) + if IsStored(last, base) then [last] else []
  }

  lemma {:induction false} StoredAdds(a: seq<LedgerRow>, b: seq<LedgerRow>, base: string)
    ensures Stored(a + b, base) == Stored(a, base) + Stored(b, base)
  {
    if b == [] {
      assert a + b == a;
    } else {
      assert (a + b)[..|a + b| - 1] == a + b[..|b| - 1];
      StoredAdds(a, b[..|b| - 1], base);
    }
  }

  lemma {:induction false} StoredEverything(rows: seq<LedgerRow>, base: string)
    requires forall n :: 0 <= n < |rows| ==> IsStored(rows[n], base)
    ensures Stored(rows, base) == rows
  {
    if rows != [] {
      StoredEverything(rows[..|rows| - 1], base);
      assert rows == rows[..|rows| - 1] + [rows[|rows| - 1]];
    }
  }

  lemma {:induction false} StoredNothing(rows: seq<LedgerRow>, base: string)
    ensures Stored(rows, base) == [] <==> forall n :: 0 <= n < |rows| ==> !IsStored(rows[n], base)
  {
    if rows != [] {
      var init := rows[..|rows| - 1];
      StoredNothing(init, base);
      assert forall n :: 0 <= n < |init| ==> init[n] == rows[n];
    }
  }

  // ----- parts of a block ---------------------------------------------------------------------

  function Ledgers(ps: seq<Result<Posted>>): (r: seq<seq<LedgerRow>>)
    ensures |r| == |ps| && forall i :: 0 <= i < |ps| && ps[i].Ok? ==> r[i] == ps[i].value.ledger
  {
    seq(|ps|, i requires 0 <= i < |ps| => if ps[i].Ok? then ps[i].value.ledger else [])
  }

  function StoredParts(parts: seq<seq<LedgerRow>>, base: string): (r: seq<seq<LedgerRow>>)
    ensures |r| == |parts| && forall i :: 0 <= i < |parts| ==> r[i] == Stored(parts[i], base)
  {
    seq(|parts|, i requires 0 <= i < |parts| => Stored(parts[i], base))
  }

  lemma {:induction false} AllLedgers(ps: seq<Result<Posted>>)
    requires All(ps).Ok?
    ensures All(ps).value.ledger == Flatten(Ledgers(ps))
  {
    if ps != [] {
      AllLedgers(ps[..|ps| - 1]);
      assert Ledgers(ps)[..|ps| - 1] == Ledgers(ps[..|ps| - 1]);
    }
  }

  lemma {:induction false} StoredFlatten(parts: seq<seq<LedgerRow>>, base: string)
    ensures Stored(Flatten(parts), base) == Flatten(StoredParts(parts, base))
  {
    if parts != [] {
      var init := parts[..|parts| - 1];
      StoredFlatten(init, base);
      assert StoredParts(parts, base)[..|parts| - 1] == StoredParts(init, base);
      StoredAdds(Flatten(init), parts[|parts| - 1], base);
    }
  }

  /** Part by part `a` is `b` or strictly longer, so the wholes agree iff all parts do. */
  lemma {:induction false} FlattenAgrees(a: seq<seq<LedgerRow>>, b: seq<seq<LedgerRow>>)
    requires |a| == |b|
    requires forall i :: 0 <= i < |a| ==> a[i] == b[i] || |a[i]| > |b[i]|
    ensures Flatten(a) == Flatten(b) || |Flatten(a)| > |Flatten(b)|
    ensures Flatten(a) == Flatten(b) <==> a == b
  {
    if a != [] {
      var n := |a| - 1;
      FlattenAgrees(a[..n], b[..n]);
      assert a == a[..n] + [a[n]] && b == b[..n] + [b[n]];
    }
  }

  // ----- the overlap ------------------------------------------------------------------------------

  function LegCount(kind: string): nat {
    if kind == "delegate" || kind == "create_validator" || kind == "complete_unbonding" then 3 else 4
  }

  /** A foreign coin of this staking event puts a row into the family of `base`. */
  predicate Clashes(kind: string, denom: string, base: string) {
    denom != base && exists n: nat :: n < LegCount(kind) && InFamily(denom + SuffixAt(kind, n), base)
  }

  /** The rows are staking legs of a coin of denomination `denom`. */
  ghost predicate LegsOf(rows: seq<LedgerRow>, kind: string, denom: string) {
    && |rows| == LegCount(kind)
    && forall n :: 0 <= n < |rows| ==> IsStakingAction(rows[n].action) && rows[n].denom == denom + SuffixAt(kind, n)
  }

  lemma {:induction false} LegsStored(rows: seq<LedgerRow>, kind: string, denom: string, base: string)
    requires LegsOf(rows, kind, denom)
    ensures rows != [] && (denom == base && IsStaking(kind) ==> Stored(rows, base) == rows)
    ensures denom != base ==> (Clashes(kind, denom, base) <==> Stored(rows, base) != [])
  {
    StoredNothing(rows, base);
    if denom == base && IsStaking(kind) {
      assert denom + "" == denom;
      StoredEverything(rows, base);
    }
  }

  lemma {:induction false} CoinStored(b: Block, p: Positioned, c: Coin, s: Stake, base: string)
    requires IsStaking(p.event.kind)
    ensures var rows := LegRows(b, p, c, StakingLegs(p.event.kind, s));
            && rows != []
            && (c.denom == base ==> Stored(rows, base) == rows)
            && (c.denom != base ==> (Clashes(p.event.kind, c.denom, base) <==> Stored(rows, base) != []))
  {
    var kind := p.event.kind;
    StakingSuffixes(kind, s);
    LegsStored(LegRows(b, p, c, StakingLegs(kind, s)), kind, c.denom, base);
  }

  predicate CoinsClash(ev: Event, base: string) {
    && IsStaking(ev.kind) && EventCoins(ev).Ok?
    && exists j :: 0 <= j < |EventCoins(ev).value| && Clashes(ev.kind, EventCoins(ev).value[j].denom, base)
  }

  lemma {:induction false} PlainStored(ev: Event, group: seq<Event>, before: nat, b: Block, p: Positioned, c: Coin, base: string)
    requires IsBank(ev.kind) && !IsStaking(ev.kind) && Legs(ev, group, before, c).Ok?
    ensures Stored(LegRows(b, p, c, Legs(ev, group, before, c).value), base) == []
  {
    StoredNothing(LegRows(b, p, c, Legs(ev, group, before, c).value), base);
  }

  lemma {:induction false} OtherCoinStored(clock: string -> Option<int>, b: Block, p: Positioned, group: seq<Event>, before: nat, c: Coin, base: string)
    requires IsBank(p.event.kind) && !IsStaking(p.event.kind) && CoinPosting(clock, b, p, group, before, c).Ok?
    ensures Stored(CoinPosting(clock, b, p, group, before, c).value.ledger, base) == []
  {
    PlainStored(Narrow(p.event, c), group, before, b, p, c, base);
  }

  lemma {:induction false} StakingCoinStored(clock: string -> Option<int>, b: Block, p: Positioned, group: seq<Event>, before: nat, c: Coin, base: string)
    requires IsStaking(p.event.kind) && CoinPosting(clock, b, p, group, before, c).Ok?
    ensures var stored, rows := Stored(CoinPosting(clock, b, p, group, before, c).value.ledger, base), CoinRows(clock, b, p, group, before, c, base);
            (stored == rows || |stored| > |rows|) && (stored == rows <==> !Clashes(p.event.kind, c.denom, base))
  {
    var s := PostedLegs(clock, b, p, group, before, c);
    CoinStored(b, p, c, s, base);
  }

  lemma {:induction false} StakingEventStored(clock: string -> Option<int>, b: Block, p: Positioned, group: seq<Event>, before: nat, coins: seq<Coin>, base: string)
    requires IsStaking(p.event.kind) && All(CoinPostings(clock, b, p, group, before, coins)).Ok?
    ensures var stored := Stored(All(CoinPostings(clock, b, p, group, before, coins)).value.ledger, base);
            var rows := Flatten(seq(|coins|, j requires 0 <= j < |coins| => CoinRows(clock, b, p, group, before, coins[j], base)));
            && (stored == rows || |stored| > |rows|)
            && (stored == rows <==> forall j :: 0 <= j < |coins| ==> !Clashes(p.event.kind, coins[j].denom, base))
  {
    var ps := CoinPostings(clock, b, p, group, before, coins);
    AllSucceeded(ps);
    AllLedgers(ps);
    StoredFlatten(Ledgers(ps), base);
    var stored := StoredParts(Ledgers(ps), base);
    var rows := seq(|coins|, j requires 0 <= j < |coins| => CoinRows(clock, b, p, group, before, coins[j], base));
    forall j | 0 <= j < |coins|
      ensures stored[j] == rows[j] || |stored[j]| > |rows[j]|
      ensures stored[j] == rows[j] <==> !Clashes(p.event.kind, coins[j].denom, base) {
      StakingCoinStored(clock, b, p, group, before, coins[j], base);
    }
    FlattenAgrees(stored, rows);
  }

  lemma {:induction false} OtherEventStored(clock: string -> Option<int>, b: Block, p: Positioned, group: seq<Event>, before: nat, coins: seq<Coin>, base: string)
    requires IsBank(p.event.kind) && !IsStaking(p.event.kind) && All(CoinPostings(clock, b, p, group, before, coins)).Ok?
    ensures Stored(All(CoinPostings(clock, b, p, group, before, coins)).value.ledger, base) == []
  {
    var ps := CoinPostings(clock, b, p, group, before, coins);
    AllSucceeded(ps);
    AllLedgers(ps);
    StoredFlatten(Ledgers(ps), base);
    forall j | 0 <= j < |coins| ensures StoredParts(Ledgers(ps), base)[j] == [] {
      OtherCoinStored(clock, b, p, group, before, coins[j], base);
    }
    assert StoredParts(Ledgers(ps), base) == seq(|coins|, j => []);
    FlattenNone(|coins|);
  }

  lemma {:induction false} EventStored(clock: string -> Option<int>, b: Block, ordered: seq<Positioned>, i: nat, base: string)
    requires i < |ordered| && PostingAt(clock, b, ordered, i).Ok?
    ensures var stored, rows := Stored(PostingAt(clock, b, ordered, i).value.ledger, base), EventRows(clock, b, ordered, i, base);
            (stored == rows || |stored| > |rows|) && (stored == rows <==> !CoinsClash(ordered[i].event, base))
  {
    var p, scope := ordered[i], ScopeOf(ordered[i]);
    if IsBank(p.event.kind) {
      var coins := EventCoins(p.event).value;
      if IsStaking(p.event.kind) {
        StakingEventStored(clock, b, p, Group(ordered, scope), |Group(ordered[..i], scope)|, coins, base);
      } else {
        OtherEventStored(clock, b, p, Group(ordered, scope), |Group(ordered[..i], scope)|, coins, base);
      }
    }
  }

  lemma {:induction false} FlattenNone(n: nat)
    ensures Flatten(seq(n, j => [])) == []
  {
    if n > 0 {
      FlattenNone(n - 1);
      var none: seq<seq<LedgerRow>> := seq(n, j => []);
      assert none[..n - 1] == seq(n - 1, j => []);
    }
  }

  /** The staking rows stored under the family of `base` are the rows of its own coin,
      and so obey both conservation laws, iff no staking event carries a foreign coin
      whose denomination or suffixed denomination falls into that family. */
  lemma {:induction false} FamilyIsItsOwn(clock: string -> Option<int>, b: Block, ordered: seq<Positioned>, base: string)
    requires BlockPosting(clock, b, ordered).Ok?
    ensures Stored(BlockPosting(clock, b, ordered).value.ledger, base) == StakingRows(clock, b, ordered, base)
      <==> forall i :: 0 <= i < |ordered| ==> !CoinsClash(ordered[i].event, base)
  {
    var ps := BlockPostings(clock, b, ordered);
    AllSucceeded(ps);
    AllLedgers(ps);
    StoredFlatten(Ledgers(ps), base);
    var stored := StoredParts(Ledgers(ps), base);
    var rows := seq(|ordered|, i requires 0 <= i < |ordered| => EventRows(clock, b, ordered, i, base));
    forall i | 0 <= i < |ordered|
      ensures stored[i] == rows[i] || |stored[i]| > |rows[i]|
      ensures stored[i] == rows[i] <==> !CoinsClash(ordered[i].event, base) {
      EventStored(clock, b, ordered, i, base);
    }
    FlattenAgrees(stored, rows);
  }

  /** The clash is real: delegating 5 "abc.infused" leaves the two sides of the
      "abc.infused" rows unequal. */
  lemma {:induction false} NestedDenominationUnbalances(b: Block, p: Positioned)
    requires p.event.kind == "delegate"
    ensures var rows := LegRows(b, p, Coin("5", "abc.infused"), StakingLegs("delegate", Stake("d", "v", "v")));
            !Balanced(Stored(rows, "abc"), "abc", iset{"v"})
    ensures IsNormal(Coin("5", "abc.infused"))
  {
    var c := Coin("5", "abc.infused");
    assert c.amount[..0] == "";
    var rows := LegRows(b, p, c, Pledged(Stake("d", "v", "v")));
    assert c.denom + "" == c.denom;
    StoredEverything([rows[0]], "abc");
    assert |rows[1].denom| == |rows[2].denom| == 19;
    StoredNothing(rows[1..], "abc");
    assert rows == [rows[0]] + rows[1..];
    StoredAdds([rows[0]], rows[1..], "abc");
    assert Stored(rows, "abc") == [rows[0]];
    OneRow(rows[0], iset{"v"}, "abc" + INFUSED, "");
  }

  /** Without a clash the books read by denomination balance like the postings themselves. */
  lemma {:induction false} StoredBalances(clock: string -> Option<int>, b: Block, ordered: seq<Positioned>, base: string,
                                          side: iset<string>, account: string)
    requires BlockPosting(clock, b, ordered).Ok?
    requires forall i :: 0 <= i < |ordered| ==> !CoinsClash(ordered[i].event, base)
    ensures var stored := Stored(BlockPosting(clock, b, ordered).value.ledger, base);
            && Balanced(stored, base, side)
            && ((forall i :: 0 <= i < |ordered| && IsStaking(ordered[i].event.kind) ==> Bystander(ordered[i].event, account))
                  ==> Total(stored, account) == 0)
  {
    FamilyIsItsOwn(clock, b, ordered, base);
    StakingBalances(clock, b, ordered, base, side, account);
  }

  // ----- a whole block with a clash ---------------------------------------------------------------

  const NESTED := Coin("5", "abc.infused")

  /** A delegation event as the chain emits it. */
  function DelegationOf(amount: string, validator: string, delegator: string): Event {
    Event("delegate", [Attribute("amount", amount), Attribute("validator", validator), Attribute("delegator", delegator)], NoReceipt)
  }

  /** Someone delegates five coins of a nested denomination. */
  function NestedDelegation(): Positioned {
    Positioned(DelegationOf(NESTED.amount + NESTED.denom, "v", "d"), TRANSACTION, 0, 0, 0)
  }

  lemma {:induction false} ThreeLookups(attributes: seq<Attribute>)
    requires |attributes| == 3 && DistinctKeys(attributes)
    ensures forall i :: 0 <= i < 3 ==> Lookup(attributes, attributes[i].key) == Some(attributes[i].value)
  {
    assert attributes[1..][1..] == [attributes[2]];
    assert Lookup(attributes[1..], attributes[2].key) == Lookup([attributes[2]], attributes[2].key);
  }

  lemma {:induction false} DelegationLookups(amount: string, validator: string, delegator: string)
    ensures var ev := DelegationOf(amount, validator, delegator);
            && DistinctKeys(ev.attributes) && Lookup(ev.attributes, "amount") == Some(amount)
            && Lookup(ev.attributes, "validator") == Some(validator) && Lookup(ev.attributes, "delegator") == Some(delegator)
            && WithAmount(ev.attributes, amount) == ev.attributes
  {
    var attributes := DelegationOf(amount, validator, delegator).attributes;
    ThreeLookups(attributes);
    assert attributes[0].key == "amount" && attributes[1].key == "validator" && attributes[2].key == "delegator";
    assert WithAmount(attributes[1..], amount) == attributes[1..] by {
      assert WithAmount(attributes[1..][1..], amount) == attributes[1..][1..];
    }
  }

  lemma {:induction false} DelegationReads(c: Coin, validator: string, delegator: string)
    requires IsNormal(c) && validator != "" && delegator != ""
    ensures var ev := DelegationOf(c.amount + c.denom, validator, delegator);
            && EventCoins(ev) == Ok([c]) && Narrow(ev, c) == ev && HasFields(ev)
            && FindAttr(ev, "validator") == validator && FindAttr(ev, "delegator") == delegator
  {
    var ev := DelegationOf(c.amount + c.denom, validator, delegator);
    DelegationLookups(c.amount + c.denom, validator, delegator);
    PrintedCoinParses(c);
    DelegationHasFields(ev);
  }

  lemma {:induction false} DelegationHasFields(ev: Event)
    requires ev.kind == "delegate" && HasField(ev, "validator") && HasField(ev, "delegator")
    ensures HasFields(ev)
  {
    assert RequiredFields("delegate") == ["validator", "delegator"];
    forall i | 0 <= i < |RequiredFields(ev.kind)| ensures HasField(ev, RequiredFields(ev.kind)[i]) {
      assert RequiredFields(ev.kind)[i] == "validator" || RequiredFields(ev.kind)[i] == "delegator";
    }
  }

  /** The engine accepts that block, and what a reader finds for "abc" does not balance. */
  lemma {:induction false} NestedBlockUnbalances(clock: string -> Option<int>, b: Block)
    ensures var posting := BlockPosting(clock, b, [NestedDelegation()]);
            posting.Ok? && !Balanced(Stored(posting.value.ledger, "abc"), "abc", iset{"v"})
  {
    var p := NestedDelegation();
    var ordered := [p];
    var group, before := Group(ordered, ScopeOf(p)), |Group(ordered[..0], ScopeOf(p))|;
    NestedDenominationUnbalances(b, p);
    DelegationReads(NESTED, "v", "d");
    var rows := LegRows(b, p, NESTED, StakingLegs("delegate", Stake("d", "v", "v")));
    assert CoinPosting(clock, b, p, group, before, NESTED) == Ok(Posted(rows, []));
    OnePosting(CoinPostings(clock, b, p, group, before, [NESTED]), Posted(rows, []));
    OnePosting(BlockPostings(clock, b, ordered), Posted(rows, []));
  }

  lemma {:induction false} OnePosting(ps: seq<Result<Posted>>, x: Posted)
    requires |ps| == 1 && ps[0] == Ok(x)
    ensures All(ps) == Ok(x)
  {
    assert ps[..0] == [] && [] + x.ledger == x.ledger && [] + x.defusion == x.defusion;
  }
}
