/** The block ledger engine (bank/process.go) over the append-only row buffer
    (buffers/buffer.go). */
module Bank {
  import opened Coins
  import opened Correlation
  import opened EventOrder
  import opened LedgerRows
  import opened Positions
  import opened Postings

  datatype Lengths = Lengths(ledger: nat, defusion: nat)

  /** bank/coins.go: every field the event's kind needs. */
  method ValidateBankFields(ev: Event) returns (ok: bool)
    ensures ok <==> HasFields(ev)
  {
    var fields := RequiredFields(ev.kind);
    for i := 0 to |fields|
      invariant forall j :: 0 <= j < i ==> HasField(ev, fields[j])
    {
      var value := Lookup(ev.attributes, fields[i]);
      if value.None? || (value.value == "" && fields[i] != "recipient") { return false; }
    }
    ok := true;
  }

  class Buffer {
    var ledger: seq<LedgerRow>
    var defusion: seq<DefusionRow>

    constructor ()
      ensures View() == Posted([], [])
    {
      ledger, defusion := [], [];
    }

    function View(): Posted
      reads this
    {
      Posted(ledger, defusion)
    }

    /** All rows of `before` are still there, in front. */
    ghost predicate Extends(before: Posted)
      reads this
    {
      before.ledger <= ledger && before.defusion <= defusion
    }

    method Snapshot() returns (mark: Lengths)
      ensures mark == Lengths(|ledger|, |defusion|)
    {
      mark := Lengths(|ledger|, |defusion|);
    }

    /** Undoes whatever was appended since the snapshot that took the mark. */
    method Restore(mark: Lengths)
      requires mark.ledger <= |ledger| && mark.defusion <= |defusion|
      modifies this
      ensures forall before: Posted :: old(Extends(before)) && mark == Lengths(|before.ledger|, |before.defusion|)
                ==> View() == before
    {
      ledger, defusion := ledger[..mark.ledger], defusion[..mark.defusion];
    }

    method PushLedger(b: Block, p: Positioned, c: Coin, n: nat, leg: Leg)
      modifies this`ledger
      ensures ledger == old(ledger) + [LegRow(b, p, c, leg, n)]
    {
      ledger := ledger + [LedgerRow(leg.address, leg.counterparty, AmountOf(c), b.height, b.time, leg.action,
                                    leg.direction, c.denom + leg.suffix, b.chain, p.tx, -1, EncodeEventIndex(p.index, n))];
    }

    method PushDefusion(clock: string -> Option<int>, b: Block, p: Positioned, c: Coin, source: string,
                        stake: Stake, kind: string, completion: string) returns (ok: bool)
      modifies this`defusion
      ensures ok <==> clock(completion).Some?
      ensures !ok ==> defusion == old(defusion)
      ensures ok ==> defusion == old(defusion)
                     + [DefusionRow(b.chain, b.height, p.tx, p.index, source, stake.to, stake.delegator, kind,
                                    AmountOf(c), c.denom, clock(completion).value, b.time)]
    {
      var completed := clock(completion);
      if completed.None? { return false; }
      defusion := defusion + [DefusionRow(b.chain, b.height, p.tx, p.index, source, stake.to, stake.delegator, kind,
                                          AmountOf(c), c.denom, completed.value, b.time)];
      ok := true;
    }

    method HandleTransfer(b: Block, p: Positioned, c: Coin, ev: Event, group: seq<Event>) returns (ok: bool)
      requires FindAmount(ev) == Some(c)
      modifies this`ledger
      ensures ok <==> TransferLegs(ev, group).Ok?
      ensures ledger == old(ledger) + if ok then LegRows(b, p, c, TransferLegs(ev, group).value) else []
    {
      var recipient, sender := FindAttr(ev, "recipient"), FindAttr(ev, "sender");
      var sent := Leg(sender, recipient, "sent", Debit, "");
      var received := Leg(recipient, sender, "received", Credit, "");
      var skip := TransferOverlap(ev, group);
      if skip.Err? { return false; }
      ok := true;
      if skip.value.sent {
        PushLedger(b, p, c, 0, received);
        assert TransferLegs(ev, group) == Ok([received]);
      } else if skip.value.received {
        PushLedger(b, p, c, 0, sent);
        assert TransferLegs(ev, group) == Ok([sent]);
      } else {
        PushPair(b, p, c, sent, received);
        assert TransferLegs(ev, group) == Ok([sent, received]);
      }
    }

    method PushPair(b: Block, p: Positioned, c: Coin, first: Leg, second: Leg)
      modifies this`ledger
      ensures ledger == old(ledger) + LegRows(b, p, c, [first, second])
    {
      PushLedger(b, p, c, 0, first);
      PushLedger(b, p, c, 1, second);
    }

    /** The rows by which stake moves between two families of a denomination. */
    method PushMove(b: Block, p: Positioned, c: Coin, action: string, s: Stake, out: string, into: string)
      modifies this`ledger
      ensures ledger == old(ledger) + LegRows(b, p, c, Moved(action, s, out, into))
    {
      PushLedger(b, p, c, 0, Leg(s.from, s.delegator, action, Debit, out));
      PushLedger(b, p, c, 1, Leg(s.delegator, s.from, action, Debit, out));
      PushLedger(b, p, c, 2, Leg(s.to, s.delegator, action, Credit, into));
      PushLedger(b, p, c, 3, Leg(s.delegator, s.to, action, Credit, into));
    }

    method HandleDelegate(b: Block, p: Positioned, c: Coin, ev: Event)
      modifies this`ledger
      ensures var v, d := FindAttr(ev, "validator"), FindAttr(ev, "delegator");
              ledger == old(ledger) + LegRows(b, p, c, Pledged(Stake(d, v, v)))
    {
      var validator, delegator := FindAttr(ev, "validator"), FindAttr(ev, "delegator");
      PushLedger(b, p, c, 0, Leg(delegator, validator, "infused", Debit, ""));
      PushLedger(b, p, c, 1, Leg(delegator, validator, "infused", Credit, INFUSED));
      PushLedger(b, p, c, 2, Leg(validator, delegator, "infused", Credit, INFUSED));
    }

    method HandleCompleteUnbonding(b: Block, p: Positioned, c: Coin, ev: Event)
      modifies this`ledger
      ensures var v, d := FindAttr(ev, "validator"), FindAttr(ev, "delegator");
              ledger == old(ledger) + LegRows(b, p, c, Returned(Stake(d, v, v)))
    {
      var validator, delegator := FindAttr(ev, "validator"), FindAttr(ev, "delegator");
      PushLedger(b, p, c, 0, Leg(validator, delegator, "defusion_completed", Debit, DEFUSING));
      PushLedger(b, p, c, 1, Leg(delegator, validator, "defusion_completed", Debit, DEFUSING));
      PushLedger(b, p, c, 2, Leg(delegator, validator, "defusion_completed", Credit, ""));
    }

    method HandleCreateValidator(b: Block, p: Positioned, c: Coin, ev: Event, group: seq<Event>) returns (ok: bool)
      modifies this`ledger
      ensures ok <==> Spender(group, c).Ok?
      ensures var v := FindAttr(ev, "validator");
              ledger == old(ledger) + if !ok then []
                else LegRows(b, p, c, Founded(Stake(Spender(group, c).value, v, v)))
    {
      var validator := FindAttr(ev, "validator");
      var spender := ValidatorSpender(group, c);
      if spender.Err? { return false; }
      PushLedger(b, p, c, 0, Leg(spender.value, validator, "infused", Debit, ""));
      PushLedger(b, p, c, 1, Leg(validator, spender.value, "infused", Credit, INFUSED));
      PushLedger(b, p, c, 2, Leg(spender.value, validator, "infused", Credit, INFUSED));
      ok := true;
    }

    /** A redelegation, or an unbonding: the four legs, then the maturing entry. */
    method HandleRedelegate(clock: string -> Option<int>, b: Block, p: Positioned, c: Coin, ev: Event, group: seq<Event>, before: nat)
      returns (ok: bool)
      requires p.event.kind == ev.kind == "redelegate"
      requires HasField(ev, "completion_time") && FindAttr(ev, "completion_time") == FindAttr(p.event, "completion_time")
      requires FindAmount(ev) == Some(c) && ev == Narrow(p.event, c)
      modifies this
      ensures Extends(old(View()))
      ensures ok <==> CoinPosting(clock, b, p, group, before, c).Ok?
      ensures ok ==> View() == old(View()).Then(CoinPosting(clock, b, p, group, before, c).value)
    {
      var source, destination := FindAttr(ev, "source_validator"), FindAttr(ev, "destination_validator");
      var owner := RedelegationOwner(group, before, source);
      if owner.Err? { return false; }
      var completion := FindAttr(ev, "completion_time");
      var stake := Stake(owner.value, source, destination);
      PushMove(b, p, c, "diversion_started", stake, INFUSED, DEFUSING);
      ok := true;
      if completion != "" { ok := PushDefusion(clock, b, p, c, source, stake, "r", completion); }
    }

    method HandleUnbond(clock: string -> Option<int>, b: Block, p: Positioned, c: Coin, ev: Event, group: seq<Event>, before: nat)
      returns (ok: bool)
      requires p.event.kind == ev.kind == "unbond"
      requires HasField(ev, "completion_time") && FindAttr(ev, "completion_time") == FindAttr(p.event, "completion_time")
      requires FindAmount(ev) == Some(c) && ev == Narrow(p.event, c)
      modifies this
      ensures Extends(old(View()))
      ensures ok <==> CoinPosting(clock, b, p, group, before, c).Ok?
      ensures ok ==> View() == old(View()).Then(CoinPosting(clock, b, p, group, before, c).value)
    {
      var validator, delegator := FindAttr(ev, "validator"), FindAttr(ev, "delegator");
      var completion := FindAttr(ev, "completion_time");
      var stake := Stake(delegator, validator, validator);
      PushMove(b, p, c, "defusion_started", stake, INFUSED, DEFUSING);
      ok := true;
      if completion != "" { ok := PushDefusion(clock, b, p, c, "", stake, "u", completion); }
    }

    /** The staking operations that leave no maturing entry. */
    method ProcessSettled(b: Block, p: Positioned, c: Coin, ev: Event, group: seq<Event>, before: nat) returns (ok: bool)
      requires IsStaking(ev.kind) && !Matures(ev.kind)
      modifies this`ledger
      ensures ok <==> StakeOf(ev, group, before, c).Ok?
      ensures ledger == old(ledger) + if !ok then []
                else LegRows(b, p, c, StakingLegs(ev.kind, StakeOf(ev, group, before, c).value))
    {
      ok := true;
      if ev.kind == "delegate" {
        HandleDelegate(b, p, c, ev);
      } else if ev.kind == "complete_redelegation" {
        var destination := FindAttr(ev, "destination_validator");
        PushMove(b, p, c, "diversion_completed", Stake(FindAttr(ev, "delegator"), destination, destination), DEFUSING, INFUSED);
      } else if ev.kind == "cancel_unbond" {
        var validator := FindAttr(ev, "validator");
        PushMove(b, p, c, "defusion_cancelled", Stake(FindAttr(ev, "delegator"), validator, validator), DEFUSING, INFUSED);
      } else if ev.kind == "complete_unbonding" {
        HandleCompleteUnbonding(b, p, c, ev);
      } else {
        ok := HandleCreateValidator(b, p, c, ev, group);
      }
    }

    /** Every event kind but the two that leave a maturing entry. */
    method ProcessLegs(b: Block, p: Positioned, c: Coin, ev: Event, group: seq<Event>, before: nat) returns (ok: bool)
      requires IsBank(ev.kind) && !Matures(ev.kind) && FindAmount(ev) == Some(c)
      modifies this`ledger
      ensures ok <==> Legs(ev, group, before, c).Ok?
      ensures ledger == old(ledger) + if ok then LegRows(b, p, c, Legs(ev, group, before, c).value) else []
    {
      ok := true;
      if ev.kind == "transfer" {
        ok := HandleTransfer(b, p, c, ev, group);
      } else if ev.kind == "coinbase" {
        PushLedger(b, p, c, 0, Leg(FindAttr(ev, "minter"), "", "minted", Credit, ""));
      } else if ev.kind == "burn" {
        PushLedger(b, p, c, 0, Leg(FindAttr(ev, "burner"), "", "burned", Debit, ""));
      } else {
        ok := ProcessSettled(b, p, c, ev, group, before);
      }
    }

    /** One coin of one event. */
    method ProcessCoin(clock: string -> Option<int>, b: Block, p: Positioned, group: seq<Event>, before: nat, c: Coin)
      returns (ok: bool)
      requires IsBank(p.event.kind) && HasFields(p.event)
      requires EventCoins(p.event).Ok? && c in EventCoins(p.event).value
      modifies this
      ensures Extends(old(View()))
      ensures ok <==> CoinPosting(clock, b, p, group, before, c).Ok?
      ensures ok ==> View() == old(View()).Then(CoinPosting(clock, b, p, group, before, c).value)
    {
      NarrowedAmountIsFound(p.event, c);
      var ev := Narrow(p.event, c);
      if Matures(ev.kind) {
        CompletionIsPresent(p.event, c);
        if ev.kind == "redelegate" {
          ok := HandleRedelegate(clock, b, p, c, ev, group, before);
        } else {
          ok := HandleUnbond(clock, b, p, c, ev, group, before);
        }
      } else {
        ok := ProcessLegs(b, p, c, ev, group, before);
      }
    }

    method ProcessEvent(clock: string -> Option<int>, b: Block, p: Positioned, group: seq<Event>, before: nat) returns (ok: bool)
      requires IsBank(p.event.kind)
      modifies this
      ensures Extends(old(View()))
      ensures ok <==> EventPosting(clock, b, p, group, before).Ok?
      ensures ok ==> View() == old(View()).Then(EventPosting(clock, b, p, group, before).value)
    {
      var coins := ReadEventCoins(p.event);
      if coins.Err? { return false; }
      var valid := ValidateBankFields(p.event);
      if !valid { return false; }
      ghost var start := View();
      ghost var ps := CoinPostings(clock, b, p, group, before, coins.value);
      for i := 0 to |coins.value|
        invariant Reached(start, ps, i, View())
      {
        ghost var now := View();
        ok := ProcessCoin(clock, b, p, group, before, coins.value[i]);
        if !ok {
          OneFails(ps, i);
          return;
        }
        ReachNext(start, ps, i, now, View());
      }
      AllReached(start, ps, View());
      ok := true;
    }

    /** The walk over one block's events in execution order. */
    method ProcessOrdered(clock: string -> Option<int>, b: Block, ordered: seq<Positioned>) returns (ok: bool)
      modifies this
      ensures Extends(old(View()))
      ensures ok <==> BlockPosting(clock, b, ordered).Ok?
      ensures ok ==> View() == old(View()).Then(BlockPosting(clock, b, ordered).value)
    {
      var groups, indices := CollectGroups(ordered);
      ghost var start := View();
      ghost var ps := BlockPostings(clock, b, ordered);
      for i := 0 to |ordered|
        invariant Reached(start, ps, i, View())
      {
        ghost var now := View();
        var p := ordered[i];
        if !IsBank(p.event.kind) {
          NothingPosted(clock, b, ordered, i);
          ReachNext(start, ps, i, now, View());
          continue;
        }
        ok := ProcessEvent(clock, b, p, groups[ScopeOf(p)], indices[i]);
        if !ok {
          OneFails(ps, i);
          return;
        }
        ReachNext(start, ps, i, now, View());
      }
      AllReached(start, ps, View());
      ok := true;
    }

    /** Walks the whole block. A failure leaves rows of the earlier events behind. */
    method ProcessBlock(clock: string -> Option<int>, b: Block, finalize: seq<Event>, txs: seq<seq<Event>>) returns (ok: bool)
      modifies this
      ensures Extends(old(View()))
      ensures !AllWellFormed(finalize, txs) ==> !ok
      ensures forall ordered :: OrdersBlock(ordered, finalize, txs) && AllWellFormed(finalize, txs) ==>
                var posting := BlockPosting(clock, b, ordered);
                (ok <==> posting.Ok?) && (ok ==> View() == old(View()).Then(posting.value))
    {
      var read := OrderedEvents(finalize, txs);
      if read.Err? { return false; }
      var ordered := read.value;
      forall other | OrdersBlock(other, finalize, txs) ensures other == ordered {
        OrderIsUnique(other, ordered, finalize, txs);
      }
      ok := ProcessOrdered(clock, b, ordered);
    }

    /** The caller's guard (sync/block.go): a failed block appends nothing at all. */
    method ApplyBank(clock: string -> Option<int>, b: Block, finalize: seq<Event>, txs: seq<seq<Event>>) returns (ok: bool)
      modifies this
      ensures !ok ==> View() == old(View())
      ensures !AllWellFormed(finalize, txs) ==> !ok
      ensures forall ordered :: OrdersBlock(ordered, finalize, txs) && AllWellFormed(finalize, txs) ==>
                var posting := BlockPosting(clock, b, ordered);
                (ok <==> posting.Ok?) && (ok ==> View() == old(View()).Then(posting.value))
    {
      var mark := Snapshot();
      ok := ProcessBlock(clock, b, finalize, txs);
      if !ok { Restore(mark); }
    }
  }

  lemma {:induction false} NothingPosted(clock: string -> Option<int>, b: Block, ordered: seq<Positioned>, i: nat)
    requires i < |ordered| && !IsBank(ordered[i].event.kind)
    ensures PostingAt(clock, b, ordered, i) == Ok(Posted([], []))
    ensures forall now: Posted :: now.Then(Posted([], [])) == now
  {
  }

  function GroupIn(groups: map<Scope, seq<Event>>, scope: Scope): seq<Event> {
    if scope in groups then groups[scope] else []
  }

  ghost predicate Collected(groups: map<Scope, seq<Event>>, read: seq<Positioned>) {
    && (forall scope :: GroupIn(groups, scope) == Group(read, scope))
    && (forall p :: p in read ==> ScopeOf(p) in groups)
  }

  lemma {:induction false} CollectOneMore(groups: map<Scope, seq<Event>>, read: seq<Positioned>, p: Positioned)
    requires Collected(groups, read)
    ensures Collected(groups[ScopeOf(p) := GroupIn(groups, ScopeOf(p)) + [p.event]], read + [p])
  {
    var longer, now := read + [p], groups[ScopeOf(p) := GroupIn(groups, ScopeOf(p)) + [p.event]];
    assert longer[..|longer| - 1] == read && longer[|longer| - 1] == p;
    forall scope ensures GroupIn(now, scope) == Group(longer, scope) {
      assert Group(longer, scope) == if ScopeOf(p) == scope then Group(read, scope) + [p.event] else Group(read, scope);
    }
  }

  /** For each event, how many of its scope precede it. */
  function Preceding(ordered: seq<Positioned>, i: nat): nat
    requires i < |ordered|
  {
    |Group(ordered[..i], ScopeOf(ordered[i]))|
  }

  method CollectGroups(ordered: seq<Positioned>) returns (groups: map<Scope, seq<Event>>, indices: seq<nat>)
    ensures |indices| == |ordered| && Collected(groups, ordered)
    ensures forall i :: 0 <= i < |ordered| ==> indices[i] == Preceding(ordered, i)
  {
    groups, indices := map[], [];
    for i := 0 to |ordered|
      invariant |indices| == i && Collected(groups, ordered[..i])
      invariant forall j :: 0 <= j < i ==> indices[j] == Preceding(ordered, j)
    {
      assert ordered[..i + 1] == ordered[..i] + [ordered[i]];
      var p := ordered[i];
      CollectOneMore(groups, ordered[..i], p);
      var group := GroupIn(groups, ScopeOf(p));
      indices := indices + [|group|];
      groups := groups[ScopeOf(p) := group + [p.event]];
    }
    assert ordered[..|ordered|] == ordered;
  }

  lemma {:induction false} CompletionIsPresent(ev: Event, c: Coin)
    requires HasFields(ev) && Matures(ev.kind)
    ensures HasField(Narrow(ev, c), "completion_time")
    ensures FindAttr(Narrow(ev, c), "completion_time") == FindAttr(ev, "completion_time")
  {
    assert HasField(ev, RequiredFields(ev.kind)[2]);
    NarrowLookup(ev.attributes, c.amount + c.denom, "completion_time");
  }
}
