/** Which native evidence each kind of event invalidates (bank/native.go), read off the event's
    own attributes. */
module NativeMeanings {
  import opened Coins
  import opened Correlation
  import opened Decimal
  import opened EventOrder
  import opened Meanings
  import opened NativeChanges
  import opened Positions
  import opened Postings
  import opened StakingChanges

  predicate Given(ev: Event, key: string) {
    FindAttr(ev, key) != ""
  }

  /** What each kind must carry; a transfer's recipient may be empty, but not missing. */
  lemma {:induction false} FieldsMean(ev: Event)
    ensures ev.kind == "transfer" ==> (HasFields(ev) <==> Given(ev, "sender") && Lookup(ev.attributes, "recipient").Some?)
    ensures ev.kind == "coinbase" ==> (HasFields(ev) <==> Given(ev, "minter"))
    ensures ev.kind == "burn" ==> (HasFields(ev) <==> Given(ev, "burner"))
    ensures ev.kind == "delegate" || ev.kind == "cancel_unbond" || ev.kind == "complete_unbonding" ==>
              (HasFields(ev) <==> Given(ev, "validator") && Given(ev, "delegator"))
    ensures ev.kind == "unbond" ==> (HasFields(ev) <==> Given(ev, "validator") && Given(ev, "delegator") && Given(ev, "completion_time"))
    ensures ev.kind == "redelegate" ==>
              (HasFields(ev) <==> Given(ev, "source_validator") && Given(ev, "destination_validator") && Given(ev, "completion_time"))
    ensures ev.kind == "complete_redelegation" ==>
              (HasFields(ev) <==> Given(ev, "source_validator") && Given(ev, "destination_validator") && Given(ev, "delegator"))
    ensures ev.kind == "create_validator" ==> (HasFields(ev) <==> Given(ev, "validator"))
  {
    var fields := RequiredFields(ev.kind);
    assert HasFields(ev) <==>
             && (|fields| > 0 ==> HasField(ev, fields[0]))
             && (|fields| > 1 ==> HasField(ev, fields[1]))
             && (|fields| > 2 ==> HasField(ev, fields[2]));
  }

  /** A slash with readable burned coins and an address widens to everything exposed; a notice
      that only jails changes nothing; any other slash fails the block. */
  lemma {:induction false} SlashMeans(ev: Event, earlier: seq<Event>)
    requires ev.kind == "slash"
    ensures ChangeOf(ev, earlier).Ok? <==>
              || (IsNatural(FindAttr(ev, "burned_coins")) && Given(ev, "address"))
              || (Given(ev, "jailed") && !Given(ev, "burned_coins") && !Given(ev, "address"))
    ensures ChangeOf(ev, earlier).Ok? ==> ChangeOf(ev, earlier).value == Changes([], [], Given(ev, "address"))
  {
  }

  /** Delegations and unbondings concern the delegator and validator they name, if complete. */
  lemma {:induction false} DelegatorMeans(ev: Event, earlier: seq<Event>)
    requires ev.kind == "delegate" || ev.kind == "unbond" || ev.kind == "cancel_unbond" || ev.kind == "complete_unbonding"
    ensures ChangeOf(ev, earlier).Ok? <==>
              Given(ev, "delegator") && Given(ev, "validator") && (ev.kind == "unbond" ==> Given(ev, "completion_time"))
    ensures ChangeOf(ev, earlier).Ok? ==>
              ChangeOf(ev, earlier).value == Changes([FindAttr(ev, "delegator")], [FindAttr(ev, "validator")], false)
  {
    FieldsMean(ev);
  }

  /** A redelegation concerns both validators and the one account that withdrew rewards from the
      source since the redelegation before; its completion names the account. */
  lemma {:induction false} RedelegationMeans(ev: Event, earlier: seq<Event>)
    requires ev.kind == "redelegate" || ev.kind == "complete_redelegation"
    ensures var source, destination, change := FindAttr(ev, "source_validator"), FindAttr(ev, "destination_validator"), ChangeOf(ev, earlier);
            && (change.Ok? ==> |change.value.addresses| == 1 && change.value.validators == [source, destination] && !change.value.allExposed)
            && (ev.kind == "redelegate" ==>
                  && (change.Ok? <==> source != "" && destination != "" && Given(ev, "completion_time")
                                      && exists owner :: IsOwner(earlier, |earlier|, source, owner))
                  && (change.Ok? ==> IsOwner(earlier, |earlier|, source, change.value.addresses[0])))
            && (ev.kind == "complete_redelegation" ==>
                  && (change.Ok? <==> source != "" && destination != "" && Given(ev, "delegator"))
                  && (change.Ok? ==> change.value.addresses[0] == FindAttr(ev, "delegator")))
  {
    FieldsMean(ev);
  }

  /** A new validator concerns itself and the account that spent its one coin, in ualpha. */
  lemma {:induction false} FounderMeans(ev: Event, earlier: seq<Event>)
    requires ev.kind == "create_validator"
    ensures var change, coins := ChangeOf(ev, earlier), EventCoins(ev);
            && (change.Ok? <==> coins.Ok? && |coins.value| == 1 && coins.value[0].denom == "ualpha"
                                && exists spender :: IsSpender(earlier, coins.value[0], spender))
            && (change.Ok? ==> |change.value.addresses| == 1 && IsSpender(earlier, coins.value[0], change.value.addresses[0])
                               && change.value.validators == [FindAttr(ev, "validator")] && !change.value.allExposed)
  {
  }

  /** No other kind of event invalidates anything, whatever it carries. */
  lemma {:induction false} OthersMeanNothing(ev: Event, earlier: seq<Event>)
    requires ev.kind !in {"slash", "create_validator", "delegate", "unbond", "cancel_unbond", "complete_unbonding",
                          "redelegate", "complete_redelegation"}
    ensures ChangeOf(ev, earlier) == Ok(Changes([], [], false))
  {
  }

  lemma {:induction false} OneChangeFails(ordered: seq<Positioned>, i: nat)
    requires i < |ordered| && ChangeAt(ordered, i).Err?
    ensures BlockChanges(ordered).Err?
  {
    assert ChangesUpTo(ordered, i + 1).Err?;
    FailureStays(ordered, i + 1, |ordered|);
  }

  /** The change of the block fails iff that of one of its events fails, … */
  lemma {:induction false} BlockChangeFailsIff(ordered: seq<Positioned>)
    ensures BlockChanges(ordered).Err? <==> exists i :: 0 <= i < |ordered| && ChangeAt(ordered, i).Err?
  {
    if i :| 0 <= i < |ordered| && ChangeAt(ordered, i).Err? {
      OneChangeFails(ordered, i);
    } else {
      var parts := seq(|ordered|, i requires 0 <= i < |ordered| => ChangeAt(ordered, i).value);
      BlockIsJoined(ordered, parts, |parts|);
    }
  }

  /** … and otherwise holds exactly what its events hold. */
  lemma {:induction false} BlockChangeMeans(ordered: seq<Positioned>, parts: seq<Changes>)
    requires |parts| == |ordered| && forall i :: 0 <= i < |parts| ==> ChangeAt(ordered, i) == Ok(parts[i])
    ensures BlockChanges(ordered).Ok? && Holds(BlockChanges(ordered).value, parts)
  {
    BlockIsJoined(ordered, parts, |parts|);
    assert parts[..|parts|] == parts;
    JoinedHolds(parts);
  }

  ghost predicate Holds(all: Changes, parts: seq<Changes>) {
    && (forall a :: a in all.addresses <==> exists i :: 0 <= i < |parts| && a in parts[i].addresses)
    && (forall v :: v in all.validators <==> exists i :: 0 <= i < |parts| && v in parts[i].validators)
    && (all.allExposed <==> exists i :: 0 <= i < |parts| && parts[i].allExposed)
  }

  function Joined(parts: seq<Changes>): Changes {
    if parts == [] then NONE else Joined(parts[..|parts| - 1]).Then(parts[|parts| - 1])
  }

  lemma {:induction false} JoinedHolds(parts: seq<Changes>)
    ensures Holds(Joined(parts), parts)
  {
    if parts != [] {
      var init := parts[..|parts| - 1];
      JoinedHolds(init);
      assert forall i :: 0 <= i < |init| ==> init[i] == parts[i];
    }
  }

  lemma {:induction false} BlockIsJoined(ordered: seq<Positioned>, parts: seq<Changes>, n: nat)
    requires n <= |parts| == |ordered| && forall i :: 0 <= i < |parts| ==> ChangeAt(ordered, i) == Ok(parts[i])
    ensures ChangesUpTo(ordered, n) == Ok(Joined(parts[..n]))
  {
    if n > 0 {
      BlockIsJoined(ordered, parts, n - 1);
      assert parts[..n][..n - 1] == parts[..n - 1];
    }
  }

  // ----- when the ledger fails on an event -------------------------------------------------------

  lemma {:induction false} AllOk(ps: seq<Result<Posted>>)
    ensures All(ps).Ok? <==> forall i :: 0 <= i < |ps| ==> ps[i].Ok?
  {
    if ps != [] {
      var init := ps[..|ps| - 1];
      AllOk(init);
      assert forall i :: 0 <= i < |init| ==> init[i] == ps[i];
    }
  }

  /** An event fails to post iff its coins are unreadable, a field is missing or one of its coins
      fails; an event of another kind posts nothing. */
  lemma {:induction false} EventFailsIff(clock: string -> Option<int>, b: Block, p: Positioned, group: seq<Event>, before: nat)
    ensures IsBank(p.event.kind) ==>
              (EventPosting(clock, b, p, group, before).Err? <==>
                 || EventCoins(p.event).Err? || !HasFields(p.event)
                 || exists c :: c in EventCoins(p.event).value && CoinPosting(clock, b, p, group, before, c).Err?)
    ensures !IsBank(p.event.kind) ==> EventPosting(clock, b, p, group, before) == Ok(Posted([], []))
  {
    if IsBank(p.event.kind) && EventCoins(p.event).Ok? {
      var coins := EventCoins(p.event).value;
      var ps := CoinPostings(clock, b, p, group, before, coins);
      AllOk(ps);
      assert (exists c :: c in coins && CoinPosting(clock, b, p, group, before, c).Err?)
             <==> exists i :: 0 <= i < |ps| && ps[i].Err? by {
        forall i | 0 <= i < |ps| && ps[i].Err? ensures exists c :: c in coins && CoinPosting(clock, b, p, group, before, c).Err? {
          assert coins[i] in coins;
        }
      }
    }
  }

  /** Maturing entries carry the block and the coordinates of their event. */
  lemma {:induction false} EntriesCarryTheirEvent(clock: string -> Option<int>, b: Block, p: Positioned, group: seq<Event>, before: nat,
                                                  c: Coin, d: DefusionRow)
    requires IsBank(p.event.kind) && CoinPosting(clock, b, p, group, before, c).Ok?
    requires d in CoinPosting(clock, b, p, group, before, c).value.defusion
    ensures d.chain == b.chain && d.height == b.height && d.created == b.time && d.tx == p.tx && d.event == p.index
    ensures IsDigits(c.amount) ==> d.amount == DigitsValue(c.amount)
  {
  }
}
