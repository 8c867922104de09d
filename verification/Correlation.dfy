/** Cross-event correlation inside one scope of execution phase, transaction and
    message (bank/correlation.go). */
module Correlation {
  import opened Coins
  import opened Decimal
  import opened EventOrder
  import opened Positions

  const MICRO := 1000000

  predicate HoldsCoin(ev: Event, c: Coin) {
    EventCoins(ev).Ok? && c in EventCoins(ev).value
  }

  // ----- who paid for a new validator ------------------------------------------------

  predicate Spent(ev: Event, c: Coin) {
    ev.kind == "coin_spent" && HoldsCoin(ev, c)
  }

  /** `s` is the one account that spent the coin, and every spending is readable. */
  ghost predicate IsSpender(group: seq<Event>, c: Coin, s: string) {
    && s != ""
    && (forall k :: 0 <= k < |group| && group[k].kind == "coin_spent" ==> EventCoins(group[k]).Ok?)
    && (forall k :: 0 <= k < |group| && Spent(group[k], c) ==> FindAttr(group[k], "spender") == s)
    && (exists k :: 0 <= k < |group| && Spent(group[k], c))
  }

  ghost function Spender(group: seq<Event>, c: Coin): (r: Result<string>)
    ensures r.Ok? ==> IsSpender(group, c, r.value)
    ensures r.Err? ==> forall s :: !IsSpender(group, c, s)
  {
    if exists s :: IsSpender(group, c, s) then var s :| IsSpender(group, c, s); Ok(s) else Err
  }

  method ValidatorSpender(group: seq<Event>, c: Coin) returns (r: Result<string>)
    ensures r == Spender(group, c)
  {
    var spender := "";
    for i := 0 to |group|
      invariant forall k :: 0 <= k < i && group[k].kind == "coin_spent" ==> EventCoins(group[k]).Ok?
      invariant forall k :: 0 <= k < i && Spent(group[k], c) ==> FindAttr(group[k], "spender") == spender != ""
      invariant spender != "" ==> exists k :: 0 <= k < i && Spent(group[k], c)
    {
      var ev := group[i];
      if ev.kind != "coin_spent" { continue; }
      var found := ContainsCoin(ev, c);
      if found.Err? { return Err; }
      if !found.value { continue; }
      assert Spent(group[i], c);
      var candidate := FindAttr(ev, "spender");
      if candidate == "" || (spender != "" && spender != candidate) { return Err; }
      spender := candidate;
    }
    if spender == "" { return Err; }
    r := Ok(spender);
    assert IsSpender(group, c, spender);
  }

  /** Reading only the events before the validator's own never changes the answer:
      when both readings succeed they name the same account. */
  lemma {:induction false} SpenderOfPrefix(group: seq<Event>, n: nat, c: Coin)
    requires n <= |group|
    requires Spender(group, c).Ok? && Spender(group[..n], c).Ok?
    ensures Spender(group, c) == Spender(group[..n], c)
  {
    var k :| 0 <= k < n && Spent(group[..n][k], c);
    assert group[..n][k] == group[k];
  }

  // ----- whose stake a redelegation moves ----------------------------------------------

  /** Event `k` lies after the last redelegation that precedes `before`. */
  ghost predicate InWindow(group: seq<Event>, before: nat, k: int)
    requires before <= |group|
  {
    0 <= k < before && forall j :: k <= j < before ==> group[j].kind != "redelegate"
  }

  predicate Withdrew(ev: Event, validator: string) {
    ev.kind == "withdraw_rewards" && FindAttr(ev, "validator") == validator
  }

  /** `s` alone withdrew rewards from the source validator in that window. */
  ghost predicate IsOwner(group: seq<Event>, before: nat, validator: string, s: string) {
    && before <= |group| && s != ""
    && (forall k :: InWindow(group, before, k) && Withdrew(group[k], validator) ==> FindAttr(group[k], "delegator") == s)
    && (exists k :: InWindow(group, before, k) && Withdrew(group[k], validator))
  }

  ghost function Owner(group: seq<Event>, before: nat, validator: string): (r: Result<string>)
    ensures r.Ok? ==> IsOwner(group, before, validator, r.value)
    ensures r.Err? ==> forall s :: !IsOwner(group, before, validator, s)
  {
    if exists s :: IsOwner(group, before, validator, s)
    then var s :| IsOwner(group, before, validator, s); Ok(s) else Err
  }

  method RedelegationOwner(group: seq<Event>, before: nat, validator: string) returns (r: Result<string>)
    ensures r == Owner(group, before, validator)
  {
    if before > |group| { return Err; }
    var owner := "";
    var i := before;
    while i > 0
      invariant 0 <= i <= before
      invariant forall j :: i <= j < before ==> group[j].kind != "redelegate"
      invariant forall k :: i <= k < before && Withdrew(group[k], validator) ==> FindAttr(group[k], "delegator") == owner != ""
      invariant owner != "" ==> exists k :: i <= k < before && InWindow(group, before, k) && Withdrew(group[k], validator)
    {
      i := i - 1;
      var ev := group[i];
      if ev.kind == "redelegate" { i := i + 1; break; }
      assert InWindow(group, before, i);
      if !Withdrew(ev, validator) { continue; }
      var candidate := FindAttr(ev, "delegator");
      if candidate == "" || (owner != "" && owner != candidate) { return Err; }
      owner := candidate;
    }
    assert forall k :: InWindow(group, before, k) ==> i <= k;
    if owner == "" { return Err; }
    r := Ok(owner);
    assert IsOwner(group, before, validator, owner);
  }

  /** The owner depends on the events before the redelegation only. */
  lemma {:induction false} OwnerOfPrefix(group: seq<Event>, before: nat, validator: string)
    requires before <= |group|
    ensures Owner(group, before, validator) == Owner(group[..before], before, validator)
  {
    var prefix := group[..before];
    forall k ensures InWindow(group, before, k) <==> InWindow(prefix, before, k) {
    }
    forall s ensures IsOwner(group, before, validator, s) <==> IsOwner(prefix, before, validator, s) {
      if k :| InWindow(group, before, k) && Withdrew(group[k], validator) {
        assert InWindow(prefix, before, k) && Withdrew(prefix[k], validator);
      }
      if k :| InWindow(prefix, before, k) && Withdrew(prefix[k], validator) {
        assert InWindow(group, before, k) && Withdrew(group[k], validator);
      }
    }
  }

  // ----- transfers that a receipt already accounts for -----------------------------------

  datatype Skip = Skip(sent: bool, received: bool)

  predicate IsReceipt(ev: Event) {
    ev.kind == "structs.structs.EventAlphaRefine" || ev.kind == "structs.structs.EventAlphaInfuse"
  }

  predicate ForAccount(r: Receipt, address: string) {
    r.Receipt? && address == if r.vaultAddress == "" then r.primaryAddress else r.vaultAddress
  }

  /** A refine receipt credits whole alpha to the recipient of this transfer. */
  predicate Refines(ev: Event, c: Coin, recipient: string) {
    && ev.kind == "structs.structs.EventAlphaRefine"
    && ForAccount(ev.receipt, recipient) && c.amount == Text(ev.receipt.amount * MICRO)
  }

  /** An infuse receipt debits this exact amount from the sender of this transfer. */
  predicate Infuses(ev: Event, c: Coin, sender: string) {
    && ev.kind == "structs.structs.EventAlphaInfuse"
    && ForAccount(ev.receipt, sender) && c.amount == Text(ev.receipt.amount)
  }

  /** Events of one kind whose account attributes name the given accounts. */
  datatype Filter = Filter(kind: string, accounts: seq<Attribute>) {
    predicate Accepts(ev: Event) {
      ev.kind == kind && forall i :: 0 <= i < |accounts| ==> FindAttr(ev, accounts[i].key) == accounts[i].value
    }
  }

  /** How many accepted events hold the coin; one unreadable accepted event spoils it. */
  function Holders(group: seq<Event>, f: Filter, c: Coin): Result<nat> {
    if group == [] then Ok(0)
    else
      var last := group[|group| - 1];
      Tally(Holders(group[..|group| - 1], f, c), f.Accepts(last), EventCoins(last), c)
  }

  function Tally(rest: Result<nat>, accepted: bool, coins: Result<seq<Coin>>, c: Coin): Result<nat> {
    if rest.Err? || !accepted then rest
    else if coins.Err? then Err
    else if c in coins.value then Ok(rest.value + 1) else rest
  }

  lemma {:induction false} UnreadableHolders(group: seq<Event>, n: nat, f: Filter, c: Coin)
    requires n <= |group| && Holders(group[..n], f, c).Err?
    ensures Holders(group, f, c).Err?
  {
    if n < |group| {
      assert group[..|group| - 1][..n] == group[..n];
      UnreadableHolders(group[..|group| - 1], n, f, c);
    } else {
      assert group[..n] == group;
    }
  }

  method CountHolders(group: seq<Event>, f: Filter, c: Coin) returns (r: Result<nat>)
    ensures r == Holders(group, f, c)
  {
    var matches := 0;
    for i := 0 to |group|
      invariant Holders(group[..i], f, c) == Ok(matches)
    {
      assert group[..i + 1] == group[..i] + [group[i]];
      HoldersNext(group[..i], group[i], f, c);
      if !f.Accepts(group[i]) { continue; }
      var found := ContainsCoin(group[i], c);
      if found.Err? { UnreadableHolders(group, i + 1, f, c); return Err; }
      if found.value { matches := matches + 1; }
    }
    assert group[..|group|] == group;
    r := Ok(matches);
  }

  function MintedBy(account: string): Filter { Filter("coinbase", [Attribute("minter", account)]) }
  function BurnedBy(account: string): Filter { Filter("burn", [Attribute("burner", account)]) }
  function Between(sender: string, recipient: string): Filter {
    Filter("transfer", [Attribute("sender", sender), Attribute("recipient", recipient)])
  }

  ghost predicate Refined(group: seq<Event>, c: Coin, recipient: string) {
    exists k :: 0 <= k < |group| && Refines(group[k], c, recipient)
  }

  ghost predicate Infused(group: seq<Event>, c: Coin, sender: string) {
    exists k :: 0 <= k < |group| && Infuses(group[k], c, sender)
  }

  ghost predicate Decoded(group: seq<Event>) {
    forall k :: 0 <= k < |group| && IsReceipt(group[k]) ==> group[k].receipt.Receipt?
  }

  /** A mint by the sender with a refine receipt for the recipient covers the
      received leg; a burn by the recipient with an infuse receipt for the sender
      covers the sent leg. */
  ghost function Covered(group: seq<Event>, c: Coin, sender: string, recipient: string): Result<Skip> {
    var minted, burned := Holders(group, MintedBy(sender), c), Holders(group, BurnedBy(recipient), c);
    if !Decoded(group) then Err
    else if Refined(group, c, recipient) && minted.Err? then Err
    else if Infused(group, c, sender) && burned.Err? then Err
    else Ok(Skip(Infused(group, c, sender) && burned.value > 0, Refined(group, c, recipient) && minted.value > 0))
  }

  /** A leg is skipped only for the sole transfer of this coin between these accounts. */
  ghost function Overlap(ev: Event, group: seq<Event>): (r: Result<Skip>)
    ensures r.Ok? ==> !(r.value.sent && r.value.received)
  {
    var c, sender, recipient := FindAmount(ev), FindAttr(ev, "sender"), FindAttr(ev, "recipient");
    if c.None? || c.value.denom != "ualpha" then Ok(Skip(false, false))
    else
      match Covered(group, c.value, sender, recipient)
      case Err => Err
      case Ok(skip) =>
        if !skip.sent && !skip.received then Ok(skip)
        else if Holders(group, Between(sender, recipient), c.value) != Ok(1) || (skip.sent && skip.received) then Err
        else Ok(skip)
  }

  /** Progress over the first `n` receipts. */
  ghost predicate Covering(group: seq<Event>, n: nat, c: Coin, sender: string, recipient: string, skip: Skip) {
    && n <= |group| && Decoded(group[..n])
    && (Refined(group[..n], c, recipient) ==> Holders(group, MintedBy(sender), c).Ok?)
    && (Infused(group[..n], c, sender) ==> Holders(group, BurnedBy(recipient), c).Ok?)
    && (skip.received <==> Refined(group[..n], c, recipient) && Holders(group, MintedBy(sender), c).value > 0)
    && (skip.sent <==> Infused(group[..n], c, sender) && Holders(group, BurnedBy(recipient), c).value > 0)
  }

  /** One more receipt moves the progress on, whichever leg it covers. */
  lemma {:induction false} CoverOneMore(group: seq<Event>, n: nat, c: Coin, sender: string, recipient: string, skip: Skip, next: Skip)
    requires n < |group| && Covering(group, n, c, sender, recipient, skip)
    requires IsReceipt(group[n]) ==> group[n].receipt.Receipt?
    requires Refines(group[n], c, recipient) ==> Holders(group, MintedBy(sender), c).Ok?
    requires Infuses(group[n], c, sender) ==> Holders(group, BurnedBy(recipient), c).Ok?
    requires next.received <==> skip.received || (Refines(group[n], c, recipient) && Holders(group, MintedBy(sender), c).value > 0)
    requires next.sent <==> skip.sent || (Infuses(group[n], c, sender) && Holders(group, BurnedBy(recipient), c).value > 0)
    ensures Covering(group, n + 1, c, sender, recipient, next)
  {
  }

  /** What one receipt adds, or an error when it cannot be read. */
  method CoverReceipt(receipt: Event, group: seq<Event>, c: Coin, sender: string, recipient: string, skip: Skip) returns (r: Result<Skip>)
    ensures r.Ok? <==> && (IsReceipt(receipt) ==> receipt.receipt.Receipt?)
                       && (Refines(receipt, c, recipient) ==> Holders(group, MintedBy(sender), c).Ok?)
                       && (Infuses(receipt, c, sender) ==> Holders(group, BurnedBy(recipient), c).Ok?)
    ensures r.Ok? ==> (r.value.received <==> skip.received || (Refines(receipt, c, recipient) && Holders(group, MintedBy(sender), c).value > 0))
    ensures r.Ok? ==> (r.value.sent <==> skip.sent || (Infuses(receipt, c, sender) && Holders(group, BurnedBy(recipient), c).value > 0))
  {
    if !IsReceipt(receipt) { return Ok(skip); }
    if !receipt.receipt.Receipt? { return Err; }
    if Refines(receipt, c, recipient) {
      var mints := CountHolders(group, MintedBy(sender), c);
      if mints.Err? { return Err; }
      return Ok(skip.(received := skip.received || mints.value > 0));
    }
    if Infuses(receipt, c, sender) {
      var burns := CountHolders(group, BurnedBy(recipient), c);
      if burns.Err? { return Err; }
      return Ok(skip.(sent := skip.sent || burns.value > 0));
    }
    r := Ok(skip);
  }

  method CoveredLegs(group: seq<Event>, c: Coin, sender: string, recipient: string) returns (r: Result<Skip>)
    ensures r == Covered(group, c, sender, recipient)
  {
    var skip := Skip(false, false);
    for i := 0 to |group|
      invariant Covering(group, i, c, sender, recipient, skip)
    {
      var next := CoverReceipt(group[i], group, c, sender, recipient, skip);
      if next.Err? { return Err; }
      CoverOneMore(group, i, c, sender, recipient, skip, next.value);
      skip := next.value;
    }
    assert group[..|group|] == group;
    r := Ok(skip);
  }

  method TransferOverlap(ev: Event, group: seq<Event>) returns (r: Result<Skip>)
    ensures r == Overlap(ev, group)
  {
    var found := FindAmount(ev);
    if found.None? || found.value.denom != "ualpha" { return Ok(Skip(false, false)); }
    var c, sender, recipient := found.value, FindAttr(ev, "sender"), FindAttr(ev, "recipient");
    r := CoveredLegs(group, c, sender, recipient);
    if r.Err? { return; }
    if r.value.sent || r.value.received {
      var matches := CountHolders(group, Between(sender, recipient), c);
      if matches.Err? { return Err; }
      if matches.value != 1 || (r.value.sent && r.value.received) { return Err; }
    }
  }

  // ----- what a skipped leg and an ambiguity mean -----------------------------------------------------

  /** The account a receipt is for: the vault, or the primary address when there is none. */
  predicate ReceiptFor(ev: Event, kind: string, account: string) {
    && ev.kind == kind && ev.receipt.Receipt?
    && (if ev.receipt.vaultAddress != "" then ev.receipt.vaultAddress == account else ev.receipt.primaryAddress == account)
  }

  /** A refine receipt of the recipient for that many whole alpha. */
  ghost predicate RefineSeen(group: seq<Event>, c: Coin, recipient: string) {
    exists k :: 0 <= k < |group| && ReceiptFor(group[k], "structs.structs.EventAlphaRefine", recipient)
                && c.amount == Text(1000000 * group[k].receipt.amount)
  }

  /** An infuse receipt of the sender for exactly that amount. */
  ghost predicate InfuseSeen(group: seq<Event>, c: Coin, sender: string) {
    exists k :: 0 <= k < |group| && ReceiptFor(group[k], "structs.structs.EventAlphaInfuse", sender) && c.amount == Text(group[k].receipt.amount)
  }

  /** The events of one kind that name the account under the key. */
  function Naming(group: seq<Event>, kind: string, key: string, account: string): set<nat> {
    set k: nat | k < |group| && group[k].kind == kind && FindAttr(group[k], key) == account
  }

  function Payments(group: seq<Event>, sender: string, recipient: string): set<nat> {
    set k: nat | k < |group| && group[k].kind == "transfer" && FindAttr(group[k], "sender") == sender && FindAttr(group[k], "recipient") == recipient
  }

  predicate AllReadable(group: seq<Event>, ks: set<nat>) {
    forall k :: k in ks && k < |group| ==> EventCoins(group[k]).Ok?
  }

  function WithCoin(group: seq<Event>, ks: set<nat>, c: Coin): set<nat> {
    set k | k in ks && k < |group| && HoldsCoin(group[k], c)
  }

  function Accepted(group: seq<Event>, f: Filter): set<nat> {
    set k: nat | k < |group| && f.Accepts(group[k])
  }

  /** One more event joins the accepted ones, and those with the coin, if it matches. */
  lemma {:induction false} AcceptedOneMore(group: seq<Event>, last: Event, f: Filter, c: Coin)
    ensures Accepted(group + [last], f) == Accepted(group, f) + if f.Accepts(last) then {|group|} else {}
    ensures WithCoin(group + [last], Accepted(group + [last], f), c)
         == WithCoin(group, Accepted(group, f), c) + if f.Accepts(last) && HoldsCoin(last, c) then {|group|} else {}
  {
    var longer := group + [last];
    forall k: nat ensures k in Accepted(longer, f) <==> k in Accepted(group, f) || (k == |group| && f.Accepts(last)) {
      assert k < |group| ==> longer[k] == group[k];
    }
    forall k: nat
      ensures k in WithCoin(longer, Accepted(longer, f), c)
         <==> k in WithCoin(group, Accepted(group, f), c) || (k == |group| && f.Accepts(last) && HoldsCoin(last, c))
    {
      assert k < |group| ==> longer[k] == group[k];
    }
  }

  lemma {:induction false} ReadableOneMore(group: seq<Event>, last: Event, f: Filter)
    ensures AllReadable(group + [last], Accepted(group + [last], f))
       <==> AllReadable(group, Accepted(group, f)) && (f.Accepts(last) ==> EventCoins(last).Ok?)
  {
    var longer := group + [last];
    assert forall k: nat :: k < |group| ==> longer[k] == group[k];
    if AllReadable(longer, Accepted(longer, f)) {
      forall k | k in Accepted(group, f) ensures EventCoins(group[k]).Ok? {
        assert k in Accepted(longer, f) && longer[k] == group[k];
      }
      assert f.Accepts(last) ==> |group| in Accepted(longer, f) && longer[|group|] == last;
    }
  }

  /** How counting proceeds when the last event is accepted, readable and holds the coin. */
  lemma {:induction false} CountStep(rest: Result<nat>, whole: Result<nat>, readable: bool, longerReadable: bool, s: set<nat>, t: set<nat>, n: nat,
                                     accepted: bool, coins: Result<seq<Coin>>, c: Coin)
    requires (rest.Ok? <==> readable) && (rest.Ok? ==> rest.value == |s|)
    requires whole == Tally(rest, accepted, coins, c)
    requires longerReadable <==> readable && (accepted ==> coins.Ok?)
    requires n !in s && t == s + if accepted && coins.Ok? && c in coins.value then {n} else {}
    ensures (whole.Ok? <==> longerReadable) && (whole.Ok? ==> whole.value == |t|)
  {
  }

  lemma {:induction false} HoldersNext(group: seq<Event>, last: Event, f: Filter, c: Coin)
    ensures Holders(group + [last], f, c) == Tally(Holders(group, f, c), f.Accepts(last), EventCoins(last), c)
  {
    var longer := group + [last];
    assert longer[..|longer| - 1] == group && longer[|longer| - 1] == last;
  }

  /** Counting is the number of matching events, and fails iff one of them cannot be read. */
  lemma {:induction false} HoldersCount(group: seq<Event>, f: Filter, c: Coin)
    ensures Holders(group, f, c).Ok? <==> AllReadable(group, Accepted(group, f))
    ensures Holders(group, f, c).Ok? ==> Holders(group, f, c).value == |WithCoin(group, Accepted(group, f), c)|
  {
    if group == [] {
      assert WithCoin(group, Accepted(group, f), c) == {};
    } else {
      var init, last := group[..|group| - 1], group[|group| - 1];
      assert init + [last] == group;
      HoldersCount(init, f, c);
      AcceptedOneMore(init, last, f, c);
      ReadableOneMore(init, last, f);
      HoldersNext(init, last, f, c);
      CountStep(Holders(init, f, c), Holders(group, f, c), AllReadable(init, Accepted(init, f)), AllReadable(group, Accepted(group, f)),
                WithCoin(init, Accepted(init, f), c), WithCoin(group, Accepted(group, f), c), |init|,
                f.Accepts(last), EventCoins(last), c);
    }
  }

  lemma {:induction false} FiltersName(group: seq<Event>, sender: string, recipient: string)
    ensures Accepted(group, MintedBy(sender)) == Naming(group, "coinbase", "minter", sender)
    ensures Accepted(group, BurnedBy(recipient)) == Naming(group, "burn", "burner", recipient)
    ensures Accepted(group, Between(sender, recipient)) == Payments(group, sender, recipient)
  {
    forall ev: Event
      ensures MintedBy(sender).Accepts(ev) <==> ev.kind == "coinbase" && FindAttr(ev, "minter") == sender
      ensures BurnedBy(recipient).Accepts(ev) <==> ev.kind == "burn" && FindAttr(ev, "burner") == recipient
      ensures Between(sender, recipient).Accepts(ev)
         <==> ev.kind == "transfer" && FindAttr(ev, "sender") == sender && FindAttr(ev, "recipient") == recipient
    {
      FilterMeans(ev, sender, recipient);
    }
  }

  lemma {:induction false} FilterMeans(ev: Event, sender: string, recipient: string)
    ensures MintedBy(sender).Accepts(ev) <==> ev.kind == "coinbase" && FindAttr(ev, "minter") == sender
    ensures BurnedBy(recipient).Accepts(ev) <==> ev.kind == "burn" && FindAttr(ev, "burner") == recipient
    ensures Between(sender, recipient).Accepts(ev)
       <==> ev.kind == "transfer" && FindAttr(ev, "sender") == sender && FindAttr(ev, "recipient") == recipient
  {
    var m, b, t := MintedBy(sender).accounts, BurnedBy(recipient).accounts, Between(sender, recipient).accounts;
    assert m[0] == Attribute("minter", sender) && b[0] == Attribute("burner", recipient);
    assert t[0] == Attribute("sender", sender) && t[1] == Attribute("recipient", recipient);
  }

  /** Mint with refine receipt: the received leg is accounted for. */
  ghost predicate MintCovers(ev: Event, group: seq<Event>, c: Coin) {
    RefineSeen(group, c, FindAttr(ev, "recipient")) && WithCoin(group, Naming(group, "coinbase", "minter", FindAttr(ev, "sender")), c) != {}
  }

  /** Burn with infuse receipt: the sent leg is accounted for. */
  ghost predicate BurnCovers(ev: Event, group: seq<Event>, c: Coin) {
    InfuseSeen(group, c, FindAttr(ev, "sender")) && WithCoin(group, Naming(group, "burn", "burner", FindAttr(ev, "recipient")), c) != {}
  }

  lemma {:induction false} ReceiptsSeen(group: seq<Event>, c: Coin, sender: string, recipient: string)
    ensures Refined(group, c, recipient) <==> RefineSeen(group, c, recipient)
    ensures Infused(group, c, sender) <==> InfuseSeen(group, c, sender)
  {
    if RefineSeen(group, c, recipient) {
      var k :| 0 <= k < |group| && ReceiptFor(group[k], "structs.structs.EventAlphaRefine", recipient)
               && c.amount == Text(1000000 * group[k].receipt.amount);
      assert Refines(group[k], c, recipient);
    }
    if InfuseSeen(group, c, sender) {
      var k :| 0 <= k < |group| && ReceiptFor(group[k], "structs.structs.EventAlphaInfuse", sender) && c.amount == Text(group[k].receipt.amount);
      assert Infuses(group[k], c, sender);
    }
  }

  /** A leg would be skipped although this is not the only such transfer, or both would. */
  ghost predicate Ambiguous(ev: Event, group: seq<Event>, c: Coin) {
    var ks := Payments(group, FindAttr(ev, "sender"), FindAttr(ev, "recipient"));
    || (MintCovers(ev, group, c) && BurnCovers(ev, group, c))
    || ((MintCovers(ev, group, c) || BurnCovers(ev, group, c)) && (!AllReadable(group, ks) || |WithCoin(group, ks, c)| != 1))
  }

  /** Something that decides the overlap cannot be read. */
  ghost predicate Undecidable(ev: Event, group: seq<Event>, c: Coin) {
    || (exists k :: 0 <= k < |group| && IsReceipt(group[k]) && !group[k].receipt.Receipt?)
    || (RefineSeen(group, c, FindAttr(ev, "recipient")) && !AllReadable(group, Naming(group, "coinbase", "minter", FindAttr(ev, "sender"))))
    || (InfuseSeen(group, c, FindAttr(ev, "sender")) && !AllReadable(group, Naming(group, "burn", "burner", FindAttr(ev, "recipient"))))
  }

  lemma {:induction false} CoveredMeans(ev: Event, group: seq<Event>, c: Coin)
    ensures var r := Covered(group, c, FindAttr(ev, "sender"), FindAttr(ev, "recipient"));
            (r.Err? <==> Undecidable(ev, group, c)) && (r.Ok? ==> r.value == Skip(BurnCovers(ev, group, c), MintCovers(ev, group, c)))
  {
    var sender, recipient := FindAttr(ev, "sender"), FindAttr(ev, "recipient");
    ReceiptsSeen(group, c, sender, recipient);
    FiltersName(group, sender, recipient);
    HoldersCount(group, MintedBy(sender), c);
    HoldersCount(group, BurnedBy(recipient), c);
  }

  /** The overlap fails iff it cannot be decided or is ambiguous; otherwise a leg is skipped iff
      it is accounted for: a matching receipt with its mint or burn always suppresses it. */
  lemma {:induction false} OverlapMeans(ev: Event, group: seq<Event>, c: Coin)
    requires FindAmount(ev) == Some(c)
    ensures Overlap(ev, group).Err? <==> c.denom == "ualpha" && (Undecidable(ev, group, c) || Ambiguous(ev, group, c))
    ensures Overlap(ev, group).Ok? ==>
              Overlap(ev, group).value == if c.denom == "ualpha" then Skip(BurnCovers(ev, group, c), MintCovers(ev, group, c)) else Skip(false, false)
  {
    var sender, recipient := FindAttr(ev, "sender"), FindAttr(ev, "recipient");
    CoveredMeans(ev, group, c);
    FiltersName(group, sender, recipient);
    HoldersCount(group, Between(sender, recipient), c);
  }
}
