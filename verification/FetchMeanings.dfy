/** Which query rows are accepted (staking/snapshot.go), row by row and pair by pair. */
module FetchMeanings {
  import opened Coins
  import opened Decimal
  import opened NativeEvidence
  import opened NativeFetch
  import opened NativeSnapshot
  import opened Positions

  /** Digits that read as a natural number below 2^256. */
  predicate IsAmount(raw: string) {
    raw != "" && IsDigits(raw) && DigitsValue(raw) < SDK_LIMIT
  }

  // ----- single entries ----------------------------------------------------------------------------

  /** An entry that was never slashed is accepted, and so is one slashed to any part of it; a
      balance above the initial one is not. */
  lemma {:induction false} SlashedEntries(height: int, created: int, initial: string, balance: string, id: nat, holds: nat)
    requires 0 <= created <= height && IsAmount(initial) && IsAmount(balance)
    ensures UnbondingFits(height, EntryRow(created, true, initial, initial, "", id, holds))
    ensures UnbondingFits(height, EntryRow(created, true, initial, balance, "", id, holds)) <==> DigitsValue(balance) <= DigitsValue(initial)
  {
  }

  /** Shares are a natural number with up to eighteen decimals. */
  lemma {:induction false} SharesWithDecimals(n: nat, decimals: string)
    requires IsDigits(decimals)
    ensures ValidShares(Text(n))
    ensures ValidShares(Text(n) + "." + decimals) <==> 1 <= |decimals| <= 18
  {
    TextReads(n);
    var whole, s := Text(n), Text(n) + "." + decimals;
    LeadingRun(whole, "");
    assert whole + "" == whole;
    LeadingRun(whole, "." + decimals);
    assert whole + ("." + decimals) == s;
    assert s[..|whole|] == whole && s[|whole|] == '.' && s[|whole| + 1..] == decimals;
  }

  lemma {:induction false} LeadingRun(digits: string, rest: string)
    requires IsDigits(digits) && (rest == "" || !('0' <= rest[0] <= '9'))
    ensures LeadingDigits(digits + rest) == |digits|
  {
    var s := digits + rest;
    var n := LeadingDigits(s);
    assert forall i :: 0 <= i < |digits| ==> s[i] == digits[i];
    assert rest != "" ==> s[|digits|] == rest[0];
    assert forall i :: 0 <= i < n ==> s[..n][i] == s[i];
  }

  predicate EntryAccepted(height: int, e: EntryRow) {
    0 <= e.created <= height && e.completes && e.holds >= 0 && IsAmount(e.initial) && IsAmount(e.balance)
  }

  predicate AccountsAccepted(address: string, delegator: string, validator: string) {
    delegator == address && ValidAddress(validator, "structsvaloper1")
  }

  // ----- whole lists ---------------------------------------------------------------------------------

  predicate DelegationAccepted(address: string, d: DelegationRow) {
    AccountsAccepted(address, d.delegator, d.validator) && ValidShares(d.shares) && d.denom == "ualpha" && IsAmount(d.amount)
  }

  predicate Distinct<T(==)>(keys: seq<T>) {
    forall i, j :: 0 <= i < j < |keys| ==> keys[i] != keys[j]
  }

  lemma {:induction false} DistinctNext<T>(keys: seq<T>, key: T)
    ensures Distinct(keys + [key]) <==> Distinct(keys) && key !in keys
  {
    var longer := keys + [key];
    assert longer[|keys|] == key && forall i :: 0 <= i < |keys| ==> longer[i] == keys[i];
  }

  function BondedTo(rows: seq<DelegationRow>): (vs: seq<string>)
    ensures |vs| == |rows| && forall i :: 0 <= i < |rows| ==> vs[i] == rows[i].validator
  {
    seq(|rows|, i requires 0 <= i < |rows| => rows[i].validator)
  }

  /** Delegations are accepted iff each is the address's own, in ualpha, with readable shares and
      amount, and no validator has two. */
  lemma {:induction false} DelegationsMean(address: string, rows: seq<DelegationRow>)
    ensures DelegationsFit(address, rows) <==> (forall i :: 0 <= i < |rows| ==> DelegationAccepted(address, rows[i])) && Distinct(BondedTo(rows))
  {
    if rows != [] {
      var n := |rows| - 1;
      var init, v := rows[..n], rows[n].validator;
      DelegationsMean(address, init);
      assert BondedTo(rows) == BondedTo(init) + [v];
      DistinctNext(BondedTo(init), v);
      BondTaken(init, v);
      assert DelegationFits(address, rows[n]) <==> DelegationAccepted(address, rows[n]);
      assert forall i :: 0 <= i < n ==> init[i] == rows[i];
    }
  }

  lemma {:induction false} BondTaken(rows: seq<DelegationRow>, v: string)
    ensures Bond(v) in BondKeys(rows) <==> v in BondedTo(rows)
  {
    if v in BondedTo(rows) {
      var i :| 0 <= i < |rows| && BondedTo(rows)[i] == v;
      assert Bond(rows[i].validator) == Bond(v);
    }
  }

  predicate UnbondingAccepted(address: string, height: int, u: UnbondingRow) {
    && AccountsAccepted(address, u.delegator, u.validator)
    && forall k :: 0 <= k < |u.entries| ==>
         EntryAccepted(height, u.entries[k]) && DigitsValue(u.entries[k].balance) <= DigitsValue(u.entries[k].initial)
  }

  function UnbondingFrom(rows: seq<UnbondingRow>): (vs: seq<string>)
    ensures |vs| == |rows| && forall i :: 0 <= i < |rows| ==> vs[i] == rows[i].validator
  {
    seq(|rows|, i requires 0 <= i < |rows| => rows[i].validator)
  }

  lemma {:induction false} UnbondingsMean(address: string, height: int, rows: seq<UnbondingRow>)
    ensures UnbondingsFit(address, height, rows) <==>
              (forall i :: 0 <= i < |rows| ==> UnbondingAccepted(address, height, rows[i])) && Distinct(UnbondingFrom(rows))
  {
    if rows != [] {
      var n := |rows| - 1;
      var init, last := rows[..n], rows[n];
      UnbondingsMean(address, height, init);
      assert UnbondingFrom(rows) == UnbondingFrom(init) + [last.validator];
      DistinctNext(UnbondingFrom(init), last.validator);
      UnbondTaken(init, last.validator);
      assert UnbondingAccepted(address, height, last) <==> IsPair(address, last.delegator, last.validator) && EntriesFit(height, last.entries);
      assert forall i :: 0 <= i < n ==> init[i] == rows[i];
    }
  }

  lemma {:induction false} UnbondTaken(rows: seq<UnbondingRow>, v: string)
    ensures Unbond(v) in UnbondKeys(rows) <==> v in UnbondingFrom(rows)
  {
    if v in UnbondingFrom(rows) {
      var i :| 0 <= i < |rows| && UnbondingFrom(rows)[i] == v;
      assert Unbond(rows[i].validator) == Unbond(v);
    }
  }

  predicate RedelegationAccepted(address: string, height: int, m: RedelegationRow) {
    && AccountsAccepted(address, m.delegator, m.source) && ValidAddress(m.destination, "structsvaloper1") && m.source != m.destination
    && forall k :: 0 <= k < |m.entries| ==> EntryAccepted(height, m.entries[k]) && ValidShares(m.entries[k].shares)
  }

  function MovesBetween(rows: seq<RedelegationRow>): (vs: seq<(string, string)>)
    ensures |vs| == |rows| && forall i :: 0 <= i < |rows| ==> vs[i] == (rows[i].source, rows[i].destination)
  {
    seq(|rows|, i requires 0 <= i < |rows| => (rows[i].source, rows[i].destination))
  }

  lemma {:induction false} RedelegationsMean(address: string, height: int, rows: seq<RedelegationRow>)
    ensures RedelegationsFit(address, height, rows) <==>
              (forall i :: 0 <= i < |rows| ==> RedelegationAccepted(address, height, rows[i])) && Distinct(MovesBetween(rows))
  {
    if rows != [] {
      var n := |rows| - 1;
      var init, last := rows[..n], rows[n];
      RedelegationsMean(address, height, init);
      assert MovesBetween(rows) == MovesBetween(init) + [(last.source, last.destination)];
      DistinctNext(MovesBetween(init), (last.source, last.destination));
      MoveTaken(init, last.source, last.destination);
      assert RedelegationAccepted(address, height, last) <==> IsMove(address, last) && MovesFit(height, last.entries);
      assert forall i :: 0 <= i < n ==> init[i] == rows[i];
    }
  }

  lemma {:induction false} MoveTaken(rows: seq<RedelegationRow>, source: string, destination: string)
    ensures Move(source, destination) in MoveKeys(rows) <==> (source, destination) in MovesBetween(rows)
  {
    if (source, destination) in MovesBetween(rows) {
      var i :| 0 <= i < |rows| && MovesBetween(rows)[i] == (source, destination);
      assert Move(rows[i].source, rows[i].destination) == Move(source, destination);
    }
  }

  // ----- the query ------------------------------------------------------------------------------------

  function EntryCount(us: seq<UnbondingRow>, ms: seq<RedelegationRow>): nat {
    if us != [] then EntryCount(us[..|us| - 1], ms) + |us[|us| - 1].entries|
    else if ms != [] then EntryCount([], ms[..|ms| - 1]) + |ms[|ms| - 1].entries|
    else 0
  }

  lemma {:induction false} EveryEntryHasAnId(us: seq<UnbondingRow>, ms: seq<RedelegationRow>)
    ensures |UnbondIds(us)| + |MoveIds(ms)| == EntryCount(us, ms)
    decreases |us| + |ms|
  {
    if us != [] {
      EveryEntryHasAnId(us[..|us| - 1], ms);
    } else if ms != [] {
      EveryEntryHasAnId(us, ms[..|ms| - 1]);
    }
  }

  /** A query of accepted rows yields a snapshot iff no pair repeats, no identifier repeats and
      the limits hold. */
  lemma {:induction false} QueryMeans(address: string, height: int, limits: Limits, q: Query)
    requires height > 0 && limits.pageSize > 0 && limits.maxPairs > 0 && limits.maxEntries > 0 && ValidAddress(address, "structs1")
    requires forall i :: 0 <= i < |q.delegations| ==> DelegationAccepted(address, q.delegations[i])
    requires forall i :: 0 <= i < |q.unbondings| ==> UnbondingAccepted(address, height, q.unbondings[i])
    requires forall i :: 0 <= i < |q.redelegations| ==> RedelegationAccepted(address, height, q.redelegations[i])
    ensures Acceptable(address, height, limits, q) <==>
              && Distinct(BondedTo(q.delegations)) && Distinct(UnbondingFrom(q.unbondings)) && Distinct(MovesBetween(q.redelegations))
              && DistinctIds(UnbondIds(q.unbondings) + MoveIds(q.redelegations))
              && |q.delegations| + |q.unbondings| + |q.redelegations| <= limits.maxPairs
              && EntryCount(q.unbondings, q.redelegations) <= limits.maxEntries
  {
    DelegationsMean(address, q.delegations);
    UnbondingsMean(address, height, q.unbondings);
    RedelegationsMean(address, height, q.redelegations);
    EveryEntryHasAnId(q.unbondings, q.redelegations);
  }

  // ----- what the snapshot claims ---------------------------------------------------------------------

  /** The number a text of digits writes. */
  function Reading(raw: string): nat {
    if IsDigits(raw) then DigitsValue(raw) else 0
  }

  function EntrySum(entries: seq<EntryRow>): nat {
    if entries == [] then 0
    else EntrySum(entries[..|entries| - 1]) + Reading(entries[|entries| - 1].balance)
  }

  lemma {:induction false} ValueOfText(raw: string)
    ensures Value(Text(Value(raw))) == Reading(raw)
  {
    TextReads(Value(raw));
  }

  lemma {:induction false} WithAppends(a: seq<Item>, b: seq<Item>, v: string)
    ensures With(a + b, v) == With(a, v) + With(b, v)
  {
    if b == [] {
      assert a + b == a;
    } else {
      assert (a + b)[..|a + b| - 1] == a + b[..|b| - 1];
      WithAppends(a, b[..|b| - 1], v);
    }
  }

  lemma {:induction false} OneMoreBond(rows: seq<DelegationRow>, v: string)
    requires rows != []
    ensures var n := |rows| - 1; var held := With(Balances(DelegationsOf(rows[..n])), v);
            With(Balances(DelegationsOf(rows)), v) == if rows[n].validator == v then held + Reading(rows[n].amount) else held
  {
    ValueOfText(rows[|rows| - 1].amount);
    assert Balances(DelegationsOf(rows))[..|rows| - 1] == Balances(DelegationsOf(rows[..|rows| - 1]));
  }

  lemma {:induction false} NothingBondedWith(rows: seq<DelegationRow>, v: string)
    requires forall k :: 0 <= k < |rows| ==> rows[k].validator != v
    ensures With(Balances(DelegationsOf(rows)), v) == 0
  {
    if rows != [] {
      NothingBondedWith(rows[..|rows| - 1], v);
      OneMoreBond(rows, v);
    }
  }

  lemma {:induction false} BondedWith(rows: seq<DelegationRow>, i: nat)
    requires i < |rows| && Distinct(BondedTo(rows))
    ensures With(Balances(DelegationsOf(rows)), rows[i].validator) == Reading(rows[i].amount)
  {
    var n := |rows| - 1;
    OneMoreBond(rows, rows[i].validator);
    if i < n {
      assert BondedTo(rows[..n]) == BondedTo(rows)[..n];
      BondedWith(rows[..n], i);
    } else {
      assert forall k :: 0 <= k < n ==> BondedTo(rows)[k] != BondedTo(rows)[n];
      NothingBondedWith(rows[..n], rows[n].validator);
    }
  }

  lemma {:induction false} EntriesWith(validator: string, entries: seq<EntryRow>, v: string)
    ensures With(Maturing(Entries(validator, entries)), v) == (if v == validator then EntrySum(entries) else 0)
    ensures With(Slots(Entries(validator, entries)), v) == (if v == validator then |entries| else 0)
  {
    if entries != [] {
      var n := |entries| - 1;
      EntriesWith(validator, entries[..n], v);
      ValueOfText(entries[n].balance);
      assert Maturing(Entries(validator, entries))[..n] == Maturing(Entries(validator, entries[..n]));
      assert Slots(Entries(validator, entries))[..n] == Slots(Entries(validator, entries[..n]));
    }
  }

  lemma {:induction false} MaturingWith(a: seq<Unbonding>, b: seq<Unbonding>, v: string)
    ensures With(Maturing(a + b), v) == With(Maturing(a), v) + With(Maturing(b), v)
  {
    assert Maturing(a + b) == Maturing(a) + Maturing(b);
    WithAppends(Maturing(a), Maturing(b), v);
  }

  lemma {:induction false} SlotsWith(a: seq<Unbonding>, b: seq<Unbonding>, v: string)
    ensures With(Slots(a + b), v) == With(Slots(a), v) + With(Slots(b), v)
  {
    assert Slots(a + b) == Slots(a) + Slots(b);
    WithAppends(Slots(a), Slots(b), v);
  }

  /** What unbonding entries hold of one validator: their sum and their number. */
  datatype Held = Held(sum: nat, count: nat)

  function HeldWith(us: seq<Unbonding>, v: string): Held {
    Held(With(Maturing(us), v), With(Slots(us), v))
  }

  lemma {:induction false} OneMoreRow(rows: seq<UnbondingRow>, v: string)
    requires rows != []
    ensures var n := |rows| - 1; var more, held := rows[n].entries, HeldWith(UnbondingsOf(rows[..n]), v);
            HeldWith(UnbondingsOf(rows), v)
              == if v == rows[n].validator then Held(held.sum + EntrySum(more), held.count + |more|) else held
  {
    var last := rows[|rows| - 1];
    EntriesWith(last.validator, last.entries, v);
    MaturingWith(UnbondingsOf(rows[..|rows| - 1]), Entries(last.validator, last.entries), v);
    SlotsWith(UnbondingsOf(rows[..|rows| - 1]), Entries(last.validator, last.entries), v);
  }

  lemma {:induction false} NoUnbondingWith(rows: seq<UnbondingRow>, v: string)
    requires forall k :: 0 <= k < |rows| ==> rows[k].validator != v
    ensures HeldWith(UnbondingsOf(rows), v) == Held(0, 0)
  {
    if rows != [] {
      NoUnbondingWith(rows[..|rows| - 1], v);
      OneMoreRow(rows, v);
    }
  }

  lemma {:induction false} UnbondingWith(rows: seq<UnbondingRow>, i: nat)
    requires i < |rows| && Distinct(UnbondingFrom(rows))
    ensures HeldWith(UnbondingsOf(rows), rows[i].validator) == Held(EntrySum(rows[i].entries), |rows[i].entries|)
  {
    var n := |rows| - 1;
    OneMoreRow(rows, rows[i].validator);
    if i < n {
      UnbondingWith(rows[..n], i);
    } else {
      NoUnbondingWith(rows[..n], rows[n].validator);
    }
  }

  /** What an accepted query says of the stake with one validator: the one delegation to it, and
      the sum and number of the entries of its one unbonding. */
  lemma {:induction false} StakeMeans(address: string, height: int, limits: Limits, q: Query, v: string)
    requires Acceptable(address, height, limits, q) && v in ClaimFor(SnapshotOf(address, height, q)).positions
    ensures var stake := ClaimFor(SnapshotOf(address, height, q)).positions[v];
            && (forall i :: 0 <= i < |q.delegations| && q.delegations[i].validator == v ==> stake.bonded == Reading(q.delegations[i].amount))
            && ((forall i :: 0 <= i < |q.delegations| ==> q.delegations[i].validator != v) ==> stake.bonded == 0)
            && (forall i :: 0 <= i < |q.unbondings| && q.unbondings[i].validator == v ==>
                  stake.unbonding == EntrySum(q.unbondings[i].entries) && stake.entries == |q.unbondings[i].entries|)
            && ((forall i :: 0 <= i < |q.unbondings| ==> q.unbondings[i].validator != v) ==> stake.unbonding == 0 && stake.entries == 0)
  {
    DelegationsMean(address, q.delegations);
    UnbondingsMean(address, height, q.unbondings);
    var ds := q.delegations;
    if forall i :: 0 <= i < |ds| ==> ds[i].validator != v { NothingBondedWith(ds, v); }
    var us := q.unbondings;
    if forall i :: 0 <= i < |us| ==> us[i].validator != v { NoUnbondingWith(us, v); }
    forall i | 0 <= i < |ds| && ds[i].validator == v ensures With(Balances(DelegationsOf(ds)), v) == Reading(ds[i].amount) {
      BondedWith(ds, i);
    }
    forall i | 0 <= i < |us| && us[i].validator == v
      ensures HeldWith(UnbondingsOf(us), v) == Held(EntrySum(us[i].entries), |us[i].entries|)
    {
      UnbondingWith(us, i);
    }
  }

  lemma {:induction false} UnbondingNames(rows: seq<UnbondingRow>, v: string)
    ensures (exists u :: u in UnbondingsOf(rows) && u.validator == v)
       <==> exists i :: 0 <= i < |rows| && rows[i].validator == v && rows[i].entries != []
  {
    if rows != [] {
      var n := |rows| - 1;
      var init, last := rows[..n], rows[n];
      UnbondingNames(init, v);
      assert forall i :: 0 <= i < n ==> init[i] == rows[i];
      var more := Entries(last.validator, last.entries);
      assert (exists u :: u in UnbondingsOf(init) + more && u.validator == v)
        <==> (exists u :: u in UnbondingsOf(init) && u.validator == v) || (last.validator == v && last.entries != []) by {
        if last.entries != [] { assert more[0] in more; }
      }
    }
  }

  lemma {:induction false} RedelegationNames(rows: seq<RedelegationRow>, v: string)
    ensures (exists r :: r in RedelegationsOf(rows) && (r.source == v || r.destination == v))
       <==> exists i :: 0 <= i < |rows| && (rows[i].source == v || rows[i].destination == v) && rows[i].entries != []
  {
    if rows != [] {
      var n := |rows| - 1;
      var init, last := rows[..n], rows[n];
      RedelegationNames(init, v);
      assert forall i :: 0 <= i < n ==> init[i] == rows[i];
      var more := seq(|last.entries|, i requires 0 <= i < |last.entries| => Redelegation(last.source, last.destination, last.entries[i]));
      assert (exists r :: r in RedelegationsOf(init) + more && (r.source == v || r.destination == v))
        <==> (exists r :: r in RedelegationsOf(init) && (r.source == v || r.destination == v))
             || ((last.source == v || last.destination == v) && last.entries != []) by {
        if last.entries != [] { assert more[0] in more; }
      }
    }
  }

  /** The address is exposed to the validators of its delegations and of the entries that are
      unbonding or moving, on both sides of a move, and to no other; stake it has only with the first two. */
  lemma {:induction false} ExposureMeans(address: string, height: int, q: Query, v: string)
    ensures v in ClaimFor(SnapshotOf(address, height, q)).validators <==>
              || (exists i :: 0 <= i < |q.delegations| && q.delegations[i].validator == v)
              || (exists i :: 0 <= i < |q.unbondings| && q.unbondings[i].validator == v && q.unbondings[i].entries != [])
              || (exists i :: 0 <= i < |q.redelegations| && (q.redelegations[i].source == v || q.redelegations[i].destination == v)
                              && q.redelegations[i].entries != [])
    ensures v in ClaimFor(SnapshotOf(address, height, q)).positions <==>
              || (exists i :: 0 <= i < |q.delegations| && q.delegations[i].validator == v)
              || (exists i :: 0 <= i < |q.unbondings| && q.unbondings[i].validator == v && q.unbondings[i].entries != [])
  {
    UnbondingNames(q.unbondings, v);
    RedelegationNames(q.redelegations, v);
    DelegationNames(q.delegations, v);
    NamesMean(SnapshotOf(address, height, q), v);
  }

  lemma {:induction false} DelegationNames(rows: seq<DelegationRow>, v: string)
    ensures (exists d :: d in DelegationsOf(rows) && d.validator == v) <==> exists i :: 0 <= i < |rows| && rows[i].validator == v
  {
    forall i | 0 <= i < |rows| && rows[i].validator == v ensures exists d :: d in DelegationsOf(rows) && d.validator == v {
      assert DelegationsOf(rows)[i] in DelegationsOf(rows);
    }
  }

  lemma {:induction false} NamesMean(s: Snapshot, v: string)
    ensures v in Holders(s) <==> (exists d :: d in s.delegations && d.validator == v) || exists u :: u in s.unbondings && u.validator == v
    ensures v in Validators(s) <==>
              || (exists d :: d in s.delegations && d.validator == v)
              || (exists u :: u in s.unbondings && u.validator == v)
              || (exists r :: r in s.redelegations && (r.source == v || r.destination == v))
  {
  }
}
