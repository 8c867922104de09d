/** Genesis staking credits (genesis/types.go, genesis/apply.go). Shares and tokens are
    exact rationals; a credit is the truncated quotient. */
module Genesis {
  import opened LedgerRows

  datatype Validator = Validator(tokens: real, shares: real)

  datatype Delegation = Delegation(delegator: string, validator: string, shares: real)

  // ----- one credit ------------------------------------------------------------------------

  /** Integer division rounds toward zero. */
  function Truncated(x: real): int {
    if x >= 0.0 then x.Floor else -((-x).Floor)
  }

  function DelegationAmount(shares: real, v: Validator): int {
    if v.shares <= 0.0 then 0 else Truncated(Quotient(shares, v))
  }

  function Quotient(shares: real, v: Validator): real
    requires v.shares > 0.0
  {
    shares * v.tokens / v.shares
  }

  /** A delegation to an unknown validator is worth nothing. */
  function ValidatorOf(vals: map<string, Validator>, d: Delegation): Validator {
    if d.validator in vals then vals[d.validator] else Validator(0.0, 1.0)
  }

  function GenesisCredit(vals: map<string, Validator>, d: Delegation): int {
    DelegationAmount(d.shares, ValidatorOf(vals, d))
  }

  /** The credit is the exact worth less a fraction of one unit. */
  predicate Near(credit: int, worth: real) {
    credit >= 0 && credit as real <= worth < credit as real + 1.0
  }

  lemma {:induction false} QuotientIsRate(shares: real, v: Validator, rate: real)
    requires shares >= 0.0 && v.tokens >= 0.0 && v.shares > 0.0 && rate == v.tokens / v.shares
    ensures Quotient(shares, v) == shares * rate >= 0.0
  {
  }

  lemma {:induction false} CreditBounds(shares: real, v: Validator, rate: real)
    requires shares >= 0.0 && v.tokens >= 0.0 && v.shares > 0.0 && rate == v.tokens / v.shares
    ensures Near(DelegationAmount(shares, v), shares * rate)
  {
    QuotientIsRate(shares, v, rate);
  }

  /** A delegation to an unknown validator, or to one without shares, is worth nothing. */
  lemma {:induction false} WorthlessDelegations(vals: map<string, Validator>, d: Delegation)
    requires d.validator in vals ==> vals[d.validator].shares <= 0.0
    ensures GenesisCredit(vals, d) == 0
  {
    if d.validator !in vals { NothingTimes(d.shares); }
  }

  lemma {:induction false} NothingTimes(x: real)
    ensures Quotient(x, Validator(0.0, 1.0)) == 0.0
  {
    var v := Validator(0.0, 1.0);
    var product := x * v.tokens;
    assert product == 0.0;
    assert product / v.shares == 0.0;
  }

  /** Any other credit is the worth rounded toward zero, whatever its sign. */
  lemma {:induction false} CreditIsRounded(shares: real, v: Validator, worth: real)
    requires v.shares > 0.0 && worth == shares * v.tokens / v.shares
    ensures if worth >= 0.0 then Near(DelegationAmount(shares, v), worth) else Near(-DelegationAmount(shares, v), -worth)
  {
    assert Quotient(shares, v) == worth;
    RoundedTowardZero(worth);
  }

  lemma {:induction false} RoundedTowardZero(x: real)
    ensures if x >= 0.0 then Near(Truncated(x), x) else Near(-Truncated(x), -x)
  {
  }

  // ----- all delegations to one validator -----------------------------------------------------

  function SharesOf(ds: seq<Delegation>, v: string): real {
    if ds == [] then 0.0
    else SharesOf(ds[..|ds| - 1], v) + if ds[|ds| - 1].validator == v then ds[|ds| - 1].shares else 0.0
  }

  function CreditsOf(vals: map<string, Validator>, ds: seq<Delegation>, v: string): int {
    if ds == [] then 0
    else CreditsOf(vals, ds[..|ds| - 1], v) + if ds[|ds| - 1].validator == v then GenesisCredit(vals, ds[|ds| - 1]) else 0
  }

  function CountOf(ds: seq<Delegation>, v: string): nat {
    if ds == [] then 0 else CountOf(ds[..|ds| - 1], v) + if ds[|ds| - 1].validator == v then 1 else 0
  }

  /** Exact worth of each delegation to `v`, at a rate per share, and their sum. */
  function Worth(d: Delegation, v: string, rate: real): real {
    if d.validator == v then d.shares * rate else 0.0
  }

  function ExactOf(ds: seq<Delegation>, v: string, rate: real): real {
    if ds == [] then 0.0 else ExactOf(ds[..|ds| - 1], v, rate) + Worth(ds[|ds| - 1], v, rate)
  }

  predicate AllNear(vals: map<string, Validator>, ds: seq<Delegation>, v: string, rate: real) {
    forall i :: 0 <= i < |ds| && ds[i].validator == v ==> Near(GenesisCredit(vals, ds[i]), Worth(ds[i], v, rate))
  }

  /** Together the credits lie within one unit per delegation of the exact value. */
  lemma {:induction false} CreditsNearExact(vals: map<string, Validator>, ds: seq<Delegation>, v: string, rate: real)
    requires AllNear(vals, ds, v, rate)
    ensures var credits, count, exact := CreditsOf(vals, ds, v), CountOf(ds, v), ExactOf(ds, v, rate);
            credits as real <= exact <= credits as real + count as real && (count > 0 ==> exact < credits as real + count as real)
  {
    if ds != [] {
      var init, last := ds[..|ds| - 1], ds[|ds| - 1];
      assert forall i :: 0 <= i < |init| ==> init[i] == ds[i];
      CreditsNearExact(vals, init, v, rate);
    }
  }

  lemma {:induction false} ExactIsProportional(ds: seq<Delegation>, v: string, rate: real)
    ensures ExactOf(ds, v, rate) == SharesOf(ds, v) * rate
  {
    if ds != [] {
      var init, last := ds[..|ds| - 1], ds[|ds| - 1];
      ExactIsProportional(init, v, rate);
    }
  }

  lemma {:induction false} CreditsAreNear(vals: map<string, Validator>, ds: seq<Delegation>, v: string, rate: real)
    requires v in vals && vals[v].tokens >= 0.0 && vals[v].shares > 0.0 && rate == vals[v].tokens / vals[v].shares
    requires forall i :: 0 <= i < |ds| ==> ds[i].shares >= 0.0
    ensures AllNear(vals, ds, v, rate)
  {
    forall i | 0 <= i < |ds| && ds[i].validator == v ensures Near(GenesisCredit(vals, ds[i]), Worth(ds[i], v, rate)) {
      CreditBounds(ds[i].shares, vals[v], rate);
    }
  }

  lemma {:induction false} CreditsUnderRate(vals: map<string, Validator>, ds: seq<Delegation>, v: string, rate: real, tokens: real)
    requires AllNear(vals, ds, v, rate) && SharesOf(ds, v) * rate <= tokens
    ensures CreditsOf(vals, ds, v) as real <= tokens
    ensures CountOf(ds, v) > 0 && SharesOf(ds, v) * rate == tokens ==> tokens < CreditsOf(vals, ds, v) as real + CountOf(ds, v) as real
  {
    CreditsNearExact(vals, ds, v, rate);
    ExactIsProportional(ds, v, rate);
  }

  /** Credits to a validator never exceed its tokens while its delegations' shares sum to
      at most its own; when they sum to exactly that, less than one unit per delegation
      is lost to rounding. */
  lemma {:induction false} CreditsStayWithinTokens(vals: map<string, Validator>, ds: seq<Delegation>, v: string)
    requires v in vals && vals[v].tokens >= 0.0 && vals[v].shares > 0.0
    requires forall i :: 0 <= i < |ds| ==> ds[i].shares >= 0.0
    requires SharesOf(ds, v) <= vals[v].shares
    ensures CreditsOf(vals, ds, v) as real <= vals[v].tokens
    ensures SharesOf(ds, v) == vals[v].shares ==> vals[v].tokens < CreditsOf(vals, ds, v) as real + CountOf(ds, v) as real
  {
    var rate := vals[v].tokens / vals[v].shares;
    CreditsAreNear(vals, ds, v, rate);
    CreditsUnderRate(vals, ds, v, rate, vals[v].tokens);
    NoDelegationsNoShares(ds, v);
  }

  lemma {:induction false} NoDelegationsNoShares(ds: seq<Delegation>, v: string)
    ensures CountOf(ds, v) == 0 ==> SharesOf(ds, v) == 0.0
  {
    if ds != [] { NoDelegationsNoShares(ds[..|ds| - 1], v); }
  }

  /** The other way round: delegations worth at least one unit each more than the tokens
      are credited more than the tokens. */
  lemma {:induction false} ExcessIsCredited(vals: map<string, Validator>, ds: seq<Delegation>, v: string)
    requires v in vals && vals[v].tokens >= 0.0 && vals[v].shares > 0.0
    requires forall i :: 0 <= i < |ds| ==> ds[i].shares >= 0.0
    requires CountOf(ds, v) > 0
    requires SharesOf(ds, v) * (vals[v].tokens / vals[v].shares) >= vals[v].tokens + CountOf(ds, v) as real
    ensures CreditsOf(vals, ds, v) as real > vals[v].tokens
  {
    var rate := vals[v].tokens / vals[v].shares;
    CreditsAreNear(vals, ds, v, rate);
    CreditsNearExact(vals, ds, v, rate);
    ExactIsProportional(ds, v, rate);
  }

  /** The bound on the shares is needed: two delegations of all shares credit twice the tokens. */
  lemma {:induction false} ExcessSharesOverrun(v: string)
    ensures var ds := [Delegation("a", v, 1.0), Delegation("b", v, 1.0)];
            CreditsOf(map[v := Validator(10.0, 1.0)], ds, v) == 20
  {
    var vals, a, b := map[v := Validator(10.0, 1.0)], Delegation("a", v, 1.0), Delegation("b", v, 1.0);
    assert GenesisCredit(vals, a) == 10 && GenesisCredit(vals, b) == 10;
    assert [a, b][..1] == [a] && [a][..0] == [];
    assert CreditsOf(vals, [a], v) == 10;
  }

  // ----- the rows --------------------------------------------------------------------------------

  function GenesisRow(address: string, counterparty: string, amount: int, time: int, denom: string): LedgerRow {
    LedgerRow(address, counterparty, amount, 0, time, "genesis", Credit, denom, "", -1, -1, 0)
  }

  /** Two mirrored credits per delegation. */
  function CreditRows(vals: map<string, Validator>, ds: seq<Delegation>, time: int): seq<LedgerRow> {
    if ds == [] then []
    else
      var last := ds[|ds| - 1];
      var amount := GenesisCredit(vals, last);
      CreditRows(vals, ds[..|ds| - 1], time) + [GenesisRow(last.delegator, last.validator, amount, time, "ualpha.infused"),
                                                GenesisRow(last.validator, last.delegator, amount, time, "ualpha.infused")]
  }

  lemma {:induction false} CreditsAreMirrored(vals: map<string, Validator>, ds: seq<Delegation>, time: int, i: nat)
    requires i < |ds|
    ensures var rows := CreditRows(vals, ds, time);
            && |rows| == 2 * |ds|
            && rows[2 * i].address == rows[2 * i + 1].counterparty == ds[i].delegator
            && rows[2 * i].counterparty == rows[2 * i + 1].address == ds[i].validator
            && rows[2 * i].direction == rows[2 * i + 1].direction == Credit
            && rows[2 * i].amount == rows[2 * i + 1].amount == GenesisCredit(vals, ds[i])
            && rows[2 * i].denom == rows[2 * i + 1].denom == "ualpha.infused"
            && rows[2 * i].action == rows[2 * i + 1].action == "genesis"
            && rows[2 * i].height == rows[2 * i + 1].height == 0 && rows[2 * i].time == rows[2 * i + 1].time == time
  {
    var init := ds[..|ds| - 1];
    if i < |init| {
      CreditsAreMirrored(vals, init, time, i);
    } else if init != [] {
      CreditsAreMirrored(vals, init, time, 0);
    }
  }

  /** Rows as they are stored: on no transaction, numbered from `first`. */
  function Stamped(chain: string, rows: seq<LedgerRow>, first: int): (r: seq<LedgerRow>)
    ensures |r| == |rows|
    ensures forall i :: 0 <= i < |rows| ==> r[i] == rows[i].(chain := chain, tx := -1, msg := -1, eventIndex := first + i)
  {
    seq(|rows|, i requires 0 <= i < |rows| => rows[i].(chain := chain, tx := -1, msg := -1, eventIndex := first + i))
  }

  /** All sections share one counter of event indexes. */
  class Importer {
    const chain: string
    const time: int
    var ledger: seq<LedgerRow>
    var next: int

    constructor (chain: string, time: int)
      ensures this.chain == chain && this.time == time && ledger == [] && next == 0
    {
      this.chain, this.time, ledger, next := chain, time, [], 0;
    }

    method Insert(rows: seq<LedgerRow>)
      modifies this
      ensures ledger == old(ledger) + Stamped(chain, rows, old(next)) && next == old(next) + |rows|
    {
      for i := 0 to |rows|
        invariant ledger == old(ledger) + Stamped(chain, rows[..i], old(next)) && next == old(next) + i
      {
        ledger := ledger + [rows[i].(chain := chain, tx := -1, msg := -1, eventIndex := next)];
        next := next + 1;
      }
      assert rows[..|rows|] == rows;
    }

    method InsertDelegations(vals: map<string, Validator>, ds: seq<Delegation>)
      modifies this
      ensures var rows := CreditRows(vals, ds, time);
              ledger == old(ledger) + Stamped(chain, rows, old(next)) && next == old(next) + |rows|
    {
      var rows: seq<LedgerRow> := [];
      for i := 0 to |ds|
        invariant rows == CreditRows(vals, ds[..i], time)
      {
        assert ds[..i + 1][..i] == ds[..i];
        var amount := GenesisCredit(vals, ds[i]);
        rows := rows + [GenesisRow(ds[i].delegator, ds[i].validator, amount, time, "ualpha.infused"),
                        GenesisRow(ds[i].validator, ds[i].delegator, amount, time, "ualpha.infused")];
      }
      assert ds[..|ds|] == ds;
      Insert(rows);
    }
  }

  /** Whatever rows two sections produce, the shared counter keeps all identities apart. */
  lemma {:induction false} SectionsAreDistinct(chain: string, a: seq<LedgerRow>, b: seq<LedgerRow>, first: int)
    ensures Stamped(chain, a, first) + Stamped(chain, b, first + |a|) == Stamped(chain, a + b, first)
    ensures DistinctIdentities(Stamped(chain, a + b, first))
  {
    var rows := Stamped(chain, a + b, first);
    forall i, j | 0 <= i < j < |rows| ensures IdentityOf(rows[i]) != IdentityOf(rows[j]) {
      assert rows[i].eventIndex == first + i && rows[j].eventIndex == first + j;
    }
  }
}
