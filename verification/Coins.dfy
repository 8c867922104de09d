/** Coin sets as bank events write them (bank/coins.go). */
module Coins {
  import opened Decimal
  import opened EventOrder
  import opened Positions

  datatype Coin = Coin(amount: string, denom: string)

  /** One past the largest 256-bit integer. */
  const SDK_LIMIT := 0x1_0000000000000000_0000000000000000_0000000000000000_0000000000000000

  // ----- text ---------------------------------------------------------------------

  predicate IsLetter(c: char) {
    'a' <= c <= 'z' || 'A' <= c <= 'Z'
  }

  predicate IsDenomChar(c: char) {
    IsLetter(c) || '0' <= c <= '9' || c in "/:._-"
  }

  /** `[a-zA-Z][a-zA-Z0-9/:._-]{2,127}` */
  predicate IsDenom(s: string) {
    3 <= |s| <= 128 && IsLetter(s[0]) && forall i :: 0 <= i < |s| ==> IsDenomChar(s[i])
  }

  function Split(s: string, separator: char): (parts: seq<string>)
    ensures |parts| > 0
  {
    if s == "" then [""]
    else if s[0] == separator then [""] + Split(s[1..], separator)
    else var rest := Split(s[1..], separator); [[s[0]] + rest[0]] + rest[1..]
  }

  lemma {:induction false} SplitUnbroken(s: string, separator: char)
    requires separator !in s
    ensures Split(s, separator) == [s]
  {
    if s != "" {
      assert separator !in s[1..];
      SplitUnbroken(s[1..], separator);
      assert [s[0]] + s[1..] == s;
    }
  }

  function LeadingDigits(s: string): (n: nat)
    ensures n <= |s| && IsDigits(s[..n])
    ensures n < |s| ==> !('0' <= s[n] <= '9')
  {
    if s == "" || !('0' <= s[0] <= '9') then 0
    else
      var m := LeadingDigits(s[1..]);
      assert s[..m + 1] == [s[0]] + s[1..][..m];
      m + 1
  }

  /** The two groups of the coin pattern; a denomination starts with a letter, so
      the digits are the whole leading run. */
  function MatchCoin(s: string): Option<Coin> {
    var n := LeadingDigits(s);
    if n > 0 && IsDenom(s[n..]) then Some(Coin(s[..n], s[n..])) else None
  }

  lemma {:induction false} DigitsThenDenom(digits: string, denom: string)
    requires IsDigits(digits) && IsDenom(denom)
    ensures LeadingDigits(digits + denom) == |digits|
  {
    if digits == "" {
      assert digits + denom == denom;
    } else {
      assert (digits + denom)[1..] == digits[1..] + denom;
      DigitsThenDenom(digits[1..], denom);
    }
  }

  // ----- what a coin set means --------------------------------------------------------

  predicate IsCoin(part: string) {
    MatchCoin(part).Some? && DigitsValue(MatchCoin(part).value.amount) < SDK_LIMIT
  }

  function DenomOf(part: string): string {
    if MatchCoin(part).Some? then MatchCoin(part).value.denom else ""
  }

  function Denoms(parts: seq<string>): set<string> {
    if parts == [] then {} else Denoms(parts[..|parts| - 1]) + {DenomOf(parts[|parts| - 1])}
  }

  /** Every part is a coin and no denomination is written twice. */
  predicate AreCoins(parts: seq<string>) {
    parts == [] ||
    (var init, last := parts[..|parts| - 1], parts[|parts| - 1];
     AreCoins(init) && IsCoin(last) && DenomOf(last) !in Denoms(init))
  }

  lemma {:induction false} PrefixAreCoins(parts: seq<string>, n: nat)
    requires n <= |parts| && AreCoins(parts)
    ensures AreCoins(parts[..n])
  {
    if n == |parts| {
      assert parts[..n] == parts;
    } else {
      PrefixAreCoins(parts[..|parts| - 1], n);
      assert parts[..|parts| - 1][..n] == parts[..n];
    }
  }

  function ValueOf(part: string): nat {
    if MatchCoin(part).Some? then DigitsValue(MatchCoin(part).value.amount) else 0
  }

  /** The nonzero coins in order, with normalised amounts. */
  function Nonzero(parts: seq<string>): seq<Coin> {
    if parts == [] then []
    else
      var rest, last := Nonzero(parts[..|parts| - 1]), parts[|parts| - 1];
      if ValueOf(last) == 0 then rest else rest + [Coin(Text(ValueOf(last)), DenomOf(last))]
  }

  function Parsed(s: string): Result<seq<Coin>> {
    if s == "" then Ok([])
    else if AreCoins(Split(s, ',')) then Ok(Nonzero(Split(s, ',')))
    else Err
  }

  /** What reading one more part adds. */
  lemma {:induction false} NextPart(parts: seq<string>, i: nat)
    requires i < |parts|
    ensures AreCoins(parts[..i + 1]) <==> AreCoins(parts[..i]) && IsCoin(parts[i]) && DenomOf(parts[i]) !in Denoms(parts[..i])
    ensures Denoms(parts[..i + 1]) == Denoms(parts[..i]) + {DenomOf(parts[i])}
    ensures Nonzero(parts[..i + 1]) == Nonzero(parts[..i])
              + if ValueOf(parts[i]) == 0 then [] else [Coin(Text(ValueOf(parts[i])), DenomOf(parts[i]))]
    ensures AreCoins(parts) ==> AreCoins(parts[..i + 1])
  {
    assert parts[..i + 1][..i] == parts[..i];
    if AreCoins(parts) { PrefixAreCoins(parts, i + 1); }
  }

  method ParseCoins(s: string) returns (r: Result<seq<Coin>>)
    ensures r == Parsed(s)
  {
    if s == "" { return Ok([]); }
    var parts := Split(s, ',');
    var seen: set<string> := {};
    var coins: seq<Coin> := [];
    for i := 0 to |parts|
      invariant AreCoins(parts[..i]) && coins == Nonzero(parts[..i]) && seen == Denoms(parts[..i])
    {
      NextPart(parts, i);
      var m := MatchCoin(parts[i]);
      if m.None? { return Err; }
      if m.value.denom in seen { return Err; }
      seen := seen + {m.value.denom};
      var n := DigitsValue(m.value.amount);
      if n >= SDK_LIMIT { return Err; }
      if n == 0 { continue; }
      coins := coins + [Coin(Text(n), m.value.denom)];
    }
    assert parts[..|parts|] == parts;
    r := Ok(coins);
  }

  // ----- parsing undoes printing ------------------------------------------------------

  /** A normalised coin: a positive canonical amount and a valid denomination. */
  predicate IsNormal(c: Coin) {
    && IsNatural(c.amount) && c.amount[0] != '0' && DigitsValue(c.amount) < SDK_LIMIT
    && Text(DigitsValue(c.amount)) == c.amount
    && IsDenom(c.denom)
  }

  /** Printing a normal coin and parsing it again gives exactly that coin. */
  lemma {:induction false} PrintedCoinParses(c: Coin)
    requires IsNormal(c)
    ensures Parsed(c.amount + c.denom) == Ok([c])
  {
    var s := c.amount + c.denom;
    assert ',' !in s;
    SplitUnbroken(s, ',');
    DigitsThenDenom(c.amount, c.denom);
    assert s[..|c.amount|] == c.amount && s[|c.amount|..] == c.denom;
    assert MatchCoin(s) == Some(c);
    assert Text(0) == "0";
    SingleCoin(s, c);
  }

  lemma {:induction false} SingleCoin(part: string, c: Coin)
    requires MatchCoin(part) == Some(c) && 0 < DigitsValue(c.amount) < SDK_LIMIT
    ensures AreCoins([part])
    ensures Nonzero([part]) == [Coin(Text(DigitsValue(c.amount)), c.denom)]
  {
    assert [part][..0] == [];
    assert Nonzero([part][..0]) == [] && AreCoins([part][..0]) && Denoms([part][..0]) == {};
  }

  predicate DistinctDenoms(coins: seq<Coin>) {
    forall i, j :: 0 <= i < j < |coins| ==> coins[i].denom != coins[j].denom
  }

  lemma {:induction false} LastCoinIsNormal(part: string)
    requires IsCoin(part) && ValueOf(part) != 0
    ensures IsNormal(Coin(Text(ValueOf(part)), DenomOf(part)))
  {
    TextReads(ValueOf(part));
  }

  lemma {:induction false} NonzeroAreNormal(parts: seq<string>)
    requires AreCoins(parts)
    ensures forall c :: c in Nonzero(parts) ==> IsNormal(c) && c.denom in Denoms(parts)
  {
    if parts != [] {
      var last := parts[|parts| - 1];
      NonzeroAreNormal(parts[..|parts| - 1]);
      if ValueOf(last) != 0 { LastCoinIsNormal(last); }
    }
  }

  lemma {:induction false} NonzeroAreDistinct(parts: seq<string>)
    requires AreCoins(parts)
    ensures DistinctDenoms(Nonzero(parts))
  {
    if parts != [] {
      var init := parts[..|parts| - 1];
      NonzeroAreDistinct(init);
      NonzeroAreNormal(init);
      forall i | 0 <= i < |Nonzero(init)| ensures Nonzero(init)[i].denom in Denoms(init) {
        assert Nonzero(init)[i] in Nonzero(init);
      }
    }
  }

  /** Parsed coins have positive amounts below 2^256 and distinct denominations,
      and each of them survives printing and parsing alone. */
  lemma {:induction false} ParsedCoinsReparse(s: string)
    requires Parsed(s).Ok?
    ensures var coins := Parsed(s).value;
            && DistinctDenoms(coins)
            && (forall c :: c in coins ==> IsNormal(c) && Parsed(c.amount + c.denom) == Ok([c]))
  {
    if s != "" {
      NonzeroAreNormal(Split(s, ','));
      NonzeroAreDistinct(Split(s, ','));
    }
    forall c | c in Parsed(s).value ensures Parsed(c.amount + c.denom) == Ok([c]) {
      PrintedCoinParses(c);
    }
  }

  // ----- the amount of an event ---------------------------------------------------------

  predicate DistinctKeys(attributes: seq<Attribute>) {
    forall i, j :: 0 <= i < j < |attributes| ==> attributes[i].key != attributes[j].key
  }

  function EventCoins(ev: Event): Result<seq<Coin>> {
    if DistinctKeys(ev.attributes) && Lookup(ev.attributes, "amount").Some?
    then Parsed(Lookup(ev.attributes, "amount").value)
    else Err
  }

  method ReadEventCoins(ev: Event) returns (r: Result<seq<Coin>>)
    ensures r == EventCoins(ev)
  {
    var seen: set<string> := {};
    var amount := "";
    for i := 0 to |ev.attributes|
      invariant DistinctKeys(ev.attributes[..i])
      invariant forall key :: key in seen <==> exists j :: 0 <= j < i && ev.attributes[j].key == key
      invariant "amount" in seen ==> Lookup(ev.attributes[..i], "amount") == Some(amount)
      invariant "amount" in seen <==> Lookup(ev.attributes[..i], "amount").Some?
    {
      var a := ev.attributes[i];
      assert ev.attributes[..i + 1] == ev.attributes[..i] + [a];
      LookupAppend(ev.attributes[..i], a, "amount");
      if a.key in seen { return Err; }
      seen := seen + {a.key};
      if a.key == "amount" { amount := a.value; }
    }
    assert ev.attributes[..|ev.attributes|] == ev.attributes;
    if "amount" !in seen { return Err; }
    r := ParseCoins(amount);
  }

  function FindAttr(ev: Event, key: string): string {
    match Lookup(ev.attributes, key)
    case Some(value) => value
    case None => ""
  }

  /** The single normalised coin of an event, as the handlers read it. */
  function FindAmount(ev: Event): Option<Coin> {
    match Parsed(FindAttr(ev, "amount"))
    case Ok(coins) => if |coins| == 1 then Some(coins[0]) else None
    case Err => None
  }

  function WithAmount(attributes: seq<Attribute>, text: string): (r: seq<Attribute>)
    ensures |r| == |attributes|
  {
    if attributes == [] then []
    else [if attributes[0].key == "amount" then Attribute("amount", text) else attributes[0]] + WithAmount(attributes[1..], text)
  }

  /** The event narrowed to one of its coins. */
  function Narrow(ev: Event, c: Coin): Event {
    ev.(attributes := WithAmount(ev.attributes, c.amount + c.denom))
  }

  lemma {:induction false} NarrowLookup(attributes: seq<Attribute>, text: string, key: string)
    ensures Lookup(WithAmount(attributes, text), key) ==
              if key == "amount" && Lookup(attributes, key).Some? then Some(text) else Lookup(attributes, key)
  {
    if attributes != [] {
      NarrowLookup(attributes[1..], text, key);
      assert WithAmount(attributes, text)[1..] == WithAmount(attributes[1..], text);
    }
  }

  /** After narrowing, a handler always finds its coin, so the exits it has for a
      missing amount are never taken; no other attribute changes. */
  lemma {:induction false} NarrowedAmountIsFound(ev: Event, c: Coin)
    requires EventCoins(ev).Ok? && c in EventCoins(ev).value
    ensures FindAmount(Narrow(ev, c)) == Some(c)
    ensures forall key :: key != "amount" ==> FindAttr(Narrow(ev, c), key) == FindAttr(ev, key)
  {
    var text := c.amount + c.denom;
    NarrowLookup(ev.attributes, text, "amount");
    assert FindAttr(Narrow(ev, c), "amount") == text;
    ParsedCoinsReparse(FindAttr(ev, "amount"));
    forall key | key != "amount" ensures FindAttr(Narrow(ev, c), key) == FindAttr(ev, key) {
      NarrowLookup(ev.attributes, text, key);
    }
  }

  /** Does the event's coin set hold exactly this coin? */
  method ContainsCoin(ev: Event, c: Coin) returns (r: Result<bool>)
    ensures r == match EventCoins(ev) case Ok(coins) => Ok(c in coins) case Err => Err
  {
    var coins := ReadEventCoins(ev);
    if coins.Err? { return Err; }
    for i := 0 to |coins.value|
      invariant c !in coins.value[..i]
    {
      if coins.value[i] == c { return Ok(true); }
    }
    r := Ok(false);
  }
}
