/** The object identifiers that chain payloads are checked against. */
module Identifiers {
  import opened Decimal

  /** `[1-9][0-9]*` */
  predicate IsIndex(s: string) {
    s != "" && '1' <= s[0] <= '9' && forall i :: 0 <= i < |s| ==> '0' <= s[i] <= '9'
  }

  /** The identifiers of guild, player, reactor and struct number n. */
  lemma {:induction false} NumberedIdentifiers(n: nat)
    requires n > 0
    ensures IsOwner("0-" + Text(n)) && IsOwner("1-" + Text(n)) && !IsOwner("3-" + Text(n)) && !IsOwner("5-" + Text(n))
    ensures IsReactor("3-" + Text(n)) && !IsReactor("0-" + Text(n)) && !IsReactor("1-" + Text(n)) && !IsReactor("5-" + Text(n))
    ensures IsInfusionDestination("3-" + Text(n)) && IsInfusionDestination("5-" + Text(n))
    ensures !IsInfusionDestination("0-" + Text(n)) && !IsInfusionDestination("1-" + Text(n))
  {
    TextReads(n);
    forall kind | kind in {"0-", "1-", "3-", "5-"} ensures (kind + Text(n))[2..] == Text(n) { }
  }

  predicate HasKind(s: string, kinds: string) {
    |s| > 2 && s[0] in kinds && s[1] == '-' && IsIndex(s[2..])
  }

  /** A guild ("0-n") or a player ("1-n"). */
  predicate IsOwner(s: string) {
    HasKind(s, "01")
  }

  predicate IsReactor(s: string) {
    HasKind(s, "3")
  }

  /** The two kinds of object that can be infused: reactors and structs. */
  predicate IsInfusionDestination(s: string) {
    HasKind(s, "35")
  }
}
