/** What one block invalidates (staking/store.go): addresses, validators whose other
    delegators may be touched, or every address with exposure. */
module StakingChanges {

  datatype Changes = Changes(addresses: seq<string>, validators: seq<string>, allExposed: bool) {
    function Then(more: Changes): Changes {
      Changes(addresses + more.addresses, validators + more.validators, allExposed || more.allExposed)
    }
  }

  const NONE := Changes([], [], false)
}
