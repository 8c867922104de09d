/** The v0.22 upgrade of the test network (protocol/): its block, and whether it is active. */
module Protocol {

  const UPGRADE_CHAIN := "structstestnet-111"
  const UPGRADE_HEIGHT := 3353000

  predicate Active(chain: string, height: int) {
    chain == UPGRADE_CHAIN && height >= UPGRADE_HEIGHT
  }
}
