/**
 * The token lists of the two swap families. Contract addresses are opaque: a
 * token stands for its address, and distinct tokens have distinct addresses.
 */
module Tokens {

  /** The tokens of the memecoin trading contest, in the order of the scripts' `tokens` list. */
  datatype ContestToken = SUSDT | SOMINI | SOMSOM | SOMI

  const ContestTokens: seq<ContestToken> := [SUSDT, SOMINI, SOMSOM, SOMI]

  /** `tokens.filter(t => t.name !== 'SUSDT')`, in list order. */
  const NonSusdtTokens: seq<ContestToken> := [SOMINI, SOMSOM, SOMI]

  /** The tokens of the PONG/PING pool, in the order of the scripts' `tokens` list. */
  datatype PoolToken = PONG | PING

  const PoolTokens: seq<PoolToken> := [PONG, PING]
}
