/** Per-user storage quotas, in the 64-bit arithmetic of the enforcer. */
module Quotas {
  import opened Wrappers
  import opened Decimal

  datatype Policy = Policy(limit: int, overrides: map<string, int>)

  datatype QuotaError = Exceeded | ReadFailed

  function Limit(p: Policy, account: string): int
  {
    if account in p.overrides then p.overrides[account] else p.limit
  }

  // `used` is what the store reports: None when the usage cannot be read.
  function Check(p: Policy, account: string, used: Option<int>, addBytes: int): Option<QuotaError>
  {
    if Limit(p, account) <= 0 then None
    else if used.None? then Some(ReadFailed)
    else if Wrap64(used.value + addBytes) > Limit(p, account) then Some(Exceeded)
    else None
  }

  // With a positive limit, the account's own or else the default, the check
  // admits exactly the uploads that fit if and only if usage plus upload stays
  // within 64 bits; beyond that the sum wraps below the limit.
  lemma CheckExactly(p: Policy, account: string, used: int, addBytes: int)
    requires 0 <= used <= MAX_INT64 && 0 < addBytes <= MAX_INT64
    requires Limit(p, account) <= MAX_INT64
    ensures var limit := if account in p.overrides then p.overrides[account] else p.limit;
            (Check(p, account, Some(used), addBytes).None? <==> limit <= 0 || used + addBytes <= limit)
            <==> limit <= 0 || used + addBytes <= MAX_INT64
    ensures Check(p, account, None, addBytes).None? <==> Limit(p, account) <= 0
  {
  }
}
