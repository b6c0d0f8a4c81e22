/** What the stratum side reports to the accounting side. */
module Events {
  import opened Wrappers
  import opened Validate

  datatype AuxPayoutInfo = AuxPayoutInfo(coin: string, address: string, fallback: bool)

  datatype PoolEvent =
    | Authorized(session: nat, worker: string, address: string, fallback: bool, aux: seq<AuxPayoutInfo>)
    | Disconnected(session: nat, workers: seq<string>)
    | Share(session: nat, worker: string, coin: string, jobDifficulty: real, shareDifficulty: real,
            rejected: Option<RejectReason>)
    | DifficultyChanged(session: nat, difficulty: real)
}
