/** What every part of the replication model talks about: secondaries, out-paths and who holds what. */
module Cluster {

  type Sid = string
  type Outpath = string

  /** `dict[outpath, set[secondary_id]]`. */
  type Aggregate = map<Outpath, set<Sid>>

  function HoldersIn(m: Aggregate, o: Outpath): set<Sid> {
    if o in m then m[o] else {}
  }
}
