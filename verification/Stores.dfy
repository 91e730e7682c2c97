/** The persisted settings maps of the server. */
module Stores {
  import opened Options

  type Mac = string

  datatype Settings = Settings(
    delays: map<Mac, int>, volumes: map<Mac, int>, mutes: map<Mac, bool>, known: map<Mac, bool>)

  const NO_SETTINGS := Settings(map[], map[], map[], map[])

  predicate Knows(s: Settings, mac: Mac) {
    GetOr(s.known, mac, false)
  }
}
