/**
 * Scenarios that run the account screens' decisions on worked hostname
 * inputs: what a user sees when the same login is entered twice in
 * different spellings, or when an untouched record is saved again.
 */
module Scenarios {
  import opened App
  import opened Accounts
  import AddAccount
  import AccountInfo
  import HostnameExamples

  /**
   * A full URL is stored under its hostname, and a second submit naming the
   * bare host with the same username is then refused, whatever its password.
   */
  lemma FullUrlThenBareHost()
    ensures AddAccount.DecideCreate("https://www.example.com/login", "alice", "p1", [])
      == AddAccount.Created(Account("example.com", "alice", "p1"))
    ensures AddAccount.DecideCreate("example.com", "alice", "p2", [Account("example.com", "alice", "p1")])
      == AddAccount.Duplicate(Account("example.com", "alice", "p2"))
  {
    HostnameExamples.FullUrl();
    HostnameExamples.PlainHost();
    assert SameKey(Account("example.com", "alice", "p1"), Account("example.com", "alice", "p2"));
  }

  /**
   * Normalisation is not idempotent, so saving a record whose stored website
   * still has a `www.` left can be refused although nothing was edited: here
   * "www.x" (stored from "www.www.x") normalises to "x", which the other
   * record already holds for the same username.
   */
  lemma UnchangedSaveRefused()
    ensures Unique([Account("www.x", "alice", "p"), Account("x", "alice", "q")])
    ensures AccountInfo.DecideUpdate("www.x", "alice", "p", [Account("www.x", "alice", "p"), Account("x", "alice", "q")], 0)
      == AccountInfo.Duplicate(Account("x", "alice", "p"))
  {
    HostnameExamples.WwwNotIdempotent();
    var stored := [Account("www.x", "alice", "p"), Account("x", "alice", "q")];
    assert SameKey(stored[1], Account("x", "alice", "p"));
  }
}
