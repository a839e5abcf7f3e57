/**
 * The stored account records and the duplicate checks that guard creating
 * and editing them.  Two records clash when they agree on both username and
 * website; the password never takes part.
 */
module Accounts {

  /** One stored record, as the account screens fetch and submit it. */
  datatype Account = Account(website: string, username: string, password: string)

  /** Two records name the same login: same username and same website, compared exactly. */
  predicate SameKey(a: Account, b: Account) {
    a.username == b.username && a.website == b.website
  }

  /**
   * The create-time check: every stored record differs from the candidate
   * in its username or in its website, scanned front to back like `every`.
   */
  function NoDuplicate(stored: seq<Account>, data: Account): (ok: bool)
    ensures ok <==> forall i :: 0 <= i < |stored| ==> !SameKey(stored[i], data)
  {
    if stored == [] then true
    else
      (stored[0].username != data.username || stored[0].website != data.website)
      && NoDuplicate(stored[1..], data)
  }

  /**
   * The edit-time check: like NoDuplicate, but the record at `index` (the one
   * being edited) is accepted whatever it holds.
   */
  function NoDuplicateExcept(stored: seq<Account>, index: int, data: Account): (ok: bool)
    ensures ok <==> forall j :: 0 <= j < |stored| && j != index ==> !SameKey(stored[j], data)
  {
    if stored == [] then true
    else
      var last := |stored| - 1;
      NoDuplicateExcept(stored[..last], index, data)
      && (last == index || stored[last].username != data.username || stored[last].website != data.website)
  }

  /** No two stored records name the same login. */
  predicate Unique(stored: seq<Account>) {
    forall i, j :: 0 <= i < j < |stored| ==> !SameKey(stored[i], stored[j])
  }

  /** Nothing stored yet: every candidate passes. */
  lemma EmptyStoreAccepts(data: Account, index: int)
    ensures NoDuplicate([], data) && NoDuplicateExcept([], index, data)
  {
  }

  /** The password is ignored by both checks. */
  lemma PasswordIgnored(stored: seq<Account>, index: int, data: Account, password: string)
    ensures NoDuplicate(stored, data.(password := password)) == NoDuplicate(stored, data)
    ensures NoDuplicateExcept(stored, index, data.(password := password)) == NoDuplicateExcept(stored, index, data)
  {
  }

  /** A candidate that passes the create-time check also passes the edit-time one, for any index. */
  lemma NoDuplicateExceptWeaker(stored: seq<Account>, index: int, data: Account)
    ensures NoDuplicate(stored, data) ==> NoDuplicateExcept(stored, index, data)
  {
  }

  /** An index that names no stored record excludes nothing: the edit-time check is the create-time one. */
  lemma ExceptOutsideIsPlain(stored: seq<Account>, index: int, data: Account)
    requires index < 0 || index >= |stored|
    ensures NoDuplicateExcept(stored, index, data) == NoDuplicate(stored, data)
  {
  }

  /**
   * Saving a record whose username and website are unchanged (only its
   * password, or nothing, edited) is never rejected, provided the store held
   * no duplicates to begin with.
   */
  lemma OwnRecordNeverDuplicate(stored: seq<Account>, index: int, data: Account)
    requires Unique(stored)
    requires 0 <= index < |stored| && SameKey(stored[index], data)
    ensures NoDuplicateExcept(stored, index, data)
  {
  }

  /**
   * What the create-time check buys: for a duplicate-free store, appending
   * the candidate keeps it duplicate-free exactly when the check passes.
   */
  lemma AppendKeepsUnique(stored: seq<Account>, data: Account)
    requires Unique(stored)
    ensures Unique(stored + [data]) <==> NoDuplicate(stored, data)
  {
    var s := stored + [data];
    if NoDuplicate(stored, data) {
      forall i, j | 0 <= i < j < |s|
        ensures !SameKey(s[i], s[j])
      {
        if j < |stored| {
          assert s[i] == stored[i] && s[j] == stored[j];
        } else {
          assert s[i] == stored[i] && s[j] == data;
        }
      }
    } else {
      var i :| 0 <= i < |stored| && SameKey(stored[i], data);
      assert s[i] == stored[i] && s[|stored|] == data;
    }
  }

  /**
   * What the edit-time check buys: for a duplicate-free store, putting the
   * candidate at the edited index keeps it duplicate-free exactly when the
   * check passes.
   */
  lemma ReplaceKeepsUnique(stored: seq<Account>, index: int, data: Account)
    requires Unique(stored) && 0 <= index < |stored|
    ensures Unique(stored[index := data]) <==> NoDuplicateExcept(stored, index, data)
  {
    var s := stored[index := data];
    if NoDuplicateExcept(stored, index, data) {
      forall i, j | 0 <= i < j < |s|
        ensures !SameKey(s[i], s[j])
      {
        if i == index {
          assert !SameKey(stored[j], data);
        } else if j == index {
          assert !SameKey(stored[i], data);
        } else {
          assert s[i] == stored[i] && s[j] == stored[j];
        }
      }
    } else {
      var j :| 0 <= j < |stored| && j != index && SameKey(stored[j], data);
      assert s[j] == stored[j] && s[index] == data;
      if j < index {
        assert SameKey(s[j], s[index]);
      } else {
        assert SameKey(s[index], s[j]);
      }
    }
  }
}
