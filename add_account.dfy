/**
 * The "Add new Account" modal: three form fields, a warning line and the
 * submit step that normalises the website, runs the duplicate check against
 * the fetched records and either asks for the record to be created or warns.
 */
module AddAccount {
  import opened App
  import opened Accounts

  /** How one submit of the add form ends. */
  datatype Outcome =
    | NoHostname             // the website has no hostname: reading the null match throws
    | Duplicate(data: Account) // a fetched record has the same username and website
    | Created(data: Account)   // createAccount was asked to store data

  /**
   * The decision the submit step takes for the form values and the records
   * fetched from the controller.
   */
  function DecideCreate(website: string, username: string, password: string, stored: seq<Account>): (o: Outcome)
    ensures o.NoHostname? <==> Hostname(website).None?
    ensures !o.NoHostname? ==>
      && Hostname(website) == Some(o.data.website)
      && o.data.username == username && o.data.password == password
    ensures o.Duplicate? <==> !o.NoHostname? && exists i :: 0 <= i < |stored| && SameKey(stored[i], o.data)
  {
    match Hostname(website)
    case None => NoHostname
    case Some(host) =>
      var data := Account(host, username, password);
      if NoDuplicate(stored, data) then Created(data) else Duplicate(data)
  }

  /** With an empty store every submit whose website has a hostname is accepted. */
  lemma EmptyStoreCreates(website: string, username: string, password: string)
    requires Hostname(website).Some?
    ensures DecideCreate(website, username, password, []).Created?
  {
  }

  /**
   * A record that is created has the three fields the submit button demanded,
   * as long as the button was enabled when the form was submitted.
   */
  lemma CreatedRecordComplete(website: string, username: string, password: string, stored: seq<Account>)
    requires website != [] && username != [] && password != []
    ensures DecideCreate(website, username, password, stored).Created? ==>
      var data := DecideCreate(website, username, password, stored).data;
      data.website != [] && data.username != [] && data.password != []
  {
  }

  /** Form state of the modal: the inputs, the warning line and the outline on the fields. */
  class AccountModal {
    var newUsername: string
    var newPassword: string
    var newWebsite: string
    /** The "already exists" line is visible (its `invisible` class removed). */
    var warningShown: bool
    /** The fields carry the red outline instead of the focus ring. */
    var outlined: bool
    /** The records createAccount was asked to store, in order. */
    var created: seq<Account>

    constructor()
      ensures newUsername == [] && newPassword == [] && newWebsite == []
      ensures !warningShown && !outlined && created == []
    {
      newUsername := [];
      newPassword := [];
      newWebsite := [];
      warningShown := false;
      outlined := false;
      created := [];
    }

    /** The submit button is enabled: none of the three inputs is empty. */
    function SubmitEnabled(): (enabled: bool)
      reads this
      ensures enabled <==> |newUsername| > 0 && |newPassword| > 0 && |newWebsite| > 0
    {
      !(newUsername == [] || newPassword == [] || newWebsite == [])
    }

    method SetWebsite(value: string)
      modifies this
      ensures newWebsite == value
      ensures newUsername == old(newUsername) && newPassword == old(newPassword)
      ensures warningShown == old(warningShown) && outlined == old(outlined) && created == old(created)
    {
      newWebsite := value;
    }

    method SetUsername(value: string)
      modifies this
      ensures newUsername == value
      ensures newWebsite == old(newWebsite) && newPassword == old(newPassword)
      ensures warningShown == old(warningShown) && outlined == old(outlined) && created == old(created)
    {
      newUsername := value;
    }

    method SetPassword(value: string)
      modifies this
      ensures newPassword == value
      ensures newWebsite == old(newWebsite) && newUsername == old(newUsername)
      ensures warningShown == old(warningShown) && outlined == old(outlined) && created == old(created)
    {
      newPassword := value;
    }

    /** Clicking a field hides the warning and takes the red outline off. */
    method ChangeOutline()
      modifies this
      ensures !warningShown && !outlined
      ensures newWebsite == old(newWebsite) && newUsername == old(newUsername) && newPassword == old(newPassword)
      ensures created == old(created)
    {
      outlined := false;
      warningShown := false;
    }

    /**
     * Submitting the form.  Accepted: createAccount is asked to store the
     * record and the inputs are cleared.  Duplicate: only the warning and the
     * outline change.  No hostname: the handler throws before anything happens.
     */
    method SubmitData(stored: seq<Account>) returns (o: Outcome)
      modifies this
      ensures o == DecideCreate(old(newWebsite), old(newUsername), old(newPassword), stored)
      ensures o.Created? ==>
        && created == old(created) + [o.data]
        && newUsername == [] && newPassword == [] && newWebsite == []
        && warningShown == old(warningShown) && outlined == old(outlined)
      ensures o.Duplicate? ==>
        && created == old(created)
        && newWebsite == old(newWebsite) && newUsername == old(newUsername) && newPassword == old(newPassword)
        && warningShown && outlined
      ensures o.NoHostname? ==>
        && created == old(created)
        && newWebsite == old(newWebsite) && newUsername == old(newUsername) && newPassword == old(newPassword)
        && warningShown == old(warningShown) && outlined == old(outlined)
      ensures o.Created? ==> !SubmitEnabled()
    {
      var host := Hostname(newWebsite);
      if host.None? {
        return NoHostname;
      }
      var data := Account(host.value, newUsername, newPassword);
      if NoDuplicate(stored, data) {
        created := created + [data];
        newUsername := [];
        newPassword := [];
        newWebsite := [];
        o := Created(data);
      } else {
        outlined := true;
        warningShown := true;
        o := Duplicate(data);
      }
    }
  }
}
