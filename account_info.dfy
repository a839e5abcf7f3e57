/**
 * The expanded card of one stored account: its three inputs, the
 * Edit Account / Save Changes button and the save step that normalises the
 * website and checks the edited record against every other stored record
 * before handing it on.  Also the show/hide toggle of the password input.
 */
module AccountInfo {
  import opened App
  import opened Accounts

  const EditLabel: string := "Edit Account"
  const SaveLabel: string := "Save Changes"

  /** How one save of an edited record ends. */
  datatype SaveOutcome =
    | NoHostname             // the website has no hostname: reading the null match throws
    | Duplicate(data: Account) // another stored record has the same username and website
    | Saved(data: Account)     // saveChanges and updateAccount were asked to store data

  /** The calls the card makes into code outside it, in the order made. */
  datatype Call =
    | SaveChanges(data: Account)
    | UpdateAccount(index: int, data: Account)
    | ToggleEditing  // the edit context's own toggle, whose effect lies outside the card

  /** A log of calls toggled the edit context an even number of times. */
  function EvenToggles(calls: seq<Call>): (even: bool)
    ensures (forall k :: 0 <= k < |calls| ==> calls[k] != ToggleEditing) ==> even
  {
    if calls == [] then true
    else
      var before := EvenToggles(calls[..|calls| - 1]);
      if calls[|calls| - 1] == ToggleEditing then !before else before
  }

  /** Logging one more call flips the parity exactly when that call is a toggle. */
  lemma EvenTogglesAppend(calls: seq<Call>, c: Call)
    ensures EvenToggles(calls + [c]) == (if c == ToggleEditing then !EvenToggles(calls) else EvenToggles(calls))
  {
    assert (calls + [c])[..|calls|] == calls;
  }

  /** An accepted save logs exactly one toggle. */
  lemma EvenTogglesSaved(calls: seq<Call>, index: int, data: Account)
    ensures EvenToggles(calls + [SaveChanges(data), UpdateAccount(index, data), ToggleEditing]) == !EvenToggles(calls)
  {
    var once := calls + [SaveChanges(data)];
    var twice := once + [UpdateAccount(index, data)];
    EvenTogglesAppend(calls, SaveChanges(data));
    EvenTogglesAppend(once, UpdateAccount(index, data));
    EvenTogglesAppend(twice, ToggleEditing);
    assert twice + [ToggleEditing] == calls + [SaveChanges(data), UpdateAccount(index, data), ToggleEditing];
  }

  /**
   * The decision the save step takes for the edited values of the record at
   * `index` and the records fetched from the controller.
   */
  function DecideUpdate(website: string, username: string, password: string, stored: seq<Account>, index: int): (o: SaveOutcome)
    ensures o.NoHostname? <==> Hostname(website).None?
    ensures !o.NoHostname? ==>
      && Hostname(website) == Some(o.data.website)
      && o.data.username == username && o.data.password == password
    ensures o.Duplicate? <==>
      !o.NoHostname? && exists j :: 0 <= j < |stored| && j != index && SameKey(stored[j], o.data)
  {
    match Hostname(website)
    case None => NoHostname
    case Some(host) =>
      var data := Account(host, username, password);
      if NoDuplicateExcept(stored, index, data) then Saved(data) else Duplicate(data)
  }

  /**
   * A record that is saved has the three fields the Edit/Save button
   * demanded, as long as the button was enabled when it was pressed.
   */
  lemma SavedRecordComplete(website: string, username: string, password: string, stored: seq<Account>, index: int)
    requires website != [] && username != [] && password != []
    ensures DecideUpdate(website, username, password, stored, index).Saved? ==>
      var data := DecideUpdate(website, username, password, stored, index).data;
      data.website != [] && data.username != [] && data.password != []
  {
  }

  /**
   * Saving the record at `index` with its username and its normalised website
   * unchanged is never refused, whatever the password, when the store held no
   * duplicates.
   */
  lemma SameKeySaves(website: string, username: string, password: string, stored: seq<Account>, index: int)
    requires Unique(stored) && 0 <= index < |stored|
    requires Hostname(website) == Some(stored[index].website) && username == stored[index].username
    ensures DecideUpdate(website, username, password, stored, index).Saved?
  {
  }

  /** The state of one account card that the save logic reads and writes. */
  class CollapsibleInfo {
    /** Position of the record in the fetched list. */
    const accountIndex: int
    var website: string
    var username: string
    var password: string
    var buttonText: string
    /** The "already exists" line is visible (its `hidden` class removed). */
    var warningShown: bool
    /** The inputs carry the red outline instead of the focus ring. */
    var outlined: bool
    /** Calls made to saveChanges, updateAccount and toggleEditing, in order. */
    var calls: seq<Call>

    /**
     * The label says Edit exactly when the card has toggled the edit context
     * an even number of times, and says nothing else.
     */
    predicate Valid()
      reads this
    {
      && (buttonText == EditLabel || buttonText == SaveLabel)
      && (buttonText == EditLabel <==> EvenToggles(calls))
    }

    constructor(index: int, website0: string, username0: string, password0: string)
      ensures Valid()
      ensures accountIndex == index
      ensures website == website0 && username == username0 && password == password0
      ensures buttonText == EditLabel
      ensures !warningShown && !outlined && calls == []
    {
      accountIndex := index;
      website := website0;
      username := username0;
      password := password0;
      buttonText := EditLabel;
      warningShown := false;
      outlined := false;
      calls := [];
    }

    /** The Edit/Save button is enabled: none of the three inputs is empty. */
    function EditEnabled(): (enabled: bool)
      reads this
      ensures enabled <==> |username| > 0 && |password| > 0 && |website| > 0
    {
      !(username == [] || password == [] || website == [])
    }

    /** Hides the warning and takes the red outline off the inputs. */
    method RemoveWarning()
      modifies this
      ensures !warningShown && !outlined
      ensures website == old(website) && username == old(username) && password == old(password)
      ensures buttonText == old(buttonText) && calls == old(calls)
    {
      outlined := false;
      warningShown := false;
    }

    /** Typing in the website input: the warning goes, then the value changes. */
    method SetWebsite(value: string)
      modifies this
      ensures website == value && !warningShown && !outlined
      ensures username == old(username) && password == old(password)
      ensures buttonText == old(buttonText) && calls == old(calls)
    {
      RemoveWarning();
      website := value;
    }

    /** Typing in the username input: the warning goes, then the value changes. */
    method SetUsername(value: string)
      modifies this
      ensures username == value && !warningShown && !outlined
      ensures website == old(website) && password == old(password)
      ensures buttonText == old(buttonText) && calls == old(calls)
    {
      RemoveWarning();
      username := value;
    }

    /** Typing in the password input: the warning goes, then the value changes. */
    method SetPassword(value: string)
      modifies this
      ensures password == value && !warningShown && !outlined
      ensures website == old(website) && username == old(username)
      ensures buttonText == old(buttonText) && calls == old(calls)
    {
      RemoveWarning();
      password := value;
    }

    /**
     * Saving the edited values.  Accepted: saveChanges then updateAccount at
     * the card's own index get the record, the edit context is toggled and the
     * label returns to Edit Account.  Duplicate: only the warning and the
     * outline change.  No hostname: the handler throws before anything happens.
     */
    method SubmitChanges(stored: seq<Account>) returns (o: SaveOutcome)
      requires Valid() && buttonText == SaveLabel
      modifies this
      ensures Valid()
      ensures o == DecideUpdate(old(website), old(username), old(password), stored, accountIndex)
      ensures website == old(website) && username == old(username) && password == old(password)
      ensures o.Saved? ==>
        && calls == old(calls) + [SaveChanges(o.data), UpdateAccount(accountIndex, o.data), ToggleEditing]
        && buttonText == EditLabel
        && warningShown == old(warningShown) && outlined == old(outlined)
      ensures o.Duplicate? ==>
        && calls == old(calls) && buttonText == SaveLabel
        && warningShown && outlined
      ensures o.NoHostname? ==>
        && calls == old(calls) && buttonText == SaveLabel
        && warningShown == old(warningShown) && outlined == old(outlined)
    {
      o := DecideUpdate(website, username, password, stored, accountIndex);
      match o
      case NoHostname =>
      case Saved(data) =>
        EvenTogglesSaved(calls, accountIndex, data);
        calls := calls + [SaveChanges(data), UpdateAccount(accountIndex, data), ToggleEditing];
        buttonText := EditLabel;
      case Duplicate(_) =>
        warningShown := true;
        outlined := true;
    }

    /**
     * The Edit/Save button.  Showing Edit Account: the edit context is toggled
     * and the label becomes Save Changes, nothing is submitted.  Showing Save Changes:
     * the edited values are submitted.
     */
    method ToggleMode(stored: seq<Account>) returns (submitted: Option<SaveOutcome>)
      requires Valid()
      modifies this
      ensures Valid()
      ensures website == old(website) && username == old(username) && password == old(password)
      ensures old(buttonText) == EditLabel ==>
        && submitted.None? && buttonText == SaveLabel
        && calls == old(calls) + [ToggleEditing]
        && warningShown == old(warningShown) && outlined == old(outlined)
      ensures old(buttonText) == SaveLabel ==>
        && submitted == Some(DecideUpdate(old(website), old(username), old(password), stored, accountIndex))
        && (submitted.value.Saved? ==>
              && calls == old(calls) + [SaveChanges(submitted.value.data), UpdateAccount(accountIndex, submitted.value.data), ToggleEditing]
              && buttonText == EditLabel)
        && (!submitted.value.Saved? ==> calls == old(calls) && buttonText == SaveLabel)
        && (submitted.value.Duplicate? ==> warningShown && outlined)
        && (!submitted.value.Duplicate? ==> warningShown == old(warningShown) && outlined == old(outlined))
    {
      if buttonText == SaveLabel {
        var o := SubmitChanges(stored);
        submitted := Some(o);
      } else {
        EvenTogglesAppend(calls, ToggleEditing);
        calls := calls + [ToggleEditing];
        buttonText := SaveLabel;
        submitted := None;
      }
    }
  }

  /** Icons of the show/hide button. */
  datatype Icon = HidePasswordIcon | ShowPasswordIcon

  /** The input type after one press of the show/hide button. */
  function ToggledType(inputType: string): (r: string)
    ensures r != inputType
    ensures r == "text" <==> inputType == "password"
    ensures r == "text" || r == "password"
  {
    if inputType == "password" then "text" else "password"
  }

  /** The icon after one press of the show/hide button. */
  function ToggledIcon(icon: Icon): (r: Icon)
    ensures r != icon
  {
    if icon == HidePasswordIcon then ShowPasswordIcon else HidePasswordIcon
  }

  /** Two presses restore the input type, once it is one of the two the button produces. */
  lemma ToggleTwiceRestores(inputType: string, icon: Icon)
    requires inputType == "password" || inputType == "text"
    ensures ToggledType(ToggledType(inputType)) == inputType
    ensures ToggledIcon(ToggledIcon(icon)) == icon
  {
  }

  /** The show/hide state of the password input. */
  class PasswordField {
    var showPassword: string
    var passwordIcon: Icon

    /** The input hides the password exactly when the button offers to show it. */
    predicate Synced()
      reads this
    {
      || (showPassword == "password" && passwordIcon == HidePasswordIcon)
      || (showPassword == "text" && passwordIcon == ShowPasswordIcon)
    }

    constructor()
      ensures showPassword == "password" && passwordIcon == HidePasswordIcon
      ensures Synced()
    {
      showPassword := "password";
      passwordIcon := HidePasswordIcon;
    }

    /** One press of the show/hide button. */
    method PasswordVisibility()
      requires Synced()
      modifies this
      ensures Synced()
      ensures showPassword == ToggledType(old(showPassword))
      ensures passwordIcon == ToggledIcon(old(passwordIcon))
      ensures showPassword == "text" <==> old(showPassword) == "password"
    {
      showPassword := if showPassword == "password" then "text" else "password";
      passwordIcon := if passwordIcon == HidePasswordIcon then ShowPasswordIcon else HidePasswordIcon;
    }
  }
}
