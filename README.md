# sencrypt account screens: hostname normalisation and duplicate guards

This project models the logic of the sencrypt password manager's account
screens. That logic has three parts.

- **Website normalisation.** `HOSTNAME_REGEX` turns whatever the user typed
  as a website into the hostname that is stored and compared. The regex
  optionally takes a leading `http://` or `https://`, then an optional
  `userinfo@`, then an optional `www.`. It captures the longest run that
  follows of characters other than `:`, `/`, `?` and newline.
  - The model (`App.Hostname`) follows JavaScript's backtracking: every
    optional group is tried taken before it is skipped.
  - It is proved equal to an independent list of the eight take/skip
    choices, tried in priority order (`App.MatchFollowsPriority`).
  - The capture is proved non-empty, free of the four refused characters,
    and maximal. Stripping one `www.` is proved in general
    (`App.WwwStripped`); that only one userinfo and only one scheme go per
    input is shown by example.
  - A scheme or a `www.` followed by nothing, by `/` or by a newline is
    kept instead of stripped.
- **The add-account modal.** `submitData` normalises the website and
  fetches the stored records. If every stored record differs in username or
  in website, it asks `createAccount` to store the record and clears the
  form. Otherwise it shows the warning and outlines the fields.
- **The account card.** `submitChanges` runs the same check but skips the
  record's own index. If the check passes, it calls `saveChanges` and then
  `updateAccount` at that index and `toggleEditing`, and turns the Save Changes button back
  into Edit Account.
  - `toggleMode` is the two-state Edit/Save machine around it.
  - The password input's show/hide button flips between `"password"` and
    `"text"`.

The stored records are an input to each submit; they stand for the list
`getAllAccounts()` returns. `createAccount`, `saveChanges`,
`updateAccount` and the edit context's `toggleEditing` are code this model
cannot see. Each class therefore keeps
a log of the calls made to them, with their arguments. `Accounts.AppendKeepsUnique`
and `Accounts.ReplaceKeepsUnique` state what the checks guarantee **if** the
store appends, or replaces at the index.

The normaliser is not idempotent: `www.www.x` gives `www.x`, and `www.x`
gives `x`. So saving an untouched record can change its stored website, or
be refused as a duplicate of another record (`Scenarios.UnchangedSaveRefused`).

Duplicates are caught in the two screens, which show a warning. Accepted
records are handed to `createAccount` / `updateAccount`, whose bodies are
not modelled.

Files:
- `app.dfy`: the regex.
- `hostname_examples.dfy`: worked inputs.
- `accounts.dfy`: records and the two duplicate checks.
- `add_account.dfy`: the add modal.
- `account_info.dfy`: the account card and the password toggle.
- `scenarios.dfy`: the screens' decisions on worked inputs.

## Model

Source paths below are relative to the repository root.

| member | source | states |
|---|---|---|
| App.SchemeEnd | src/view/password-manager/src/App.jsx:15 | the group `https?:\/\/` can match at the start in at most one way; `r == Some(e)` exactly when `s[..e]` is `https://` or `http://` |
| App.UserinfoEnd | src/view/password-manager/src/App.jsx:15 | the group `[^@\/\n]+@` tried at i matches in at most one way, ending just after the first `@` of a non-empty run of its characters |
| App.WwwEnd | src/view/password-manager/src/App.jsx:15 | the group `www\.` tried at i matches exactly when the next four characters are `www.` |
| App.Capture | src/view/password-manager/src/App.jsx:15 | the capture `([^:\/?\n]+)` at i fails exactly when i is at the end or at a refused character; otherwise it starts at i and is the longest run of accepted characters |
| App.FromWww | src/view/password-manager/src/App.jsx:15 | taking `www.` before skipping it yields a maximal run starting at or after i; it fails only when nothing capturable is at i |
| App.FromUserinfo | src/view/password-manager/src/App.jsx:15 | taking the userinfo group before skipping it yields a maximal run, and it always succeeds when a capturable character is at i |
| App.MatchSpan | src/view/password-manager/src/App.jsx:15 | the anchored match's capture is a maximal run of accepted characters, and it exists whenever the input starts with one |
| App.Hostname | src/view/password-manager/src/App.jsx:15 | a hostname is non-empty and holds none of `:`, `/`, `?`, newline; the empty input has none; an input starting with an accepted character always has one |
| App.HostnameIsMaximalRun | src/view/password-manager/src/App.jsx:15 | a hostname is a contiguous piece `s[i..j]` of the input that ends at the input's end or at a refused character |
| App.FailsAtSlash | src/view/password-manager/src/App.jsx:15 | an input starting with `/` or a newline has no hostname |
| App.MatchFollowsPriority | src/view/password-manager/src/App.jsx:15 | the nested greedy fallbacks give exactly the first successful one of the eight take/skip choices in backtracking order |
| App.SchemeStripped | src/view/password-manager/src/App.jsx:15 | a leading `https://` or `http://` in front of a capturable character with no scheme of its own is removed and the rest is normalised as if it stood alone |
| App.UserinfoStripped | src/view/password-manager/src/App.jsx:15 | a leading `userinfo@` in front of a capturable character with no scheme or userinfo of its own is removed in the same way |
| App.WwwStripped | src/view/password-manager/src/App.jsx:15 | one leading `www.` in front of a capturable character with no `@` after it is removed, and the hostname is the run of accepted characters that follows |
| App.BareSchemeKept | src/view/password-manager/src/App.jsx:15 | a scheme followed by nothing, by `/` or by a newline is kept, and the hostname is `https` or `http` |
| App.BareWwwKept | src/view/password-manager/src/App.jsx:15 | `www.` followed by nothing, by `/` or by a newline is kept, and the hostname is `www.` itself |
| HostnameExamples.FullUrl | src/view/password-manager/src/App.jsx:15 | `https://www.example.com/login` gives `example.com` |
| HostnameExamples.UserinfoInputs | src/view/password-manager/src/App.jsx:15 | `user@site.com` and `a:b@site.com` give `site.com` |
| HostnameExamples.WwwNotIdempotent | src/view/password-manager/src/App.jsx:15 | only one `www.` goes: `www.www.x` gives `www.x`, which gives `x` |
| HostnameExamples.UserinfoNotIdempotent | src/view/password-manager/src/App.jsx:15 | only one `userinfo@` goes: `a@b@c` gives `b@c`, which gives `c` |
| HostnameExamples.OneSchemePerInput | src/view/password-manager/src/App.jsx:15 | only one scheme goes: `http://https://x` gives `https`, although `https://x` alone gives `x` |
| HostnameExamples.ColonBeforeUserinfo | src/view/password-manager/src/App.jsx:15 | a refused character that starts a userinfo group does not keep the scheme: `https://:a@b` gives `b` |
| HostnameExamples.BarePrefixes | src/view/password-manager/src/App.jsx:15 | `https://` gives `https` and `www.` gives `www.` |
| HostnameExamples.UpperCaseScheme | src/view/password-manager/src/App.jsx:15 | matching is case-sensitive: `HTTPS://x` gives `HTTPS` |
| HostnameExamples.PlainHost | src/view/password-manager/src/App.jsx:15 | a bare host `example.com` is kept as it is |
| HostnameExamples.PortDropped | src/view/password-manager/src/App.jsx:15 | a port and a path are dropped: `example.com:8080/x` gives `example.com` |
| HostnameExamples.NoHostname | src/view/password-manager/src/App.jsx:15 | the empty string, `/path` and `:80` have no hostname |
| Accounts.NoDuplicate | src/view/password-manager/src/components/Accounts/AddAccount.jsx:52-54 | the create-time check passes exactly when no stored record has both the candidate's username and its website |
| Accounts.NoDuplicateExcept | src/view/password-manager/src/components/Accounts/AccountInfo.jsx:158-165 | the edit-time check passes exactly when no stored record at another index than the edited one has both the username and the website |
| Accounts.EmptyStoreAccepts | src/view/password-manager/src/components/Accounts/AddAccount.jsx:52 | with nothing stored, both checks pass |
| Accounts.PasswordIgnored | src/view/password-manager/src/components/Accounts/AddAccount.jsx:53 | changing the candidate's password changes neither check's answer |
| Accounts.NoDuplicateExceptWeaker | src/view/password-manager/src/components/Accounts/AccountInfo.jsx:158-165 | a candidate passing the create-time check passes the edit-time check at any index |
| Accounts.ExceptOutsideIsPlain | src/view/password-manager/src/components/Accounts/AccountInfo.jsx:161-163 | an index naming no stored record skips nothing: the edit-time check is the create-time one |
| Accounts.OwnRecordNeverDuplicate | src/view/password-manager/src/components/Accounts/AccountInfo.jsx:161-163 | in a duplicate-free store, a candidate with the edited record's own username and website passes the edit-time check |
| Accounts.AppendKeepsUnique | src/view/password-manager/src/components/Accounts/AddAccount.jsx:52-59 | for a duplicate-free store, appending the candidate keeps it duplicate-free if and only if the create-time check passes |
| Accounts.ReplaceKeepsUnique | src/view/password-manager/src/components/Accounts/AccountInfo.jsx:158-170 | for a duplicate-free store, replacing the edited record keeps it duplicate-free if and only if the edit-time check passes |
| AddAccount.DecideCreate | src/view/password-manager/src/components/Accounts/AddAccount.jsx:42-57 | there is no outcome exactly when the website has no hostname. Otherwise the record carries the hostname (not the raw input), the username and the password. It is a duplicate exactly when a stored record has the same username and hostname |
| AddAccount.EmptyStoreCreates | src/view/password-manager/src/components/Accounts/AddAccount.jsx:52-59 | with nothing stored, every website that has a hostname leads to a create |
| AddAccount.CreatedRecordComplete | src/view/password-manager/src/components/Accounts/AddAccount.jsx:212 | if the form was submittable, a created record has a non-empty website, username and password |
| Scenarios.FullUrlThenBareHost | src/view/password-manager/src/components/Accounts/AddAccount.jsx:42-57 | `https://www.example.com/login` with alice is created as `example.com`; then `example.com` with alice and another password is refused |
| AddAccount.AccountModal.constructor | src/view/password-manager/src/components/Accounts/AddAccount.jsx:17-19 | the form starts with three empty inputs, no warning, no outline and nothing created |
| AddAccount.AccountModal.SubmitEnabled | src/view/password-manager/src/components/Accounts/AddAccount.jsx:212 | the submit button is enabled exactly when all three inputs are non-empty |
| AddAccount.AccountModal.SetWebsite | src/view/password-manager/src/components/Accounts/AddAccount.jsx:149-151 | typing sets the website input and changes nothing else |
| AddAccount.AccountModal.SetUsername | src/view/password-manager/src/components/Accounts/AddAccount.jsx:172-174 | typing sets the username input and changes nothing else |
| AddAccount.AccountModal.SetPassword | src/view/password-manager/src/components/Accounts/AddAccount.jsx:195-197 | typing sets the password input and changes nothing else |
| AddAccount.AccountModal.ChangeOutline | src/view/password-manager/src/components/Accounts/AddAccount.jsx:24-36 | clicking a field hides the warning and removes the outline, leaving the inputs and the created log alone |
| AddAccount.AccountModal.SubmitData | src/view/password-manager/src/components/Accounts/AddAccount.jsx:38-84 | the outcome is DecideCreate of the inputs before the call. Created: one createAccount call with the record, and the inputs are cleared, so the button is disabled. Duplicate: no call and inputs kept, with the warning shown and the fields outlined. No hostname: nothing changes |
| AccountInfo.DecideUpdate | src/view/password-manager/src/components/Accounts/AccountInfo.jsx:146-167 | like DecideCreate, but a duplicate needs a matching record at an index other than the edited one |
| AccountInfo.SameKeySaves | src/view/password-manager/src/components/Accounts/AccountInfo.jsx:158-165 | in a duplicate-free store, a save whose hostname and username equal the edited record's own is accepted, whatever the password |
| Scenarios.UnchangedSaveRefused | src/view/password-manager/src/components/Accounts/AccountInfo.jsx:147-165 | a duplicate-free store where re-saving an untouched record (`www.x`) is refused, because it now normalises to `x`, which another record with the same username holds |
| AccountInfo.CollapsibleInfo.constructor | src/view/password-manager/src/components/Accounts/AccountInfo.jsx:106-108 | the card starts with the Edit Account label, no warning and no calls |
| AccountInfo.SavedRecordComplete | src/view/password-manager/src/components/Accounts/AccountInfo.jsx:385 | if the card's button was enabled, a saved record has a non-empty website, username and password |
| AccountInfo.CollapsibleInfo.EditEnabled | src/view/password-manager/src/components/Accounts/AccountInfo.jsx:385 | the Edit/Save button is enabled exactly when all three inputs are non-empty |
| AccountInfo.CollapsibleInfo.RemoveWarning | src/view/password-manager/src/components/Accounts/AccountInfo.jsx:129-141 | the warning is hidden and the outline removed; nothing else changes |
| AccountInfo.CollapsibleInfo.SetWebsite | src/view/password-manager/src/components/Accounts/AccountInfo.jsx:236-239 | typing removes the warning, then sets the website input |
| AccountInfo.CollapsibleInfo.SetUsername | src/view/password-manager/src/components/Accounts/AccountInfo.jsx:274-277 | typing removes the warning, then sets the username input |
| AccountInfo.CollapsibleInfo.SetPassword | src/view/password-manager/src/components/Accounts/AccountInfo.jsx:339-342 | typing removes the warning, then sets the password input |
| AccountInfo.CollapsibleInfo.SubmitChanges | src/view/password-manager/src/components/Accounts/AccountInfo.jsx:143-186 | the outcome is DecideUpdate at the card's own index. Saved: saveChanges then updateAccount(index) receive the record, toggleEditing is called and the label returns to Edit Account. Duplicate: no calls, the label stays Save Changes, and the warning and outline are shown. No hostname: nothing changes. The label says Edit Account exactly when the logged toggleEditing calls are even in number |
| AccountInfo.CollapsibleInfo.ToggleMode | src/view/password-manager/src/components/Accounts/AccountInfo.jsx:118-127 | on Edit Account it calls toggleEditing and shows Save Changes without submitting. On Save Changes it submits, with SubmitChanges' effects. The label says Edit Account exactly when the logged toggleEditing calls are even in number |
| AccountInfo.ToggledType | src/view/password-manager/src/components/Accounts/AccountInfo.jsx:320 | the input type always changes, becomes `"text"` exactly when it was `"password"`, and is always one of the two |
| AccountInfo.ToggledIcon | src/view/password-manager/src/components/Accounts/AccountInfo.jsx:321-322 | the show/hide icon always changes |
| AccountInfo.ToggleTwiceRestores | src/view/password-manager/src/components/Accounts/AccountInfo.jsx:318-323 | two presses restore the input type (once it is `"password"` or `"text"`) and the icon |
| AccountInfo.PasswordField.constructor | src/view/password-manager/src/components/Accounts/AccountInfo.jsx:315-316 | the password starts hidden, with the hide icon |
| AccountInfo.PasswordField.PasswordVisibility | src/view/password-manager/src/components/Accounts/AccountInfo.jsx:318-323 | one press flips the type and the icon together and keeps them in step: shown text goes with the show icon |

## Left out

- The vault backend is not part of this model: the controller, key derivation, encryption, backup and password generation. So are the preload bridge, the login form, the settings page and the checkbox. Their code is not in the modelled files, or it is pure rendering.
- `createAccount`, `saveChanges`, `updateAccount` and `getAllAccounts`: their bodies are not part of this model.
  - The first three, and `toggleEditing`, are recorded as calls with their arguments.
  - The fetched list is a parameter.
  - Nothing is assumed about how the store changes.
- Promise ordering and races between fetching the list and changing it are not modelled. A submit runs as one step, including the form clearing that the source does after `createAccount`'s promise resolves.
- DOM effects become booleans: a visible warning, and an outline in place of the focus ring. Closing the add modal by clicking its label is not modelled, nor are focus, the clipboard, tooltips and icon URLs. The two password icons are an enumeration.
- AccountInfo.CollapsibleInfo.ToggleMode: the edit context behind `toggleEditing` (`useEditContextUpdate`) is not part of this model, so nothing is assumed about what a toggle does to the inputs' `disabled` flag. Each call is logged, and the model proves only that the label tracks the parity of the logged toggles.
- AccountInfo.CollapsibleInfo.SubmitChanges: requires the label to be Save Changes and the card to be in step. That is the state in which its only caller, `toggleMode`, invokes it.
- What `saveChanges` does to the record and the inputs the card displays is not part of this model. The inputs keep their typed values.
- App.BareSchemeKept, App.BareWwwKept: only a prefix followed by nothing, `/` or a newline is covered. Behind another refused character the userinfo group can still match (`HostnameExamples.ColonBeforeUserinfo`: `https://:a@b` gives `b`), so no general "kept" statement holds for those.
- A null regex match throws when the handler destructures it. That is modelled as the `NoHostname` outcome, with no state change and no call.
- JavaScript strings are UTF-16 code units; the model uses Dafny characters. The pattern has no flags, so only `\n` ends a line and matching is case-sensitive, as modelled.
- The `App.changeSelected` menu switch is UI navigation.
