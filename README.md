# Link manager of `script.js`, modelled in Dafny

The page keeps a module-level array `links` of bookmark records
`{text, url, scheduledTime?}` and changes it in place from three UI handlers:

- **remove** (`handleRemoveLink`): after a confirmation, the first record whose
  `url` and `text` both equal the target's is spliced out; when none matches,
  an error is logged and nothing changes;
- **click** (`handleLinkClick`): if the user agrees to visit, the page navigates;
  otherwise a prompt answer sets the record's reminder to its trimmed text
  (non-blank answer), deletes it (exactly `""`), or leaves it alone (Cancel, or
  an answer made only of whitespace, which falls through to the last branch);
- **add** (`setupAddLinkButtonListener`): the text and URL answers are trimmed
  and refused when cancelled or blank; a URL whose lower-cased form does not
  start with `http://` or `https://` gets `https://` prepended if the user
  agrees and is refused otherwise; the new record is pushed at the end.

The model has four modules:

- `Wrappers` (`wrappers.dfy`): `Option` (a prompt answer, `None` for Cancel) and
  `Result` (a new link or the reason it was refused).
- `Strings` (`strings.dfy`): JavaScript's `trim` (with the exact set of
  ECMAScript white-space and line-terminator code points), `toLowerCase`
  restricted to ASCII letters, and `startsWith`.
- `Links` (`links.dfy`): the `Link` record, the seed data, the invariant
  `WellFormed` that every stored record keeps, the first-match search and the
  removal it drives, the reminder edit chosen from the prompt answer, and the
  validation done by the add dialog, each with its lemmas.
- `Manager` (`manager.dfy`): the class `LinkManager`, whose field `links` is the
  page's array and whose methods `RemoveLink`, `ClickLink` and `AddLink` change
  it in place as the three handlers do. Its object invariant `Valid()` says that
  every record is well formed: label trimmed and non-blank, address trimmed and
  starting (case-insensitively) with `http://` or `https://`, reminder absent or
  trimmed and non-blank. The seed data satisfies it and every handler keeps it.

Dialogs are inputs: each `confirm` is a `bool` parameter and each `prompt` an
`Option<string>` parameter. An answer the code never asks for (the URL prompt
after a refused label, the "add https://?" confirmation for an address that
already has a scheme) is ignored.

The specification of the repository describes later revisions of this program
(creation timestamps, a relative-time parser, record migration, a sort order and
storage). None of that exists in `script.js`, and the model follows the code.
The specification also says a `null` reminder answer clears the reminder; in
the code `null` keeps it and only the empty string clears it, and the model
follows the code.

## Model

| member | source | states |
|---|---|---|
| `Strings.Trim` | script.js:75-76 | the trimmed string has no white space at either end; it is empty exactly when the input is blank, and equals the input exactly when the input has no white space at either end |
| `Strings.TrimIsInfix` | script.js:157 | what `trim` keeps is one contiguous piece of the input, and everything it drops before and after it is white space |
| `Strings.StartsWith` | script.js:158 | `startsWith` holds exactly when the prefix is no longer than the string and agrees with it character by character |
| `Links.SchemeTestIgnoresCase` | script.js:158 | the scheme test (`HasWebScheme`, `toLowerCase().startsWith` of `http://` or `https://`) holds exactly when the address begins with `http` or `https`, each letter in either case, followed by `://` |
| `Links.HttpsPassesSchemeTest` | script.js:158 | an address starting with `https://` passes the scheme test |
| `Links.PrefixedHasWebScheme` | script.js:159-160 | any address with `https://` prepended passes the scheme test |
| `Links.PrefixedKeepsTrimmed` | script.js:160 | prefixing a trimmed, non-empty address with `https://` keeps it trimmed |
| `Links.SeedLinksWellFormed` | script.js:3-8 | every seed record is well formed |
| `Links.HasKey` | script.js:37 | the `findIndex` callback holds exactly when the record has the target's `text` and `url`, whatever its reminder |
| `Links.FirstMatch` | script.js:37 | the result is -1 exactly when no record has the target's `url` and `text`; otherwise that record matches and none before it does |
| `Links.FindIndex` | script.js:37 | the search loop returns the first matching position, or -1 |
| `Links.Splice` | script.js:39 | `splice(k, 1)` deletes the record at `k`: the records before and after it keep their order and the multiset of records loses exactly that one |
| `Links.RemoveFirst` | script.js:37-39 | with no match the collection is unchanged; with a match exactly the first matching record is deleted, the rest keep their order, and no other record is lost |
| `Links.RemoveFirstKeepsWellFormed` | script.js:39 | removal keeps every record well formed |
| `Links.FirstMatchAppend` | script.js:37 | an appended record becomes the first match only when no earlier record matched |
| `Links.RemoveUndoesAppend` | script.js:168 | removing, by its key, a link just pushed onto a collection with no record of that key gives back the collection |
| `Links.AppendKeepsWellFormed` | script.js:168 | pushing a well-formed record keeps every record well formed |
| `Links.ReminderEditOf` | script.js:75-84 | a non-blank answer sets the reminder to its trimmed text; exactly `""` clears it; Cancel or a whitespace-only answer keeps it |
| `Links.ApplyReminder` | script.js:75-84 | the reminder edit never touches `text` or `url`, sets, deletes or keeps `scheduledTime` as the answer says, and keeps a record well formed |
| `Links.ReplaceKeepsWellFormed` | script.js:77-80 | replacing the clicked record by a well-formed one keeps every record well formed |
| `Links.ReminderPrefill` | script.js:72 | the prompt is pre-filled with the current reminder, or `""` when there is none; for a well-formed record the pre-fill is `""` exactly when there is no reminder |
| `Links.AcceptingPrefillKeepsRecord` | script.js:70-77 | pressing OK on the prompt pre-filled with the current reminder (or `""`) leaves a well-formed record as it was |
| `Links.ReminderKeepsFirstMatch` | script.js:77-80 | editing a reminder never changes which record a later removal finds |
| `Links.CleanUrl` | script.js:157-165 | a trimmed address that passes the scheme test is kept as it is, in its own case; one that fails gets `https://` in front when the user agrees and is refused otherwise; a kept address is trimmed and passes the scheme test |
| `Links.ValidateNewLink` | script.js:143-167 | Cancel or a blank answer for the label, then for the address, refuses the link; an address with a web scheme is kept as trimmed, in its own case; one without it gets `https://` if the user agrees and is refused otherwise; an accepted link has the trimmed label, no reminder and is well formed |
| `Manager.LinkManager.constructor` | script.js:3-8 | the collection starts as the four seed records and is valid |
| `Manager.LinkManager.RemoveLink` | script.js:34-49 | declining changes nothing; after confirming, the collection becomes the first-match removal of the old one, and the outcome reports the removed position or that nothing matched |
| `Manager.LinkManager.ClickLink` | script.js:61-87 | agreeing to visit navigates to the record's address and changes nothing; otherwise only the clicked record changes, by the reminder edit of the answer, and pressing OK on the pre-filled prompt changes nothing |
| `Manager.LinkManager.AddLink` | script.js:143-168 | an accepted link is appended at the end and the rest is unchanged; a refused one leaves the collection as it was; validity is kept |

## Left out

- `renderLinks` (script.js:91-137): building the list in the page and wiring its
  event listeners is DOM work.
- `logToPage` and every `console` call: logging with locale timestamps is a side
  channel; the outcomes `RemoveOutcome`, `ClickOutcome` and `AddError` carry the
  distinctions those messages make.
- Navigation (`window.location.href`, script.js:65) is browser I/O; the model
  returns the address as `Navigate(url)`.
- The `DOMContentLoaded` bootstrap (script.js:178-187) only looks up page
  elements and calls the rendering and wiring code.
- `confirm`, `prompt` and `alert` are not modelled; their answers are parameters.
- The object identity of records: the click handler receives the shared record
  object, and the model names it by its position in the collection instead.
  The list is re-rendered after every change, so a position shown on the page
  always names the record the handler gets.
- Strings.Lower: folds only the ASCII letters, where `toLowerCase` folds all of
  Unicode; no non-ASCII character lower-cases to a letter of `http` or `https`,
  so the scheme test decides the same either way.
- JavaScript strings are sequences of UTF-16 code units; the model's strings are
  sequences of Unicode scalar values.
- The components the repository's specification describes for later revisions
  (timestamps, relative-time parsing, migration, sorting, persistence) are not
  part of `script.js` and are not part of this model.
