/** The page's link collection and the three handlers that change it in place:
    removing a link, answering the reminder prompt after a click, and adding
    a link through the add dialog. Dialog answers are parameters: a `confirm`
    is a `bool`, a `prompt` an `Option<string>` (`None` for Cancel). */
module Manager {
  import opened Wrappers
  import opened Strings
  import opened Links

  /** What the remove handler did. */
  datatype RemoveOutcome = Declined | Removed(index: nat) | NotFound

  /** What the click handler did: navigate to the address, or apply the
      reminder prompt's answer. */
  datatype ClickOutcome = Navigate(url: string) | Reminder(edit: ReminderEdit)

  class LinkManager {
    /** The module-level `links` array. */
    var links: seq<Link>

    /** Every stored record is well formed. */
    ghost predicate Valid()
      reads this
    {
      AllWellFormed(links)
    }

    /** The page loads with the four seed records. */
    constructor ()
      ensures Valid() && links == SeedLinks
    {
      links := SeedLinks;
      SeedLinksWellFormed();
    }

    /** The remove button: after the user confirms, the first record with the
        target's `url` and `text` is spliced out; when none matches, nothing
        changes and the "could not find" branch is taken. */
    method RemoveLink(target: Link, confirmed: bool) returns (outcome: RemoveOutcome)
      requires Valid()
      modifies this
      ensures Valid()
      ensures !confirmed ==> outcome == Declined && links == old(links)
      ensures confirmed ==> links == RemoveFirst(old(links), target.text, target.url)
      ensures confirmed ==>
                var k := FirstMatch(old(links), target.text, target.url);
                outcome == if k == -1 then NotFound else Removed(k)
    {
      if !confirmed {
        return Declined;
      }
      var index := FindIndex(links, target.text, target.url);
      RemoveFirstKeepsWellFormed(links, target.text, target.url);
      if index > -1 {
        links := Splice(links, index);
        outcome := Removed(index);
      } else {
        outcome := NotFound;
      }
    }

    /** A click on the record at `index`: when the user agrees to visit, the
        page navigates and nothing changes; otherwise the reminder prompt's
        answer is applied to that record and to no other. */
    method ClickLink(index: nat, visitNow: bool, answer: Option<string>) returns (outcome: ClickOutcome)
      requires Valid() && index < |links|
      modifies this
      ensures Valid()
      ensures visitNow ==> outcome == Navigate(old(links)[index].url) && links == old(links)
      ensures !visitNow ==> outcome == Reminder(ReminderEditOf(answer))
      ensures !visitNow ==> links == old(links)[index := ApplyReminder(old(links)[index], answer)]
      ensures !visitNow && answer == Some(ReminderPrefill(old(links)[index])) ==> links == old(links)
    {
      if visitNow {
        return Navigate(links[index].url);
      }
      var updated := ApplyReminder(links[index], answer);
      ReplaceKeepsWellFormed(links, index, updated);
      if answer == Some(ReminderPrefill(links[index])) {
        AcceptingPrefillKeepsRecord(links[index]);
        assert links[index := updated] == links;
      }
      links := links[index := updated];
      outcome := Reminder(ReminderEditOf(answer));
    }

    /** The add dialog: a validated link is appended at the end; a refused one
        leaves the collection as it was. */
    method AddLink(textAnswer: Option<string>, urlAnswer: Option<string>, addScheme: bool)
      returns (outcome: Result<Link, AddError>)
      requires Valid()
      modifies this
      ensures Valid()
      ensures outcome == ValidateNewLink(textAnswer, urlAnswer, addScheme)
      ensures outcome.Success? ==> links == old(links) + [outcome.value]
      ensures outcome.Failure? ==> links == old(links)
    {
      outcome := ValidateNewLink(textAnswer, urlAnswer, addScheme);
      if outcome.Success? {
        AppendKeepsWellFormed(links, outcome.value);
        links := links + [outcome.value];
      }
    }
  }
}
