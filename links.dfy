/** Link records and the rules the link manager applies to them: the
    first-match search used for removal, the reminder edit chosen from the
    reminder prompt's answer, and the validation of a new link. */
module Links {
  import opened Wrappers
  import opened Strings

  /** A bookmark: its label, its address and an optional free-text reminder. */
  datatype Link = Link(text: string, url: string, scheduledTime: Option<string>)

  /** The four records the page starts with; the first one carries a
      reminder. */
  const GoogleSeed := Link("Google Search", "https://www.google.com", Some("Tomorrow AM"))
  const WikipediaSeed := Link("Wikipedia Encyclopedia", "https://www.wikipedia.org", None)
  const ExampleSeed := Link("Example Domain Info", "https://www.example.com", None)
  const MozillaSeed := Link("Developer Mozilla", "https://developer.mozilla.org", None)
  const SeedLinks: seq<Link> := [GoogleSeed, WikipediaSeed, ExampleSeed, MozillaSeed]

  /** The scheme test of the add dialog: the lower-cased address starts with
      `http://` or `https://`. */
  predicate HasWebScheme(url: string) {
    StartsWith(Lower(url), "http://") || StartsWith(Lower(url), "https://")
  }

  /** What every record the manager stores satisfies: a trimmed, non-blank
      label, a trimmed address with a web scheme, and a reminder, when there
      is one, that is trimmed and non-blank. */
  predicate WellFormed(l: Link) {
    && IsTrimmed(l.text) && !IsBlank(l.text)
    && IsTrimmed(l.url) && HasWebScheme(l.url)
    && (l.scheduledTime.Some? ==> IsTrimmed(l.scheduledTime.value) && !IsBlank(l.scheduledTime.value))
  }

  /** The object invariant of the collection. */
  predicate AllWellFormed(s: seq<Link>) {
    forall i :: 0 <= i < |s| ==> WellFormed(s[i])
  }

  /** A record with a non-blank label and an address starting with
      `https://`, both trimmed, and no reminder or a trimmed non-blank one, is
      well formed. */
  lemma SeedWellFormed(l: Link)
    requires IsTrimmed(l.text) && l.text != []
    requires IsTrimmed(l.url) && StartsWith(l.url, "https://")
    requires l.scheduledTime.Some? ==> IsTrimmed(l.scheduledTime.value) && l.scheduledTime.value != []
    ensures WellFormed(l)
  {
    HttpsPassesSchemeTest(l.url);
  }

  /** The records the page starts with are well formed. */
  lemma SeedLinksWellFormed()
    ensures AllWellFormed(SeedLinks)
  {
    GoogleSeedWellFormed();
    WikipediaSeedWellFormed();
    ExampleSeedWellFormed();
    MozillaSeedWellFormed();
  }

  // One lemma per seed record keeps each proof about string literals small.
  lemma GoogleSeedWellFormed() ensures WellFormed(GoogleSeed) { SeedWellFormed(GoogleSeed); }
  lemma WikipediaSeedWellFormed() ensures WellFormed(WikipediaSeed) { SeedWellFormed(WikipediaSeed); }
  lemma ExampleSeedWellFormed() ensures WellFormed(ExampleSeed) { SeedWellFormed(ExampleSeed); }
  lemma MozillaSeedWellFormed() ensures WellFormed(MozillaSeed) { SeedWellFormed(MozillaSeed); }

  // ----- Removal by key -----

  /** The removal key: a record is removed by its `url` and `text` together. */
  predicate HasKey(l: Link, text: string, url: string)
    ensures HasKey(l, text, url) <==> l == Link(text, url, l.scheduledTime)
  {
    l.url == url && l.text == text
  }

  /** `findIndex` with the removal key: the position of the first record with
      that `url` and `text`, or -1 when there is none. */
  function FirstMatch(s: seq<Link>, text: string, url: string): (r: int)
    ensures -1 <= r < |s|
    ensures r == -1 <==> forall j :: 0 <= j < |s| ==> !HasKey(s[j], text, url)
    ensures 0 <= r ==> HasKey(s[r], text, url)
    ensures 0 <= r ==> forall j :: 0 <= j < r ==> !HasKey(s[j], text, url)
  {
    if s == [] then -1
    else if HasKey(s[0], text, url) then 0
    else
      var k := FirstMatch(s[1..], text, url);
      if k == -1 then -1 else k + 1
  }

  /** The search loop of `findIndex`. */
  method FindIndex(s: seq<Link>, text: string, url: string) returns (index: int)
    ensures index == FirstMatch(s, text, url)
  {
    index := 0;
    while index < |s|
      invariant 0 <= index <= |s|
      invariant forall j :: 0 <= j < index ==> !HasKey(s[j], text, url)
    {
      if HasKey(s[index], text, url) {
        return;
      }
      index := index + 1;
    }
    index := -1;
  }

  /** `splice(k, 1)`: the record at position `k` is deleted; the records
      before and after it keep their order, and the multiset of records loses
      exactly that one. */
  function Splice<T>(s: seq<T>, k: nat): (r: seq<T>)
    requires k < |s|
    ensures |r| == |s| - 1
    ensures forall j :: 0 <= j < k ==> r[j] == s[j]
    ensures forall j :: k <= j < |r| ==> r[j] == s[j + 1]
    ensures multiset(r) + multiset{s[k]} == multiset(s)
  {
    assert s == s[..k] + [s[k]] + s[k + 1..];
    s[..k] + s[k + 1..]
  }

  /** The collection after `splice(findIndex(...), 1)` when a match exists,
      otherwise the collection as it was. With a match, exactly the first
      record with the key is deleted: the records before and after it keep
      their order and no other record is lost. */
  function RemoveFirst(s: seq<Link>, text: string, url: string): (r: seq<Link>)
    ensures (forall j :: 0 <= j < |s| ==> !HasKey(s[j], text, url)) ==> r == s
    ensures (exists j :: 0 <= j < |s| && HasKey(s[j], text, url)) ==>
              var k := FirstMatch(s, text, url);
              && 0 <= k && HasKey(s[k], text, url) && |r| == |s| - 1
              && (forall j :: 0 <= j < k ==> !HasKey(s[j], text, url) && r[j] == s[j])
              && (forall j :: k <= j < |r| ==> r[j] == s[j + 1])
              && multiset(r) + multiset{s[k]} == multiset(s)
  {
    var k := FirstMatch(s, text, url);
    if k == -1 then s else Splice(s, k)
  }

  /** Replacing one record by a well-formed one keeps every record well
      formed. */
  lemma ReplaceKeepsWellFormed(s: seq<Link>, i: nat, l: Link)
    requires AllWellFormed(s) && i < |s| && WellFormed(l)
    ensures AllWellFormed(s[i := l])
  { }

  /** Removal keeps only records that were there. */
  lemma RemoveFirstKeepsWellFormed(s: seq<Link>, text: string, url: string)
    requires AllWellFormed(s)
    ensures AllWellFormed(RemoveFirst(s, text, url))
  { }

  /** Appending a record moves the first match only when there was none. */
  lemma {:induction false} FirstMatchAppend(s: seq<Link>, l: Link, text: string, url: string)
    ensures FirstMatch(s + [l], text, url) ==
              if FirstMatch(s, text, url) >= 0 then FirstMatch(s, text, url)
              else if HasKey(l, text, url) then |s|
              else -1
  {
    if s != [] {
      assert (s + [l])[1..] == s[1..] + [l];
      FirstMatchAppend(s[1..], l, text, url);
    }
  }

  /** Removing, by its key, a link just appended to a collection that held no
      record with that key gives back the collection. */
  lemma RemoveUndoesAppend(s: seq<Link>, l: Link)
    requires FirstMatch(s, l.text, l.url) == -1
    ensures RemoveFirst(s + [l], l.text, l.url) == s
  {
    FirstMatchAppend(s, l, l.text, l.url);
    assert (s + [l])[..|s|] == s;
  }

  // ----- Reminders -----

  /** What the reminder prompt's answer does to the clicked record. */
  datatype ReminderEdit = SetTo(time: string) | Clear | Keep

  /** The three branches on the reminder prompt's answer: a non-blank answer
      sets the reminder to its trimmed text; exactly `""` clears it; Cancel and
      a whitespace-only answer keep it. */
  function ReminderEditOf(answer: Option<string>): (e: ReminderEdit)
    ensures e.SetTo? <==> answer.Some? && !IsBlank(answer.value)
    ensures e.SetTo? ==> e.time == Trim(answer.value) && IsTrimmed(e.time) && !IsBlank(e.time)
    ensures e == Clear <==> answer == Some("")
    ensures e == Keep <==> answer.None? || (answer.value != "" && IsBlank(answer.value))
  {
    match answer
    case None => Keep
    case Some(s) =>
      // the answer must be truthy (not "") and trim to something non-empty
      if s != "" && Trim(s) != "" then SetTo(Trim(s))
      else if s == "" then Clear
      else Keep
  }

  /** The record after the reminder prompt was answered with `answer`. */
  function ApplyReminder(l: Link, answer: Option<string>): (r: Link)
    ensures r.text == l.text && r.url == l.url
    ensures answer.Some? && !IsBlank(answer.value) ==> r.scheduledTime == Some(Trim(answer.value))
    ensures answer == Some("") ==> r.scheduledTime == None
    ensures answer.None? || (answer.value != "" && IsBlank(answer.value)) ==> r == l
    ensures WellFormed(l) ==> WellFormed(r)
  {
    match ReminderEditOf(answer)
    case SetTo(t) => l.(scheduledTime := Some(t))
    case Clear => l.(scheduledTime := None)
    case Keep => l
  }

  /** The text the reminder prompt is pre-filled with: the current reminder,
      or `""` when there is none. */
  function ReminderPrefill(l: Link): (r: string)
    ensures l.scheduledTime.Some? ==> r == l.scheduledTime.value
    ensures l.scheduledTime.None? ==> r == ""
    ensures WellFormed(l) ==> (r == "" <==> l.scheduledTime.None?)
  {
    match l.scheduledTime
    case Some(t) => t
    case None => ""
  }

  /** Pressing OK on the pre-filled reminder prompt leaves a well-formed record
      as it was. */
  lemma AcceptingPrefillKeepsRecord(l: Link)
    requires WellFormed(l)
    ensures ApplyReminder(l, Some(ReminderPrefill(l))) == l
  { }

  /** Editing a reminder never changes which record a removal finds. */
  lemma ReminderKeepsFirstMatch(s: seq<Link>, i: nat, answer: Option<string>, text: string, url: string)
    requires i < |s|
    ensures FirstMatch(s[i := ApplyReminder(s[i], answer)], text, url) == FirstMatch(s, text, url)
  {
    var t := s[i := ApplyReminder(s[i], answer)];
    assert forall j :: 0 <= j < |s| ==> (HasKey(t[j], text, url) <==> HasKey(s[j], text, url));
  }

  // ----- Adding a link -----

  /** Appending a well-formed record keeps every record well formed. */
  lemma AppendKeepsWellFormed(s: seq<Link>, l: Link)
    requires AllWellFormed(s) && WellFormed(l)
    ensures AllWellFormed(s + [l])
  { }

  /** Why the add dialog did not add a link. */
  datatype AddError = TextCancelled | TextEmpty | UrlCancelled | UrlEmpty | SchemeDeclined

  /** An address that starts with `https://` in lower case passes the scheme
      test. */
  lemma HttpsPassesSchemeTest(u: string)
    requires StartsWith(u, "https://")
    ensures HasWebScheme(u)
  { }

  /** The scheme test ignores case: it holds exactly when the address begins
      with `http` or `https`, each letter in either case, followed by `://`. */
  lemma SchemeTestIgnoresCase(u: string)
    ensures HasWebScheme(u) <==>
              && |u| >= 7
              && (u[0] == 'h' || u[0] == 'H') && (u[1] == 't' || u[1] == 'T')
              && (u[2] == 't' || u[2] == 'T') && (u[3] == 'p' || u[3] == 'P')
              && (u[4..7] == "://" || (|u| >= 8 && (u[4] == 's' || u[4] == 'S') && u[5..8] == "://"))
  {
    HttpIgnoresCase(u);
    HttpsIgnoresCase(u);
    if |u| >= 7 {
      assert u[4..7] == "://" <==> u[4] == ':' && u[5] == '/' && u[6] == '/';
    }
    if |u| >= 8 {
      assert u[5..8] == "://" <==> u[5] == ':' && u[6] == '/' && u[7] == '/';
    }
  }

  /** Lower-casing gives a lower-case letter from that letter in either case,
      and leaves every other character of a scheme prefix alone. */
  lemma LowerCharIs(c: char, d: char)
    requires d in "htps:/"
    ensures LowerChar(c) == d <==> c == d || ('a' <= d <= 'z' && c as int == d as int - 32)
  { }

  lemma HttpIgnoresCase(u: string)
    ensures StartsWith(Lower(u), "http://") <==>
              && |u| >= 7
              && (u[0] == 'h' || u[0] == 'H') && (u[1] == 't' || u[1] == 'T')
              && (u[2] == 't' || u[2] == 'T') && (u[3] == 'p' || u[3] == 'P')
              && u[4] == ':' && u[5] == '/' && u[6] == '/'
  {
    if |u| >= 7 {
      LowerCharIs(u[0], 'h'); LowerCharIs(u[1], 't'); LowerCharIs(u[2], 't'); LowerCharIs(u[3], 'p');
      LowerCharIs(u[4], ':'); LowerCharIs(u[5], '/'); LowerCharIs(u[6], '/');
    }
  }

  lemma HttpsIgnoresCase(u: string)
    ensures StartsWith(Lower(u), "https://") <==>
              && |u| >= 8
              && (u[0] == 'h' || u[0] == 'H') && (u[1] == 't' || u[1] == 'T')
              && (u[2] == 't' || u[2] == 'T') && (u[3] == 'p' || u[3] == 'P')
              && (u[4] == 's' || u[4] == 'S') && u[5] == ':' && u[6] == '/' && u[7] == '/'
  {
    if |u| >= 8 {
      LowerCharIs(u[0], 'h'); LowerCharIs(u[1], 't'); LowerCharIs(u[2], 't'); LowerCharIs(u[3], 'p');
      LowerCharIs(u[4], 's'); LowerCharIs(u[5], ':'); LowerCharIs(u[6], '/'); LowerCharIs(u[7], '/');
    }
  }

  /** Every address the add dialog prefixes with `https://` passes the scheme
      test. */
  lemma PrefixedHasWebScheme(u: string)
    ensures HasWebScheme("https://" + u)
  { }

  /** Prefixing a trimmed, non-empty address with `https://` keeps it trimmed. */
  lemma PrefixedKeepsTrimmed(u: string)
    requires IsTrimmed(u)
    ensures u != [] ==> IsTrimmed("https://" + u)
  {
    if u != [] {
      var p := "https://" + u;
      assert p[0] == 'h' && p[|p| - 1] == u[|u| - 1];
    }
  }

  /** The scheme step of the add dialog on the URL answer: a trimmed address
      with a web scheme is kept as it is, in its own case; one without it gets
      `https://` in front when the user agrees and is refused otherwise. */
  function CleanUrl(urlAnswer: string, addScheme: bool): (r: Option<string>)
    ensures r.Some? <==> HasWebScheme(Trim(urlAnswer)) || addScheme
    ensures r.Some? ==> r.value == if HasWebScheme(Trim(urlAnswer)) then Trim(urlAnswer)
                                   else "https://" + Trim(urlAnswer)
    ensures r.Some? && !IsBlank(urlAnswer) ==> IsTrimmed(r.value) && HasWebScheme(r.value)
  {
    var cleanUrl := Trim(urlAnswer);
    if HasWebScheme(cleanUrl) then Some(cleanUrl)
    else if addScheme then
      PrefixedHasWebScheme(cleanUrl);
      PrefixedKeepsTrimmed(cleanUrl);
      Some("https://" + cleanUrl)
    else None
  }

  /** The add dialog: the answers to the text prompt, the URL prompt and the
      "add https://?" confirmation decide the new record or the reason for
      refusing it. */
  function ValidateNewLink(textAnswer: Option<string>, urlAnswer: Option<string>, addScheme: bool): (r: Result<Link, AddError>)
    ensures textAnswer.None? ==> r == Failure(TextCancelled)
    ensures textAnswer.Some? && IsBlank(textAnswer.value) ==> r == Failure(TextEmpty)
    ensures textAnswer.Some? && !IsBlank(textAnswer.value) && urlAnswer.None? ==> r == Failure(UrlCancelled)
    ensures textAnswer.Some? && !IsBlank(textAnswer.value) && urlAnswer.Some? && IsBlank(urlAnswer.value)
            ==> r == Failure(UrlEmpty)
    ensures textAnswer.Some? && !IsBlank(textAnswer.value) && urlAnswer.Some? && !IsBlank(urlAnswer.value)
            && !HasWebScheme(Trim(urlAnswer.value)) && !addScheme
            ==> r == Failure(SchemeDeclined)
    ensures r.Success? <==>
            && textAnswer.Some? && !IsBlank(textAnswer.value)
            && urlAnswer.Some? && !IsBlank(urlAnswer.value)
            && (HasWebScheme(Trim(urlAnswer.value)) || addScheme)
    ensures r.Success? ==>
            && r.value.text == Trim(textAnswer.value)
            && r.value.url == (if HasWebScheme(Trim(urlAnswer.value)) then Trim(urlAnswer.value)
                               else "https://" + Trim(urlAnswer.value))
            && r.value.scheduledTime == None
    ensures r.Success? ==> WellFormed(r.value)
  {
    if textAnswer.None? then Failure(TextCancelled)
    else if Trim(textAnswer.value) == "" then Failure(TextEmpty)
    else if urlAnswer.None? then Failure(UrlCancelled)
    else if Trim(urlAnswer.value) == "" then Failure(UrlEmpty)
    else
      match CleanUrl(urlAnswer.value, addScheme)
      case Some(url) => Success(Link(Trim(textAnswer.value), url, None))
      case None => Failure(SchemeDeclined)
  }
}
