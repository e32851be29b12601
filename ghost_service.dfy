/** The newsletter side of the blog CMS: a service that adds sign-ups as
    members through the CMS Admin API, labels them and writes a note on
    them, and that refuses every call when the API key is not configured.
    Each Admin API call is recorded in `requests`; its answer is a
    parameter. */
module GhostMembers {

  import opened JsText

  const Placeholder: string := "YOUR_GHOST_ADMIN_API_KEY_HERE"
  const NotConfigured: string := "Ghost Admin API not configured"
  const SignupLabel: string := "newsletter-signup"
  const AlreadyExists: string := "already exists"

  /** The two environment variables the service reads. */
  datatype Env = Env(adminKey: Option<string>, ghostUrl: Option<string>)

  /** `validateConfig()`: the service is usable unless the admin key is
      missing, empty or still the placeholder; a missing CMS url only
      produces a warning. */
  function ValidateConfig(env: Env): (ok: bool)
    ensures !ok <==> !Truthy(env.adminKey) || env.adminKey.value == Placeholder
  {
    Truthy(env.adminKey) && env.adminKey.value != Placeholder
  }

  /** The sign-up form data. */
  datatype MemberData = MemberData(name: Option<string>, email: Option<string>,
                                   company: Option<string>, website: Option<string>)

  /** The member record sent to the Admin API. */
  datatype GhostMember = GhostMember(name: Option<string>, email: Option<string>, labels: seq<string>,
                                     note: string, subscribed: bool)

  /** One character of a company label: lower-cased, and `-` unless it is
      a lower-case letter or a digit. */
  function SlugChar(c: char): (d: char)
    ensures ('a' <= d <= 'z') || ('0' <= d <= '9') || d == '-'
    ensures 'A' <= c <= 'Z' ==> d == ToLowerChar(c)
    ensures ('a' <= c <= 'z') || ('0' <= c <= '9') ==> d == c
  {
    var l := ToLowerChar(c);
    if ('a' <= l <= 'z') || ('0' <= l <= '9') then l else '-'
  }

  /** The company name in lower case, every character other than a lower
      case letter or a digit replaced by `-`. */
  function CompanySlug(company: string): (slug: string)
    ensures |slug| == |company|
    ensures forall i :: 0 <= i < |slug| ==> slug[i] == SlugChar(company[i])
  {
    seq(|company|, i requires 0 <= i < |company| => SlugChar(company[i]))
  }

  /** Every character of a company label is a lower-case letter, a digit
      or `-`, and the label has one character per character of the name. */
  lemma SlugAlphabet(company: string)
    ensures var slug := CompanySlug(company);
      |slug| == |company|
      && forall i :: 0 <= i < |slug| ==> ('a' <= slug[i] <= 'z') || ('0' <= slug[i] <= '9') || slug[i] == '-'
  {
  }

  /** The labels of a new member: always `newsletter-signup`, then
      `company-<slug>` when a company is given. */
  function Labels(m: MemberData): (labels: seq<string>)
    ensures |labels| >= 1 && labels[0] == SignupLabel
    ensures Truthy(m.company) ==> labels == [SignupLabel, "company-" + CompanySlug(m.company.value)]
    ensures !Truthy(m.company) ==> labels == [SignupLabel]
  {
    [SignupLabel] + if Truthy(m.company) then ["company-" + CompanySlug(m.company.value)] else []
  }

  /** The note parts, in order: company and website when given, then the
      source and the date. */
  function NoteParts(m: MemberData, date: string): (parts: seq<string>)
    ensures |parts| == 2 + (if Truthy(m.company) then 1 else 0) + (if Truthy(m.website) then 1 else 0)
    ensures parts[|parts| - 2] == "Source: Newsletter Signup" && parts[|parts| - 1] == "Date: " + date
    ensures Truthy(m.company) ==> parts[0] == "Company: " + m.company.value
    ensures Truthy(m.website) ==> parts[if Truthy(m.company) then 1 else 0] == "Website: " + m.website.value
  {
    (if Truthy(m.company) then ["Company: " + m.company.value] else [])
    + (if Truthy(m.website) then ["Website: " + m.website.value] else [])
    + ["Source: Newsletter Signup", "Date: " + date]
  }

  /** The calendar date of an ISO timestamp: what comes before its first
      `T`, or the whole string when it has none. */
  function IsoDate(iso: string): (date: string)
    ensures 'T' !in date
    ensures StartsWith(iso, date)
    ensures 'T' !in iso ==> date == iso
    ensures 'T' in iso ==> |date| < |iso| && iso[|date|] == 'T'
  {
    var parts := Split(iso, 'T');
    SplitFirst(iso, 'T');
    parts[0]
  }

  /** The first piece of a split holds no separator and begins the string;
      it is the whole string when there is no separator, and is followed by
      the separator otherwise. */
  lemma SplitFirst(s: string, sep: char)
    ensures sep !in Split(s, sep)[0] && StartsWith(s, Split(s, sep)[0])
    ensures sep !in s ==> Split(s, sep)[0] == s
    ensures sep in s ==> |Split(s, sep)[0]| < |s| && s[|Split(s, sep)[0]|] == sep
  {
    IndexOfFromFirst(s, sep, 0);
    match IndexOfFrom(s, sep, 0)
    case None =>
      assert Split(s, sep)[0] == s;
    case Some(k) =>
      assert Split(s, sep)[0] == s[..k];
      assert forall j :: 0 <= j < k ==> s[..k][j] == s[j];
  }

  /** `formatMemberNote(memberData)` at the time `now` (an ISO timestamp). */
  function FormatMemberNote(m: MemberData, now: string): string
  {
    Join(NoteParts(m, IsoDate(now)), " | ")
  }

  /** Without company and website the note is the source and the date. */
  lemma PlainNote(m: MemberData, now: string)
    requires !Truthy(m.company) && !Truthy(m.website)
    ensures FormatMemberNote(m, now) == "Source: Newsletter Signup | Date: " + IsoDate(now)
  {
    var parts := NoteParts(m, IsoDate(now));
    assert parts == ["Source: Newsletter Signup", "Date: " + IsoDate(now)];
    assert parts[1..] == ["Date: " + IsoDate(now)];
    assert Join(parts, " | ") == "Source: Newsletter Signup" + " | " + ("Date: " + IsoDate(now));
    assert "Source: Newsletter Signup" + " | " + "Date: " == "Source: Newsletter Signup | Date: ";
  }

  /** The record `createMember` sends. */
  function ToGhostMember(m: MemberData, now: string): (g: GhostMember)
    ensures g.name == m.name && g.email == m.email && g.subscribed
    ensures g.labels == Labels(m) && g.note == FormatMemberNote(m, now)
  {
    GhostMember(m.name, m.email, Labels(m), FormatMemberNote(m, now), true)
  }

  /** The answer of an Admin API call: a value, or an error with a message
      that may be missing. */
  datatype Answer<T> = Ok(value: T) | Err(message: Option<string>)

  /** A member the API created. */
  datatype Member = Member(id: string)

  /** What `createMember` resolves to or throws. */
  datatype Created = NewMember(member: Member) | Exists(email: Option<string>) | Thrown(message: Option<string>)

  /** The handling of the API's answer: a duplicate email becomes
      `{exists: true, email}`, any other error is thrown again. */
  function OnAdd(answer: Answer<Member>, email: Option<string>): (r: Created)
    ensures answer.Ok? ==> r == NewMember(answer.value)
    ensures answer.Err? && answer.message.Some? && Includes(answer.message.value, AlreadyExists) ==> r == Exists(email)
    ensures answer.Err? && !(answer.message.Some? && Includes(answer.message.value, AlreadyExists))
      ==> r == Thrown(answer.message)
  {
    match answer
    case Ok(member) => NewMember(member)
    case Err(message) =>
      if message.Some? && message.value != "" && Includes(message.value, AlreadyExists) then Exists(email)
      else Thrown(message)
  }

  /** The outcome of `createMember` on an enabled service. */
  function CreateOutcome(m: MemberData, now: string, api: GhostMember -> Answer<Member>): Created
  {
    OnAdd(api(ToGhostMember(m, now)), m.email)
  }

  datatype ErrorRecord = ErrorRecord(email: Option<string>, error: Option<string>)

  /** The results object of `bulkCreateMembers`. */
  datatype Tally = Tally(success: nat, failed: nat, existing: nat, errors: seq<ErrorRecord>)

  /** The results after the first members of the list, counted one by one. */
  function TallyOf(ms: seq<MemberData>, now: string, api: GhostMember -> Answer<Member>): Tally
    decreases |ms|
  {
    if ms == [] then Tally(0, 0, 0, [])
    else
      var t := TallyOf(ms[..|ms| - 1], now, api);
      var m := ms[|ms| - 1];
      match CreateOutcome(m, now, api)
      case NewMember(_) => t.(success := t.success + 1)
      case Exists(_) => t.(existing := t.existing + 1)
      case Thrown(message) => t.(failed := t.failed + 1, errors := t.errors + [ErrorRecord(m.email, message)])
  }

  /** The members whose creation throws, as error records, in list order. */
  function Failures(ms: seq<MemberData>, now: string, api: GhostMember -> Answer<Member>): seq<ErrorRecord>
  {
    if ms == [] then []
    else
      (match CreateOutcome(ms[0], now, api)
       case Thrown(message) => [ErrorRecord(ms[0].email, message)]
       case _ => [])
      + Failures(ms[1..], now, api)
  }

  /** Counting one more member: the results so far, updated by that
      member's outcome. */
  lemma TallyStep(ms: seq<MemberData>, i: nat, now: string, api: GhostMember -> Answer<Member>)
    requires i < |ms|
    ensures var t := TallyOf(ms[..i], now, api);
      TallyOf(ms[..i + 1], now, api) ==
        match CreateOutcome(ms[i], now, api)
        case NewMember(_) => t.(success := t.success + 1)
        case Exists(_) => t.(existing := t.existing + 1)
        case Thrown(message) => t.(failed := t.failed + 1, errors := t.errors + [ErrorRecord(ms[i].email, message)])
  {
    assert ms[..i + 1][..i] == ms[..i];
    assert ms[..i + 1][i] == ms[i];
  }

  lemma {:induction false} FailuresSnoc(ms: seq<MemberData>, m: MemberData, now: string,
                                        api: GhostMember -> Answer<Member>)
    ensures Failures(ms + [m], now, api) == Failures(ms, now, api) + Failures([m], now, api)
    decreases |ms|
  {
    if ms == [] {
      assert ms + [m] == [m];
    } else {
      assert (ms + [m])[1..] == ms[1..] + [m];
      FailuresSnoc(ms[1..], m, now, api);
    }
  }

  /** Every member is counted exactly once: as created, as existing, or as
      failed, and the failures are recorded one per failed member, in
      order. */
  lemma {:induction false} TallyAccounts(ms: seq<MemberData>, now: string, api: GhostMember -> Answer<Member>)
    ensures var t := TallyOf(ms, now, api);
      t.success + t.existing + t.failed == |ms|
      && |t.errors| == t.failed
      && t.errors == Failures(ms, now, api)
    decreases |ms|
  {
    if ms != [] {
      var init := ms[..|ms| - 1];
      var m := ms[|ms| - 1];
      TallyAccounts(init, now, api);
      assert init + [m] == ms;
      FailuresSnoc(init, m, now, api);
      assert [m][1..] == [];
    }
  }

  /** A call made to the Admin API. */
  datatype Request = AddMember(member: GhostMember) | BrowseNewsletters | DestroyMember(id: string) | ReadSite

  /** What `bulkCreateMembers` resolves to or throws. */
  datatype Bulk = BulkDone(tally: Tally) | BulkThrown(message: string)

  datatype Newsletter = Newsletter(id: string, name: string)

  class GhostService {
    /** Whether the configuration was valid when the service was built. */
    const isEnabled: bool
    /** The Admin API calls made so far. */
    var requests: seq<Request>

    constructor (env: Env)
      ensures isEnabled == ValidateConfig(env) && requests == []
    {
      isEnabled := ValidateConfig(env);
      requests := [];
    }

    /** `createMember(memberData)` at time `now`. */
    method CreateMember(m: MemberData, now: string, api: GhostMember -> Answer<Member>) returns (r: Created)
      modifies this
      ensures !isEnabled ==> r == Thrown(Some(NotConfigured)) && requests == old(requests)
      ensures isEnabled ==> r == CreateOutcome(m, now, api)
                             && requests == old(requests) + [AddMember(ToGhostMember(m, now))]
    {
      if !isEnabled {
        return Thrown(Some(NotConfigured));
      }
      var labels := [SignupLabel];
      if Truthy(m.company) {
        labels := labels + ["company-" + CompanySlug(m.company.value)];
      }
      var member := GhostMember(m.name, m.email, labels, FormatMemberNote(m, now), true);
      requests := requests + [AddMember(member)];
      var answer := api(member);
      match answer {
        case Ok(created) =>
          r := NewMember(created);
        case Err(message) =>
          if message.Some? && message.value != "" && Includes(message.value, AlreadyExists) {
            r := Exists(m.email);
          } else {
            r := Thrown(message);
          }
      }
    }

    /** `bulkCreateMembers(membersData)`: creates the members one after
        another and counts the outcomes; a failure is recorded and the loop
        goes on. */
    method BulkCreateMembers(ms: seq<MemberData>, now: string, api: GhostMember -> Answer<Member>)
      returns (r: Bulk)
      modifies this
      ensures !isEnabled ==> r == BulkThrown(NotConfigured) && requests == old(requests)
      ensures isEnabled ==> r == BulkDone(TallyOf(ms, now, api))
                             && requests == old(requests) + AddAll(ms, now)
    {
      if !isEnabled {
        return BulkThrown(NotConfigured);
      }
      var results := Tally(0, 0, 0, []);
      var i := 0;
      while i < |ms|
        invariant 0 <= i <= |ms|
        invariant results == TallyOf(ms[..i], now, api)
        invariant requests == old(requests) + AddAll(ms[..i], now)
      {
        ghost var before := requests;
        var result := CreateMember(ms[i], now, api);
        RequestsStep(old(requests), before, requests, ms, i, now);
        TallyStep(ms, i, now, api);
        match result {
          case Exists(_) => results := results.(existing := results.existing + 1);
          case NewMember(_) => results := results.(success := results.success + 1);
          case Thrown(message) =>
            results := results.(failed := results.failed + 1,
                                errors := results.errors + [ErrorRecord(ms[i].email, message)]);
        }
        i := i + 1;
      }
      assert ms[..|ms|] == ms;
      r := BulkDone(results);
    }

    /** `getNewsletters()`. */
    method GetNewsletters(answer: Answer<seq<Newsletter>>) returns (r: Answer<seq<Newsletter>>)
      modifies this
      ensures !isEnabled ==> r == Err(Some(NotConfigured)) && requests == old(requests)
      ensures isEnabled ==> r == answer && requests == old(requests) + [BrowseNewsletters]
    {
      if !isEnabled {
        return Err(Some(NotConfigured));
      }
      requests := requests + [BrowseNewsletters];
      r := answer;
    }

    /** `deleteMember(memberId)`: `true`, or the API's error thrown again. */
    method DeleteMember(id: string, answer: Answer<()>) returns (r: Answer<bool>)
      modifies this
      ensures !isEnabled ==> r == Err(Some(NotConfigured)) && requests == old(requests)
      ensures isEnabled ==> requests == old(requests) + [DestroyMember(id)]
      ensures isEnabled && answer.Ok? ==> r == Ok(true)
      ensures isEnabled && answer.Err? ==> r == Err(answer.message)
    {
      if !isEnabled {
        return Err(Some(NotConfigured));
      }
      requests := requests + [DestroyMember(id)];
      match answer {
        case Ok(_) => r := Ok(true);
        case Err(message) => r := Err(message);
      }
    }

    /** `testConnection()`: `false` without a call when disabled, otherwise
        whether reading the site succeeds. */
    method TestConnection(answer: Answer<string>) returns (ok: bool)
      modifies this
      ensures !isEnabled ==> !ok && requests == old(requests)
      ensures isEnabled ==> ok == answer.Ok? && requests == old(requests) + [ReadSite]
    {
      if !isEnabled {
        return false;
      }
      requests := requests + [ReadSite];
      ok := answer.Ok?;
    }
  }

  /** One `members.add` call per member, in order. */
  function AddAll(ms: seq<MemberData>, now: string): (rs: seq<Request>)
    ensures |rs| == |ms|
  {
    if ms == [] then [] else AddAll(ms[..|ms| - 1], now) + [AddMember(ToGhostMember(ms[|ms| - 1], now))]
  }

  /** Recording one more `members.add` call extends the record of the
      calls for the first members by the call for the next one. */
  lemma RequestsStep(base: seq<Request>, before: seq<Request>, after: seq<Request>,
                     ms: seq<MemberData>, i: nat, now: string)
    requires i < |ms|
    requires before == base + AddAll(ms[..i], now)
    requires after == before + [AddMember(ToGhostMember(ms[i], now))]
    ensures after == base + AddAll(ms[..i + 1], now)
  {
    assert ms[..i + 1] == ms[..i] + [ms[i]];
    AddAllSnoc(ms[..i], ms[i], now);
  }

  lemma AddAllSnoc(ms: seq<MemberData>, m: MemberData, now: string)
    ensures AddAll(ms + [m], now) == AddAll(ms, now) + [AddMember(ToGhostMember(m, now))]
  {
    assert (ms + [m])[..|ms|] == ms;
  }

  /** The module-level holder of the shared service. */
  class Holder {
    var instance: GhostService?

    constructor ()
      ensures instance == null
    {
      instance := null;
    }

    /** `getInstance()`: builds the service on the first call and returns
        that same service on every later one. */
    method GetInstance(env: Env) returns (s: GhostService)
      modifies this
      ensures old(instance) != null ==> s == old(instance)
      ensures old(instance) == null ==> fresh(s) && s.isEnabled == ValidateConfig(env) && s.requests == []
      ensures instance == s
    {
      if instance == null {
        instance := new GhostService(env);
      }
      s := instance;
    }

    /** Two calls, even with different environments, give the same
        service, configured by the environment of the first call. */
    method GetInstanceTwice(env1: Env, env2: Env) returns (a: GhostService, b: GhostService)
      modifies this
      ensures a == b && instance == a
      ensures old(instance) == null ==> a.isEnabled == ValidateConfig(env1)
    {
      a := GetInstance(env1);
      b := GetInstance(env2);
    }
  }
}
