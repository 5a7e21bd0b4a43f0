/** The contact-message record of models/Message.js: the status enum and its default,
    the schema's casting and validation, the pre-save `sanitize` hook, and `getStats`. */
module MessageModel {
  import opened Text
  import opened Email

  /** The schema's status enum. */
  datatype Status = New | Read | Replied | Archived | Spam | Sent | Failed

  const AllStatuses: seq<Status> := [New, Read, Replied, Archived, Spam, Sent, Failed]

  function StatusName(st: Status): string {
    match st
    case New => "new"
    case Read => "read"
    case Replied => "replied"
    case Archived => "archived"
    case Spam => "spam"
    case Sent => "sent"
    case Failed => "failed"
  }

  /** The enum validator: a string names a status only if it is one of the seven enum values. */
  function ParseStatus(s: string): Option<Status> {
    if s == "new" then Some(New)
    else if s == "read" then Some(Read)
    else if s == "replied" then Some(Replied)
    else if s == "archived" then Some(Archived)
    else if s == "spam" then Some(Spam)
    else if s == "sent" then Some(Sent)
    else if s == "failed" then Some(Failed)
    else None
  }

  lemma ParseStatusIff(s: string, st: Status)
    ensures ParseStatus(s) == Some(st) <==> s == StatusName(st)
  {
  }

  lemma StatusNameInjective(a: Status, b: Status)
    ensures StatusName(a) == StatusName(b) ==> a == b
  {
    ParseStatusIff(StatusName(a), b);
  }

  type MessageId = nat

  /** A stored message; `createdAt` and `updatedAt` come from the schema's `timestamps` option. */
  datatype MessageRecord = MessageRecord(
    id: MessageId, name: string, email: string, subject: string, message: string,
    status: Status, createdAt: int, updatedAt: int)

  /** The fields handed to the model; `None` is a field that was not supplied. */
  datatype Draft = Draft(
    name: Option<string>, email: Option<string>, subject: Option<string>,
    message: Option<string>, status: Option<string>)

  datatype Field = NameField | EmailField | MessageField | StatusField

  datatype SaveResult = Saved(record: MessageRecord) | Invalid(fields: set<Field>)

  /** Everything from the first `>` of `s` onwards, minus that `>`; empty when there is none. */
  function AfterTagClose(s: string): (r: string)
    ensures |r| <= |s|
  {
    if s == [] then [] else if s[0] == '>' then s[1..] else AfterTagClose(s[1..])
  }

  /** `str.replace(/<[^>]*>?/gm, '')`: each `<` starts a match that runs through the next `>`,
      or to the end of the string when no `>` follows. */
  function Sanitize(s: string): (r: string)
    ensures |r| <= |s|
    ensures '<' !in r
    decreases |s|
  {
    if s == [] then []
    else if s[0] == '<' then Sanitize(AfterTagClose(s[1..]))
    else [s[0]] + Sanitize(s[1..])
  }

  lemma {:induction false} SanitizeWithoutTags(s: string)
    requires '<' !in s
    ensures Sanitize(s) == s
    decreases |s|
  {
    if s != [] {
      assert s[0] != '<' && '<' !in s[1..];
      SanitizeWithoutTags(s[1..]);
    }
  }

  lemma SanitizeIdempotent(s: string)
    ensures Sanitize(Sanitize(s)) == Sanitize(s)
  {
    SanitizeWithoutTags(Sanitize(s));
  }

  lemma NoTagAfterTrim(s: string)
    requires '<' !in s
    ensures '<' !in Trim(s)
  {
    if '<' in Trim(s) {
      TrimKeepsChars(s, '<');
    }
  }

  lemma NoTagAfterLower(s: string)
    requires '<' !in s
    ensures '<' !in ToLower(s)
  {
    forall i | 0 <= i < |s| ensures ToLower(s)[i] != '<' {
      assert s[i] != '<';
    }
  }

  /** The email setters: `trim` then `lowercase`. */
  function CastEmail(e: string): string {
    ToLower(Trim(e))
  }

  lemma CastEmailShape(e: string)
    ensures var c := CastEmail(e);
      (forall i :: 0 <= i < |c| ==> !IsUpper(c[i])) &&
      (c == [] || (!IsSpace(c[0]) && !IsSpace(c[|c| - 1])))
  {
    TrimIsSlice(e);
    var t := Trim(e);
    if t != [] {
      LowerCharFixes(t[0]);
      LowerCharFixes(t[|t| - 1]);
    }
    forall i | 0 <= i < |t| ensures !IsUpper(CastEmail(e)[i]) {
      LowerCharFixes(t[i]);
    }
  }

  function TrimOpt(o: Option<string>): Option<string> {
    match o
    case None => None
    case Some(s) => Some(Trim(s))
  }

  /** What the document holds once it is constructed: string setters applied and the
      defaults filled in (`subject: ''`, `status: 'new'`). */
  function Cast(d: Draft): Draft {
    Draft(
      TrimOpt(d.name),
      match d.email case None => None case Some(e) => Some(CastEmail(e)),
      Some(match d.subject case None => "" case Some(s) => Trim(s)),
      TrimOpt(d.message),
      Some(match d.status case None => "new" case Some(s) => s))
  }

  /** `required: true` on a string rejects a missing or empty value. */
  predicate Present(o: Option<string>) {
    o.Some? && o.value != ""
  }

  /** The fields that fail the schema's validators. */
  function Violations(d: Draft): set<Field> {
    (if Present(d.name) then {} else {NameField})
    + (if Present(d.email) && SchemaEmailOk(d.email.value) then {} else {EmailField})
    + (if Present(d.message) then {} else {MessageField})
    + (if d.status.Some? && ParseStatus(d.status.value).Some? then {} else {StatusField})
  }

  function SanitizeOpt(o: Option<string>): Option<string> {
    match o
    case None => None
    case Some(s) => Some(Trim(Sanitize(s)))
  }

  /** The pre-save hook: `sanitize` on name, email (then lower-cased), subject (unless empty) and
      message; each assignment runs the field's setters again. */
  function PreSave(d: Draft): Draft {
    Draft(
      SanitizeOpt(d.name),
      match d.email case None => None case Some(e) => Some(CastEmail(ToLower(Sanitize(e)))),
      match d.subject case None => None case Some(s) => Some(if s != "" then Trim(Sanitize(s)) else ""),
      SanitizeOpt(d.message),
      d.status)
  }

  function Build(id: MessageId, now: int, d: Draft): MessageRecord
    requires Violations(d) == {} && d.subject.Some?
  {
    MessageRecord(id, d.name.value, d.email.value, d.subject.value, d.message.value,
                  ParseStatus(d.status.value).value, now, now)
  }

  /** `save()` as the model runs it: validation first, then the pre-save hook, whose output is
      stored without being validated again. */
  function SaveAsWritten(id: MessageId, now: int, d: Draft): SaveResult {
    var c := Cast(d);
    if Violations(c) != {} then Invalid(Violations(c))
    else
      var s := PreSave(c);
      var r := MessageRecord(id, s.name.value, s.email.value, s.subject.value, s.message.value,
                             ParseStatus(c.status.value).value, now, now);
      Saved(r)
  }

  /** What the schema evidently intends: sanitize first, then validate what will be stored. */
  function SaveSanitizedFirst(id: MessageId, now: int, d: Draft): SaveResult {
    var s := PreSave(Cast(d));
    if Violations(s) != {} then Invalid(Violations(s)) else Saved(Build(id, now, s))
  }

  /** Fields both save paths agree on: the status default and enum, the required fields,
      the subject default, and the sanitized, trimmed, lower-cased email. */
  lemma SaveAsWrittenFacts(id: MessageId, now: int, d: Draft)
    ensures SaveAsWritten(id, now, d).Saved? <==> Violations(Cast(d)) == {}
    ensures SaveAsWritten(id, now, d).Saved? ==>
      var r := SaveAsWritten(id, now, d).record;
      && r.id == id && r.createdAt == now && r.updatedAt == now
      && (d.status.None? ==> r.status == New)
      && (d.status.Some? ==> ParseStatus(d.status.value) == Some(r.status))
      && Present(d.name) && Present(d.email) && Present(d.message)
      && (d.subject.None? ==> r.subject == "")
      && '<' !in r.name && '<' !in r.email && '<' !in r.subject && '<' !in r.message
      && (forall i :: 0 <= i < |r.email| ==> !IsUpper(r.email[i]))
  {
    if SaveAsWritten(id, now, d).Saved? {
      var c := Cast(d);
      var r := SaveAsWritten(id, now, d).record;
      NoTagAfterTrim(Sanitize(c.name.value));
      NoTagAfterTrim(Sanitize(c.message.value));
      if c.subject.value != "" {
        NoTagAfterTrim(Sanitize(c.subject.value));
      }
      var lowered := ToLower(Sanitize(c.email.value));
      NoTagAfterLower(Sanitize(c.email.value));
      NoTagAfterTrim(lowered);
      NoTagAfterLower(Trim(lowered));
      CastEmailShape(lowered);
    }
  }

  /** Finding: the hook runs after validation, so a name made only of markup is stored empty
      and an email whose markup hides the domain's last part is stored without matching the
      schema's own pattern. */
  lemma SaveAsWrittenStoresInvalid()
    ensures var r := SaveAsWritten(0, 0, Draft(Some("<b>"), Some("a@b.<c"), None, Some("hi"), None));
      r.Saved? && r.record.name == "" && r.record.email == "a@b." && !SchemaEmailOk(r.record.email)
  {
    var d := Draft(Some("<b>"), Some("a@b.<c"), None, Some("hi"), None);
    var c := Draft(Some("<b>"), Some("a@b.<c"), Some(""), Some("hi"), Some("new"));
    ExampleTrims();
    ExampleEmailCast();
    assert Cast(d) == c;
    ExampleValid();
    ExampleSanitize();
    ExampleStoredEmail();
    assert PreSave(c) == Draft(Some(""), Some("a@b."), Some(""), Some("hi"), Some("new"));
  }

  /** Setter step of `SaveAsWrittenStoresInvalid`: the draft's fields have no white space to trim. */
  lemma ExampleTrims()
    ensures Trim("<b>") == "<b>" && Trim("hi") == "hi" && Trim("") == ""
  {
    TrimNoSpace("<b>");
    TrimNoSpace("hi");
  }

  /** Setter step of `SaveAsWrittenStoresInvalid`: the email is already lower case. */
  lemma ExampleEmailCast()
    ensures CastEmail("a@b.<c") == "a@b.<c"
  {
    TrimNoSpace("a@b.<c");
    ToLowerNoUpper("a@b.<c");
  }

  /** Validation step of `SaveAsWrittenStoresInvalid`: the cast draft passes the schema. */
  lemma ExampleValid()
    ensures Violations(Draft(Some("<b>"), Some("a@b.<c"), Some(""), Some("hi"), Some("new"))) == {}
  {
    assert SplitAt("a@b.<c", 1, 3);
    SchemaEmailOkIff("a@b.<c");
  }

  /** Hook step of `SaveAsWrittenStoresInvalid`: what sanitizing makes of each field. */
  lemma ExampleSanitize()
    ensures Sanitize("<b>") == "" && Sanitize("hi") == "hi" && Sanitize("a@b.<c") == "a@b."
  {
    SanitizeWithoutTags("hi");
    SanitizeWithoutTags("a@b.");
    assert "a@b.<c" == "a@b." + "<c";
    SanitizeAppend("a@b.", "<c");
  }

  /** Text without markup passes through `sanitize` and is followed by whatever the rest becomes. */
  lemma {:induction false} SanitizeAppend(a: string, b: string)
    requires '<' !in a
    ensures Sanitize(a + b) == a + Sanitize(b)
    decreases |a|
  {
    if a != [] {
      assert (a + b)[0] == a[0] && (a + b)[1..] == a[1..] + b;
      assert '<' !in a[1..];
      SanitizeAppend(a[1..], b);
    } else {
      assert a + b == b;
    }
  }

  /** Final step of `SaveAsWrittenStoresInvalid`: the stored email fails the schema's pattern. */
  lemma ExampleStoredEmail()
    ensures CastEmail(ToLower("a@b.")) == "a@b." && !SchemaEmailOk("a@b.")
  {
    ToLowerNoUpper("a@b.");
    TrimNoSpace("a@b.");
    SchemaEmailOkIff("a@b.");
  }

  /** A saved record carries the id and time it was saved with. */
  lemma SaveSanitizedFirstStamps(id: MessageId, now: int, d: Draft)
    ensures SaveSanitizedFirst(id, now, d).Saved? ==>
      var r := SaveSanitizedFirst(id, now, d).record;
      r.id == id && r.createdAt == now && r.updatedAt == now
  {
  }

  /** With sanitizing moved before validation every stored record meets the schema:
      required fields non-empty, the email matching `\S+@\S+\.\S+`, and no markup left. */
  lemma SaveSanitizedFirstValid(id: MessageId, now: int, d: Draft)
    ensures SaveSanitizedFirst(id, now, d).Saved? ==>
      var r := SaveSanitizedFirst(id, now, d).record;
      && r.name != "" && r.message != "" && SchemaEmailOk(r.email)
      && (d.status.None? ==> r.status == New)
      && (d.subject.None? ==> r.subject == "")
      && '<' !in r.name && '<' !in r.email && '<' !in r.subject && '<' !in r.message
  {
    var c := Cast(d);
    if SaveSanitizedFirst(id, now, d).Saved? {
      NoTagAfterTrim(Sanitize(c.name.value));
      NoTagAfterTrim(Sanitize(c.message.value));
      if c.subject.value != "" {
        NoTagAfterTrim(Sanitize(c.subject.value));
      }
      var lowered := ToLower(Sanitize(c.email.value));
      NoTagAfterLower(Sanitize(c.email.value));
      NoTagAfterTrim(lowered);
      NoTagAfterLower(Trim(lowered));
    }
  }

  /** Number of records with status `st`. */
  function CountStatus(rs: seq<MessageRecord>, st: Status): (n: nat)
    ensures n <= |rs|
  {
    if rs == [] then 0 else (if rs[0].status == st then 1 else 0) + CountStatus(rs[1..], st)
  }

  function SumCounts(rs: seq<MessageRecord>, sts: seq<Status>): nat {
    if sts == [] then 0 else CountStatus(rs, sts[0]) + SumCounts(rs, sts[1..])
  }

  lemma {:induction false} SumCountsCons(r: MessageRecord, rest: seq<MessageRecord>, sts: seq<Status>)
    ensures SumCounts([r] + rest, sts) == SumCounts(rest, sts) + multiset(sts)[r.status]
  {
    if sts != [] {
      assert ([r] + rest)[1..] == rest;
      assert sts == [sts[0]] + sts[1..];
      SumCountsCons(r, rest, sts[1..]);
    }
  }

  lemma {:induction false} SumCountsNone(sts: seq<Status>)
    ensures SumCounts([], sts) == 0
  {
    if sts != [] {
      SumCountsNone(sts[1..]);
    }
  }

  lemma StatusOccursOnce(st: Status)
    ensures multiset(AllStatuses)[st] == 1
  {
    assert multiset(AllStatuses) == multiset{New, Read, Replied, Archived, Spam, Sent, Failed};
  }

  /** Every record has exactly one status, so the seven per-status counts add up to the total. */
  lemma {:induction false} StatusCountsPartition(rs: seq<MessageRecord>)
    ensures SumCounts(rs, AllStatuses) == |rs|
  {
    if rs != [] {
      assert rs == [rs[0]] + rs[1..];
      SumCountsCons(rs[0], rs[1..], AllStatuses);
      StatusCountsPartition(rs[1..]);
      StatusOccursOnce(rs[0].status);
    } else {
      SumCountsNone(AllStatuses);
    }
  }

  /** The per-status sum written out term by term. */
  lemma SumCountsAllStatuses(rs: seq<MessageRecord>)
    ensures SumCounts(rs, AllStatuses) ==
      CountStatus(rs, New) + CountStatus(rs, Read) + CountStatus(rs, Replied) + CountStatus(rs, Archived)
      + CountStatus(rs, Spam) + CountStatus(rs, Sent) + CountStatus(rs, Failed)
  {
    var t := AllStatuses;
    assert t[1..] == [Read, Replied, Archived, Spam, Sent, Failed];
    assert t[1..][1..] == [Replied, Archived, Spam, Sent, Failed];
    assert t[1..][1..][1..] == [Archived, Spam, Sent, Failed];
    assert t[1..][1..][1..][1..] == [Spam, Sent, Failed];
    assert t[1..][1..][1..][1..][1..] == [Sent, Failed];
    assert t[1..][1..][1..][1..][1..][1..] == [Failed];
    assert SumCounts(rs, [Failed]) == CountStatus(rs, Failed) + SumCounts(rs, []);
    assert SumCounts(rs, [Sent, Failed]) == CountStatus(rs, Sent) + SumCounts(rs, [Failed]);
    assert SumCounts(rs, [Spam, Sent, Failed]) == CountStatus(rs, Spam) + SumCounts(rs, [Sent, Failed]);
    assert SumCounts(rs, [Archived, Spam, Sent, Failed]) == CountStatus(rs, Archived) + SumCounts(rs, [Spam, Sent, Failed]);
    assert SumCounts(rs, [Replied, Archived, Spam, Sent, Failed]) == CountStatus(rs, Replied) + SumCounts(rs, [Archived, Spam, Sent, Failed]);
    assert SumCounts(rs, t[1..]) == CountStatus(rs, Read) + SumCounts(rs, [Replied, Archived, Spam, Sent, Failed]);
  }

  /** The `$group` stage: one `(status, count)` pair per status that has records. */
  function Groups(rs: seq<MessageRecord>, sts: seq<Status>): seq<(string, nat)> {
    if sts == [] then []
    else if CountStatus(rs, sts[0]) > 0 then [(StatusName(sts[0]), CountStatus(rs, sts[0]))] + Groups(rs, sts[1..])
    else Groups(rs, sts[1..])
  }

  /** The `reduce` that writes each group into the accumulator, in order. */
  function Reduce(gs: seq<(string, nat)>, acc: map<string, nat>): map<string, nat> {
    if gs == [] then acc else Reduce(gs[1..], acc[gs[0].0 := gs[0].1])
  }

  /** `Message.getStats()`. */
  function GetStats(rs: seq<MessageRecord>): map<string, nat> {
    Reduce(Groups(rs, AllStatuses), map["total" := |rs|])
  }

  /** The value of the last group keyed `k`, the one a left-to-right `reduce` keeps. */
  function LastValue(gs: seq<(string, nat)>, k: string): Option<nat> {
    if gs == [] then None
    else match LastValue(gs[1..], k)
      case Some(v) => Some(v)
      case None => if gs[0].0 == k then Some(gs[0].1) else None
  }

  lemma {:induction false} ReduceAt(gs: seq<(string, nat)>, acc: map<string, nat>, k: string)
    ensures k in Reduce(gs, acc) <==> k in acc || LastValue(gs, k).Some?
    ensures k in Reduce(gs, acc) ==>
      Reduce(gs, acc)[k] == (if LastValue(gs, k).Some? then LastValue(gs, k).value else acc[k])
  {
    if gs != [] {
      ReduceAt(gs[1..], acc[gs[0].0 := gs[0].1], k);
    }
  }

  lemma {:induction false} GroupsAtStatus(rs: seq<MessageRecord>, sts: seq<Status>, st: Status)
    ensures LastValue(Groups(rs, sts), StatusName(st)) ==
      (if st in sts && CountStatus(rs, st) > 0 then Some(CountStatus(rs, st)) else None)
  {
    if sts != [] {
      GroupsAtStatus(rs, sts[1..], st);
      StatusNameInjective(sts[0], st);
      assert st in sts <==> st == sts[0] || st in sts[1..];
    }
  }

  lemma {:induction false} GroupsAtOther(rs: seq<MessageRecord>, sts: seq<Status>, k: string)
    requires ParseStatus(k).None?
    ensures LastValue(Groups(rs, sts), k).None?
  {
    if sts != [] {
      GroupsAtOther(rs, sts[1..], k);
      ParseStatusIff(k, sts[0]);
    }
  }

  /** `getStats` reports the document count under `total` and, for each status that has records,
      that status's count under its name; a status with no records has no key, and there are
      no other keys. */
  lemma GetStatsSpec(rs: seq<MessageRecord>)
    ensures "total" in GetStats(rs) && GetStats(rs)["total"] == |rs|
    ensures forall st :: StatusName(st) in GetStats(rs) <==> CountStatus(rs, st) > 0
    ensures forall st :: StatusName(st) in GetStats(rs) ==> GetStats(rs)[StatusName(st)] == CountStatus(rs, st)
    ensures forall k :: k in GetStats(rs) ==> k == "total" || ParseStatus(k).Some?
  {
    GetStatsAtOther(rs, "total");
    forall st ensures StatusName(st) in GetStats(rs) <==> CountStatus(rs, st) > 0
      ensures StatusName(st) in GetStats(rs) ==> GetStats(rs)[StatusName(st)] == CountStatus(rs, st)
    {
      GetStatsAtStatus(rs, st);
    }
    forall k | k in GetStats(rs) && ParseStatus(k).None? ensures k == "total" {
      GetStatsAtOther(rs, k);
    }
  }

  lemma GetStatsAtStatus(rs: seq<MessageRecord>, st: Status)
    ensures StatusName(st) in GetStats(rs) <==> CountStatus(rs, st) > 0
    ensures StatusName(st) in GetStats(rs) ==> GetStats(rs)[StatusName(st)] == CountStatus(rs, st)
  {
    ReduceAt(Groups(rs, AllStatuses), map["total" := |rs|], StatusName(st));
    GroupsAtStatus(rs, AllStatuses, st);
    assert st in AllStatuses;
  }

  lemma GetStatsAtOther(rs: seq<MessageRecord>, k: string)
    requires ParseStatus(k).None?
    ensures k in GetStats(rs) <==> k == "total"
    ensures k == "total" ==> GetStats(rs)[k] == |rs|
  {
    ReduceAt(Groups(rs, AllStatuses), map["total" := |rs|], k);
    GroupsAtOther(rs, AllStatuses, k);
  }

  /** The per-status values of `getStats` add up to its `total`. */
  function PresentSum(m: map<string, nat>, sts: seq<Status>): nat {
    if sts == [] then 0
    else (if StatusName(sts[0]) in m then m[StatusName(sts[0])] else 0) + PresentSum(m, sts[1..])
  }

  lemma {:induction false} PresentSumIsCounts(rs: seq<MessageRecord>, sts: seq<Status>)
    requires forall st :: StatusName(st) in GetStats(rs) <==> CountStatus(rs, st) > 0
    requires forall st :: StatusName(st) in GetStats(rs) ==> GetStats(rs)[StatusName(st)] == CountStatus(rs, st)
    ensures PresentSum(GetStats(rs), sts) == SumCounts(rs, sts)
  {
    if sts != [] {
      PresentSumIsCounts(rs, sts[1..]);
    }
  }

  lemma GetStatsSumsToTotal(rs: seq<MessageRecord>)
    ensures "total" in GetStats(rs) && PresentSum(GetStats(rs), AllStatuses) == GetStats(rs)["total"]
  {
    GetStatsSpec(rs);
    PresentSumIsCounts(rs, AllStatuses);
    StatusCountsPartition(rs);
  }

  /** A document between validation and storage, whose fields the pre-save hook reassigns in
      place; every assignment runs the field's setters (`trim`, and `lowercase` on the email)
      again. */
  class MessageDocument {
    var name: string
    var email: string
    var subject: string
    var message: string
    var status: Status

    /** The document `new Message(d)` builds from a draft that passed validation. */
    constructor (d: Draft)
      requires Violations(Cast(d)) == {}
      ensures Contents() == Cast(d)
    {
      var c := Cast(d);
      name, email, subject, message := c.name.value, c.email.value, c.subject.value, c.message.value;
      status := ParseStatus(c.status.value).value;
      new;
      ParseStatusIff(c.status.value, status);
    }

    /** The fields as a draft. */
    function Contents(): Draft
      reads this
    {
      Draft(Some(name), Some(email), Some(subject), Some(message), Some(StatusName(status)))
    }

    /** The pre-save hook: strip markup from name, email, subject and message, lower-case the
        email, keep an empty subject empty. */
    method PreSaveHook()
      modifies this
      ensures Contents() == PreSave(old(Contents()))
      ensures '<' !in name && '<' !in email && '<' !in subject && '<' !in message
      ensures status == old(status)
    {
      NoTagAfterTrim(Sanitize(name));
      name := Trim(Sanitize(name));
      var lowered := ToLower(Sanitize(email));
      NoTagAfterLower(Sanitize(email));
      NoTagAfterTrim(lowered);
      NoTagAfterLower(Trim(lowered));
      email := CastEmail(lowered);
      if subject != "" {
        NoTagAfterTrim(Sanitize(subject));
        subject := Trim(Sanitize(subject));
      } else {
        subject := "";
      }
      NoTagAfterTrim(Sanitize(message));
      message := Trim(Sanitize(message));
    }
  }
}
