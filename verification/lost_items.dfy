/**
 * The lost-and-found registry: the LostItem schema
 * (server/models/LostItem.js) and its handlers
 * (server/controllers/lostItemController.js). An item carries verification
 * questions whose answers a claimant must repeat.
 */
module LostItems {
  import opened Common
  import opened Text
  import opened Queries
  import Uploads

  datatype ItemStatus = Lost | Found | Claimed

  function ParseItemStatus(name: string): (r: Option<ItemStatus>)
    ensures r.Some? <==> name in {"lost", "found", "claimed"}
  {
    if name == "lost" then Some(Lost)
    else if name == "found" then Some(Found)
    else if name == "claimed" then Some(Claimed)
    else None
  }

  /** A stored verification question. */
  datatype Question = Question(question: string, answer: string)

  /** Both strings of every question are non-blank, as the creation filter guarantees. */
  predicate QuestionsNonBlank(qs: seq<Question>) {
    forall k :: 0 <= k < |qs| ==> !IsBlank(qs[k].question) && !IsBlank(qs[k].answer)
  }

  datatype LostItem = LostItem(
    id: Id,
    title: string,
    description: string,
    photos: seq<string>,
    contactName: string,
    contactPhone: string,
    contactEmail: Option<string>,
    status: ItemStatus,
    questions: seq<Question>,
    postedBy: Option<string>,
    createdAt: Time,
    updatedAt: Time)

  /**
   * A property of a parsed JSON object as the handlers see it: absent (or
   * null), a string, or some other value. `truthy` tells a non-empty
   * object or non-zero number from `0` and `false`.
   */
  datatype Field = Missing | Str(s: string) | NonString(truthy: bool)

  /** An element of the parsed `questions` array: `null` or an object. */
  datatype RawQuestion = NullEntry | Entry(question: Field, answer: Field)

  /**
   * `x?.trim()` as a filter condition: absent is falsy, a string is truthy
   * when its trim is non-empty, and any other value has no `trim` method, so
   * the call throws (`None`).
   */
  function TrimTest(f: Field): Option<bool> {
    match f
    case Missing => Some(false)
    case Str(s) => Some(!IsBlank(s))
    case NonString(_) => None
  }

  /** `q.question?.trim() && q.answer?.trim()`, with `&&` short-circuiting. */
  function KeepTest(q: RawQuestion): Option<bool> {
    match q
    case NullEntry => None
    case Entry(question, answer) =>
      var first := TrimTest(question);
      if first != Some(true) then first else TrimTest(answer)
  }

  /**
   * The question filter of `createLostItem`: keeps the entries whose question
   * and answer are both non-blank, as they were sent (untrimmed); `None` when
   * the filter throws on an entry.
   */
  function KeepValid(raw: seq<RawQuestion>): (r: Option<seq<Question>>)
    ensures r.Some? ==> |r.value| <= |raw|
    ensures r.Some? ==> QuestionsNonBlank(r.value)
    ensures r.Some? <==> forall k :: 0 <= k < |raw| ==> KeepTest(raw[k]).Some?
  {
    if raw == [] then Some([])
    else
      var rest := KeepValid(raw[1..]);
      var keep := KeepTest(raw[0]);
      if keep.None? || rest.None? then
        assert keep.None? ==> !KeepTest(raw[0]).Some?;
        None
      else if keep.value then
        Some([Question(raw[0].question.s, raw[0].answer.s)] + rest.value)
      else rest
  }

  /** A well-formed pair is kept exactly when both of its strings are non-blank. */
  lemma {:induction false} KeepValidMembers(raw: seq<RawQuestion>, q: string, a: string)
    requires KeepValid(raw).Some?
    ensures Question(q, a) in KeepValid(raw).value <==> Entry(Str(q), Str(a)) in raw && !IsBlank(q) && !IsBlank(a)
  {
    if raw != [] {
      KeepValidMembers(raw[1..], q, a);
      assert raw == [raw[0]] + raw[1..];
      if raw[0] == Entry(Str(q), Str(a)) && !IsBlank(q) && !IsBlank(a) {
        assert KeepValid(raw).value[0] == Question(q, a);
      }
    }
  }

  /**
   * The filter works entry by entry: filtering a concatenation is filtering
   * each part and concatenating, so every kept pair stays in the order sent,
   * once per occurrence, and a throw anywhere is a throw of the whole.
   */
  lemma {:induction false} KeepValidAppend(a: seq<RawQuestion>, b: seq<RawQuestion>)
    ensures KeepValid(a + b) ==
      if KeepValid(a).Some? && KeepValid(b).Some? then Some(KeepValid(a).value + KeepValid(b).value) else None
  {
    if a == [] {
      assert a + b == b;
      if KeepValid(b).Some? {
        assert [] + KeepValid(b).value == KeepValid(b).value;
      }
    } else {
      assert (a + b)[0] == a[0] && (a + b)[1..] == a[1..] + b;
      KeepValidAppend(a[1..], b);
      var rest, other := KeepValid(a[1..]), KeepValid(b);
      if KeepTest(a[0]) == Some(true) && rest.Some? && other.Some? {
        var q := Question(a[0].question.s, a[0].answer.s);
        assert [q] + (rest.value + other.value) == ([q] + rest.value) + other.value;
      }
    }
  }

  const MaxQuestions: nat := 10

  /** The text fields of a creation request (multipart form fields are strings or absent). */
  datatype ItemForm = ItemForm(
    title: Option<string>,
    description: Option<string>,
    contactName: Option<string>,
    contactPhone: Option<string>,
    contactEmail: Option<string>,
    postedBy: Option<string>)

  /** `s?.trim()`: absent stays absent. */
  function TrimField(f: Option<string>): Option<string> {
    if f.None? then None else Some(Trim(f.value))
  }

  /** The required string validators: present and non-empty. */
  predicate ValidItem(it: LostItem) {
    && it.title != "" && it.description != "" && it.contactName != "" && it.contactPhone != ""
    && forall k :: 0 <= k < |it.questions| ==> it.questions[k].question != "" && it.questions[k].answer != ""
  }

  /** The required fields are non-blank once trimmed. */
  predicate FormComplete(form: ItemForm) {
    && Truthy(TrimField(form.title)) && Truthy(TrimField(form.description))
    && Truthy(TrimField(form.contactName)) && Truthy(TrimField(form.contactPhone))
  }

  /**
   * `itemData` and `new LostItem(itemData)`: trimmed required fields, the
   * e-mail trimmed or "", `postedBy` defaulting to "anonymous", status "lost",
   * photos as upload paths.
   */
  function BuildItem(form: ItemForm, questions: seq<Question>, files: Option<seq<string>>, id: Id, now: Time): (r: Result<LostItem>)
    requires QuestionsNonBlank(questions)
    ensures r.Ok? <==> FormComplete(form)
    ensures r.Ok? ==> ValidItem(r.value) && r.value.id == id && r.value.status == Lost && r.value.questions == questions
    ensures r.Ok? ==> r.value.title == Trim(form.title.value) && r.value.contactEmail == Some(if form.contactEmail.None? then "" else Trim(form.contactEmail.value))
    ensures r.Ok? ==> r.value.postedBy == Some(if Truthy(form.postedBy) then form.postedBy.value else "anonymous")
    ensures r.Ok? ==> r.value.description == Trim(form.description.value)
    ensures r.Ok? ==> r.value.contactName == Trim(form.contactName.value) && r.value.contactPhone == Trim(form.contactPhone.value)
    ensures r.Ok? ==> r.value.photos == Uploads.MapFiles(files) && r.value.createdAt == now == r.value.updatedAt
  {
    if !FormComplete(form) then Err("Validation failed")
    else
      EmptyIsBlank();
      Ok(LostItem(
        id,
        Trim(form.title.value), Trim(form.description.value), Uploads.MapFiles(files),
        Trim(form.contactName.value), Trim(form.contactPhone.value),
        Some(if form.contactEmail.None? then "" else Trim(form.contactEmail.value)),
        Lost, questions,
        Some(if Truthy(form.postedBy) then form.postedBy.value else "anonymous"),
        now, now))
  }

  // ----- claim verification -----

  /** An element of the submitted `answers` array. */
  datatype Answer = NullAnswer | Plain(text: string) | Wrapped(answer: Field)

  /**
   * `(answers[i]?.answer || "").trim().toLowerCase()`: a plain string has no
   * `answer` property, so it reads as ""; a truthy non-string has no `trim`
   * method, so the step throws (`None`).
   */
  function Submitted(a: Answer): Option<string> {
    match a
    case NullAnswer => Some("")
    case Plain(_) => Some("")
    case Wrapped(Missing) => Some("")
    case Wrapped(Str(s)) => Some(Lower(Trim(s)))
    case Wrapped(NonString(truthy)) => if truthy then None else Some("")
  }

  function Expected(q: Question): string {
    Lower(Trim(q.answer))
  }

  /** How the claim loop ends when started at question `i`. */
  datatype Check = AllMatch | Mismatch(index: nat) | Throws(index: nat)

  predicate Matches(a: Answer, q: Question) {
    Submitted(a) == Some(Expected(q))
  }

  /** The comparison loop of `verifyClaim`, from question `i` on: the first failing question decides. */
  function CheckFrom(qs: seq<Question>, answers: seq<Answer>, i: nat): Check
    requires |answers| == |qs| && i <= |qs|
    decreases |qs| - i
  {
    if i == |qs| then AllMatch
    else if Submitted(answers[i]).None? then Throws(i)
    else if Submitted(answers[i]) != Some(Expected(qs[i])) then Mismatch(i)
    else CheckFrom(qs, answers, i + 1)
  }

  /**
   * The loop passes exactly when every answer matches; otherwise it stops
   * at the first question whose answer throws or differs.
   */
  lemma {:induction false} CheckFromFirstFailure(qs: seq<Question>, answers: seq<Answer>, i: nat)
    requires |answers| == |qs| && i <= |qs|
    ensures var c := CheckFrom(qs, answers, i);
      && (c == AllMatch <==> forall j :: i <= j < |qs| ==> Matches(answers[j], qs[j]))
      && (c.Mismatch? ==> i <= c.index < |qs| && Submitted(answers[c.index]).Some? && !Matches(answers[c.index], qs[c.index]))
      && (c.Throws? ==> i <= c.index < |qs| && Submitted(answers[c.index]).None?)
      && (!c.AllMatch? ==> forall j :: i <= j < c.index ==> Matches(answers[j], qs[j]))
    decreases |qs| - i
  {
    if i < |qs| && Matches(answers[i], qs[i]) {
      CheckFromFirstFailure(qs, answers, i + 1);
    }
  }

  /** Stored answers are non-blank, so an answer that reads as "" never matches: the check stops at question 1. */
  lemma BlankAnswersFailFirst(qs: seq<Question>, answers: seq<Answer>)
    requires |answers| == |qs| > 0
    requires !IsBlank(qs[0].answer)
    requires Submitted(answers[0]) == Some("")
    ensures CheckFrom(qs, answers, 0) == Mismatch(0)
  {
    var t := Trim(qs[0].answer);
    assert |Lower(t)| == |t| > 0;
  }

  /** Answers that agree with the stored ones up to surrounding space and letter case pass the check. */
  lemma {:induction false} AgreeingAnswersPass(qs: seq<Question>, typed: seq<string>, i: nat)
    requires |typed| == |qs| && i <= |qs|
    requires forall j :: 0 <= j < |qs| ==> Lower(Trim(typed[j])) == Expected(qs[j])
    ensures CheckFrom(qs, seq(|typed|, j requires 0 <= j < |typed| => Wrapped(Str(typed[j]))), i) == AllMatch
    decreases |qs| - i
  {
    var answers := seq(|typed|, j requires 0 <= j < |typed| => Wrapped(Str(typed[j])));
    if i < |qs| {
      assert Matches(answers[i], qs[i]);
      AgreeingAnswersPass(qs, typed, i + 1);
    }
  }

  /**
   * What the registry keeps of every item: unique ids and schema validity.
   * Non-blank answers are not kept: `create` admits only those, but an
   * update may store an answer that is only space.
   */
  predicate RegistryInvariant(rs: seq<LostItem>) {
    && UniqueBy(rs, (it: LostItem) => it.id)
    && forall i :: 0 <= i < |rs| ==> ValidItem(rs[i])
  }

  predicate IdFree(rs: seq<LostItem>, id: Id) {
    forall i :: 0 <= i < |rs| ==> rs[i].id != id
  }

  function IndexOfId(rs: seq<LostItem>, id: Id): (r: Option<nat>)
    ensures r.Some? ==> r.value < |rs| && rs[r.value].id == id
    ensures r.None? <==> IdFree(rs, id)
  {
    Find(rs, (it: LostItem) => it.id == id)
  }

  /**
   * The fields `updateLostItem` may set: the request body goes to
   * `findByIdAndUpdate` as it is, questions and photos included; anything
   * absent is kept.
   */
  datatype ItemPatch = ItemPatch(
    title: Option<string>,
    description: Option<string>,
    contactName: Option<string>,
    contactPhone: Option<string>,
    contactEmail: Option<string>,
    status: Option<string>,
    postedBy: Option<string>,
    questions: Option<seq<Question>>,
    photos: Option<seq<string>>)

  /**
   * The update validators (`runValidators`): a required string refuses "",
   * the status must be one of the enum's names, and each supplied question
   * needs a non-empty question and answer. Nothing is trimmed, so an answer
   * of spaces passes.
   */
  predicate PatchAccepts(p: ItemPatch) {
    && p.title != Some("") && p.description != Some("") && p.contactName != Some("") && p.contactPhone != Some("")
    && (p.status.None? || ParseItemStatus(p.status.value).Some?)
    && (p.questions.None? ||
        forall k :: 0 <= k < |p.questions.value| ==> p.questions.value[k].question != "" && p.questions.value[k].answer != "")
  }

  function ApplyPatch(it: LostItem, p: ItemPatch, now: Time): (r: LostItem)
    requires PatchAccepts(p)
    ensures ValidItem(it) ==> ValidItem(r)
    ensures r.id == it.id && r.createdAt == it.createdAt && r.updatedAt == now
    ensures SetPath(p.title, it.title, r.title)
    ensures SetPath(p.description, it.description, r.description)
    ensures SetPath(p.contactName, it.contactName, r.contactName)
    ensures SetPath(p.contactPhone, it.contactPhone, r.contactPhone)
    ensures SetOptionalPath(p.contactEmail, it.contactEmail, r.contactEmail)
    ensures SetOptionalPath(p.postedBy, it.postedBy, r.postedBy)
    ensures SetPath(p.questions, it.questions, r.questions)
    ensures SetPath(p.photos, it.photos, r.photos)
    ensures if p.status.Some? then Some(r.status) == ParseItemStatus(p.status.value) else r.status == it.status
  {
    it.(
      title := SetValue(p.title, it.title),
      description := SetValue(p.description, it.description),
      contactName := SetValue(p.contactName, it.contactName),
      contactPhone := SetValue(p.contactPhone, it.contactPhone),
      contactEmail := SetOptionalValue(p.contactEmail, it.contactEmail),
      status := if p.status.Some? then ParseItemStatus(p.status.value).value else it.status,
      postedBy := SetOptionalValue(p.postedBy, it.postedBy),
      questions := SetValue(p.questions, it.questions),
      photos := SetValue(p.photos, it.photos),
      updatedAt := now)
  }

  const NoChange: ItemPatch := ItemPatch(None, None, None, None, None, None, None, None, None)

  /** The update handler sets the status directly: "claimed" needs no answers there. */
  lemma UpdateCanClaim(it: LostItem, now: Time)
    ensures var p := NoChange.(status := Some("claimed"));
      PatchAccepts(p) && ApplyPatch(it, p, now).status == Claimed
  {
  }

  /**
   * The update validators do not trim, so an update can store an answer that
   * is only space; a claim whose answer reads as "" then passes that question.
   */
  lemma UpdateCanStoreBlankAnswer(it: LostItem, now: Time)
    ensures var p := NoChange.(questions := Some([Question("Colour?", " ")]));
      && PatchAccepts(p)
      && IsBlank(ApplyPatch(it, p, now).questions[0].answer)
      && CheckFrom(ApplyPatch(it, p, now).questions, [Plain("red")], 0) == AllMatch
  {
    var q := Question("Colour?", " ");
    assert Trim(" ") == "" by {
      assert TrimStart(" ") == "";
    }
    assert Expected(q) == "";
  }

  /** The claim reaches the comparison loop: a well-formed known id, an item with questions, one answer per question. */
  predicate ClaimReady(rs: seq<LostItem>, id: Id, answers: Option<seq<Answer>>) {
    && IsObjectId(id) && IndexOfId(rs, id).Some?
    && var it := rs[IndexOfId(rs, id).value];
       it.questions != [] && answers.Some? && |answers.value| == |it.questions|
  }

  /** How the comparison loop ends for a claim that reaches it. */
  function ClaimResult(rs: seq<LostItem>, id: Id, answers: Option<seq<Answer>>): Check
    requires ClaimReady(rs, id, answers)
  {
    CheckFrom(rs[IndexOfId(rs, id).value].questions, answers.value, 0)
  }

  function CreatedAt(it: LostItem): int {
    it.createdAt
  }

  class LostItemRegistry {
    var items: seq<LostItem>

    ghost predicate Valid()
      reads this
    {
      RegistryInvariant(items)
    }

    constructor ()
      ensures Valid() && items == []
    {
      items := [];
    }

    /** `getAllLostItems`: every item, newest first. */
    function ListAll(): (r: seq<LostItem>)
      reads this
      ensures multiset(r) == multiset(items)
      ensures SortedBy(r, NewestFirst(CreatedAt))
    {
      NewestFirstIsTotalPreorder(CreatedAt);
      SortBy(items, NewestFirst(CreatedAt))
    }

    /**
     * `createLostItem`. `questions` is the parsed `questions` field, `None`
     * when it is absent, fails to parse or is not an array (all read as []).
     * A throwing filter is 500; no kept question, or more than ten, is 400;
     * a blank required field fails validation (400).
     */
    method Create(form: ItemForm, questions: Option<seq<RawQuestion>>, files: Option<seq<string>>, id: Id, now: Time)
      returns (status: Status)
      requires Valid() && IdFree(items, id)
      modifies this
      ensures Valid()
      ensures status in {201, 400, 500}
      ensures status == 500 <==> questions.Some? && KeepValid(questions.value).None?
      ensures status == 201 <==>
        (var kept := if questions.None? then Some([]) else KeepValid(questions.value);
         kept.Some? && 1 <= |kept.value| <= MaxQuestions && FormComplete(form))
      ensures status == 201 ==>
        (var kept := if questions.None? then [] else KeepValid(questions.value).value;
         items == old(items) + [BuildItem(form, kept, files, id, now).value])
      ensures status == 201 ==> QuestionsNonBlank(items[|items| - 1].questions)
      ensures status != 201 ==> items == old(items)
    {
      var kept: seq<Question> := [];
      if questions.Some? {
        var filtered := KeepValid(questions.value);
        if filtered.None? {
          return 500;
        }
        kept := filtered.value;
      }
      if |kept| == 0 {
        return 400;
      }
      if |kept| > MaxQuestions {
        return 400;
      }
      var built := BuildItem(form, kept, files, id, now);
      if built.Err? {
        return 400;
      }
      items := items + [built.value];
      status := 201;
    }

    /**
     * `verifyClaim`: a malformed id is 400 (the catch), an unknown item 404;
     * an item without questions, or answers that are not an array of the same
     * length, 400. Then the answers are compared in order; the first mismatch
     * is 403 naming question `failedAt` (counting from 1), and a throwing
     * answer is 400. When all match the item becomes "claimed", whatever its
     * status was.
     */
    method VerifyClaim(id: Id, answers: Option<seq<Answer>>, now: Time) returns (status: Status, failedAt: nat)
      requires Valid()
      modifies this
      ensures Valid()
      ensures status in {200, 400, 403, 404}
      ensures status == 404 <==> IsObjectId(id) && IdFree(old(items), id)
      ensures status == 200 <==> ClaimReady(old(items), id, answers) && ClaimResult(old(items), id, answers) == AllMatch
      ensures status == 403 <==> ClaimReady(old(items), id, answers) && ClaimResult(old(items), id, answers).Mismatch?
      ensures status == 400 <==>
        (|| !IsObjectId(id)
         || (IndexOfId(old(items), id).Some? && !ClaimReady(old(items), id, answers))
         || (ClaimReady(old(items), id, answers) && ClaimResult(old(items), id, answers).Throws?))
      ensures status == 403 ==> failedAt == ClaimResult(old(items), id, answers).index + 1
      ensures status == 200 ==>
        (var i := IndexOfId(old(items), id).value;
         items == old(items)[i := old(items)[i].(status := Claimed, updatedAt := now)])
      ensures status != 200 ==> items == old(items)
    {
      failedAt := 0;
      if !IsObjectId(id) {
        return 400, 0;
      }
      var found := IndexOfId(items, id);
      if found.None? {
        return 404, 0;
      }
      var item := items[found.value];
      if |item.questions| == 0 {
        return 400, 0;
      }
      if answers.None? || |answers.value| != |item.questions| {
        return 400, 0;
      }
      var given := answers.value;
      var i := 0;
      while i < |item.questions|
        invariant 0 <= i <= |item.questions|
        invariant CheckFrom(item.questions, given, 0) == CheckFrom(item.questions, given, i)
      {
        var submitted := Submitted(given[i]);
        if submitted.None? {
          return 400, 0;
        }
        if submitted.value != Expected(item.questions[i]) {
          return 403, i + 1;
        }
        i := i + 1;
      }
      items := items[found.value := item.(status := Claimed, updatedAt := now)];
      status := 200;
    }

    /** `updateLostItem`: 400 for a malformed id or a refused field, 404 for an unknown item. */
    method Update(id: Id, patch: ItemPatch, now: Time) returns (status: Status)
      requires Valid()
      modifies this
      ensures Valid()
      ensures status in {200, 400, 404}
      ensures status == 400 <==> !IsObjectId(id) || !PatchAccepts(patch)
      ensures status == 404 <==> IsObjectId(id) && PatchAccepts(patch) && IdFree(old(items), id)
      ensures status == 200 ==>
        (var i := IndexOfId(old(items), id).value; items == old(items)[i := ApplyPatch(old(items)[i], patch, now)])
      ensures status != 200 ==> items == old(items)
    {
      if !IsObjectId(id) || !PatchAccepts(patch) {
        return 400;
      }
      var found := IndexOfId(items, id);
      if found.None? {
        return 404;
      }
      var i := found.value;
      items := items[i := ApplyPatch(items[i], patch, now)];
      status := 200;
    }

    /** `deleteLostItem`: 500 for a malformed id, 404 for an unknown one, else only that item goes. */
    method Delete(id: Id) returns (status: Status)
      requires Valid()
      modifies this
      ensures Valid()
      ensures status in {200, 404, 500}
      ensures status == 500 <==> !IsObjectId(id)
      ensures status == 404 <==> IsObjectId(id) && IdFree(old(items), id)
      ensures status == 200 ==>
        (var i := IndexOfId(old(items), id).value; items == old(items)[..i] + old(items)[i + 1..])
      ensures status != 200 ==> items == old(items)
    {
      if !IsObjectId(id) {
        return 500;
      }
      var found := IndexOfId(items, id);
      if found.None? {
        return 404;
      }
      var i := found.value;
      items := items[..i] + items[i + 1..];
      status := 200;
    }
  }

  /** An answer reads as "" once trimmed and lower-cased exactly when it is blank. */
  lemma ExpectedEmptyIffBlank(q: Question)
    ensures Expected(q) == "" <==> IsBlank(q.answer)
  {
    assert |Lower(Trim(q.answer))| == |Trim(q.answer)|;
  }

  /**
   * A claim whose every answer reads as "" (plain strings, nulls, missing
   * `answer` fields) passes exactly when every stored answer is blank, and
   * is refused at question 1 exactly when the first stored answer is not.
   */
  lemma {:induction false} BlankClaimOutcome(qs: seq<Question>, answers: seq<Answer>, i: nat)
    requires |answers| == |qs| && i <= |qs|
    requires forall k :: 0 <= k < |answers| ==> Submitted(answers[k]) == Some("")
    ensures CheckFrom(qs, answers, i) == AllMatch <==> forall k :: i <= k < |qs| ==> IsBlank(qs[k].answer)
    ensures i < |qs| ==> (CheckFrom(qs, answers, i) == Mismatch(i) <==> !IsBlank(qs[i].answer))
    decreases |qs| - i
  {
    if i < |qs| {
      ExpectedEmptyIffBlank(qs[i]);
      BlankClaimOutcome(qs, answers, i + 1);
      CheckFromFirstFailure(qs, answers, i + 1);
    }
  }
}
