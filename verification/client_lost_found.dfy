/**
 * The lost-and-found screens of the web client: the gallery, where a
 * claimant answers an item's questions
 * (client/src/components/LostAndFoundGallery.jsx), and the form that posts
 * an item with its questions (client/src/components/lostItemForm.jsx).
 * Each screen's state is a class; server replies arrive as parameters.
 */
module ClientLostFound {
  import opened Common
  import opened Text
  import opened Queries
  import opened LostItems

  // ----- gallery -----

  function NotClaimed(): LostItem -> bool {
    (it: LostItem) => it.status != Claimed
  }

  /** `availableItems`: the items whose status is not "claimed", in order. */
  function Available(items: seq<LostItem>): (r: seq<LostItem>)
    ensures forall it :: it in r <==> it in items && it.status != Claimed
    ensures forall it :: multiset(r)[it] == if it.status != Claimed then multiset(items)[it] else 0
    ensures r == Filter(items, NotClaimed())
  {
    FilterCounts(items, NotClaimed());
    Filter(items, NotClaimed())
  }

  /** The local update after a successful claim: only items with that id become "claimed". */
  function MarkClaimed(items: seq<LostItem>, id: Id): (r: seq<LostItem>)
    ensures |r| == |items|
    ensures forall k :: 0 <= k < |r| ==> r[k] == (if items[k].id == id then items[k].(status := Claimed) else items[k])
  {
    seq(|items|, k requires 0 <= k < |items| => if items[k].id == id then items[k].(status := Claimed) else items[k])
  }

  /** After the local update the claimed item is gone from the available list and no other item changes there. */
  lemma MarkClaimedLeavesGallery(items: seq<LostItem>, id: Id)
    ensures forall it :: it in Available(MarkClaimed(items, id)) ==> it.id != id
    ensures forall it :: it in Available(MarkClaimed(items, id)) <==> it in Available(items) && it.id != id
  {
    var r := MarkClaimed(items, id);
    forall it | it in Available(items) && it.id != id ensures it in r {
      var k :| 0 <= k < |items| && items[k] == it;
      assert r[k] == it;
    }
    forall it | it in r && it.status != Claimed ensures it in items && it.id != id {
      var k :| 0 <= k < |r| && r[k] == it;
    }
  }

  /** The answers the gallery sends as written: each typed text as a plain string. */
  function PlainAnswers(texts: seq<string>): (r: seq<Answer>)
    ensures |r| == |texts| && forall k :: 0 <= k < |r| ==> r[k] == Plain(texts[k])
  {
    seq(|texts|, k requires 0 <= k < |texts| => Plain(texts[k]))
  }

  /** The answers in the shape the server reads: each typed text under `answer`. */
  function WrappedAnswers(texts: seq<string>): (r: seq<Answer>)
    ensures |r| == |texts| && forall k :: 0 <= k < |r| ==> r[k] == Wrapped(Str(texts[k]))
  {
    seq(|texts|, k requires 0 <= k < |texts| => Wrapped(Str(texts[k])))
  }

  /**
   * As written, what the claimant types is never read: a plain string has no
   * `answer` property, so the server compares "" with each stored answer.
   * The claim passes exactly when every stored answer is blank, and is
   * refused at question 1 exactly when the first one is not.
   */
  lemma PlainAnswersPassIffBlank(qs: seq<Question>, texts: seq<string>)
    requires |texts| == |qs|
    ensures CheckFrom(qs, PlainAnswers(texts), 0) == AllMatch <==> forall k :: 0 <= k < |qs| ==> IsBlank(qs[k].answer)
    ensures qs != [] ==> (CheckFrom(qs, PlainAnswers(texts), 0) == Mismatch(0) <==> !IsBlank(qs[0].answer))
  {
    BlankClaimOutcome(qs, PlainAnswers(texts), 0);
  }

  /**
   * Every item as `create` stores it has non-blank answers, so a claim sent
   * by the gallery as written is refused at question 1 whatever is typed.
   */
  lemma CreatedItemsRejectPlainAnswers(qs: seq<Question>, texts: seq<string>)
    requires QuestionsNonBlank(qs) && qs != [] && |texts| == |qs|
    ensures CheckFrom(qs, PlainAnswers(texts), 0) == Mismatch(0)
  {
    PlainAnswersPassIffBlank(qs, texts);
  }

  /** A concrete instance: the right answer, typed exactly, is still refused when sent plain. */
  lemma RightAnswerSentPlainIsRejected()
    ensures CheckFrom([Question("Colour?", "red")], PlainAnswers(["red"]), 0) == Mismatch(0)
    ensures CheckFrom([Question("Colour?", "red")], WrappedAnswers(["red"]), 0) == AllMatch
  {
    var qs := [Question("Colour?", "red")];
    assert Trim("red") == "red" by {
      TrimOfNoSpace("red");
    }
    assert Lower("red") == "red";
    BlankAnswersFailFirst(qs, PlainAnswers(["red"]));
    AgreeingAnswersPass(qs, ["red"], 0);
  }

  /**
   * Sent in the shape the server reads, a claim passes exactly when every
   * typed answer agrees with the stored one up to surrounding space and
   * letter case.
   */
  lemma WrappedAnswersPassIffAgree(qs: seq<Question>, texts: seq<string>)
    requires |texts| == |qs|
    ensures CheckFrom(qs, WrappedAnswers(texts), 0) == AllMatch <==>
      forall j :: 0 <= j < |qs| ==> Lower(Trim(texts[j])) == Expected(qs[j])
  {
    var answers := WrappedAnswers(texts);
    CheckFromFirstFailure(qs, answers, 0);
    forall j | 0 <= j < |qs| ensures Matches(answers[j], qs[j]) <==> Lower(Trim(texts[j])) == Expected(qs[j]) {
      assert Submitted(answers[j]) == Some(Lower(Trim(texts[j])));
    }
  }

  /** The gallery: the loaded items, the item being claimed, the typed answers by question index, and the claim result. */
  class Gallery {
    var items: seq<LostItem>
    var selected: Option<LostItem>
    var answers: map<int, string>
    var claimStatus: string

    constructor (loaded: seq<LostItem>)
      ensures items == loaded && selected.None? && answers == map[] && claimStatus == ""
    {
      items := loaded;
      selected := None;
      answers := map[];
      claimStatus := "";
    }

    /** Choosing an item to claim: the answers and the claim result start afresh. */
    method Select(item: LostItem)
      modifies this
      ensures selected == Some(item) && answers == map[] && claimStatus == ""
      ensures items == old(items)
    {
      selected := Some(item);
      answers := map[];
      claimStatus := "";
    }

    /** `handleAnswerChange`: the typed text is kept trimmed under its question index. */
    method AnswerChange(index: int, value: string)
      modifies this
      ensures answers == old(answers)[index := Trim(value)]
      ensures items == old(items) && selected == old(selected) && claimStatus == old(claimStatus)
    {
      answers := answers[index := Trim(value)];
    }

    /** `userAnswers`: one text per question of the selected item, "" where nothing was typed. */
    function UserAnswers(): (r: seq<string>)
      reads this
      requires selected.Some?
      ensures |r| == |selected.value.questions|
      ensures forall k :: 0 <= k < |r| ==> r[k] == (if k in answers then answers[k] else "")
    {
      var n := |selected.value.questions|;
      var typed := answers;
      seq(n, k requires 0 <= k < n => if k in typed && typed[k] != "" then typed[k] else "")
    }

    /**
     * `handleClaim`: nothing is sent without a selected item; else the
     * answers are sent, one per question, as plain strings (see
     * `PlainAnswersPassIffBlank` for what the server makes of them).
     * `reply` is None for a network error, else whether the server accepted.
     * On acceptance the item is marked claimed locally; any other outcome
     * records an error and leaves the items alone.
     */
    method HandleClaim(reply: Option<bool>) returns (sent: Option<seq<Answer>>)
      modifies this
      ensures sent.None? <==> old(selected).None?
      ensures sent.Some? ==> sent.value == PlainAnswers(old(UserAnswers()))
      ensures old(selected).None? ==> items == old(items) && claimStatus == old(claimStatus)
      ensures old(selected).Some? && reply == Some(true) ==>
        claimStatus == "success" && items == MarkClaimed(old(items), old(selected).value.id)
      ensures old(selected).Some? && reply != Some(true) ==> claimStatus == "error" && items == old(items)
      ensures selected == old(selected) && answers == old(answers)
    {
      if selected.None? {
        return None;
      }
      sent := Some(PlainAnswers(UserAnswers()));
      if reply == Some(true) {
        claimStatus := "success";
        items := MarkClaimed(items, selected.value.id);
      } else {
        claimStatus := "error";
      }
    }

    /** The gallery shows the available items. */
    function Shown(): (r: seq<LostItem>)
      reads this
      ensures forall it :: it in r <==> it in items && it.status != Claimed
      ensures forall it :: multiset(r)[it] == if it.status != Claimed then multiset(items)[it] else 0
      ensures r == Filter(items, NotClaimed())
    {
      Available(items)
    }
  }

  // ----- posting form -----

  function Filled(): Question -> bool {
    (q: Question) => !IsBlank(q.question) && !IsBlank(q.answer)
  }

  /** `validQuestions`: the pairs whose question and answer are both non-blank, sent as typed. */
  function ValidQuestions(qs: seq<Question>): (r: seq<Question>)
    ensures forall q :: q in r <==> q in qs && !IsBlank(q.question) && !IsBlank(q.answer)
    ensures QuestionsNonBlank(r)
    ensures |r| <= |qs|
    ensures forall q :: multiset(r)[q] == if !IsBlank(q.question) && !IsBlank(q.answer) then multiset(qs)[q] else 0
    ensures r == Filter(qs, Filled())
  {
    FilterCounts(qs, Filled());
    var r := Filter(qs, Filled());
    assert QuestionsNonBlank(r) by {
      forall k | 0 <= k < |r| ensures !IsBlank(r[k].question) && !IsBlank(r[k].answer) {
        assert r[k] in r;
      }
    }
    r
  }

  /** The `questions` field as the server parses it. */
  function RawOf(qs: seq<Question>): (r: seq<RawQuestion>)
    ensures |r| == |qs| && forall k :: 0 <= k < |r| ==> r[k] == Entry(Str(qs[k].question), Str(qs[k].answer))
  {
    seq(|qs|, k requires 0 <= k < |qs| => Entry(Str(qs[k].question), Str(qs[k].answer)))
  }

  /** The server's question filter keeps every question the form sends, unchanged and in order. */
  lemma {:induction false} ServerKeepsSentQuestions(qs: seq<Question>)
    requires QuestionsNonBlank(qs)
    ensures KeepValid(RawOf(qs)) == Some(qs)
  {
    if qs != [] {
      var raw := RawOf(qs);
      assert raw[1..] == RawOf(qs[1..]);
      ServerKeepsSentQuestions(qs[1..]);
      assert KeepTest(raw[0]) == Some(true);
      assert qs == [qs[0]] + qs[1..];
    }
  }

  /** The form fields; react-hook-form gives every field as text. */
  datatype FormInput = FormInput(title: string, description: string, contactName: string, contactPhone: string,
                                 contactEmail: string)

  /** The posted text fields: four trimmed, the e-mail trimmed and only when not blank. */
  function FormOf(input: FormInput): (f: ItemForm)
    ensures f.title == Some(Trim(input.title)) && f.description == Some(Trim(input.description))
    ensures f.contactName == Some(Trim(input.contactName)) && f.contactPhone == Some(Trim(input.contactPhone))
    ensures f.contactEmail.Some? <==> !IsBlank(input.contactEmail)
    ensures f.contactEmail.Some? ==> f.contactEmail.value == Trim(input.contactEmail)
    ensures f.postedBy.None?
  {
    ItemForm(Some(Trim(input.title)), Some(Trim(input.description)), Some(Trim(input.contactName)),
      Some(Trim(input.contactPhone)), if IsBlank(input.contactEmail) then None else Some(Trim(input.contactEmail)), None)
  }

  /**
   * What the server makes of a posted form: it is accepted exactly when the
   * four required fields are not blank, and it stores them as the form
   * trimmed them, with "" for an e-mail left blank.
   */
  lemma ServerStoresPostedForm(input: FormInput, qs: seq<Question>, files: Option<seq<string>>, id: Id, now: Time)
    requires QuestionsNonBlank(qs)
    ensures var r := BuildItem(FormOf(input), qs, files, id, now);
      && (r.Ok? <==> !IsBlank(input.title) && !IsBlank(input.description) && !IsBlank(input.contactName) && !IsBlank(input.contactPhone))
      && (r.Ok? ==> r.value.title == Trim(input.title) && r.value.contactEmail == Some(Trim(input.contactEmail)))
  {
    TrimIdempotent(input.title);
    TrimIdempotent(input.description);
    TrimIdempotent(input.contactName);
    TrimIdempotent(input.contactPhone);
    TrimIdempotent(input.contactEmail);
  }

  const MaxPhotos: nat := 4

  function BlankPair(): Question {
    Question("", "")
  }

  /** What one submission does: stopped by a required field, stopped for want of a question, or posted. */
  datatype SubmitOutcome = FieldMissing | NoValidQuestion | Posted(form: ItemForm, questions: seq<Question>, photos: seq<string>)

  /** The posting form: the question pairs being edited and the chosen photos. */
  class LostItemForm {
    var questions: seq<Question>
    var photos: seq<string>

    /** At least one pair is always on screen. */
    ghost predicate Valid()
      reads this
    {
      |questions| >= 1 && |photos| <= MaxPhotos
    }

    constructor ()
      ensures Valid() && questions == [BlankPair()] && photos == []
    {
      questions := [BlankPair()];
      photos := [];
    }

    /** `setQuestionField` for the question text of pair `idx`. */
    method SetQuestion(idx: int, value: string)
      requires Valid() && 0 <= idx < |questions|
      modifies this
      ensures Valid()
      ensures questions == old(questions)[idx := old(questions)[idx].(question := value)]
      ensures photos == old(photos)
    {
      questions := questions[idx := questions[idx].(question := value)];
    }

    /** `setQuestionField` for the answer text of pair `idx`. */
    method SetAnswer(idx: int, value: string)
      requires Valid() && 0 <= idx < |questions|
      modifies this
      ensures Valid()
      ensures questions == old(questions)[idx := old(questions)[idx].(answer := value)]
      ensures photos == old(photos)
    {
      questions := questions[idx := questions[idx].(answer := value)];
    }

    /** `addQuestion`: one blank pair at the end. */
    method AddQuestion()
      requires Valid()
      modifies this
      ensures Valid()
      ensures questions == old(questions) + [BlankPair()]
      ensures photos == old(photos)
    {
      questions := questions + [BlankPair()];
    }

    /** Remove is offered only while more than one pair is on screen. */
    predicate CanRemove()
      reads this
    {
      |questions| > 1
    }

    /** `removeQuestion`: exactly pair `idx` goes; the others keep their order. */
    method RemoveQuestion(idx: int)
      requires Valid() && CanRemove() && 0 <= idx < |questions|
      modifies this
      ensures Valid()
      ensures |questions| == |old(questions)| - 1
      ensures forall k :: 0 <= k < idx ==> questions[k] == old(questions)[k]
      ensures forall k :: idx <= k < |questions| ==> questions[k] == old(questions)[k + 1]
      ensures photos == old(photos)
    {
      questions := questions[..idx] + questions[idx + 1..];
    }

    /** Choosing files: at most the first four are kept. */
    method ChoosePhotos(files: seq<string>)
      requires Valid()
      modifies this
      ensures Valid()
      ensures |photos| == if |files| < MaxPhotos then |files| else MaxPhotos
      ensures photos == files[..|photos|]
      ensures questions == old(questions)
    {
      photos := if |files| < MaxPhotos then files else files[..MaxPhotos];
    }

    /**
     * `onSubmit` behind react-hook-form's required check: an empty required
     * field stops before `onSubmit`; no filled pair alerts and sends
     * nothing; else the trimmed form, the filled pairs and the photos are
     * posted, and on success the pairs reset to one blank pair and the
     * photos clear.
     */
    method Submit(input: FormInput, succeeded: bool) returns (outcome: SubmitOutcome)
      requires Valid()
      modifies this
      ensures Valid()
      ensures outcome == FieldMissing <==>
        (input.title == "" || input.description == "" || input.contactName == "" || input.contactPhone == "")
      ensures outcome == NoValidQuestion <==>
        (input.title != "" && input.description != "" && input.contactName != "" && input.contactPhone != ""
         && ValidQuestions(old(questions)) == [])
      ensures outcome.Posted? ==>
        outcome.form == FormOf(input) && outcome.questions == ValidQuestions(old(questions)) && outcome.photos == old(photos)
      ensures outcome.Posted? && succeeded ==> questions == [BlankPair()] && photos == []
      ensures !(outcome.Posted? && succeeded) ==> questions == old(questions) && photos == old(photos)
    {
      if input.title == "" || input.description == "" || input.contactName == "" || input.contactPhone == "" {
        return FieldMissing;
      }
      var valid := ValidQuestions(questions);
      if |valid| == 0 {
        return NoValidQuestion;
      }
      outcome := Posted(FormOf(input), valid, photos);
      if succeeded {
        questions := [BlankPair()];
        photos := [];
      }
    }
  }
}
