/** The profile and candidate tables of the API models: the uniqueness and
    check constraints the database enforces on them, the `save` of a ranking
    that stamps its list, the response serializer's checks, and the text forms
    of questions, answers and lists. */
module ApiModels {
  import opened Outcomes
  import opened JsonValues
  import opened Calendar
  import Elrr

  datatype Question = Question(active: bool, order: int, question: string)
  datatype Answer = Answer(question: nat, order: int, answer: string)
  datatype Response = Response(question: nat, submittedBy: nat, selected: nat)

  /** A candidate list; `role` is a vacancy key, `competency` a job reference. */
  datatype CandidateList = CandidateList(ranker: nat, name: string, role: Option<string>,
                                         competency: Option<string>, modified: DateTime)
  datatype Ranking = Ranking(candidateList: nat, candidate: nat, rank: int)

  // Text forms

  /** `str()` of an integer column. */
  function IntText(n: int): string {
    Elrr.IdText(JNum(n))
  }

  lemma {:induction false} NatTextValue(n: nat)
    ensures DigitsValue(Elrr.NatText(n)) == n
  {
    if n >= 10 {
      NatTextValue(n / 10);
      var s := Elrr.NatText(n);
      assert s[..|s| - 1] == Elrr.NatText(n / 10);
      DigitRoundTrip(n % 10);
    } else {
      DigitRoundTrip(n);
    }
  }

  /** `f'{order}. {text}'`, the `__str__` of a question and of an answer. */
  function Numbered(order: int, text: string): (s: string)
    ensures order >= 0 ==> s == Elrr.NatText(order) + ". " + text
  {
    IntText(order) + ". " + text
  }

  lemma ConcatAt(s: string, x: string, k: int)
    ensures 0 <= k < |s| ==> (s + x)[k] == s[k]
    ensures k == |s| && x != [] ==> (s + x)[k] == x[0]
  {
  }

  /** Two digit strings each followed by a non-digit: equal concatenations
      mean equal digit strings. */
  lemma DigitsEndAtNonDigit(sm: string, x: string, sn: string, y: string)
    requires forall i :: 0 <= i < |sm| ==> IsDigit(sm[i])
    requires forall i :: 0 <= i < |sn| ==> IsDigit(sn[i])
    requires x != [] && !IsDigit(x[0]) && y != [] && !IsDigit(y[0])
    requires sm + x == sn + y
    ensures sm == sn
  {
    if |sm| < |sn| {
      ConcatAt(sm, x, |sm|);
      ConcatAt(sn, y, |sm|);
      assert false;
    } else if |sn| < |sm| {
      ConcatAt(sm, x, |sn|);
      ConcatAt(sn, y, |sn|);
      assert false;
    }
    assert sm == (sm + x)[..|sm|];
    assert sn == (sn + y)[..|sn|];
  }

  /** Equal strings with a common prefix have equal rests. */
  lemma CancelPrefix(p: string, a: string, b: string)
    requires p + a == p + b
    ensures a == b
  {
    assert a == (p + a)[|p|..];
    assert b == (p + b)[|p|..];
  }

  /** Two questions (or two answers) with non-negative orders print the same
      only when their orders and texts agree: the number ends where the first
      non-digit, the dot, begins. */
  lemma NumberedInjective(m: int, a: string, n: int, b: string)
    requires m >= 0 && n >= 0
    requires Numbered(m, a) == Numbered(n, b)
    ensures m == n && a == b
  {
    var sm, sn := Elrr.NatText(m), Elrr.NatText(n);
    var ta, tb := ". " + a, ". " + b;
    AppendAssoc(sm, ". ", a);
    AppendAssoc(sn, ". ", b);
    assert ta[0] == '.' && tb[0] == '.';
    DigitsEndAtNonDigit(sm, ta, sn, tb);
    CancelPrefix(sm, ta, tb);
    CancelPrefix(". ", a, b);
    NatTextValue(m);
    NatTextValue(n);
  }

  /** A list shows its competency when one is set, otherwise its role. */
  function Subject(l: CandidateList): Option<string> {
    if l.competency.None? then l.role else l.competency
  }

  /** The `str()` of the row `Subject` picks: the competency's when one is
      set, otherwise the role's (`str(None)` included). */
  function SubjectText(l: CandidateList, roleText: string, competencyText: string): (t: string)
    ensures l.competency.Some? ==> Subject(l) == l.competency && t == competencyText
    ensures l.competency.None? ==> Subject(l) == l.role && t == roleText
  {
    if l.competency.None? then roleText else competencyText
  }

  /** `CandidateList.__str__`: name, the shown subject, and the ranker, where
      `roleText`, `competencyText` and `rankerText` are the `str()` of the
      related rows. The text splits into the name and " - ", the subject's
      text, and the ranker in parentheses. */
  function ListText(l: CandidateList, roleText: string, competencyText: string, rankerText: string): (s: string)
    ensures |s| == |l.name| + 3 + |SubjectText(l, roleText, competencyText)| + 3 + |rankerText|
    ensures s[..|l.name| + 3] == l.name + " - "
    ensures s[|l.name| + 3..|s| - |rankerText| - 3] == SubjectText(l, roleText, competencyText)
    ensures s[|s| - |rankerText| - 3..] == " (" + rankerText + ")"
  {
    var head, subject, tail := l.name + " - ", SubjectText(l, roleText, competencyText), " (" + rankerText + ")";
    ConcatParts(head, subject, tail);
    head + subject + tail
  }

  /** The three parts of `a + b + c` are recovered by slicing. */
  lemma ConcatParts(a: string, b: string, c: string)
    ensures (a + b + c)[..|a|] == a
    ensures (a + b + c)[|a|..|a| + |b|] == b
    ensures (a + b + c)[|a| + |b|..] == c
  {
    assert a + b + c == a + (b + c);
  }

  /** Under the check constraint a list shows the text of the one target it
      has: the role's when it has a role, the competency's otherwise. */
  lemma ListTextShowsTarget(l: CandidateList, roleText: string, competencyText: string, rankerText: string)
    requires RoleXorCompetency(l)
    ensures var s := ListText(l, roleText, competencyText, rankerText);
      s[|l.name| + 3..|s| - |rankerText| - 3] == (if l.role.Some? then roleText else competencyText)
  {
  }

  // Constraints

  /** `role_or_competency`: exactly one of the two is set. */
  predicate RoleXorCompetency(l: CandidateList) {
    l.role.Some? != l.competency.Some?
  }

  /** Under the check constraint a list always shows the one target it has. */
  lemma SubjectIsTheTarget(l: CandidateList)
    requires RoleXorCompetency(l)
    ensures Subject(l).Some?
    ensures Subject(l) == (if l.role.Some? then l.role else l.competency)
  {
  }

  /** Row `id` may hold `q`: order non-negative, and no other row has its
      order or its text. */
  predicate QuestionFits(rows: map<nat, Question>, id: nat, q: Question) {
    q.order >= 0 && forall j :: j in rows && j != id ==> rows[j].order != q.order && rows[j].question != q.question
  }

  /** `unique_answer_order` and `unique_question_answer`. */
  predicate AnswerFits(rows: map<nat, Answer>, id: nat, a: Answer) {
    a.order >= 0
    && forall j :: j in rows && j != id && rows[j].question == a.question ==>
         rows[j].order != a.order && rows[j].answer != a.answer
  }

  /** `unique_question_response`. */
  predicate ResponseFits(rows: map<nat, Response>, id: nat, r: Response) {
    forall j :: j in rows && j != id ==> rows[j].question != r.question || rows[j].submittedBy != r.submittedBy
  }

  /** `unique_list_ranks`, `unique_candidates_in_list`, rank non-negative. */
  predicate RankingFits(rows: map<nat, Ranking>, id: nat, k: Ranking) {
    k.rank >= 0
    && forall j :: j in rows && j != id && rows[j].candidateList == k.candidateList ==>
         rows[j].rank != k.rank && rows[j].candidate != k.candidate
  }

  /** Every row of each table fits among the others. */
  predicate Constrained(questions: map<nat, Question>, answers: map<nat, Answer>, responses: map<nat, Response>,
                        lists: map<nat, CandidateList>, rankings: map<nat, Ranking>) {
    (forall i :: i in questions ==> QuestionFits(questions, i, questions[i]))
    && (forall i :: i in answers ==> AnswerFits(answers, i, answers[i]) && answers[i].question in questions)
    && (forall i :: i in responses ==>
          ResponseFits(responses, i, responses[i]) && responses[i].question in questions && responses[i].selected in answers)
    && (forall i :: i in lists ==> RoleXorCompetency(lists[i]))
    && (forall i :: i in rankings ==> RankingFits(rankings, i, rankings[i]) && rankings[i].candidateList in lists)
  }

  /** Two rows of a constrained question table never share an order or a
      text, and so never print the same. */
  lemma QuestionsPrintDistinctly(rows: map<nat, Question>, i: nat, j: nat)
    requires forall k :: k in rows ==> QuestionFits(rows, k, rows[k])
    requires i in rows && j in rows && i != j
    ensures Numbered(rows[i].order, rows[i].question) != Numbered(rows[j].order, rows[j].question)
  {
    assert QuestionFits(rows, i, rows[i]);
    if Numbered(rows[i].order, rows[i].question) == Numbered(rows[j].order, rows[j].question) {
      NumberedInjective(rows[i].order, rows[i].question, rows[j].order, rows[j].question);
    }
  }

  /** A row that fits keeps each table's uniqueness: the pairs with the other
      rows are the ones checked, and the pairs among the others were fine. */
  lemma {:induction false} QuestionFitsKeepsUnique(rows: map<nat, Question>, id: nat, q: Question)
    requires forall k :: k in rows ==> QuestionFits(rows, k, rows[k])
    requires QuestionFits(rows, id, q)
    ensures var r := rows[id := q]; forall k :: k in r ==> QuestionFits(r, k, r[k])
  {
    var r := rows[id := q];
    forall k | k in r
      ensures QuestionFits(r, k, r[k])
    {
      if k != id {
        assert QuestionFits(rows, k, rows[k]);
      }
    }
  }

  lemma {:induction false} AnswerFitsKeepsUnique(rows: map<nat, Answer>, id: nat, a: Answer)
    requires forall k :: k in rows ==> AnswerFits(rows, k, rows[k])
    requires AnswerFits(rows, id, a)
    ensures var r := rows[id := a]; forall k :: k in r ==> AnswerFits(r, k, r[k])
  {
    var r := rows[id := a];
    forall k | k in r
      ensures AnswerFits(r, k, r[k])
    {
      if k != id {
        assert AnswerFits(rows, k, rows[k]);
      }
    }
  }

  lemma {:induction false} ResponseFitsKeepsUnique(rows: map<nat, Response>, id: nat, p: Response)
    requires forall k :: k in rows ==> ResponseFits(rows, k, rows[k])
    requires ResponseFits(rows, id, p)
    ensures var r := rows[id := p]; forall k :: k in r ==> ResponseFits(r, k, r[k])
  {
    var r := rows[id := p];
    forall k | k in r
      ensures ResponseFits(r, k, r[k])
    {
      if k != id {
        assert ResponseFits(rows, k, rows[k]);
      }
    }
  }

  lemma {:induction false} RankingFitsKeepsUnique(rows: map<nat, Ranking>, id: nat, k: Ranking)
    requires forall i :: i in rows ==> RankingFits(rows, i, rows[i])
    requires RankingFits(rows, id, k)
    ensures var r := rows[id := k]; forall i :: i in r ==> RankingFits(r, i, r[i])
  {
    var r := rows[id := k];
    forall i | i in r
      ensures RankingFits(r, i, r[i])
    {
      if i != id {
        assert RankingFits(rows, i, rows[i]);
      }
    }
  }

  const InvalidPkPrefix: string := "Invalid pk \""
  const InvalidPkSuffix: string := "\" - object does not exist."
  const UniqueResponseMessage: string := "The fields submitted_by, question must make a unique set."
  const SelectedMessage: string := "selected answer must be for the selected question"

  /** The primary-key field's error for a missing row. */
  function InvalidPk(pk: nat): string {
    InvalidPkPrefix + Elrr.NatText(pk) + InvalidPkSuffix
  }

  /** The profile and candidate tables. */
  class ProfileTables {
    var questions: map<nat, Question>
    var answers: map<nat, Answer>
    var responses: map<nat, Response>
    var lists: map<nat, CandidateList>
    var rankings: map<nat, Ranking>

    ghost predicate Valid()
      reads this
    {
      Constrained(questions, answers, responses, lists, rankings)
    }

    constructor ()
      ensures questions == map[] && answers == map[] && responses == map[] && lists == map[] && rankings == map[]
      ensures Valid()
    {
      questions, answers, responses, lists, rankings := map[], map[], map[], map[], map[];
    }

    /** Saving question `id`; the database refuses a negative order and a
        repeated order or text. */
    method SaveQuestion(id: nat, q: Question) returns (r: Result<nat>)
      modifies this
      ensures answers == old(answers) && responses == old(responses)
      ensures lists == old(lists) && rankings == old(rankings)
      ensures r.Ok? <==> QuestionFits(old(questions), id, q)
      ensures r.Ok? ==> r.value == id && questions == old(questions)[id := q]
      ensures r.Err? ==> r.error == IntegrityError && questions == old(questions)
      ensures old(Valid()) ==> Valid()
    {
      if !QuestionFits(questions, id, q) {
        return Err(IntegrityError);
      }
      if Valid() {
        QuestionFitsKeepsUnique(questions, id, q);
      }
      questions := questions[id := q];
      r := Ok(id);
    }

    /** Saving answer `id` of an existing question. */
    method SaveAnswer(id: nat, a: Answer) returns (r: Result<nat>)
      modifies this
      ensures questions == old(questions) && responses == old(responses)
      ensures lists == old(lists) && rankings == old(rankings)
      ensures r.Ok? <==> AnswerFits(old(answers), id, a) && a.question in old(questions)
      ensures r.Ok? ==> r.value == id && answers == old(answers)[id := a]
      ensures r.Err? ==> r.error == IntegrityError && answers == old(answers)
      ensures old(Valid()) ==> Valid()
    {
      if !AnswerFits(answers, id, a) || a.question !in questions {
        return Err(IntegrityError);
      }
      if Valid() {
        AnswerFitsKeepsUnique(answers, id, a);
      }
      answers := answers[id := a];
      r := Ok(id);
    }

    /** Saving response `id`. */
    method SaveResponse(id: nat, p: Response) returns (r: Result<nat>)
      modifies this
      ensures questions == old(questions) && answers == old(answers)
      ensures lists == old(lists) && rankings == old(rankings)
      ensures r.Ok? <==> ResponseFits(old(responses), id, p) && p.question in old(questions) && p.selected in old(answers)
      ensures r.Ok? ==> r.value == id && responses == old(responses)[id := p]
      ensures r.Err? ==> r.error == IntegrityError && responses == old(responses)
      ensures old(Valid()) ==> Valid()
    {
      if !ResponseFits(responses, id, p) || p.question !in questions || p.selected !in answers {
        return Err(IntegrityError);
      }
      if Valid() {
        ResponseFitsKeepsUnique(responses, id, p);
      }
      responses := responses[id := p];
      r := Ok(id);
    }

    /** Saving list `id`; the check constraint refuses a list with both or
        neither of role and competency. */
    method SaveList(id: nat, l: CandidateList) returns (r: Result<nat>)
      modifies this
      ensures questions == old(questions) && answers == old(answers)
      ensures responses == old(responses) && rankings == old(rankings)
      ensures r.Ok? <==> RoleXorCompetency(l)
      ensures r.Ok? ==> r.value == id && lists == old(lists)[id := l]
      ensures r.Err? ==> r.error == IntegrityError && lists == old(lists)
      ensures old(Valid()) ==> Valid()
    {
      if !RoleXorCompetency(l) {
        return Err(IntegrityError);
      }
      lists := lists[id := l];
      r := Ok(id);
    }

    /** `CandidateRanking.save`: the row is written, then its list is saved
        with `update_fields=['modified']`, which stamps it with `now`. */
    method SaveRanking(id: nat, k: Ranking, now: DateTime) returns (r: Result<nat>)
      modifies this
      ensures questions == old(questions) && answers == old(answers) && responses == old(responses)
      ensures r.Ok? <==> RankingFits(old(rankings), id, k) && k.candidateList in old(lists)
      ensures r.Ok? ==> r.value == id && rankings == old(rankings)[id := k]
      ensures r.Ok? ==> lists == old(lists)[k.candidateList := old(lists)[k.candidateList].(modified := now)]
      ensures r.Err? ==> r.error == IntegrityError && rankings == old(rankings) && lists == old(lists)
      ensures old(Valid()) ==> Valid()
    {
      if !RankingFits(rankings, id, k) || k.candidateList !in lists {
        return Err(IntegrityError);
      }
      if Valid() {
        RankingFitsKeepsUnique(rankings, id, k);
      }
      rankings := rankings[id := k];
      lists := lists[k.candidateList := lists[k.candidateList].(modified := now)];
      r := Ok(id);
    }

    /** `ProfileResponseSerializer` validation of a response by user
        `submittedBy` (`instance` is the response being updated, if any): the
        question must be an active one and the answer must exist, the
        unique-together validator refuses a second response to the same
        question by the same user, and `validate` requires the answer to belong
        to the question. The homoglyph check of `validate` sees only related
        rows, which it does not inspect, so it always passes. */
    method ValidateResponse(submittedBy: nat, question: nat, selected: nat, instance: Option<nat>) returns (r: Result<Response>)
      ensures r.Ok? <==>
        question in questions && questions[question].active && selected in answers
        && answers[selected].question == question
        && (forall j :: j in responses && Some(j) != instance ==>
              responses[j].question != question || responses[j].submittedBy != submittedBy)
      ensures r.Ok? ==> r.value == Response(question, submittedBy, selected)
      ensures r.Ok? && instance.Some? ==> ResponseFits(responses, instance.value, r.value)
      ensures r.Ok? && instance.None? ==> forall id :: ResponseFits(responses, id, r.value)
      ensures question !in questions || !questions[question].active ==> r == Err(ValidationError(InvalidPk(question)))
      ensures r.Err? ==> r.error in {ValidationError(InvalidPk(question)), ValidationError(InvalidPk(selected)),
                                     ValidationError(UniqueResponseMessage), ValidationError(SelectedMessage)}
    {
      if question !in questions || !questions[question].active {
        return Err(ValidationError(InvalidPk(question)));
      }
      if selected !in answers {
        return Err(ValidationError(InvalidPk(selected)));
      }
      if exists j :: j in responses && Some(j) != instance
                     && responses[j].question == question && responses[j].submittedBy == submittedBy {
        return Err(ValidationError(UniqueResponseMessage));
      }
      if answers[selected].question != question {
        return Err(ValidationError(SelectedMessage));
      }
      r := Ok(Response(question, submittedBy, selected));
    }
  }
}
