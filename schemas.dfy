/** The domain records and their acceptance rules (src/domain/schemas.ts):
    a Passage holds Questions; the schema accepts a record when every field
    passes its checks. The UUID test on ids is a parameter `isUuid`, since
    it is the validation library's own pattern. */
module Schemas {
  import opened Wrappers

  datatype Difficulty = Easy | Medium | Hard

  /** The enum's values in declaration order. */
  const Difficulties: seq<Difficulty> := [Easy, Medium, Hard]

  function DifficultyName(d: Difficulty): string {
    match d
    case Easy => "Easy"
    case Medium => "Medium"
    case Hard => "Hard"
  }

  /** The enum check: a string is accepted exactly when it spells one of the
      three difficulties. */
  function ParseDifficulty(s: string): (r: Option<Difficulty>)
    ensures r.Some? <==> s in ["Easy", "Medium", "Hard"]
    ensures r.Some? ==> DifficultyName(r.value) == s
  {
    if s == "Easy" then Some(Easy)
    else if s == "Medium" then Some(Medium)
    else if s == "Hard" then Some(Hard)
    else None
  }

  lemma DifficultyRoundTrip(d: Difficulty)
    ensures ParseDifficulty(DifficultyName(d)) == Some(d)
  {
  }

  /** A question; `correctIndex` is a JavaScript number, so it may be
      fractional or negative until the schema rejects it. */
  datatype Question = Question(id: string, question: string, options: seq<string>, correctIndex: real)

  /** A passage as the form produces it; `difficulty` is the raw string the
      enum check is applied to. */
  datatype Passage = Passage(id: string, title: string, text: string, tags: seq<string>,
                             difficulty: string, questions: seq<Question>)

  predicate IsInteger(x: real) {
    x.Floor as real == x
  }

  /** QuestionSchema: a UUID id, non-empty question text, at least two
      options, none of them empty, and a non-negative integer
      `correctIndex`. No upper bound ties `correctIndex` to the options. */
  predicate ValidQuestion(isUuid: string -> bool, q: Question) {
    && isUuid(q.id)
    && |q.question| >= 1
    && |q.options| >= 2
    && (forall k :: 0 <= k < |q.options| ==> |q.options[k]| >= 1)
    && IsInteger(q.correctIndex)
    && q.correctIndex >= 0.0
  }

  /** PassageSchema: a UUID id, a non-empty title, a text of at least ten
      characters, any list of tags, a difficulty from the enum and valid
      questions (possibly none). */
  predicate ValidPassage(isUuid: string -> bool, p: Passage) {
    && isUuid(p.id)
    && |p.title| >= 1
    && |p.text| >= 10
    && ParseDifficulty(p.difficulty).Some?
    && (forall k :: 0 <= k < |p.questions| ==> ValidQuestion(isUuid, p.questions[k]))
  }

  /** Where an issue is: field names and list positions from the record's
      root. */
  datatype PathKey = Key(name: string) | Index(i: nat)

  /** The check that failed, with the message the schema gives for it when
      it gives one. */
  datatype Check =
    | InvalidUuid
    | TooShort(minimum: nat, message: string)
    | TooFewItems(minimum: nat, message: string)
    | NotInteger
    | TooSmall(bound: int)
    | InvalidEnumValue(options: seq<string>)

  datatype Issue = Issue(path: seq<PathKey>, check: Check)

  function UuidIssues(isUuid: string -> bool, id: string): seq<Issue> {
    if isUuid(id) then [] else [Issue([Key("id")], InvalidUuid)]
  }

  function OptionIssues(options: seq<string>, from: nat): seq<Issue>
    requires from <= |options|
    decreases |options| - from
  {
    if from == |options| then []
    else
      (if |options[from]| < 1 then [Issue([Key("options"), Index(from)], TooShort(1, "Option cannot be empty"))] else [])
      + OptionIssues(options, from + 1)
  }

  /** Everything QuestionSchema reports about `q`, in the order its checks
      are declared. */
  function QuestionIssues(isUuid: string -> bool, q: Question): seq<Issue> {
    UuidIssues(isUuid, q.id)
    + (if |q.question| < 1 then [Issue([Key("question")], TooShort(1, "Question text is required"))] else [])
    + (if |q.options| < 2 then [Issue([Key("options")], TooFewItems(2, "At least 2 options required"))] else [])
    + OptionIssues(q.options, 0)
    + (if IsInteger(q.correctIndex) then [] else [Issue([Key("correctIndex")], NotInteger)])
    + (if q.correctIndex >= 0.0 then [] else [Issue([Key("correctIndex")], TooSmall(0))])
  }

  /** The issues of a nested record, with their paths moved under `prefix`. */
  function Nest(prefix: seq<PathKey>, issues: seq<Issue>): (r: seq<Issue>)
    ensures |r| == |issues|
  {
    if issues == [] then [] else [Issue(prefix + issues[0].path, issues[0].check)] + Nest(prefix, issues[1..])
  }

  function QuestionListIssues(isUuid: string -> bool, qs: seq<Question>, from: nat): seq<Issue>
    requires from <= |qs|
    decreases |qs| - from
  {
    if from == |qs| then []
    else Nest([Key("questions"), Index(from)], QuestionIssues(isUuid, qs[from])) + QuestionListIssues(isUuid, qs, from + 1)
  }

  /** Everything PassageSchema reports about `p`, in the order its checks are
      declared. */
  function PassageIssues(isUuid: string -> bool, p: Passage): seq<Issue> {
    UuidIssues(isUuid, p.id)
    + (if |p.title| < 1 then [Issue([Key("title")], TooShort(1, "Title is required"))] else [])
    + (if |p.text| < 10 then [Issue([Key("text")], TooShort(10, "Text content must be at least 10 characters"))] else [])
    + (if ParseDifficulty(p.difficulty).Some? then [] else [Issue([Key("difficulty")], InvalidEnumValue(["Easy", "Medium", "Hard"]))])
    + QuestionListIssues(isUuid, p.questions, 0)
  }

  lemma {:induction false} OptionIssuesEmpty(options: seq<string>, from: nat)
    requires from <= |options|
    ensures OptionIssues(options, from) == [] <==> forall k :: from <= k < |options| ==> |options[k]| >= 1
    decreases |options| - from
  {
    if from < |options| {
      OptionIssuesEmpty(options, from + 1);
    }
  }

  /** The schema accepts a question exactly when it reports no issue. */
  lemma QuestionIssuesEmpty(isUuid: string -> bool, q: Question)
    ensures QuestionIssues(isUuid, q) == [] <==> ValidQuestion(isUuid, q)
  {
    OptionIssuesEmpty(q.options, 0);
  }

  lemma {:induction false} QuestionListIssuesEmpty(isUuid: string -> bool, qs: seq<Question>, from: nat)
    requires from <= |qs|
    ensures QuestionListIssues(isUuid, qs, from) == [] <==> forall k :: from <= k < |qs| ==> ValidQuestion(isUuid, qs[k])
    decreases |qs| - from
  {
    if from < |qs| {
      QuestionListIssuesEmpty(isUuid, qs, from + 1);
      QuestionIssuesEmpty(isUuid, qs[from]);
      var head := Nest([Key("questions"), Index(from)], QuestionIssues(isUuid, qs[from]));
      var rest := QuestionListIssues(isUuid, qs, from + 1);
      assert QuestionListIssues(isUuid, qs, from) == head + rest;
      assert head == [] <==> ValidQuestion(isUuid, qs[from]);
      if head + rest == [] {
        assert head == [] && rest == [];
        forall k | from <= k < |qs| ensures ValidQuestion(isUuid, qs[k]) {
          if k == from { assert ValidQuestion(isUuid, qs[from]); }
        }
      }
      if forall k :: from <= k < |qs| ==> ValidQuestion(isUuid, qs[k]) {
        assert ValidQuestion(isUuid, qs[from]);
        assert rest == [];
      }
    }
  }

  /** The schema accepts a passage exactly when it reports no issue, nested
      question issues included. */
  lemma PassageIssuesEmpty(isUuid: string -> bool, p: Passage)
    ensures PassageIssues(isUuid, p) == [] <==> ValidPassage(isUuid, p)
  {
    QuestionListIssuesEmpty(isUuid, p.questions, 0);
  }

  /** The schema puts no upper bound on `correctIndex`: a question whose
      answer index points past its options is accepted. */
  lemma CorrectIndexUnbounded(isUuid: string -> bool, id: string)
    requires isUuid(id)
    ensures var q := Question(id, "Which?", ["yes", "no"], 5.0);
      ValidQuestion(isUuid, q) && q.correctIndex >= |q.options| as real
  {
    assert 5.0.Floor == 5;
  }

  /** Any fractional index is rejected by the integer check alone. */
  lemma FractionalIndexRejected(isUuid: string -> bool, q: Question)
    requires !IsInteger(q.correctIndex)
    ensures !ValidQuestion(isUuid, q)
    ensures Issue([Key("correctIndex")], NotInteger) in QuestionIssues(isUuid, q)
  {
  }

  /** Empty tag and question lists are accepted. */
  lemma EmptyListsAccepted(isUuid: string -> bool, p: Passage)
    requires isUuid(p.id) && |p.title| >= 1 && |p.text| >= 10 && p.difficulty == "Hard"
    requires p.tags == [] && p.questions == []
    ensures ValidPassage(isUuid, p)
  {
  }
}
