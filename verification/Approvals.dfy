/** How server requests of `codex app-server` are answered
    (crates/am-agents/src/codex_app_server.rs). */
module Approvals {
  import opened Wrappers

  datatype ApprovalDecision = Allow | AllowForSession | Deny | Abort

  predicate IsAllow(d: ApprovalDecision) {
    d == Allow || d == AllowForSession
  }

  /** A question of `item/tool/requestUserInput`; `None` where the JSON has no
      text or no array of that name. */
  datatype Question = Question(id: Option<string>, options: Option<seq<Option<string>>>)

  /** The parts of a request's parameters that decide the answer; `permissions`
      is the JSON value asked for. */
  datatype Params = Params(questions: Option<seq<Question>>, permissions: Option<string>)

  /** A server-to-client request. */
  datatype ServerCall = ServerCall(id: string, method_: string, params: Params)

  datatype ReplyBody =
    | Decision(text: string)
    | Permissions(granted: string, scope: string)
    | Answers(answers: map<string, string>)
    | CancelAction
    | MethodNotFound(method_: string)

  // --------------------------------------------------- accept/decline questions

  function Lower(s: string): string {
    seq(|s|, i requires 0 <= i < |s| => if 'A' <= s[i] <= 'Z' then s[i] - 'A' + 'a' else s[i])
  }

  const ALLOW_LABELS: set<string> := {"accept", "allow", "approve", "yes"}
  const DENY_LABELS: set<string> := {"decline", "deny", "reject", "no", "cancel"}

  /** The first option whose label is one of `labels`, ignoring ASCII case. */
  function FindLabel(options: seq<Option<string>>, labels: set<string>): (r: Option<string>)
    ensures r.Some? ==> Some(r.value) in options && Lower(r.value) in labels
    ensures r.None? ==> forall o :: o in options && o.Some? ==> Lower(o.value) !in labels
  {
    if options == [] then None
    else if options[0].Some? && Lower(options[0].value) in labels then options[0]
    else FindLabel(options[1..], labels)
  }

  datatype Choice = Choice(id: string, allow: string, deny: string)

  function QuestionChoice(q: Question): Option<Choice> {
    if q.id.None? || q.options.None? then None else
      match (FindLabel(q.options.value, ALLOW_LABELS), FindLabel(q.options.value, DENY_LABELS))
      case (Some(allow), Some(deny)) => Some(Choice(q.id.value, allow, deny))
      case _ => None
  }

  function AllChoices(questions: seq<Question>): Option<seq<Choice>> {
    if questions == [] then Some([]) else
      match (QuestionChoice(questions[0]), AllChoices(questions[1..]))
      case (Some(c), Some(cs)) => Some([c] + cs)
      case _ => None
  }

  /** `approval_question_choices`. */
  function ApprovalQuestionChoices(params: Params): Option<seq<Choice>> {
    if params.questions.None? || params.questions.value == [] then None else AllChoices(params.questions.value)
  }

  /** The answers collected into a map: of choices with one id the last stays. */
  function AnswersFor(choices: seq<Choice>, d: ApprovalDecision): map<string, string> {
    if choices == [] then map[] else
      var last := choices[|choices| - 1];
      AnswersFor(choices[..|choices| - 1], d)[last.id := if IsAllow(d) then last.allow else last.deny]
  }

  /** A question with an id, an accepting and a declining option. */
  ghost predicate IsApprovalQuestion(q: Question) {
    && q.id.Some? && q.options.Some?
    && (exists o :: o in q.options.value && o.Some? && Lower(o.value) in ALLOW_LABELS)
    && (exists o :: o in q.options.value && o.Some? && Lower(o.value) in DENY_LABELS)
  }

  /** The answer is an option of the question, on the side the user chose and on
      no other. */
  ghost predicate Follows(q: Question, d: ApprovalDecision, answer: string) {
    && q.options.Some? && Some(answer) in q.options.value
    && (Lower(answer) in ALLOW_LABELS <==> IsAllow(d))
    && (Lower(answer) in DENY_LABELS <==> !IsAllow(d))
  }

  lemma ChoiceFollows(q: Question, d: ApprovalDecision)
    ensures QuestionChoice(q).Some? <==> IsApprovalQuestion(q)
    ensures QuestionChoice(q).Some? ==>
      var c := QuestionChoice(q).value;
      Some(c.id) == q.id && Follows(q, d, if IsAllow(d) then c.allow else c.deny)
  {
    assert ALLOW_LABELS !! DENY_LABELS;
  }

  /** Question `i` is the last with its id. */
  predicate LastWithItsId(questions: seq<Question>, i: nat) {
    i < |questions| && forall j :: i < j < |questions| ==> questions[j].id != questions[i].id
  }

  /** There is an answer for exactly the ids asked about, and the last question
      with an id gets one that follows the user. */
  ghost predicate AllFollow(questions: seq<Question>, d: ApprovalDecision, answers: map<string, string>) {
    && (forall id :: id in answers <==> exists q :: q in questions && q.id == Some(id))
    && (forall i: nat {:trigger questions[i]} :: LastWithItsId(questions, i) ==>
          && questions[i].id.Some? && questions[i].id.value in answers
          && Follows(questions[i], d, answers[questions[i].id.value]))
  }

  lemma ChoicesSnoc(questions: seq<Question>, q: Question)
    ensures AllChoices(questions + [q]) ==
            match (AllChoices(questions), QuestionChoice(q))
            case (Some(cs), Some(c)) => Some(cs + [c])
            case _ => None
  {
    if questions == [] {
      assert questions + [q] == [q] && [q][1..] == [];
      assert QuestionChoice(q).Some? ==> [QuestionChoice(q).value] + [] == [] + [QuestionChoice(q).value];
    } else {
      assert (questions + [q])[1..] == questions[1..] + [q] && (questions + [q])[0] == questions[0];
      ChoicesSnoc(questions[1..], q);
      if AllChoices(questions).Some? && QuestionChoice(q).Some? {
        var first, rest := QuestionChoice(questions[0]).value, AllChoices(questions[1..]).value;
        assert [first] + (rest + [QuestionChoice(q).value]) == [first] + rest + [QuestionChoice(q).value];
      }
    }
  }

  /** Questions are recognised exactly when all of them are approval questions;
      the answers then follow the user. */
  lemma {:induction false} AnswersFollowTheUser(questions: seq<Question>, d: ApprovalDecision)
    ensures AllChoices(questions).Some? <==> forall q :: q in questions ==> IsApprovalQuestion(q)
    ensures AllChoices(questions).Some? ==> AllFollow(questions, d, AnswersFor(AllChoices(questions).value, d))
  {
    if questions != [] {
      var before, last := questions[..|questions| - 1], questions[|questions| - 1];
      assert before + [last] == questions;
      AnswersFollowTheUser(before, d);
      ChoicesSnoc(before, last);
      ChoiceFollows(last, d);
      if AllChoices(questions).Some? {
        LastChoiceFollows(before, last, d, AnswersFor(AllChoices(before).value, d), QuestionChoice(last).value);
        assert AllChoices(questions).value[..|AllChoices(before).value|] == AllChoices(before).value;
      }
    }
  }

  lemma LastChoiceFollows(before: seq<Question>, last: Question, d: ApprovalDecision, answers: map<string, string>, c: Choice)
    requires AllFollow(before, d, answers) && Some(c.id) == last.id
    requires Follows(last, d, if IsAllow(d) then c.allow else c.deny)
    ensures AllFollow(before + [last], d, answers[c.id := if IsAllow(d) then c.allow else c.deny])
  {
    var questions := before + [last];
    var after := answers[c.id := if IsAllow(d) then c.allow else c.deny];
    forall id ensures id in after <==> exists q :: q in questions && q.id == Some(id) {
      if id == c.id {
        assert last in questions;
      } else if id in answers {
        var q :| q in before && q.id == Some(id);
        assert q in questions;
      }
    }
    forall i: nat | LastWithItsId(questions, i) && i < |before|
      ensures questions[i].id.Some? && questions[i].id.value in after && Follows(questions[i], d, after[questions[i].id.value])
    {
      assert questions[i] == before[i] && questions[|before|] == last;
      assert forall j :: i < j < |before| ==> questions[j] == before[j];
      assert LastWithItsId(before, i);
    }
  }

  // --------------------------------------------------------- approval requests

  const PERMISSIONS_METHOD := "item/permissions/requestApproval"
  const CURRENT_METHODS: set<string> := {"item/commandExecution/requestApproval", "item/fileChange/requestApproval"}
  const LEGACY_METHODS: set<string> := {"execCommandApproval", "applyPatchApproval"}

  predicate IsApprovalMethod(m: string) {
    m == PERMISSIONS_METHOD || m in CURRENT_METHODS || m in LEGACY_METHODS
  }

  function ReviewDecision(d: ApprovalDecision): string {
    match d
    case Allow => "approved"
    case AllowForSession => "approved_for_session"
    case Deny => "denied"
    case Abort => "abort"
  }

  function Requested(params: Params): string {
    if params.permissions.Some? then params.permissions.value else "{}"
  }

  /** `approval_response`. */
  function ApprovalResponse(m: string, d: ApprovalDecision, params: Params): ReplyBody {
    if m == PERMISSIONS_METHOD then
      Permissions(if IsAllow(d) then Requested(params) else "{}", if d == AllowForSession then "session" else "turn")
    else if "item/" <= m then
      Decision(match d
               case Allow => "accept"
               case AllowForSession => "acceptForSession"
               case Deny => "decline"
               case Abort => "cancel")
    else Decision(ReviewDecision(d))
  }

  /** What each wire format of the provider takes as consent. */
  predicate ProviderProceeds(m: string, params: Params, body: ReplyBody) {
    if m == PERMISSIONS_METHOD then body.Permissions? && body.granted == Requested(params)
    else if m in CURRENT_METHODS then body.Decision? && body.text in {"accept", "acceptForSession"}
    else body.Decision? && body.text in {"approved", "approved_for_session"}
  }

  /** Two decisions that get the same reply although they differ: permissions know
      neither Deny from Abort, nor, where nothing was asked for, these from Allow. */
  predicate LookAlike(m: string, d: ApprovalDecision, e: ApprovalDecision, params: Params) {
    && m == PERMISSIONS_METHOD && d != AllowForSession && e != AllowForSession
    && (IsAllow(d) == IsAllow(e) || Requested(params) == "{}")
  }

  /** An Allow never reaches the provider as a denial, and a denial reaches it as
      consent exactly where permissions are at stake and none was asked for. Two
      decisions get the same reply exactly if they are one or look alike. */
  lemma DecisionsSurviveTheWire(m: string, d: ApprovalDecision, e: ApprovalDecision, params: Params)
    requires IsApprovalMethod(m)
    ensures ProviderProceeds(m, params, ApprovalResponse(m, d, params)) <==>
            IsAllow(d) || (m == PERMISSIONS_METHOD && Requested(params) == "{}")
    ensures ApprovalResponse(m, d, params) == ApprovalResponse(m, e, params) <==> d == e || LookAlike(m, d, e, params)
  {
    assert forall l :: l in LEGACY_METHODS ==> l[0] != 'i';
    assert forall c :: c in CURRENT_METHODS ==> "item/" <= c;
    assert |"session"| == 7 && |"turn"| == 4;
    assert |"accept"| == 6 && |"acceptForSession"| == 16 && |"decline"| == 7 && |"cancel"| == 6;
    assert |"approved"| == 8 && |"approved_for_session"| == 20 && |"denied"| == 6 && |"abort"| == 5;
  }

  // ---------------------------------------------------------------- dispatching

  /** Whether `handle_server_request` asks the user before it answers. */
  predicate Asks(call: ServerCall) {
    if call.method_ == "item/tool/requestUserInput" then ApprovalQuestionChoices(call.params).Some?
    else IsApprovalMethod(call.method_)
  }

  /** The answer once the user has decided. */
  function DecidedReply(call: ServerCall, d: ApprovalDecision): ReplyBody {
    if call.method_ == "item/tool/requestUserInput" && ApprovalQuestionChoices(call.params).Some? then
      Answers(AnswersFor(ApprovalQuestionChoices(call.params).value, d))
    else ApprovalResponse(call.method_, d, call.params)
  }

  /** The answer of a request that asks nobody: unknown methods fail closed. */
  function ImmediateReply(call: ServerCall): ReplyBody {
    if call.method_ == "item/tool/requestUserInput" then Answers(map[])
    else if call.method_ == "mcpServer/elicitation/request" then CancelAction
    else MethodNotFound(call.method_)
  }
}
